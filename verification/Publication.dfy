/**
 * Publication identities. A digest is a hash of a length-framed byte stream; what
 * is proved here is that the streams can be decoded in only one way, so that equal
 * digests of a collision-free hash mean equal inputs.
 */
module Publication {
  import opened Wrappers
  import opened Utf8

  /** A string as its UTF-8 bytes; no Rust string is longer than `isize::MAX`. */
  type Text = s: seq<Byte> | |s| < 0x8000_0000_0000_0000

  /** A count as `usize as u64`. */
  type Count = n: nat | n < 0x1_0000_0000_0000_0000

  /** One byte of an ASCII label; the labels below have no other characters. */
  function AsciiByte(c: char): Byte {
    if c < '\U{0080}' then c as int else 0x3F
  }

  function Ascii(s: string): (t: seq<Byte>)
    ensures |t| == |s|
  {
    seq(|s|, i requires 0 <= i < |s| => AsciiByte(s[i]))
  }

  const CODE_DOMAIN := "jscout-code-digest-v1\0"
  const DOCUMENTATION_DOMAIN := "jscout-documentation-digest-v1\0"
  const PUBLICATION_DOMAIN := "jscout-publication-snapshot-v1\0"

  // ---------------------------------------------------------------- frames

  function Power256(k: nat): nat {
    if k == 0 then 1 else 256 * Power256(k - 1)
  }

  /** The `k` low bytes of `n`, least significant first. */
  function LittleEndian(n: nat, k: nat): (s: seq<Byte>)
    ensures |s| == k
  {
    if k == 0 then [] else [n % 256] + LittleEndian(n / 256, k - 1)
  }

  lemma {:induction false} LittleEndianInjective(n: nat, m: nat, k: nat)
    requires n < Power256(k) && m < Power256(k)
    requires LittleEndian(n, k) == LittleEndian(m, k)
    ensures n == m
  {
    if k > 0 {
      assert LittleEndian(n, k)[1..] == LittleEndian(n / 256, k - 1);
      assert LittleEndian(m, k)[1..] == LittleEndian(m / 256, k - 1);
      assert LittleEndian(n, k)[0] == LittleEndian(m, k)[0];
      LittleEndianInjective(n / 256, m / 256, k - 1);
    }
  }

  function CountBytes(n: Count): (s: seq<Byte>)
    ensures |s| == 8
  {
    LittleEndian(n, 8)
  }

  lemma CountBytesInjective(n: Count, m: Count)
    requires CountBytes(n) == CountBytes(m)
    ensures n == m
  {
    assert Power256(8) == 0x1_0000_0000_0000_0000 by {
      assert Power256(4) == 0x1_0000_0000 by {
        assert Power256(2) == 0x1_0000;
      }
      assert Power256(6) == 0x1_0000_0000_0000;
    }
    LittleEndianInjective(n, m, 8);
  }

  // Each encoder takes the rest of the stream, so that decoding peels from the front.

  function PutCount(n: Count, rest: seq<Byte>): seq<Byte> {
    CountBytes(n) + rest
  }

  function PutField(t: Text, rest: seq<Byte>): seq<Byte> {
    CountBytes(|t|) + (t + rest)
  }

  function PutOptional(o: Option<Text>, rest: seq<Byte>): seq<Byte> {
    match o
    case Some(t) => [1] + PutField(t, rest)
    case None => [0] + rest
  }

  lemma CountPeels(n: Count, x: seq<Byte>, m: Count, y: seq<Byte>)
    requires PutCount(n, x) == PutCount(m, y)
    ensures n == m && x == y
  {
    assert PutCount(n, x)[..8] == CountBytes(n) && PutCount(n, x)[8..] == x;
    assert PutCount(m, y)[..8] == CountBytes(m) && PutCount(m, y)[8..] == y;
    CountBytesInjective(n, m);
  }

  lemma FieldPeels(a: Text, x: seq<Byte>, b: Text, y: seq<Byte>)
    requires PutField(a, x) == PutField(b, y)
    ensures a == b && x == y
  {
    CountPeels(|a|, a + x, |b|, b + y);
    assert (a + x)[..|a|] == a && (a + x)[|a|..] == x;
    assert (b + y)[..|b|] == b && (b + y)[|b|..] == y;
  }

  lemma OptionalPeels(a: Option<Text>, x: seq<Byte>, b: Option<Text>, y: seq<Byte>)
    requires PutOptional(a, x) == PutOptional(b, y)
    ensures a == b && x == y
  {
    assert PutOptional(a, x)[0] == PutOptional(b, y)[0];
    assert PutOptional(a, x)[1..] == PutOptional(b, y)[1..];
    match a
    case Some(t) =>
      assert PutOptional(a, x)[1..] == PutField(t, x);
      assert PutOptional(b, y)[1..] == PutField(b.value, y);
      FieldPeels(t, x, b.value, y);
    case None =>
      assert PutOptional(a, x)[1..] == x;
      assert PutOptional(b, y)[1..] == y;
  }

  // ---------------------------------------------------------------- inputs

  datatype FormatContract = FormatContract(id: Text, extractorVersion: Text, marker: Option<Text>)

  datatype CodeRow = CodeRow(
    path: Text, hash: Text, role: Text, origin: Text, format: Text, packagePath: Option<Text>,
    packageOrigin: Option<Text>, packageName: Option<Text>, packageVersion: Option<Text>,
    packageLocator: Option<Text>, packageManifestHash: Option<Text>, packageStatus: Option<Text>)

  datatype DocRow = DocRow(path: Text, hash: Text, format: Text)

  datatype CodeInput = CodeInput(
    projectionVersion: Text, projectionMarker: Option<Text>,
    extractionVersion: Text, extractionMarker: Option<Text>,
    formats: seq<FormatContract>, editionContext: Option<Text>,
    rows: seq<CodeRow>, resolution: Text)

  datatype DocInput = DocInput(
    chunkVersion: Text, chunkMarker: Option<Text>, formats: seq<FormatContract>, rows: seq<DocRow>)

  /** Table sizes that the platform can count. */
  predicate Countable(formats: nat, rows: nat) {
    formats < 0x1_0000_0000_0000_0000 && rows < 0x1_0000_0000_0000_0000
  }

  // ---------------------------------------------------------------- streams

  function PutFormats(formats: seq<FormatContract>, rest: seq<Byte>): seq<Byte> {
    if formats == [] then rest
    else
      PutField(Ascii("active-format-contract"),
      PutField(formats[0].id,
      PutField(formats[0].extractorVersion,
      PutOptional(formats[0].marker,
      PutFormats(formats[1..], rest)))))
  }

  function PutOptionals(values: seq<Option<Text>>, rest: seq<Byte>): seq<Byte> {
    if values == [] then rest else PutOptional(values[0], PutOptionals(values[1..], rest))
  }

  /** The columns joined from the package instance, in digest order. */
  function PackageColumns(r: CodeRow): (columns: seq<Option<Text>>)
    ensures |columns| == 7
  {
    [r.packagePath, r.packageOrigin, r.packageName, r.packageVersion,
     r.packageLocator, r.packageManifestHash, r.packageStatus]
  }

  function PutCodeRow(r: CodeRow, rest: seq<Byte>): seq<Byte> {
    PutField(r.path, PutField(r.hash, PutField(r.role, PutField(r.origin, PutField(r.format, PutOptionals(PackageColumns(r), rest))))))
  }

  function PutCodeRows(rows: seq<CodeRow>, rest: seq<Byte>): seq<Byte> {
    if rows == [] then rest else PutCodeRow(rows[0], PutCodeRows(rows[1..], rest))
  }

  function PutDocRows(rows: seq<DocRow>, rest: seq<Byte>): seq<Byte> {
    if rows == [] then rest
    else PutField(rows[0].path, PutField(rows[0].hash, PutField(rows[0].format, PutDocRows(rows[1..], rest))))
  }

  function ResolutionTail(resolution: Text): seq<Byte> {
    PutField(Ascii("module-resolution"), PutField(resolution, []))
  }

  function CodeTail(i: CodeInput): seq<Byte>
    requires Countable(|i.formats|, |i.rows|)
  {
    PutField(Ascii("rust-edition-context"),
    PutOptional(i.editionContext,
    PutCount(|i.rows|,
    PutCodeRows(i.rows, ResolutionTail(i.resolution)))))
  }

  /** The contracts that every code digest covers, whatever rows there are. */
  function PutCodeHead(i: CodeInput, rest: seq<Byte>): seq<Byte> {
    PutField(Ascii("projection-contract"),
    PutField(i.projectionVersion,
    PutOptional(i.projectionMarker,
    PutField(Ascii("code-extraction-contract"),
    PutField(i.extractionVersion,
    PutOptional(i.extractionMarker, rest))))))
  }

  function CodeBody(i: CodeInput): seq<Byte>
    requires Countable(|i.formats|, |i.rows|)
  {
    PutCodeHead(i, PutCount(|i.formats|, PutFormats(i.formats, CodeTail(i))))
  }

  function CodeStream(i: CodeInput): seq<Byte>
    requires Countable(|i.formats|, |i.rows|)
  {
    Ascii(CODE_DOMAIN) + CodeBody(i)
  }

  function DocBody(i: DocInput): seq<Byte>
    requires Countable(|i.formats|, |i.rows|)
  {
    PutField(Ascii("documentation-chunk-contract"),
    PutField(i.chunkVersion,
    PutOptional(i.chunkMarker,
    PutCount(|i.formats|,
    PutFormats(i.formats,
    PutCount(|i.rows|,
    PutDocRows(i.rows, [])))))))
  }

  function DocStream(i: DocInput): seq<Byte>
    requires Countable(|i.formats|, |i.rows|)
  {
    Ascii(DOCUMENTATION_DOMAIN) + DocBody(i)
  }

  function FoldStream(code: Text, documentation: Text, provenance: Text): seq<Byte> {
    Ascii(PUBLICATION_DOMAIN) + PutField(code, PutField(documentation, PutField(provenance, [])))
  }

  // ---------------------------------------------------------------- unique decoding

  lemma {:induction false} FormatsPeel(a: seq<FormatContract>, x: seq<Byte>, b: seq<FormatContract>, y: seq<Byte>)
    requires |a| == |b| && PutFormats(a, x) == PutFormats(b, y)
    ensures a == b && x == y
  {
    if a != [] {
      var tag: Text := Ascii("active-format-contract");
      var xs, ys := PutFormats(a[1..], x), PutFormats(b[1..], y);
      var x3, y3 := PutOptional(a[0].marker, xs), PutOptional(b[0].marker, ys);
      var x2, y2 := PutField(a[0].extractorVersion, x3), PutField(b[0].extractorVersion, y3);
      var x1, y1 := PutField(a[0].id, x2), PutField(b[0].id, y2);
      FieldPeels(tag, x1, tag, y1);
      FieldPeels(a[0].id, x2, b[0].id, y2);
      FieldPeels(a[0].extractorVersion, x3, b[0].extractorVersion, y3);
      OptionalPeels(a[0].marker, xs, b[0].marker, ys);
      FormatsPeel(a[1..], x, b[1..], y);
    }
  }

  lemma {:induction false} OptionalsPeel(a: seq<Option<Text>>, x: seq<Byte>, b: seq<Option<Text>>, y: seq<Byte>)
    requires |a| == |b| && PutOptionals(a, x) == PutOptionals(b, y)
    ensures a == b && x == y
  {
    if a != [] {
      OptionalPeels(a[0], PutOptionals(a[1..], x), b[0], PutOptionals(b[1..], y));
      OptionalsPeel(a[1..], x, b[1..], y);
    }
  }

  lemma SameColumns(a: CodeRow, b: CodeRow)
    requires PackageColumns(a) == PackageColumns(b)
    ensures b == a.(path := b.path, hash := b.hash, role := b.role, origin := b.origin, format := b.format)
  {
    assert forall i :: 0 <= i < 7 ==> PackageColumns(a)[i] == PackageColumns(b)[i];
  }

  lemma CodeRowPeels(a: CodeRow, x: seq<Byte>, b: CodeRow, y: seq<Byte>)
    requires PutCodeRow(a, x) == PutCodeRow(b, y)
    ensures a == b && x == y
  {
    var x5, y5 := PutOptionals(PackageColumns(a), x), PutOptionals(PackageColumns(b), y);
    var x4, y4 := PutField(a.format, x5), PutField(b.format, y5);
    var x3, y3 := PutField(a.origin, x4), PutField(b.origin, y4);
    var x2, y2 := PutField(a.role, x3), PutField(b.role, y3);
    var x1, y1 := PutField(a.hash, x2), PutField(b.hash, y2);
    FieldPeels(a.path, x1, b.path, y1);
    FieldPeels(a.hash, x2, b.hash, y2);
    FieldPeels(a.role, x3, b.role, y3);
    FieldPeels(a.origin, x4, b.origin, y4);
    FieldPeels(a.format, x5, b.format, y5);
    OptionalsPeel(PackageColumns(a), x, PackageColumns(b), y);
    SameColumns(a, b);
  }

  lemma {:induction false} CodeRowsPeel(a: seq<CodeRow>, x: seq<Byte>, b: seq<CodeRow>, y: seq<Byte>)
    requires |a| == |b| && PutCodeRows(a, x) == PutCodeRows(b, y)
    ensures a == b && x == y
  {
    if a != [] {
      CodeRowPeels(a[0], PutCodeRows(a[1..], x), b[0], PutCodeRows(b[1..], y));
      CodeRowsPeel(a[1..], x, b[1..], y);
    }
  }

  lemma {:induction false} DocRowsPeel(a: seq<DocRow>, b: seq<DocRow>)
    requires |a| == |b| && PutDocRows(a, []) == PutDocRows(b, [])
    ensures a == b
  {
    if a != [] {
      var x3, y3 := PutDocRows(a[1..], []), PutDocRows(b[1..], []);
      var x2, y2 := PutField(a[0].format, x3), PutField(b[0].format, y3);
      var x1, y1 := PutField(a[0].hash, x2), PutField(b[0].hash, y2);
      FieldPeels(a[0].path, x1, b[0].path, y1);
      FieldPeels(a[0].hash, x2, b[0].hash, y2);
      FieldPeels(a[0].format, x3, b[0].format, y3);
      DocRowsPeel(a[1..], b[1..]);
    }
  }

  lemma CodeTailDecodes(a: CodeInput, b: CodeInput)
    requires Countable(|a.formats|, |a.rows|) && Countable(|b.formats|, |b.rows|)
    requires CodeTail(a) == CodeTail(b)
    ensures a.editionContext == b.editionContext && a.rows == b.rows && a.resolution == b.resolution
  {
    var edition: Text := Ascii("rust-edition-context");
    var x4, y4 := ResolutionTail(a.resolution), ResolutionTail(b.resolution);
    var x3, y3 := PutCodeRows(a.rows, x4), PutCodeRows(b.rows, y4);
    var x2, y2 := PutCount(|a.rows|, x3), PutCount(|b.rows|, y3);
    var x1, y1 := PutOptional(a.editionContext, x2), PutOptional(b.editionContext, y2);
    FieldPeels(edition, x1, edition, y1);
    OptionalPeels(a.editionContext, x2, b.editionContext, y2);
    CountPeels(|a.rows|, x3, |b.rows|, y3);
    CodeRowsPeel(a.rows, x4, b.rows, y4);
    var tag: Text := Ascii("module-resolution");
    FieldPeels(tag, PutField(a.resolution, []), tag, PutField(b.resolution, []));
    FieldPeels(a.resolution, [], b.resolution, []);
  }

  lemma CodeHeadPeels(a: CodeInput, x: seq<Byte>, b: CodeInput, y: seq<Byte>)
    requires PutCodeHead(a, x) == PutCodeHead(b, y)
    ensures x == y
    ensures a.projectionVersion == b.projectionVersion && a.projectionMarker == b.projectionMarker
    ensures a.extractionVersion == b.extractionVersion && a.extractionMarker == b.extractionMarker
  {
    var projection: Text := Ascii("projection-contract");
    var extraction: Text := Ascii("code-extraction-contract");
    var x5, y5 := PutOptional(a.extractionMarker, x), PutOptional(b.extractionMarker, y);
    var x4, y4 := PutField(a.extractionVersion, x5), PutField(b.extractionVersion, y5);
    var x3, y3 := PutField(extraction, x4), PutField(extraction, y4);
    var x2, y2 := PutOptional(a.projectionMarker, x3), PutOptional(b.projectionMarker, y3);
    var x1, y1 := PutField(a.projectionVersion, x2), PutField(b.projectionVersion, y2);
    FieldPeels(projection, x1, projection, y1);
    FieldPeels(a.projectionVersion, x2, b.projectionVersion, y2);
    OptionalPeels(a.projectionMarker, x3, b.projectionMarker, y3);
    FieldPeels(extraction, x4, extraction, y4);
    FieldPeels(a.extractionVersion, x5, b.extractionVersion, y5);
    OptionalPeels(a.extractionMarker, x, b.extractionMarker, y);
  }

  /** Equal code streams come from equal inputs, row by row and in the same order. */
  lemma CodeStreamInjective(a: CodeInput, b: CodeInput)
    requires Countable(|a.formats|, |a.rows|) && Countable(|b.formats|, |b.rows|)
    requires CodeStream(a) == CodeStream(b)
    ensures a == b
  {
    assert CodeStream(a)[|CODE_DOMAIN|..] == CodeBody(a);
    assert CodeStream(b)[|CODE_DOMAIN|..] == CodeBody(b);
    var x, y := PutFormats(a.formats, CodeTail(a)), PutFormats(b.formats, CodeTail(b));
    CodeHeadPeels(a, PutCount(|a.formats|, x), b, PutCount(|b.formats|, y));
    CountPeels(|a.formats|, x, |b.formats|, y);
    FormatsPeel(a.formats, CodeTail(a), b.formats, CodeTail(b));
    CodeTailDecodes(a, b);
  }

  lemma DocStreamInjective(a: DocInput, b: DocInput)
    requires Countable(|a.formats|, |a.rows|) && Countable(|b.formats|, |b.rows|)
    requires DocStream(a) == DocStream(b)
    ensures a == b
  {
    assert DocStream(a)[|DOCUMENTATION_DOMAIN|..] == DocBody(a);
    assert DocStream(b)[|DOCUMENTATION_DOMAIN|..] == DocBody(b);
    var tag: Text := Ascii("documentation-chunk-contract");
    var x5, y5 := PutDocRows(a.rows, []), PutDocRows(b.rows, []);
    var x4, y4 := PutCount(|a.rows|, x5), PutCount(|b.rows|, y5);
    var x3, y3 := PutFormats(a.formats, x4), PutFormats(b.formats, y4);
    var x2, y2 := PutCount(|a.formats|, x3), PutCount(|b.formats|, y3);
    var x1, y1 := PutOptional(a.chunkMarker, x2), PutOptional(b.chunkMarker, y2);
    var x0, y0 := PutField(a.chunkVersion, x1), PutField(b.chunkVersion, y1);
    FieldPeels(tag, x0, tag, y0);
    FieldPeels(a.chunkVersion, x1, b.chunkVersion, y1);
    OptionalPeels(a.chunkMarker, x2, b.chunkMarker, y2);
    CountPeels(|a.formats|, x3, |b.formats|, y3);
    FormatsPeel(a.formats, x4, b.formats, y4);
    CountPeels(|a.rows|, x5, |b.rows|, y5);
    DocRowsPeel(a.rows, b.rows);
  }

  lemma FoldStreamInjective(c: Text, d: Text, p: Text, c': Text, d': Text, p': Text)
    requires FoldStream(c, d, p) == FoldStream(c', d', p')
    ensures c == c' && d == d' && p == p'
  {
    var x, y := PutField(c, PutField(d, PutField(p, []))), PutField(c', PutField(d', PutField(p', [])));
    assert FoldStream(c, d, p)[|PUBLICATION_DOMAIN|..] == x;
    assert FoldStream(c', d', p')[|PUBLICATION_DOMAIN|..] == y;
    FieldPeels(c, PutField(d, PutField(p, [])), c', PutField(d', PutField(p', [])));
    FieldPeels(d, PutField(p, []), d', PutField(p', []));
    FieldPeels(p, [], p', []);
  }

  /** The eighth byte of a stream, within its domain label, names its kind. */
  lemma CodeStreamKind(a: CodeInput)
    requires Countable(|a.formats|, |a.rows|)
    ensures |CodeStream(a)| > 7 && CodeStream(a)[7] == 'c' as int
  {
  }

  lemma DocStreamKind(b: DocInput)
    requires Countable(|b.formats|, |b.rows|)
    ensures |DocStream(b)| > 7 && DocStream(b)[7] == 'd' as int
  {
  }

  lemma FoldStreamKind(c: Text, d: Text, p: Text)
    ensures |FoldStream(c, d, p)| > 7 && FoldStream(c, d, p)[7] == 'p' as int
  {
  }

  /** A stream of one kind is never a stream of another kind. */
  lemma DomainsSeparate(a: CodeInput, b: DocInput, c: Text, d: Text, p: Text)
    requires Countable(|a.formats|, |a.rows|) && Countable(|b.formats|, |b.rows|)
    ensures CodeStream(a) != DocStream(b)
    ensures CodeStream(a) != FoldStream(c, d, p)
    ensures DocStream(b) != FoldStream(c, d, p)
  {
    hide CodeStream, DocStream, FoldStream;
    CodeStreamKind(a);
    DocStreamKind(b);
    FoldStreamKind(c, d, p);
  }

  // ---------------------------------------------------------------- digests

  type Hash = seq<Byte> -> Text

  /** Short enough for a collision-free hash to exist: see `CollisionFreeExists`. */
  predicate Short(stream: seq<Byte>) {
    |stream| < 0x4000_0000_0000_0000
  }

  /** The hash tells short streams apart, and never returns the empty text. */
  ghost predicate CollisionFree(hash: Hash) {
    && (forall a, b :: Short(a) && Short(b) && hash(a) == hash(b) ==> a == b)
    && (forall a :: hash(a) != [])
  }

  /** A hash that tells short streams apart: the stream itself, behind a zero byte. */
  function PrefixHash(s: seq<Byte>): Text {
    if Short(s) then [0] + s else [0]
  }

  /** The assumption can be met, so what is proved from it is not proved of nothing. */
  lemma CollisionFreeExists()
    ensures CollisionFree(PrefixHash)
  {
    forall a, b | Short(a) && Short(b) && PrefixHash(a) == PrefixHash(b)
      ensures a == b
    {
      assert PrefixHash(a)[1..] == a && PrefixHash(b)[1..] == b;
    }
  }

  function CodeDigest(hash: Hash, i: CodeInput): Text
    requires Countable(|i.formats|, |i.rows|)
  {
    hash(CodeStream(i))
  }

  function DocDigest(hash: Hash, i: DocInput): Text
    requires Countable(|i.formats|, |i.rows|)
  {
    hash(DocStream(i))
  }

  function Fold(hash: Hash, code: Text, documentation: Text, provenance: Text): Text {
    hash(FoldStream(code, documentation, provenance))
  }

  /** The hasher as it is fed, field by field. */
  class FramedDigest {
    var stream: seq<Byte>

    constructor (domain: seq<Byte>)
      ensures stream == domain
    {
      stream := domain;
    }

    // `rest` is what will still be written: the whole stream is known in advance.

    method Field(value: Text, ghost rest: seq<Byte>)
      modifies this
      ensures stream + rest == old(stream) + PutField(value, rest)
    {
      stream := stream + CountBytes(|value|);
      stream := stream + value;
    }

    method Optional(value: Option<Text>, ghost rest: seq<Byte>)
      modifies this
      ensures stream + rest == old(stream) + PutOptional(value, rest)
    {
      match value
      case Some(text) =>
        ghost var before := stream;
        stream := stream + [1];
        Field(text, rest);
        assert before + [1] + PutField(text, rest) == before + ([1] + PutField(text, rest));
      case None =>
        stream := stream + [0];
    }

    method Count(value: Count, ghost rest: seq<Byte>)
      modifies this
      ensures stream + rest == old(stream) + PutCount(value, rest)
    {
      stream := stream + CountBytes(value);
    }

    method Finish(hash: Hash) returns (digest: Text)
      ensures digest == hash(stream)
    {
      digest := hash(stream);
    }

    method Formats(formats: seq<FormatContract>, ghost rest: seq<Byte>)
      requires |formats| < 0x1_0000_0000_0000_0000
      modifies this
      ensures stream + rest == old(stream) + PutCount(|formats|, PutFormats(formats, rest))
    {
      Count(|formats|, PutFormats(formats, rest));
      for i := 0 to |formats|
        invariant stream + PutFormats(formats[i..], rest) == old(stream) + PutCount(|formats|, PutFormats(formats, rest))
      {
        var f := formats[i];
        ghost var r3 := PutFormats(formats[i + 1..], rest);
        ghost var r2 := PutOptional(f.marker, r3);
        ghost var r1 := PutField(f.extractorVersion, r2);
        assert formats[i..][1..] == formats[i + 1..];
        Field(Ascii("active-format-contract"), PutField(f.id, r1));
        Field(f.id, r1);
        Field(f.extractorVersion, r2);
        Optional(f.marker, r3);
      }
      assert formats[|formats|..] == [];
    }

    method Optionals(values: seq<Option<Text>>, ghost rest: seq<Byte>)
      modifies this
      ensures stream + rest == old(stream) + PutOptionals(values, rest)
    {
      for i := 0 to |values|
        invariant stream + PutOptionals(values[i..], rest) == old(stream) + PutOptionals(values, rest)
      {
        assert values[i..][1..] == values[i + 1..];
        Optional(values[i], PutOptionals(values[i + 1..], rest));
      }
      assert values[|values|..] == [];
    }

    method CodeRow(r: CodeRow, ghost rest: seq<Byte>)
      modifies this
      ensures stream + rest == old(stream) + PutCodeRow(r, rest)
    {
      ghost var package := PutOptionals(PackageColumns(r), rest);
      Field(r.path, PutField(r.hash, PutField(r.role, PutField(r.origin, PutField(r.format, package)))));
      Field(r.hash, PutField(r.role, PutField(r.origin, PutField(r.format, package))));
      Field(r.role, PutField(r.origin, PutField(r.format, package)));
      Field(r.origin, PutField(r.format, package));
      Field(r.format, package);
      Optionals(PackageColumns(r), rest);
    }

    method CodeRows(rows: seq<CodeRow>, ghost rest: seq<Byte>)
      modifies this
      ensures stream + rest == old(stream) + PutCodeRows(rows, rest)
    {
      for i := 0 to |rows|
        invariant stream + PutCodeRows(rows[i..], rest) == old(stream) + PutCodeRows(rows, rest)
      {
        assert rows[i..][1..] == rows[i + 1..];
        CodeRow(rows[i], PutCodeRows(rows[i + 1..], rest));
      }
      assert rows[|rows|..] == [];
    }

    method CodeHead(i: CodeInput, ghost rest: seq<Byte>)
      modifies this
      ensures stream + rest == old(stream) + PutCodeHead(i, rest)
    {
      ghost var r4 := PutOptional(i.extractionMarker, rest);
      ghost var r3 := PutField(i.extractionVersion, r4);
      ghost var r2 := PutField(Ascii("code-extraction-contract"), r3);
      ghost var r1 := PutOptional(i.projectionMarker, r2);
      Field(Ascii("projection-contract"), PutField(i.projectionVersion, r1));
      Field(i.projectionVersion, r1);
      Optional(i.projectionMarker, r2);
      Field(Ascii("code-extraction-contract"), r3);
      Field(i.extractionVersion, r4);
      Optional(i.extractionMarker, rest);
    }
  }

  method ComputeCodeDigest(hash: Hash, i: CodeInput) returns (digest: Text)
    requires Countable(|i.formats|, |i.rows|)
    ensures digest == CodeDigest(hash, i)
  {
    var d := new FramedDigest(Ascii(CODE_DOMAIN));
    ghost var resolution := ResolutionTail(i.resolution);
    ghost var rows := PutCodeRows(i.rows, resolution);
    ghost var edition := PutOptional(i.editionContext, PutCount(|i.rows|, rows));
    d.CodeHead(i, PutCount(|i.formats|, PutFormats(i.formats, CodeTail(i))));
    d.Formats(i.formats, CodeTail(i));
    d.Field(Ascii("rust-edition-context"), edition);
    d.Optional(i.editionContext, PutCount(|i.rows|, rows));
    d.Count(|i.rows|, rows);
    d.CodeRows(i.rows, resolution);
    d.Field(Ascii("module-resolution"), PutField(i.resolution, []));
    d.Field(i.resolution, []);
    assert d.stream + [] == d.stream;
    digest := d.Finish(hash);
  }

  method ComputeDocumentationDigest(hash: Hash, i: DocInput) returns (digest: Text)
    requires Countable(|i.formats|, |i.rows|)
    ensures digest == DocDigest(hash, i)
  {
    var d := new FramedDigest(Ascii(DOCUMENTATION_DOMAIN));
    ghost var rows := PutCount(|i.rows|, PutDocRows(i.rows, []));
    ghost var formats := PutCount(|i.formats|, PutFormats(i.formats, rows));
    d.Field(Ascii("documentation-chunk-contract"), PutField(i.chunkVersion, PutOptional(i.chunkMarker, formats)));
    d.Field(i.chunkVersion, PutOptional(i.chunkMarker, formats));
    d.Optional(i.chunkMarker, formats);
    d.Formats(i.formats, rows);
    d.Count(|i.rows|, PutDocRows(i.rows, []));
    for k := 0 to |i.rows|
      invariant d.stream + PutDocRows(i.rows[k..], []) == DocStream(i)
    {
      assert i.rows[k..][1..] == i.rows[k + 1..];
      ghost var rest := PutDocRows(i.rows[k + 1..], []);
      d.Field(i.rows[k].path, PutField(i.rows[k].hash, PutField(i.rows[k].format, rest)));
      d.Field(i.rows[k].hash, PutField(i.rows[k].format, rest));
      d.Field(i.rows[k].format, rest);
    }
    assert i.rows[|i.rows|..] == [];
    assert d.stream + [] == d.stream;
    digest := d.Finish(hash);
  }

  method ComputeFold(hash: Hash, code: Text, documentation: Text, provenance: Text) returns (digest: Text)
    ensures digest == Fold(hash, code, documentation, provenance)
  {
    var d := new FramedDigest(Ascii(PUBLICATION_DOMAIN));
    d.Field(code, PutField(documentation, PutField(provenance, [])));
    d.Field(documentation, PutField(provenance, []));
    d.Field(provenance, []);
    assert d.stream + [] == d.stream;
    digest := d.Finish(hash);
  }

  // ---------------------------------------------------------------- identities

  datatype Identities = Identities(code: Text, documentation: Text, provenance: Text, publication: Text)

  datatype ReadError = NoCode | NoDocumentation | NoProvenance | NoSnapshot | InconsistentFold

  /** The four identity rows of the `meta` table. */
  datatype IdentityRows = IdentityRows(
    code: Option<Text>, documentation: Option<Text>, provenance: Option<Text>, snapshot: Option<Text>)

  function Published(i: Identities): IdentityRows {
    IdentityRows(Some(i.code), Some(i.documentation), Some(i.provenance), Some(i.publication))
  }

  method Read(hash: Hash, rows: IdentityRows) returns (r: Result<Identities, ReadError>)
    ensures r.Ok? ==> rows == Published(r.value)
    ensures r.Ok? ==> r.value.publication == Fold(hash, r.value.code, r.value.documentation, r.value.provenance)
    ensures r.Ok? <==>
      && rows.code.Some? && rows.documentation.Some? && rows.provenance.Some? && rows.snapshot.Some?
      && rows.snapshot.value == Fold(hash, rows.code.value, rows.documentation.value, rows.provenance.value)
  {
    if rows.code.None? { return Err(NoCode); }
    if rows.documentation.None? { return Err(NoDocumentation); }
    if rows.provenance.None? { return Err(NoProvenance); }
    if rows.snapshot.None? { return Err(NoSnapshot); }
    var fold := ComputeFold(hash, rows.code.value, rows.documentation.value, rows.provenance.value);
    if rows.snapshot.value != fold {
      return Err(InconsistentFold);
    }
    return Ok(Identities(rows.code.value, rows.documentation.value, rows.provenance.value, rows.snapshot.value));
  }

  /** What a reader may conclude from one publication snapshot. */
  predicate Readable(hash: Hash, rows: IdentityRows) {
    && rows.code.Some? && rows.documentation.Some? && rows.provenance.Some? && rows.snapshot.Some?
    && rows.snapshot.value == Fold(hash, rows.code.value, rows.documentation.value, rows.provenance.value)
  }

  /** Two readable publications with the same snapshot agree in every identity. */
  lemma SnapshotDeterminesIdentities(hash: Hash, a: IdentityRows, b: IdentityRows)
    requires CollisionFree(hash) && Readable(hash, a) && Readable(hash, b)
    requires Short(FoldStream(a.code.value, a.documentation.value, a.provenance.value))
    requires Short(FoldStream(b.code.value, b.documentation.value, b.provenance.value))
    requires a.snapshot == b.snapshot
    ensures a == b
  {
    FoldStreamInjective(a.code.value, a.documentation.value, a.provenance.value,
                        b.code.value, b.documentation.value, b.provenance.value);
  }

  /** Equal code digests mean equal contracts, edition context, rows and resolution. */
  lemma CodeDigestDeterminesInput(hash: Hash, a: CodeInput, b: CodeInput)
    requires CollisionFree(hash)
    requires Countable(|a.formats|, |a.rows|) && Countable(|b.formats|, |b.rows|)
    requires Short(CodeStream(a)) && Short(CodeStream(b))
    requires CodeDigest(hash, a) == CodeDigest(hash, b)
    ensures a == b
  {
    CodeStreamInjective(a, b);
  }

  /** Equal documentation digests mean equal contracts and rows. */
  lemma DocDigestDeterminesInput(hash: Hash, a: DocInput, b: DocInput)
    requires CollisionFree(hash)
    requires Countable(|a.formats|, |a.rows|) && Countable(|b.formats|, |b.rows|)
    requires Short(DocStream(a)) && Short(DocStream(b))
    requires DocDigest(hash, a) == DocDigest(hash, b)
    ensures a == b
  {
    DocStreamInjective(a, b);
  }
}
