/**
 * A smallest repository with one source file, and its publication: what is proved of
 * publications is not proved of nothing.
 */
module Witness {
  import opened Wrappers
  import opened Utf8
  import opened Publication
  import opened Formats
  import opened Tables
  import opened Captures
  import opened IndexState
  import opened Tagging
  import ByteOrder

  const PATH: Text := [0x61]
  const SOURCE: Source := [0x0A]
  const HASH: Text := PrefixHash(SOURCE)
  const BUILD := Build([1], [2], [3], [4], [5])

  const WORLD := World(
    PrefixHash,
    (version: Text, format: Format, path: Text, source: Source, edition: Option<Text>) => Some(version),
    (version: Text, format: Format, path: Text, source: Source) => version,
    (path: Text, source: Source) => [],
    (version: Text, code: map<Text, View>, edges: seq<Edge>, facts: Option<Text>) => version,
    (provenances: map<Text, Provenance>) => [],
    (rows: map<Text, (CodeRow, Option<Text>)>) => [],
    (facts: Text, code: map<Text, View>) => true,
    (display: Text) => display)

  const CAPTURE := Capture(
    [SLASH], [CodeFile(PATH, JavaScript, Contents(SOURCE))], [], map[], [],
    (data: map<Text, Text>) => Some(Discovery([], [])),
    (rows: map<Text, FileRow>, instances: map<Text, Instance>) => Some([]),
    false, true, true, false)

  const ROW := FileRow(HASH, JavaScript, [], Repository, None, None, BUILD.extraction, None)

  /** The tables of the publication, but for what its identities are. */
  function Marked(identities: IdentityRows): Store {
    Store(
      map[PATH := ROW], map[PATH := 1], 2, map[],
      map[JavaScript := [1], TypeScript := [1], Markdown := [2], Mdx := [2], Rust := [3]], Some([1]), Some([2]), Some([5]),
      map[], None, [], Some(BUILD.projection), None, [], identities, Some([4]), Some(PrefixHash(ResolutionStream([]))))
  }

  lemma Inputs(s: Store)
    requires s == Marked(s.identities)
    ensures ActiveFormats(BUILD, s, Code, |ALL|) == [FormatContract(Id(JavaScript), [1], Some([1]))]
    ensures ActiveFormats(BUILD, s, Docs, |ALL|) == []
    ensures ByteOrder.Ordered(PathsOf(s, Code)) == [PATH] && ByteOrder.Ordered(PathsOf(s, Docs)) == []
  {
    assert s.files[PATH].format == JavaScript;
    assert Present(s, JavaScript);
    assert ActiveFormats(BUILD, s, Code, 1) == [FormatContract(Id(JavaScript), [1], Some([1]))];
    assert ActiveFormats(BUILD, s, Code, 3) == ActiveFormats(BUILD, s, Code, 2) == ActiveFormats(BUILD, s, Code, 1);
    assert ActiveFormats(BUILD, s, Code, 5) == ActiveFormats(BUILD, s, Code, 4) == ActiveFormats(BUILD, s, Code, 3);
    assert ActiveFormats(BUILD, s, Docs, 2) == ActiveFormats(BUILD, s, Docs, 1) == [];
    assert ActiveFormats(BUILD, s, Docs, 4) == ActiveFormats(BUILD, s, Docs, 3) == [];
    assert PathsOf(s, Code) == {PATH} && PathsOf(s, Docs) == {};
    ByteOrder.ListingUnique([PATH], ByteOrder.Ordered({PATH}), {PATH});
    ByteOrder.ListingUnique([], ByteOrder.Ordered({}), {});
  }

  // ---------------------------------------------------------------- lengths

  predicate Small(t: seq<Byte>) {
    |t| <= 100
  }

  predicate SmallOption(o: Option<Text>) {
    o.Some? ==> Small(o.value)
  }

  lemma FieldLength(t: Text, rest: seq<Byte>)
    requires Small(t)
    ensures |PutField(t, rest)| <= 108 + |rest|
  {
  }

  lemma OptionalLength(o: Option<Text>, rest: seq<Byte>)
    requires SmallOption(o)
    ensures |PutOptional(o, rest)| <= 109 + |rest|
  {
  }

  lemma {:induction false} OptionalsLength(values: seq<Option<Text>>, rest: seq<Byte>)
    requires forall i :: 0 <= i < |values| ==> SmallOption(values[i])
    ensures |PutOptionals(values, rest)| <= 109 * |values| + |rest|
  {
    if values != [] {
      OptionalsLength(values[1..], rest);
      OptionalLength(values[0], PutOptionals(values[1..], rest));
    }
  }

  lemma RowLength(r: CodeRow, rest: seq<Byte>)
    requires Small(r.path) && Small(r.hash) && Small(r.role) && Small(r.origin) && Small(r.format)
    requires forall i :: 0 <= i < 7 ==> SmallOption(PackageColumns(r)[i])
    ensures |PutCodeRow(r, rest)| <= 2000 + |rest|
  {
    OptionalsLength(PackageColumns(r), rest);
  }

  lemma HeadLength(i: CodeInput, rest: seq<Byte>)
    requires Small(i.projectionVersion) && SmallOption(i.projectionMarker)
    requires Small(i.extractionVersion) && SmallOption(i.extractionMarker)
    ensures |PutCodeHead(i, rest)| <= 1000 + |rest|
  {
    var tail := PutOptional(i.extractionMarker, rest);
    OptionalLength(i.extractionMarker, rest);
    FieldLength(i.extractionVersion, tail);
    var code := PutField(Ascii("code-extraction-contract"), PutField(i.extractionVersion, tail));
    OptionalLength(i.projectionMarker, code);
  }

  lemma {:induction false} FormatLength(formats: seq<FormatContract>, rest: seq<Byte>)
    requires |formats| <= 1 && forall f :: f in formats ==> Small(f.id) && Small(f.extractorVersion) && SmallOption(f.marker)
    ensures |PutFormats(formats, rest)| <= 500 + |rest|
  {
    if formats != [] {
      var f, tail := formats[0], PutFormats(formats[1..], rest);
      assert PutFormats([], rest) == rest && formats[1..] == [];
      OptionalLength(f.marker, tail);
      FieldLength(f.extractorVersion, PutOptional(f.marker, tail));
    }
  }

  /** One small format and one small row make a short stream. */
  lemma StreamLength(i: CodeInput, f: FormatContract, r: CodeRow)
    requires i.formats == [f] && i.rows == [r]
    requires Small(i.projectionVersion) && SmallOption(i.projectionMarker)
    requires Small(i.extractionVersion) && SmallOption(i.extractionMarker)
    requires Small(f.id) && Small(f.extractorVersion) && SmallOption(f.marker)
    requires SmallOption(i.editionContext) && Small(i.resolution)
    requires Small(r.path) && Small(r.hash) && Small(r.role) && Small(r.origin) && Small(r.format)
    requires forall k :: 0 <= k < 7 ==> SmallOption(PackageColumns(r)[k])
    ensures CodeFits(i)
  {
    var resolution := ResolutionTail(i.resolution);
    RowLength(r, resolution);
    assert PutCodeRows([r], resolution) == PutCodeRow(r, resolution);
    OptionalLength(i.editionContext, PutCount(|i.rows|, PutCodeRows(i.rows, resolution)));
    var tail := CodeTail(i);
    assert |tail| <= 5000;
    FormatLength(i.formats, tail);
    var formats := PutFormats(i.formats, tail);
    HeadLength(i, PutCount(|i.formats|, formats));
  }

  // ---------------------------------------------------------------- the publication

  lemma CaptureIsValid()
    ensures ValidCapture(WORLD, CAPTURE)
  {
  }

  lemma RowsAreCanonical(s: Store)
    requires s == Marked(s.identities)
    ensures CanonicalRows(WORLD, BUILD, CAPTURE, Discovery([], []), s)
  {
    var f := CAPTURE.code[0];
    assert CodeRowFor(WORLD, BUILD, CAPTURE, f) == Some(ROW);
    assert Shallow([]) == [];
    assert Captured(CAPTURE, PATH) by {
      assert f in CAPTURE.code && f.path == PATH;
    }
    assert FirstPartyDone(WORLD, BUILD, CAPTURE, s.files);
  }

  function Resolution(): Text {
    PrefixHash(ResolutionStream([]))
  }

  lemma InputsFit(s: Store)
    requires s == Marked(s.identities)
    ensures CodeFits(CodeInputOf(BUILD, s, Resolution())) && DocFits(DocInputOf(BUILD, s))
  {
    Inputs(s);
    var i := CodeInputOf(BUILD, s, Resolution());
    var r := CodeRowAt(s, PATH);
    assert RowsAt(s, [PATH]) == [r];
    assert Small(Id(JavaScript)) && Small(Resolution());
    StreamLength(i, FormatContract(Id(JavaScript), [1], Some([1])), r);
    var d := DocInputOf(BUILD, s);
    assert d.formats == [] && d.rows == [];
    NoDocuments(d);
  }

  lemma NoDocuments(d: DocInput)
    requires d.formats == [] && d.rows == [] && Small(d.chunkVersion) && SmallOption(d.chunkMarker)
    ensures DocFits(d)
  {
    var rows := PutCount(0, PutDocRows(d.rows, []));
    assert PutFormats(d.formats, rows) == rows;
    OptionalLength(d.chunkMarker, PutCount(0, rows));
    FieldLength(d.chunkVersion, PutOptional(d.chunkMarker, PutCount(0, rows)));
  }

  lemma MarkersAreSet(s: Store)
    requires s == Marked(s.identities)
    ensures MarkersSet(WORLD, BUILD, CAPTURE, s)
    ensures Short(ResolutionStream(s.edges)) && Short(ContextStream(s.contexts))
  {
    ByteOrder.ListingUnique([], ByteOrder.Ordered(s.contexts.Keys), {});
    assert s.contexts.Keys == {};
  }

  /** The identities of the example. */
  function Named(code: Text, docs: Text): Identities {
    Identities(code, docs, [], Fold(PrefixHash, code, docs, []))
  }

  lemma IdentitiesAreCurrent(s: Store, i: CodeInput, d: DocInput)
    requires s == Marked(s.identities)
    requires i == CodeInputOf(BUILD, s, Resolution()) && d == DocInputOf(BUILD, s) && CodeFits(i) && DocFits(d)
    requires s.identities == Published(Named(CodeDigest(PrefixHash, i), DocDigest(PrefixHash, d)))
    ensures IdentitiesCurrent(WORLD, BUILD, s) && ProjectionCurrent(WORLD, BUILD, s)
  {
    hide CodeDigest, DocDigest, CodeInputOf, DocInputOf, CodeFits, DocFits;
  }

  /** The capture has a publication, which is a state that can be refreshed. */
  lemma SomethingIsPublished() returns (s: Store)
    ensures CollisionFree(WORLD.hash) && ValidCapture(WORLD, CAPTURE)
    ensures PATH in s.files && IsPublication(WORLD, BUILD, CAPTURE, Discovery([], []), s)
    ensures Consistent(WORLD, s) && s.identities.code.Some?
  {
    CollisionFreeExists();
    CaptureIsValid();
    var t := Marked(NO_IDENTITIES);
    InputsFit(t);
    var i, d := CodeInputOf(BUILD, t, Resolution()), DocInputOf(BUILD, t);
    s := Marked(Published(Named(CodeDigest(PrefixHash, i), DocDigest(PrefixHash, d))));
    SameInputs(BUILD, t, s, Resolution());
    RowsAreCanonical(s);
    MarkersAreSet(s);
    IdentitiesAreCurrent(s, i, d);
    PublicationIsConsistent(WORLD, BUILD, CAPTURE, Discovery([], []), s);
  }
}
