/**
 * The tables that one publication consists of, the functions of the outside world
 * that fill them, and what the two digests see of them.
 */
module Tables {
  import opened Wrappers
  import opened Utf8
  import opened Publication
  import opened Formats
  import ByteOrder

  // ---------------------------------------------------------------- rows

  datatype Origin = Repository | Workspace | Dependency

  /** Blame results of a document, laid out as version `format` lays them out. */
  datatype Provenance = Provenance(format: Text, payload: Source)

  /** `files` and everything extracted from one file; `package` is an instance root. */
  datatype FileRow = FileRow(
    hash: Text, format: Format, role: Text, origin: Origin, package: Option<Text>, packagePath: Option<Text>,
    data: Text, provenance: Option<Provenance>)

  datatype Instance = Instance(
    root: Text, origin: Origin, name: Text, version: Option<Text>, locator: Text, manifestHash: Text, status: Text)

  datatype Edge = Edge(source: Text, request: Text, target: Text, package: Text, resolution: Text, root: Text, typeOnly: bool)

  /** The facts one checker run found for the code digest `snapshot`. */
  datatype Batch = Batch(id: nat, snapshot: Text, facts: Text, reusable: bool)

  /** What the projection reads of one code file: its digest row, its data and its row id. */
  datatype View = View(row: CodeRow, data: Text, id: nat)

  datatype Store = Store(
    files: map<Text, FileRow>, ids: map<Text, nat>, nextId: nat,
    instances: map<Text, Instance>,
    contracts: map<Format, Text>, extractionMarker: Option<Text>, chunkMarker: Option<Text>,
    provenanceMarker: Option<Text>,
    contexts: map<Text, Text>, fingerprint: Option<Text>,
    edges: seq<Edge>, projection: Option<Text>,
    active: Option<Batch>, inactive: seq<Batch>,
    identities: IdentityRows, projectionMarker: Option<Text>, resolution: Option<Text>)

  const NO_IDENTITIES := IdentityRows(None, None, None, None)

  const EMPTY := Store(map[], map[], 1, map[], map[], None, None, None, map[], None, [], None, None, [], NO_IDENTITIES, None, None)

  // ---------------------------------------------------------------- the outside world

  type Source = s: seq<Byte> | Short(s)

  datatype World = World(
    hash: Hash,
    // extractor version, format, path, source, Rust edition; nothing if extraction fails
    extract: (Text, Format, Text, Source, Option<Text>) -> Option<Text>,
    // chunk version, format, path, source
    chunk: (Text, Format, Text, Source) -> Text,
    classify: (Text, Source) -> Text,
    // projection version, code files, module edges, accepted checker facts
    project: (Text, map<Text, View>, seq<Edge>, Option<Text>) -> Text,
    // digest over the provenance rows of the documents
    provenanceDigest: map<Text, Provenance> -> Text,
    // the rows the checker may see
    checkerIdentity: map<Text, (CodeRow, Option<Text>)> -> Text,
    // whether every item of a batch finds exactly one call site
    mapped: (Text, map<Text, View>) -> bool,
    // the package root that a dependency display path was made from
    rootOf: Text -> Text)

  // ---------------------------------------------------------------- streams

  const RESOLUTION_DOMAIN := "jscout-resolution-hash-v2\0"
  const EDITION_DOMAIN := "jscout-rust-edition-context-v1\0"

  function PutEdge(e: Edge, rest: seq<Byte>): seq<Byte> {
    PutField(e.source, PutField(e.request, PutField(e.target, PutField(e.package,
    PutField(e.resolution, PutField(e.root, PutCount(if e.typeOnly then 1 else 0, rest)))))))
  }

  function PutEdges(edges: seq<Edge>): seq<Byte> {
    if edges == [] then [] else PutEdge(edges[0], PutEdges(edges[1..]))
  }

  function ResolutionStream(edges: seq<Edge>): seq<Byte> {
    Ascii(RESOLUTION_DOMAIN) + PutEdges(edges)
  }

  lemma EdgePeels(a: Edge, x: seq<Byte>, b: Edge, y: seq<Byte>)
    requires PutEdge(a, x) == PutEdge(b, y)
    ensures a == b && x == y
  {
    var x6, y6 := PutCount(if a.typeOnly then 1 else 0, x), PutCount(if b.typeOnly then 1 else 0, y);
    var x5, y5 := PutField(a.root, x6), PutField(b.root, y6);
    var x4, y4 := PutField(a.resolution, x5), PutField(b.resolution, y5);
    var x3, y3 := PutField(a.package, x4), PutField(b.package, y4);
    var x2, y2 := PutField(a.target, x3), PutField(b.target, y3);
    var x1, y1 := PutField(a.request, x2), PutField(b.request, y2);
    FieldPeels(a.source, x1, b.source, y1);
    FieldPeels(a.request, x2, b.request, y2);
    FieldPeels(a.target, x3, b.target, y3);
    FieldPeels(a.package, x4, b.package, y4);
    FieldPeels(a.resolution, x5, b.resolution, y5);
    FieldPeels(a.root, x6, b.root, y6);
    CountPeels(if a.typeOnly then 1 else 0, x, if b.typeOnly then 1 else 0, y);
  }

  lemma {:induction false} EdgesPeel(a: seq<Edge>, b: seq<Edge>)
    requires PutEdges(a) == PutEdges(b)
    ensures a == b
  {
    if a != [] && b != [] {
      EdgePeels(a[0], PutEdges(a[1..]), b[0], PutEdges(b[1..]));
      EdgesPeel(a[1..], b[1..]);
    }
  }

  /** Equal resolution hashes mean equal edge listings. */
  lemma ResolutionStreamInjective(a: seq<Edge>, b: seq<Edge>)
    requires ResolutionStream(a) == ResolutionStream(b)
    ensures a == b
  {
    assert ResolutionStream(a)[|RESOLUTION_DOMAIN|..] == PutEdges(a);
    assert ResolutionStream(b)[|RESOLUTION_DOMAIN|..] == PutEdges(b);
    EdgesPeel(a, b);
  }

  function PutContexts(paths: seq<Text>, contexts: map<Text, Text>): seq<Byte>
    requires forall p :: p in paths ==> p in contexts
  {
    if paths == [] then [] else PutField(paths[0], PutField(contexts[paths[0]], PutContexts(paths[1..], contexts)))
  }

  ghost function ContextStream(contexts: map<Text, Text>): seq<Byte> {
    Ascii(EDITION_DOMAIN) + PutContexts(ByteOrder.Ordered(contexts.Keys), contexts)
  }

  lemma {:induction false} ContextsPeel(a: seq<Text>, x: map<Text, Text>, b: seq<Text>, y: map<Text, Text>)
    requires forall p :: p in a ==> p in x
    requires forall p :: p in b ==> p in y
    requires PutContexts(a, x) == PutContexts(b, y)
    ensures a == b
    ensures forall p :: p in a ==> x[p] == y[p]
  {
    if a != [] && b != [] {
      var x1, y1 := PutContexts(a[1..], x), PutContexts(b[1..], y);
      FieldPeels(a[0], PutField(x[a[0]], x1), b[0], PutField(y[b[0]], y1));
      FieldPeels(x[a[0]], x1, y[b[0]], y1);
      ContextsPeel(a[1..], x, b[1..], y);
      assert a == [a[0]] + a[1..] && b == [b[0]] + b[1..];
    }
  }

  /** Equal edition fingerprints mean the same edition for every Rust file. */
  lemma ContextStreamInjective(a: map<Text, Text>, b: map<Text, Text>)
    requires ContextStream(a) == ContextStream(b)
    ensures a == b
  {
    var p, q := ByteOrder.Ordered(a.Keys), ByteOrder.Ordered(b.Keys);
    assert ContextStream(a)[|EDITION_DOMAIN|..] == PutContexts(p, a);
    assert ContextStream(b)[|EDITION_DOMAIN|..] == PutContexts(q, b);
    ContextsPeel(p, a, q, b);
    assert forall k :: k in a <==> k in b;
  }

  // ---------------------------------------------------------------- what the digests see

  function OriginText(o: Origin): Text {
    match o
    case Repository => Ascii(ORIGIN_REPOSITORY)
    case Workspace => Ascii(ORIGIN_WORKSPACE)
    case Dependency => Ascii(ORIGIN_DEPENDENCY)
  }

  lemma OriginsDiffer(a: Origin, b: Origin)
    requires OriginText(a) == OriginText(b)
    ensures a == b
  {
    assert OriginText(Repository)[0] == 'r' as int;
    assert OriginText(Workspace)[0] == 'w' as int;
    assert OriginText(Dependency)[0] == 'd' as int;
  }

  /** The row joined with its package instance. */
  function CodeRowAt(s: Store, p: Text): CodeRow
    requires p in s.files
  {
    var f := s.files[p];
    var i := if f.package.Some? && f.package.value in s.instances then Some(s.instances[f.package.value]) else None;
    CodeRow(p, f.hash, f.role, OriginText(f.origin), Id(f.format), f.packagePath,
      if i.Some? then Some(OriginText(i.value.origin)) else None,
      if i.Some? then Some(i.value.name) else None,
      if i.Some? then i.value.version else None,
      if i.Some? then Some(i.value.locator) else None,
      if i.Some? then Some(i.value.manifestHash) else None,
      if i.Some? then Some(i.value.status) else None)
  }

  function PathsOf(s: Store, corpus: Corpus): set<Text> {
    set p | p in s.files && CorpusOf(s.files[p].format) == corpus
  }

  predicate Present(s: Store, f: Format) {
    exists p :: p in s.files && s.files[p].format == f
  }

  function MarkerOf(s: Store, f: Format): Option<Text> {
    if f in s.contracts then Some(s.contracts[f]) else None
  }

  function ActiveFormats(b: Build, s: Store, corpus: Corpus, n: nat): (r: seq<FormatContract>)
    requires n <= |ALL|
    ensures |r| <= n
  {
    if n == 0 then []
    else
      var rest, f := ActiveFormats(b, s, corpus, n - 1), ALL[n - 1];
      if CorpusOf(f) == corpus && Present(s, f)
      then rest + [FormatContract(Id(f), VersionOf(b, f), MarkerOf(s, f))]
      else rest
  }

  function RowsAt(s: Store, paths: seq<Text>): (rows: seq<CodeRow>)
    requires forall p :: p in paths ==> p in s.files
    ensures |rows| == |paths|
  {
    seq(|paths|, i requires 0 <= i < |paths| => assert paths[i] in paths; CodeRowAt(s, paths[i]))
  }

  function DocRowsAt(s: Store, paths: seq<Text>): (rows: seq<DocRow>)
    requires forall p :: p in paths ==> p in s.files
    ensures |rows| == |paths|
  {
    seq(|paths|, i requires 0 <= i < |paths| =>
      assert paths[i] in paths; DocRow(paths[i], s.files[paths[i]].hash, Id(s.files[paths[i]].format)))
  }

  function EditionContext(s: Store): Option<Text> {
    if Present(s, Rust) then s.fingerprint else None
  }

  function CodeInputWith(b: Build, s: Store, paths: seq<Text>, resolution: Text): CodeInput
    requires forall p :: p in paths ==> p in s.files
  {
    CodeInput(b.projection, s.projectionMarker, b.extraction, s.extractionMarker,
      ActiveFormats(b, s, Code, |ALL|), EditionContext(s), RowsAt(s, paths), resolution)
  }

  /** What the code digest of these tables is a digest of. */
  ghost function CodeInputOf(b: Build, s: Store, resolution: Text): CodeInput {
    CodeInputWith(b, s, ByteOrder.Ordered(PathsOf(s, Code)), resolution)
  }

  function DocInputWith(b: Build, s: Store, paths: seq<Text>): DocInput
    requires forall p :: p in paths ==> p in s.files
  {
    DocInput(b.chunk, s.chunkMarker, ActiveFormats(b, s, Docs, |ALL|), DocRowsAt(s, paths))
  }

  ghost function DocInputOf(b: Build, s: Store): DocInput {
    DocInputWith(b, s, ByteOrder.Ordered(PathsOf(s, Docs)))
  }

  /** The inputs are small enough for the platform and for the hash. */
  predicate CodeFits(i: CodeInput) {
    Countable(|i.formats|, |i.rows|) && Short(CodeStream(i))
  }

  predicate DocFits(i: DocInput) {
    Countable(|i.formats|, |i.rows|) && Short(DocStream(i))
  }

  function Provenances(s: Store): map<Text, Provenance> {
    map p | p in s.files && CorpusOf(s.files[p].format).Docs? && s.files[p].provenance.Some? :: s.files[p].provenance.value
  }

  function ViewAt(s: Store, p: Text): View
    requires p in s.files && p in s.ids
  {
    View(CodeRowAt(s, p), s.files[p].data, s.ids[p])
  }

  function CodeViews(s: Store): map<Text, View>
    requires s.ids.Keys == s.files.Keys
  {
    map p | p in s.files && CorpusOf(s.files[p].format).Code? :: ViewAt(s, p)
  }

  /** Only the active batch of exactly this code digest reaches the projection. */
  function Accepted(active: Option<Batch>, digest: Text): Option<Text> {
    if active.Some? && active.value.snapshot == digest then Some(active.value.facts) else None
  }

  /** The projection built from scratch from the current tables. */
  function Projected(w: World, version: Text, s: Store, digest: Text): Text
    requires s.ids.Keys == s.files.Keys
  {
    w.project(version, CodeViews(s), s.edges, Accepted(s.active, digest))
  }

  // ---------------------------------------------------------------- what these say of the tables

  /** A file of a format with code; Rust is indexed as code but not read by the structural projection. */
  predicate IsCode(s: Store, p: Text) {
    p in s.files && (s.files[p].format.JavaScript? || s.files[p].format.TypeScript? || s.files[p].format.Rust?)
  }

  predicate IsDocument(s: Store, p: Text) {
    p in s.files && (s.files[p].format.Markdown? || s.files[p].format.Mdx?)
  }

  predicate HasInstance(s: Store, p: Text)
    requires p in s.files
  {
    s.files[p].package.Some? && s.files[p].package.value in s.instances
  }

  function InstanceOf(s: Store, p: Text): Instance
    requires p in s.files && HasInstance(s, p)
  {
    s.instances[s.files[p].package.value]
  }

  /** The digest columns of `p`, its own and those of its package, are the same in both stores. */
  ghost predicate EqualColumns(s: Store, t: Store, p: Text)
    requires p in s.files && p in t.files
  {
    var x, y := s.files[p], t.files[p];
    && x.hash == y.hash && x.role == y.role && x.origin == y.origin && x.format == y.format && x.packagePath == y.packagePath
    && HasInstance(s, p) == HasInstance(t, p)
    && (HasInstance(s, p) ==>
          var i, j := InstanceOf(s, p), InstanceOf(t, p);
          && i.origin == j.origin && i.name == j.name && i.version == j.version && i.locator == j.locator
          && i.manifestHash == j.manifestHash && i.status == j.status)
  }

  lemma EqualRowsIff(s: Store, t: Store, p: Text)
    requires p in s.files && p in t.files
    ensures CodeRowAt(s, p) == CodeRowAt(t, p) <==> EqualColumns(s, t, p)
  {
    if CodeRowAt(s, p) == CodeRowAt(t, p) {
      OriginsDiffer(s.files[p].origin, t.files[p].origin);
      IdsDiffer(s.files[p].format, t.files[p].format);
      if HasInstance(s, p) {
        OriginsDiffer(InstanceOf(s, p).origin, InstanceOf(t, p).origin);
      }
    }
  }

  lemma CodePaths(s: Store, p: Text)
    ensures p in PathsOf(s, Code) <==> IsCode(s, p)
    ensures p in PathsOf(s, Docs) <==> IsDocument(s, p)
  {
  }

  /** Nothing that a projection is given is lost in it. */
  ghost predicate TellsAll(project: (Text, map<Text, View>, seq<Edge>, Option<Text>) -> Text) {
    forall v, m, e, f, v', m', e', f' :: project(v, m, e, f) == project(v', m', e', f') ==> v == v' && m == m' && e == e' && f == f'
  }

  /** The facts in `batch` are those of a run over exactly this code digest. */
  predicate AcceptsFacts(batch: Option<Batch>, digest: Text, facts: Text) {
    batch.Some? && batch.value.snapshot == digest && batch.value.facts == facts
  }

  /** The file is stored under the same row id with the same data and digest columns. */
  ghost predicate SameFile(s: Store, t: Store, p: Text) {
    && p in s.files && p in t.files && p in s.ids && p in t.ids
    && s.files[p].data == t.files[p].data && s.ids[p] == t.ids[p] && EqualColumns(s, t, p)
  }

  /**
   * What a projection depends on: where two of them are equal and the projection
   * loses nothing, the stores have the same code files with the same data, ids and
   * columns, the same edges, and the same facts that were accepted.
   */
  lemma ProjectionShows(w: World, v: Text, s: Store, d: Text, u: Text, t: Store, e: Text)
    requires s.ids.Keys == s.files.Keys && t.ids.Keys == t.files.Keys && TellsAll(w.project)
    requires Projected(w, v, s, d) == Projected(w, u, t, e)
    ensures v == u && s.edges == t.edges
    ensures forall f :: AcceptsFacts(s.active, d, f) <==> AcceptsFacts(t.active, e, f)
    ensures forall p :: IsCode(s, p) <==> IsCode(t, p)
    ensures forall p :: IsCode(s, p) ==> SameFile(s, t, p)
  {
    assert CodeViews(s) == CodeViews(t) && Accepted(s.active, d) == Accepted(t.active, e);
    forall f
      ensures AcceptsFacts(s.active, d, f) <==> AcceptsFacts(t.active, e, f)
    {
      assert AcceptsFacts(s.active, d, f) <==> Accepted(s.active, d) == Some(f);
      assert AcceptsFacts(t.active, e, f) <==> Accepted(t.active, e) == Some(f);
    }
    forall p
      ensures IsCode(s, p) <==> IsCode(t, p)
      ensures IsCode(s, p) ==> SameFile(s, t, p)
    {
      assert p in CodeViews(s) <==> IsCode(s, p);
      assert p in CodeViews(t) <==> IsCode(t, p);
      if IsCode(s, p) {
        assert ViewAt(s, p) == CodeViews(s)[p] == CodeViews(t)[p] == ViewAt(t, p);
        EqualRowsIff(s, t, p);
      }
    }
  }

  /** The view of `p` holds its data, its row id and its digest columns. */
  ghost predicate ShowsFile(s: Store, p: Text, v: View) {
    && p in s.files && p in s.ids && v.data == s.files[p].data && v.id == s.ids[p]
    && v.row.path == p && v.row.hash == s.files[p].hash && v.row.role == s.files[p].role
    && v.row.origin == OriginText(s.files[p].origin) && v.row.format == Id(s.files[p].format)
    && v.row.packagePath == s.files[p].packagePath
    && (HasInstance(s, p) ==>
          var i := InstanceOf(s, p);
          && v.row.packageOrigin == Some(OriginText(i.origin)) && v.row.packageName == Some(i.name)
          && v.row.packageVersion == i.version && v.row.packageLocator == Some(i.locator)
          && v.row.packageManifestHash == Some(i.manifestHash) && v.row.packageStatus == Some(i.status))
    && (!HasInstance(s, p) ==>
          && v.row.packageOrigin.None? && v.row.packageName.None? && v.row.packageVersion.None?
          && v.row.packageLocator.None? && v.row.packageManifestHash.None? && v.row.packageStatus.None?)
  }

  /** The projection is built from these very tables: all code files, the edges, and the facts of this digest. */
  ghost predicate BuiltFrom(w: World, version: Text, s: Store, digest: Text, projection: Text) {
    exists views: map<Text, View>, facts: Option<Text> ::
      && projection == w.project(version, views, s.edges, facts)
      && (forall p :: p in views <==> IsCode(s, p)) && (forall p :: p in views ==> ShowsFile(s, p, views[p]))
      && (forall f :: facts == Some(f) <==> AcceptsFacts(s.active, digest, f))
  }

  lemma ProjectedIsBuilt(w: World, version: Text, s: Store, digest: Text)
    requires s.ids.Keys == s.files.Keys
    ensures BuiltFrom(w, version, s, digest, Projected(w, version, s, digest))
  {
    var views, facts := CodeViews(s), Accepted(s.active, digest);
    assert forall p :: p in views <==> IsCode(s, p);
    assert forall p :: p in views ==> ShowsFile(s, p, views[p]);
    assert forall f :: facts == Some(f) <==> AcceptsFacts(s.active, digest, f);
    assert Projected(w, version, s, digest) == w.project(version, views, s.edges, facts);
  }

  // ---------------------------------------------------------------- equal inputs, equal rows

  /** Equal digest inputs list the same code files with the same columns. */
  lemma SameInputSameRows(b: Build, s: Store, r: Text, c: Build, t: Store, q: Text)
    requires CodeInputOf(b, s, r) == CodeInputOf(c, t, q)
    ensures b.projection == c.projection && r == q
    ensures EditionContext(s) == EditionContext(t)
    ensures PathsOf(s, Code) == PathsOf(t, Code)
    ensures forall p :: p in PathsOf(s, Code) ==> CodeRowAt(s, p) == CodeRowAt(t, p)
  {
    var x, y := ByteOrder.Ordered(PathsOf(s, Code)), ByteOrder.Ordered(PathsOf(t, Code));
    assert RowsAt(s, x) == RowsAt(t, y);
    SameRowsSamePaths(s, x, t, y);
    assert forall p :: p in x <==> p in PathsOf(s, Code);
    assert forall p :: p in y <==> p in PathsOf(t, Code);
  }

  /** The same of the tables themselves, with the edition fingerprint where there is Rust code. */
  lemma SameInputSameCode(b: Build, s: Store, r: Text, c: Build, t: Store, q: Text)
    requires CodeInputOf(b, s, r) == CodeInputOf(c, t, q)
    ensures b.projection == c.projection && b.extraction == c.extraction && r == q
    ensures s.projectionMarker == t.projectionMarker && s.extractionMarker == t.extractionMarker
    ensures forall p :: IsCode(s, p) <==> IsCode(t, p)
    ensures forall p :: IsCode(s, p) ==> IsCode(t, p) && EqualColumns(s, t, p)
    ensures (exists p :: p in s.files && s.files[p].format.Rust?) ==> s.fingerprint == t.fingerprint
  {
    SameInputSameRows(b, s, r, c, t, q);
    forall p
      ensures IsCode(s, p) <==> IsCode(t, p)
      ensures IsCode(s, p) ==> IsCode(t, p) && EqualColumns(s, t, p)
    {
      CodePaths(s, p);
      CodePaths(t, p);
      if IsCode(s, p) {
        EqualRowsIff(s, t, p);
      }
    }
    if p :| p in s.files && s.files[p].format.Rust? {
      assert IsCode(s, p) && IsCode(t, p) && EqualColumns(s, t, p);
      assert Present(s, Rust) && Present(t, Rust);
    }
  }

  lemma {:induction false} ContractIsListed(b: Build, s: Store, corpus: Corpus, n: nat, k: nat)
    requires k < n <= |ALL| && CorpusOf(ALL[k]) == corpus && Present(s, ALL[k])
    ensures FormatContract(Id(ALL[k]), VersionOf(b, ALL[k]), MarkerOf(s, ALL[k])) in ActiveFormats(b, s, corpus, n)
  {
    if k < n - 1 {
      ContractIsListed(b, s, corpus, n - 1, k);
    }
  }

  lemma {:induction false} ListedIsContract(b: Build, s: Store, corpus: Corpus, n: nat, x: FormatContract) returns (k: nat)
    requires n <= |ALL| && x in ActiveFormats(b, s, corpus, n)
    ensures k < n && Present(s, ALL[k]) && x == FormatContract(Id(ALL[k]), VersionOf(b, ALL[k]), MarkerOf(s, ALL[k]))
  {
    if x in ActiveFormats(b, s, corpus, n - 1) {
      k := ListedIsContract(b, s, corpus, n - 1, x);
    } else {
      k := n - 1;
    }
  }

  /** For a format that is present, equal contract lists mean equal versions and markers. */
  lemma SameContracts(b: Build, s: Store, c: Build, t: Store, f: Format)
    requires ActiveFormats(b, s, CorpusOf(f), |ALL|) == ActiveFormats(c, t, CorpusOf(f), |ALL|)
    requires exists p :: p in s.files && s.files[p].format == f
    ensures exists p :: p in t.files && t.files[p].format == f
    ensures f in s.contracts <==> f in t.contracts
    ensures f in s.contracts ==> s.contracts[f] == t.contracts[f]
    ensures f.JavaScript? || f.TypeScript? ==> b.extraction == c.extraction
    ensures f.Markdown? || f.Mdx? ==> b.chunk == c.chunk
    ensures f.Rust? ==> b.rust == c.rust
  {
    var x := FormatContract(Id(f), VersionOf(b, f), MarkerOf(s, f));
    ContractIsListed(b, s, CorpusOf(f), |ALL|, IndexOf(f));
    var k := ListedIsContract(c, t, CorpusOf(f), |ALL|, x);
    IdsDiffer(f, ALL[k]);
  }

  /** Equal documentation inputs list the same documents with the same contents. */
  lemma SameInputSameDocuments(b: Build, s: Store, c: Build, t: Store)
    requires DocInputOf(b, s) == DocInputOf(c, t)
    ensures b.chunk == c.chunk && s.chunkMarker == t.chunkMarker
    ensures forall p :: IsDocument(s, p) <==> IsDocument(t, p)
    ensures forall p :: IsDocument(s, p) ==> IsDocument(t, p) && s.files[p].hash == t.files[p].hash && s.files[p].format == t.files[p].format
  {
    var x, y := ByteOrder.Ordered(PathsOf(s, Docs)), ByteOrder.Ordered(PathsOf(t, Docs));
    assert DocRowsAt(s, x) == DocRowsAt(t, y);
    SameDocuments(s, x, t, y);
    forall p
      ensures IsDocument(s, p) <==> IsDocument(t, p)
      ensures IsDocument(s, p) ==> IsDocument(t, p) && s.files[p].hash == t.files[p].hash && s.files[p].format == t.files[p].format
    {
      CodePaths(s, p);
      CodePaths(t, p);
      assert p in x <==> p in PathsOf(s, Docs);
      assert p in y <==> p in PathsOf(t, Docs);
    }
  }

  lemma SameDocuments(s: Store, x: seq<Text>, t: Store, y: seq<Text>)
    requires forall p :: p in x ==> p in s.files
    requires forall p :: p in y ==> p in t.files
    requires DocRowsAt(s, x) == DocRowsAt(t, y)
    ensures x == y
    ensures forall p :: p in x ==> s.files[p].hash == t.files[p].hash && s.files[p].format == t.files[p].format
  {
    assert |x| == |y|;
    forall i | 0 <= i < |x|
      ensures x[i] == y[i] && x[i] in s.files && y[i] in t.files
      ensures s.files[x[i]].hash == t.files[y[i]].hash && s.files[x[i]].format == t.files[y[i]].format
    {
      assert x[i] in x && y[i] in y;
      assert DocRowsAt(s, x)[i] == DocRowsAt(t, y)[i];
      IdsDiffer(s.files[x[i]].format, t.files[y[i]].format);
    }
  }

  lemma SameRowsSamePaths(s: Store, x: seq<Text>, t: Store, y: seq<Text>)
    requires forall p :: p in x ==> p in s.files
    requires forall p :: p in y ==> p in t.files
    requires RowsAt(s, x) == RowsAt(t, y)
    ensures x == y
    ensures forall p :: p in x ==> CodeRowAt(s, p) == CodeRowAt(t, p)
  {
    assert |x| == |y|;
    forall i | 0 <= i < |x|
      ensures x[i] == y[i] && x[i] in s.files && y[i] in t.files && CodeRowAt(s, x[i]) == CodeRowAt(t, y[i])
    {
      assert x[i] in x && y[i] in y;
      assert RowsAt(s, x)[i] == RowsAt(t, y)[i];
    }
  }

  method CodeInputFor(b: Build, s: Store, resolution: Text) returns (i: CodeInput)
    ensures i == CodeInputOf(b, s, resolution)
  {
    var paths := ByteOrder.Listing(PathsOf(s, Code));
    i := CodeInputWith(b, s, paths, resolution);
  }

  method DocInputFor(b: Build, s: Store) returns (i: DocInput)
    ensures i == DocInputOf(b, s)
  {
    var paths := ByteOrder.Listing(PathsOf(s, Docs));
    i := DocInputWith(b, s, paths);
  }

  method Fingerprint(hash: Hash, contexts: map<Text, Text>) returns (f: Text)
    ensures f == hash(ContextStream(contexts))
  {
    var paths := ByteOrder.Listing(contexts.Keys);
    f := hash(Ascii(EDITION_DOMAIN) + PutContexts(paths, contexts));
  }
}
