/**
 * The inputs of one indexing attempt, as they were captured, and the rows that they
 * stand for: what an index rebuilt from nothing would contain.
 */
module Captures {
  import opened Wrappers
  import opened Publication
  import opened Formats
  import opened Tables

  /** What reading one file gave. */
  datatype Read =
    | Contents(source: Source)
    | Race        // the file vanished after the inventory
    | Retryable   // the whole attempt has to be repeated
    | Rejected    // the file cannot be read

  datatype CodeFile = CodeFile(path: Text, format: Format, read: Read)

  datatype DocFile = DocFile(path: Text, format: Format, source: Source, provenance: Source)

  /** A dependency source that was planned, read and not skipped. */
  datatype DependencyFile = DependencyFile(
    root: Text, display: Text, packagePath: Text, format: Format, source: Source)

  datatype Discovery = Discovery(instances: seq<Instance>, files: seq<DependencyFile>)

  datatype Capture = Capture(
    base: Text, code: seq<CodeFile>, docs: seq<DocFile>,
    editions: map<Text, Text>, packages: seq<Instance>,
    // from the data of the importers; nothing if a selected package is missing
    discover: map<Text, Text> -> Option<Discovery>,
    resolve: (map<Text, FileRow>, map<Text, Instance>) -> Option<seq<Edge>>,
    // whether provenance is wanted, and still the same when it is checked
    freshness: bool, stableEarly: bool, stableLate: bool,
    // whether the recorded inputs of the active checker batch are unchanged
    checkerInputsFresh: bool)

  // ---------------------------------------------------------------- what callers guarantee

  ghost predicate DistinctPaths(c: Capture) {
    && (forall i, j :: 0 <= i < j < |c.code| ==> c.code[i].path != c.code[j].path)
    && (forall i, j :: 0 <= i < j < |c.docs| ==> c.docs[i].path != c.docs[j].path)
    && (forall i, j :: 0 <= i < |c.code| && 0 <= j < |c.docs| ==> c.code[i].path != c.docs[j].path)
  }

  ghost predicate ValidFormats(c: Capture) {
    && (forall f :: f in c.code ==> CorpusOf(f.format).Code? && (f.format.Rust? <==> f.path in c.editions))
    && (forall f :: f in c.docs ==> CorpusOf(f.format).Docs?)
    && (forall p :: p in c.editions ==> exists f :: f in c.code && f.path == p)
  }

  /** Dependency files belong to planned packages, and their display paths tell them apart. */
  ghost predicate ValidDiscovery(w: World, d: Discovery) {
    && (forall f :: f in d.files ==> EcmaScript(f.format) && w.rootOf(f.display) == f.root)
    && (forall f :: f in d.files ==> exists i :: i in d.instances && i.root == f.root)
    && (forall i, j :: 0 <= i < j < |d.files| ==> d.files[i].display != d.files[j].display)
  }

  ghost predicate ValidCapture(w: World, c: Capture) {
    && DistinctPaths(c) && ValidFormats(c)
    && (forall data :: c.discover(data).Some? ==> ValidDiscovery(w, c.discover(data).value))
  }

  // ---------------------------------------------------------------- rows from scratch

  const DOCUMENTATION_ROLE := "documentation"

  /** The edition a Rust file is parsed with; other formats have none. */
  function ContextOf(contexts: map<Text, Text>, f: Format, path: Text): Option<Text> {
    if f.Rust? && path in contexts then Some(contexts[path]) else None
  }

  function CodeRowFor(w: World, b: Build, c: Capture, f: CodeFile): Option<FileRow> {
    if !f.read.Contents? then None
    else
      var edition := if f.format.Rust? && f.path in c.editions then Some(c.editions[f.path]) else None;
      match w.extract(VersionOf(b, f.format), f.format, f.path, f.read.source, edition)
      case Some(data) =>
        Some(FileRow(w.hash(f.read.source), f.format, w.classify(f.path, f.read.source), Repository, None, None, data, None))
      case None => None
  }

  function DocRowFor(w: World, b: Build, f: DocFile): FileRow {
    FileRow(w.hash(f.source), f.format, Ascii(DOCUMENTATION_ROLE), Repository, None, None,
      w.chunk(VersionOf(b, f.format), f.format, f.path, f.source), Some(Provenance(b.provenance, f.provenance)))
  }

  function DependencyRowFor(w: World, b: Build, f: DependencyFile): Option<FileRow> {
    match w.extract(VersionOf(b, f.format), f.format, f.display, f.source, None)
    case Some(data) =>
      Some(FileRow(w.hash(f.source), f.format, w.classify(f.packagePath, f.source), Dependency, Some(f.root), Some(f.packagePath), data, None))
    case None => None
  }

  // ---------------------------------------------------------------- rows in the tables

  function Untagged(r: FileRow): FileRow {
    r.(origin := Repository, package := None, packagePath := None)
  }

  predicate IsFirstParty(files: map<Text, FileRow>, p: Text) {
    p in files && !files[p].origin.Dependency?
  }

  predicate IsDependency(files: map<Text, FileRow>, p: Text) {
    p in files && files[p].origin.Dependency?
  }

  function FirstParty(files: map<Text, FileRow>): map<Text, FileRow> {
    map p | p in files && !files[p].origin.Dependency? :: files[p]
  }

  function Dependencies(files: map<Text, FileRow>): map<Text, FileRow> {
    map p | p in files && files[p].origin.Dependency? :: files[p]
  }

  /** The first-party row at `p` is `r`, but for its tags; or there is none. */
  predicate Holds(files: map<Text, FileRow>, p: Text, r: Option<FileRow>) {
    if r.None? then !IsFirstParty(files, p) else IsFirstParty(files, p) && Untagged(files[p]) == r.value
  }

  predicate DependencyHolds(files: map<Text, FileRow>, p: Text, r: Option<FileRow>) {
    if r.None? then !IsDependency(files, p) else IsDependency(files, p) && files[p] == r.value
  }

  ghost predicate CodeDone(w: World, b: Build, c: Capture, files: map<Text, FileRow>) {
    forall f :: f in c.code ==> Holds(files, f.path, CodeRowFor(w, b, c, f))
  }

  ghost predicate DocsDone(w: World, b: Build, c: Capture, files: map<Text, FileRow>) {
    forall f :: f in c.docs ==> Holds(files, f.path, Some(DocRowFor(w, b, f)))
  }

  ghost predicate Captured(c: Capture, p: Text) {
    (exists f :: f in c.code && f.path == p) || (exists f :: f in c.docs && f.path == p)
  }

  /** The first-party rows are those of the capture and no others. */
  ghost predicate FirstPartyDone(w: World, b: Build, c: Capture, files: map<Text, FileRow>) {
    && CodeDone(w, b, c, files) && DocsDone(w, b, c, files)
    && (forall p :: IsFirstParty(files, p) ==> Captured(c, p))
  }

  /** The importers that dependency discovery looks at, and what it sees of them. */
  function Importers(files: map<Text, FileRow>): map<Text, Text> {
    map p | p in files && !files[p].origin.Dependency? && EcmaScript(files[p].format) :: files[p].data
  }

  ghost predicate DependenciesDone(w: World, b: Build, d: Discovery, files: map<Text, FileRow>) {
    && (forall f :: f in d.files ==> DependencyHolds(files, f.display, DependencyRowFor(w, b, f)))
    && (forall p :: IsDependency(files, p) ==> exists f :: f in d.files && f.display == p)
  }

  // ---------------------------------------------------------------- reuse of stored rows

  /** The row's data are what version `v` extracts from a source with the row's hash. */
  ghost predicate Extracted(w: World, v: Text, context: Option<Text>, p: Text, row: FileRow) {
    exists s: Source :: w.hash(s) == row.hash && w.extract(v, row.format, p, s, context) == Some(row.data)
  }

  ghost predicate Chunked(w: World, v: Text, p: Text, row: FileRow) {
    exists s: Source :: w.hash(s) == row.hash && w.chunk(v, row.format, p, s) == row.data
  }

  lemma ExtractedFrom(w: World, v: Text, context: Option<Text>, p: Text, row: FileRow, s: Source)
    requires CollisionFree(w.hash) && Extracted(w, v, context, p, row) && row.hash == w.hash(s)
    ensures w.extract(v, row.format, p, s, context) == Some(row.data)
  {
    var s': Source :| w.hash(s') == row.hash && w.extract(v, row.format, p, s', context) == Some(row.data);
    assert Short(s) && Short(s');
  }

  lemma ChunkedFrom(w: World, v: Text, p: Text, row: FileRow, s: Source)
    requires CollisionFree(w.hash) && Chunked(w, v, p, row) && row.hash == w.hash(s)
    ensures w.chunk(v, row.format, p, s) == row.data
  {
    var s': Source :| w.hash(s') == row.hash && w.chunk(v, row.format, p, s') == row.data;
    assert Short(s) && Short(s');
  }
}
