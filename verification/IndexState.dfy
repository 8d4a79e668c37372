/**
 * What a committed index is: the publication of one capture, the invariant that every
 * committed state keeps, and the two facts that make cheap refreshes safe.
 */
module IndexState {
  import opened Wrappers
  import opened Publication
  import opened Formats
  import opened Tables
  import opened Captures
  import opened Contracts
  import opened Database
  import opened FirstPartyRows
  import opened DependencyFiles
  import opened Tagging
  import Dependency
  import ByteOrder

  // ---------------------------------------------------------------- the invariant

  ghost predicate ShapedRow(w: World, s: Store, p: Text)
    requires p in s.files
  {
    var row := s.files[p];
    && (row.provenance.Some? ==> CorpusOf(row.format).Docs? && !row.origin.Dependency?)
    && (row.origin.Dependency? ==> row.package == Some(w.rootOf(p)) && row.package.value in s.instances)
  }

  /** Foreign keys, and which columns go together. */
  ghost predicate Shaped(w: World, s: Store) {
    s.ids.Keys == s.files.Keys && forall p :: p in s.files ==> ShapedRow(w, s, p)
  }

  /** The published code digest, the projection and the editions belong together. */
  ghost predicate BackedBy(w: World, b: Build, s: Store)
    requires s.ids.Keys == s.files.Keys
  {
    var resolution := w.hash(ResolutionStream(s.edges));
    && Short(ResolutionStream(s.edges)) && Short(ContextStream(s.contexts))
    && CodeFits(CodeInputOf(b, s, resolution))
    && s.identities.code == Some(CodeDigest(w.hash, CodeInputOf(b, s, resolution)))
    && s.projection == Some(Projected(w, b.projection, s, s.identities.code.value))
    && (Present(s, Rust) ==> s.fingerprint == Some(w.hash(ContextStream(s.contexts))))
  }

  /** What holds of every committed state, whichever build wrote it. */
  ghost predicate Consistent(w: World, s: Store) {
    && Shaped(w, s) && Faithful(w, s)
    && (s.identities.code.Some? ==> exists b :: BackedBy(w, b, s))
    && (s.identities == NO_IDENTITIES || Readable(w.hash, s.identities))
  }

  lemma EmptyIsConsistent(w: World)
    ensures Consistent(w, EMPTY)
  {
  }

  // ---------------------------------------------------------------- a publication

  /** Every first-party row carries the tags of the workspace. */
  ghost predicate Tagged(c: Capture, files: map<Text, FileRow>) {
    forall p :: IsFirstParty(files, p) ==> files[p] == TagWith(c.base, Shallow(c.packages), p, files[p])
  }

  function CodeRows(files: map<Text, FileRow>): map<Text, FileRow> {
    map p | p in files && CorpusOf(files[p].format).Code? :: files[p]
  }

  /** The canonical files and package instances: what a build from nothing makes of the capture. */
  ghost predicate CanonicalFiles(w: World, b: Build, c: Capture, d: Discovery, s: Store) {
    && FirstPartyDone(w, b, c, s.files) && Tagged(c, s.files)
    && c.discover(Importers(s.files)) == Some(d)
    && DependenciesDone(w, b, d, s.files)
    && s.instances == Dependency.Upserted(map[], c.packages + d.instances)
  }

  ghost predicate CanonicalRows(w: World, b: Build, c: Capture, d: Discovery, s: Store) {
    CanonicalFiles(w, b, c, d, s) && c.resolve(CodeRows(s.files), s.instances) == Some(s.edges)
  }

  ghost predicate EditionsSet(w: World, c: Capture, s: Store) {
    && s.contexts == c.editions
    && s.fingerprint == (if c.editions == map[] then None else Some(w.hash(ContextStream(c.editions))))
  }

  /** The markers say that the rows are this build's. */
  ghost predicate ContractsSet(w: World, b: Build, c: Capture, s: Store) {
    && (forall f: Format :: MarkerOf(s, f) == Some(VersionOf(b, f)))
    && s.extractionMarker == Some(b.extraction) && s.chunkMarker == Some(b.chunk)
    && s.provenanceMarker == Some(b.provenance)
    && EditionsSet(w, c, s)
  }

  ghost predicate MarkersSet(w: World, b: Build, c: Capture, s: Store) {
    && ContractsSet(w, b, c, s)
    && s.projectionMarker == Some(b.projection)
    && s.resolution == Some(w.hash(ResolutionStream(s.edges)))
  }

  /** The digests are those of the committed rows, and fold into one snapshot. */
  ghost predicate IdentitiesCurrent(w: World, b: Build, s: Store) {
    var resolution := w.hash(ResolutionStream(s.edges));
    && CodeFits(CodeInputOf(b, s, resolution)) && DocFits(DocInputOf(b, s))
    && (var code := CodeDigest(w.hash, CodeInputOf(b, s, resolution));
        var docs := DocDigest(w.hash, DocInputOf(b, s));
        var provenance := w.provenanceDigest(Provenances(s));
        s.identities == Published(Identities(code, docs, provenance, Fold(w.hash, code, docs, provenance))))
  }

  /** The projection is the one that a rebuild from these tables would give. */
  ghost predicate ProjectionCurrent(w: World, b: Build, s: Store) {
    && s.ids.Keys == s.files.Keys && s.identities.code.Some?
    && s.projection == Some(Projected(w, b.projection, s, s.identities.code.value))
  }

  ghost predicate IsPublication(w: World, b: Build, c: Capture, d: Discovery, s: Store) {
    CanonicalRows(w, b, c, d, s) && MarkersSet(w, b, c, s) && IdentitiesCurrent(w, b, s) && ProjectionCurrent(w, b, s)
  }

  /** Some hashed stream or row count is beyond what the platform can hold. */
  ghost predicate TooMuch(w: World, b: Build, s: Store) {
    var resolution := w.hash(ResolutionStream(s.edges));
    !(CodeFits(CodeInputOf(b, s, resolution)) && DocFits(DocInputOf(b, s))
      && Short(ResolutionStream(s.edges)) && Short(ContextStream(s.contexts)))
  }

  // ---------------------------------------------------------------- incremental refines full

  lemma HeldRowsAgree(w: World, b: Build, c: Capture, x: map<Text, FileRow>, y: map<Text, FileRow>, p: Text)
    requires FirstPartyDone(w, b, c, x) && FirstPartyDone(w, b, c, y)
    requires IsFirstParty(x, p)
    ensures IsFirstParty(y, p) && Untagged(x[p]) == Untagged(y[p])
  {
    if f :| f in c.code && f.path == p {
      assert Holds(x, p, CodeRowFor(w, b, c, f)) && Holds(y, p, CodeRowFor(w, b, c, f));
    } else {
      var f :| f in c.docs && f.path == p;
      assert Holds(x, p, Some(DocRowFor(w, b, f))) && Holds(y, p, Some(DocRowFor(w, b, f)));
    }
  }

  lemma ImportersAgree(w: World, b: Build, c: Capture, x: map<Text, FileRow>, y: map<Text, FileRow>)
    requires FirstPartyDone(w, b, c, x) && FirstPartyDone(w, b, c, y)
    ensures Importers(x) == Importers(y)
  {
    forall p
      ensures p in Importers(x) <==> p in Importers(y)
      ensures p in Importers(x) ==> Importers(x)[p] == Importers(y)[p]
    {
      if IsFirstParty(x, p) {
        HeldRowsAgree(w, b, c, x, y, p);
        assert Untagged(x[p]).format == Untagged(y[p]).format && Untagged(x[p]).data == Untagged(y[p]).data;
      } else if IsFirstParty(y, p) {
        HeldRowsAgree(w, b, c, y, x, p);
      }
    }
  }

  lemma TagsDependOnPath(base: Text, list: seq<Instance>, p: Text, x: FileRow, y: FileRow)
    requires Untagged(x) == Untagged(y)
    ensures TagWith(base, list, p, x) == TagWith(base, list, p, y)
  {
    assert TagWith(base, list, p, Untagged(x)) == TagWith(base, list, p, x);
    assert TagWith(base, list, p, Untagged(y)) == TagWith(base, list, p, y);
  }

  lemma RowsAgree(w: World, b: Build, c: Capture, d: Discovery, x: Store, y: Store, p: Text)
    requires CanonicalRows(w, b, c, d, x) && CanonicalRows(w, b, c, d, y)
    requires p in x.files
    ensures p in y.files && x.files[p] == y.files[p]
  {
    if IsFirstParty(x.files, p) {
      HeldRowsAgree(w, b, c, x.files, y.files, p);
      TagsDependOnPath(c.base, Shallow(c.packages), p, x.files[p], y.files[p]);
    } else {
      assert IsDependency(x.files, p);
      var f :| f in d.files && f.display == p;
      assert DependencyHolds(x.files, p, DependencyRowFor(w, b, f)) && DependencyHolds(y.files, p, DependencyRowFor(w, b, f));
    }
  }

  /** The parts of a store that a capture determines: everything but row ids and batches. */
  ghost predicate SameCanonical(x: Store, y: Store) {
    && x.files == y.files && x.instances == y.instances && x.edges == y.edges
    && x.contracts == y.contracts && x.extractionMarker == y.extractionMarker && x.chunkMarker == y.chunkMarker
    && x.provenanceMarker == y.provenanceMarker && x.projectionMarker == y.projectionMarker
    && x.contexts == y.contexts && x.fingerprint == y.fingerprint && x.resolution == y.resolution
  }

  lemma {:induction false} SameFormats(b: Build, x: Store, y: Store, corpus: Corpus, n: nat)
    requires x.files == y.files && x.contracts == y.contracts && n <= |ALL|
    ensures ActiveFormats(b, x, corpus, n) == ActiveFormats(b, y, corpus, n)
  {
    if n > 0 {
      SameFormats(b, x, y, corpus, n - 1);
      assert Present(x, ALL[n - 1]) == Present(y, ALL[n - 1]);
    }
  }

  lemma SameInputs(b: Build, x: Store, y: Store, resolution: Text)
    requires SameCanonical(x, y)
    ensures CodeInputOf(b, x, resolution) == CodeInputOf(b, y, resolution)
    ensures DocInputOf(b, x) == DocInputOf(b, y)
  {
    SameFormats(b, x, y, Code, |ALL|);
    SameFormats(b, x, y, Docs, |ALL|);
    assert PathsOf(x, Code) == PathsOf(y, Code) && PathsOf(x, Docs) == PathsOf(y, Docs);
    assert Present(x, Rust) == Present(y, Rust);
    var code, docs := ByteOrder.Ordered(PathsOf(x, Code)), ByteOrder.Ordered(PathsOf(x, Docs));
    assert RowsAt(x, code) == RowsAt(y, code);
    assert DocRowsAt(x, docs) == DocRowsAt(y, docs);
  }

  lemma CanonicalCarriesOver(w: World, b: Build, c: Capture, d: Discovery, x: Store, y: Store)
    requires CanonicalRows(w, b, c, d, x)
    requires x.files == y.files && x.instances == y.instances && x.edges == y.edges
    ensures CanonicalRows(w, b, c, d, y)
  {
  }

  lemma ContractsCarryOver(w: World, b: Build, c: Capture, x: Store, y: Store)
    requires ContractsSet(w, b, c, x) && x.contracts == y.contracts
    requires x.extractionMarker == y.extractionMarker && x.chunkMarker == y.chunkMarker && x.provenanceMarker == y.provenanceMarker
    requires x.contexts == y.contexts && x.fingerprint == y.fingerprint
    ensures ContractsSet(w, b, c, y)
  {
    assert forall f: Format :: MarkerOf(y, f) == MarkerOf(x, f);
  }

  lemma ProjectionCarriesOver(w: World, version: Text, x: Store, y: Store, digest: Text)
    requires x.ids.Keys == x.files.Keys && x.files == y.files && x.ids == y.ids && x.instances == y.instances
    requires x.edges == y.edges && Accepted(x.active, digest) == Accepted(y.active, digest)
    ensures Projected(w, version, x, digest) == Projected(w, version, y, digest)
  {
    assert CodeViews(x) == CodeViews(y);
  }

  lemma FilesAgree(w: World, b: Build, c: Capture, d: Discovery, x: Store, y: Store)
    requires CanonicalRows(w, b, c, d, x) && CanonicalRows(w, b, c, d, y)
    ensures x.files == y.files
  {
    forall p
      ensures p in x.files <==> p in y.files
      ensures p in x.files ==> x.files[p] == y.files[p]
    {
      if p in x.files {
        RowsAgree(w, b, c, d, x, y, p);
      } else if p in y.files {
        RowsAgree(w, b, c, d, y, x, p);
      }
    }
  }

  lemma MarkersAgree(w: World, b: Build, c: Capture, x: Store, y: Store)
    requires MarkersSet(w, b, c, x) && MarkersSet(w, b, c, y)
    requires x.files == y.files && x.instances == y.instances && x.edges == y.edges
    ensures SameCanonical(x, y)
  {
    forall f: Format
      ensures f in x.contracts && f in y.contracts && x.contracts[f] == y.contracts[f]
    {
      assert MarkerOf(x, f) == MarkerOf(y, f) == Some(VersionOf(b, f));
    }
  }

  lemma IdentitiesAgree(w: World, b: Build, x: Store, y: Store)
    requires IdentitiesCurrent(w, b, x) && IdentitiesCurrent(w, b, y) && SameCanonical(x, y)
    ensures x.identities == y.identities
  {
    SameInputs(b, x, y, w.hash(ResolutionStream(x.edges)));
  }

  /**
   * Two publications of the same capture agree in every row, edge, marker and digest,
   * however each of them came about and whatever was stored before: an incremental
   * refresh is worth a full one, up to row ids.
   */
  lemma PublicationUnique(w: World, b: Build, c: Capture, d: Discovery, x: Store, e: Discovery, y: Store)
    requires IsPublication(w, b, c, d, x) && IsPublication(w, b, c, e, y)
    ensures d == e && SameCanonical(x, y) && x.identities == y.identities
  {
    ImportersAgree(w, b, c, x.files, y.files);
    FilesAgree(w, b, c, d, x, y);
    MarkersAgree(w, b, c, x, y);
    IdentitiesAgree(w, b, x, y);
  }

  // ---------------------------------------------------------------- publications keep the invariant

  lemma DocumentRow(w: World, b: Build, c: Capture, files: map<Text, FileRow>, f: DocFile)
    requires FirstPartyDone(w, b, c, files) && ValidFormats(c) && f in c.docs
    ensures IsFirstParty(files, f.path) && Untagged(files[f.path]) == DocRowFor(w, b, f)
    ensures CorpusOf(files[f.path].format).Docs?
  {
    assert Holds(files, f.path, Some(DocRowFor(w, b, f)));
    assert files[f.path].format == f.format;
  }

  lemma CodeRowCaptured(w: World, b: Build, c: Capture, files: map<Text, FileRow>, p: Text) returns (f: CodeFile)
    requires FirstPartyDone(w, b, c, files) && ValidFormats(c)
    requires IsFirstParty(files, p) && CorpusOf(files[p].format).Code?
    ensures f in c.code && f.path == p && CodeRowFor(w, b, c, f) == Some(Untagged(files[p]))
    ensures f.format == files[p].format && f.read.Contents?
  {
    forall g | g in c.docs
      ensures IsFirstParty(files, g.path) && CorpusOf(files[g.path].format).Docs?
    {
      DocumentRow(w, b, c, files, g);
    }
    assert Captured(c, p);
    f :| f in c.code && f.path == p;
    assert Holds(files, p, CodeRowFor(w, b, c, f));
  }

  lemma DependencyRowPlanned(w: World, b: Build, c: Capture, d: Discovery, s: Store, p: Text) returns (f: DependencyFile)
    requires ValidCapture(w, c) && CanonicalRows(w, b, c, d, s) && IsDependency(s.files, p)
    ensures f in d.files && f.display == p && DependencyRowFor(w, b, f) == Some(s.files[p])
    ensures ValidDiscovery(w, d) && f.format == s.files[p].format && EcmaScript(f.format)
  {
    f :| f in d.files && f.display == p;
    assert DependencyHolds(s.files, p, DependencyRowFor(w, b, f));
    assert c.discover(Importers(s.files)).Some?;
  }

  lemma PublishedRowFaithful(w: World, b: Build, c: Capture, d: Discovery, s: Store, p: Text)
    requires ValidCapture(w, c) && CanonicalRows(w, b, c, d, s) && MarkersSet(w, b, c, s)
    requires p in s.files
    ensures FaithfulRow(w, s, p)
  {
    var row := s.files[p];
    assert MarkerOf(s, row.format) == Some(VersionOf(b, row.format));
    if IsDependency(s.files, p) {
      var f := DependencyRowPlanned(w, b, c, d, s, p);
      assert w.hash(f.source) == row.hash;
      assert Extracted(w, VersionOf(b, row.format), None, p, row);
    } else if CorpusOf(row.format).Code? {
      var f := CodeRowCaptured(w, b, c, s.files, p);
      assert w.hash(f.read.source) == row.hash;
      assert Extracted(w, VersionOf(b, row.format), ContextOf(s.contexts, row.format, p), p, row);
    } else {
      var f := DocumentCaptured(w, b, c, s.files, p);
      assert w.hash(f.source) == row.hash;
      assert Chunked(w, VersionOf(b, row.format), p, row);
    }
  }

  lemma CodeFileRow(w: World, b: Build, c: Capture, files: map<Text, FileRow>, f: CodeFile)
    requires FirstPartyDone(w, b, c, files) && ValidFormats(c) && f in c.code && IsFirstParty(files, f.path)
    ensures CorpusOf(files[f.path].format).Code?
  {
    assert Holds(files, f.path, CodeRowFor(w, b, c, f));
    assert Untagged(files[f.path]).format == f.format;
  }

  lemma DocumentCaptured(w: World, b: Build, c: Capture, files: map<Text, FileRow>, p: Text) returns (f: DocFile)
    requires FirstPartyDone(w, b, c, files) && ValidFormats(c)
    requires IsFirstParty(files, p) && CorpusOf(files[p].format).Docs?
    ensures f in c.docs && f.path == p && Untagged(files[p]) == DocRowFor(w, b, f)
  {
    forall g | g in c.code && IsFirstParty(files, g.path)
      ensures CorpusOf(files[g.path].format).Code?
    {
      CodeFileRow(w, b, c, files, g);
    }
    assert Captured(c, p);
    f :| f in c.docs && f.path == p;
    DocumentRow(w, b, c, files, f);
  }

  lemma PublishedRowShaped(w: World, b: Build, c: Capture, d: Discovery, s: Store, p: Text)
    requires ValidCapture(w, c) && CanonicalRows(w, b, c, d, s)
    requires p in s.files
    ensures ShapedRow(w, s, p)
  {
    if IsDependency(s.files, p) {
      var f := DependencyRowPlanned(w, b, c, d, s, p);
      var i :| i in d.instances && i.root == f.root;
      Dependency.UpsertedRoots(c.packages + d.instances);
      assert i in c.packages + d.instances;
      assert f.root in Dependency.Roots(c.packages + d.instances);
    } else if CorpusOf(s.files[p].format).Code? {
      var f := CodeRowCaptured(w, b, c, s.files, p);
    }
  }

  lemma RustMeansEditions(w: World, b: Build, c: Capture, d: Discovery, s: Store, p: Text)
    requires ValidCapture(w, c) && CanonicalRows(w, b, c, d, s) && p in s.files && s.files[p].format == Rust
    ensures p in c.editions
  {
    if IsDependency(s.files, p) {
      var f := DependencyRowPlanned(w, b, c, d, s, p);
    } else {
      var f := CodeRowCaptured(w, b, c, s.files, p);
    }
  }

  lemma PublicationIsBacked(w: World, b: Build, c: Capture, d: Discovery, s: Store)
    requires ValidCapture(w, c) && CanonicalRows(w, b, c, d, s) && MarkersSet(w, b, c, s)
    requires IdentitiesCurrent(w, b, s) && ProjectionCurrent(w, b, s)
    requires Short(ResolutionStream(s.edges)) && Short(ContextStream(s.contexts))
    ensures BackedBy(w, b, s)
  {
    forall p | p in s.files && s.files[p].format == Rust
      ensures p in c.editions
    {
      RustMeansEditions(w, b, c, d, s, p);
    }
  }

  lemma PublishedRowsAreSound(w: World, b: Build, c: Capture, d: Discovery, s: Store)
    requires ValidCapture(w, c) && CanonicalRows(w, b, c, d, s) && MarkersSet(w, b, c, s) && s.ids.Keys == s.files.Keys
    ensures Faithful(w, s) && Shaped(w, s)
  {
    forall p | p in s.files
      ensures FaithfulRow(w, s, p) && ShapedRow(w, s, p)
    {
      PublishedRowFaithful(w, b, c, d, s, p);
      PublishedRowShaped(w, b, c, d, s, p);
    }
  }

  /** Whatever has been published can be refreshed again, by this build or another. */
  lemma PublicationIsConsistent(w: World, b: Build, c: Capture, d: Discovery, s: Store)
    requires ValidCapture(w, c) && IsPublication(w, b, c, d, s)
    requires Short(ResolutionStream(s.edges)) && Short(ContextStream(s.contexts))
    ensures Consistent(w, s)
  {
    assert s.ids.Keys == s.files.Keys;
    CurrentIsReadable(w, b, s);
    hide IdentitiesCurrent, CanonicalRows, MarkersSet, ProjectionCurrent, Shaped, Faithful, BackedBy, ValidCapture;
    PublishedRowsAreSound(w, b, c, d, s);
    PublicationIsBacked(w, b, c, d, s);
  }

  lemma CurrentIsReadable(w: World, b: Build, s: Store)
    requires s.ids.Keys == s.files.Keys && IdentitiesCurrent(w, b, s)
    ensures Readable(w.hash, s.identities)
  {
  }

  // ---------------------------------------------------------------- when the projection may stay

  /** No code file that kept its content, format and edition was stored anew. */
  ghost predicate CodeUnmoved(w: World, c: Capture, s: Store, t: Store) {
    forall f :: f in c.code && KeepsCode(w, c, s.contexts, FirstParty(s.files), f) ==> KeptAt(s, t, f.path)
  }

  ghost predicate DependenciesUnmoved(w: World, d: Discovery, s: Store, t: Store) {
    forall f :: f in d.files && KeepsDependency(w, Dependencies(s.files), f) ==> KeptAt(s, t, f.display)
  }

  /** An equal digest row at a captured code file means that the file was kept. */
  lemma EqualRowWasKept(w: World, b: Build, c: Capture, s: Store, t: Store, f: CodeFile)
    requires f in c.code && ValidFormats(c)
    requires f.path in s.files && f.path in t.files && CodeRowAt(s, f.path) == CodeRowAt(t, f.path)
    requires IsFirstParty(t.files, f.path) && Holds(t.files, f.path, CodeRowFor(w, b, c, f))
    requires f.format.Rust? ==> s.contexts == c.editions
    ensures KeepsCode(w, c, s.contexts, FirstParty(s.files), f)
  {
    var x, y := s.files[f.path], t.files[f.path];
    assert Untagged(y) == CodeRowFor(w, b, c, f).value;
    IdsDiffer(x.format, y.format);
    OriginsDiffer(x.origin, y.origin);
    assert f.path in FirstParty(s.files);
  }

  lemma EqualDependencyWasKept(w: World, b: Build, d: Discovery, s: Store, t: Store, f: DependencyFile)
    requires f in d.files && ValidDiscovery(w, d) && Shaped(w, s)
    requires f.display in s.files && f.display in t.files && CodeRowAt(s, f.display) == CodeRowAt(t, f.display)
    requires IsDependency(t.files, f.display) && DependencyHolds(t.files, f.display, DependencyRowFor(w, b, f))
    ensures KeepsDependency(w, Dependencies(s.files), f)
  {
    var x, y := s.files[f.display], t.files[f.display];
    IdsDiffer(x.format, y.format);
    OriginsDiffer(x.origin, y.origin);
    assert ShapedRow(w, s, f.display);
    assert f.display in Dependencies(s.files);
  }

  lemma EqualInputsKeepView(
      w: World, b: Build, c: Capture, d: Discovery, s: Store, t: Store, p: Text)
    requires ValidCapture(w, c) && Shaped(w, s) && CanonicalRows(w, b, c, d, t) && t.ids.Keys == t.files.Keys
    requires p in s.files && p in t.files && CorpusOf(t.files[p].format).Code?
    requires CodeRowAt(s, p) == CodeRowAt(t, p)
    requires t.files[p].format.Rust? ==> s.contexts == c.editions
    requires CodeUnmoved(w, c, s, t) && DependenciesUnmoved(w, d, s, t)
    ensures ViewAt(s, p) == ViewAt(t, p)
  {
    if IsFirstParty(t.files, p) {
      var f := CodeRowCaptured(w, b, c, t.files, p);
      EqualRowWasKept(w, b, c, s, t, f);
      assert KeptAt(s, t, f.path);
    } else {
      var f := DependencyRowPlanned(w, b, c, d, t, p);
      EqualDependencyWasKept(w, b, d, s, t, f);
      assert KeptAt(s, t, f.display);
    }
  }

  /** Equal code digests fix everything that the projection reads, row ids included. */
  lemma EqualDigestKeepsViews(
      w: World, a: Build, b: Build, c: Capture, d: Discovery, s: Store, t: Store)
    requires CollisionFree(w.hash) && ValidCapture(w, c)
    requires Shaped(w, s) && BackedBy(w, a, s)
    requires CanonicalRows(w, b, c, d, t) && t.ids.Keys == t.files.Keys
    requires EditionsSet(w, c, t) && Short(ContextStream(c.editions)) && Short(ResolutionStream(t.edges))
    requires CodeFits(CodeInputOf(b, t, w.hash(ResolutionStream(t.edges))))
    requires s.identities.code == Some(CodeDigest(w.hash, CodeInputOf(b, t, w.hash(ResolutionStream(t.edges)))))
    requires CodeUnmoved(w, c, s, t) && DependenciesUnmoved(w, d, s, t)
    ensures a.projection == b.projection && s.edges == t.edges
    ensures CodeViews(s) == CodeViews(t)
    ensures forall p :: IsCode(s, p) <==> IsCode(t, p)
    ensures forall p :: IsCode(t, p) ==> SameFile(s, t, p)
  {
    var x, y := w.hash(ResolutionStream(s.edges)), w.hash(ResolutionStream(t.edges));
    CodeDigestDeterminesInput(w.hash, CodeInputOf(a, s, x), CodeInputOf(b, t, y));
    SameInputSameRows(a, s, x, b, t, y);
    ResolutionStreamInjective(s.edges, t.edges);
    forall p | p in PathsOf(t, Code)
      ensures ViewAt(s, p) == ViewAt(t, p)
    {
      SameEditions(w, b, c, d, s, t, p);
      EqualInputsKeepView(w, b, c, d, s, t, p);
    }
    SameViews(s, t);
    ViewsAreFiles(s, t);
  }

  lemma ViewsAreFiles(s: Store, t: Store)
    requires s.ids.Keys == s.files.Keys && t.ids.Keys == t.files.Keys && CodeViews(s) == CodeViews(t)
    ensures forall p :: IsCode(s, p) <==> IsCode(t, p)
    ensures forall p :: IsCode(t, p) ==> SameFile(s, t, p)
  {
    forall p
      ensures IsCode(s, p) <==> IsCode(t, p)
      ensures IsCode(t, p) ==> SameFile(s, t, p)
    {
      assert p in CodeViews(s) <==> IsCode(s, p);
      assert p in CodeViews(t) <==> IsCode(t, p);
      if IsCode(t, p) {
        assert CodeViews(s)[p] == CodeViews(t)[p];
        EqualRowsIff(s, t, p);
      }
    }
  }

  lemma SameEditions(w: World, b: Build, c: Capture, d: Discovery, s: Store, t: Store, p: Text)
    requires CollisionFree(w.hash) && ValidCapture(w, c) && CanonicalRows(w, b, c, d, t)
    requires p in s.files && p in t.files && CodeRowAt(s, p) == CodeRowAt(t, p)
    requires EditionContext(s) == EditionContext(t)
    requires Present(s, Rust) ==> s.fingerprint == Some(w.hash(ContextStream(s.contexts)))
    requires EditionsSet(w, c, t)
    requires Short(ContextStream(s.contexts)) && Short(ContextStream(c.editions))
    ensures t.files[p].format.Rust? ==> s.contexts == c.editions
  {
    IdsDiffer(s.files[p].format, t.files[p].format);
    if t.files[p].format.Rust? {
      assert Present(s, Rust) && Present(t, Rust);
      RustMeansEditions(w, b, c, d, t, p);
      ContextStreamInjective(s.contexts, c.editions);
    }
  }

  lemma SameViews(s: Store, t: Store)
    requires s.ids.Keys == s.files.Keys && t.ids.Keys == t.files.Keys
    requires PathsOf(s, Code) == PathsOf(t, Code)
    requires forall p :: p in PathsOf(t, Code) ==> ViewAt(s, p) == ViewAt(t, p)
    ensures CodeViews(s) == CodeViews(t)
  {
    assert forall p :: p in CodeViews(s) <==> p in PathsOf(s, Code);
    assert forall p :: p in CodeViews(t) <==> p in PathsOf(t, Code);
  }

  /**
   * A skipped rebuild is never stale: with the same code digest, no reset, no changed
   * code contract and the same accepted facts, the stored projection is the one that
   * a rebuild would give.
   */
  lemma SkipIsSound(w: World, a: Build, b: Build, c: Capture, d: Discovery, s: Store, t: Store, digest: Text)
    requires CollisionFree(w.hash) && ValidCapture(w, c)
    requires Shaped(w, s) && BackedBy(w, a, s) && s.identities.code == Some(digest)
    requires CanonicalRows(w, b, c, d, t) && t.ids.Keys == t.files.Keys
    requires EditionsSet(w, c, t) && Short(ContextStream(c.editions)) && Short(ResolutionStream(t.edges))
    requires CodeFits(CodeInputOf(b, t, w.hash(ResolutionStream(t.edges))))
    requires digest == CodeDigest(w.hash, CodeInputOf(b, t, w.hash(ResolutionStream(t.edges))))
    requires CodeUnmoved(w, c, s, t) && DependenciesUnmoved(w, d, s, t)
    requires t.projection == s.projection && Accepted(s.active, digest) == Accepted(t.active, digest)
    ensures t.projection == Some(Projected(w, b.projection, t, digest))
  {
    EqualDigestKeepsViews(w, a, b, c, d, s, t);
  }

  // ---------------------------------------------------------------- what identities promise to readers

  /** The same code files with the same columns, and the same documents with the same contents. */
  ghost predicate SameContents(s: Store, t: Store) {
    && (forall p :: IsCode(s, p) <==> IsCode(t, p))
    && (forall p :: IsCode(s, p) && IsCode(t, p) ==> EqualColumns(s, t, p))
    && (forall p :: IsDocument(s, p) <==> IsDocument(t, p))
    && (forall p :: IsDocument(s, p) && IsDocument(t, p) ==> s.files[p].hash == t.files[p].hash && s.files[p].format == t.files[p].format)
  }

  /**
   * The snapshot of a publication determines what it was made of: same snapshot, same code
   * files with the same columns, same documents with the same contents, same resolved
   * edges and same compiled-in versions, whichever builds published them.
   */
  lemma SnapshotDeterminesCode(w: World, a: Build, s: Store, b: Build, t: Store)
    requires CollisionFree(w.hash) && IdentitiesCurrent(w, a, s) && IdentitiesCurrent(w, b, t)
    requires Short(ResolutionStream(s.edges)) && Short(ResolutionStream(t.edges))
    requires Short(FoldStream(s.identities.code.value, s.identities.documentation.value, s.identities.provenance.value))
    requires Short(FoldStream(t.identities.code.value, t.identities.documentation.value, t.identities.provenance.value))
    requires s.identities.snapshot == t.identities.snapshot
    ensures s.identities == t.identities && s.edges == t.edges
    ensures SameContents(s, t)
    ensures a.projection == b.projection && a.extraction == b.extraction && a.chunk == b.chunk
    ensures (exists p :: p in s.files && s.files[p].format.Rust?) ==> a.rust == b.rust && s.fingerprint == t.fingerprint
  {
    SnapshotDeterminesIdentities(w.hash, s.identities, t.identities);
    var x, y := w.hash(ResolutionStream(s.edges)), w.hash(ResolutionStream(t.edges));
    CodeDigestDeterminesInput(w.hash, CodeInputOf(a, s, x), CodeInputOf(b, t, y));
    DocDigestDeterminesInput(w.hash, DocInputOf(a, s), DocInputOf(b, t));
    SameInputSameCode(a, s, x, b, t, y);
    SameInputSameDocuments(a, s, b, t);
    ResolutionStreamInjective(s.edges, t.edges);
    if p :| p in s.files && s.files[p].format.Rust? {
      SameContracts(a, s, b, t, Rust);
    }
  }

  /** A checker publication binds its batch to the code digest and rebuilds the projection. */
  function CheckerPublished(w: World, version: Text, s: Store, facts: Text): Store
    requires s.ids.Keys == s.files.Keys && s.identities.code.Some?
  {
    var t := s.(active := Some(Batch(s.nextId, s.identities.code.value, facts, true)), nextId := s.nextId + 1);
    t.(projection := Some(Projected(w, version, t, s.identities.code.value)))
  }

  lemma CheckerPublicationIsBacked(w: World, b: Build, s: Store, facts: Text)
    requires s.ids.Keys == s.files.Keys && s.identities.code.Some? && BackedBy(w, b, s)
    ensures BackedBy(w, b, CheckerPublished(w, b.projection, s, facts))
  {
    var t := CheckerPublished(w, b.projection, s, facts);
    SameInputs(b, s, t, w.hash(ResolutionStream(s.edges)));
    ProjectionCarriesOver(w, b.projection, t, t.(projection := s.projection), s.identities.code.value);
    assert Present(t, Rust) == Present(s, Rust);
  }

  lemma RowsCarryOver(w: World, s: Store, t: Store, p: Text)
    requires p in s.files && FaithfulRow(w, s, p) && ShapedRow(w, s, p)
    requires t.files == s.files && t.instances == s.instances && t.contexts == s.contexts && t.contracts == s.contracts
    requires t.extractionMarker == s.extractionMarker && t.chunkMarker == s.chunkMarker && t.provenanceMarker == s.provenanceMarker
    ensures FaithfulRow(w, t, p) && ShapedRow(w, t, p)
  {
    assert EffectiveVersion(t, t.files[p].format) == EffectiveVersion(s, s.files[p].format);
  }

  lemma CheckerPublicationIsConsistent(w: World, b: Build, s: Store, facts: Text)
    requires Shaped(w, s) && Faithful(w, s) && Readable(w.hash, s.identities) && BackedBy(w, b, s)
    ensures Consistent(w, CheckerPublished(w, b.projection, s, facts))
  {
    var t := CheckerPublished(w, b.projection, s, facts);
    forall p | p in t.files
      ensures FaithfulRow(w, t, p) && ShapedRow(w, t, p)
    {
      RowsCarryOver(w, s, t, p);
    }
    CheckerPublicationIsBacked(w, b, s, facts);
  }
}
