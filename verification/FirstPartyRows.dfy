/**
 * The part of an attempt that brings first-party rows up to date: unchanged files
 * keep their rows, everything else is deleted and extracted again.
 */
module FirstPartyRows {
  import opened Wrappers
  import opened Publication
  import opened Formats
  import opened Tables
  import opened Captures
  import opened Contracts
  import opened Database
  import Collections

  function Lookup(m: map<Text, Text>, p: Text): Option<Text> {
    if p in m then Some(m[p]) else None
  }

  /** The stored row is still that of the file: same bytes, same format, same edition. */
  predicate KeepsCode(w: World, c: Capture, previous: map<Text, Text>, existing: map<Text, FileRow>, f: CodeFile) {
    && f.read.Contents? && f.path in existing
    && existing[f.path].hash == w.hash(f.read.source)
    && existing[f.path].format == f.format
    && (f.format.Rust? ==> Lookup(previous, f.path) == Lookup(c.editions, f.path))
  }

  predicate KeepsDoc(w: World, changed: set<Format>, existing: map<Text, FileRow>, f: DocFile) {
    && f.format !in changed && f.path in existing
    && existing[f.path].hash == w.hash(f.source)
    && existing[f.path].format == f.format
  }

  /** The row is the same row, with the same extracted data. */
  predicate KeptAt(s: Store, t: Store, p: Text) {
    && p in s.files && p in t.files && p in s.ids && p in t.ids
    && t.ids[p] == s.ids[p] && t.files[p].data == s.files[p].data
  }

  ghost predicate SameDependencies(s: Store, t: Store) {
    forall p: Text :: IsDependency(s.files, p) || IsDependency(t.files, p) ==> SameAt(s, t, p)
  }

  predicate ExistingAt(existing: map<Text, FileRow>, files: map<Text, FileRow>, p: Text) {
    && (p in existing <==> IsFirstParty(files, p))
    && (p in existing && p in files ==> existing[p] == files[p])
  }

  lemma SameDependenciesChain(s: Store, t: Store, u: Store)
    requires SameDependencies(s, t) && SameDependencies(t, u)
    ensures SameDependencies(s, u)
  {
    forall p: Text | IsDependency(s.files, p) || IsDependency(u.files, p)
      ensures SameAt(s, u, p)
    {
      assert SameAt(t, u, p) || SameAt(s, t, p);
      assert SameAt(s, t, p) && SameAt(t, u, p);
    }
  }

  lemma DependenciesUntouched(s: Store, t: Store, p: Text)
    requires OnlyAt(s, t, p)
    requires s == t || (!IsDependency(s.files, p) && !IsDependency(t.files, p))
    ensures SameDependencies(s, t)
  {
    forall q: Text | q != p
      ensures SameAt(s, t, q)
    {
    }
  }

  /** Delete the stored row, if any, and insert the extracted one, if any. */
  method Replace(db: Connection, path: Text, stored: bool, row: Option<FileRow>) returns (r: Result<(), Error>)
    requires db.live.ids.Keys == db.live.files.Keys && (stored ==> path in db.live.files)
    modifies db`live, db`clock
    ensures db.clock >= old(db.clock) && OnlyAt(old(db.live), db.live, path)
    ensures r.Ok? && row.Some? ==> path in db.live.files && db.live.files[path] == row.value
    ensures r.Ok? && row.None? ==> db.live == old(db.live) || (stored && path !in db.live.files)
    ensures r.Ok? && row.None? && stored ==> path !in db.live.files
    ensures r.Ok? && row.Some? && !stored ==> path !in old(db.live.files)
    ensures r.Err? && r.error == SqlFailure ==> db.Faulted(old(db.clock))
    ensures r.Err? && r.error == DuplicatePath ==> !stored && path in old(db.live.files)
    ensures r.Err? ==> r.error in {SqlFailure, DuplicatePath}
    ensures r.Ok? ==> !db.Faulted(old(db.clock))
  {
    ghost var before := db.live;
    if stored {
      var ok := db.DeleteFile(path);
      if !ok {
        return Err(SqlFailure);
      }
    }
    ghost var between := db.live;
    assert OnlyAt(before, between, path);
    if row.Some? {
      var inserted := db.InsertFile(path, row.value);
      if inserted.Err? {
        return Err(inserted.error);
      }
      OnlyAtChain(before, between, db.live, path);
    }
    r := Ok(());
  }

  // ---------------------------------------------------------------- code files

  ghost predicate CodeIndexed(
      w: World, b: Build, c: Capture, previous: map<Text, Text>, existing: map<Text, FileRow>, s: Store, t: Store, f: CodeFile) {
    && (f.read.Race? ==> SameAt(s, t, f.path))
    && (!f.read.Race? ==> Holds(t.files, f.path, CodeRowFor(w, b, c, f)))
    && (KeepsCode(w, c, previous, existing, f) ==> KeptAt(s, t, f.path))
  }

  lemma KeptCodeIsCurrent(
      w: World, b: Build, c: Capture, previous: map<Text, Text>, changed: set<Format>, relaid: bool, existing: map<Text, FileRow>, f: CodeFile)
    requires CollisionFree(w.hash) && f in c.code && ValidFormats(c)
    requires KeepsCode(w, c, previous, existing, f)
    requires ReusableRow(w, b, previous, changed, relaid, f.path, existing[f.path])
    requires existing[f.path].provenance.None?
    ensures CodeRowFor(w, b, c, f) == Some(Untagged(existing[f.path]).(role := w.classify(f.path, f.read.source)))
  {
    var row := existing[f.path];
    ExtractedFrom(w, VersionOf(b, f.format), ContextOf(c.editions, f.format, f.path), f.path, row, f.read.source);
  }

  /** An unchanged file keeps its row; only its role may have to be corrected. */
  method KeepCodeFile(
      db: Connection, w: World, b: Build, c: Capture, previous: map<Text, Text>, existing: map<Text, FileRow>, f: CodeFile)
    returns (ok: bool)
    requires db.live.ids.Keys == db.live.files.Keys && ExistingAt(existing, db.live.files, f.path)
    requires KeepsCode(w, c, previous, existing, f)
    requires CodeRowFor(w, b, c, f) == Some(Untagged(existing[f.path]).(role := w.classify(f.path, f.read.source)))
    modifies db`live, db`clock
    ensures db.clock >= old(db.clock) && OnlyAt(old(db.live), db.live, f.path)
    ensures ok ==> CodeIndexed(w, b, c, previous, existing, old(db.live), db.live, f)
    ensures ok ==> SameDependencies(old(db.live), db.live)
    ensures !ok ==> db.Faulted(old(db.clock))
    ensures ok ==> !db.Faulted(old(db.clock))
  {
    ghost var before := db.live;
    var role := w.classify(f.path, f.read.source);
    ok := true;
    if existing[f.path].role != role {
      ok := db.UpdateFile(f.path, db.live.files[f.path].(role := role));
    }
    DependenciesUntouched(before, db.live, f.path);
  }

  /** A changed file is extracted again; a rejected one loses its row. */
  method ReplaceCodeFile(db: Connection, w: World, b: Build, c: Capture, existing: map<Text, FileRow>, f: CodeFile)
    returns (r: Result<(), Error>)
    requires db.live.ids.Keys == db.live.files.Keys && ExistingAt(existing, db.live.files, f.path)
    modifies db`live, db`clock
    ensures db.clock >= old(db.clock) && OnlyAt(old(db.live), db.live, f.path)
    ensures r.Ok? ==> Holds(db.live.files, f.path, CodeRowFor(w, b, c, f)) && SameDependencies(old(db.live), db.live)
    ensures r.Err? && r.error == SqlFailure ==> db.Faulted(old(db.clock))
    ensures r.Err? && r.error == DuplicatePath ==> IsDependency(old(db.live.files), f.path)
    ensures r.Err? ==> r.error in {SqlFailure, DuplicatePath}
    ensures r.Ok? ==> !db.Faulted(old(db.clock))
  {
    ghost var before := db.live;
    var row: Option<FileRow> := None;
    if f.read.Contents? {
      match w.extract(VersionOf(b, f.format), f.format, f.path, f.read.source, ContextOf(c.editions, f.format, f.path))
      case Some(data) =>
        var hash, role := w.hash(f.read.source), w.classify(f.path, f.read.source);
        row := Some(FileRow(hash, f.format, role, Repository, None, None, data, None));
      case None =>
    }
    r := Replace(db, f.path, f.path in existing, row);
    if r.Ok? {
      DependenciesUntouched(before, db.live, f.path);
    }
  }

  method IndexCodeFile(
      db: Connection, w: World, b: Build, c: Capture, previous: map<Text, Text>, existing: map<Text, FileRow>, f: CodeFile,
      ghost changed: set<Format>, ghost relaid: bool)
    returns (r: Result<(), Error>)
    requires CollisionFree(w.hash) && f in c.code && ValidFormats(c)
    requires db.live.ids.Keys == db.live.files.Keys
    requires ExistingAt(existing, db.live.files, f.path)
    requires f.path in existing ==>
      && ReusableRow(w, b, previous, changed, relaid, f.path, existing[f.path])
      && (CorpusOf(existing[f.path].format).Code? ==> existing[f.path].provenance.None?)
    modifies db`live, db`clock
    ensures db.clock >= old(db.clock)
    ensures OnlyAt(old(db.live), db.live, f.path)
    ensures r.Ok? ==> CodeIndexed(w, b, c, previous, existing, old(db.live), db.live, f)
    ensures r.Ok? ==> SameDependencies(old(db.live), db.live)
    ensures r.Err? && r.error == SqlFailure ==> db.Faulted(old(db.clock))
    ensures r.Err? && r.error == RetryableRead ==> f.read.Retryable?
    ensures r.Err? && r.error == DuplicatePath ==> IsDependency(old(db.live.files), f.path)
    ensures r.Err? ==> r.error in {SqlFailure, RetryableRead, DuplicatePath}
    ensures r.Ok? ==> !db.Faulted(old(db.clock))
  {
    if f.read.Race? {
      return Ok(());
    }
    if f.read.Retryable? {
      return Err(RetryableRead);
    }
    if KeepsCode(w, c, previous, existing, f) {
      KeptCodeIsCurrent(w, b, c, previous, changed, relaid, existing, f);
      var ok := KeepCodeFile(db, w, b, c, previous, existing, f);
      r := if ok then Ok(()) else Err(SqlFailure);
    } else {
      r := ReplaceCodeFile(db, w, b, c, existing, f);
    }
  }

  /** The code loop has passed the first `n` files. */
  ghost predicate CodeProgress(
      w: World, b: Build, c: Capture, previous: map<Text, Text>, existing: map<Text, FileRow>, s: Store, t: Store, n: nat)
    requires n <= |c.code|
  {
    && OnlyRows(s, t) && SameDependencies(s, t)
    && (forall i :: 0 <= i < n ==> CodeIndexed(w, b, c, previous, existing, s, t, c.code[i]))
    && (forall p: Text :: (forall i :: 0 <= i < n ==> c.code[i].path != p) ==> SameAt(s, t, p))
  }

  /** What happens to other files afterwards, or happened before, does not matter to this one. */
  lemma CodeIndexedStill(
      w: World, b: Build, c: Capture, previous: map<Text, Text>, existing: map<Text, FileRow>, s: Store, t: Store, u: Store, f: CodeFile)
    requires (SameAt(s, t, f.path) && CodeIndexed(w, b, c, previous, existing, t, u, f))
          || (CodeIndexed(w, b, c, previous, existing, s, t, f) && SameAt(t, u, f.path))
    ensures CodeIndexed(w, b, c, previous, existing, s, u, f)
  {
  }

  lemma CodeAdvances(
      w: World, b: Build, c: Capture, previous: map<Text, Text>, existing: map<Text, FileRow>, s: Store, t: Store, u: Store, n: nat)
    requires n < |c.code| && DistinctPaths(c)
    requires CodeProgress(w, b, c, previous, existing, s, t, n)
    requires OnlyAt(t, u, c.code[n].path) && SameDependencies(t, u)
    requires CodeIndexed(w, b, c, previous, existing, t, u, c.code[n])
    ensures CodeProgress(w, b, c, previous, existing, s, u, n + 1)
  {
    var f := c.code[n];
    SameDependenciesChain(s, t, u);
    assert SameAt(s, t, f.path);
    hide CodeIndexed, SameDependencies;
    forall i | 0 <= i < n + 1
      ensures CodeIndexed(w, b, c, previous, existing, s, u, c.code[i])
    {
      if i < n {
        assert SameAt(t, u, c.code[i].path);
      }
      CodeIndexedStill(w, b, c, previous, existing, s, t, u, c.code[i]);
    }
    forall p: Text | forall i :: 0 <= i < n + 1 ==> c.code[i].path != p
      ensures SameAt(s, u, p)
    {
      assert p != f.path;
      assert SameAt(t, u, p);
      assert forall i :: 0 <= i < n ==> c.code[i].path != p;
      assert SameAt(s, t, p);
    }
  }

  function SeenCode(files: seq<CodeFile>): set<Text> {
    set f | f in files && !f.read.Race? :: f.path
  }

  /** Files that are still to come are as they were. */
  lemma CodeStillToCome(
      w: World, b: Build, c: Capture, previous: map<Text, Text>, existing: map<Text, FileRow>, s: Store, t: Store, n: nat)
    requires n < |c.code| && DistinctPaths(c) && CodeProgress(w, b, c, previous, existing, s, t, n)
    requires existing == FirstParty(s.files)
    ensures OnlyRows(s, t) && ExistingAt(existing, t.files, c.code[n].path)
    ensures IsDependency(t.files, c.code[n].path) ==> IsDependency(s.files, c.code[n].path)
  {
    assert SameAt(s, t, c.code[n].path);
  }

  method IndexCode(
      db: Connection, w: World, b: Build, c: Capture, previous: map<Text, Text>, existing: map<Text, FileRow>,
      ghost changed: set<Format>, ghost relaid: bool)
    returns (r: Result<set<Text>, Error>)
    requires CollisionFree(w.hash) && DistinctPaths(c) && ValidFormats(c)
    requires db.live.ids.Keys == db.live.files.Keys
    requires existing == FirstParty(db.live.files)
    requires Reusable(w, b, previous, changed, relaid, existing)
    requires forall p :: p in existing && CorpusOf(existing[p].format).Code? ==> existing[p].provenance.None?
    modifies db`live, db`clock
    ensures db.clock >= old(db.clock) && OnlyRows(old(db.live), db.live)
    ensures r.Ok? ==> CodeProgress(w, b, c, previous, existing, old(db.live), db.live, |c.code|)
    ensures r.Ok? ==> r.value == SeenCode(c.code)
    ensures r.Err? && r.error == SqlFailure ==> db.Faulted(old(db.clock))
    ensures r.Err? && r.error == RetryableRead ==> exists f :: f in c.code && f.read.Retryable?
    ensures r.Err? && r.error == DuplicatePath ==> exists f :: f in c.code && IsDependency(old(db.live.files), f.path)
    ensures r.Err? ==> r.error in {SqlFailure, RetryableRead, DuplicatePath}
    ensures r.Ok? ==> !db.Faulted(old(db.clock))
  {
    ghost var start := db.live;
    var seen: set<Text> := {};
    for n := 0 to |c.code|
      invariant !db.Faulted(old(db.clock))
      invariant db.clock >= old(db.clock)
      invariant CodeProgress(w, b, c, previous, existing, start, db.live, n)
      invariant seen == SeenCode(c.code[..n])
    {
      hide CodeProgress, CodeIndexed, SameDependencies, ExistingAt;
      var f := c.code[n];
      ghost var before := db.live;
      CodeStillToCome(w, b, c, previous, existing, start, before, n);
      var indexed := IndexCodeFile(db, w, b, c, previous, existing, f, changed, relaid);
      if indexed.Err? {
        return Err(indexed.error);
      }
      CodeAdvances(w, b, c, previous, existing, start, before, db.live, n);
      assert c.code[..n + 1] == c.code[..n] + [f];
      if !f.read.Race? {
        seen := seen + {f.path};
      }
    }
    assert c.code[..|c.code|] == c.code;
    r := Ok(seen);
  }

  // ---------------------------------------------------------------- documents

  ghost predicate DocIndexed(w: World, b: Build, changed: set<Format>, existing: map<Text, FileRow>, s: Store, t: Store, f: DocFile) {
    && Holds(t.files, f.path, Some(DocRowFor(w, b, f)))
    && (KeepsDoc(w, changed, existing, f) ==> KeptAt(s, t, f.path))
  }

  /** The stored provenance rows are in this layout and hold this result. */
  predicate SameProvenance(w: World, relaid: bool, stored: Option<Provenance>, payload: Source) {
    !relaid && stored.Some? && w.hash(stored.value.payload) == w.hash(payload)
  }

  lemma KeptDocIsCurrent(
      w: World, b: Build, previous: map<Text, Text>, changed: set<Format>, relaid: bool, existing: map<Text, FileRow>, f: DocFile)
    requires CollisionFree(w.hash) && CorpusOf(f.format).Docs?
    requires KeepsDoc(w, changed, existing, f)
    requires ReusableRow(w, b, previous, changed, relaid, f.path, existing[f.path])
    ensures DocRowFor(w, b, f) ==
      Untagged(existing[f.path]).(role := Ascii(DOCUMENTATION_ROLE), provenance := Some(Provenance(b.provenance, f.provenance)))
    ensures SameProvenance(w, relaid, existing[f.path].provenance, f.provenance) ==>
      existing[f.path].provenance == Some(Provenance(b.provenance, f.provenance))
  {
    ChunkedFrom(w, VersionOf(b, f.format), f.path, existing[f.path], f.source);
  }

  /** The chunks of a document stay; its role and provenance are brought up to date. */
  method KeepDoc(
      db: Connection, w: World, b: Build, changed: set<Format>, relaid: bool, existing: map<Text, FileRow>, f: DocFile,
      ghost previous: map<Text, Text>)
    returns (ok: bool)
    requires CollisionFree(w.hash) && CorpusOf(f.format).Docs?
    requires db.live.ids.Keys == db.live.files.Keys
    requires KeepsDoc(w, changed, existing, f) && ExistingAt(existing, db.live.files, f.path)
    requires ReusableRow(w, b, previous, changed, relaid, f.path, existing[f.path])
    modifies db`live, db`clock
    ensures db.clock >= old(db.clock)
    ensures OnlyAt(old(db.live), db.live, f.path)
    ensures ok ==> DocIndexed(w, b, changed, existing, old(db.live), db.live, f) && SameDependencies(old(db.live), db.live)
    ensures ok == !db.Faulted(old(db.clock))
  {
    KeptDocIsCurrent(w, b, previous, changed, relaid, existing, f);
    hide CollisionFree, ReusableRow, DocRowFor, Fails;
    ghost var before, start := db.live, db.clock;
    var role := Ascii(DOCUMENTATION_ROLE);
    ok := true;
    if existing[f.path].role != role {
      ok := db.UpdateFile(f.path, db.live.files[f.path].(role := role));
      FailsOnce(db.fails, start);
    } else {
      FailsNone(db.fails, start);
    }
    ghost var between, middle := db.live, db.clock;
    if ok && !SameProvenance(w, relaid, existing[f.path].provenance, f.provenance) {
      ok := db.UpdateFile(f.path, db.live.files[f.path].(provenance := Some(Provenance(b.provenance, f.provenance))));
      FailsOnce(db.fails, middle);
      FailsJoin(db.fails, start, middle, db.clock);
    }
    OnlyAtChain(before, between, db.live, f.path);
    if ok {
      DependenciesUntouched(before, db.live, f.path);
    }
  }

  method IndexDocFile(
      db: Connection, w: World, b: Build, changed: set<Format>, relaid: bool, existing: map<Text, FileRow>, f: DocFile,
      ghost previous: map<Text, Text>)
    returns (r: Result<(), Error>)
    requires CollisionFree(w.hash) && CorpusOf(f.format).Docs?
    requires db.live.ids.Keys == db.live.files.Keys
    requires ExistingAt(existing, db.live.files, f.path)
    requires f.path in existing ==> ReusableRow(w, b, previous, changed, relaid, f.path, existing[f.path])
    modifies db`live, db`clock
    ensures db.clock >= old(db.clock)
    ensures OnlyAt(old(db.live), db.live, f.path)
    ensures r.Ok? ==> DocIndexed(w, b, changed, existing, old(db.live), db.live, f)
    ensures r.Ok? ==> SameDependencies(old(db.live), db.live)
    ensures r.Err? && r.error == SqlFailure ==> db.Faulted(old(db.clock))
    ensures r.Err? && r.error == DuplicatePath ==> IsDependency(old(db.live.files), f.path)
    ensures r.Err? ==> r.error in {SqlFailure, DuplicatePath}
    ensures r.Ok? ==> !db.Faulted(old(db.clock))
  {
    hide CollisionFree, ReusableRow;
    if KeepsDoc(w, changed, existing, f) {
      var ok := KeepDoc(db, w, b, changed, relaid, existing, f, previous);
      return if ok then Ok(()) else Err(SqlFailure);
    }
    ghost var before := db.live;
    var role := Ascii(DOCUMENTATION_ROLE);
    var data := w.chunk(VersionOf(b, f.format), f.format, f.path, f.source);
    var row := FileRow(w.hash(f.source), f.format, role, Repository, None, None, data, Some(Provenance(b.provenance, f.provenance)));
    r := Replace(db, f.path, f.path in existing, Some(row));
    if r.Ok? {
      DependenciesUntouched(before, db.live, f.path);
    }
  }

  ghost predicate DocProgress(
      w: World, b: Build, c: Capture, changed: set<Format>, existing: map<Text, FileRow>, s: Store, t: Store, n: nat)
    requires n <= |c.docs|
  {
    && OnlyRows(s, t) && SameDependencies(s, t)
    && (forall i :: 0 <= i < n ==> DocIndexed(w, b, changed, existing, s, t, c.docs[i]))
    && (forall p: Text :: (forall i :: 0 <= i < n ==> c.docs[i].path != p) ==> SameAt(s, t, p))
  }

  lemma DocAdvances(
      w: World, b: Build, c: Capture, changed: set<Format>, existing: map<Text, FileRow>, s: Store, t: Store, u: Store, n: nat)
    requires n < |c.docs| && DistinctPaths(c)
    requires DocProgress(w, b, c, changed, existing, s, t, n)
    requires OnlyAt(t, u, c.docs[n].path) && SameDependencies(t, u)
    requires DocIndexed(w, b, changed, existing, t, u, c.docs[n])
    ensures DocProgress(w, b, c, changed, existing, s, u, n + 1)
  {
    var f := c.docs[n];
    SameDependenciesChain(s, t, u);
    assert SameAt(s, t, f.path);
    forall i | 0 <= i < n + 1
      ensures DocIndexed(w, b, changed, existing, s, u, c.docs[i])
    {
      if i < n {
        assert SameAt(t, u, c.docs[i].path);
      }
    }
    forall p: Text | forall i :: 0 <= i < n + 1 ==> c.docs[i].path != p
      ensures SameAt(s, u, p)
    {
      assert p != f.path;
      assert SameAt(t, u, p);
      assert forall i :: 0 <= i < n ==> c.docs[i].path != p;
      assert SameAt(s, t, p);
    }
  }

  function SeenDocs(files: seq<DocFile>): set<Text> {
    set f | f in files :: f.path
  }

  /** Files that are still to come are as they were. */
  lemma DocStillToCome(
      w: World, b: Build, c: Capture, changed: set<Format>, existing: map<Text, FileRow>, s: Store, t: Store, n: nat)
    requires n < |c.docs| && DistinctPaths(c) && DocProgress(w, b, c, changed, existing, s, t, n)
    requires ExistingAt(existing, s.files, c.docs[n].path)
    ensures OnlyRows(s, t) && ExistingAt(existing, t.files, c.docs[n].path)
    ensures IsDependency(t.files, c.docs[n].path) ==> IsDependency(s.files, c.docs[n].path)
  {
    assert SameAt(s, t, c.docs[n].path);
  }

  method IndexDocs(
      db: Connection, w: World, b: Build, c: Capture, changed: set<Format>, relaid: bool, existing: map<Text, FileRow>,
      ghost previous: map<Text, Text>)
    returns (r: Result<set<Text>, Error>)
    requires CollisionFree(w.hash) && DistinctPaths(c) && ValidFormats(c)
    requires db.live.ids.Keys == db.live.files.Keys
    requires forall f :: f in c.docs ==> ExistingAt(existing, db.live.files, f.path)
    requires Reusable(w, b, previous, changed, relaid, existing)
    modifies db`live, db`clock
    ensures db.clock >= old(db.clock) && OnlyRows(old(db.live), db.live)
    ensures r.Ok? ==> DocProgress(w, b, c, changed, existing, old(db.live), db.live, |c.docs|)
    ensures r.Ok? ==> r.value == SeenDocs(c.docs)
    ensures r.Err? && r.error == SqlFailure ==> db.Faulted(old(db.clock))
    ensures r.Err? && r.error == DuplicatePath ==> exists f :: f in c.docs && IsDependency(old(db.live.files), f.path)
    ensures r.Err? ==> r.error in {SqlFailure, DuplicatePath}
    ensures r.Ok? ==> !db.Faulted(old(db.clock))
  {
    ghost var start := db.live;
    var seen: set<Text> := {};
    for n := 0 to |c.docs|
      invariant !db.Faulted(old(db.clock))
      invariant db.clock >= old(db.clock)
      invariant DocProgress(w, b, c, changed, existing, start, db.live, n)
      invariant seen == SeenDocs(c.docs[..n])
    {
      hide DocProgress, DocIndexed, SameDependencies;
      var f := c.docs[n];
      ghost var before := db.live;
      DocStillToCome(w, b, c, changed, existing, start, before, n);
      var indexed := IndexDocFile(db, w, b, changed, relaid, existing, f, previous);
      if indexed.Err? {
        return Err(indexed.error);
      }
      DocAdvances(w, b, c, changed, existing, start, before, db.live, n);
      assert c.docs[..n + 1] == c.docs[..n] + [f];
      seen := seen + {f.path};
    }
    assert c.docs[..|c.docs|] == c.docs;
    r := Ok(seen);
  }

  // ---------------------------------------------------------------- files that are gone

  method DeleteUnseen(db: Connection, paths: set<Text>) returns (ok: bool)
    requires db.live.ids.Keys == db.live.files.Keys
    modifies db`live, db`clock
    ensures db.clock >= old(db.clock) && OnlyRows(old(db.live), db.live)
    ensures ok ==> forall p: Text :: p in paths ==> p !in db.live.files
    ensures ok ==> forall p: Text :: p !in paths ==> SameAt(old(db.live), db.live, p)
    ensures !ok ==> db.Faulted(old(db.clock))
    ensures ok ==> !db.Faulted(old(db.clock))
  {
    var list := Collections.Elements(paths);
    for n := 0 to |list|
      invariant !db.Faulted(old(db.clock))
      invariant db.clock >= old(db.clock) && OnlyRows(old(db.live), db.live)
      invariant forall i :: 0 <= i < n ==> list[i] !in db.live.files
      invariant forall p: Text :: p !in paths ==> SameAt(old(db.live), db.live, p)
    {
      assert list[n] in list;
      ghost var before := db.live;
      ok := db.DeleteFile(list[n]);
      if !ok {
        return;
      }
      forall p: Text | p !in paths
        ensures SameAt(old(db.live), db.live, p)
      {
        assert SameAt(before, db.live, p);
      }
      forall i | 0 <= i < n + 1
        ensures list[i] !in db.live.files
      {
        assert i == n || SameAt(before, db.live, list[i]);
      }
    }
    ok := true;
  }

  /** Every file that kept its hash, format and edition kept its row. */
  ghost predicate CodeKept(w: World, c: Capture, previous: map<Text, Text>, existing: map<Text, FileRow>, s: Store, t: Store) {
    forall f :: f in c.code && KeepsCode(w, c, previous, existing, f) ==> KeptAt(s, t, f.path)
  }

  lemma SeenIsCaptured(c: Capture, p: Text)
    requires p in SeenCode(c.code) + SeenDocs(c.docs)
    ensures Captured(c, p)
  {
  }

  lemma RacedIsUnseen(c: Capture, f: CodeFile)
    requires DistinctPaths(c) && f in c.code && f.read.Race?
    ensures f.path !in SeenCode(c.code) + SeenDocs(c.docs)
  {
    var i :| 0 <= i < |c.code| && c.code[i] == f;
    forall g | g in c.code && !g.read.Race?
      ensures g.path != f.path
    {
      var j :| 0 <= j < |c.code| && c.code[j] == g;
    }
    forall g | g in c.docs
      ensures g.path != f.path
    {
      var j :| 0 <= j < |c.docs| && c.docs[j] == g;
    }
  }

  /** `v` is `u` without the first-party rows that no file was seen for. */
  ghost predicate Cleaned(existing: map<Text, FileRow>, seen: set<Text>, u: Store, v: Store) {
    && OnlyRows(u, v)
    && (forall p: Text :: p in existing.Keys - seen ==> p !in v.files)
    && (forall p: Text :: p !in existing.Keys - seen ==> SameAt(u, v, p))
  }

  lemma CodeAfterLoops(
      w: World, b: Build, c: Capture, previous: map<Text, Text>, changed: set<Format>, existing: map<Text, FileRow>,
      s: Store, t: Store, u: Store, v: Store, f: CodeFile)
    requires DistinctPaths(c) && existing == FirstParty(s.files) && f in c.code
    requires CodeProgress(w, b, c, previous, existing, s, t, |c.code|)
    requires DocProgress(w, b, c, changed, existing, t, u, |c.docs|)
    requires Cleaned(existing, SeenCode(c.code) + SeenDocs(c.docs), u, v)
    ensures Holds(v.files, f.path, CodeRowFor(w, b, c, f))
    ensures KeepsCode(w, c, previous, existing, f) ==> KeptAt(s, v, f.path)
  {
    var i :| 0 <= i < |c.code| && c.code[i] == f;
    assert CodeIndexed(w, b, c, previous, existing, s, t, f);
    assert SameAt(t, u, f.path);
    if f.read.Race? {
      RacedIsUnseen(c, f);
    } else {
      assert f.path in SeenCode(c.code);
      assert SameAt(u, v, f.path);
    }
  }

  lemma OthersAfterLoops(
      w: World, b: Build, c: Capture, previous: map<Text, Text>, changed: set<Format>, existing: map<Text, FileRow>,
      s: Store, t: Store, u: Store, v: Store, p: Text)
    requires existing == FirstParty(s.files)
    requires CodeProgress(w, b, c, previous, existing, s, t, |c.code|)
    requires DocProgress(w, b, c, changed, existing, t, u, |c.docs|)
    requires Cleaned(existing, SeenCode(c.code) + SeenDocs(c.docs), u, v)
    requires IsFirstParty(v.files, p)
    ensures Captured(c, p)
  {
    if !Captured(c, p) {
      assert forall i :: 0 <= i < |c.code| ==> c.code[i] in c.code;
      assert forall i :: 0 <= i < |c.docs| ==> c.docs[i] in c.docs;
      assert SameAt(s, t, p) && SameAt(t, u, p);
      if p in SeenCode(c.code) + SeenDocs(c.docs) {
        SeenIsCaptured(c, p);
      }
    }
  }

  lemma RowsAfterLoops(
      w: World, b: Build, c: Capture, previous: map<Text, Text>, changed: set<Format>, existing: map<Text, FileRow>,
      s: Store, t: Store, u: Store, v: Store)
    requires DistinctPaths(c) && existing == FirstParty(s.files)
    requires CodeProgress(w, b, c, previous, existing, s, t, |c.code|)
    requires DocProgress(w, b, c, changed, existing, t, u, |c.docs|)
    requires Cleaned(existing, SeenCode(c.code) + SeenDocs(c.docs), u, v)
    ensures FirstPartyDone(w, b, c, v.files) && CodeKept(w, c, previous, existing, s, v)
  {
    forall f | f in c.code
      ensures Holds(v.files, f.path, CodeRowFor(w, b, c, f))
      ensures KeepsCode(w, c, previous, existing, f) ==> KeptAt(s, v, f.path)
    {
      CodeAfterLoops(w, b, c, previous, changed, existing, s, t, u, v, f);
    }
    forall f | f in c.docs
      ensures Holds(v.files, f.path, Some(DocRowFor(w, b, f)))
    {
      var i :| 0 <= i < |c.docs| && c.docs[i] == f;
      assert DocIndexed(w, b, changed, existing, t, u, f);
      assert f.path in SeenDocs(c.docs);
      assert SameAt(u, v, f.path);
    }
    forall p: Text | IsFirstParty(v.files, p)
      ensures Captured(c, p)
    {
      OthersAfterLoops(w, b, c, previous, changed, existing, s, t, u, v, p);
    }
  }

  lemma DependenciesAfterLoops(c: Capture, existing: map<Text, FileRow>, seen: set<Text>, s: Store, u: Store, v: Store)
    requires existing == FirstParty(s.files) && SameDependencies(s, u) && Cleaned(existing, seen, u, v)
    ensures SameDependencies(s, v)
  {
    forall p: Text | IsDependency(s.files, p) || IsDependency(v.files, p)
      ensures SameAt(s, v, p)
    {
      assert p !in existing.Keys - seen;
      assert SameAt(u, v, p);
      assert SameAt(s, u, p);
    }
  }

  /**
   * Code files, documents, and the deletion of rows whose files are gone. After a
   * reset there is nothing to keep; the rows that result are the same.
   */
  method RefreshFirstParty(
      db: Connection, w: World, b: Build, c: Capture, previous: map<Text, Text>, changed: set<Format>, relaid: bool,
      existing: map<Text, FileRow>)
    returns (r: Result<(), Error>)
    requires CollisionFree(w.hash) && DistinctPaths(c) && ValidFormats(c)
    requires db.live.ids.Keys == db.live.files.Keys
    requires existing == FirstParty(db.live.files)
    requires Reusable(w, b, previous, changed, relaid, existing)
    requires forall p :: p in existing && CorpusOf(existing[p].format).Code? ==> existing[p].provenance.None?
    modifies db`live, db`clock
    ensures db.clock >= old(db.clock) && OnlyRows(old(db.live), db.live)
    ensures r.Ok? ==> FirstPartyDone(w, b, c, db.live.files) && SameDependencies(old(db.live), db.live)
    ensures r.Ok? ==> CodeKept(w, c, previous, existing, old(db.live), db.live)
    ensures r.Err? && r.error == SqlFailure ==> db.Faulted(old(db.clock))
    ensures r.Err? && r.error == RetryableRead ==> exists f :: f in c.code && f.read.Retryable?
    ensures r.Err? && r.error == DuplicatePath ==> exists p :: Captured(c, p) && IsDependency(old(db.live.files), p)
    ensures r.Err? ==> r.error in {SqlFailure, RetryableRead, DuplicatePath}
    ensures r.Ok? ==> !db.Faulted(old(db.clock))
  {
    ghost var s := db.live;
    var code := IndexCode(db, w, b, c, previous, existing, changed, relaid);
    if code.Err? {
      return Err(code.error);
    }
    ghost var t := db.live;
    forall f | f in c.docs
      ensures ExistingAt(existing, t.files, f.path)
    {
      assert SameAt(s, t, f.path);
    }
    var docs := IndexDocs(db, w, b, c, changed, relaid, existing, previous);
    if docs.Err? {
      if docs.error == DuplicatePath {
        ghost var f :| f in c.docs && IsDependency(t.files, f.path);
        assert SameAt(s, t, f.path);
        assert Captured(c, f.path);
      }
      return Err(docs.error);
    }
    ghost var u := db.live;
    SameDependenciesChain(s, t, u);
    var ok := DeleteUnseen(db, existing.Keys - (code.value + docs.value));
    if !ok {
      return Err(SqlFailure);
    }
    RowsAfterLoops(w, b, c, previous, changed, existing, s, t, u, db.live);
    DependenciesAfterLoops(c, existing, code.value + docs.value, s, u, db.live);
    r := Ok(());
  }
}
