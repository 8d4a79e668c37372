/** Dependency sources: the planned files replace whatever was stored for them. */
module DependencyFiles {
  import opened Wrappers
  import opened Publication
  import opened Formats
  import opened Tables
  import opened Captures
  import opened Contracts
  import opened Database
  import opened FirstPartyRows

  predicate KeepsDependency(w: World, existing: map<Text, FileRow>, f: DependencyFile) {
    && f.display in existing
    && existing[f.display].hash == w.hash(f.source)
    && existing[f.display].format == f.format
    && existing[f.display].package == Some(f.root)
    && existing[f.display].packagePath == Some(f.packagePath)
  }

  predicate StoredAt(existing: map<Text, FileRow>, files: map<Text, FileRow>, p: Text) {
    && (p in existing <==> IsDependency(files, p))
    && (p in existing && p in files ==> existing[p] == files[p])
  }

  ghost predicate SameFirstParty(s: Store, t: Store) {
    forall p: Text :: IsFirstParty(s.files, p) || IsFirstParty(t.files, p) ==> SameAt(s, t, p)
  }

  lemma SameFirstPartyChain(s: Store, t: Store, u: Store)
    requires SameFirstParty(s, t) && SameFirstParty(t, u)
    ensures SameFirstParty(s, u)
  {
    forall p: Text | IsFirstParty(s.files, p) || IsFirstParty(u.files, p)
      ensures SameAt(s, u, p)
    {
      assert SameAt(t, u, p) || SameAt(s, t, p);
      assert SameAt(s, t, p) && SameAt(t, u, p);
    }
  }

  lemma FirstPartyUntouched(s: Store, t: Store, p: Text)
    requires OnlyAt(s, t, p)
    requires s == t || (!IsFirstParty(s.files, p) && !IsFirstParty(t.files, p))
    ensures SameFirstParty(s, t)
  {
    forall q: Text | q != p
      ensures SameAt(s, t, q)
    {
    }
  }

  ghost predicate DependencyIndexed(w: World, b: Build, existing: map<Text, FileRow>, s: Store, t: Store, f: DependencyFile) {
    && DependencyHolds(t.files, f.display, DependencyRowFor(w, b, f))
    && (KeepsDependency(w, existing, f) ==> KeptAt(s, t, f.display))
  }

  /** A stored dependency row that may be kept if its file is unchanged. */
  ghost predicate ReusableDependency(w: World, b: Build, p: Text, row: FileRow) {
    && row.origin.Dependency? && row.provenance.None?
    && (row.hash != [] && EcmaScript(row.format) ==> Extracted(w, VersionOf(b, row.format), None, p, row))
  }

  lemma KeptDependencyIsCurrent(w: World, b: Build, existing: map<Text, FileRow>, f: DependencyFile)
    requires CollisionFree(w.hash) && EcmaScript(f.format)
    requires KeepsDependency(w, existing, f) && ReusableDependency(w, b, f.display, existing[f.display])
    ensures DependencyRowFor(w, b, f) == Some(existing[f.display].(role := w.classify(f.packagePath, f.source)))
  {
    ExtractedFrom(w, VersionOf(b, f.format), None, f.display, existing[f.display], f.source);
  }

  method IndexDependencyFile(db: Connection, w: World, b: Build, existing: map<Text, FileRow>, f: DependencyFile)
    returns (r: Result<(), Error>)
    requires CollisionFree(w.hash) && EcmaScript(f.format)
    requires db.live.ids.Keys == db.live.files.Keys
    requires StoredAt(existing, db.live.files, f.display)
    requires f.display in existing ==> ReusableDependency(w, b, f.display, existing[f.display])
    modifies db`live, db`clock
    ensures db.clock >= old(db.clock)
    ensures OnlyAt(old(db.live), db.live, f.display)
    ensures r.Ok? ==> DependencyIndexed(w, b, existing, old(db.live), db.live, f)
    ensures r.Ok? ==> SameFirstParty(old(db.live), db.live)
    ensures r.Err? && r.error == SqlFailure ==> db.Faulted(old(db.clock))
    ensures r.Err? && r.error == DuplicatePath ==> IsFirstParty(old(db.live.files), f.display)
    ensures r.Err? ==> r.error in {SqlFailure, DuplicatePath}
    ensures r.Ok? ==> !db.Faulted(old(db.clock))
  {
    ghost var before := db.live;
    var role := w.classify(f.packagePath, f.source);
    if KeepsDependency(w, existing, f) {
      KeptDependencyIsCurrent(w, b, existing, f);
      if existing[f.display].role != role {
        var ok := db.UpdateFile(f.display, db.live.files[f.display].(role := role));
        if !ok {
          return Err(SqlFailure);
        }
      }
      FirstPartyUntouched(before, db.live, f.display);
      return Ok(());
    }
    var row: Option<FileRow> := None;
    match w.extract(VersionOf(b, f.format), f.format, f.display, f.source, None) {
      case Some(data) =>
        row := Some(FileRow(w.hash(f.source), f.format, role, Dependency, Some(f.root), Some(f.packagePath), data, None));
      case None =>
    }
    r := Replace(db, f.display, f.display in existing, row);
    if r.Ok? {
      FirstPartyUntouched(before, db.live, f.display);
    }
  }

  ghost predicate DependencyProgress(
      w: World, b: Build, files: seq<DependencyFile>, existing: map<Text, FileRow>, s: Store, t: Store, n: nat)
    requires n <= |files|
  {
    && OnlyRows(s, t) && SameFirstParty(s, t)
    && (forall i :: 0 <= i < n ==> DependencyIndexed(w, b, existing, s, t, files[i]))
    && (forall p: Text :: (forall i :: 0 <= i < n ==> files[i].display != p) ==> SameAt(s, t, p))
  }

  lemma DependencyAdvances(
      w: World, b: Build, files: seq<DependencyFile>, existing: map<Text, FileRow>, s: Store, t: Store, u: Store, n: nat)
    requires n < |files|
    requires forall i, j :: 0 <= i < j < |files| ==> files[i].display != files[j].display
    requires DependencyProgress(w, b, files, existing, s, t, n)
    requires OnlyAt(t, u, files[n].display) && SameFirstParty(t, u)
    requires DependencyIndexed(w, b, existing, t, u, files[n])
    ensures DependencyProgress(w, b, files, existing, s, u, n + 1)
  {
    var f := files[n];
    SameFirstPartyChain(s, t, u);
    assert SameAt(s, t, f.display);
    forall i | 0 <= i < n + 1
      ensures DependencyIndexed(w, b, existing, s, u, files[i])
    {
      if i < n {
        assert SameAt(t, u, files[i].display);
      }
    }
    forall p: Text | forall i :: 0 <= i < n + 1 ==> files[i].display != p
      ensures SameAt(s, u, p)
    {
      assert p != f.display;
      assert SameAt(t, u, p);
      assert forall i :: 0 <= i < n ==> files[i].display != p;
      assert SameAt(s, t, p);
    }
  }

  function Displays(files: seq<DependencyFile>): set<Text> {
    set f | f in files :: f.display
  }

  ghost predicate DependenciesKept(w: World, files: seq<DependencyFile>, existing: map<Text, FileRow>, s: Store, t: Store) {
    forall f :: f in files && KeepsDependency(w, existing, f) ==> KeptAt(s, t, f.display)
  }

  lemma DependenciesAfterLoop(
      w: World, b: Build, d: Discovery, existing: map<Text, FileRow>, s: Store, t: Store, u: Store)
    requires existing == Dependencies(s.files)
    requires DependencyProgress(w, b, d.files, existing, s, t, |d.files|)
    requires OnlyRows(t, u)
    requires forall p: Text :: p in existing.Keys - Displays(d.files) ==> p !in u.files
    requires forall p: Text :: p !in existing.Keys - Displays(d.files) ==> SameAt(t, u, p)
    ensures DependenciesDone(w, b, d, u.files) && SameFirstParty(s, u)
    ensures DependenciesKept(w, d.files, existing, s, u)
  {
    forall f | f in d.files
      ensures DependencyHolds(u.files, f.display, DependencyRowFor(w, b, f))
      ensures KeepsDependency(w, existing, f) ==> KeptAt(s, u, f.display)
    {
      var i :| 0 <= i < |d.files| && d.files[i] == f;
      assert DependencyIndexed(w, b, existing, s, t, f);
      assert f.display in Displays(d.files);
      assert SameAt(t, u, f.display);
    }
    forall p: Text | IsDependency(u.files, p)
      ensures exists f :: f in d.files && f.display == p
    {
      assert SameAt(t, u, p);
      assert forall i :: 0 <= i < |d.files| ==> d.files[i] in d.files;
      assert p !in Displays(d.files) ==> forall i :: 0 <= i < |d.files| ==> d.files[i].display != p;
      assert p !in Displays(d.files) ==> SameAt(s, t, p);
    }
    forall p: Text | IsFirstParty(s.files, p) || IsFirstParty(u.files, p)
      ensures SameAt(s, u, p)
    {
      assert p in existing.Keys - Displays(d.files) || SameAt(t, u, p);
      assert SameAt(s, t, p);
    }
  }

  method IndexDependenciesUnguarded(db: Connection, w: World, b: Build, d: Discovery) returns (r: Result<(), Error>)
    requires CollisionFree(w.hash) && ValidDiscovery(w, d)
    requires db.live.ids.Keys == db.live.files.Keys
    requires forall p :: IsDependency(db.live.files, p) ==> ReusableDependency(w, b, p, db.live.files[p])
    modifies db`live, db`clock
    ensures db.clock >= old(db.clock) && OnlyRows(old(db.live), db.live)
    ensures r.Ok? ==> DependenciesDone(w, b, d, db.live.files) && SameFirstParty(old(db.live), db.live)
    ensures r.Ok? ==> DependenciesKept(w, d.files, Dependencies(old(db.live).files), old(db.live), db.live)
    ensures r.Err? && r.error == SqlFailure ==> db.Faulted(old(db.clock))
    ensures r.Err? && r.error == DuplicatePath ==> exists f :: f in d.files && IsFirstParty(old(db.live.files), f.display)
    ensures r.Err? ==> r.error in {SqlFailure, DuplicatePath}
    ensures r.Ok? ==> !db.Faulted(old(db.clock))
  {
    ghost var s := db.live;
    var existing := Dependencies(db.live.files);
    for n := 0 to |d.files|
      invariant !db.Faulted(old(db.clock))
      invariant db.clock >= old(db.clock)
      invariant DependencyProgress(w, b, d.files, existing, s, db.live, n)
    {
      var f := d.files[n];
      ghost var before := db.live;
      assert f in d.files;
      assert SameAt(s, before, f.display);
      r := IndexDependencyFile(db, w, b, existing, f);
      if r.Err? {
        return;
      }
      DependencyAdvances(w, b, d.files, existing, s, before, db.live, n);
    }
    ghost var t := db.live;
    var ok := DeleteUnseen(db, existing.Keys - Displays(d.files));
    if !ok {
      return Err(SqlFailure);
    }
    DependenciesAfterLoop(w, b, d, existing, s, t, db.live);
    r := Ok(());
  }

  /** The same under its own savepoint. */
  method IndexDependencies(db: Connection, w: World, b: Build, d: Discovery) returns (r: Result<(), Error>)
    requires CollisionFree(w.hash) && ValidDiscovery(w, d)
    requires db.live.ids.Keys == db.live.files.Keys
    requires forall p :: IsDependency(db.live.files, p) ==> ReusableDependency(w, b, p, db.live.files[p])
    modifies db`live, db`clock
    ensures db.clock >= old(db.clock) && OnlyRows(old(db.live), db.live)
    ensures r.Ok? ==> DependenciesDone(w, b, d, db.live.files) && SameFirstParty(old(db.live), db.live)
    ensures r.Ok? ==> DependenciesKept(w, d.files, Dependencies(old(db.live).files), old(db.live), db.live)
    ensures r.Err? ==> db.live == old(db.live) || (db.clock > 0 && db.fails(db.clock - 1))
    ensures r.Err? && r.error == SqlFailure ==> db.Faulted(old(db.clock))
    ensures r.Err? && r.error == DuplicatePath ==> exists f :: f in d.files && IsFirstParty(old(db.live.files), f.display)
    ensures r.Err? ==> r.error in {SqlFailure, DuplicatePath}
    ensures r.Ok? ==> !db.Faulted(old(db.clock))
  {
    var ok := db.Execute();
    if !ok {
      return Err(SqlFailure);
    }
    var savepoint := db.live;
    r := IndexDependenciesUnguarded(db, w, b, d);
    if r.Ok? {
      ok := db.Execute();
      if !ok {
        return Err(SqlFailure);
      }
      return;
    }
    ok := db.Execute();
    if ok {
      db.live := savepoint;
    }
  }
}
