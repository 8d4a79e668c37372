/**
 * The second stage of an attempt: package instances, dependency files and module
 * edges complete the canonical rows.
 */
module Replacing {
  import opened Wrappers
  import opened Publication
  import opened Formats
  import opened Tables
  import opened Captures
  import opened Contracts
  import opened Database
  import opened FirstPartyRows
  import opened DependencyFiles
  import opened Checker
  import opened IndexState
  import opened Preparing
  import Dependency
  import Tagging

  // ---------------------------------------------------------------- canonical replacement

  /** The canonical rows are complete; `s` is what the attempt began with. */
  ghost predicate Replaced(w: World, b: Build, c: Capture, mode: Mode, s: Store, t: Store, p: Preparation) {
    && t.ids.Keys == t.files.Keys
    && CanonicalRows(w, b, c, p.discovery, t) && ContractsSet(w, b, c, t)
    && t.identities == NO_IDENTITIES
    && t.active == s.active && t.inactive == s.inactive
    && p.previous.code == s.identities.code && p.previous.resolution == s.resolution && ChangedAre(b, s, p.changed)
    && (mode.Incremental? && !AnyCode(p.changed) ==>
          t.projection == s.projection && CodeUnmoved(w, c, s, t) && DependenciesUnmoved(w, p.discovery, s, t))
  }

  lemma SynchronizedRow(c: Capture, entries: seq<Instance>, t: Store, u: Store, p: Text)
    requires Dependency.InstancesSynchronized(c.base, c.packages, entries, t, u)
    ensures IsFirstParty(t.files, p) <==> IsFirstParty(u.files, p)
    ensures IsFirstParty(t.files, p) ==>
      && Untagged(u.files[p]) == Untagged(t.files[p]) && u.files[p].data == t.files[p].data
      && u.files[p] == Tagging.TagWith(c.base, Tagging.Shallow(c.packages), p, u.files[p])
    ensures IsDependency(u.files, p) ==> IsDependency(t.files, p) && u.files[p] == t.files[p]
    ensures p in u.files && p in u.ids ==> KeptAt(t, u, p)
  {
    assert p in u.files <==> Dependency.Retained(t, Dependency.Roots(entries), p);
    if p in u.files {
      assert u.files[p] == Dependency.Synchronized(c.base, c.packages, t.files[p], p);
      TagWithTwice(c.base, Tagging.Shallow(c.packages), p, t.files[p]);
    }
  }

  lemma TagWithTwice(base: Text, list: seq<Instance>, p: Text, row: FileRow)
    ensures var r := Tagging.TagWith(base, list, p, row);
      Untagged(r) == Untagged(row) && r.data == row.data && !r.origin.Dependency? && Tagging.TagWith(base, list, p, r) == r
  {
  }

  lemma FirstPartyCarriesOver(w: World, b: Build, c: Capture, x: map<Text, FileRow>, y: map<Text, FileRow>)
    requires FirstPartyDone(w, b, c, x)
    requires forall p :: IsFirstParty(x, p) <==> IsFirstParty(y, p)
    requires forall p :: IsFirstParty(x, p) ==> p in y && Untagged(x[p]) == Untagged(y[p])
    ensures FirstPartyDone(w, b, c, y) && Importers(x) == Importers(y)
  {
    forall f | f in c.code
      ensures Holds(y, f.path, CodeRowFor(w, b, c, f))
    {
      assert Holds(x, f.path, CodeRowFor(w, b, c, f));
    }
    forall f | f in c.docs
      ensures Holds(y, f.path, Some(DocRowFor(w, b, f)))
    {
      assert Holds(x, f.path, Some(DocRowFor(w, b, f)));
    }
    ImportersAgree(w, b, c, x, y);
  }

  /** Synchronizing instances changes tags only, and loses no first-party row. */
  lemma SynchronizationKeepsRows(w: World, b: Build, c: Capture, mode: Mode, s: Store, t: Store, u: Store, p: Preparation)
    requires Ready(w, b, c, mode, s, t, p)
    requires Dependency.InstancesSynchronized(c.base, c.packages, c.packages + p.discovery.instances, t, u)
    ensures FirstPartyDone(w, b, c, u.files) && Tagged(c, u.files) && Importers(u.files) == Importers(t.files)
    ensures forall q :: IsDependency(u.files, q) ==> ReusableDependency(w, b, q, u.files[q])
  {
    forall q
      ensures IsFirstParty(t.files, q) <==> IsFirstParty(u.files, q)
      ensures IsFirstParty(t.files, q) ==> Untagged(t.files[q]) == Untagged(u.files[q])
      ensures IsFirstParty(u.files, q) ==> u.files[q] == Tagging.TagWith(c.base, Tagging.Shallow(c.packages), q, u.files[q])
      ensures IsDependency(u.files, q) ==> IsDependency(t.files, q) && u.files[q] == t.files[q]
    {
      SynchronizedRow(c, c.packages + p.discovery.instances, t, u, q);
    }
    FirstPartyCarriesOver(w, b, c, t.files, u.files);
  }

  /** Writing dependency files leaves the first-party rows alone. */
  lemma DependenciesKeepRows(w: World, b: Build, c: Capture, t: Store, u: Store)
    requires FirstPartyDone(w, b, c, t.files) && Tagged(c, t.files) && SameFirstParty(t, u)
    ensures FirstPartyDone(w, b, c, u.files) && Tagged(c, u.files) && Importers(u.files) == Importers(t.files)
  {
    forall q
      ensures IsFirstParty(t.files, q) <==> IsFirstParty(u.files, q)
      ensures IsFirstParty(t.files, q) ==> t.files[q] == u.files[q]
    {
      assert IsFirstParty(t.files, q) || IsFirstParty(u.files, q) ==> SameAt(t, u, q);
    }
    FirstPartyCarriesOver(w, b, c, t.files, u.files);
  }

  /** A captured file that was kept by the first loop is still the same row at the end. */
  lemma StillUnmoved(
      w: World, b: Build, c: Capture, mode: Mode, s: Store, t: Store, u: Store, v: Store, p: Preparation)
    requires ValidCapture(w, c) && Ready(w, b, c, mode, s, t, p)
    requires Dependency.InstancesSynchronized(c.base, c.packages, c.packages + p.discovery.instances, t, u)
    requires SameFirstParty(u, v) && DependenciesKept(w, p.discovery.files, Dependencies(u.files), u, v)
    requires CodeUnmoved(w, c, s, t) && SameDependencies(s, t)
    ensures CodeUnmoved(w, c, s, v) && DependenciesUnmoved(w, p.discovery, s, v)
  {
    var entries := c.packages + p.discovery.instances;
    forall f | f in c.code && KeepsCode(w, c, s.contexts, FirstParty(s.files), f)
      ensures KeptAt(s, v, f.path)
    {
      assert KeptAt(s, t, f.path);
      assert IsFirstParty(t.files, f.path) by {
        assert IsDependency(t.files, f.path) ==> SameAt(s, t, f.path);
      }
      SynchronizedRow(c, entries, t, u, f.path);
      assert SameAt(u, v, f.path);
    }
    forall f | f in p.discovery.files && KeepsDependency(w, Dependencies(s.files), f)
      ensures KeptAt(s, v, f.display)
    {
      assert SameAt(s, t, f.display);
      assert ValidDiscovery(w, p.discovery);
      var i :| i in p.discovery.instances && i.root == f.root;
      assert i in entries;
      assert Dependency.Retained(t, Dependency.Roots(entries), f.display);
      SynchronizedRow(c, entries, t, u, f.display);
      assert KeptAt(s, t, f.display) && KeptAt(t, u, f.display);
      assert KeepsDependency(w, Dependencies(u.files), f);
      assert KeptAt(u, v, f.display);
    }
  }

  lemma FilesFrom(w: World, b: Build, c: Capture, mode: Mode, s: Store, t: Store, u: Store, v: Store, p: Preparation)
    requires ValidCapture(w, c) && Ready(w, b, c, mode, s, t, p)
    requires Dependency.InstancesSynchronized(c.base, c.packages, c.packages + p.discovery.instances, t, u)
    requires OnlyRows(u, v) && DependenciesDone(w, b, p.discovery, v.files) && SameFirstParty(u, v)
    ensures CanonicalFiles(w, b, c, p.discovery, v)
  {
    SynchronizationKeepsRows(w, b, c, mode, s, t, u, p);
    DependenciesKeepRows(w, b, c, u, v);
  }

  lemma ReplacedFrom(
      w: World, b: Build, c: Capture, mode: Mode, s: Store, t: Store, u: Store, v: Store, p: Preparation, edges: seq<Edge>)
    requires ValidCapture(w, c) && Ready(w, b, c, mode, s, t, p)
    requires Dependency.InstancesSynchronized(c.base, c.packages, c.packages + p.discovery.instances, t, u)
    requires OnlyRows(u, v) && DependenciesDone(w, b, p.discovery, v.files)
    requires SameFirstParty(u, v) && DependenciesKept(w, p.discovery.files, Dependencies(u.files), u, v)
    requires c.resolve(CodeRows(v.files), v.instances) == Some(edges)
    ensures Replaced(w, b, c, mode, s, v.(edges := edges), p)
  {
    var r := v.(edges := edges);
    FilesFrom(w, b, c, mode, s, t, u, v, p);
    assert forall f: Format :: MarkerOf(r, f) == MarkerOf(t, f);
    if mode.Incremental? && !AnyCode(p.changed) {
      StillUnmoved(w, b, c, mode, s, t, u, v, p);
      assert forall q: Text :: KeptAt(s, v, q) ==> KeptAt(s, r, q);
    }
  }

  lemma ReadyIsWhole(w: World, b: Build, c: Capture, mode: Mode, s: Store, t: Store, p: Preparation)
    requires ValidCapture(w, c) && Ready(w, b, c, mode, s, t, p)
    ensures ValidDiscovery(w, p.discovery) && t.ids.Keys == t.files.Keys && Dependency.References(t)
  {
    assert c.discover(Importers(t.files)).Some?;
  }

  /** Instances and dependency files; `u` is the store between the two. */
  method ReplaceFiles(
      db: Connection, w: World, b: Build, c: Capture, mode: Mode, p: Preparation, ghost s: Store)
    returns (r: Result<(), Error>, ghost u: Store)
    requires CollisionFree(w.hash) && ValidCapture(w, c)
    requires Ready(w, b, c, mode, s, db.live, p)
    modifies db`live, db`clock
    ensures db.clock >= old(db.clock)
    ensures r.Ok? ==>
      && Dependency.InstancesSynchronized(c.base, c.packages, c.packages + p.discovery.instances, old(db.live), u)
      && OnlyRows(u, db.live) && DependenciesDone(w, b, p.discovery, db.live.files)
      && SameFirstParty(u, db.live) && DependenciesKept(w, p.discovery.files, Dependencies(u.files), u, db.live)
    ensures r.Err? && r.error == SqlFailure ==> db.Faulted(old(db.clock))
    ensures r.Err? && r.error == DuplicatePath ==> exists f :: f in p.discovery.files && IsFirstParty(old(db.live.files), f.display)
    ensures r.Err? ==> r.error in {SqlFailure, DuplicatePath}
    ensures r.Ok? ==> !db.Faulted(old(db.clock))
  {
    ghost var t, start := db.live, db.clock;
    ReadyIsWhole(w, b, c, mode, s, t, p);
    hide Ready, CollisionFree, ValidCapture, ValidDiscovery, DependenciesDone, DependenciesKept, Dependency.References, Fails;
    u := t;
    var ok := Dependency.SynchronizeInstances(db, c.base, c.packages, p.discovery.instances);
    if !ok {
      r := Err(SqlFailure);
      return;
    }
    u := db.live;
    ghost var middle := db.clock;
    SynchronizationKeepsRows(w, b, c, mode, s, t, u, p);
    r := IndexDependencies(db, w, b, p.discovery);
    FailsJoin(db.fails, start, middle, db.clock);
    if r.Err? && r.error == DuplicatePath {
      ghost var f :| f in p.discovery.files && IsFirstParty(u.files, f.display);
      SynchronizedRow(c, c.packages + p.discovery.instances, t, u, f.display);
    }
  }

  /** Instances, dependency files, restored vectors and module edges. */
  method ReplaceRows(
      db: Connection, w: World, b: Build, c: Capture, mode: Mode, p: Preparation, ghost s: Store)
    returns (r: Result<(), Error>)
    requires CollisionFree(w.hash) && ValidCapture(w, c)
    requires Ready(w, b, c, mode, s, db.live, p)
    modifies db`live, db`clock
    ensures db.clock >= old(db.clock)
    ensures r.Ok? ==> Replaced(w, b, c, mode, s, db.live, p)
    ensures r.Err? && r.error == SqlFailure ==> db.Faulted(old(db.clock))
    ensures r.Err? && r.error == DuplicatePath ==> exists f :: f in p.discovery.files && IsFirstParty(old(db.live.files), f.display)
    ensures r.Err? && r.error == ResolutionFailure ==>
      exists t :: CanonicalFiles(w, b, c, p.discovery, t) && c.resolve(CodeRows(t.files), t.instances).None?
    ensures r.Err? ==> r.error in {SqlFailure, DuplicatePath, ResolutionFailure}
    ensures r.Ok? ==> !db.Faulted(old(db.clock))
  {
    hide Ready, Replaced, CanonicalFiles, CollisionFree, ValidCapture, DependenciesDone, DependenciesKept, OnlyRows, SameFirstParty;
    hide Dependency.InstancesSynchronized;
    ghost var t := db.live;
    var replaced, u := ReplaceFiles(db, w, b, c, mode, p, s);
    if replaced.Err? {
      return Err(replaced.error);
    }
    ghost var v := db.live;
    var ok := db.Execute();
    if !ok {
      return Err(SqlFailure);
    }
    var resolved := c.resolve(CodeRows(db.live.files), db.live.instances);
    if resolved.None? {
      FilesFrom(w, b, c, mode, s, t, u, v, p);
      return Err(ResolutionFailure);
    }
    ok := db.Execute();
    if !ok {
      return Err(SqlFailure);
    }
    ReplacedFrom(w, b, c, mode, s, t, u, v, p, resolved.value);
    db.live := db.live.(edges := resolved.value);
    r := Ok(());
  }
}
