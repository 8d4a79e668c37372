/**
 * Package instances and the files that belong to them: workspace packages own the
 * first-party files below them, dependency packages own files of their own.
 */
module Dependency {
  import opened Wrappers
  import opened Publication
  import opened Formats
  import opened Tables
  import opened Captures
  import opened Contracts
  import opened Database
  import opened FirstPartyRows
  import opened Tagging
  import Collections

  // ---------------------------------------------------------------- desired instances

  /** `INSERT … ON CONFLICT(canonical_root) DO UPDATE`, one entry after the other. */
  function Upserted(m: map<Text, Instance>, entries: seq<Instance>): map<Text, Instance> {
    if entries == [] then m
    else Upserted(m, entries[..|entries| - 1])[entries[|entries| - 1].root := entries[|entries| - 1]]
  }

  function Roots(entries: seq<Instance>): set<Text> {
    set i | i in entries :: i.root
  }

  lemma {:induction false} UpsertedOver(m: map<Text, Instance>, entries: seq<Instance>)
    ensures Upserted(m, entries) == m + Upserted(map[], entries)
  {
    if entries != [] {
      UpsertedOver(m, entries[..|entries| - 1]);
    }
  }

  lemma {:induction false} UpsertedRoots(entries: seq<Instance>)
    ensures Upserted(map[], entries).Keys == Roots(entries)
  {
    if entries != [] {
      var init, last := entries[..|entries| - 1], entries[|entries| - 1];
      UpsertedRoots(init);
      assert entries == init + [last];
    }
  }

  // ---------------------------------------------------------------- specification

  predicate RefersTo(s: Store, p: Text)
    requires p in s.files
  {
    s.files[p].package.Some? && s.files[p].package.value in s.instances
  }

  /** Dependency files belong to a stored instance. */
  ghost predicate References(s: Store) {
    forall p :: IsDependency(s.files, p) ==> RefersTo(s, p)
  }

  predicate Retained(s: Store, desired: set<Text>, p: Text) {
    p in s.files && (s.files[p].origin.Dependency? && s.files[p].package.Some? ==> s.files[p].package.value in desired)
  }

  /** What synchronization leaves of the row at `p`. */
  function Synchronized(base: Text, packages: seq<Instance>, row: FileRow, p: Text): FileRow {
    if row.origin.Dependency? then row else TagWith(base, Shallow(packages), p, row)
  }

  /**
   * Exactly the desired instances are left; first-party rows are all kept and tagged,
   * dependency rows are kept with their instance and otherwise removed with it.
   */
  ghost predicate InstancesSynchronized(base: Text, packages: seq<Instance>, entries: seq<Instance>, s: Store, t: Store) {
    && t == s.(files := t.files, ids := t.ids, nextId := t.nextId, instances := Upserted(map[], entries))
    && t.ids.Keys == t.files.Keys
    && (forall p :: p in t.files <==> Retained(s, Roots(entries), p))
    && (forall p :: p in t.files ==> t.files[p] == Synchronized(base, packages, s.files[p], p))
    && (forall p :: p in t.files ==> p in s.ids && t.ids[p] == s.ids[p])
  }

  // ---------------------------------------------------------------- the statements

  /** `UPDATE files SET origin='repository', …` for first-party rows. */
  method ResetTags(db: Connection) returns (ok: bool)
    requires db.live.ids.Keys == db.live.files.Keys
    modifies db`live, db`clock
    ensures db.clock == old(db.clock) + 1 && ok == !db.fails(old(db.clock))
    ensures ok ==> db.live == old(db.live).(files := TaggedWith([], [], old(db.live).files))
    ensures !ok ==> db.live == old(db.live)
  {
    ok := db.Execute();
    if ok {
      var files := db.live.files;
      var reset := map p | p in files :: if files[p].origin.Dependency? then files[p] else Untagged(files[p]);
      assert reset == TaggedWith([], [], files);
      db.live := db.live.(files := reset);
    }
  }

  method UpsertInstances(db: Connection, entries: seq<Instance>) returns (ok: bool)
    modifies db`live, db`clock
    ensures db.clock >= old(db.clock)
    ensures ok ==> db.live == old(db.live).(instances := Upserted(old(db.live).instances, entries))
    ensures !ok ==> db.Faulted(old(db.clock))
    ensures ok ==> !db.Faulted(old(db.clock))
  {
    for n := 0 to |entries|
      invariant !db.Faulted(old(db.clock))
      invariant db.clock >= old(db.clock)
      invariant db.live == old(db.live).(instances := Upserted(old(db.live).instances, entries[..n]))
    {
      ok := db.Execute();
      if !ok {
        return;
      }
      assert entries[..n + 1][..n] == entries[..n];
      db.live := db.live.(instances := db.live.instances[entries[n].root := entries[n]]);
    }
    assert entries[..|entries|] == entries;
    ok := true;
  }

  /** Delete an instance's files, then the instance. */
  method RemoveInstance(db: Connection, root: Text) returns (ok: bool)
    requires db.live.ids.Keys == db.live.files.Keys
    modifies db`live, db`clock
    ensures db.clock >= old(db.clock)
    ensures !ok ==> db.Faulted(old(db.clock))
    ensures ok ==> RowsRemoved(old(db.live), db.live, {root})
    ensures ok ==> db.live.instances == old(db.live.instances) - {root}
    ensures ok ==> !db.Faulted(old(db.clock))
  {
    var paths := set p | p in db.live.files && db.live.files[p].package == Some(root);
    ok := DeleteUnseen(db, paths);
    if !ok {
      return;
    }
    ghost var t := db.live;
    forall p: Text | p in t.files
      ensures p in old(db.live.files) && p !in paths && SameAt(old(db.live), t, p)
    {
      assert SameAt(old(db.live), t, p) || p in paths;
    }
    ok := db.Execute();
    if !ok {
      return;
    }
    db.live := db.live.(instances := db.live.instances - {root});
    forall p: Text | p in old(db.live.files) && !BelongsTo(old(db.live), p, {root})
      ensures p in db.live.files
    {
      assert SameAt(old(db.live), t, p);
    }
  }

  predicate BelongsTo(s: Store, p: Text, roots: set<Text>) {
    p in s.files && s.files[p].package.Some? && s.files[p].package.value in roots
  }

  /** The rows of these instances are gone, all others are as they were. */
  ghost predicate RowsRemoved(s: Store, t: Store, roots: set<Text>) {
    && t == s.(files := t.files, ids := t.ids, nextId := t.nextId, instances := t.instances)
    && t.ids.Keys == t.files.Keys
    && (forall p: Text :: p in t.files <==> p in s.files && !BelongsTo(s, p, roots))
    && (forall p: Text :: p in t.files ==> SameAt(s, t, p))
  }

  lemma RemovedMore(s: Store, t: Store, u: Store, roots: set<Text>, root: Text)
    requires RowsRemoved(s, t, roots) && RowsRemoved(t, u, {root})
    ensures RowsRemoved(s, u, roots + {root})
  {
    forall p: Text
      ensures p in u.files <==> p in s.files && !BelongsTo(s, p, roots + {root})
      ensures p in u.files ==> SameAt(s, u, p)
    {
      if p in t.files {
        assert SameAt(s, t, p);
        if p in u.files {
          assert SameAt(t, u, p);
        }
      }
    }
  }

  method RemoveStale(db: Connection, desired: set<Text>) returns (ok: bool)
    requires db.live.ids.Keys == db.live.files.Keys
    modifies db`live, db`clock
    ensures db.clock >= old(db.clock)
    ensures !ok ==> db.Faulted(old(db.clock))
    ensures ok ==> RowsRemoved(old(db.live), db.live, old(db.live).instances.Keys - desired)
    ensures ok ==> db.live.instances == old(db.live).instances - (old(db.live).instances.Keys - desired)
    ensures ok ==> !db.Faulted(old(db.clock))
  {
    ghost var s := db.live;
    var stale := Collections.Elements(db.live.instances.Keys - desired);
    ghost var removed: set<Text> := {};
    for n := 0 to |stale|
      invariant !db.Faulted(old(db.clock))
      invariant db.clock >= old(db.clock)
      invariant RowsRemoved(s, db.live, removed) && db.live.instances == s.instances - removed
      invariant forall i :: 0 <= i < n ==> stale[i] in removed
      invariant forall k :: k in removed ==> k in stale
    {
      ghost var t := db.live;
      ok := RemoveInstance(db, stale[n]);
      if !ok {
        return;
      }
      RemovedMore(s, t, db.live, removed, stale[n]);
      removed := removed + {stale[n]};
    }
    assert removed == s.instances.Keys - desired;
    ok := true;
  }

  predicate Plain(files: map<Text, FileRow>) {
    forall p :: p in files && !files[p].origin.Dependency? ==> files[p] == Untagged(files[p])
  }

  /** The tagging `UPDATE` for one package. */
  function TagStatement(base: Text, i: Instance, files: map<Text, FileRow>): map<Text, FileRow> {
    map p | p in files ::
      if !files[p].origin.Dependency? && PackageOwns(base, i, p)
      then files[p].(origin := Workspace, package := Some(i.root), packagePath := Some(PackagePath(Prefix(base, i.root), p)))
      else files[p]
  }

  lemma TagStatementIsLast(base: Text, list: seq<Instance>, i: Instance, files: map<Text, FileRow>)
    requires Plain(files)
    ensures TagStatement(base, i, TaggedWith(base, list, files)) == TaggedWith(base, list + [i], files)
  {
    assert (list + [i])[..|list|] == list;
    var tagged := TaggedWith(base, list, files);
    forall p | p in files
      ensures TagStatement(base, i, tagged)[p] == TaggedWith(base, list + [i], files)[p]
    {
    }
  }

  method TagPackage(db: Connection, base: Text, i: Instance) returns (ok: bool)
    modifies db`live, db`clock
    ensures db.clock == old(db.clock) + 1 && ok == !db.fails(old(db.clock))
    ensures ok ==> db.live == old(db.live).(files := TagStatement(base, i, old(db.live).files))
  {
    ok := db.Execute();
    if ok && Relative(base, i.root).Some? {
      db.live := db.live.(files := TagStatement(base, i, db.live.files));
    } else {
      assert Relative(base, i.root).None? ==> TagStatement(base, i, db.live.files) == db.live.files;
    }
  }

  /** One statement after the other. */
  function Statements(base: Text, list: seq<Instance>, files: map<Text, FileRow>): map<Text, FileRow> {
    if list == [] then files
    else TagStatement(base, list[|list| - 1], Statements(base, list[..|list| - 1], files))
  }

  lemma {:induction false} StatementsTag(base: Text, list: seq<Instance>, files: map<Text, FileRow>)
    requires Plain(files)
    ensures Statements(base, list, files) == TaggedWith(base, list, files)
  {
    if list == [] {
      assert TaggedWith(base, [], files) == files;
    } else {
      var init, last := list[..|list| - 1], list[|list| - 1];
      StatementsTag(base, init, files);
      TagStatementIsLast(base, init, last, files);
      assert list == init + [last];
    }
  }

  /** One `UPDATE` per package, shallow packages first: the last one to match stays. */
  method TagWorkspaceFiles(db: Connection, base: Text, packages: seq<Instance>) returns (ok: bool)
    requires Plain(db.live.files)
    modifies db`live, db`clock
    ensures db.clock >= old(db.clock)
    ensures !ok ==> db.Faulted(old(db.clock))
    ensures ok ==> db.live == old(db.live).(files := TaggedWith(base, Shallow(packages), old(db.live).files))
    ensures ok ==> !db.Faulted(old(db.clock))
  {
    ghost var start := db.live;
    var list := Shallow(packages);
    for n := 0 to |list|
      invariant !db.Faulted(old(db.clock))
      invariant db.clock >= old(db.clock)
      invariant db.live == start.(files := Statements(base, list[..n], start.files))
    {
      assert list[..n + 1][..n] == list[..n];
      ok := TagPackage(db, base, list[n]);
      if !ok {
        return;
      }
    }
    assert list[..|list|] == list;
    StatementsTag(base, list, start.files);
    ok := true;
  }

  lemma OnlyDesiredAreLeft(m: map<Text, Instance>, entries: seq<Instance>)
    ensures Upserted(m, entries) - (Upserted(m, entries).Keys - Roots(entries)) == Upserted(map[], entries)
    ensures m.Keys <= Upserted(m, entries).Keys
  {
    UpsertedOver(m, entries);
    UpsertedRoots(entries);
  }

  lemma TagsAreFresh(base: Text, list: seq<Instance>, p: Text, row: FileRow)
    ensures TagWith(base, list, p, Untagged(row)) == TagWith(base, list, p, row)
  {
  }

  lemma RemovedIffStale(s: Store, upserted: Store, stale: set<Text>, desired: set<Text>, p: Text)
    requires References(s) && p in s.files
    requires upserted.files == TaggedWith([], [], s.files)
    requires s.instances.Keys <= upserted.instances.Keys && stale == upserted.instances.Keys - desired
    ensures BelongsTo(upserted, p, stale) <==> !Retained(s, desired, p)
  {
    assert IsDependency(s.files, p) ==> RefersTo(s, p);
  }

  lemma SynchronizedRow(base: Text, packages: seq<Instance>, s: Store, upserted: Store, removed: Store, files: map<Text, FileRow>, p: Text)
    requires upserted.files == TaggedWith([], [], s.files) && files == TaggedWith(base, Shallow(packages), removed.files)
    requires p in files && p in upserted.files && SameAt(upserted, removed, p)
    ensures p in s.files && files[p] == Synchronized(base, packages, s.files[p], p)
  {
    var row := s.files[p];
    if !row.origin.Dependency? {
      assert upserted.files[p] == Untagged(row);
      assert files[p] == TagWith(base, Shallow(packages), p, Untagged(row));
      TagsAreFresh(base, Shallow(packages), p, row);
    }
  }

  lemma SynchronizedBySteps(
      base: Text, packages: seq<Instance>, entries: seq<Instance>, s: Store, upserted: Store, removed: Store, t: Store)
    requires References(s)
    requires upserted == s.(files := TaggedWith([], [], s.files), instances := Upserted(s.instances, entries))
    requires RowsRemoved(upserted, removed, upserted.instances.Keys - Roots(entries))
    requires removed.instances == upserted.instances - (upserted.instances.Keys - Roots(entries))
    requires t == removed.(files := TaggedWith(base, Shallow(packages), removed.files))
    ensures InstancesSynchronized(base, packages, entries, s, t)
  {
    OnlyDesiredAreLeft(s.instances, entries);
    var stale := upserted.instances.Keys - Roots(entries);
    assert t.files.Keys == removed.files.Keys && upserted.files.Keys == s.files.Keys;
    forall p: Text
      ensures p in t.files <==> Retained(s, Roots(entries), p)
    {
      assert p in removed.files <==> p in upserted.files && !BelongsTo(upserted, p, stale);
      if p in s.files {
        RemovedIffStale(s, upserted, stale, Roots(entries), p);
      }
    }
    forall p | p in t.files
      ensures t.files[p] == Synchronized(base, packages, s.files[p], p)
      ensures p in s.ids && t.ids[p] == s.ids[p]
    {
      assert SameAt(upserted, removed, p);
      SynchronizedRow(base, packages, s, upserted, removed, t.files, p);
    }
  }

  lemma ResetIsPlain(files: map<Text, FileRow>)
    ensures Plain(TaggedWith([], [], files))
  {
  }

  lemma RemovalKeepsPlain(s: Store, t: Store, roots: set<Text>)
    requires Plain(s.files) && RowsRemoved(s, t, roots)
    ensures Plain(t.files)
  {
    forall p | p in t.files && !t.files[p].origin.Dependency?
      ensures t.files[p] == Untagged(t.files[p])
    {
      assert SameAt(s, t, p);
    }
  }

  method SynchronizeUnguarded(db: Connection, base: Text, packages: seq<Instance>, plans: seq<Instance>) returns (ok: bool)
    requires db.live.ids.Keys == db.live.files.Keys && References(db.live)
    modifies db`live, db`clock
    ensures db.clock >= old(db.clock)
    ensures !ok ==> db.Faulted(old(db.clock))
    ensures ok ==> InstancesSynchronized(base, packages, packages + plans, old(db.live), db.live)
    ensures ok ==> !db.Faulted(old(db.clock))
  {
    ghost var s := db.live;
    ok := ResetTags(db);
    if !ok {
      return;
    }
    ok := UpsertInstances(db, packages + plans);
    if !ok {
      return;
    }
    ghost var upserted := db.live;
    ok := RemoveStale(db, Roots(packages + plans));
    if !ok {
      return;
    }
    ghost var removed := db.live;
    ResetIsPlain(s.files);
    RemovalKeepsPlain(upserted, removed, upserted.instances.Keys - Roots(packages + plans));
    ok := TagWorkspaceFiles(db, base, packages);
    if !ok {
      return;
    }
    SynchronizedBySteps(base, packages, packages + plans, s, upserted, removed, db.live);
  }

  /** Synchronization under its own savepoint, which is rolled back if anything fails. */
  method SynchronizeInstances(db: Connection, base: Text, packages: seq<Instance>, plans: seq<Instance>) returns (ok: bool)
    requires db.live.ids.Keys == db.live.files.Keys && References(db.live)
    modifies db`live, db`clock
    ensures db.clock >= old(db.clock)
    ensures !ok ==> db.Faulted(old(db.clock))
    ensures !ok ==> db.live == old(db.live) || (db.clock > 0 && db.fails(db.clock - 1))
    ensures ok ==> InstancesSynchronized(base, packages, packages + plans, old(db.live), db.live)
    ensures ok ==> !db.Faulted(old(db.clock))
  {
    ok := db.Execute();
    if !ok {
      return;
    }
    var savepoint := db.live;
    ok := SynchronizeUnguarded(db, base, packages, plans);
    if ok {
      ok := db.Execute();
      return;
    }
    var restored := db.Execute();
    if restored {
      db.live := savepoint;
    }
  }
}
