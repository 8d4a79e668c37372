/**
 * Reconciliation of the repository policy: classifications whose evidence still
 * matches are selected, suppressed by definite ancestors, and written over each
 * other in ascending order, so that the last write is the most specific one.
 */
module Recon {
  import opened Wrappers
  import opened Ancestry
  import Sorting

  datatype Selector =
    | RepositoryArea(scope: string, directOnly: bool)
    | WorkspaceArea(packageRoot: string, scope: string, directOnly: bool)
    | Project(config: string, membershipFingerprint: string, configFingerprint: string)

  datatype Candidate = Candidate(
    id: int, subject: string, selector: Selector, role: string, confidence: string,
    parent: Option<string>, depth: nat, fingerprint: string)

  datatype Member = Member(id: int, path: string, hash: string)

  datatype ScopeState = ScopeState(members: seq<Member>, fingerprint: string)

  /** The current evidence of a scope, or nothing if it cannot be read. */
  type Evidence = (string, Selector) -> Option<ScopeState>

  datatype Entry = Entry(candidate: Candidate, members: seq<Member>)

  datatype PolicyRow = PolicyRow(
    classification: int, subject: string, scopeRole: string, effectiveRole: string, sourceHash: string, depth: nat)

  datatype CurrentRow = CurrentRow(classification: int, memberCount: nat, conflictFiles: nat)

  datatype Tables = Tables(filePolicy: map<int, PolicyRow>, current: map<string, CurrentRow>)

  const EMPTY := Tables(map[], map[])

  // ---------------------------------------------------------------- roles

  /** Test, fixture and generated are facts about the artifact that no scope erases. */
  function EffectiveFileRole(deterministic: string, scopeRole: string): string {
    if deterministic == "test" || deterministic == "fixture" || deterministic == "generated"
    then deterministic else scopeRole
  }

  predicate Actionable(c: Candidate) {
    c.confidence == "likely" && c.role in {"runtime", "tooling", "documentation", "test", "generated"}
  }

  function DeterministicRole(roles: map<int, string>, file: int): string {
    if file in roles then roles[file] else "unknown"
  }

  // ---------------------------------------------------------------- precedence

  /** Number of non-empty parts of a path; `inPart` says whether one is being read. */
  function Parts(path: string, inPart: bool): nat {
    if path == "" then 0
    else if path[0] == '/' then Parts(path[1..], false)
    else Parts(path[1..], true) + (if inPart then 0 else 1)
  }

  function ScopeComponents(scope: string): nat {
    if scope == "." || scope == "" then 0 else Parts(scope, false)
  }

  function Specificity(s: Selector): nat {
    if s.Project? then 0 else ScopeComponents(s.scope) + (if s.directOnly then 1 else 0)
  }

  /** At most as specific, then at most as deep, then at most as new. */
  predicate NotAbove(a: Entry, b: Entry) {
    var x, y := Specificity(a.candidate.selector), Specificity(b.candidate.selector);
    x < y || (x == y &&
      (a.candidate.depth < b.candidate.depth || (a.candidate.depth == b.candidate.depth && a.candidate.id <= b.candidate.id)))
  }

  lemma NotAboveOrders()
    ensures Sorting.TotalPreorder(NotAbove)
  {
  }

  // ---------------------------------------------------------------- what reconciliation means

  predicate Exact(evidence: Evidence, c: Candidate) {
    var state := evidence(c.subject, c.selector);
    state.Some? && state.value.fingerprint == c.fingerprint
  }

  /** Each subject with an exact match is represented by the newest one. */
  ghost predicate NewestExact(candidates: seq<Candidate>, evidence: Evidence, current: map<string, Entry>) {
    && (forall s :: s in current ==>
          var e := current[s];
          && e.candidate in candidates && e.candidate.subject == s && Exact(evidence, e.candidate)
          && e.members == evidence(s, e.candidate.selector).value.members)
    && (forall c :: c in candidates && Exact(evidence, c) ==>
          c.subject in current && c.id <= current[c.subject].candidate.id)
  }

  function ParentsOf(current: map<string, Entry>): Parents {
    map s | s in current :: current[s].candidate.parent
  }

  function Definite(current: map<string, Entry>): set<string> {
    set s | s in current && Actionable(current[s].candidate)
  }

  ghost predicate Active(current: map<string, Entry>, s: string) {
    s in current && !HasAncestorIn(ParentsOf(current), s, Definite(current))
  }

  predicate Contains(e: Entry, file: int) {
    exists m :: m in e.members && m.id == file
  }

  /** `s` may decide the policy of `file`. */
  ghost predicate Applies(current: map<string, Entry>, s: string, file: int) {
    Active(current, s) && Actionable(current[s].candidate) && Contains(current[s], file)
  }

  /** Among the subjects that apply to `file`, `s` is the maximum. */
  ghost predicate Decides(current: map<string, Entry>, s: string, file: int) {
    && Applies(current, s, file)
    && forall t :: Applies(current, t, file) ==> NotAbove(current[t], current[s])
  }

  function RowFor(roles: map<int, string>, e: Entry, m: Member): PolicyRow {
    PolicyRow(e.candidate.id, e.candidate.subject, e.candidate.role,
              EffectiveFileRole(DeterministicRole(roles, m.id), e.candidate.role), m.hash, e.candidate.depth)
  }

  function Conflicts(roles: map<int, string>, e: Entry, members: seq<Member>): nat {
    if members == [] then 0
    else
      var m := members[|members| - 1];
      Conflicts(roles, e, members[..|members| - 1])
      + (if Actionable(e.candidate)
            && EffectiveFileRole(DeterministicRole(roles, m.id), e.candidate.role) != e.candidate.role then 1 else 0)
  }

  function CurrentRowFor(roles: map<int, string>, e: Entry): CurrentRow {
    CurrentRow(e.candidate.id, |e.members|, Conflicts(roles, e, e.members))
  }

  /** The tables are the projection of the current classifications. */
  ghost predicate Projects(current: map<string, Entry>, roles: map<int, string>, t: Tables) {
    && (forall s :: s in t.current <==> Active(current, s))
    && (forall s :: s in t.current ==> t.current[s] == CurrentRowFor(roles, current[s]))
    && (forall f :: f in t.filePolicy <==> exists s :: Decides(current, s, f))
    && (forall f, s, m :: f in t.filePolicy && Decides(current, s, f) && m in current[s].members && m.id == f ==>
          t.filePolicy[f] == RowFor(roles, current[s], m))
  }

  ghost predicate Reconciled(candidates: seq<Candidate>, evidence: Evidence, roles: map<int, string>, t: Tables) {
    exists current: map<string, Entry> :: NewestExact(candidates, evidence, current) && Projects(current, roles, t)
  }

  /** Files have one row each, and ids are never shared: both are primary keys. */
  ghost predicate KeysAreUnique(candidates: seq<Candidate>, evidence: Evidence) {
    && (forall i, j :: 0 <= i < j < |candidates| ==> candidates[j].id < candidates[i].id)
    && (forall s, x :: evidence(s, x).Some? ==> UniqueMembers(evidence(s, x).value.members))
  }

  predicate UniqueMembers(members: seq<Member>) {
    forall i, j :: 0 <= i < j < |members| ==> members[i].id != members[j].id
  }

  // ---------------------------------------------------------------- selection

  /** The evidence of candidate `i` is wanted, as no newer one of its subject matches, and cannot be read. */
  ghost predicate Unreadable(candidates: seq<Candidate>, evidence: Evidence, i: nat) {
    && i < |candidates| && evidence(candidates[i].subject, candidates[i].selector).None?
    && forall c :: c in candidates[..i] && c.subject == candidates[i].subject ==> !Exact(evidence, c)
  }

  ghost predicate Readable(candidates: seq<Candidate>, evidence: Evidence) {
    forall i: nat :: i < |candidates| ==> !Unreadable(candidates, evidence, i)
  }

  lemma WantedIff(candidates: seq<Candidate>, evidence: Evidence, current: map<string, Entry>, i: nat)
    requires i < |candidates| && NewestExact(candidates[..i], evidence, current)
    ensures Unreadable(candidates, evidence, i) <==>
      candidates[i].subject !in current && evidence(candidates[i].subject, candidates[i].selector).None?
  {
    if candidates[i].subject in current {
      assert current[candidates[i].subject].candidate in candidates[..i];
    }
  }

  lemma NewestSkips(seen: seq<Candidate>, c: Candidate, evidence: Evidence, current: map<string, Entry>)
    requires NewestExact(seen, evidence, current)
    requires forall x :: x in seen ==> c.id < x.id
    requires c.subject in current || !Exact(evidence, c)
    ensures NewestExact(seen + [c], evidence, current)
  {
    assert c.subject in current ==> current[c.subject].candidate in seen;
  }

  lemma NewestAdds(seen: seq<Candidate>, c: Candidate, evidence: Evidence, current: map<string, Entry>, state: ScopeState)
    requires NewestExact(seen, evidence, current)
    requires c.subject !in current && evidence(c.subject, c.selector) == Some(state) && state.fingerprint == c.fingerprint
    ensures NewestExact(seen + [c], evidence, current[c.subject := Entry(c, state.members)])
  {
  }

  /** Candidates come newest first; the first exact match of a subject is kept. */
  method SelectCurrent(candidates: seq<Candidate>, evidence: Evidence) returns (r: Option<map<string, Entry>>)
    requires KeysAreUnique(candidates, evidence)
    ensures r.Some? ==> NewestExact(candidates, evidence, r.value)
    ensures r.Some? <==> Readable(candidates, evidence)
  {
    var states: map<(string, Selector), ScopeState> := map[];
    var current: map<string, Entry> := map[];
    assert NewestExact(candidates[..0], evidence, current);
    hide NewestExact, Unreadable;
    for i := 0 to |candidates|
      invariant forall k :: k in states ==> evidence(k.0, k.1) == Some(states[k])
      invariant NewestExact(candidates[..i], evidence, current)
      invariant forall k: nat :: k < i ==> !Unreadable(candidates, evidence, k)
    {
      var c := candidates[i];
      assert candidates[..i + 1] == candidates[..i] + [c];
      WantedIff(candidates, evidence, current, i);
      if c.subject in current {
        NewestSkips(candidates[..i], c, evidence, current);
        continue;
      }
      var key := (c.subject, c.selector);
      if key !in states {
        var state := evidence(c.subject, c.selector);
        if state.None? {
          return None;
        }
        states := states[key := state.value];
      }
      assert evidence(c.subject, c.selector) == Some(states[key]);
      if states[key].fingerprint == c.fingerprint {
        NewestAdds(candidates[..i], c, evidence, current, states[key]);
        current := current[c.subject := Entry(c, states[key].members)];
      } else {
        NewestSkips(candidates[..i], c, evidence, current);
      }
    }
    assert candidates[..|candidates|] == candidates;
    return Some(current);
  }

  /** The entries that no definite ancestor suppresses. */
  method SelectActive(current: map<string, Entry>) returns (active: seq<Entry>)
    requires forall s :: s in current ==> current[s].candidate.subject == s
    ensures forall e :: e in active <==> Active(current, e.candidate.subject) && e == current[e.candidate.subject]
    ensures DistinctSubjects(active)
  {
    active := [];
    var left := current.Keys;
    while left != {}
      invariant left <= current.Keys
      invariant forall e :: e in active <==>
        e.candidate.subject in current.Keys - left && Active(current, e.candidate.subject) && e == current[e.candidate.subject]
      invariant forall i, j :: 0 <= i < j < |active| ==> active[i].candidate.subject != active[j].candidate.subject
      decreases left
    {
      var s :| s in left;
      var suppressed := Suppressed(ParentsOf(current), Definite(current), s);
      if !suppressed {
        active := active + [current[s]];
      }
      left := left - {s};
    }
  }

  function Filter(active: seq<Entry>): (chosen: seq<Entry>)
    ensures forall e :: e in chosen <==> e in active && Actionable(e.candidate)
  {
    if active == [] then []
    else
      var last := active[|active| - 1];
      assert active == active[..|active| - 1] + [last];
      Filter(active[..|active| - 1]) + (if Actionable(last.candidate) then [last] else [])
  }

  /** The rows inserted for these entries, one after the other. */
  function CurrentRows(active: seq<Entry>, roles: map<int, string>): map<string, CurrentRow> {
    if active == [] then map[]
    else
      var last := active[|active| - 1];
      CurrentRows(active[..|active| - 1], roles)[last.candidate.subject := CurrentRowFor(roles, last)]
  }

  lemma LastIsNew(active: seq<Entry>)
    requires DistinctSubjects(active) && active != []
    ensures forall e :: e in active[..|active| - 1] ==> e.candidate.subject != active[|active| - 1].candidate.subject
  {
    var init, last := active[..|active| - 1], active[|active| - 1];
    forall e | e in init
      ensures e.candidate.subject != last.candidate.subject
    {
      var i :| 0 <= i < |init| && init[i] == e;
      assert active[i] == e;
    }
  }

  lemma CurrentOfExtends(init: seq<Entry>, last: Entry, roles: map<int, string>, rows: map<string, CurrentRow>)
    requires CurrentOf(init, roles, rows)
    requires forall e :: e in init ==> e.candidate.subject != last.candidate.subject
    ensures CurrentOf(init + [last], roles, rows[last.candidate.subject := CurrentRowFor(roles, last)])
  {
    var all := init + [last];
    assert last in all && forall e :: e in all <==> e in init || e == last;
  }

  lemma {:induction false} CurrentRowsOf(active: seq<Entry>, roles: map<int, string>)
    requires DistinctSubjects(active)
    ensures CurrentOf(active, roles, CurrentRows(active, roles))
  {
    if active == [] {
    } else {
      hide CurrentOf;
      var init, last := active[..|active| - 1], active[|active| - 1];
      CurrentRowsOf(init, roles);
      LastIsNew(active);
      CurrentOfExtends(init, last, roles, CurrentRows(init, roles));
      assert active == init + [last];
    }
  }

  predicate DistinctSubjects(active: seq<Entry>) {
    forall i, j :: 0 <= i < j < |active| ==> active[i].candidate.subject != active[j].candidate.subject
  }

  ghost predicate CurrentOf(active: seq<Entry>, roles: map<int, string>, rows: map<string, CurrentRow>) {
    && (forall s :: s in rows <==> exists e :: e in active && e.candidate.subject == s)
    && (forall e :: e in active ==> rows[e.candidate.subject] == CurrentRowFor(roles, e))
  }

  /** The subjects that no definite one above them suppresses, each once. */
  ghost predicate ActiveEntries(current: map<string, Entry>, active: seq<Entry>) {
    && (forall s :: s in current ==> current[s].candidate.subject == s && UniqueMembers(current[s].members))
    && (forall s, t :: s in current && t in current && s != t ==> current[s].candidate.id != current[t].candidate.id)
    && (forall e :: e in active <==> Active(current, e.candidate.subject) && e == current[e.candidate.subject])
    && DistinctSubjects(active)
  }

  predicate AllUnique(selected: seq<Entry>) {
    forall e :: e in selected ==> UniqueMembers(e.members)
  }

  /** What is to be written: the active entries, and the actionable ones of them in ascending order. */
  ghost predicate Chosen(current: map<string, Entry>, active: seq<Entry>, selected: seq<Entry>) {
    ActiveEntries(current, active) && AllUnique(selected) && SelectedFrom(current, selected) && DistinctSubjects(selected)
  }

  lemma AscendingLists(chosen: seq<Entry>)
    ensures Sorting.Sorted(Sorting.Sort(chosen, NotAbove), NotAbove)
    ensures forall e :: e in Sorting.Sort(chosen, NotAbove) <==> e in chosen
  {
    var selected := Sorting.Sort(chosen, NotAbove);
    NotAboveOrders();
    Sorting.SortSorts(chosen, NotAbove);
    assert forall e :: e in selected <==> e in multiset(selected);
    assert forall e :: e in chosen <==> e in multiset(chosen);
  }

  lemma {:induction false} FilterIsPart(active: seq<Entry>)
    ensures multiset(Filter(active)) <= multiset(active)
  {
    if active != [] {
      var init, last := active[..|active| - 1], active[|active| - 1];
      FilterIsPart(init);
      assert active == init + [last];
    }
  }

  /** Each entry is there at most once. */
  lemma {:induction false} DistinctIsOnce(active: seq<Entry>, e: Entry)
    requires DistinctSubjects(active)
    ensures multiset(active)[e] <= 1
  {
    if active != [] {
      var init, last := active[..|active| - 1], active[|active| - 1];
      DistinctIsOnce(init, e);
      LastIsNew(active);
      assert active == init + [last];
    }
  }

  lemma TwiceIsTwo(list: seq<Entry>, i: nat, k: nat)
    requires i < k < |list| && list[i] == list[k]
    ensures multiset(list)[list[i]] >= 2
  {
    assert list == list[..k] + [list[k]] + list[k + 1..];
    assert list[i] in list[..k];
  }

  /** A rearrangement of some of the active entries has each subject once, too. */
  lemma PartIsDistinct(active: seq<Entry>, list: seq<Entry>)
    requires DistinctSubjects(active) && multiset(list) <= multiset(active)
    ensures DistinctSubjects(list)
  {
    forall i, k | 0 <= i < k < |list|
      ensures list[i].candidate.subject != list[k].candidate.subject
    {
      assert list[i] in multiset(list) && list[k] in multiset(list);
      assert list[i] in active && list[k] in active;
      if list[i] == list[k] {
        TwiceIsTwo(list, i, k);
        DistinctIsOnce(active, list[i]);
        assert false;
      }
    }
  }

  lemma SortedIsChosen(current: map<string, Entry>, active: seq<Entry>, selected: seq<Entry>)
    requires ActiveEntries(current, active) && Sorting.Sorted(selected, NotAbove)
    requires forall e :: e in selected <==> e in active && Actionable(e.candidate)
    requires multiset(selected) <= multiset(active)
    ensures Chosen(current, active, selected)
  {
    PartIsDistinct(active, selected);
  }

  lemma RowsProject(current: map<string, Entry>, active: seq<Entry>, selected: seq<Entry>, roles: map<int, string>, t: Tables)
    requires Chosen(current, active, selected) && LastWins(selected, roles, t.filePolicy)
    requires CurrentOf(active, roles, t.current)
    ensures Projects(current, roles, t)
  {
    forall s | s in current && Active(current, s)
      ensures current[s] in active
    {
    }
    LastWinsProjects(current, selected, roles, t);
  }

  // ---------------------------------------------------------------- the connection

  datatype Failure = EvidenceUnreadable | BeginFailed | StatementFailed | CommitFailed

  /** How many rows the upserts of these entries write. */
  function Upserts(selected: seq<Entry>): nat {
    if selected == [] then 0 else Upserts(selected[..|selected| - 1]) + |selected[|selected| - 1].members|
  }

  lemma {:induction false} UpsertsOfPrefix(selected: seq<Entry>, i: nat)
    requires i < |selected|
    ensures Upserts(selected[..i + 1]) == Upserts(selected[..i]) + |selected[i].members| <= Upserts(selected)
  {
    assert selected[..i + 1][..i] == selected[..i];
    if i + 1 < |selected| {
      UpsertsOfPrefix(selected[..|selected| - 1], i);
      assert selected[..|selected| - 1][..i + 1] == selected[..i + 1];
      assert selected[..|selected| - 1][..i] == selected[..i];
    } else {
      assert selected[..i + 1] == selected;
    }
  }

  /** Two deletions, one query, and one statement for each row. */
  function Statements(active: seq<Entry>, selected: seq<Entry>): nat {
    3 + |active| + Upserts(selected)
  }

  lemma SomeElement(s: seq<Entry>)
    ensures s != [] ==> exists e :: e in s
  {
    if s != [] {
      assert s[0] in s;
    }
  }

  lemma NothingToWrite(
      candidates: seq<Candidate>, evidence: Evidence, current: map<string, Entry>, active: seq<Entry>, selected: seq<Entry>)
    requires NewestExact(candidates, evidence, current) && Chosen(current, active, selected)
    ensures candidates == [] ==> Statements(active, selected) == 3
  {
    forall e | e in active || e in selected
      ensures e.candidate in candidates
    {
      assert e == current[e.candidate.subject];
    }
    SomeElement(active);
    SomeElement(selected);
  }

  /** The entries to write, and the newest exact classifications that they come from. */
  method SelectEntries(candidates: seq<Candidate>, evidence: Evidence)
    returns (ok: bool, active: seq<Entry>, selected: seq<Entry>, ghost current: map<string, Entry>)
    requires KeysAreUnique(candidates, evidence)
    ensures ok <==> Readable(candidates, evidence)
    ensures ok ==> NewestExact(candidates, evidence, current) && Chosen(current, active, selected)
    ensures ok && candidates == [] ==> Statements(active, selected) == 3
  {
    hide Readable, Statements, Chosen;
    var selection := SelectCurrent(candidates, evidence);
    active, selected, current := [], [], map[];
    if selection.None? {
      return false, active, selected, current;
    }
    current := selection.value;
    active := SelectActive(selection.value);
    DistinctIds(candidates, evidence, current);
    selected := Sorting.Sort(Filter(active), NotAbove);
    AscendingLists(Filter(active));
    FilterIsPart(active);
    SortedIsChosen(current, active, selected);
    NothingToWrite(candidates, evidence, current, active, selected);
    ok := true;
  }

  /** The number of the COMMIT of a reconciliation that begins with statement `start`. */
  ghost predicate CommitsAt(candidates: seq<Candidate>, evidence: Evidence, start: nat, commit: nat) {
    exists current: map<string, Entry>, active: seq<Entry>, selected: seq<Entry> ::
      && NewestExact(candidates, evidence, current) && Chosen(current, active, selected)
      && commit == start + 1 + Statements(active, selected)
  }

  lemma {:induction false} UpsertsWithout(selected: seq<Entry>, i: nat)
    requires i < |selected|
    ensures Upserts(selected) == Upserts(selected[..i] + selected[i + 1..]) + |selected[i].members|
  {
    var last := |selected| - 1;
    if i == last {
      assert selected[..i] + selected[i + 1..] == selected[..last];
    } else {
      UpsertsWithout(selected[..last], i);
      var rest := selected[..i] + selected[i + 1..];
      assert rest[..|rest| - 1] == selected[..last][..i] + selected[..last][i + 1..];
      assert rest[|rest| - 1] == selected[last];
    }
  }

  /** Lists of the same entries, each once, take the same number of statements. */
  lemma {:induction false} SameEntries(a: seq<Entry>, b: seq<Entry>)
    requires DistinctSubjects(a) && DistinctSubjects(b) && forall e :: e in a <==> e in b
    ensures |a| == |b| && Upserts(a) == Upserts(b)
    decreases |a|
  {
    if a == [] {
      SomeElement(b);
    } else {
      var init, last := a[..|a| - 1], a[|a| - 1];
      assert last in b;
      var i :| 0 <= i < |b| && b[i] == last;
      var rest := b[..i] + b[i + 1..];
      LastIsNew(a);
      forall e
        ensures e in init <==> e in rest
      {
        WithoutOne(a, b, i, e);
      }
      SameEntries(init, rest);
      UpsertsWithout(b, i);
    }
  }

  lemma WithoutOne(a: seq<Entry>, b: seq<Entry>, i: nat, e: Entry)
    requires DistinctSubjects(a) && DistinctSubjects(b) && a != [] && i < |b| && b[i] == a[|a| - 1]
    requires e in a <==> e in b
    ensures e in a[..|a| - 1] <==> e in b[..i] + b[i + 1..]
  {
    var init, last, rest := a[..|a| - 1], a[|a| - 1], b[..i] + b[i + 1..];
    LastIsNew(a);
    assert a == init + [last];
    if e in rest {
      var k :| 0 <= k < |rest| && rest[k] == e;
      assert e == b[if k < i then k else k + 1];
    }
    if e in init {
      var k :| 0 <= k < |b| && b[k] == e;
      assert k != i && e == rest[if k < i then k else k - 1];
    }
  }

  /** The number of the COMMIT, and with it the answer, follows from what is reconciled. */
  lemma CommitIsFixed(candidates: seq<Candidate>, evidence: Evidence, start: nat, x: nat, y: nat)
    requires KeysAreUnique(candidates, evidence)
    requires CommitsAt(candidates, evidence, start, x) && CommitsAt(candidates, evidence, start, y)
    ensures x == y
  {
    var a: map<string, Entry>, p: seq<Entry>, q: seq<Entry> :|
      NewestExact(candidates, evidence, a) && Chosen(a, p, q) && x == start + 1 + Statements(p, q);
    var b: map<string, Entry>, r: seq<Entry>, t: seq<Entry> :|
      NewestExact(candidates, evidence, b) && Chosen(b, r, t) && y == start + 1 + Statements(r, t);
    NewestIsUnique(candidates, evidence, a, b);
    SameEntries(p, r);
    SameEntries(q, t);
  }

  /** What a reconciliation answers that begins with statement `start` and commits with `commit`. */
  ghost function Answer(candidates: seq<Candidate>, evidence: Evidence, fails: nat -> bool, start: nat, commit: nat): Result<(), Failure> {
    if !Readable(candidates, evidence) then Err(EvidenceUnreadable)
    else if fails(start) then Err(BeginFailed)
    else if !Clean(fails, start, commit) then Err(StatementFailed)
    else if fails(commit) then Err(CommitFailed)
    else Ok(())
  }

  ghost predicate Clean(fails: nat -> bool, from: nat, to: nat) {
    forall k :: from <= k < to ==> !fails(k)
  }

  /** The policy tables as one connection sees them, and as they are committed. */
  class Connection {
    var live: Tables
    var committed: Tables
    var inTransaction: bool
    var clock: nat
    /** Which of the statements, counted from the start, fail. */
    const fails: nat -> bool

    constructor (tables: Tables, fails: nat -> bool)
      ensures live == committed == tables && !inTransaction && clock == 0 && this.fails == fails
    {
      live, committed := tables, tables;
      inTransaction, clock := false, 0;
      this.fails := fails;
    }

    method Execute() returns (ok: bool)
      modifies this`clock
      ensures clock == old(clock) + 1
      ensures ok == !fails(old(clock))
    {
      ok := !fails(clock);
      clock := clock + 1;
    }

    /** `count` statements were to run since `from`, and the first that failed was the last. */
    ghost predicate Ran(from: nat, count: nat, ok: bool)
      reads this`clock
    {
      && ok == Clean(fails, from, from + count)
      && from <= clock <= from + count && (ok ==> clock == from + count)
    }

    /** One row for each active subject. */
    method InsertCurrent(active: seq<Entry>, roles: map<int, string>) returns (ok: bool)
      requires DistinctSubjects(active)
      requires live.current == map[]
      modifies this`live, this`clock
      ensures Ran(old(clock), |active|, ok)
      ensures live.filePolicy == old(live.filePolicy)
      ensures ok ==> CurrentOf(active, roles, live.current)
    {
      hide CurrentOf, DistinctSubjects;
      for i := 0 to |active|
        invariant clock == old(clock) + i && Clean(fails, old(clock), clock)
        invariant live.filePolicy == old(live.filePolicy)
        invariant live.current == CurrentRows(active[..i], roles)
      {
        ok := Execute();
        if !ok {
          return;
        }
        assert active[..i + 1][..i] == active[..i];
        live := live.(current := live.current[active[i].candidate.subject := CurrentRowFor(roles, active[i])]);
      }
      assert active[..|active|] == active;
      CurrentRowsOf(active, roles);
      ok := true;
    }

    /** The rows of one subject replace whatever was written before them. */
    method UpsertMembers(e: Entry, roles: map<int, string>) returns (ok: bool)
      requires UniqueMembers(e.members)
      modifies this`live, this`clock
      ensures Ran(old(clock), |e.members|, ok)
      ensures live.current == old(live.current)
      ensures ok ==> forall f :: f in live.filePolicy <==> f in old(live.filePolicy) || Contains(e, f)
      ensures ok ==> forall f :: f in old(live.filePolicy) && !Contains(e, f) ==> live.filePolicy[f] == old(live.filePolicy)[f]
      ensures ok ==> forall m :: m in e.members ==> m.id in live.filePolicy && live.filePolicy[m.id] == RowFor(roles, e, m)
    {
      for i := 0 to |e.members|
        invariant clock == old(clock) + i && Clean(fails, old(clock), clock)
        invariant live.current == old(live.current)
        invariant forall f :: f in live.filePolicy <==> f in old(live.filePolicy) || exists k :: 0 <= k < i && e.members[k].id == f
        invariant forall f :: f in old(live.filePolicy) && !Contains(e, f) ==> live.filePolicy[f] == old(live.filePolicy)[f]
        invariant forall k :: 0 <= k < i ==> live.filePolicy[e.members[k].id] == RowFor(roles, e, e.members[k])
      {
        ok := Execute();
        if !ok {
          return;
        }
        var m := e.members[i];
        assert Contains(e, m.id);
        ghost var before := live.filePolicy;
        live := live.(filePolicy := live.filePolicy[m.id := RowFor(roles, e, m)]);
        assert forall f :: f in live.filePolicy <==> f in before || f == m.id;
      }
      ok := true;
    }

    /** Ascending upserts: what remains is the row of the last subject of each file. */
    method UpsertAll(selected: seq<Entry>, roles: map<int, string>) returns (ok: bool)
      requires AllUnique(selected)
      requires live.filePolicy == map[]
      modifies this`live, this`clock
      ensures Ran(old(clock), Upserts(selected), ok)
      ensures live.current == old(live.current)
      ensures ok ==> LastWins(selected, roles, live.filePolicy)
    {
      for i := 0 to |selected|
        invariant clock == old(clock) + Upserts(selected[..i]) && Clean(fails, old(clock), clock)
        invariant live.current == old(live.current)
        invariant LastWins(selected[..i], roles, live.filePolicy)
      {
        assert selected[i] in selected;
        UpsertsOfPrefix(selected, i);
        ghost var before := live.filePolicy;
        ok := UpsertMembers(selected[i], roles);
        if !ok {
          return;
        }
        LastWinsExtends(selected[..i], selected[i], roles, before, live.filePolicy);
        assert selected[..i + 1] == selected[..i] + [selected[i]];
      }
      assert selected[..|selected|] == selected;
      ok := true;
    }

    /** `ROLLBACK`, whose own failure is ignored. */
    method Rollback()
      modifies this`live, this`inTransaction, this`clock
      ensures clock == old(clock) + 1
      ensures fails(old(clock)) ==> live == old(live) && inTransaction == old(inTransaction)
      ensures !fails(old(clock)) ==> live == committed && !inTransaction
    {
      var ok := Execute();
      if ok {
        live, inTransaction := committed, false;
      }
    }

    /** The deletions, and the query for the roles of the files. */
    method Truncate() returns (ok: bool)
      modifies this`live, this`clock
      ensures Ran(old(clock), 3, ok)
      ensures ok ==> live == EMPTY
    {
      ok := Execute();
      if !ok { return; }
      live := live.(filePolicy := map[]);
      ok := Execute();
      if !ok { return; }
      live := live.(current := map[]);
      ok := Execute();
    }

    method WriteRows(active: seq<Entry>, selected: seq<Entry>, roles: map<int, string>) returns (ok: bool)
      requires DistinctSubjects(active) && live == EMPTY
      requires AllUnique(selected)
      modifies this`live, this`clock
      ensures Ran(old(clock), |active| + Upserts(selected), ok)
      ensures ok ==> CurrentOf(active, roles, live.current) && LastWins(selected, roles, live.filePolicy)
    {
      hide LastWins, CurrentOf, DistinctSubjects;
      ok := InsertCurrent(active, roles);
      if !ok { return; }
      ok := UpsertAll(selected, roles);
    }

    /** Everything between BEGIN and COMMIT. */
    method WriteTables(ghost current: map<string, Entry>, active: seq<Entry>, selected: seq<Entry>, roles: map<int, string>)
      returns (ok: bool)
      requires Chosen(current, active, selected)
      modifies this`live, this`clock
      ensures Ran(old(clock), Statements(active, selected), ok)
      ensures ok ==> Projects(current, roles, live)
    {
      assert DistinctSubjects(active) && AllUnique(selected);
      hide Chosen, Projects, LastWins, CurrentOf, DistinctSubjects, AllUnique;
      ok := Truncate();
      if !ok { return; }
      ok := WriteRows(active, selected, roles);
      if ok {
        RowsProject(current, active, selected, roles, live);
      }
    }

    /** BEGIN, the writes, and COMMIT or ROLLBACK. */
    method Transact(ghost current: map<string, Entry>, active: seq<Entry>, selected: seq<Entry>, roles: map<int, string>)
      returns (r: Result<(), Failure>)
      requires Chosen(current, active, selected)
      requires !inTransaction && live == committed
      modifies this
      ensures clock > old(clock)
      ensures r.Ok? || r == Err(CommitFailed) ==> clock == old(clock) + 2 + Statements(active, selected)
      ensures r == if fails(old(clock)) then Err(BeginFailed)
                   else if !Clean(fails, old(clock), old(clock) + 1 + Statements(active, selected)) then Err(StatementFailed)
                   else if fails(old(clock) + 1 + Statements(active, selected)) then Err(CommitFailed)
                   else Ok(())
      ensures inTransaction <==> r == Err(CommitFailed) || (r == Err(StatementFailed) && fails(clock - 1))
      ensures r.Ok? ==> Projects(current, roles, live)
      ensures r.Err? ==> committed == old(committed)
      ensures !inTransaction ==> live == committed
    {
      hide Chosen, Projects, Statements;
      var ok := Execute();
      if !ok {
        return Err(BeginFailed);
      }
      inTransaction := true;
      ok := WriteTables(current, active, selected, roles);
      if !ok {
        Rollback();
        return Err(StatementFailed);
      }
      ok := Execute();
      if !ok {
        return Err(CommitFailed);
      }
      committed, inTransaction := live, false;
      return Ok(());
    }

    /**
     * `reconcile_file_policy`. Its transaction stays open exactly if the COMMIT failed, or a
     * statement and then the ROLLBACK: nothing rolls back after a failed COMMIT.
     */
    method Reconcile(candidates: seq<Candidate>, evidence: Evidence, roles: map<int, string>)
      returns (r: Result<(), Failure>, ghost commit: nat)
      requires KeysAreUnique(candidates, evidence)
      requires !inTransaction && live == committed
      modifies this
      ensures clock >= old(clock)
      ensures r == Answer(candidates, evidence, fails, old(clock), commit)
      ensures inTransaction <==> r == Err(CommitFailed) || (r == Err(StatementFailed) && clock > 0 && fails(clock - 1))
      ensures r.Ok? ==> Reconciled(candidates, evidence, roles, live)
      ensures r.Err? ==> committed == old(committed)
      ensures !inTransaction ==> live == committed
      ensures r != Err(EvidenceUnreadable) ==> CommitsAt(candidates, evidence, old(clock), commit)
      ensures candidates == [] ==> commit == old(clock) + 4
      ensures r.Ok? || r == Err(CommitFailed) ==> clock == commit + 1
    {
      hide Chosen, Projects, Statements, NewestExact, Readable;
      commit := clock + 4;
      var ok, active, selected, current := SelectEntries(candidates, evidence);
      if !ok {
        return Err(EvidenceUnreadable), commit;
      }
      commit := clock + 1 + Statements(active, selected);
      assert CommitsAt(candidates, evidence, clock, commit);
      r := Transact(current, active, selected, roles);
    }

    /** The two deletions that clear the policy, each committed at once outside a transaction. */
    method Clear() returns (cleared: bool)
      modifies this
      ensures inTransaction == old(inTransaction)
      ensures cleared == (!fails(old(clock)) && !fails(old(clock) + 1)) && (cleared ==> clock == old(clock) + 2)
      ensures live == Emptied(old(live), !fails(old(clock)), cleared)
      ensures committed == if inTransaction || fails(old(clock)) then old(committed) else live
    {
      cleared := Execute();
      if !cleared { return; }
      live := live.(filePolicy := map[]);
      if !inTransaction { committed := live; }
      cleared := Execute();
      if !cleared { return; }
      live := live.(current := map[]);
      if !inTransaction { committed := live; }
    }

    /**
     * Publication never depends on the policy: after an error the tables are cleared.
     * In a transaction that stayed open the clearing is visible on this connection only.
     */
    method ReconcileAfterIndex(candidates: seq<Candidate>, evidence: Evidence, roles: map<int, string>)
      returns (r: Result<(), Failure>, cleared: bool, ghost commit: nat, ghost last: nat)
      requires KeysAreUnique(candidates, evidence)
      requires !inTransaction && live == committed
      modifies this
      ensures r == Answer(candidates, evidence, fails, old(clock), commit) && last >= old(clock)
      ensures r != Err(EvidenceUnreadable) ==> CommitsAt(candidates, evidence, old(clock), commit)
      ensures candidates == [] ==> commit == old(clock) + 4
      ensures r.Ok? || r == Err(CommitFailed) ==> last == commit + 1
      ensures inTransaction <==> r == Err(CommitFailed) || (r == Err(StatementFailed) && last > 0 && fails(last - 1))
      ensures r.Ok? ==> !inTransaction && live == committed && Reconciled(candidates, evidence, roles, live)
      ensures cleared == (r.Err? && !fails(last) && !fails(last + 1))
      ensures r.Err? && cleared ==> live == EMPTY && committed == if inTransaction then old(committed) else EMPTY
      ensures inTransaction ==> committed == old(committed)
      ensures r.Err? && !inTransaction ==> live == committed == Emptied(old(committed), !fails(last), cleared)
    {
      r, commit := Reconcile(candidates, evidence, roles);
      cleared, last := false, clock;
      if r.Err? {
        cleared := Clear();
      }
    }
  }

  function Emptied(t: Tables, first: bool, second: bool): Tables {
    Tables(if first then map[] else t.filePolicy, if second then map[] else t.current)
  }

  // ---------------------------------------------------------------- a transaction that stays open

  /** Without any classification, four statements succeed and the COMMIT does not. */
  method PolicyStaysOpen(tables: Tables, evidence: Evidence, roles: map<int, string>)
    returns (c: Connection, r: Result<(), Failure>, cleared: bool)
    requires KeysAreUnique([], evidence)
    ensures fresh(c) && r == Err(CommitFailed) && cleared && c.inTransaction
    ensures c.live == EMPTY && c.committed == tables
  {
    c := new Connection(tables, k => k == 4);
    ghost var commit, last;
    r, cleared, commit, last := c.ReconcileAfterIndex([], evidence, roles);
  }

  // ---------------------------------------------------------------- last write wins

  predicate IsLast(written: seq<Entry>, i: nat, file: int) {
    forall j :: i < j < |written| ==> !Contains(written[j], file)
  }

  /** Each file has the row of the last entry in `written` that contains it. */
  ghost predicate LastWins(written: seq<Entry>, roles: map<int, string>, policy: map<int, PolicyRow>) {
    && (forall f :: f in policy <==> exists i :: 0 <= i < |written| && Contains(written[i], f))
    && (forall i, m :: 0 <= i < |written| && m in written[i].members && IsLast(written, i, m.id) ==>
          m.id in policy && policy[m.id] == RowFor(roles, written[i], m))
  }

  lemma LastWinsExtends(written: seq<Entry>, e: Entry, roles: map<int, string>, before: map<int, PolicyRow>, after: map<int, PolicyRow>)
    requires LastWins(written, roles, before)
    requires forall f :: f in after <==> f in before || Contains(e, f)
    requires forall f :: f in before && !Contains(e, f) ==> after[f] == before[f]
    requires forall m :: m in e.members ==> m.id in after && after[m.id] == RowFor(roles, e, m)
    ensures LastWins(written + [e], roles, after)
  {
    var all := written + [e];
    forall f | f in after
      ensures exists i :: 0 <= i < |all| && Contains(all[i], f)
    {
      if Contains(e, f) {
        assert Contains(all[|written|], f);
      } else {
        var i :| 0 <= i < |written| && Contains(written[i], f);
        assert Contains(all[i], f);
      }
    }
    forall i, m | 0 <= i < |all| && m in all[i].members && IsLast(all, i, m.id)
      ensures m.id in after && after[m.id] == RowFor(roles, all[i], m)
    {
      if i < |written| {
        assert !Contains(all[|written|], m.id);
        assert IsLast(written, i, m.id) by {
          forall j | i < j < |written|
            ensures !Contains(written[j], m.id)
          {
            assert !Contains(all[j], m.id);
          }
        }
      }
    }
  }

  lemma DistinctIds(candidates: seq<Candidate>, evidence: Evidence, current: map<string, Entry>)
    requires KeysAreUnique(candidates, evidence) && NewestExact(candidates, evidence, current)
    ensures forall s, t :: s in current && t in current && s != t ==> current[s].candidate.id != current[t].candidate.id
    ensures forall s :: s in current ==> current[s].candidate.subject == s && UniqueMembers(current[s].members)
  {
    forall s, t | s in current && t in current && s != t
      ensures current[s].candidate.id != current[t].candidate.id
    {
      var i :| 0 <= i < |candidates| && candidates[i] == current[s].candidate;
      var j :| 0 <= j < |candidates| && candidates[j] == current[t].candidate;
      assert i != j;
    }
  }

  /** In a sorted list the last entry that contains a file is the maximum of them. */
  lemma LastIsMaximum(selected: seq<Entry>, file: int) returns (i: nat)
    requires Sorting.Sorted(selected, NotAbove)
    requires exists k :: 0 <= k < |selected| && Contains(selected[k], file)
    ensures i < |selected| && Contains(selected[i], file)
    ensures IsLast(selected, i, file)
    ensures forall j :: 0 <= j < |selected| && Contains(selected[j], file) ==> NotAbove(selected[j], selected[i])
  {
    var last := |selected| - 1;
    if Contains(selected[last], file) {
      i := last;
      forall j | 0 <= j < |selected| && Contains(selected[j], file)
        ensures NotAbove(selected[j], selected[i])
      {
      }
    } else {
      i := LastIsMaximum(selected[..last], file);
      forall j | 0 <= j < |selected| && Contains(selected[j], file)
        ensures NotAbove(selected[j], selected[i])
      {
        assert j < last;
        assert selected[..last][j] == selected[j];
      }
    }
  }

  /** The entries of `selected` are the subjects that may decide a policy. */
  ghost predicate SelectedFrom(current: map<string, Entry>, selected: seq<Entry>) {
    && (forall s :: s in current ==> current[s].candidate.subject == s && UniqueMembers(current[s].members))
    && (forall a, b :: a in current && b in current && a != b ==> current[a].candidate.id != current[b].candidate.id)
    && (forall e :: e in selected <==>
          Active(current, e.candidate.subject) && e == current[e.candidate.subject] && Actionable(e.candidate))
    && Sorting.Sorted(selected, NotAbove)
  }

  /** The subject that decides a file is the last one in the list that contains it. */
  lemma DecidesIsLast(current: map<string, Entry>, selected: seq<Entry>, file: int, s: string) returns (i: nat)
    requires SelectedFrom(current, selected) && Decides(current, s, file)
    ensures i < |selected| && selected[i] == current[s] && IsLast(selected, i, file)
  {
    assert current[s] in selected;
    i := LastIsMaximum(selected, file);
    LastDecides(current, selected, file, i);
    var d := selected[i].candidate.subject;
    assert NotAbove(current[d], current[s]) && NotAbove(current[s], current[d]);
  }

  /** Writing the sorted actionable entries in order gives every file its maximum. */
  lemma LastWinsProjects(current: map<string, Entry>, selected: seq<Entry>, roles: map<int, string>, t: Tables)
    requires SelectedFrom(current, selected)
    requires LastWins(selected, roles, t.filePolicy)
    requires forall s :: s in t.current <==> Active(current, s)
    requires forall s :: s in t.current ==> s in current && t.current[s] == CurrentRowFor(roles, current[s])
    ensures Projects(current, roles, t)
  {
    forall f | f in t.filePolicy
      ensures exists s :: Decides(current, s, f)
    {
      var i := LastIsMaximum(selected, f);
      LastDecides(current, selected, f, i);
    }
    forall f, s | Decides(current, s, f)
      ensures f in t.filePolicy
    {
      var i := DecidesIsLast(current, selected, f, s);
    }
    forall f, s, m | f in t.filePolicy && Decides(current, s, f) && m in current[s].members && m.id == f
      ensures t.filePolicy[f] == RowFor(roles, current[s], m)
    {
      var i := DecidesIsLast(current, selected, f, s);
      assert m in selected[i].members;
    }
  }

  lemma LastDecides(current: map<string, Entry>, selected: seq<Entry>, file: int, i: nat)
    requires SelectedFrom(current, selected)
    requires i < |selected| && Contains(selected[i], file)
    requires forall j :: 0 <= j < |selected| && Contains(selected[j], file) ==> NotAbove(selected[j], selected[i])
    ensures Decides(current, selected[i].candidate.subject, file)
  {
    assert selected[i] in selected;
    var d := selected[i].candidate.subject;
    forall t | Applies(current, t, file)
      ensures NotAbove(current[t], current[d])
    {
      assert current[t] in selected;
      var j :| 0 <= j < |selected| && selected[j] == current[t];
    }
  }

  // ---------------------------------------------------------------- consequences

  /** No active subject is below a definite one, and what is suppressed is covered or cyclic. */
  lemma SuppressionIsSound(current: map<string, Entry>, s: string)
    requires s in current && !Active(current, s)
    ensures (exists t :: Reaches(ParentsOf(current), s, t) && Active(current, t) && Actionable(current[t].candidate))
       <==> !DefiniteCycleAbove(ParentsOf(current), Definite(current), s)
  {
    var parents, definite := ParentsOf(current), Definite(current);
    CoveredIffNoCycle(parents, definite, s);
    forall t | Reaches(parents, s, t)
      ensures Topmost(parents, definite, t) <==> t in current && Active(current, t) && Actionable(current[t].candidate)
    {
    }
  }

  lemma SameCandidate(candidates: seq<Candidate>, a: Candidate, b: Candidate)
    requires forall i, j :: 0 <= i < j < |candidates| ==> candidates[j].id < candidates[i].id
    requires a in candidates && b in candidates && a.id == b.id
    ensures a == b
  {
    var i :| 0 <= i < |candidates| && candidates[i] == a;
    var j :| 0 <= j < |candidates| && candidates[j] == b;
  }

  lemma NewestAgrees(candidates: seq<Candidate>, evidence: Evidence, x: map<string, Entry>, y: map<string, Entry>, s: string)
    requires KeysAreUnique(candidates, evidence)
    requires NewestExact(candidates, evidence, x) && NewestExact(candidates, evidence, y) && s in x
    ensures s in y && x[s] == y[s]
  {
    assert Exact(evidence, x[s].candidate);
    SameCandidate(candidates, x[s].candidate, y[s].candidate);
  }

  lemma NewestIsUnique(candidates: seq<Candidate>, evidence: Evidence, x: map<string, Entry>, y: map<string, Entry>)
    requires KeysAreUnique(candidates, evidence)
    requires NewestExact(candidates, evidence, x) && NewestExact(candidates, evidence, y)
    ensures x == y
  {
    forall s | s in x
      ensures s in y && x[s] == y[s]
    {
      NewestAgrees(candidates, evidence, x, y, s);
    }
    forall s | s in y
      ensures s in x
    {
      NewestAgrees(candidates, evidence, y, x, s);
    }
  }

  lemma SamePolicy(candidates: seq<Candidate>, evidence: Evidence, roles: map<int, string>, current: map<string, Entry>, x: Tables, y: Tables, f: int)
    requires KeysAreUnique(candidates, evidence) && NewestExact(candidates, evidence, current)
    requires Projects(current, roles, x) && Projects(current, roles, y) && f in x.filePolicy
    ensures f in y.filePolicy && x.filePolicy[f] == y.filePolicy[f]
  {
    var s :| Decides(current, s, f);
    var m :| m in current[s].members && m.id == f;
  }

  lemma ProjectionIsUnique(candidates: seq<Candidate>, evidence: Evidence, roles: map<int, string>, current: map<string, Entry>, x: Tables, y: Tables)
    requires KeysAreUnique(candidates, evidence) && NewestExact(candidates, evidence, current)
    requires Projects(current, roles, x) && Projects(current, roles, y)
    ensures x == y
  {
    assert x.current == y.current;
    forall f | f in x.filePolicy
      ensures f in y.filePolicy && x.filePolicy[f] == y.filePolicy[f]
    {
      SamePolicy(candidates, evidence, roles, current, x, y, f);
    }
    forall f | f in y.filePolicy
      ensures f in x.filePolicy
    {
      SamePolicy(candidates, evidence, roles, current, y, x, f);
    }
    assert x.filePolicy == y.filePolicy;
  }

  /** Candidates, evidence and roles leave no choice: there is one reconciled result. */
  lemma ReconciledUnique(candidates: seq<Candidate>, evidence: Evidence, roles: map<int, string>, x: Tables, y: Tables)
    requires KeysAreUnique(candidates, evidence)
    requires Reconciled(candidates, evidence, roles, x) && Reconciled(candidates, evidence, roles, y)
    ensures x == y
  {
    var a: map<string, Entry> :| NewestExact(candidates, evidence, a) && Projects(a, roles, x);
    var b: map<string, Entry> :| NewestExact(candidates, evidence, b) && Projects(b, roles, y);
    NewestIsUnique(candidates, evidence, a, b);
    ProjectionIsUnique(candidates, evidence, roles, a, x, y);
  }
}
