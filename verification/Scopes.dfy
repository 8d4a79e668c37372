/**
 * What the policy of a file says of the classifications it comes from: how scopes
 * of paths take precedence over one another, who is suppressed, and what a row holds.
 */
module Scopes {
  import opened Wrappers
  import opened Ancestry
  import opened Recon

  // ---------------------------------------------------------------- scopes of paths

  /** `path_in_scope`. */
  predicate PathInScope(path: string, scope: string, directOnly: bool) {
    if scope == "." || scope == "" then !directOnly || '/' !in path
    else
      || path == scope
      || (scope + "/" <= path && (!directOnly || '/' !in path[|scope| + 1..]))
  }

  predicate HasPart(path: string) {
    exists i :: 0 <= i < |path| && path[i] != '/'
  }

  /** The characters from `i` to `j` are the ones that are no slashes. */
  predicate IsName(path: string, i: nat, j: nat) {
    forall k :: 0 <= k < |path| ==> (path[k] != '/' <==> i <= k < j)
  }

  /** `path` is one name, with nothing but slashes around it. */
  predicate OnePart(path: string) {
    exists i, j :: 0 <= i < j <= |path| && IsName(path, i, j)
  }

  /** Scope `inner` is scope `outer` followed by a slash and the names in `rest`. */
  predicate Inside(outer: string, inner: string, rest: string) {
    && HasPart(rest)
    && if outer == "." || outer == "" then inner == rest != "." else inner == outer + "/" + rest
  }

  lemma {:induction false} JoinedParts(a: string, b: string, inPart: bool)
    ensures Parts(a + "/" + b, inPart) == Parts(a, inPart) + Parts(b, false)
  {
    var path := a + "/" + b;
    if a == "" {
      assert path[1..] == b;
    } else {
      assert path[1..] == a[1..] + "/" + b;
      JoinedParts(a[1..], b, a[0] != '/');
    }
  }

  lemma {:induction false} NoParts(path: string, inPart: bool)
    requires !HasPart(path)
    ensures Parts(path, inPart) == 0
  {
    if path != "" {
      NoParts(path[1..], false);
    }
  }

  lemma {:induction false} SomePart(path: string)
    requires HasPart(path)
    ensures Parts(path, false) >= 1
  {
    if path[0] == '/' {
      var i :| 0 <= i < |path| && path[i] != '/';
      assert path[1..][i - 1] != '/';
      SomePart(path[1..]);
    }
  }

  /** The rest of a name that has begun, and then only slashes. */
  lemma {:induction false} EndOfPart(path: string, j: nat)
    requires j <= |path| && IsName(path, 0, j)
    ensures Parts(path, true) == 0
  {
    if path != "" && path[0] != '/' {
      EndOfPart(path[1..], j - 1);
    } else {
      NoParts(path, true);
    }
  }

  lemma {:induction false} OnePartCounts(path: string)
    requires OnePart(path)
    ensures Parts(path, false) == 1
  {
    var i, j :| 0 <= i < j <= |path| && IsName(path, i, j);
    if i > 0 {
      assert IsName(path[1..], i - 1, j - 1);
      OnePartCounts(path[1..]);
    } else {
      EndOfPart(path[1..], j - 1);
    }
  }

  lemma {:induction false} NoneBeyond(path: string) returns (j: nat)
    requires Parts(path, true) == 0
    ensures j <= |path| && IsName(path, 0, j)
  {
    j := 0;
    if path != "" {
      if path[0] == '/' {
        if HasPart(path[1..]) {
          SomePart(path[1..]);
        }
        assert forall k :: 1 <= k < |path| ==> path[k] == path[1..][k - 1];
      } else {
        var i := NoneBeyond(path[1..]);
        j := i + 1;
        assert forall k :: 1 <= k < |path| ==> path[k] == path[1..][k - 1];
      }
    }
  }

  lemma {:induction false} CountsOnePart(path: string)
    requires Parts(path, false) == 1
    ensures OnePart(path)
  {
    assert forall k :: 1 <= k < |path| ==> path[k] == path[1..][k - 1];
    if path[0] == '/' {
      CountsOnePart(path[1..]);
      var i, j :| 0 <= i < j <= |path[1..]| && IsName(path[1..], i, j);
      assert IsName(path, i + 1, j + 1);
    } else {
      var j := NoneBeyond(path[1..]);
      assert IsName(path, 0, j + 1);
    }
  }

  /** Going down into a scope adds as many components as there are names on the way. */
  lemma InsideCounts(outer: string, inner: string, rest: string)
    requires Inside(outer, inner, rest)
    ensures ScopeComponents(inner) == ScopeComponents(outer) + Parts(rest, false)
    ensures Parts(rest, false) >= 1 && (Parts(rest, false) == 1 <==> OnePart(rest))
  {
    SomePart(rest);
    if Parts(rest, false) == 1 {
      CountsOnePart(rest);
    } else if OnePart(rest) {
      OnePartCounts(rest);
    }
    if outer != "." && outer != "" {
      JoinedParts(outer, rest, false);
    }
  }

  // ---------------------------------------------------------------- precedence

  /** By depth, and then by id. */
  predicate NoLater(a: Entry, b: Entry) {
    a.candidate.depth < b.candidate.depth || (a.candidate.depth == b.candidate.depth && a.candidate.id <= b.candidate.id)
  }

  /**
   * The one way in which a scope does not take precedence over the scope around
   * it: it is one name further down, and only the outer one is limited to direct files.
   */
  predicate TiesWith(inner: Entry, outer: Entry, rest: string)
    requires !inner.candidate.selector.Project? && !outer.candidate.selector.Project?
  {
    OnePart(rest) && outer.candidate.selector.directOnly && !inner.candidate.selector.directOnly
  }

  lemma NestedScopeIsAbove(outer: Entry, inner: Entry, rest: string)
    requires !inner.candidate.selector.Project? && !outer.candidate.selector.Project?
    requires Inside(outer.candidate.selector.scope, inner.candidate.selector.scope, rest)
    ensures NotAbove(inner, outer) <==> TiesWith(inner, outer, rest) && NoLater(inner, outer)
  {
    InsideCounts(outer.candidate.selector.scope, inner.candidate.selector.scope, rest);
  }

  /** In one scope, a selector of direct files is above one of all files; then depth and id decide. */
  lemma SameScopeOrder(a: Entry, b: Entry)
    requires !a.candidate.selector.Project? && !b.candidate.selector.Project?
    requires a.candidate.selector.scope == b.candidate.selector.scope
    ensures NotAbove(a, b) <==>
      || (!a.candidate.selector.directOnly && b.candidate.selector.directOnly)
      || (a.candidate.selector.directOnly == b.candidate.selector.directOnly && NoLater(a, b))
  {
  }

  /** A project counts as the whole repository. */
  lemma ProjectIsLeast(project: Entry, area: Entry)
    requires project.candidate.selector.Project? && !area.candidate.selector.Project?
    requires area.candidate.selector.directOnly || (area.candidate.selector.scope != "." && HasPart(area.candidate.selector.scope))
    ensures NotAbove(project, area) && !NotAbove(area, project)
  {
    if HasPart(area.candidate.selector.scope) {
      SomePart(area.candidate.selector.scope);
    }
  }

  lemma BelowHasSlash(path: string, scope: string, directOnly: bool)
    requires PathInScope(path, scope, directOnly) && path != scope && scope != "." && scope != ""
    ensures |scope| < |path| && path[|scope|] == '/'
  {
    assert path[..|scope| + 1] == scope + "/";
    assert path[|scope|] == path[..|scope| + 1][|scope|];
  }

  lemma SlashIsNotDirect(path: string, scope: string, k: nat)
    requires k < |path| && path[k] == '/'
    requires scope == "." || scope == "" || |scope| < k
    ensures !PathInScope(path, scope, true)
  {
    if scope != "." && scope != "" && scope + "/" <= path {
      assert path[k] == path[|scope| + 1..][k - |scope| - 1];
    }
  }

  /** A file below a scope is not directly in the scope around it, unless the inner scope is the file itself. */
  lemma DirectFilesAreNotBelow(path: string, outer: string, inner: string, rest: string, inDirect: bool)
    requires Inside(outer, inner, rest) && PathInScope(path, inner, inDirect)
    ensures PathInScope(path, outer, true) ==> path == inner
  {
    if path != inner {
      BelowHasSlash(path, inner, inDirect);
      SlashIsNotDirect(path, outer, |inner|);
    }
  }

  /** Some applicable subject of `among` is above all others of them. */
  lemma {:induction false} Maximum(current: map<string, Entry>, among: set<string>) returns (s: string)
    requires among != {} && among <= current.Keys
    ensures s in among && forall t :: t in among ==> NotAbove(current[t], current[s])
  {
    var x :| x in among;
    s := x;
    if among != {x} {
      var y := Maximum(current, among - {x});
      s := if NotAbove(current[x], current[y]) then y else x;
    }
  }

  lemma SomeoneDecides(current: map<string, Entry>, s: string, file: int)
    requires Applies(current, s, file)
    ensures exists t :: Decides(current, t, file)
  {
    var among := set t | t in current && Applies(current, t, file);
    assert s in among;
    var t := Maximum(current, among);
    hide NotAbove;
    assert Decides(current, t, file);
  }

  /**
   * The most specific scope decides: if two classifications apply to a file and the
   * scope of one is inside that of the other, the outer one does not decide the row
   * of the file, unless the inner scope names the file itself.
   */
  lemma NestedScopeDecides(current: map<string, Entry>, roles: map<int, string>, t: Tables, outer: string, inner: string, rest: string, a: Member, b: Member)
    requires Projects(current, roles, t) && forall s :: s in current ==> current[s].candidate.subject == s
    requires Applies(current, outer, a.id) && Applies(current, inner, a.id)
    requires a in current[outer].members && b in current[inner].members && a.id == b.id && a.path == b.path
    requires !current[outer].candidate.selector.Project? && !current[inner].candidate.selector.Project?
    requires var x, y := current[outer].candidate.selector, current[inner].candidate.selector;
             Inside(x.scope, y.scope, rest) && PathInScope(a.path, x.scope, x.directOnly) && PathInScope(a.path, y.scope, y.directOnly)
    requires a.path != current[inner].candidate.selector.scope
    ensures a.id in t.filePolicy && t.filePolicy[a.id].subject != outer
  {
    var x, y := current[outer].candidate.selector, current[inner].candidate.selector;
    NestedScopeIsAbove(current[outer], current[inner], rest);
    if x.directOnly {
      DirectFilesAreNotBelow(a.path, x.scope, y.scope, rest, y.directOnly);
    }
    SomeoneDecides(current, outer, a.id);
    RowOfDecider(current, roles, t, a.id, outer);
  }

  lemma RowOfDecider(current: map<string, Entry>, roles: map<int, string>, t: Tables, file: int, other: string)
    requires Projects(current, roles, t) && forall s :: s in current ==> current[s].candidate.subject == s
    requires exists s :: Decides(current, s, file)
    requires !Decides(current, other, file)
    ensures file in t.filePolicy && t.filePolicy[file].subject != other
  {
    hide NotAbove;
    var s :| Decides(current, s, file);
    var m :| m in current[s].members && m.id == file;
    assert t.filePolicy[file] == RowFor(roles, current[s], m);
  }

  /** A scope that names the file loses to the directory that the file is in, if its subject is less deep. */
  lemma FileScopeMayLose(current: map<string, Entry>, roles: map<int, string>, t: Tables, file: string, directory: string, id: int)
    requires Projects(current, roles, t) && forall s :: s in current ==> current[s].candidate.subject == s
    requires Applies(current, file, id) && Applies(current, directory, id)
    requires current[file].candidate.selector == RepositoryArea("a/b", false)
    requires current[directory].candidate.selector == RepositoryArea("a", true)
    requires current[file].candidate.depth < current[directory].candidate.depth
    ensures PathInScope("a/b", "a/b", false) && PathInScope("a/b", "a", true)
    ensures id in t.filePolicy && t.filePolicy[id].subject != file
  {
    assert "a" + "/" + "b" == "a/b";
    assert "b"[0] != '/';
    OneName("b");
    NestedScopeIsAbove(current[directory], current[file], "b");
    hide NotAbove;
    SomeoneDecides(current, file, id);
    RowOfDecider(current, roles, t, id, file);
  }

  lemma OneName(path: string)
    requires path != "" && '/' !in path
    ensures OnePart(path)
  {
    assert IsName(path, 0, |path|);
  }

  // ---------------------------------------------------------------- suppression

  /** Each subject of the chain is current and names the next one as its parent. */
  predicate IsChain(current: map<string, Entry>, chain: seq<string>) {
    forall i :: 0 <= i < |chain| - 1 ==> chain[i] in current && current[chain[i]].candidate.parent == Some(chain[i + 1])
  }

  /** A likely classification with a role that decides something. */
  predicate IsDefinite(c: Candidate) {
    && c.confidence == "likely"
    && (c.role == "runtime" || c.role == "tooling" || c.role == "documentation" || c.role == "test" || c.role == "generated")
  }

  /** A chain of parents leads from `s` to a definite classification. */
  ghost predicate ChainToDefinite(current: map<string, Entry>, s: string, chain: seq<string>) {
    && |chain| >= 2 && chain[0] == s && IsChain(current, chain)
    && chain[|chain| - 1] in current && IsDefinite(current[chain[|chain| - 1]].candidate)
  }

  lemma {:induction false} ChainGoesUp(current: map<string, Entry>, chain: seq<string>, n: nat)
    requires n < |chain| && IsChain(current, chain)
    ensures Up(ParentsOf(current), chain[0], n) == Some(chain[n])
  {
    if n > 0 {
      ChainGoesUp(current, chain, n - 1);
    }
  }

  lemma {:induction false} UpIsChain(current: map<string, Entry>, s: string, n: nat, t: string) returns (chain: seq<string>)
    requires Up(ParentsOf(current), s, n) == Some(t)
    ensures |chain| == n + 1 && chain[0] == s && chain[n] == t && IsChain(current, chain)
  {
    if n == 0 {
      chain := [s];
    } else {
      var below := Up(ParentsOf(current), s, n - 1).value;
      var init := UpIsChain(current, s, n - 1, below);
      chain := init + [t];
    }
  }

  /** A current subject is inactive exactly if its parents lead to a definite classification. */
  lemma InactiveIff(current: map<string, Entry>, s: string)
    requires s in current
    ensures !Active(current, s) <==> exists chain: seq<string> :: ChainToDefinite(current, s, chain)
  {
    if chain: seq<string> :| ChainToDefinite(current, s, chain) {
      ChainGoesUp(current, chain, |chain| - 1);
      assert Reaches(ParentsOf(current), s, chain[|chain| - 1]);
    }
    if !Active(current, s) {
      var t :| t in Definite(current) && Reaches(ParentsOf(current), s, t);
      var n: nat :| n >= 1 && Up(ParentsOf(current), s, n) == Some(t);
      var chain := UpIsChain(current, s, n, t);
      assert ChainToDefinite(current, s, chain);
    }
  }

  // ---------------------------------------------------------------- rows

  /** The row of a file holds the classification that it names and the file's own hash. */
  ghost predicate RowIsTrue(current: map<string, Entry>, roles: map<int, string>, file: int, row: PolicyRow) {
    && row.subject in current
    && var e := current[row.subject];
       && IsDefinite(e.candidate) && Active(current, row.subject)
       && row.classification == e.candidate.id && row.depth == e.candidate.depth && row.scopeRole == e.candidate.role
       && (exists m :: m in e.members && m.id == file && m.hash == row.sourceHash)
       && row.effectiveRole
            == if file in roles && (roles[file] == "test" || roles[file] == "fixture" || roles[file] == "generated")
               then roles[file] else e.candidate.role
  }

  lemma PolicyRowsAreTrue(current: map<string, Entry>, roles: map<int, string>, t: Tables, file: int)
    requires Projects(current, roles, t) && forall s :: s in current ==> current[s].candidate.subject == s
    requires file in t.filePolicy
    ensures RowIsTrue(current, roles, file, t.filePolicy[file])
  {
    hide NotAbove, HasAncestorIn, CurrentRowFor;
    var s :| Decides(current, s, file);
    var m :| m in current[s].members && m.id == file;
    assert t.filePolicy[file] == RowFor(roles, current[s], m);
  }

  /** A file has a row exactly if an active definite classification has it among its members. */
  lemma PolicyRowExistsIff(current: map<string, Entry>, roles: map<int, string>, t: Tables, file: int)
    requires Projects(current, roles, t)
    ensures file in t.filePolicy <==>
      exists s, m :: s in current && Active(current, s) && IsDefinite(current[s].candidate) && m in current[s].members && m.id == file
  {
    hide NotAbove, HasAncestorIn, CurrentRowFor, RowFor;
    if file in t.filePolicy {
      var s :| Decides(current, s, file);
      var m :| m in current[s].members && m.id == file;
    }
    if s, m :| s in current && Active(current, s) && IsDefinite(current[s].candidate) && m in current[s].members && m.id == file {
      assert Contains(current[s], file);
      SomeoneDecides(current, s, file);
    }
  }

  /** What is known of the file overrules the role of its scope. */
  predicate Overrules(roles: map<int, string>, m: Member, role: string) {
    && m.id in roles && roles[m.id] != role
    && (roles[m.id] == "test" || roles[m.id] == "fixture" || roles[m.id] == "generated")
  }

  function Overruled(roles: map<int, string>, members: seq<Member>, role: string): set<int> {
    set i | 0 <= i < |members| && Overrules(roles, members[i], role)
  }

  lemma OverruledGrows(roles: map<int, string>, init: seq<Member>, last: Member, role: string)
    ensures |Overruled(roles, init + [last], role)| == |Overruled(roles, init, role)| + if Overrules(roles, last, role) then 1 else 0
  {
    hide Overrules;
    var all, some := Overruled(roles, init + [last], role), Overruled(roles, init, role);
    assert forall i :: 0 <= i < |init| ==> (init + [last])[i] == init[i];
    if Overrules(roles, last, role) {
      assert all == some + {|init|};
    } else {
      assert all == some;
    }
  }

  lemma {:induction false} ConflictsCount(roles: map<int, string>, e: Entry, members: seq<Member>)
    ensures Conflicts(roles, e, members) == if IsDefinite(e.candidate) then |Overruled(roles, members, e.candidate.role)| else 0
  {
    if members != [] {
      var init, last := members[..|members| - 1], members[|members| - 1];
      ConflictsCount(roles, e, init);
      assert members == init + [last];
      OverruledGrows(roles, init, last, e.candidate.role);
      hide Overruled;
    }
  }

  /** The row of an active subject counts its members and those that overrule it. */
  lemma CurrentRowsAreTrue(current: map<string, Entry>, roles: map<int, string>, t: Tables, s: string)
    requires Projects(current, roles, t)
    ensures s in t.current <==> s in current && !exists chain: seq<string> :: ChainToDefinite(current, s, chain)
    ensures s in t.current ==>
      var e, row := current[s], t.current[s];
      && row.classification == e.candidate.id && row.memberCount == |e.members|
      && row.conflictFiles == if IsDefinite(e.candidate) then |Overruled(roles, e.members, e.candidate.role)| else 0
  {
    if s in current {
      InactiveIff(current, s);
      ConflictsCount(roles, current[s], current[s].members);
    }
  }
}
