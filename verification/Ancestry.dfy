/** Parent links between policy subjects, which nothing keeps free of cycles. */
module Ancestry {
  import opened Wrappers

  /** Parent links of the subjects that are current; a parent need not be current. */
  type Parents = map<string, Option<string>>

  /** The n-th ancestor of `s`; the chain ends behind a subject that is not current. */
  function Up(parents: Parents, s: string, n: nat): Option<string> {
    if n == 0 then Some(s)
    else
      var below := Up(parents, s, n - 1);
      if below.Some? && below.value in parents then parents[below.value] else None
  }

  ghost predicate Reaches(parents: Parents, s: string, t: string) {
    exists n: nat :: n >= 1 && Up(parents, s, n) == Some(t)
  }

  ghost predicate HasAncestorIn(parents: Parents, s: string, marked: set<string>) {
    exists t :: t in marked && Reaches(parents, s, t)
  }

  lemma {:induction false} UpComposes(parents: Parents, s: string, t: string, m: nat, n: nat)
    requires Up(parents, s, m) == Some(t)
    ensures Up(parents, s, m + n) == Up(parents, t, n)
  {
    if n > 0 {
      UpComposes(parents, s, t, m, n - 1);
    }
  }

  lemma {:induction false} UpStaysNone(parents: Parents, s: string, m: nat, n: nat)
    requires Up(parents, s, m).None? && m <= n
    ensures Up(parents, s, n).None?
  {
    if m < n {
      UpStaysNone(parents, s, m, n - 1);
    }
  }

  lemma ReachesTransitive(parents: Parents, s: string, t: string, u: string)
    requires Reaches(parents, s, t) && Reaches(parents, t, u)
    ensures Reaches(parents, s, u)
  {
    var m: nat :| m >= 1 && Up(parents, s, m) == Some(t);
    var n: nat :| n >= 1 && Up(parents, t, n) == Some(u);
    UpComposes(parents, s, t, m, n);
    assert Up(parents, s, m + n) == Some(u);
  }

  /** Once the chain repeats, it never leaves what was visited. */
  lemma {:induction false} RepeatStaysVisited(parents: Parents, s: string, visited: set<string>, n: nat, m: nat)
    requires forall i :: 1 <= i <= n ==> Up(parents, s, i).Some? && Up(parents, s, i).value in visited
    requires exists j :: 1 <= j <= n && Up(parents, s, n + 1) == Up(parents, s, j)
    requires m >= 1
    ensures Up(parents, s, m).Some? && Up(parents, s, m).value in visited
  {
    if m > n {
      var j :| 1 <= j <= n && Up(parents, s, n + 1) == Up(parents, s, j);
      var t := Up(parents, s, j).value;
      UpComposes(parents, s, t, n + 1, m - n - 1);
      UpComposes(parents, s, t, j, m - n - 1);
      RepeatStaysVisited(parents, s, visited, n, j + (m - n - 1));
    }
  }

  /** The suppression walk. It ends on every chain and misses no ancestor. */
  method Suppressed(parents: Parents, definite: set<string>, s: string) returns (suppressed: bool)
    requires s in parents
    ensures suppressed <==> HasAncestorIn(parents, s, definite)
  {
    var ancestor := parents[s];
    var visited: set<string> := {};
    ghost var n: nat := 0;
    ghost var known := set k | k in parents && parents[k].Some? :: parents[k].value;
    while ancestor.Some?
      invariant ancestor == Up(parents, s, n + 1)
      invariant ancestor.Some? ==> ancestor.value in known
      invariant visited <= known && visited !! definite
      invariant forall i :: 1 <= i <= n ==> Up(parents, s, i).Some? && Up(parents, s, i).value in visited
      invariant forall v :: v in visited ==> exists i :: 1 <= i <= n && Up(parents, s, i) == Some(v)
      decreases known - visited
    {
      var parent := ancestor.value;
      if parent in visited {
        forall t | t in definite
          ensures !Reaches(parents, s, t)
        {
          forall m: nat | m >= 1
            ensures Up(parents, s, m) != Some(t)
          {
            RepeatStaysVisited(parents, s, visited, n, m);
          }
        }
        return false;
      }
      visited := visited + {parent};
      if parent in definite {
        assert Reaches(parents, s, parent);
        return true;
      }
      n := n + 1;
      ancestor := if parent in parents then parents[parent] else None;
    }
    forall t | t in definite
      ensures !Reaches(parents, s, t)
    {
      forall m: nat | m >= 1
        ensures Up(parents, s, m) != Some(t)
      {
        if m > n {
          UpStaysNone(parents, s, n + 1, m);
        }
      }
    }
    return false;
  }

  // ---------------------------------------------------------------- who stays active

  /** A definite subject that no definite subject is above. */
  ghost predicate Topmost(parents: Parents, definite: set<string>, t: string) {
    t in definite && !HasAncestorIn(parents, t, definite)
  }

  /** Some definite subject above `s` is its own ancestor. */
  ghost predicate DefiniteCycleAbove(parents: Parents, definite: set<string>, s: string) {
    exists d :: d in definite && Reaches(parents, s, d) && Reaches(parents, d, d)
  }

  /** Climb from one definite ancestor to the next until there is none above. */
  lemma {:induction false} ClimbToTopmost(parents: Parents, definite: set<string>, s: string, below: set<string>) returns (top: string)
    requires definite <= parents.Keys && below <= definite
    requires HasAncestorIn(parents, s, definite) && !DefiniteCycleAbove(parents, definite, s)
    requires forall v :: v in below ==> v == s || Reaches(parents, v, s)
    ensures Reaches(parents, s, top) && Topmost(parents, definite, top)
    decreases definite - below
  {
    var d :| d in definite && Reaches(parents, s, d);
    if !HasAncestorIn(parents, d, definite) {
      return d;
    }
    if d in below {
      if d != s {
        ReachesTransitive(parents, d, s, d);
      }
      assert false;
    }
    forall v | v in below + {d}
      ensures v == d || Reaches(parents, v, d)
    {
      if v != d && v != s {
        ReachesTransitive(parents, v, s, d);
      }
    }
    forall e | e in definite && Reaches(parents, d, e) && Reaches(parents, e, e)
      ensures false
    {
      ReachesTransitive(parents, s, d, e);
    }
    top := ClimbToTopmost(parents, definite, d, below + {d});
    ReachesTransitive(parents, s, d, top);
  }

  lemma {:induction false} CycleRepeats(parents: Parents, d: string, p: nat, q: nat)
    requires Up(parents, d, p) == Some(d)
    ensures Up(parents, d, q * p) == Some(d)
  {
    if q > 0 {
      CycleRepeats(parents, d, p, q - 1);
      UpComposes(parents, d, d, (q - 1) * p, p);
      assert q * p == (q - 1) * p + p;
    }
  }

  /** Everything above a subject on a cycle is on that cycle. */
  lemma CycleReturns(parents: Parents, d: string, a: string, k: nat)
    requires Reaches(parents, d, d) && Up(parents, d, k) == Some(a)
    ensures Reaches(parents, a, d)
  {
    var p: nat :| p >= 1 && Up(parents, d, p) == Some(d);
    CycleRepeats(parents, d, p, k + 1);
    assert (k + 1) * p >= k + 1;
    var back := (k + 1) * p - k;
    UpComposes(parents, d, a, k, back);
    assert back >= 1 && Up(parents, a, back) == Some(d);
  }

  /**
   * A suppressed subject is covered by a topmost definite ancestor exactly when no
   * definite subject above it is its own ancestor. On such a cycle everyone
   * suppresses everyone, and nobody is left.
   */
  lemma CoveredIffNoCycle(parents: Parents, definite: set<string>, s: string)
    requires definite <= parents.Keys && HasAncestorIn(parents, s, definite)
    ensures (exists t :: Reaches(parents, s, t) && Topmost(parents, definite, t))
       <==> !DefiniteCycleAbove(parents, definite, s)
  {
    if !DefiniteCycleAbove(parents, definite, s) {
      var t := ClimbToTopmost(parents, definite, s, {});
    } else {
      var d :| d in definite && Reaches(parents, s, d) && Reaches(parents, d, d);
      forall t | Reaches(parents, s, t) && t in definite
        ensures HasAncestorIn(parents, t, definite)
      {
        var i: nat :| i >= 1 && Up(parents, s, i) == Some(t);
        var j: nat :| j >= 1 && Up(parents, s, j) == Some(d);
        if j > i {
          UpComposes(parents, s, t, i, j - i);
          assert Reaches(parents, t, d);
        } else {
          UpComposes(parents, s, d, j, i - j);
          CycleReturns(parents, d, t, i - j);
        }
      }
    }
  }
}
