/** Query results: the elements of a set as a list, in some order. */
module Collections {

  predicate Distinct<T(==)>(list: seq<T>) {
    forall i, j :: 0 <= i < j < |list| ==> list[i] != list[j]
  }

  method Elements<T(==)>(s: set<T>) returns (list: seq<T>)
    ensures forall x :: x in list <==> x in s
    ensures Distinct(list)
  {
    list := [];
    var left := s;
    while left != {}
      invariant left <= s
      invariant forall x :: x in list <==> x in s && x !in left
      invariant Distinct(list)
      decreases left
    {
      var x :| x in left;
      list := list + [x];
      left := left - {x};
    }
  }

  lemma {:induction false} SubsetSize<T>(a: set<T>, b: set<T>)
    requires a <= b
    ensures |a| <= |b|
  {
    if a != {} {
      var x :| x in a;
      SubsetSize(a - {x}, b - {x});
    }
  }

  lemma Outside<T>(a: set<T>, b: set<T>) returns (x: T)
    requires b <= a && a != b
    ensures x in a && x !in b
  {
    x :| x in a && x !in b;
  }

  lemma {:induction false} ListSize<T>(list: seq<T>, s: set<T>)
    requires forall x :: x in list <==> x in s
    requires forall i, j :: 0 <= i < j < |list| ==> list[i] != list[j]
    ensures |list| == |s|
  {
    if list == [] {
      assert s == {};
    } else {
      var last := list[|list| - 1];
      ListSize(list[..|list| - 1], s - {last});
    }
  }

  lemma {:induction false} AtMostOnce<T>(list: seq<T>, x: T)
    requires forall i, j :: 0 <= i < j < |list| ==> list[i] != list[j]
    ensures multiset(list)[x] <= 1
  {
    if list != [] {
      var init, last := list[..|list| - 1], list[|list| - 1];
      assert list == init + [last];
      AtMostOnce(init, x);
      if x == last {
        assert x !in init;
      }
    }
  }

  /** Reordering a list of distinct elements keeps them distinct. */
  lemma Reordered<T>(before: seq<T>, after: seq<T>)
    requires forall i, j :: 0 <= i < j < |before| ==> before[i] != before[j]
    requires multiset(before) == multiset(after)
    ensures forall i, j :: 0 <= i < j < |after| ==> after[i] != after[j]
    ensures forall x :: x in after <==> x in before
  {
    forall i, j | 0 <= i < j < |after|
      ensures after[i] != after[j]
    {
      if after[i] == after[j] {
        assert after == after[..i] + [after[i]] + after[i + 1..j] + [after[j]] + after[j + 1..];
        assert multiset(after)[after[i]] >= 2;
        AtMostOnce(before, after[i]);
      }
    }
    forall x
      ensures x in after <==> x in before
    {
      assert x in after <==> x in multiset(after);
      assert x in before <==> x in multiset(before);
    }
  }
}
