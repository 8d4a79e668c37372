/** `ORDER BY path COLLATE BINARY`: the order of rows in a digest. */
module ByteOrder {
  import opened Publication
  import Sorting
  import Collections

  predicate AtMost(a: Text, b: Text) {
    a == [] || (b != [] && (a[0] < b[0] || (a[0] == b[0] && AtMost(a[1..], b[1..]))))
  }

  lemma {:induction false} AtMostTotal(a: Text, b: Text)
    ensures AtMost(a, b) || AtMost(b, a)
  {
    if a != [] && b != [] {
      AtMostTotal(a[1..], b[1..]);
    }
  }

  lemma {:induction false} AtMostTransitive(a: Text, b: Text, c: Text)
    requires AtMost(a, b) && AtMost(b, c)
    ensures AtMost(a, c)
  {
    if a != [] && a[0] == b[0] && b[0] == c[0] {
      AtMostTransitive(a[1..], b[1..], c[1..]);
    }
  }

  lemma {:induction false} AtMostAntisymmetric(a: Text, b: Text)
    requires AtMost(a, b) && AtMost(b, a)
    ensures a == b
  {
    if a != [] {
      AtMostAntisymmetric(a[1..], b[1..]);
      assert a == [a[0]] + a[1..] && b == [b[0]] + b[1..];
    }
  }

  lemma AtMostOrders()
    ensures Sorting.TotalPreorder(AtMost)
  {
    forall a, b
      ensures AtMost(a, b) || AtMost(b, a)
    {
      AtMostTotal(a, b);
    }
    forall a, b, c | AtMost(a, b) && AtMost(b, c)
      ensures AtMost(a, c)
    {
      AtMostTransitive(a, b, c);
    }
  }

  /** `list` is the sorted listing of `keys`, each key once. */
  predicate Lists(list: seq<Text>, keys: set<Text>) {
    && (forall k :: k in list ==> k in keys)
    && (forall k :: k in keys ==> k in list)
    && (forall i, j :: 0 <= i < j < |list| ==> list[i] != list[j])
    && Sorting.Sorted(list, AtMost)
  }

  /** A set has only one sorted listing, whatever order its rows were found in. */
  lemma {:induction false} ListingUnique(a: seq<Text>, b: seq<Text>, keys: set<Text>)
    requires Lists(a, keys) && Lists(b, keys)
    ensures a == b
  {
    if keys == {} {
      Collections.ListSize(a, keys);
      Collections.ListSize(b, keys);
    } else {
      LastIsGreatest(a, keys);
      LastIsGreatest(b, keys);
      var x, y := a[|a| - 1], b[|b| - 1];
      AtMostAntisymmetric(x, y);
      Shorten(a, keys);
      Shorten(b, keys);
      ListingUnique(a[..|a| - 1], b[..|b| - 1], keys - {x});
      assert a == a[..|a| - 1] + [x] && b == b[..|b| - 1] + [y];
    }
  }

  lemma LastIsGreatest(a: seq<Text>, keys: set<Text>)
    requires Lists(a, keys) && keys != {}
    ensures a != [] && a[|a| - 1] in keys
    ensures forall k :: k in keys ==> AtMost(k, a[|a| - 1])
  {
    var k0 :| k0 in keys;
    assert k0 in a;
    assert a[|a| - 1] in a;
    forall k | k in keys
      ensures AtMost(k, a[|a| - 1])
    {
      var i :| 0 <= i < |a| && a[i] == k;
      AtMostTotal(k, k);
    }
  }

  lemma Shorten(a: seq<Text>, keys: set<Text>)
    requires Lists(a, keys) && a != []
    ensures Lists(a[..|a| - 1], keys - {a[|a| - 1]})
  {
    var init, last := a[..|a| - 1], a[|a| - 1];
    forall k | k in init
      ensures k in keys - {last}
    {
      var i :| 0 <= i < |init| && init[i] == k;
      assert a[i] == k && a[i] in a;
    }
    forall k | k in keys - {last}
      ensures k in init
    {
      var i :| 0 <= i < |a| && a[i] == k;
      assert init[i] == k;
    }
  }

  /** Sorting distinct keys lists them. */
  lemma SortLists(found: seq<Text>, keys: set<Text>)
    requires forall k :: k in found <==> k in keys
    requires forall i, j :: 0 <= i < j < |found| ==> found[i] != found[j]
    ensures Lists(Sorting.Sort(found, AtMost), keys)
  {
    AtMostOrders();
    Sorting.SortSorts(found, AtMost);
    Collections.Reordered(found, Sorting.Sort(found, AtMost));
  }

  /** The rows of a query in the order the digest wants them. */
  method Listing(keys: set<Text>) returns (list: seq<Text>)
    ensures list == Ordered(keys)
  {
    var found := Collections.Elements(keys);
    SortLists(found, keys);
    list := Sorting.Sort(found, AtMost);
    ListingUnique(list, Ordered(keys), keys);
  }

  lemma {:induction false} SomeListing(keys: set<Text>) returns (found: seq<Text>)
    ensures forall k :: k in found <==> k in keys
    ensures forall i, j :: 0 <= i < j < |found| ==> found[i] != found[j]
  {
    if keys == {} {
      found := [];
    } else {
      var k :| k in keys;
      var rest := SomeListing(keys - {k});
      found := rest + [k];
    }
  }

  /** The sorted listing, as a function of the set alone. */
  ghost function Ordered(keys: set<Text>): (list: seq<Text>)
    ensures Lists(list, keys)
  {
    ListingHas(keys);
    var list :| Lists(list, keys);
    list
  }

  lemma ListingHas(keys: set<Text>)
    ensures exists list :: Lists(list, keys)
  {
    var found := SomeListing(keys);
    SortLists(found, keys);
  }
}
