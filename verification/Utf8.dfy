/** Source text as the bytes of its UTF-8 encoding. */
module Utf8 {

  type Byte = n: int | 0 <= n < 256

  const NEWLINE: Byte := 10

  predicate IsContinuation(b: Byte) {
    0x80 <= b < 0xC0
  }

  /** How many bytes the code point that begins with `lead` takes; 0 if none does. */
  function CharWidth(lead: Byte): (w: nat)
    ensures w <= 4
  {
    if lead < 0x80 then 1
    else if 0xC2 <= lead < 0xE0 then 2
    else if 0xE0 <= lead < 0xF0 then 3
    else if 0xF0 <= lead < 0xF5 then 4
    else 0
  }

  /** A sequence of code points of one to four bytes each. */
  predicate Valid(s: seq<Byte>) {
    s == [] ||
    (var w := CharWidth(s[0]);
     && 0 < w <= |s|
     && (forall i :: 1 <= i < w ==> IsContinuation(s[i]))
     && Valid(s[w..]))
  }

  /** `str::is_char_boundary`. */
  predicate IsBoundary(s: seq<Byte>, i: nat) {
    i == 0 || i == |s| || (i < |s| && !IsContinuation(s[i]))
  }

  /** No position is more than three bytes behind a code-point boundary. */
  lemma {:induction false} BoundaryNearby(s: seq<Byte>, i: nat) returns (j: nat)
    requires Valid(s) && i <= |s|
    ensures j <= i < j + 4 && IsBoundary(s, j)
  {
    if s == [] {
      return 0;
    }
    var w := CharWidth(s[0]);
    if i < w {
      return 0;
    }
    var k := BoundaryNearby(s[w..], i - w);
    j := w + k;
    if k == 0 && w < |s| {
      assert s[w..][0] == s[w];
      assert CharWidth(s[w..][0]) > 0;
    } else if 0 < k < |s| - w {
      assert s[w..][k] == s[w + k];
    }
  }

  lemma {:induction false} PrefixValid(s: seq<Byte>, i: nat)
    requires Valid(s) && i <= |s| && IsBoundary(s, i)
    ensures Valid(s[..i])
  {
    if i > 0 {
      var w := CharWidth(s[0]);
      var rest := s[w..];
      assert w < i < |s| ==> rest[i - w] == s[i];
      PrefixValid(rest, i - w);
      assert s[..i][w..] == rest[..i - w];
    }
  }

  /** `truncate_utf8`: the longest prefix within `maximum` bytes that ends on a boundary. */
  method Truncate(text: seq<Byte>, maximum: nat) returns (end: nat)
    ensures end <= maximum && end <= |text| && IsBoundary(text, end)
    ensures forall j :: end < j <= maximum && j <= |text| ==> !IsBoundary(text, j)
    ensures Valid(text) && maximum <= |text| ==> maximum < end + 4
  {
    end := if maximum < |text| then maximum else |text|;
    ghost var limit := end;
    while end > 0 && !IsBoundary(text, end)
      invariant 0 <= end <= limit
      invariant forall j :: end < j <= limit ==> !IsBoundary(text, j)
    {
      end := end - 1;
    }
    if Valid(text) && maximum <= |text| {
      var j := BoundaryNearby(text, maximum);
    }
  }
}
