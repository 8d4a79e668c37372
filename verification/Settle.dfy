/**
 * Responses that record their own rendered length. Everything in such a
 * response except the recorded length is fixed while it settles, so its size is
 * `base + copies * Width(recorded)`, where `copies` says how often the recorded
 * length occurs in it. `base` is left arbitrary: it stands for any JSON text.
 */
module Settle {
  import opened Decimal

  const ROUNDS: nat := 8
  const USIZE_LIMIT: nat := 0x1_0000_0000_0000_0000

  /** A base whose rendered text still has a length that a `usize` can hold. */
  type Base = n: nat | n + 40 < USIZE_LIMIT

  /** One or two occurrences of the recorded length. */
  type Copies = n: nat | 1 <= n <= 2 witness 1

  function Length(base: nat, copies: Copies, recorded: nat): nat {
    if copies == 1 then base + Width(recorded) else base + Width(recorded) + Width(recorded)
  }

  /** A text that has `recorded` written into it really is that long. */
  predicate IsSettled(base: nat, copies: Copies, recorded: nat) {
    Length(base, copies, recorded) == recorded
  }

  /** The length on which a loop that starts from zero settles. */
  function Least(base: nat, copies: Copies): nat {
    Length(base, copies, Length(base, copies, base + copies))
  }

  /** Every round leads into a window in which only two widths occur. */
  predicate InWindow(base: nat, copies: Copies, r: nat) {
    base + copies <= r <= base + copies + 38
  }

  lemma RoundLandsInWindow(base: Base, copies: Copies, r: nat)
    requires r < USIZE_LIMIT
    ensures InWindow(base, copies, Length(base, copies, r))
    ensures Length(base, copies, r) < USIZE_LIMIT
  {
    WidthOfUsize(r);
  }

  /** Two rounds inside the window are enough to settle. */
  lemma SettlesWithinTwo(base: Base, copies: Copies, r: nat)
    requires InWindow(base, copies, r)
    ensures IsSettled(base, copies, Length(base, copies, Length(base, copies, r)))
  {
    var low := base + copies;
    var s := Length(base, copies, r);
    RoundLandsInWindow(base, copies, r);
    var t := Length(base, copies, s);
    RoundLandsInWindow(base, copies, s);
    NearbyWidths(low, r);
    NearbyWidths(low, s);
    NearbyWidths(low, t);
    if s <= t {
      WidthMonotone(s, t);
    } else {
      WidthMonotone(t, s);
    }
  }

  ghost predicate IsLeast(base: nat, copies: Copies, r: nat) {
    && IsSettled(base, copies, r)
    && forall s: nat :: IsSettled(base, copies, s) ==> r <= s
  }

  /** The loop from zero ends on a settled length, and on the smallest one. */
  lemma LeastIsLeast(base: Base, copies: Copies)
    ensures IsLeast(base, copies, Least(base, copies))
  {
    var first := base + copies;
    SettlesWithinTwo(base, copies, first);
    forall r: nat | IsSettled(base, copies, r)
      ensures Least(base, copies) <= r
    {
      WidthMonotone(first, r);
      WidthMonotone(Length(base, copies, first), r);
    }
  }

  lemma LeastIsUnique(base: Base, copies: Copies, r: nat)
    requires IsLeast(base, copies, r)
    ensures r == Least(base, copies)
  {
    LeastIsLeast(base, copies);
  }

  /** A length that already suffices bounds the settled one. */
  lemma LeastBelow(base: Base, copies: Copies, r: nat)
    requires Length(base, copies, r) <= r
    ensures Least(base, copies) <= r
  {
    WidthMonotone(base + copies, r);
    WidthMonotone(Length(base, copies, base + copies), r);
  }

  /** More text never settles on a smaller length. */
  lemma LeastMonotone(small: Base, large: Base, copies: Copies, r: nat, s: nat)
    requires small <= large
    requires IsLeast(small, copies, r) && IsSettled(large, copies, s)
    ensures r <= s
  {
    LeastIsLeast(small, copies);
    WidthMonotone(small + copies, s);
    WidthMonotone(Length(small, copies, small + copies), s);
  }

  /**
   * A settled length need not be unique. A second one exists exactly when the
   * first one is a run of nines, and then it is the next number.
   */
  lemma SettledTwice(base: Base, r: nat, s: nat)
    requires r < s
    ensures IsSettled(base, 1, r) && IsSettled(base, 1, s)
       <==> s == r + 1 && r + 1 == Pow10(Width(r)) && base == r - Width(r)
  {
    if IsSettled(base, 1, r) && IsSettled(base, 1, s) {
      WidthMonotone(1, r);
      WidthOfLengths(base, r);
      WidthOfLengths(base, s);
      NearbyWidths(r, s);
      WidthByPowers(r, Width(r));
      WidthByPowers(s, Width(r));
    }
    if s == r + 1 && r + 1 == Pow10(Width(r)) && base == r - Width(r) {
      WidthByPowers(s, Width(r));
      WidthOfLengths(base, r);
      NearbyWidths(r, s);
    }
  }

  /** A settled length of an admissible text is itself a `usize`. */
  lemma {:induction false} WidthOfLengths(base: Base, r: nat)
    requires IsSettled(base, 1, r)
    ensures base + 1 <= r <= base + 20
  {
    if r >= base + 21 {
      HugeIsShort(r, 20);
    }
  }

  lemma {:induction false} HugeIsShort(r: nat, d: nat)
    requires 20 < Width(r)
    ensures USIZE_LIMIT + Width(r) < r
  {
    WidthByPowers(r, 20);
    TwentyDigits();
    WidthBelow(r);
  }

  lemma {:induction false} WidthBelow(r: nat)
    ensures Width(r) <= r / 10 + 1
  {
    if r >= 10 {
      WidthBelow(r / 10);
    }
  }

  /** The length on which a loop settles that starts from `start`: three rounds suffice. */
  function SettledFrom(base: nat, start: nat): nat {
    Length(base, 1, Length(base, 1, Length(base, 1, start)))
  }

  /** A settled length is confirmed, and no settled length is passed on the way to one. */
  lemma SettledFromIsSettled(base: Base, start: nat)
    requires start < USIZE_LIMIT
    ensures IsSettled(base, 1, SettledFrom(base, start)) && SettledFrom(base, start) < USIZE_LIMIT
    ensures IsSettled(base, 1, start) ==> SettledFrom(base, start) == start
    ensures forall r: nat :: IsSettled(base, 1, r) ==>
      (start <= r ==> SettledFrom(base, start) <= r) && (r <= start ==> r <= SettledFrom(base, start))
  {
    var first := Length(base, 1, start);
    RoundLandsInWindow(base, 1, start);
    RoundLandsInWindow(base, 1, first);
    RoundLandsInWindow(base, 1, Length(base, 1, first));
    SettlesWithinTwo(base, 1, first);
    forall r: nat | IsSettled(base, 1, r)
      ensures (start <= r ==> SettledFrom(base, start) <= r) && (r <= start ==> r <= SettledFrom(base, start))
    {
      if start <= r {
        WidthMonotone(start, r);
        WidthMonotone(first, r);
        WidthMonotone(Length(base, 1, first), r);
      }
      if r <= start {
        WidthMonotone(r, start);
        WidthMonotone(r, first);
        WidthMonotone(r, Length(base, 1, first));
      }
    }
  }

  /**
   * The loop shared by `WhoUsesEnvelope::settle`, `settle_definitions` and
   * `settle_neighborhood_bytes` (one copy), started from whatever length the
   * caller recorded last. The text after the loop is never rendered: the loop
   * always ends by finding the recorded length confirmed.
   */
  method SettleRendered(base: Base, start: nat) returns (rendered: nat)
    requires start < USIZE_LIMIT
    ensures rendered == SettledFrom(base, start) < USIZE_LIMIT
    ensures IsSettled(base, 1, rendered)
    ensures (forall r: nat :: IsSettled(base, 1, r) ==> start <= r) ==> IsLeast(base, 1, rendered)
  {
    SettledFromIsSettled(base, start);
    rendered := start;
    var round := 0;
    while round < ROUNDS
      invariant 0 <= round <= 3
      invariant rendered < USIZE_LIMIT
      invariant round == 0 ==> rendered == start
      invariant round == 1 ==> rendered == Length(base, 1, start)
      invariant round == 2 ==> rendered == Length(base, 1, Length(base, 1, start))
      invariant round == 3 ==> rendered == SettledFrom(base, start)
    {
      var length := Length(base, 1, rendered);
      if length == rendered {
        return;
      }
      RoundLandsInWindow(base, 1, rendered);
      rendered := length;
      round := round + 1;
    }
    assert false;
  }

  /** A settle loop that starts from zero computes a function of the text alone. */
  method SettleFromZero(base: Base) returns (rendered: nat)
    ensures rendered == Least(base, 1) && IsSettled(base, 1, rendered)
  {
    rendered := SettleRendered(base, 0);
    LeastIsUnique(base, 1, rendered);
  }

  /**
   * `settle_unbudgeted_response`: both recorded lengths start at zero and are
   * overwritten together until a rendering confirms both of them.
   */
  method SettleUnbudgeted(base: Base) returns (rendered: nat)
    ensures rendered == Least(base, 2)
    ensures IsSettled(base, 2, rendered)
  {
    var recorded, unbudgeted := 0, 0;
    var round := 0;
    LeastIsLeast(base, 2);
    while round < ROUNDS
      invariant 0 <= round <= 3
      invariant recorded == unbudgeted
      invariant round == 0 ==> recorded == 0
      invariant round == 1 ==> recorded == base + 2
      invariant round == 2 ==> recorded == Length(base, 2, base + 2)
      invariant round == 3 ==> recorded == Least(base, 2)
    {
      rendered := base + Width(recorded) + Width(unbudgeted);
      if recorded == rendered && unbudgeted == rendered {
        return;
      }
      recorded, unbudgeted := rendered, rendered;
      round := round + 1;
    }
    assert false;
  }

  /** The settled length of a text with two copies, and a bound on its width. */
  lemma SettledTotal(base: nat, copies: Copies) returns (last: nat)
    requires base + 60 < USIZE_LIMIT
    ensures IsLeast(base, copies, last)
    ensures Width(last) <= 20 && base + copies <= last
  {
    last := Least(base, copies);
    LeastIsLeast(base, copies);
    RoundLandsInWindow(base, copies, base + copies);
    RoundLandsInWindow(base, copies, Length(base, copies, base + copies));
    WidthOfUsize(last);
  }

  /** A nested round starts below every length on which it may settle. */
  lemma NestedRoundStartsBelow(base: nat, previous: nat, current: nat, fixed: Base)
    requires fixed == base + Width(current)
    requires previous <= current && Width(current) <= 20
    requires current == 0 || IsLeast(base + Width(previous), 1, current)
    ensures forall r: nat :: IsSettled(fixed, 1, r) ==> current <= r
  {
    WidthMonotone(previous, current);
    forall r: nat | current != 0 && IsSettled(fixed, 1, r)
      ensures current <= r
    {
      LeastMonotone(base + Width(previous), fixed, 1, current, r);
    }
  }

  /** All lengths of nested rounds lie in the window of two widths, below the last one. */
  lemma NestedRoundWindow(base: nat, current: nat, next: nat, last: nat)
    requires base + 60 < USIZE_LIMIT
    requires Width(last) <= 20 && current <= last
    requires IsLeast(base + Width(current), 1, next) && IsSettled(base, 2, last)
    ensures base + 2 <= next <= last
    ensures Width(next) <= Width(base + 2) + 1
    ensures next == current ==> IsSettled(base, 2, current)
  {
    WidthMonotone(current, last);
    assert IsSettled(base + Width(last), 1, last);
    LeastMonotone(base + Width(current), base + Width(last), 1, next, last);
    WidthMonotone(next, last);
    NearbyWidths(base + 2, next);
  }

  /** The lengths of one nested round and the next, below the settled one; they stop after two widths. */
  ghost predicate NestedAt(base: nat, previous: nat, current: nat, last: nat, round: nat) {
    && previous <= current <= last && (round == 0 ==> current == 0)
    && (round >= 1 ==>
          && Width(previous) <= 20 && IsLeast(base + Width(previous), 1, current)
          && Width(current) <= Width(base + 2) + 1 && base + 2 <= current)
    && (round >= 2 ==> base + 2 <= previous)
    && (round >= 3 ==> Width(previous) == Width(base + 2) + 1)
  }

  lemma NestedNext(base: nat, previous: nat, current: nat, last: nat, round: nat, next: nat)
    requires base + 60 < USIZE_LIMIT && Width(last) <= 20 && IsSettled(base, 2, last)
    requires NestedAt(base, previous, current, last, round)
    requires IsLeast(base + Width(current), 1, next) && next != current && current <= next
    ensures round < 3 && NestedAt(base, current, next, last, round + 1)
  {
    NestedRoundWindow(base, current, next, last);
    WidthMonotone(current, last);
    WidthMonotone(previous, current);
    if round >= 1 {
      WidthMonotone(base + 2, current);
    }
    if round >= 2 {
      WidthMonotone(base + 2, previous);
      assert Width(previous) != Width(current);
    }
  }

  /**
   * The outer loop of `render_neighborhood`. The unbudgeted length is written
   * into the response only when the response is truncated, the rendered length
   * always, and each round carries on from the last settled one. It ends by its
   * break, with both lengths equal to the length of the complete text.
   */
  method SettleNested(base: nat, truncated: bool) returns (rendered: nat, unbudgeted: nat)
    requires base + 60 < USIZE_LIMIT
    ensures unbudgeted == rendered < USIZE_LIMIT && Width(unbudgeted) <= 20
    ensures IsLeast(base, if truncated then 2 else 1, rendered)
    ensures rendered == base + Width(rendered) + (if truncated then Width(unbudgeted) else 0)
  {
    ghost var last := SettledTotal(base, if truncated then 2 else 1);
    rendered, unbudgeted := 0, 0;
    ghost var previous: nat := 0;
    var round := 0;
    while round < ROUNDS
      invariant 0 <= round <= 3 && unbudgeted == rendered < USIZE_LIMIT
      invariant !truncated ==> round <= 1 && unbudgeted == if round == 0 then 0 else last
      invariant truncated ==> NestedAt(base, previous, unbudgeted, last, round)
    {
      WidthOfUsize(unbudgeted);
      var fixed := base + (if truncated then Width(unbudgeted) else 0);
      if truncated {
        NestedRoundStartsBelow(base, previous, unbudgeted, fixed);
      }
      rendered := SettleRendered(fixed, rendered);
      if truncated {
        NestedRoundWindow(base, unbudgeted, rendered, last);
      }
      if rendered == unbudgeted {
        WidthOfUsize(rendered);
        return;
      }
      if truncated {
        NestedNext(base, previous, unbudgeted, last, round, rendered);
      }
      previous := unbudgeted;
      unbudgeted := rendered;
      round := round + 1;
    }
    assert false;
  }
}
