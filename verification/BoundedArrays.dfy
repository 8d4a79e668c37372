/**
 * `render_bounded_object_arrays`: one response value is overwritten again and
 * again while its listed arrays are searched for prefixes that fit the limit.
 * Each probe settles from the length that the probe before it left behind.
 */
module BoundedArrays {
  import opened Wrappers
  import opened Settle
  import opened Decimal

  datatype Item = Item(text: string)

  datatype JsonField = Items(items: seq<Item>) | Other

  /** A response without the two lengths that its budget block records. */
  datatype Body = Body(
    fields: map<string, JsonField>, topTruncated: Option<bool>, truncated: bool, omittedItems: nat)

  datatype Error = LimitIsZero | BelowEnvelope(rendered: nat)

  type RoomyBase = n: nat | n + 60 < USIZE_LIMIT

  /** Length of a response without the digits of the lengths it records. */
  type Size = Body -> RoomyBase

  function ItemsOf(fields: map<string, JsonField>, name: string): seq<Item> {
    if name in fields && fields[name].Items? then fields[name].items else []
  }

  /** `response[*field].as_array().map_or(0, Vec::len)` summed over the listed fields. */
  function Total(fields: map<string, JsonField>, names: seq<string>): nat {
    if names == [] then 0
    else Total(fields, names[..|names| - 1]) + |ItemsOf(fields, names[|names| - 1])|
  }

  /** Every listed array of `now` is a prefix of the one in `was`. */
  ghost predicate PrefixesOf(was: map<string, JsonField>, now: map<string, JsonField>, names: seq<string>) {
    forall name :: name in names ==> ItemsOf(now, name) <= ItemsOf(was, name)
  }

  ghost predicate SameItems(a: map<string, JsonField>, b: map<string, JsonField>, names: seq<string>) {
    forall name :: name in names ==> ItemsOf(a, name) == ItemsOf(b, name)
  }

  /** Listed arrays other than `field` are the same. */
  ghost predicate SameElsewhere(a: map<string, JsonField>, b: map<string, JsonField>, names: seq<string>, field: string) {
    forall name :: name in names && name != field ==> ItemsOf(a, name) == ItemsOf(b, name)
  }

  lemma SameElsewhereToo(
      a: map<string, JsonField>, b: map<string, JsonField>, c: map<string, JsonField>, names: seq<string>, field: string)
    requires SameElsewhere(a, b, names, field) && SameElsewhere(b, c, names, field)
    ensures SameElsewhere(a, c, names, field)
  {
  }

  /** The smallest response: every listed array is empty, the rest is as it was. */
  ghost predicate Emptied(was: map<string, JsonField>, b: Body, names: seq<string>) {
    OthersKept(was, b.fields, names) && forall name :: name in names ==> ItemsOf(b.fields, name) == []
  }

  lemma {:induction false} NoItemsNoTotal(fields: map<string, JsonField>, names: seq<string>)
    requires forall i :: 0 <= i < |names| ==> ItemsOf(fields, names[i]) == []
    ensures Total(fields, names) == 0
  {
    if names != [] {
      NoItemsNoTotal(fields, names[..|names| - 1]);
    }
  }

  /** Fields that are not listed keep their value. */
  ghost predicate OthersKept(was: map<string, JsonField>, now: map<string, JsonField>, names: seq<string>) {
    forall name :: name !in names ==> (name in was <==> name in now) && (name in was ==> was[name] == now[name])
  }

  lemma {:induction false} TotalOfPrefixes(was: map<string, JsonField>, now: map<string, JsonField>, names: seq<string>)
    requires PrefixesOf(was, now, names)
    ensures Total(now, names) <= Total(was, names)
    ensures (exists name :: name in names && |ItemsOf(now, name)| < |ItemsOf(was, name)|) <==> Total(now, names) < Total(was, names)
  {
    if names != [] {
      var init, last := names[..|names| - 1], names[|names| - 1];
      assert names == init + [last];
      TotalOfPrefixes(was, now, init);
    }
  }

  /**
   * Limits for which the verdict on a response may depend on the probes before
   * it: only below a power of ten can one text settle on both sides of the limit.
   */
  predicate RunOfNines(limit: nat) {
    limit + 1 == Pow10(Width(limit))
  }

  lemma VerdictDependsOnHistoryIff(limit: nat)
    requires limit + 60 < USIZE_LIMIT
    ensures RunOfNines(limit) <==>
            exists base: Base, r: nat, s: nat :: IsSettled(base, 1, r) && IsSettled(base, 1, s) && r <= limit < s
  {
    if RunOfNines(limit) {
      WidthBelow(limit);
      var base: Base := limit - Width(limit);
      SettledTwice(base, limit, limit + 1);
      assert IsSettled(base, 1, limit) && IsSettled(base, 1, limit + 1);
    }
    forall base: Base, r: nat, s: nat | IsSettled(base, 1, r) && IsSettled(base, 1, s) && r <= limit < s
      ensures RunOfNines(limit)
    {
      SettledTwice(base, r, s);
    }
  }

  /** Some length on which the text may settle is above the limit. */
  ghost predicate MayExceed(base: nat, limit: nat) {
    exists r: nat :: IsSettled(base, 1, r) && limit < r
  }

  /** A text may exceed its limit exactly if it must, or if it just fits and the limit is a run of nines. */
  lemma MayExceedIff(base: Base, limit: nat)
    ensures MayExceed(base, limit) <==> limit < Least(base, 1) || (limit == Least(base, 1) && RunOfNines(limit))
  {
    var least := Least(base, 1);
    LeastIsLeast(base, 1);
    forall r: nat | IsSettled(base, 1, r) && least <= limit < r
      ensures limit == least && RunOfNines(limit)
    {
      SettledTwice(base, least, r);
    }
    if limit == least && RunOfNines(limit) {
      SettledTwice(base, limit, limit + 1);
      assert IsSettled(base, 1, limit + 1);
    }
  }

  /**
   * The verdict on a text depends on the length from which it settles exactly if two
   * settled lengths are on both sides of the limit; it then confirms the one before it.
   */
  lemma VerdictOf(base: Base, start: nat, limit: nat)
    requires start < USIZE_LIMIT
    ensures SettledFrom(base, start) <= limit <==> Least(base, 1) <= limit && (start <= limit || !MayExceed(base, limit))
  {
    var least, rendered := Least(base, 1), SettledFrom(base, start);
    LeastIsLeast(base, 1);
    SettledFromIsSettled(base, start);
    MayExceedIff(base, limit);
    assert IsSettled(base, 1, least);
    if limit < rendered && least <= limit {
      assert MayExceed(base, limit);
    }
    if start > limit && MayExceed(base, limit) && least <= limit {
      var r: nat :| IsSettled(base, 1, r) && limit < r;
      SettledTwice(base, least, r);
    }
  }

  /** The body in which `field` holds a prefix and the counters are brought up to date. */
  function WithPrefix(b: Body, names: seq<string>, field: string, items: seq<Item>, retained: nat, original: nat): Body
    requires retained <= |items|
  {
    var fields := b.fields[field := Items(items[..retained])];
    var remaining := Total(fields, names);
    Body(fields, if b.topTruncated.Some? then Some(true) else None, true,
         if remaining <= original then original - remaining else 0)
  }

  /** Whatever proper prefix is set, there are no more items than at first. */
  ghost predicate Within(fields: map<string, JsonField>, names: seq<string>, field: string, items: seq<Item>, original: nat) {
    forall k :: 0 <= k < |items| ==> Total(fields[field := Items(items[..k])], names) <= original
  }

  lemma WithinStill(
      fields: map<string, JsonField>, names: seq<string>, field: string, items: seq<Item>, original: nat, value: JsonField)
    requires Within(fields, names, field, items, original)
    ensures Within(fields[field := value], names, field, items, original)
  {
    forall k | 0 <= k < |items|
      ensures Total(fields[field := value][field := Items(items[..k])], names) <= original
    {
      assert fields[field := value][field := Items(items[..k])] == fields[field := Items(items[..k])];
    }
  }

  /** Whatever prefix of one array is put back, the total stays within the original. */
  lemma PrefixTotals(was: map<string, JsonField>, now: map<string, JsonField>, names: seq<string>, field: string, items: seq<Item>)
    requires PrefixesOf(was, now, names)
    requires field in names ==> items <= ItemsOf(was, field)
    ensures Within(now, names, field, items, Total(was, names))
  {
    forall k | 0 <= k < |items|
      ensures Total(now[field := Items(items[..k])], names) <= Total(was, names)
    {
      TotalOfPrefixes(was, now[field := Items(items[..k])], names);
    }
  }

  /** `now` is `taken` with a proper prefix of the original array in `field`, and the counters say so. */
  ghost predicate CutTo(was: map<string, JsonField>, taken: Body, now: Body, names: seq<string>, field: string) {
    && PrefixesOf(was, now.fields, names) && OthersKept(was, now.fields, names)
    && SameElsewhere(taken.fields, now.fields, names, field)
    && Total(now.fields, names) + now.omittedItems == Total(was, names)
    && now.truncated && now.omittedItems > 0
  }

  lemma PrefixesAfter(was: map<string, JsonField>, taken: map<string, JsonField>, names: seq<string>, field: string, items: seq<Item>)
    requires PrefixesOf(was, taken, names) && OthersKept(was, taken, names)
    requires field in names && items <= ItemsOf(was, field)
    ensures var now := taken[field := Items(items)];
            && PrefixesOf(was, now, names) && OthersKept(was, now, names) && ItemsOf(now, field) == items
            && SameElsewhere(taken, now, names, field)
  {
  }

  /** What one searched array leaves behind. */
  lemma AfterSearch(was: map<string, JsonField>, taken: Body, names: seq<string>, field: string,
                    items: seq<Item>, retained: nat, original: nat)
    requires PrefixesOf(was, taken.fields, names) && OthersKept(was, taken.fields, names)
    requires field in names && items <= ItemsOf(was, field) && retained < |items|
    requires original == Total(was, names)
    ensures var now := WithPrefix(taken, names, field, items, retained, original);
            CutTo(was, taken, now, names, field) && (retained == 0 ==> ItemsOf(now.fields, field) == [])
  {
    var now := WithPrefix(taken, names, field, items, retained, original);
    PrefixesAfter(was, taken.fields, names, field, items[..retained]);
    TotalOfPrefixes(was, now.fields, names);
    assert |ItemsOf(now.fields, field)| < |ItemsOf(was, field)|;
  }

  // ---------------------------------------------------------------- what one rendering computes

  /** What stays fixed while the arrays of one response are cut. */
  datatype Job = Job(size: Size, unbudgeted: nat, names: seq<string>, original: nat, limit: nat)

  /** What changes: the response and the length that it records. */
  datatype State = State(body: Body, rendered: nat)

  /** The length of a response without the digits of its rendered length. */
  function Fixed(j: Job, b: Body): nat {
    j.size(b) + Width(j.unbudgeted)
  }

  /** Set a prefix, and settle from the length that is recorded. */
  function Set(j: Job, s: State, field: string, items: seq<Item>, k: nat): State
    requires k <= |items|
  {
    var b := WithPrefix(s.body, j.names, field, items, k, j.original);
    State(b, SettledFrom(Fixed(j, b), s.rendered))
  }

  /** The binary search: the state it leaves, and one more than the longest prefix found. */
  function Narrowed(j: Job, s: State, field: string, items: seq<Item>, low: nat, high: nat): (State, nat)
    requires low <= high <= |items|
    decreases high - low
  {
    if low == high then (s, low)
    else
      var middle := low + (high - low) / 2;
      var t := Set(j, s, field, items, middle);
      if t.rendered <= j.limit then Narrowed(j, t, field, items, middle + 1, high)
      else Narrowed(j, t, field, items, low, middle)
  }

  /** Search one array that was taken out of the response, and put back what was found. */
  function Searched(j: Job, s: State, field: string, items: seq<Item>): State {
    var (t, low) := Narrowed(j, s, field, items, 0, |items|);
    Set(j, t, field, items, if low == 0 || low > |items| then 0 else low - 1)
  }

  /**
   * `response[*field].as_array_mut().map(std::mem::take)`. An absent field becomes
   * null merely by being looked at.
   */
  function Taken(b: Body, field: string): Body {
    if field !in b.fields then b.(fields := b.fields[field := Other])
    else if b.fields[field].Items? then b.(fields := b.fields[field := Items([])])
    else b
  }

  /** Cut the listed arrays from number `i` on, until the text fits; whether it does. */
  function CutFrom(j: Job, s: State, i: nat): (State, bool)
    requires i <= |j.names|
    decreases |j.names| - i
  {
    if i == |j.names| then (s, false)
    else
      var items := ItemsOf(s.body.fields, j.names[i]);
      var t := s.(body := Taken(s.body, j.names[i]));
      if items == [] then CutFrom(j, t, i + 1)
      else
        var u := Searched(j, t, j.names[i], items);
        if u.rendered <= j.limit then (u, true) else CutFrom(j, u, i + 1)
  }

  lemma CutFromStep(j: Job, s: State, i: nat)
    requires i < |j.names|
    ensures
      var items := ItemsOf(s.body.fields, j.names[i]);
      var t := s.(body := Taken(s.body, j.names[i]));
      var u := Searched(j, t, j.names[i], items);
      CutFrom(j, s, i) ==
        if items != [] && u.rendered <= j.limit then (u, true) else CutFrom(j, if items == [] then t else u, i + 1)
  {
  }

  lemma NoArrayLeft(j: Job, s: State)
    ensures CutFrom(j, s, |j.names|) == (s, false)
  {
  }

  /** The settled length of the full response. */
  function Unbudgeted(size: Size, b: Body): nat {
    Least(size(b), 2)
  }

  function JobOf(size: Size, b: Body, names: seq<string>, limit: nat): Job {
    Job(size, Unbudgeted(size, b), names, Total(b.fields, names), limit)
  }

  function Rendering(size: Size, b: Body, names: seq<string>, limit: nat): (State, bool) {
    var full := State(b, Unbudgeted(size, b));
    if full.rendered <= limit then (full, true) else CutFrom(JobOf(size, b, names, limit), full, 0)
  }

  // ---------------------------------------------------------------- what bodies do

  /** Whether a body fits when its length is settled from zero. */
  ghost predicate Fits(j: Job, b: Body) {
    Least(Fixed(j, b), 1) <= j.limit
  }

  /** Some settled length of the body is above the limit. */
  ghost predicate Exceeds(j: Job, b: Body) {
    MayExceed(Fixed(j, b), j.limit)
  }

  /** The body fits exactly, at a limit where its settled length is not the only one. */
  ghost predicate JustFits(j: Job, b: Body) {
    RunOfNines(j.limit) && Least(Fixed(j, b), 1) == j.limit
  }

  lemma UnbudgetedIsShort(size: Size, b: Body)
    ensures Unbudgeted(size, b) < USIZE_LIMIT && Width(Unbudgeted(size, b)) <= 20
    ensures IsSettled(size(b), 2, Unbudgeted(size, b)) && size(b) + 2 <= Unbudgeted(size, b) <= size(b) + 40
  {
    LeastIsLeast(size(b), 2);
    RoundLandsInWindow(size(b), 2, size(b) + 2);
    RoundLandsInWindow(size(b), 2, Length(size(b), 2, size(b) + 2));
    WidthOfUsize(Unbudgeted(size, b));
  }

  // ---------------------------------------------------------------- one array

  /** What a probe leaves behind. */
  lemma SetVerdict(j: Job, s: State, field: string, items: seq<Item>, k: nat)
    requires Width(j.unbudgeted) <= 20 && s.rendered < USIZE_LIMIT && k <= |items|
    ensures var t := Set(j, s, field, items, k);
      && t.rendered < USIZE_LIMIT && IsSettled(Fixed(j, t.body), 1, t.rendered)
      && (t.rendered <= j.limit ==> Fits(j, t.body) && (s.rendered > j.limit ==> !Exceeds(j, t.body)))
      && (t.rendered > j.limit ==> Exceeds(j, t.body))
      && (t.body == s.body && IsSettled(Fixed(j, s.body), 1, s.rendered) ==> t == s)
  {
    var b := WithPrefix(s.body, j.names, field, items, k, j.original);
    SettledFromIsSettled(Fixed(j, b), s.rendered);
    VerdictOf(Fixed(j, b), s.rendered, j.limit);
  }

  function Prefix(j: Job, start: Body, field: string, items: seq<Item>, k: nat): Body
    requires k <= |items|
  {
    WithPrefix(start, j.names, field, items, k, j.original)
  }

  /** `now` is `start`, or `start` after some prefix of `items` was set in it. */
  ghost predicate Reached(j: Job, start: Body, now: Body, field: string, items: seq<Item>) {
    now == start || exists k :: 0 <= k < |items| && now == Prefix(j, start, field, items, k)
  }

  /** Setting a prefix forgets the prefix that was set before. */
  lemma Rewrite(j: Job, start: Body, now: Body, field: string, items: seq<Item>, k: nat)
    requires k <= |items| && Reached(j, start, now, field, items)
    ensures Prefix(j, now, field, items, k) == Prefix(j, start, field, items, k)
  {
    assert now.fields[field := Items(items[..k])] == start.fields[field := Items(items[..k])];
  }

  /** What a binary search knows of an array whose first `low` and last prefixes it has ruled on. */
  ghost predicate Progress(j: Job, start: Body, s: State, field: string, items: seq<Item>, low: nat, high: nat, sure: nat) {
    && low <= high <= |items| && s.rendered < USIZE_LIMIT && Reached(j, start, s.body, field, items)
    && (low > 0 ==>
          && Fits(j, Prefix(j, start, field, items, low - 1))
          && sure < |items| && !Exceeds(j, Prefix(j, start, field, items, sure)))
    && (high < |items| ==> Exceeds(j, Prefix(j, start, field, items, high)))
    && (low == 0 ==> s.rendered > j.limit)
    && (low == 0 && high < |items| ==>
          s.body == Prefix(j, start, field, items, high) && IsSettled(Fixed(j, s.body), 1, s.rendered))
  }

  lemma ProgressByOne(
      j: Job, start: Body, s: State, field: string, items: seq<Item>, low: nat, high: nat, sure: nat, middle: nat)
    requires Width(j.unbudgeted) <= 20 && Progress(j, start, s, field, items, low, high, sure) && low <= middle < high
    ensures var t := Set(j, s, field, items, middle);
      if t.rendered <= j.limit
      then Progress(j, start, t, field, items, middle + 1, high, if low == 0 then middle else sure)
      else Progress(j, start, t, field, items, low, middle, sure)
  {
    SetVerdict(j, s, field, items, middle);
    Rewrite(j, start, s.body, field, items, middle);
    assert Set(j, s, field, items, middle).body == Prefix(j, start, field, items, middle);
  }

  lemma NarrowedEnds(j: Job, s: State, field: string, items: seq<Item>, low: nat)
    requires low <= |items|
    ensures Narrowed(j, s, field, items, low, low) == (s, low)
  {
  }

  lemma NarrowedStep(j: Job, s: State, field: string, items: seq<Item>, low: nat, high: nat)
    requires low < high <= |items|
    ensures
      var middle := low + (high - low) / 2;
      var t := Set(j, s, field, items, middle);
      Narrowed(j, s, field, items, low, high) ==
        if t.rendered <= j.limit then Narrowed(j, t, field, items, middle + 1, high) else Narrowed(j, t, field, items, low, middle)
  {
  }

  ghost predicate Finished(j: Job, start: Body, r: (State, nat), field: string, items: seq<Item>, sure: nat) {
    Progress(j, start, r.0, field, items, r.1, r.1, sure)
  }

  lemma NothingToNarrow(j: Job, start: Body, s: State, field: string, items: seq<Item>, low: nat, sure: nat)
    requires low <= |items| && Progress(j, start, s, field, items, low, low, sure)
    ensures Finished(j, start, Narrowed(j, s, field, items, low, low), field, items, sure)
  {
  }

  lemma {:induction false} NarrowedFinds(
      j: Job, start: Body, s: State, field: string, items: seq<Item>, low: nat, high: nat, sure: nat)
    returns (found: nat)
    requires low <= high <= |items|
    requires Width(j.unbudgeted) <= 20 && Progress(j, start, s, field, items, low, high, sure)
    ensures Finished(j, start, Narrowed(j, s, field, items, low, high), field, items, found)
    decreases high - low
  {
    hide *;
    if low == high {
      found := sure;
      NothingToNarrow(j, start, s, field, items, low, sure);
    } else {
      var middle := low + (high - low) / 2;
      NarrowedStep(j, s, field, items, low, high);
      ProgressByOne(j, start, s, field, items, low, high, sure, middle);
      var t := Set(j, s, field, items, middle);
      if t.rendered <= j.limit {
        found := NarrowedFinds(j, start, t, field, items, middle + 1, high, if low == 0 then middle else sure);
      } else {
        found := NarrowedFinds(j, start, t, field, items, low, middle, sure);
      }
    }
  }

  /**
   * A searched array holds a prefix. If the text is too long, the prefix is empty and does
   * not fit, or it just fits and the last probe forgot that; otherwise some prefix fits
   * from whatever length it settles, and the next longer one than the retained may not.
   */
  ghost predicate Found(j: Job, start: Body, t: State, field: string, items: seq<Item>, retained: nat, sure: nat) {
    && retained < |items| && sure < |items| && t.body == Prefix(j, start, field, items, retained)
    && t.rendered < USIZE_LIMIT && IsSettled(Fixed(j, t.body), 1, t.rendered)
    && (t.rendered > j.limit ==> (retained == 0 && !Fits(j, t.body)) || JustFits(j, t.body))
    && (t.rendered <= j.limit ==> Fits(j, t.body) && !Exceeds(j, Prefix(j, start, field, items, sure)))
    && (t.rendered <= j.limit && retained + 1 < |items| ==> Exceeds(j, Prefix(j, start, field, items, retained + 1)))
  }

  lemma SearchedFinds(j: Job, s: State, field: string, items: seq<Item>) returns (retained: nat, sure: nat)
    requires Width(j.unbudgeted) <= 20 && items != [] && j.limit < s.rendered < USIZE_LIMIT
    ensures Found(j, s.body, Searched(j, s, field, items), field, items, retained, sure)
    ensures retained == if Narrowed(j, s, field, items, 0, |items|).1 == 0 then 0 else Narrowed(j, s, field, items, 0, |items|).1 - 1
  {
    sure := NarrowedFinds(j, s.body, s, field, items, 0, |items|, 0);
    var (t, low) := Narrowed(j, s, field, items, 0, |items|);
    retained := if low == 0 then 0 else low - 1;
    LastProbe(j, s.body, t, field, items, low, sure);
    if low == 0 {
      sure := 0;
    }
  }

  /** The last probe repeats one of those before it, perhaps from another length. */
  lemma LastProbe(j: Job, start: Body, t: State, field: string, items: seq<Item>, low: nat, sure: nat)
    requires Width(j.unbudgeted) <= 20 && items != [] && Progress(j, start, t, field, items, low, low, sure)
    ensures
      var retained := if low == 0 then 0 else low - 1;
      Found(j, start, Set(j, t, field, items, retained), field, items, retained, if low == 0 then 0 else sure)
  {
    var retained := if low == 0 then 0 else low - 1;
    var u := Set(j, t, field, items, retained);
    SetVerdict(j, t, field, items, retained);
    Rewrite(j, start, t.body, field, items, retained);
    assert u.body == Prefix(j, start, field, items, retained);
    MayExceedIff(Fixed(j, u.body), j.limit);
  }

  // ---------------------------------------------------------------- all arrays

  /** Arrays were cut and nothing else. */
  ghost predicate Cutting(was: map<string, JsonField>, now: map<string, JsonField>, names: seq<string>) {
    PrefixesOf(was, now, names) && OthersKept(was, now, names)
  }

  /** A response with arrays cut that fits from whatever length it settles. */
  ghost predicate SureCut(j: Job, was: map<string, JsonField>, b: Body) {
    b.truncated && Cutting(was, b.fields, j.names) && !Exceeds(j, b)
  }

  /** A response with arrays cut that just fits. */
  ghost predicate JustCut(j: Job, was: map<string, JsonField>, b: Body) {
    b.truncated && Cutting(was, b.fields, j.names) && JustFits(j, b)
  }

  /** The smallest response that can be rendered, in which all items are omitted, is too long. */
  ghost predicate EmptiedFails(j: Job, was: map<string, JsonField>, b: Body) {
    b.truncated && b.omittedItems == Total(was, j.names) && Emptied(was, b, j.names) && !Fits(j, b)
  }

  /**
   * After `count` fields without success: some cut response just fitted, or they are all
   * empty, and `tried` is the last one that was rendered, if any array had items.
   */
  ghost predicate NothingFits(j: Job, was: map<string, JsonField>, now: map<string, JsonField>, count: nat, tried: Option<Body>)
    requires count <= |j.names|
  {
    && (forall k :: 0 <= k < count ==> ItemsOf(now, j.names[k]) == [])
    && (tried.None? ==> SameItems(was, now, j.names))
    && (tried.Some? ==> TriedInVain(j, was, now, tried.value))
  }

  ghost predicate TriedInVain(j: Job, was: map<string, JsonField>, now: map<string, JsonField>, b: Body) {
    && b.truncated && Total(b.fields, j.names) + b.omittedItems == Total(was, j.names)
    && SameItems(b.fields, now, j.names) && OthersKept(was, b.fields, j.names) && !Fits(j, b)
  }

  lemma NothingFitsAtAll(j: Job, was: map<string, JsonField>, now: map<string, JsonField>, tried: Option<Body>)
    requires NothingFits(j, was, now, |j.names|, tried)
    ensures Total(was, j.names) > 0 ==> exists b: Body :: EmptiedFails(j, was, b)
  {
    if tried.None? {
      NoItemsNoTotal(was, j.names);
    } else {
      NoItemsNoTotal(tried.value.fields, j.names);
      assert EmptiedFails(j, was, tried.value);
    }
  }

  lemma EmptyToo(before: map<string, JsonField>, now: map<string, JsonField>, names: seq<string>, i: nat)
    requires i < |names| && SameElsewhere(before, now, names, names[i]) && ItemsOf(now, names[i]) == []
    requires forall k :: 0 <= k < i ==> ItemsOf(before, names[k]) == []
    ensures forall k :: 0 <= k < i + 1 ==> ItemsOf(now, names[k]) == []
  {
    forall k | 0 <= k < i + 1
      ensures ItemsOf(now, names[k]) == []
    {
      assert names[k] in names;
    }
  }

  /** One more field was emptied in vain, or had nothing in it. */
  lemma StillNothingFits(j: Job, was: map<string, JsonField>, before: map<string, JsonField>, now: Body, i: nat, tried: Option<Body>, searched: bool)
    requires i < |j.names| && NothingFits(j, was, before, i, tried)
    requires SameElsewhere(before, now.fields, j.names, j.names[i])
    requires ItemsOf(now.fields, j.names[i]) == []
    requires !searched ==> ItemsOf(before, j.names[i]) == []
    requires searched ==> TriedInVain(j, was, now.fields, now)
    ensures NothingFits(j, was, now.fields, i + 1, if searched then Some(now) else tried)
  {
    EmptyToo(before, now.fields, j.names, i);
    if !searched {
      assert SameItems(before, now.fields, j.names);
    }
  }

  lemma TakenKeeps(was: map<string, JsonField>, b: Body, names: seq<string>, field: string)
    requires Cutting(was, b.fields, names) && field in names
    ensures Cutting(was, Taken(b, field).fields, names) && ItemsOf(b.fields, field) <= ItemsOf(was, field)
    ensures ItemsOf(Taken(b, field).fields, field) == []
    ensures SameElsewhere(b.fields, Taken(b, field).fields, names, field)
  {
  }

  lemma AfterField(
      was: map<string, JsonField>, taken: Body, now: Body, names: seq<string>, field: string, items: seq<Item>, retained: nat,
      j: Job, sure: nat, t: State)
    requires Cutting(was, taken.fields, names) && field in names && items <= ItemsOf(was, field)
    requires j.names == names && j.original == Total(was, names)
    requires t.body == now && Found(j, taken, t, field, items, retained, sure)
    ensures Cutting(was, now.fields, names)
  {
    AfterSearch(was, taken, names, field, items, retained, j.original);
  }

  /** What the search of one field leaves behind; `cut` is a prefix that is sure to fit. */
  ghost predicate FieldSearched(j: Job, was: map<string, JsonField>, taken: Body, u: State, field: string, cut: Body) {
    && CutTo(was, taken, u.body, j.names, field)
    && u.rendered < USIZE_LIMIT && IsSettled(Fixed(j, u.body), 1, u.rendered)
    && (u.rendered <= j.limit ==> SureCut(j, was, cut))
    && (u.rendered > j.limit ==> JustCut(j, was, u.body) || (ItemsOf(u.body.fields, field) == [] && !Fits(j, u.body)))
  }

  lemma FieldIsSearched(j: Job, was: map<string, JsonField>, s: State, field: string, items: seq<Item>) returns (cut: Body)
    requires Width(j.unbudgeted) <= 20 && j.limit < s.rendered < USIZE_LIMIT
    requires Cutting(was, s.body.fields, j.names) && field in j.names && j.original == Total(was, j.names)
    requires items != [] && items <= ItemsOf(was, field)
    ensures FieldSearched(j, was, s.body, Searched(j, s, field, items), field, cut)
  {
    var retained, sure := SearchedFinds(j, s, field, items);
    AfterSearch(was, s.body, j.names, field, items, retained, j.original);
    AfterSearch(was, s.body, j.names, field, items, sure, j.original);
    cut := Prefix(j, s.body, field, items, sure);
  }

  /** How cutting ends: with a text that fits, or with a reason why none was found. */
  ghost predicate CutEnds(j: Job, was: map<string, JsonField>, t: State, done: bool) {
    && Cutting(was, t.body.fields, j.names) && t.rendered < USIZE_LIMIT
    && (done <==> t.rendered <= j.limit)
    && (done ==>
          && t.body.truncated && t.body.omittedItems > 0
          && Total(t.body.fields, j.names) + t.body.omittedItems == Total(was, j.names)
          && IsSettled(Fixed(j, t.body), 1, t.rendered)
          && exists cut: Body :: SureCut(j, was, cut))
    && (!done && Total(was, j.names) > 0 ==>
          (exists b: Body :: EmptiedFails(j, was, b)) || (exists b: Body :: JustCut(j, was, b)))
  }

  /** No text fitted among the first `i` fields. */
  ghost predicate NoneYet(j: Job, was: map<string, JsonField>, s: State, i: nat, tried: Option<Body>)
    requires i <= |j.names|
  {
    && Cutting(was, s.body.fields, j.names) && j.limit < s.rendered < USIZE_LIMIT
    && ((exists b: Body :: JustCut(j, was, b)) || NothingFits(j, was, s.body.fields, i, tried))
  }

  lemma NothingInField(j: Job, was: map<string, JsonField>, s: State, i: nat, tried: Option<Body>)
    requires i < |j.names| && NoneYet(j, was, s, i, tried) && ItemsOf(s.body.fields, j.names[i]) == []
    ensures NoneYet(j, was, s.(body := Taken(s.body, j.names[i])), i + 1, tried)
  {
    TakenKeeps(was, s.body, j.names, j.names[i]);
    if NothingFits(j, was, s.body.fields, i, tried) {
      StillNothingFits(j, was, s.body.fields, Taken(s.body, j.names[i]), i, tried, false);
    }
  }

  lemma FieldInVain(j: Job, was: map<string, JsonField>, s: State, i: nat, tried: Option<Body>, u: State, cut: Body)
    requires i < |j.names| && NoneYet(j, was, s, i, tried)
    requires FieldSearched(j, was, Taken(s.body, j.names[i]), u, j.names[i], cut) && u.rendered > j.limit
    ensures NoneYet(j, was, u, i + 1, Some(u.body))
  {
    TakenKeeps(was, s.body, j.names, j.names[i]);
    SameElsewhereToo(s.body.fields, Taken(s.body, j.names[i]).fields, u.body.fields, j.names, j.names[i]);
    if !JustCut(j, was, u.body) && NothingFits(j, was, s.body.fields, i, tried) {
      assert TriedInVain(j, was, u.body.fields, u.body);
      StillNothingFits(j, was, s.body.fields, u.body, i, tried, true);
    }
  }

  lemma {:induction false} CutFromEnds(j: Job, was: map<string, JsonField>, s: State, i: nat, tried: Option<Body>)
    requires Width(j.unbudgeted) <= 20 && j.original == Total(was, j.names)
    requires i <= |j.names| && NoneYet(j, was, s, i, tried)
    ensures var (t, done) := CutFrom(j, s, i); CutEnds(j, was, t, done)
    decreases |j.names| - i
  {
    if i == |j.names| {
      if NothingFits(j, was, s.body.fields, i, tried) {
        NothingFitsAtAll(j, was, s.body.fields, tried);
      }
    } else {
      var items := ItemsOf(s.body.fields, j.names[i]);
      var t := s.(body := Taken(s.body, j.names[i]));
      TakenKeeps(was, s.body, j.names, j.names[i]);
      if items == [] {
        NothingInField(j, was, s, i, tried);
        CutFromEnds(j, was, t, i + 1, tried);
      } else {
        var u := Searched(j, t, j.names[i], items);
        var cut := FieldIsSearched(j, was, t, j.names[i], items);
        if u.rendered > j.limit {
          FieldInVain(j, was, s, i, tried, u, cut);
          CutFromEnds(j, was, u, i + 1, Some(u.body));
        }
      }
    }
  }

  // ---------------------------------------------------------------- which arrays are cut

  /** The text with one item more than is retained, its counters brought up to date. */
  ghost predicate OneLonger(j: Job, was: Body, t: Body, field: string, items: seq<Item>, retained: nat, longer: Body) {
    && retained < |items| && longer.fields == t.fields[field := Items(items[..retained + 1])]
    && longer.truncated && longer.topTruncated == t.topTruncated
    && longer.omittedItems == if Total(longer.fields, j.names) <= j.original then j.original - Total(longer.fields, j.names) else 0
  }

  /**
   * Array number `i` was cut to `retained` of its items. One item more may exceed the limit.
   * Arrays listed later are whole and, at a limit that is no run of nines, those listed
   * before are empty. A truncation mark that was there is set.
   */
  ghost predicate CutAt(j: Job, was: Body, t: Body, i: nat, items: seq<Item>, retained: nat) {
    && i < |j.names| && retained < |items| && ItemsOf(t.fields, j.names[i]) == items[..retained]
    && items <= ItemsOf(was.fields, j.names[i]) && (j.names[i] !in j.names[..i] ==> items == ItemsOf(was.fields, j.names[i]))
    && (forall name :: name in j.names && name !in j.names[..i + 1] ==> ItemsOf(t.fields, name) == ItemsOf(was.fields, name))
    && (RunOfNines(j.limit) || forall k :: 0 <= k < i ==> ItemsOf(t.fields, j.names[k]) == [])
    && t.topTruncated == (if was.topTruncated.Some? then Some(true) else None)
    && (retained + 1 < |items| ==> exists longer :: OneLonger(j, was, t, j.names[i], items, retained, longer) && Exceeds(j, longer))
  }

  ghost predicate CutInOrder(j: Job, was: Body, t: Body) {
    exists i: nat, items: seq<Item>, retained: nat :: CutAt(j, was, t, i, items, retained)
  }

  /** The first `i` arrays were searched in vain, and the others were not touched. */
  ghost predicate SearchedTo(j: Job, was: Body, s: State, i: nat)
    requires i <= |j.names|
  {
    && j.limit < s.rendered < USIZE_LIMIT
    && (forall name :: name in j.names ==> ItemsOf(s.body.fields, name) <= ItemsOf(was.fields, name))
    && (forall name :: name in j.names && name !in j.names[..i] ==> ItemsOf(s.body.fields, name) == ItemsOf(was.fields, name))
    && (RunOfNines(j.limit) || forall k :: 0 <= k < i ==> ItemsOf(s.body.fields, j.names[k]) == [])
    && (s.body.topTruncated == was.topTruncated || s.body.topTruncated == if was.topTruncated.Some? then Some(true) else None)
  }

  lemma SearchedToTaken(j: Job, was: Body, s: State, i: nat)
    requires i < |j.names| && SearchedTo(j, was, s, i) && ItemsOf(s.body.fields, j.names[i]) == []
    ensures SearchedTo(j, was, s.(body := Taken(s.body, j.names[i])), i + 1)
  {
    assert j.names[..i + 1] == j.names[..i] + [j.names[i]];
  }

  /** The search of the next array; it is the last one exactly if the text then fits. */
  lemma SearchedOneMore(j: Job, was: Body, s: State, i: nat)
    requires Width(j.unbudgeted) <= 20 && i < |j.names| && SearchedTo(j, was, s, i)
    requires ItemsOf(s.body.fields, j.names[i]) != []
    ensures
      var items := ItemsOf(s.body.fields, j.names[i]);
      var u := Searched(j, s.(body := Taken(s.body, j.names[i])), j.names[i], items);
      if u.rendered <= j.limit then CutInOrder(j, was, u.body) else SearchedTo(j, was, u, i + 1)
  {
    var field, items := j.names[i], ItemsOf(s.body.fields, j.names[i]);
    var taken := s.(body := Taken(s.body, field));
    var u := Searched(j, taken, field, items);
    var retained, sure := SearchedFinds(j, taken, field, items);
    CutSame(j, was, s, i, u, retained);
    if u.rendered <= j.limit {
      if retained + 1 < |items| {
        var longer := Prefix(j, taken.body, field, items, retained + 1);
        Rewrite(j, taken.body, u.body, field, items, retained + 1);
        assert OneLonger(j, was, u.body, field, items, retained, longer) && Exceeds(j, longer);
      }
      assert CutAt(j, was, u.body, i, items, retained);
    }
  }

  /** Setting a prefix of one array leaves the others as they are. */
  lemma CutSame(j: Job, was: Body, s: State, i: nat, u: State, retained: nat)
    requires i < |j.names| && SearchedTo(j, was, s, i)
    requires var items := ItemsOf(s.body.fields, j.names[i]);
             && retained < |items| && u.body == Prefix(j, Taken(s.body, j.names[i]), j.names[i], items, retained)
             && (u.rendered > j.limit ==> retained == 0 || RunOfNines(j.limit))
    ensures var items := ItemsOf(s.body.fields, j.names[i]);
      && ItemsOf(u.body.fields, j.names[i]) == items[..retained] && items <= ItemsOf(was.fields, j.names[i])
      && (j.names[i] !in j.names[..i] ==> items == ItemsOf(was.fields, j.names[i]))
      && (forall name :: name in j.names && name !in j.names[..i + 1] ==> ItemsOf(u.body.fields, name) == ItemsOf(was.fields, name))
      && (forall name :: name in j.names ==> ItemsOf(u.body.fields, name) <= ItemsOf(was.fields, name))
      && (RunOfNines(j.limit) || forall k :: 0 <= k < i ==> ItemsOf(u.body.fields, j.names[k]) == [])
      && (u.rendered > j.limit ==> RunOfNines(j.limit) || forall k :: 0 <= k <= i ==> ItemsOf(u.body.fields, j.names[k]) == [])
      && u.body.topTruncated == (if was.topTruncated.Some? then Some(true) else None)
  {
    assert j.names[..i + 1] == j.names[..i] + [j.names[i]];
    assert forall name :: name in j.names && name != j.names[i] ==> ItemsOf(u.body.fields, name) == ItemsOf(s.body.fields, name);
  }

  lemma {:induction false} CutFromInOrder(j: Job, was: Body, s: State, i: nat)
    requires Width(j.unbudgeted) <= 20 && i <= |j.names| && SearchedTo(j, was, s, i)
    ensures var (t, done) := CutFrom(j, s, i); done ==> CutInOrder(j, was, t.body)
    decreases |j.names| - i
  {
    if i < |j.names| {
      CutFromStep(j, s, i);
      var items := ItemsOf(s.body.fields, j.names[i]);
      var t := s.(body := Taken(s.body, j.names[i]));
      hide Taken, Searched, SearchedTo, CutInOrder;
      if items == [] {
        SearchedToTaken(j, was, s, i);
        CutFromInOrder(j, was, t, i + 1);
      } else {
        var u := Searched(j, t, j.names[i], items);
        SearchedOneMore(j, was, s, i);
        if u.rendered > j.limit {
          CutFromInOrder(j, was, u, i + 1);
        }
      }
    }
  }

  // ---------------------------------------------------------------- what a rendering is worth

  /** The full text if it fits; and otherwise what cutting it ends with. */
  lemma RenderingEnds(size: Size, b: Body, names: seq<string>, limit: nat)
    ensures var j := JobOf(size, b, names, limit); var (t, ok) := Rendering(size, b, names, limit);
      if Unbudgeted(size, b) <= limit then ok && t == State(b, Unbudgeted(size, b)) else CutEnds(j, b.fields, t, ok)
  {
    UnbudgetedIsShort(size, b);
    if Unbudgeted(size, b) > limit {
      CutFromEnds(JobOf(size, b, names, limit), b.fields, State(b, Unbudgeted(size, b)), 0, None);
    }
  }

  lemma RenderingCuts(size: Size, b: Body, names: seq<string>, limit: nat)
    requires Unbudgeted(size, b) > limit
    ensures Rendering(size, b, names, limit) == CutFrom(JobOf(size, b, names, limit), State(b, Unbudgeted(size, b)), 0)
    ensures Cutting(b.fields, b.fields, names)
  {
  }

  /** Arrays are cut in the order in which they are listed, and no further than necessary. */
  lemma RenderingCutsInOrder(size: Size, b: Body, names: seq<string>, limit: nat)
    ensures var (t, ok) := Rendering(size, b, names, limit);
      ok && Unbudgeted(size, b) > limit ==> CutInOrder(JobOf(size, b, names, limit), b, t.body)
  {
    UnbudgetedIsShort(size, b);
    if Unbudgeted(size, b) > limit {
      CutFromInOrder(JobOf(size, b, names, limit), b, State(b, Unbudgeted(size, b)), 0);
    }
  }

  ghost predicate Refused(size: Size, b: Body, names: seq<string>, limit: nat) {
    !Rendering(size, b, names, limit).1
  }

  /** The message of the refusal is true: not even the smallest response fits. */
  ghost predicate RefusedRightly(size: Size, b: Body, names: seq<string>, limit: nat) {
    exists emptied: Body :: EmptiedFails(JobOf(size, b, names, limit), b.fields, emptied)
  }

  /** If all that can be rendered may exceed the limit, nothing is. */
  lemma DoubtfulIsRefused(size: Size, b: Body, names: seq<string>, limit: nat)
    requires Unbudgeted(size, b) > limit
    requires forall cut: Body :: cut.truncated ==> Exceeds(JobOf(size, b, names, limit), cut)
    ensures Refused(size, b, names, limit)
  {
    RenderingEnds(size, b, names, limit);
  }

  const SAMPLE := Body(map["a" := Items([Item("x")])], None, false, 0)

  /** A response of one item that, at this limit, just fits without its item. */
  function Tight(limit: nat): Size
    requires limit + 61 < USIZE_LIMIT
  {
    (b: Body) => if b.truncated && limit >= 2 * Width(limit) + 1 then limit - 2 * Width(limit) - 1 else limit + 1
  }

  lemma TightIsTight(limit: nat)
    requires RunOfNines(limit) && limit + 61 < USIZE_LIMIT
    ensures Unbudgeted(Tight(limit), SAMPLE) > limit >= 2 * Width(limit) + 1
    ensures forall b: Body :: b.truncated ==>
      Tight(limit)(b) + Width(Unbudgeted(Tight(limit), SAMPLE)) == limit - Width(limit)
  {
    var w, full := Width(limit), Unbudgeted(Tight(limit), SAMPLE);
    WidthBelow(limit);
    UnbudgetedIsShort(Tight(limit), SAMPLE);
    assert Pow10(w + 1) == 10 * Pow10(w) && Pow10(w) == 10 * Pow10(w - 1);
    WidthByPowers(full, w + 1);
    WidthByPowers(full, w);
  }

  /** At every run of nines some response is refused although it fits without its items. */
  lemma FittingResponseIsRefused(limit: nat)
    requires RunOfNines(limit) && limit + 61 < USIZE_LIMIT
    ensures Total(SAMPLE.fields, ["a"]) == 1
    ensures Refused(Tight(limit), SAMPLE, ["a"], limit) && !RefusedRightly(Tight(limit), SAMPLE, ["a"], limit)
  {
    var j := JobOf(Tight(limit), SAMPLE, ["a"], limit);
    TightIsTight(limit);
    var base: Base := limit - Width(limit);
    SettledTwice(base, limit, limit + 1);
    LeastIsLeast(base, 1);
    MayExceedIff(base, limit);
    forall b: Body | b.truncated
      ensures Fits(j, b) && Exceeds(j, b)
    {
      assert Fixed(j, b) == base;
      assert IsSettled(base, 1, limit) && IsSettled(base, 1, limit + 1);
    }
    DoubtfulIsRefused(Tight(limit), SAMPLE, ["a"], limit);
  }

  /** A run of nines below 2^64 is far enough below it. */
  lemma NinesAreRoomy(limit: nat)
    requires RunOfNines(limit) && limit < USIZE_LIMIT
    ensures limit + 61 < USIZE_LIMIT
  {
    WidthOfUsize(limit);
    TwentyDigits();
    WidthByPowers(limit, 19);
    assert Pow10(20) == 10 * Pow10(19);
    if Width(limit) == 20 {
      assert false;
    }
  }

  /**
   * Exactly at the limits that are no run of nines can a refusal be believed: there every
   * response that is refused is too long even without any item, and at a run of nines
   * some are not.
   */
  lemma RefusalsAreRightIff(limit: nat)
    requires limit < USIZE_LIMIT
    ensures !RunOfNines(limit) <==>
      forall size: Size, b: Body, names: seq<string> ::
        Refused(size, b, names, limit) && Total(b.fields, names) > 0 ==> RefusedRightly(size, b, names, limit)
  {
    if RunOfNines(limit) {
      NinesAreRoomy(limit);
      FittingResponseIsRefused(limit);
    } else {
      forall size: Size, b: Body, names: seq<string> | Refused(size, b, names, limit) && Total(b.fields, names) > 0
        ensures RefusedRightly(size, b, names, limit)
      {
        RenderingEnds(size, b, names, limit);
        assert forall cut: Body :: !JustCut(JobOf(size, b, names, limit), b.fields, cut);
      }
    }
  }

  // ---------------------------------------------------------------- a response that is refused with room to spare

  const EIGHT: seq<Item> := [Item("1"), Item("2"), Item("3"), Item("4"), Item("5"), Item("6"), Item("7"), Item("8")]

  const FULL := Body(map["a" := Items(EIGHT)], None, false, 0)

  /** Five items are short, six just fit the limit 999, seven do not. */
  function Stepped(): Size {
    (b: Body) =>
      if !b.truncated then 1990
      else var n := |ItemsOf(b.fields, "a")|; if n <= 5 then 400 else if n == 6 then 992 else 1500
  }

  const STEPPED := Job(Stepped(), 1998, ["a"], 8, 999)

  lemma SteppedRounds()
    ensures Unbudgeted(Stepped(), FULL) == 1998 && Width(1998) == 4
    ensures SettledFrom(404, 1998) == 407 && SettledFrom(996, 407) == 999
    ensures SettledFrom(1504, 999) == 1508 && SettledFrom(996, 1508) == 1000
  {
    assert Width(1992) == 4 && Width(1998) == 4 && Width(408) == 3 && Width(407) == 3 && Width(999) == 3;
    assert Width(1507) == 4 && Width(1508) == 4 && Width(1000) == 4;
  }

  lemma SteppedSet(s: State, k: nat)
    requires k < 8
    ensures var t := Set(STEPPED, s, "a", EIGHT, k);
      && t.body.truncated && ItemsOf(t.body.fields, "a") == EIGHT[..k]
      && t.rendered == SettledFrom((if k <= 5 then 404 else if k == 6 then 996 else 1504), s.rendered)
  {
    SteppedRounds();
    assert |EIGHT[..k]| == k;
  }

  lemma SteppedSearch(s: State)
    requires s.rendered == 1998
    ensures Searched(STEPPED, s, "a", EIGHT).rendered == 1000
  {
    SteppedRounds();
    var four := Set(STEPPED, s, "a", EIGHT, 4);
    SteppedSet(s, 4);
    var six := Set(STEPPED, four, "a", EIGHT, 6);
    SteppedSet(four, 6);
    var seven := Set(STEPPED, six, "a", EIGHT, 7);
    SteppedSet(six, 7);
    SteppedSet(seven, 6);
    assert |EIGHT| == 8;
    assert Narrowed(STEPPED, seven, "a", EIGHT, 7, 7) == (seven, 7);
    assert Narrowed(STEPPED, six, "a", EIGHT, 7, 8) == (seven, 7);
    assert Narrowed(STEPPED, four, "a", EIGHT, 5, 8) == (seven, 7);
    assert Narrowed(STEPPED, s, "a", EIGHT, 0, 8) == (seven, 7);
  }

  lemma SteppedJob()
    ensures JobOf(Stepped(), FULL, ["a"], 999) == STEPPED && Unbudgeted(Stepped(), FULL) == 1998
  {
    SteppedRounds();
    assert ["a"][..0] == [] && |EIGHT| == 8;
    assert Total(FULL.fields, ["a"]) == Total(FULL.fields, []) + 8;
  }

  /**
   * At the limit 999 the probes of four, six and seven items find that six fit; the last
   * probe then settles those from 1508 on 1000, and the response is refused, although
   * five items fit from whatever length they settle.
   */
  lemma RoomyResponseIsRefused()
    ensures Refused(Stepped(), FULL, ["a"], 999)
    ensures exists cut: Body ::
      SureCut(JobOf(Stepped(), FULL, ["a"], 999), FULL.fields, cut) && |ItemsOf(cut.fields, "a")| == 5
  {
    SteppedJob();
    var full := State(FULL, 1998);
    var taken := full.(body := Taken(FULL, "a"));
    SteppedSearch(taken);
    var u := Searched(STEPPED, taken, "a", EIGHT);
    assert CutFrom(STEPPED, u, 1) == (u, false);
    assert CutFrom(STEPPED, full, 0) == (u, false);
    var cut := Prefix(STEPPED, FULL, "a", EIGHT, 5);
    SteppedSet(full, 5);
    AfterSearch(FULL.fields, FULL, ["a"], "a", EIGHT, 5, 8);
    FiveAreShort();
    assert SureCut(STEPPED, FULL.fields, cut);
  }

  lemma FiveAreShort()
    ensures !MayExceed(404, 999)
  {
    SteppedRounds();
    assert Least(404, 1) == 407;
    MayExceedIff(404, 999);
  }

  // ---------------------------------------------------------------- the loops

  class Response {
    var body: Body
    var renderedBytes: nat
    var unbudgetedBytes: nat
    const size: Size

    constructor (fields: map<string, JsonField>, topTruncated: Option<bool>, size: Size)
      ensures body == Body(fields, topTruncated, false, 0)
      ensures renderedBytes == unbudgetedBytes == 0 && this.size == size
    {
      body := Body(fields, topTruncated, false, 0);
      renderedBytes, unbudgetedBytes := 0, 0;
      this.size := size;
    }

    /** The length of the text that serializing the response would give now. */
    function TextLength(): nat
      reads this
    {
      size(body) + Width(renderedBytes) + Width(unbudgetedBytes)
    }

    ghost predicate Valid()
      reads this
    {
      renderedBytes < USIZE_LIMIT && Width(unbudgetedBytes) <= 20
    }

    ghost function Now(): State
      reads this
    {
      State(body, renderedBytes)
    }

    ghost predicate WorksOn(j: Job)
      reads this
    {
      Valid() && j.size == size && j.unbudgeted == unbudgetedBytes
    }

    /** `settle_value_rendered_bytes`. */
    method SettleRenderedBytes(ghost j: Job) returns (rendered: nat)
      requires WorksOn(j)
      modifies this`renderedBytes
      ensures WorksOn(j) && rendered == renderedBytes == TextLength()
      ensures rendered == SettledFrom(Fixed(j, body), old(renderedBytes))
    {
      rendered := SettleRendered(size(body) + Width(unbudgetedBytes), renderedBytes);
      renderedBytes := rendered;
    }

    /** `settle_unbudgeted_response`. */
    method SettleBoth() returns (rendered: nat)
      requires renderedBytes == unbudgetedBytes == 0
      modifies this`renderedBytes, this`unbudgetedBytes
      ensures Valid() && rendered == renderedBytes == unbudgetedBytes == TextLength()
      ensures rendered == Unbudgeted(size, body)
    {
      rendered := SettleUnbudgeted(size(body));
      renderedBytes, unbudgetedBytes := rendered, rendered;
      UnbudgetedIsShort(size, body);
    }

    /** `set_bounded_array_prefix`: the count of omitted items does not underflow. */
    method SetPrefix(names: seq<string>, field: string, items: seq<Item>, retained: nat, original: nat, ghost j: Job)
      returns (rendered: nat)
      requires WorksOn(j) && j.names == names && j.original == original
      requires retained < |items| && Within(body.fields, names, field, items, original)
      modifies this`body, this`renderedBytes
      ensures WorksOn(j) && rendered == renderedBytes == TextLength()
      ensures Within(body.fields, names, field, items, original)
      ensures Now() == Set(j, old(Now()), field, items, retained)
    {
      // The subtraction below does not underflow.
      assert Total(body.fields[field := Items(items[..retained])], names) <= original;
      WithinStill(body.fields, names, field, items, original, Items(items[..retained]));
      body := WithPrefix(body, names, field, items, retained, original);
      rendered := SettleRenderedBytes(j);
    }

    /** The binary search over the proper prefixes of one array. */
    method Narrow(names: seq<string>, field: string, items: seq<Item>, original: nat, limit: nat, ghost j: Job)
      returns (low: nat)
      requires WorksOn(j) && j.names == names && j.original == original && j.limit == limit
      requires Within(body.fields, names, field, items, original)
      modifies this`body, this`renderedBytes
      ensures WorksOn(j) && Within(body.fields, names, field, items, original) && low <= |items|
      ensures (Now(), low) == Narrowed(j, old(Now()), field, items, 0, |items|)
    {
      hide Narrowed, Set, Within;
      low := 0;
      var high := |items|;
      while low < high
        invariant 0 <= low <= high <= |items|
        invariant WorksOn(j) && Within(body.fields, names, field, items, original)
        invariant Narrowed(j, Now(), field, items, low, high) == Narrowed(j, old(Now()), field, items, 0, |items|)
      {
        var middle := low + (high - low) / 2;
        NarrowedStep(j, Now(), field, items, low, high);
        var rendered := SetPrefix(names, field, items, middle, original, j);
        if rendered <= limit {
          low := middle + 1;
        } else {
          high := middle;
        }
      }
      NarrowedEnds(j, Now(), field, items, low);
    }

    /**
     * One listed array. At any limit a prefix is cut only if the next longer one may exceed
     * the limit; and a text that is too long has no items left and does not fit, or it
     * just fits a run of nines.
     */
    method SearchField(names: seq<string>, field: string, items: seq<Item>, original: nat, limit: nat, ghost j: Job)
      returns (rendered: nat, retained: nat, ghost sure: nat)
      requires WorksOn(j) && j.names == names && j.original == original && j.limit == limit
      requires items != [] && renderedBytes > limit && Within(body.fields, names, field, items, original)
      modifies this`body, this`renderedBytes
      ensures WorksOn(j) && rendered == renderedBytes == TextLength()
      ensures Now() == Searched(j, old(Now()), field, items)
      ensures Found(j, old(body), Now(), field, items, retained, sure)
    {
      hide Narrowed, Set, Found, Within;
      ghost var start := Now();
      var low := Narrow(names, field, items, original, limit, j);
      retained := if low == 0 then 0 else low - 1;
      rendered := SetPrefix(names, field, items, retained, original, j);
      ghost var found;
      found, sure := SearchedFinds(j, start, field, items);
    }

    method Take(field: string) returns (items: seq<Item>)
      modifies this`body
      ensures items == ItemsOf(old(body.fields), field) && body == Taken(old(body), field)
    {
      items := ItemsOf(body.fields, field);
      if field !in body.fields {
        body := body.(fields := body.fields[field := Other]);
      } else if body.fields[field].Items? {
        body := body.(fields := body.fields[field := Items([])]);
      }
    }

    /** One round over the listed fields. */
    method CutField(names: seq<string>, i: nat, original: nat, limit: nat, ghost was: map<string, JsonField>, ghost j: Job)
      returns (done: bool, rendered: nat)
      requires i < |names| && WorksOn(j) && j.names == names && j.original == original == Total(was, names) && j.limit == limit
      requires Cutting(was, body.fields, names) && renderedBytes > limit
      modifies this`body, this`renderedBytes
      ensures WorksOn(j) && Cutting(was, body.fields, names) && rendered == renderedBytes && (done <==> rendered <= limit)
      ensures done ==> rendered == TextLength()
      ensures CutFrom(j, old(Now()), i) == if done then (Now(), true) else CutFrom(j, Now(), i + 1)
    {
      CutFromStep(j, Now(), i);
      TakenKeeps(was, body, names, names[i]);
      var items := Take(names[i]);
      if items == [] {
        return false, renderedBytes;
      }
      PrefixTotals(was, body.fields, names, names[i], items);
      hide CutFrom, Searched, Found, Taken, Within, PrefixesOf, OthersKept;
      ghost var taken := body;
      var retained;
      ghost var sure;
      rendered, retained, sure := SearchField(names, names[i], items, original, limit, j);
      AfterField(was, taken, body, names, names[i], items, retained, j, sure, Now());
      done := rendered <= limit;
    }

    /**
     * Cut the listed arrays, one after the other, until the text fits. On success the state
     * of the object is the text that is returned. Arrays are cut only if the full text
     * exceeds the limit, and some cut text then fits from whatever length it settles. An
     * error means that not even empty arrays fit, or that some cut text just fits a limit
     * that is a run of nines.
     */
    method Render(names: seq<string>, limit: nat) returns (r: Result<nat, Error>)
      requires renderedBytes == unbudgetedBytes == 0
      requires !body.truncated && body.omittedItems == 0
      modifies this
      ensures r == Err(LimitIsZero) <==> limit == 0
      ensures limit > 0 ==>
        && unbudgetedBytes == Unbudgeted(size, old(body)) && (Now(), r.Ok?) == Rendering(size, old(body), names, limit)
        && r == if r.Ok? then Ok(renderedBytes) else Err(BelowEnvelope(renderedBytes))
      ensures limit > 0 ==> (unbudgetedBytes <= limit <==> r.Ok? && !body.truncated)
      ensures limit > 0 && unbudgetedBytes <= limit ==> body == old(body)
      ensures limit > 0 && unbudgetedBytes > limit ==> CutEnds(JobOf(size, old(body), names, limit), old(body.fields), Now(), r.Ok?)
      ensures limit > 0 && unbudgetedBytes > limit && r.Ok? ==> CutInOrder(JobOf(size, old(body), names, limit), old(body), body)
      ensures r.Ok? ==> r.value == TextLength() <= limit
    {
      hide CutFrom, Rendering, Cutting, CutEnds, CutInOrder, Total, RunOfNines;
      if limit == 0 {
        return Err(LimitIsZero);
      }
      ghost var was := body;
      var original := Total(body.fields, names);
      ghost var j := JobOf(size, body, names, limit);
      RenderingEnds(size, body, names, limit);
      RenderingCutsInOrder(size, body, names, limit);
      var rendered: nat := SettleBoth();
      if rendered <= limit {
        return Ok(rendered);
      }
      RenderingCuts(size, was, names, limit);
      for i := 0 to |names|
        invariant WorksOn(j) && Cutting(was.fields, body.fields, names) && limit < rendered == renderedBytes
        invariant CutFrom(j, Now(), i) == Rendering(size, was, names, limit)
      {
        var done;
        done, rendered := CutField(names, i, original, limit, was.fields, j);
        if done {
          return Ok(rendered);
        }
      }
      NoArrayLeft(j, Now());
      return Err(BelowEnvelope(rendered));
    }
  }
}
