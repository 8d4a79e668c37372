/**
 * Which sources of a dependency are indexed: entry points first, then by path, within
 * limits on the number of files, their size and their sum.
 */
module PackagePlan {
  import opened Wrappers
  import opened Publication
  import Sorting

  const U64_MAX := 0xFFFF_FFFF_FFFF_FFFF

  type U64 = n: nat | n <= U64_MAX

  /** A collected source; `relative` is nothing if it lies outside the package. */
  datatype Source = Source(path: Text, relative: Option<Text>, bytes: U64)

  datatype Limits = Limits(maxFiles: nat, maxBytes: U64, maxFileBytes: U64)

  datatype Plan = Plan(files: seq<Source>, skippedFiles: nat, skippedBytes: U64, complete: bool)

  datatype PlanError = ZeroLimit | Overflow

  function SaturatingAdd(a: U64, b: U64): U64 {
    if a + b <= U64_MAX then a + b else U64_MAX
  }

  function Sum(files: seq<Source>): nat {
    if files == [] then 0 else Sum(files[..|files| - 1]) + files[|files| - 1].bytes
  }

  /** Appending one source, or none. */
  lemma SumAppend(files: seq<Source>, s: Source)
    ensures Sum(files + [s]) == Sum(files) + s.bytes && files + [] == files
  {
    assert (files + [s])[..|files|] == files;
  }

  // ---------------------------------------------------------------- order

  predicate Forced(forced: set<Text>, s: Source) {
    s.relative.Some? && s.relative.value in forced
  }

  /** How the platform orders paths, component by component. */
  type PathOrder = (Text, Text) -> bool

  predicate Before(paths: PathOrder, forced: set<Text>, a: Source, b: Source) {
    if Forced(forced, a) == Forced(forced, b) then paths(a.path, b.path) else Forced(forced, a)
  }

  function InOrder(sources: seq<Source>, paths: PathOrder, forced: set<Text>): seq<Source> {
    Sorting.Sort(sources, (a, b) => Before(paths, forced, a, b))
  }

  /** Entry points come first, and both they and the others in the order of their paths. */
  ghost predicate EntriesFirst(order: seq<Source>, paths: PathOrder, forced: set<Text>) {
    forall i, j :: 0 <= i < j < |order| ==>
      var first, second := order[i].relative, order[j].relative;
      && (second.Some? && second.value in forced ==> first.Some? && first.value in forced)
      && ((second.Some? && second.value in forced) == (first.Some? && first.value in forced) ==> paths(order[i].path, order[j].path))
  }

  /** No source that is not an entry point comes before one that is. */
  lemma ForcedFirst(sources: seq<Source>, paths: PathOrder, forced: set<Text>)
    requires Sorting.TotalPreorder(paths)
    ensures EntriesFirst(InOrder(sources, paths, forced), paths, forced)
    ensures multiset(InOrder(sources, paths, forced)) == multiset(sources)
  {
    var le := (a, b) => Before(paths, forced, a, b);
    assert Sorting.TotalPreorder(le) by {
      forall x, y, z | le(x, y) && le(y, z)
        ensures le(x, z)
      {
        assert paths(x.path, y.path) && paths(y.path, z.path) ==> paths(x.path, z.path);
      }
    }
    Sorting.SortSorts(sources, le);
    var order := InOrder(sources, paths, forced);
    forall i, j | 0 <= i < j < |order|
      ensures Before(paths, forced, order[i], order[j])
    {
      assert le(order[i], order[j]);
    }
  }

  // ---------------------------------------------------------------- what is kept

  predicate Room(limits: Limits, kept: seq<Source>, s: Source) {
    s.bytes <= limits.maxFileBytes && |kept| < limits.maxFiles && Sum(kept) + s.bytes <= limits.maxBytes
  }

  /** Each source in turn is kept if there is still room for it. */
  function Kept(order: seq<Source>, limits: Limits): (kept: seq<Source>)
    ensures |kept| <= |order|
  {
    if order == [] then []
    else
      var kept, last := Kept(order[..|order| - 1], limits), order[|order| - 1];
      if last.relative.Some? && Room(limits, kept, last) then kept + [last] else kept
  }

  function Skipped(order: seq<Source>, limits: Limits): (skipped: seq<Source>) {
    if order == [] then []
    else
      var last := order[|order| - 1];
      Skipped(order[..|order| - 1], limits)
      + (if last.relative.Some? && !Room(limits, Kept(order[..|order| - 1], limits), last) then [last] else [])
  }

  function Inside(order: seq<Source>): (inside: seq<Source>) {
    if order == [] then []
    else Inside(order[..|order| - 1]) + (if order[|order| - 1].relative.Some? then [order[|order| - 1]] else [])
  }

  /** The limits hold for what is kept. */
  lemma {:induction false} KeptIsBounded(order: seq<Source>, limits: Limits)
    ensures |Kept(order, limits)| <= limits.maxFiles && Sum(Kept(order, limits)) <= limits.maxBytes
    ensures forall s :: s in Kept(order, limits) ==> s in order && s.bytes <= limits.maxFileBytes && s.relative.Some?
  {
    if order != [] {
      KeptIsBounded(order[..|order| - 1], limits);
      var kept, last := Kept(order[..|order| - 1], limits), order[|order| - 1];
      assert (kept + [last])[..|kept|] == kept;
      assert order == order[..|order| - 1] + [last];
    }
  }

  lemma {:induction false} SourcesAreKept(order: seq<Source>, limits: Limits)
    ensures multiset(Kept(order, limits)) + multiset(Skipped(order, limits)) == multiset(Inside(order))
  {
    if order != [] {
      hide Room;
      SourcesAreKept(order[..|order| - 1], limits);
    }
  }

  lemma {:induction false} BytesAreKept(order: seq<Source>, limits: Limits)
    ensures |Kept(order, limits)| + |Skipped(order, limits)| == |Inside(order)|
    ensures Sum(Kept(order, limits)) + Sum(Skipped(order, limits)) == Sum(Inside(order))
  {
    if order != [] {
      hide Sum, Room;
      var init, last := order[..|order| - 1], order[|order| - 1];
      BytesAreKept(init, limits);
      SumAppend(Kept(init, limits), last);
      SumAppend(Skipped(init, limits), last);
      SumAppend(Inside(init), last);
    }
  }

  /** Every source of the package is either kept or skipped, and so is every byte. */
  lemma NothingIsLost(order: seq<Source>, limits: Limits)
    ensures |Kept(order, limits)| + |Skipped(order, limits)| == |Inside(order)|
    ensures Sum(Kept(order, limits)) + Sum(Skipped(order, limits)) == Sum(Inside(order))
    ensures multiset(Kept(order, limits)) + multiset(Skipped(order, limits)) == multiset(Inside(order))
  {
    SourcesAreKept(order, limits);
    BytesAreKept(order, limits);
  }

  /**
   * What later sources are has no influence on earlier ones: entry points, which come
   * first, are chosen as if the package had nothing else.
   */
  lemma {:induction false} LaterSourcesDoNotMatter(order: seq<Source>, limits: Limits, n: nat)
    requires n <= |order|
    ensures Kept(order[..n], limits) <= Kept(order, limits)
  {
    if n < |order| {
      LaterSourcesDoNotMatter(order[..|order| - 1], limits, n);
      assert order[..|order| - 1][..n] == order[..n];
    } else {
      assert order[..n] == order;
    }
  }

  // ---------------------------------------------------------------- an unlimited byte budget

  /** The sources inside the package that are not too large by themselves. */
  function Small(order: seq<Source>, limits: Limits): (small: seq<Source>) {
    if order == [] then []
    else
      var last := order[|order| - 1];
      Small(order[..|order| - 1], limits)
      + (if last.relative.Some? && last.bytes <= limits.maxFileBytes then [last] else [])
  }

  /** As many of them as the number of files allows. */
  function Admitted(order: seq<Source>, limits: Limits): (admitted: seq<Source>) {
    var small := Small(order, limits);
    if |small| <= limits.maxFiles then small else small[..limits.maxFiles]
  }

  /** The sum of the selected bytes leaves 64 bits although no limit was exceeded. */
  predicate Overflows(order: seq<Source>, limits: Limits) {
    limits.maxBytes == U64_MAX && Sum(Admitted(order, limits)) > U64_MAX
  }

  lemma AdmittedNext(order: seq<Source>, limits: Limits, s: Source)
    ensures Admitted(order + [s], limits) ==
      if s.relative.Some? && s.bytes <= limits.maxFileBytes && |Admitted(order, limits)| < limits.maxFiles
      then Admitted(order, limits) + [s] else Admitted(order, limits)
  {
    assert (order + [s])[..|order|] == order;
  }

  lemma {:induction false} AdmittedGrows(order: seq<Source>, limits: Limits, n: nat)
    requires n <= |order|
    ensures Sum(Admitted(order[..n], limits)) <= Sum(Admitted(order, limits))
  {
    if n < |order| {
      var init, last := order[..|order| - 1], order[|order| - 1];
      AdmittedGrows(init, limits, n);
      assert init[..n] == order[..n] && order == init + [last];
      AdmittedNext(init, limits, last);
      SumAppend(Admitted(init, limits), last);
    } else {
      assert order[..n] == order;
    }
  }

  // ---------------------------------------------------------------- the loop

  /** The counters of the loop after the sources in `order`. */
  ghost predicate Counts(order: seq<Source>, limits: Limits, files: seq<Source>, selected: U64, skipped: nat, bytes: U64) {
    && files == Kept(order, limits) && selected == Sum(files)
    && skipped == |Skipped(order, limits)|
    && bytes == (if Sum(Skipped(order, limits)) <= U64_MAX then Sum(Skipped(order, limits)) else U64_MAX)
    && (limits.maxBytes == U64_MAX ==> files == Admitted(order, limits))
  }

  /** The condition of the loop; the sum saturates. */
  predicate Refused(limits: Limits, files: seq<Source>, selected: U64, s: Source) {
    s.bytes > limits.maxFileBytes || |files| >= limits.maxFiles || SaturatingAdd(selected, s.bytes) > limits.maxBytes
  }

  lemma CountsNext(order: seq<Source>, limits: Limits, s: Source, files: seq<Source>, selected: U64, skipped: nat, bytes: U64)
    requires Counts(order, limits, files, selected, skipped, bytes)
    ensures s.relative.None? ==> Counts(order + [s], limits, files, selected, skipped, bytes)
    ensures s.relative.Some? && Refused(limits, files, selected, s) ==>
      Counts(order + [s], limits, files, selected, skipped + 1, SaturatingAdd(bytes, s.bytes))
    ensures s.relative.Some? && !Refused(limits, files, selected, s) && selected + s.bytes <= U64_MAX ==>
      Counts(order + [s], limits, files + [s], selected + s.bytes, skipped, bytes)
  {
    assert (order + [s])[..|order|] == order;
    SumAppend(files, s);
    SumAppend(Skipped(order, limits), s);
    AdmittedNext(order, limits, s);
  }

  lemma OverflowsAt(order: seq<Source>, limits: Limits, i: nat, files: seq<Source>, selected: U64, skipped: nat, bytes: U64)
    requires i < |order| && Counts(order[..i], limits, files, selected, skipped, bytes)
    requires order[i].relative.Some? && !Refused(limits, files, selected, order[i]) && selected + order[i].bytes > U64_MAX
    ensures Overflows(order, limits)
  {
    hide Kept, Skipped, Admitted, Sum;
    assert order[..i + 1] == order[..i] + [order[i]];
    AdmittedNext(order[..i], limits, order[i]);
    SumAppend(files, order[i]);
    AdmittedGrows(order, limits, i + 1);
  }

  /** What a plan of the whole list says. */
  ghost predicate PlanOf(order: seq<Source>, limits: Limits, plan: Plan) {
    && plan.files == Kept(order, limits)
    && plan.skippedFiles == |Skipped(order, limits)|
    && plan.skippedBytes == (if Sum(Skipped(order, limits)) <= U64_MAX then Sum(Skipped(order, limits)) else U64_MAX)
    && (plan.complete <==> Skipped(order, limits) == [])
  }

  lemma CountsEnd(order: seq<Source>, limits: Limits, files: seq<Source>, selected: U64, skipped: nat, bytes: U64)
    requires Counts(order, limits, files, selected, skipped, bytes)
    ensures PlanOf(order, limits, Plan(files, skipped, bytes, skipped == 0)) && !Overflows(order, limits)
  {
  }

  /** The byte budget is counted in 64 bits; `Overflow` stands for the failing addition. */
  method Select(order: seq<Source>, limits: Limits) returns (r: Result<Plan, PlanError>)
    ensures r.Ok? ==> PlanOf(order, limits, r.value)
    ensures r.Err? ==> r.error == Overflow
    ensures r.Err? <==> Overflows(order, limits)
  {
    var files: seq<Source> := [];
    var selected: U64, skippedFiles: nat, skippedBytes: U64 := 0, 0, 0;
    assert Counts(order[..0], limits, files, selected, skippedFiles, skippedBytes);
    hide *;
    for i := 0 to |order|
      invariant Counts(order[..i], limits, files, selected, skippedFiles, skippedBytes)
    {
      var s := order[i];
      CountsNext(order[..i], limits, s, files, selected, skippedFiles, skippedBytes);
      assert order[..i + 1] == order[..i] + [s];
      if s.relative.None? {
        continue;
      }
      if Refused(limits, files, selected, s) {
        skippedFiles := skippedFiles + 1;
        skippedBytes := SaturatingAdd(skippedBytes, s.bytes);
        continue;
      }
      if selected + s.bytes > U64_MAX {
        OverflowsAt(order, limits, i, files, selected, skippedFiles, skippedBytes);
        return Err(Overflow);
      }
      selected := selected + s.bytes;
      files := files + [s];
    }
    assert order[..|order|] == order;
    CountsEnd(order, limits, files, selected, skippedFiles, skippedBytes);
    r := Ok(Plan(files, skippedFiles, skippedBytes, skippedFiles == 0));
  }

  method PlanPackage(sources: seq<Source>, paths: PathOrder, forced: set<Text>, limits: Limits) returns (r: Result<Plan, PlanError>)
    ensures r == Err(ZeroLimit) <==> limits.maxFiles == 0 || limits.maxBytes == 0 || limits.maxFileBytes == 0
    ensures r.Ok? && Sorting.TotalPreorder(paths) ==> exists order: seq<Source> ::
      multiset(order) == multiset(sources) && EntriesFirst(order, paths, forced) && PlanOf(order, limits, r.value)
    ensures r.Ok? ==> PlanOf(InOrder(sources, paths, forced), limits, r.value)
    ensures r.Ok? ==> r.value.skippedFiles + |r.value.files| == |Inside(InOrder(sources, paths, forced))|
    ensures r == Err(Overflow) <==> r != Err(ZeroLimit) && Overflows(InOrder(sources, paths, forced), limits)
  {
    if limits.maxFiles == 0 || limits.maxBytes == 0 || limits.maxFileBytes == 0 {
      return Err(ZeroLimit);
    }
    NothingIsLost(InOrder(sources, paths, forced), limits);
    if Sorting.TotalPreorder(paths) {
      ForcedFirst(sources, paths, forced);
    }
    r := Select(InOrder(sources, paths, forced), limits);
  }
}
