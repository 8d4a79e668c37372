/**
 * The compact `who_uses` response: targets and usage sites are dropped from the
 * end until the response, with its own length in it, fits the byte limit.
 */
module WhoUses {
  import opened Wrappers
  import opened Settle
  import Decimal
  import Sorting

  datatype Usage = Usage(confidence: string, detail: string)

  datatype Site = Site(target: nat, usage: Usage)

  datatype Error = LimitTooSmall | BelowEnvelope(minimum: nat)

  datatype Response = Response(
    renderedBytes: nat, unbudgetedBytes: Option<nat>,
    matchedTargets: nat, returnedTargets: nat, matchedUsages: nat,
    sites: seq<Site>, omittedTargets: nat, omittedUsages: nat)

  /**
   * The length of the response without the digits of its recorded length, as a
   * function of everything else in it. Nothing is assumed about the function.
   */
  type Size = (nat, seq<Site>, Option<nat>) -> Base

  const MINIMUM_LIMIT: nat := 256

  function ConfidenceRank(confidence: string): nat {
    if confidence == "certain" then 0
    else if confidence == "likely" then 1
    else if confidence == "possible" then 2
    else 3
  }

  predicate Precedes(left: Site, right: Site) {
    var l, r := ConfidenceRank(left.usage.confidence), ConfidenceRank(right.usage.confidence);
    l < r || (l == r && left.target <= right.target)
  }

  function SitesOf(usages: seq<Usage>, target: nat): (sites: seq<Site>)
    ensures |sites| == |usages|
    ensures forall s :: s in sites ==> s.target == target
  {
    seq(|usages|, i requires 0 <= i < |usages| => Site(target, usages[i]))
  }

  function AllSites(results: seq<seq<Usage>>): (sites: seq<Site>)
    ensures forall s :: s in sites ==> s.target < |results|
  {
    if results == [] then []
    else AllSites(results[..|results| - 1]) + SitesOf(results[|results| - 1], |results| - 1)
  }

  /** Sites of the targets that are kept, in their order. */
  function Eligible(sites: seq<Site>, targets: nat): (kept: seq<Site>)
    ensures forall s :: s in kept <==> s in sites && s.target < targets
  {
    if sites == [] then []
    else
      var last := sites[|sites| - 1];
      assert sites == sites[..|sites| - 1] + [last];
      Eligible(sites[..|sites| - 1], targets) + (if last.target < targets then [last] else [])
  }

  lemma {:induction false} EligibleKeepsOrder(sites: seq<Site>, targets: nat)
    requires Sorting.Sorted(sites, Precedes)
    ensures Sorting.Sorted(Eligible(sites, targets), Precedes)
  {
    if sites != [] {
      var init, last := sites[..|sites| - 1], sites[|sites| - 1];
      EligibleKeepsOrder(init, targets);
      forall s | s in Eligible(init, targets)
        ensures Precedes(s, last)
      {
        var i :| 0 <= i < |init| && init[i] == s;
        assert Precedes(sites[i], sites[|sites| - 1]);
      }
    }
  }

  /** How many usages the query found in all. */
  function UsageCount(results: seq<seq<Usage>>): nat {
    if results == [] then 0 else |results[0]| + UsageCount(results[1..])
  }

  /** A usage may only stand before another one that is no more certain. */
  predicate NoLessCertain(left: Usage, right: Usage) {
    && (right.confidence == "certain" ==> left.confidence == "certain")
    && (right.confidence == "likely" ==> left.confidence == "certain" || left.confidence == "likely")
    && (right.confidence == "possible" ==>
          left.confidence == "certain" || left.confidence == "likely" || left.confidence == "possible")
  }

  /**
   * The usages of the first targets, each as often as the query found it and
   * nothing else, the most certain first and then by target.
   */
  ghost predicate ListsUsages(results: seq<seq<Usage>>, targets: nat, sites: seq<Site>) {
    && (forall k: nat, u: Usage ::
          multiset(sites)[Site(k, u)] == if k < targets && k < |results| then multiset(results[k])[u] else 0)
    && (forall i, j :: 0 <= i < j < |sites| ==> NoLessCertain(sites[i].usage, sites[j].usage))
    && (forall i, j :: 0 <= i < j < |sites| && sites[i].usage.confidence == sites[j].usage.confidence ==>
          sites[i].target <= sites[j].target)
  }

  /** All usages if none was dropped, else as many of those of the kept targets as fit. */
  ghost predicate ShowsUsages(size: Size, results: seq<seq<Usage>>, limit: nat, r: Response) {
    if r.unbudgetedBytes.None? then ListsUsages(results, |results|, r.sites)
    else exists eligible: seq<Site> ::
      && ListsUsages(results, r.returnedTargets, eligible)
      && r.sites <= eligible
      && (r.sites == eligible
          || !Fits(size, limit, r.returnedTargets, eligible[..|r.sites| + 1], r.unbudgetedBytes))
  }

  lemma {:induction false} OfOneTarget(usages: seq<Usage>, target: nat, k: nat, u: Usage)
    ensures multiset(SitesOf(usages, target))[Site(k, u)] == if k == target then multiset(usages)[u] else 0
  {
    if usages != [] {
      var init, last := usages[..|usages| - 1], usages[|usages| - 1];
      OfOneTarget(init, target, k, u);
      assert usages == init + [last];
      assert SitesOf(usages, target) == SitesOf(init, target) + [Site(target, last)];
    }
  }

  lemma {:induction false} OfEveryTarget(results: seq<seq<Usage>>, k: nat, u: Usage)
    ensures multiset(AllSites(results))[Site(k, u)] == if k < |results| then multiset(results[k])[u] else 0
  {
    if results != [] {
      OfEveryTarget(results[..|results| - 1], k, u);
      OfOneTarget(results[|results| - 1], |results| - 1, k, u);
    }
  }

  lemma {:induction false} OfKeptTargets(sites: seq<Site>, targets: nat, s: Site)
    ensures multiset(Eligible(sites, targets))[s] == if s.target < targets then multiset(sites)[s] else 0
  {
    if sites != [] {
      var init, last := sites[..|sites| - 1], sites[|sites| - 1];
      OfKeptTargets(init, targets, s);
      assert sites == init + [last];
    }
  }

  lemma {:induction false} CountAppends(results: seq<seq<Usage>>, usages: seq<Usage>)
    ensures UsageCount(results + [usages]) == UsageCount(results) + |usages|
  {
    if results == [] {
      assert ([] + [usages])[1..] == [];
    } else {
      CountAppends(results[1..], usages);
      assert (results + [usages])[1..] == results[1..] + [usages];
    }
  }

  lemma {:induction false} CountsSites(results: seq<seq<Usage>>)
    ensures |AllSites(results)| == UsageCount(results)
  {
    if results != [] {
      var init, last := results[..|results| - 1], results[|results| - 1];
      CountsSites(init);
      CountAppends(init, last);
      assert results == init + [last];
    }
  }

  lemma OrderedSites(sites: seq<Site>)
    requires Sorting.Sorted(sites, Precedes)
    ensures forall i, j :: 0 <= i < j < |sites| ==> NoLessCertain(sites[i].usage, sites[j].usage)
    ensures forall i, j :: 0 <= i < j < |sites| && sites[i].usage.confidence == sites[j].usage.confidence ==>
      sites[i].target <= sites[j].target
  {
    forall i, j | 0 <= i < j < |sites|
      ensures NoLessCertain(sites[i].usage, sites[j].usage)
      ensures sites[i].usage.confidence == sites[j].usage.confidence ==> sites[i].target <= sites[j].target
    {
      assert Precedes(sites[i], sites[j]);
    }
  }

  lemma SortedEligible(results: seq<seq<Usage>>, targets: nat)
    ensures Sorting.Sorted(Eligible(Sorting.Sort(AllSites(results), Precedes), targets), Precedes)
  {
    assert Sorting.TotalPreorder(Precedes);
    hide Precedes, Sorting.TotalPreorder, Sorting.Sorted, Sorting.Sort, AllSites, Eligible;
    Sorting.SortSorts(AllSites(results), Precedes);
    EligibleKeepsOrder(Sorting.Sort(AllSites(results), Precedes), targets);
  }

  lemma CountedInEligible(results: seq<seq<Usage>>, targets: nat, k: nat, u: Usage)
    ensures multiset(Eligible(Sorting.Sort(AllSites(results), Precedes), targets))[Site(k, u)]
         == if k < targets && k < |results| then multiset(results[k])[u] else 0
  {
    hide AllSites, Eligible;
    OfEveryTarget(results, k, u);
    OfKeptTargets(Sorting.Sort(AllSites(results), Precedes), targets, Site(k, u));
  }

  /** What the sort and the filter select is said of the query's own results. */
  lemma EligibleListsUsages(results: seq<seq<Usage>>, targets: nat)
    ensures ListsUsages(results, targets, Eligible(Sorting.Sort(AllSites(results), Precedes), targets))
  {
    hide Precedes, ConfidenceRank, Sorting.Sorted, Sorting.Sort, AllSites, Eligible, NoLessCertain;
    SortedEligible(results, targets);
    OrderedSites(Eligible(Sorting.Sort(AllSites(results), Precedes), targets));
    forall k: nat, u: Usage
      ensures multiset(Eligible(Sorting.Sort(AllSites(results), Precedes), targets))[Site(k, u)]
           == if k < targets && k < |results| then multiset(results[k])[u] else 0
    {
      CountedInEligible(results, targets, k, u);
    }
  }

  lemma AllListsUsages(results: seq<seq<Usage>>)
    ensures ListsUsages(results, |results|, Sorting.Sort(AllSites(results), Precedes))
  {
    assert Sorting.TotalPreorder(Precedes);
    hide Precedes, ConfidenceRank, Sorting.TotalPreorder, Sorting.Sorted, Sorting.Sort, AllSites, NoLessCertain;
    Sorting.SortSorts(AllSites(results), Precedes);
    OrderedSites(Sorting.Sort(AllSites(results), Precedes));
    forall k: nat, u: Usage
      ensures multiset(Sorting.Sort(AllSites(results), Precedes))[Site(k, u)] == if k < |results| then multiset(results[k])[u] else 0
    {
      OfEveryTarget(results, k, u);
    }
  }

  /** The selection, rendered with its settled length, is within the limit. */
  predicate Fits(size: Size, limit: nat, targets: nat, sites: seq<Site>, unbudgeted: Option<nat>) {
    Least(size(targets, sites, unbudgeted), 1) <= limit
  }

  /** What the response says about itself is true. */
  predicate Accurate(size: Size, results: seq<seq<Usage>>, r: Response) {
    && r.renderedBytes == size(r.returnedTargets, r.sites, r.unbudgetedBytes) + Decimal.Width(r.renderedBytes)
    && r.matchedTargets == |results| == r.returnedTargets + r.omittedTargets
    && r.matchedUsages == UsageCount(results) == |r.sites| + r.omittedUsages
    && (forall s :: s in r.sites ==> s.target < r.returnedTargets)
  }

  /** The best selection that the two searches can reach under the limit. */
  ghost predicate Selected(size: Size, results: seq<seq<Usage>>, limit: nat, r: Response)
    requires r.unbudgetedBytes.Some?
  {
    var sites := Sorting.Sort(AllSites(results), Precedes);
    var eligible := Eligible(sites, r.returnedTargets);
    && r.unbudgetedBytes.value == Least(size(|results|, sites, None), 1)
    && r.returnedTargets <= |results|
    && Fits(size, limit, r.returnedTargets, [], r.unbudgetedBytes)
    && (forall t :: r.returnedTargets < t <= |results| ==> !Fits(size, limit, t, [], r.unbudgetedBytes))
    && r.sites <= eligible
    && (r.sites == eligible
        || !Fits(size, limit, r.returnedTargets, eligible[..|r.sites| + 1], r.unbudgetedBytes))
  }

  /** `WhoUsesEnvelope::settle`, together with the comparison made of its result. */
  method Probe(size: Size, limit: nat, targets: nat, sites: seq<Site>, unbudgeted: Option<nat>)
    returns (rendered: nat, fits: bool)
    ensures rendered == Least(size(targets, sites, unbudgeted), 1)
    ensures rendered == size(targets, sites, unbudgeted) + Decimal.Width(rendered)
    ensures fits == (rendered <= limit) == Fits(size, limit, targets, sites, unbudgeted)
  {
    rendered := SettleFromZero(size(targets, sites, unbudgeted));
    fits := rendered <= limit;
  }

  /** Drop targets from the end until their empty envelope fits. */
  method ReduceTargets(size: Size, limit: nat, matched: nat, unbudgeted: Option<nat>)
    returns (r: Result<nat, Error>)
    ensures r.Ok? ==> r.value <= matched && Fits(size, limit, r.value, [], unbudgeted)
    ensures r.Ok? ==> forall t :: r.value < t <= matched ==> !Fits(size, limit, t, [], unbudgeted)
    ensures r.Err? ==> r.error == BelowEnvelope(Least(size(0, [], unbudgeted), 1))
    ensures r.Err? ==> forall t :: 0 <= t <= matched ==> !Fits(size, limit, t, [], unbudgeted)
  {
    var returned := matched;
    while true
      invariant 0 <= returned <= matched
      invariant forall t :: returned < t <= matched ==> !Fits(size, limit, t, [], unbudgeted)
      decreases returned
    {
      var envelope, fits := Probe(size, limit, returned, [], unbudgeted);
      if fits {
        return Ok(returned);
      }
      if returned == 0 {
        return Err(BelowEnvelope(envelope));
      }
      returned := returned - 1;
    }
  }

  /** Binary search for a prefix that fits while the next longer one does not. */
  method SearchSites(size: Size, limit: nat, targets: nat, eligible: seq<Site>, unbudgeted: Option<nat>)
    returns (retained: nat, rendered: nat)
    requires Fits(size, limit, targets, [], unbudgeted)
    ensures retained <= |eligible| && rendered <= limit
    ensures rendered == size(targets, eligible[..retained], unbudgeted) + Decimal.Width(rendered)
    ensures retained == |eligible| || !Fits(size, limit, targets, eligible[..retained + 1], unbudgeted)
  {
    var low, high := 0, |eligible| + 1;
    assert eligible[..0] == [];
    while low < high
      invariant 0 <= low <= high <= |eligible| + 1
      invariant low > 0 ==> Fits(size, limit, targets, eligible[..low - 1], unbudgeted)
      invariant high <= |eligible| ==> !Fits(size, limit, targets, eligible[..high], unbudgeted)
    {
      var middle := low + (high - low) / 2;
      var _, fits := Probe(size, limit, targets, eligible[..middle], unbudgeted);
      if fits {
        low := middle + 1;
      } else {
        high := middle;
      }
    }
    // The subtraction never saturates: the empty prefix is known to fit.
    retained := low - 1;
    var fits;
    rendered, fits := Probe(size, limit, targets, eligible[..retained], unbudgeted);
    // The bail that follows the search in the source cannot be reached.
    assert fits;
  }

  lemma SortedSites(results: seq<seq<Usage>>)
    ensures |Sorting.Sort(AllSites(results), Precedes)| == UsageCount(results)
    ensures forall s :: s in Sorting.Sort(AllSites(results), Precedes) ==> s.target < |results|
  {
    var sites := Sorting.Sort(AllSites(results), Precedes);
    CountsSites(results);
    forall s | s in sites
      ensures s.target < |results|
    {
      assert s in multiset(sites);
      assert s in multiset(AllSites(results));
    }
  }

  /** The two searches, once the full response was seen not to fit. */
  method Prune(results: seq<seq<Usage>>, size: Size, limit: nat, sites: seq<Site>, full: nat) returns (r: Result<Response, Error>)
    requires sites == Sorting.Sort(AllSites(results), Precedes)
    requires full == Least(size(|results|, sites, None), 1)
    ensures r.Ok? ==> r.value.renderedBytes <= limit && Accurate(size, results, r.value)
    ensures r.Ok? ==> r.value.unbudgetedBytes == Some(full) && Selected(size, results, limit, r.value)
    ensures r.Ok? ==> ShowsUsages(size, results, limit, r.value)
    ensures r.Err? ==> r.error == BelowEnvelope(Least(size(0, [], Some(full)), 1))
    ensures r.Err? ==> forall t :: 0 <= t <= |results| ==> !Fits(size, limit, t, [], Some(full))
  {
    var matched := |results|;
    var targets := ReduceTargets(size, limit, matched, Some(full));
    if targets.Err? {
      return Err(targets.error);
    }
    var eligible := Eligible(sites, targets.value);
    EligibleIsShorter(sites, targets.value);
    EligibleListsUsages(results, targets.value);
    SortedSites(results);
    var retained, rendered := SearchSites(size, limit, targets.value, eligible, Some(full));
    assert forall s :: s in eligible[..retained] ==> s in eligible;
    r := Ok(Response(rendered, Some(full), matched, targets.value, |sites|, eligible[..retained],
                     matched - targets.value, |sites| - retained));
  }

  /** Everything is returned if it fits; otherwise what the two searches select. */
  method Render(results: seq<seq<Usage>>, size: Size, limit: nat) returns (r: Result<Response, Error>)
    ensures r == Err(LimitTooSmall) <==> limit < 256
    ensures limit >= 256 ==>
      (Fits(size, limit, |results|, Sorting.Sort(AllSites(results), Precedes), None) <==> r.Ok? && r.value.unbudgetedBytes.None?)
    ensures r.Ok? ==> r.value.renderedBytes <= limit && Accurate(size, results, r.value)
    ensures r.Ok? && r.value.unbudgetedBytes.None? ==>
      r.value.returnedTargets == |results| && r.value.sites == Sorting.Sort(AllSites(results), Precedes)
    ensures r.Ok? && r.value.unbudgetedBytes.Some? ==> Selected(size, results, limit, r.value)
    ensures r.Ok? ==> ShowsUsages(size, results, limit, r.value)
    ensures r.Err? && r.error.BelowEnvelope? ==>
      var full := Some(Least(size(|results|, Sorting.Sort(AllSites(results), Precedes), None), 1));
      && r.error.minimum == Least(size(0, [], full), 1)
      && forall t :: 0 <= t <= |results| ==> !Fits(size, limit, t, [], full)
  {
    if limit < MINIMUM_LIMIT {
      return Err(LimitTooSmall);
    }
    var sites := Sorting.Sort(AllSites(results), Precedes);
    SortedSites(results);
    var fullBytes, fullFits := Probe(size, limit, |results|, sites, None);
    if fullFits {
      AllListsUsages(results);
      return Ok(Response(fullBytes, None, |results|, |results|, |sites|, sites, 0, 0));
    }
    r := Prune(results, size, limit, sites, fullBytes);
  }

  lemma {:induction false} EligibleIsShorter(sites: seq<Site>, targets: nat)
    ensures |Eligible(sites, targets)| <= |sites|
  {
    if sites != [] {
      EligibleIsShorter(sites[..|sites| - 1], targets);
    }
  }

  /** A site is only left out for sites of a kept target that are at least as certain. */
  lemma RetainedAreTheMostCertain(size: Size, results: seq<seq<Usage>>, limit: nat, r: Response, kept: Site, left: Site)
    requires r.unbudgetedBytes.Some? && Selected(size, results, limit, r)
    requires kept in r.sites
    requires left.target < r.returnedTargets && left !in r.sites
    requires left.target < |results| && left.usage in results[left.target]
    ensures NoLessCertain(kept.usage, left.usage)
    ensures kept.usage.confidence == left.usage.confidence ==> kept.target <= left.target
  {
    var sites := Sorting.Sort(AllSites(results), Precedes);
    Sorting.SortSorts(AllSites(results), Precedes);
    EligibleKeepsOrder(sites, r.returnedTargets);
    assert left in sites by {
      OfEveryTarget(results, left.target, left.usage);
      assert left in multiset(AllSites(results));
      assert left in multiset(sites);
    }
    PrefixPrecedes(Eligible(sites, r.returnedTargets), r.sites, kept, left);
  }

  lemma PrefixPrecedes(sites: seq<Site>, prefix: seq<Site>, kept: Site, left: Site)
    requires Sorting.Sorted(sites, Precedes) && prefix <= sites
    requires kept in prefix && left in sites && left !in prefix
    ensures Precedes(kept, left)
  {
    var i :| 0 <= i < |prefix| && prefix[i] == kept;
    var j :| 0 <= j < |sites| && sites[j] == left;
    assert forall k :: 0 <= k < |prefix| ==> prefix[k] == sites[k];
    assert Precedes(sites[i], sites[j]);
  }
}
