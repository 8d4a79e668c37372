/**
 * The compact definition response: whole definitions are dropped from the end
 * first, then the source of the one that is left is shortened.
 */
module Definitions {
  import opened Wrappers
  import opened Settle
  import opened Utf8
  import Decimal

  datatype Source = Source(text: seq<Byte>, originalBytes: nat, renderedBytes: nat, budgetTruncated: bool)

  datatype Definition = Definition(target: string, source: Option<Source>)

  datatype Error = LimitTooSmall | BelowEnvelope(minimum: nat)

  datatype Response = Response(
    definitions: seq<Definition>, renderedBytes: nat, unbudgetedBytes: Option<nat>,
    returnedTargets: nat, omittedTargets: nat, omittedSourceBytes: nat)

  /** Length of the response without the digits of its recorded length. */
  type Size = (seq<Definition>, nat, Option<nat>) -> Base

  const MINIMUM_LIMIT: nat := 256

  predicate Fits(size: Size, limit: nat, definitions: seq<Definition>, omitted: nat, unbudgeted: Option<nat>) {
    Least(size(definitions, omitted, unbudgeted), 1) <= limit
  }

  function SourceLength(d: Definition): nat {
    if d.source.Some? then |d.source.value.text| else 0
  }

  /** `now` is `was` with its source cut down to a prefix of whole code points. */
  predicate Shortened(was: Definition, now: Definition) {
    && now.target == was.target
    && now.source.Some? && was.source.Some?
    && now.source.value.text <= was.source.value.text
    && |now.source.value.text| < |was.source.value.text|
    && IsBoundary(was.source.value.text, |now.source.value.text|)
    && now.source.value.originalBytes == was.source.value.originalBytes
    && now.source.value.renderedBytes == |now.source.value.text|
    && now.source.value.budgetTruncated
  }

  /** What pruning may have done to the definitions so far. */
  predicate Pruned(results: seq<Definition>, definitions: seq<Definition>, omitted: nat) {
    if omitted == 0 then definitions <= results
    else
      && |definitions| == 1 <= |results|
      && Shortened(results[0], definitions[0])
      && omitted + SourceLength(definitions[0]) == SourceLength(results[0])
  }

  /** Every selection of more whole definitions was seen to exceed the limit. */
  ghost predicate NothingLongerFits(size: Size, limit: nat, results: seq<Definition>, kept: nat, shortened: bool, unbudgeted: Option<nat>) {
    forall k :: kept < k <= |results| || (shortened && k == kept <= |results|) ==> !Fits(size, limit, results[..k], 0, unbudgeted)
  }

  /** Source that is left to shorten, or nothing more to drop at all. */
  predicate Exhausted(definitions: seq<Definition>) {
    definitions == [] || (|definitions| == 1 && SourceLength(definitions[0]) == 0)
  }

  /** `settle_definitions`, together with the comparison made of its result. */
  method Probe(size: Size, limit: nat, definitions: seq<Definition>, omitted: nat, unbudgeted: Option<nat>)
    returns (rendered: nat, fits: bool)
    ensures rendered == Least(size(definitions, omitted, unbudgeted), 1)
    ensures rendered == size(definitions, omitted, unbudgeted) + Decimal.Width(rendered)
    ensures fits == (rendered <= limit) == Fits(size, limit, definitions, omitted, unbudgeted)
  {
    rendered := SettleFromZero(size(definitions, omitted, unbudgeted));
    fits := rendered <= limit;
  }

  /** The source of the definition, where it has one, is UTF-8 text. */
  predicate HasText(d: Definition) {
    d.source.Some? ==> Valid(d.source.value.text)
  }

  /**
   * The last cut was no deeper than it had to be: `now` comes from a longer
   * prefix whose response exceeded the limit, and is shorter than that prefix by
   * at most the excess and what it takes to reach the start of a code point.
   */
  ghost predicate BarelyCut(size: Size, limit: nat, results: seq<Definition>, unbudgeted: Option<nat>,
                            was: Definition, omitted: nat, now: Definition) {
    && Pruned(results, [was], omitted)
    && SourceLength(now) < SourceLength(was)
    && !Fits(size, limit, [was], omitted, unbudgeted)
    && SourceLength(now) + (Least(size([was], omitted, unbudgeted), 1) - limit) + 3 >= SourceLength(was)
  }

  /** Cut the source by the excess and by at least one byte, and then back to the start of a code point. */
  method Shorten(results: seq<Definition>, d: Definition, omitted: nat, excess: nat)
    returns (now: Definition, more: nat)
    requires Pruned(results, [d], omitted) && SourceLength(d) > 0
    ensures more > omitted && Pruned(results, [now], more)
    ensures SourceLength(now) < SourceLength(d)
    ensures SourceLength(now) + (if excess > 1 then excess else 1) <= SourceLength(d) || SourceLength(now) == 0
    ensures HasText(results[0]) ==> SourceLength(now) + (if excess > 1 then excess else 1) + 3 >= SourceLength(d)
  {
    var source := d.source.value;
    var cut := if excess > 1 then excess else 1;
    var keep := if cut <= |source.text| then |source.text| - cut else 0;
    var end := Truncate(source.text, keep);
    more := omitted + (|source.text| - end);
    now := d.(source := Some(source.(text := source.text[..end], renderedBytes := end, budgetTruncated := true)));
    ghost var was := results[0].source.value.text;
    assert source.text == was[..|source.text|];
    assert end < |source.text| ==> source.text[end] == was[end];
    if Valid(was) {
      PrefixValid(was, |source.text|);
    }
  }

  method Render(results: seq<Definition>, matched: nat, size: Size, limit: nat) returns (r: Result<Response, Error>)
    ensures r == Err(LimitTooSmall) <==> limit < 256
    ensures limit >= 256 ==> (Fits(size, limit, results, 0, None) <==> r.Ok? && r.value.unbudgetedBytes.None?)
    ensures r.Ok? && r.value.unbudgetedBytes.Some? ==> r.value.unbudgetedBytes.value == Least(size(results, 0, None), 1)
    ensures r.Ok? ==>
      && r.value.renderedBytes <= limit
      && r.value.renderedBytes
           == size(r.value.definitions, r.value.omittedSourceBytes, r.value.unbudgetedBytes) + Decimal.Width(r.value.renderedBytes)
      && r.value.returnedTargets == |r.value.definitions|
      && Pruned(results, r.value.definitions, r.value.omittedSourceBytes)
    ensures r.Ok? && r.value.returnedTargets <= matched ==> r.value.returnedTargets + r.value.omittedTargets == matched
    ensures r.Ok? && r.value.returnedTargets > matched ==> r.value.omittedTargets == 0
    ensures r.Ok? && r.value.unbudgetedBytes.None? ==> r.value.definitions == results && r.value.omittedSourceBytes == 0
    ensures r.Ok? && r.value.unbudgetedBytes.Some? ==>
      NothingLongerFits(size, limit, results, r.value.returnedTargets, r.value.omittedSourceBytes > 0, r.value.unbudgetedBytes)
    ensures r.Ok? && r.value.omittedSourceBytes > 0 && HasText(results[0]) ==>
      exists was: Definition, omitted: nat ::
        BarelyCut(size, limit, results, r.value.unbudgetedBytes, was, omitted, r.value.definitions[0])
    ensures r.Err? && limit >= 256 ==>
      exists last: seq<Definition>, omitted: nat ::
        && Exhausted(last) && Pruned(results, last, omitted)
        && !Fits(size, limit, last, omitted, Some(Least(size(results, 0, None), 1)))
        && r.error == BelowEnvelope(Least(size(last, omitted, Some(Least(size(results, 0, None), 1))), 1))
  {
    if limit < MINIMUM_LIMIT {
      return Err(LimitTooSmall);
    }
    var definitions := results;
    var omitted: nat := 0;
    var fullBytes, fullFits := Probe(size, limit, definitions, omitted, None);
    if fullFits {
      return Ok(Answer(definitions, fullBytes, None, matched, omitted));
    }
    var unbudgeted := Some(fullBytes);
    ghost var was, cut := Definition("", None), 0;
    while true
      invariant Pruned(results, definitions, omitted)
      invariant NothingLongerFits(size, limit, results, |definitions|, omitted > 0, unbudgeted)
      invariant omitted > 0 && HasText(results[0]) ==> BarelyCut(size, limit, results, unbudgeted, was, cut, definitions[0])
      decreases |definitions|, if definitions == [] then 0 else SourceLength(definitions[0])
    {
      var rendered, fits := Probe(size, limit, definitions, omitted, unbudgeted);
      if fits {
        return Ok(Answer(definitions, rendered, unbudgeted, matched, omitted));
      }
      assert omitted == 0 ==> definitions == results[..|definitions|];
      if |definitions| > 1 {
        definitions := definitions[..|definitions| - 1];
        continue;
      }
      if definitions == [] || SourceLength(definitions[0]) == 0 {
        assert Exhausted(definitions);
        return Err(BelowEnvelope(rendered));
      }
      assert definitions == [definitions[0]];
      was, cut := definitions[0], omitted;
      var now;
      now, omitted := Shorten(results, definitions[0], omitted, rendered - limit);
      definitions := [now];
    }
  }

  function Answer(definitions: seq<Definition>, rendered: nat, unbudgeted: Option<nat>, matched: nat, omitted: nat): Response {
    Response(definitions, rendered, unbudgeted, |definitions|,
             if |definitions| <= matched then matched - |definitions| else 0, omitted)
  }
}
