/**
 * Rendering a graph neighborhood under a byte limit: edges are dropped from the
 * end together with the nodes they leave unreferenced; a neighborhood without
 * edges loses isolated nodes instead.
 */
module Neighborhood {
  import opened Wrappers
  import opened Settle
  import Collections
  import Decimal

  datatype Node = Node(key: string, text: string)

  datatype Edge = Edge(source: string, target: string, text: string)

  datatype Graph = Graph(anchor: string, nodes: seq<Node>, edges: seq<Edge>, truncated: bool)

  datatype Error = LimitIsZero | BelowEnvelope(minimum: nat)

  datatype Rendered = Rendered(
    nodes: seq<Node>, edges: seq<Edge>, renderedBytes: nat, unbudgetedBytes: nat,
    omittedNodes: nat, omittedEdges: nat)

  /** Length of a rendering without the digits of the two lengths recorded in it. */
  type Size = (seq<Node>, seq<Edge>) -> RoomyBase

  type RoomyBase = n: nat | n + 60 < USIZE_LIMIT

  // ---------------------------------------------------------------- pruning

  predicate References(edges: seq<Edge>, key: string) {
    exists e :: e in edges && (e.source == key || e.target == key)
  }

  function Prune(nodes: seq<Node>, edges: seq<Edge>, root: string): (kept: seq<Node>)
    ensures forall n :: n in kept <==> n in nodes && (n.key == root || References(edges, n.key))
    ensures |kept| <= |nodes|
  {
    if nodes == [] then []
    else
      (if nodes[0].key == root || References(edges, nodes[0].key) then [nodes[0]] else [])
      + Prune(nodes[1..], edges, root)
  }

  function PrefixNodes(g: Graph, edgeCount: nat): (kept: seq<Node>)
    requires edgeCount <= |g.edges|
    ensures |kept| <= |g.nodes|
  {
    if edgeCount < |g.edges| then Prune(g.nodes, g.edges[..edgeCount], g.anchor) else g.nodes
  }

  /** The anchor and the first `others` of the remaining nodes, in their order. */
  function IsolatedNodes(nodes: seq<Node>, anchor: string, others: nat): (kept: seq<Node>)
    ensures |kept| <= |nodes|
    ensures forall n :: n in kept ==> n in nodes
    ensures forall n :: n in nodes && n.key == anchor ==> n in kept
  {
    if nodes == [] then []
    else if nodes[0].key == anchor then [nodes[0]] + IsolatedNodes(nodes[1..], anchor, others)
    else if others > 0 then [nodes[0]] + IsolatedNodes(nodes[1..], anchor, others - 1)
    else IsolatedNodes(nodes[1..], anchor, 0)
  }

  function OtherNodes(nodes: seq<Node>, anchor: string): (n: nat)
    ensures n <= |nodes|
  {
    if nodes == [] then 0 else OtherNodes(nodes[1..], anchor) + (if nodes[0].key == anchor then 0 else 1)
  }

  lemma {:induction false} IsolatedCount(nodes: seq<Node>, anchor: string, others: nat)
    requires others <= OtherNodes(nodes, anchor)
    ensures |nodes| - |IsolatedNodes(nodes, anchor, others)| == OtherNodes(nodes, anchor) - others
  {
    if nodes != [] {
      if nodes[0].key == anchor {
        IsolatedCount(nodes[1..], anchor, others);
      } else {
        IsolatedCount(nodes[1..], anchor, if others > 0 then others - 1 else 0);
      }
    }
  }

  /** A prefix of the nodes with so many others in it, and then only nodes with the key of the anchor. */
  lemma {:induction false} IsolatedIsPrefix(nodes: seq<Node>, anchor: string, others: nat) returns (cut: nat)
    requires others <= OtherNodes(nodes, anchor)
    ensures cut <= |nodes| && cut <= |IsolatedNodes(nodes, anchor, others)|
    ensures IsolatedNodes(nodes, anchor, others)[..cut] == nodes[..cut] && OtherNodes(nodes[..cut], anchor) == others
    ensures forall n :: n in IsolatedNodes(nodes, anchor, others)[cut..] ==> n.key == anchor
  {
    if others == 0 {
      cut := 0;
      OnlyTheAnchor(nodes, anchor);
    } else {
      var left := if nodes[0].key == anchor then others else others - 1;
      var c := IsolatedIsPrefix(nodes[1..], anchor, left);
      var rest := IsolatedNodes(nodes[1..], anchor, left);
      cut := c + 1;
      assert IsolatedNodes(nodes, anchor, others) == [nodes[0]] + rest;
      assert nodes[..cut][1..] == nodes[1..][..c];
      assert ([nodes[0]] + rest)[cut..] == rest[c..] && ([nodes[0]] + rest)[..cut] == [nodes[0]] + rest[..c];
    }
  }

  lemma {:induction false} OnlyTheAnchor(nodes: seq<Node>, anchor: string)
    ensures forall n :: n in IsolatedNodes(nodes, anchor, 0) ==> n.key == anchor
  {
    if nodes != [] {
      OnlyTheAnchor(nodes[1..], anchor);
    }
  }

  // ---------------------------------------------------------------- the rendered graph

  predicate UniqueKeys(nodes: seq<Node>) {
    forall i, j :: 0 <= i < j < |nodes| ==> nodes[i].key != nodes[j].key
  }

  predicate EndpointClosed(nodes: seq<Node>, edges: seq<Edge>) {
    forall e :: e in edges ==> HasKey(nodes, e.source) && HasKey(nodes, e.target)
  }

  predicate HasKey(nodes: seq<Node>, key: string) {
    exists n :: n in nodes && n.key == key
  }

  /** `ids` of `graph_value`: the position of the last node that has the key. */
  function Ids(nodes: seq<Node>): (ids: map<string, nat>)
    ensures forall k :: k in ids <==> HasKey(nodes, k)
    ensures forall k :: k in ids ==> ids[k] < |nodes| && nodes[ids[k]].key == k
  {
    if nodes == [] then map[]
    else
      var last := |nodes| - 1;
      assert nodes == nodes[..last] + [nodes[last]];
      Ids(nodes[..last])[nodes[last].key := last]
  }

  /** The node objects of the JSON graph, one for each local id that occurs. */
  function NodeIds(nodes: seq<Node>): set<nat> {
    set n | n in nodes :: Ids(nodes)[n.key]
  }

  /** The edge tuples of the JSON graph: an edge with an unknown end is skipped. */
  function GraphEdges(nodes: seq<Node>, edges: seq<Edge>): (out: seq<(nat, string, nat)>)
    ensures |out| <= |edges|
  {
    if edges == [] then []
    else
      var last := edges[|edges| - 1];
      var ids := Ids(nodes);
      GraphEdges(nodes, edges[..|edges| - 1])
      + (if last.source in ids && last.target in ids then [(ids[last.source], last.text, ids[last.target])] else [])
  }

  /** The tuple of edge `e` names its two ends and its text. */
  predicate TupleOf(nodes: seq<Node>, e: Edge, t: (nat, string, nat)) {
    t.0 < |nodes| && t.2 < |nodes| && nodes[t.0].key == e.source && nodes[t.2].key == e.target && t.1 == e.text
  }

  /** In a closed graph the tuples are the edges, one by one. */
  lemma {:induction false} TuplesAreEdges(nodes: seq<Node>, edges: seq<Edge>)
    requires EndpointClosed(nodes, edges)
    ensures |GraphEdges(nodes, edges)| == |edges|
    ensures forall i :: 0 <= i < |edges| ==> TupleOf(nodes, edges[i], GraphEdges(nodes, edges)[i])
  {
    if edges != [] {
      var init, last := edges[..|edges| - 1], edges[|edges| - 1];
      assert edges == init + [last];
      TuplesAreEdges(nodes, init);
    }
  }

  /** No edge is dropped exactly when every edge has both of its ends. */
  lemma {:induction false} EdgesSurviveIff(nodes: seq<Node>, edges: seq<Edge>)
    ensures |GraphEdges(nodes, edges)| == |edges| <==> EndpointClosed(nodes, edges)
  {
    if edges != [] {
      var init, last := edges[..|edges| - 1], edges[|edges| - 1];
      assert edges == init + [last];
      EdgesSurviveIff(nodes, init);
    }
  }

  /** No node is overwritten exactly when the keys are unique. */
  lemma NodesSurviveIff(nodes: seq<Node>)
    ensures |NodeIds(nodes)| == |nodes| <==> UniqueKeys(nodes)
  {
    if UniqueKeys(nodes) {
      UniqueNodesSurvive(nodes);
    } else {
      var i, j :| 0 <= i < j < |nodes| && nodes[i].key == nodes[j].key;
      var lost := if Ids(nodes)[nodes[i].key] == i then j else i;
      DuplicateIsLost(nodes, lost);
    }
  }

  lemma UniqueNodesSurvive(nodes: seq<Node>)
    requires UniqueKeys(nodes)
    ensures NodeIds(nodes) == Below(|nodes|)
  {
    forall i | i in Below(|nodes|)
      ensures i in NodeIds(nodes)
    {
      assert nodes[i] in nodes;
      assert Ids(nodes)[nodes[i].key] == i;
    }
  }

  lemma DuplicateIsLost(nodes: seq<Node>, lost: nat)
    requires lost < |nodes| && Ids(nodes)[nodes[lost].key] != lost
    ensures |NodeIds(nodes)| < |nodes|
  {
    assert lost !in NodeIds(nodes);
    Collections.SubsetSize(NodeIds(nodes), Below(|nodes|) - {lost});
  }

  function Below(n: nat): (s: set<nat>)
    ensures |s| == n
    ensures forall i: nat :: i in s <==> i < n
  {
    if n == 0 then {} else Below(n - 1) + {n - 1}
  }

  lemma UniqueTail(nodes: seq<Node>)
    requires UniqueKeys(nodes) && nodes != []
    ensures UniqueKeys(nodes[1..])
    ensures forall n :: n in nodes[1..] ==> n.key != nodes[0].key
  {
    forall n | n in nodes[1..]
      ensures n.key != nodes[0].key
    {
      var i :| 0 <= i < |nodes[1..]| && nodes[1..][i] == n;
      assert nodes[i + 1] == n;
    }
  }

  lemma UniqueCons(node: Node, rest: seq<Node>)
    requires UniqueKeys(rest) && forall n :: n in rest ==> n.key != node.key
    ensures UniqueKeys([node] + rest)
  {
    assert forall i :: 0 <= i < |rest| ==> rest[i] in rest;
  }

  lemma {:induction false} PruneKeepsUnique(nodes: seq<Node>, edges: seq<Edge>, root: string)
    requires UniqueKeys(nodes)
    ensures UniqueKeys(Prune(nodes, edges, root))
  {
    if nodes != [] {
      var rest := Prune(nodes[1..], edges, root);
      UniqueTail(nodes);
      PruneKeepsUnique(nodes[1..], edges, root);
      UniqueCons(nodes[0], rest);
      assert Prune(nodes, edges, root) == [nodes[0]] + rest || Prune(nodes, edges, root) == rest;
    }
  }

  lemma {:induction false} IsolatedKeepsUnique(nodes: seq<Node>, anchor: string, others: nat)
    requires UniqueKeys(nodes)
    ensures UniqueKeys(IsolatedNodes(nodes, anchor, others))
  {
    if nodes != [] {
      var left := if nodes[0].key == anchor || others == 0 then others else others - 1;
      var rest := IsolatedNodes(nodes[1..], anchor, left);
      UniqueTail(nodes);
      IsolatedKeepsUnique(nodes[1..], anchor, left);
      UniqueCons(nodes[0], rest);
    }
  }

  /** A pruned selection of a closed graph is closed, and it keeps the anchor. */
  lemma PrunedIsClosed(g: Graph, edgeCount: nat)
    requires EndpointClosed(g.nodes, g.edges) && edgeCount <= |g.edges|
    ensures EndpointClosed(PrefixNodes(g, edgeCount), g.edges[..edgeCount])
    ensures HasKey(g.nodes, g.anchor) ==> HasKey(PrefixNodes(g, edgeCount), g.anchor)
  {
    var kept, edges := PrefixNodes(g, edgeCount), g.edges[..edgeCount];
    forall e | e in edges
      ensures HasKey(kept, e.source) && HasKey(kept, e.target)
    {
      assert e in g.edges;
      var s :| s in g.nodes && s.key == e.source;
      var t :| t in g.nodes && t.key == e.target;
      assert References(edges, s.key) && References(edges, t.key);
      assert s in kept && t in kept;
    }
    if HasKey(g.nodes, g.anchor) {
      var a :| a in g.nodes && a.key == g.anchor;
      assert a in kept;
    }
  }

  lemma {:induction false} NoEdgesLeaveTheAnchor(nodes: seq<Node>, anchor: string)
    ensures Prune(nodes, [], anchor) == IsolatedNodes(nodes, anchor, 0)
  {
    if nodes != [] {
      NoEdgesLeaveTheAnchor(nodes[1..], anchor);
    }
  }

  lemma {:induction false} NothingToIsolate(nodes: seq<Node>, anchor: string)
    requires OtherNodes(nodes, anchor) == 0
    ensures IsolatedNodes(nodes, anchor, 0) == nodes
  {
    if nodes != [] {
      NothingToIsolate(nodes[1..], anchor);
    }
  }

  // ---------------------------------------------------------------- prefix search

  /**
   * The longest prefix that a search can vouch for. `failing` is a count that is
   * known not to fit; sizes need not grow with the count.
   */
  method LargestFittingPrefix(failing: nat, limit: nat, size: nat -> nat) returns (r: Option<nat>)
    ensures r.None? <==> size(0) > limit
    ensures r.Some? ==> size(r.value) <= limit && (r.value < failing || r.value == failing == 0)
    ensures r.Some? ==> r.value + 1 >= failing || size(r.value + 1) > limit
    ensures r.Some? && (forall a: nat, b: nat :: a <= b ==> size(a) <= size(b)) ==>
      forall c :: 0 <= c < failing && size(c) <= limit ==> c <= r.value
  {
    if size(0) > limit {
      return None;
    }
    var fitting: nat, failed: nat := 0, failing;
    while fitting + 1 < failed
      invariant fitting < failed <= failing || (fitting == failed == failing == 0)
      invariant size(fitting) <= limit
      invariant failed == failing || size(failed) > limit
    {
      var candidate := fitting + (failed - fitting) / 2;
      if size(candidate) <= limit {
        fitting := candidate;
      } else {
        failed := candidate;
      }
    }
    // The downward recheck of the source has nothing to do: `fitting` was probed.
    while fitting + 1 < failing && size(fitting + 1) <= limit
      invariant size(fitting) <= limit
      invariant fitting < failing || fitting == failing == 0
    {
      fitting := fitting + 1;
    }
    return Some(fitting);
  }

  // ---------------------------------------------------------------- rendering

  /** Whether the response says that something is missing from it. */
  predicate SaysTruncated(g: Graph, nodes: seq<Node>, edges: seq<Edge>) {
    g.truncated || |nodes| < |g.nodes| || |edges| < |g.edges|
  }

  /** Length of everything in a rendering but the digits of its own length. */
  function Fixed(g: Graph, size: Size, nodes: seq<Node>, edges: seq<Edge>, unbudgeted: nat): (base: nat)
    requires Decimal.Width(unbudgeted) <= 20
    ensures base + 40 < USIZE_LIMIT
  {
    size(nodes, edges) + (if SaysTruncated(g, nodes, edges) then Decimal.Width(unbudgeted) else 0)
  }

  /** `settled_neighborhood_size`. */
  function SelectionSize(g: Graph, size: Size, nodes: seq<Node>, edges: seq<Edge>, unbudgeted: nat): nat
    requires Decimal.Width(unbudgeted) <= 20
  {
    Least(Fixed(g, size, nodes, edges, unbudgeted), 1)
  }

  ghost predicate Accurate(g: Graph, size: Size, r: Rendered) {
    && Decimal.Width(r.unbudgetedBytes) <= 20
    && r.renderedBytes == size(r.nodes, r.edges) + Decimal.Width(r.renderedBytes)
         + (if g.truncated || r.omittedNodes > 0 || r.omittedEdges > 0 then Decimal.Width(r.unbudgetedBytes) else 0)
    && r.omittedNodes + |r.nodes| == |g.nodes|
    && r.omittedEdges + |r.edges| == |g.edges|
  }

  /** The selections that rendering may fall back to. */
  ghost predicate IsSelection(g: Graph, r: Rendered) {
    if g.edges == [] then
      r.edges == [] && (r.nodes == g.nodes || exists count: nat ::
        count < OtherNodes(g.nodes, g.anchor) && r.nodes == IsolatedNodes(g.nodes, g.anchor, count))
    else
      r.edges <= g.edges && r.nodes == PrefixNodes(g, |r.edges|)
  }

  /** The next longer selection of the same kind was seen to exceed the limit. */
  ghost predicate NextFails(g: Graph, size: Size, limit: nat, r: Rendered)
    requires Accurate(g, size, r)
  {
    if g.edges == [] then
      exists count: nat ::
        && count < OtherNodes(g.nodes, g.anchor)
        && r.nodes == IsolatedNodes(g.nodes, g.anchor, count)
        && (count + 1 == OtherNodes(g.nodes, g.anchor)
            || SelectionSize(g, size, IsolatedNodes(g.nodes, g.anchor, count + 1), [], r.unbudgetedBytes) > limit)
    else
      && |r.edges| < |g.edges|
      && (|r.edges| + 1 == |g.edges|
          || SelectionSize(g, size, PrefixNodes(g, |r.edges| + 1), g.edges[..|r.edges| + 1], r.unbudgetedBytes) > limit)
  }

  method RenderSelection(g: Graph, size: Size, nodes: seq<Node>, edges: seq<Edge>, unbudgeted: nat)
    returns (r: Rendered)
    requires Decimal.Width(unbudgeted) <= 20
    requires |nodes| <= |g.nodes| && |edges| <= |g.edges|
    ensures r.nodes == nodes && r.edges == edges && r.unbudgetedBytes == unbudgeted
    ensures Accurate(g, size, r)
    ensures r.renderedBytes == SelectionSize(g, size, nodes, edges, unbudgeted)
  {
    var rendered := SettleFromZero(Fixed(g, size, nodes, edges, unbudgeted));
    r := Rendered(nodes, edges, rendered, unbudgeted, |g.nodes| - |nodes|, |g.edges| - |edges|);
  }

  /** Rendering everything once more settles on the same length as before. */
  lemma FullSettlesAgain(base: RoomyBase, full: nat)
    requires IsLeast(base, 2, full) && Decimal.Width(full) <= 20
    ensures Least(base + Decimal.Width(full), 1) == full
  {
    var again := Least(base + Decimal.Width(full), 1);
    LeastIsLeast(base + Decimal.Width(full), 1);
    assert IsSettled(base + Decimal.Width(full), 1, full);
    if again < full {
      Decimal.WidthMonotone(again, full);
      LeastBelow(base, 2, again);
      LeastIsLeast(base, 2);
    }
  }

  /** The settled length of the whole neighborhood; it records itself twice if it is truncated. */
  function FullLength(g: Graph, size: Size): nat {
    Least(size(g.nodes, g.edges), if g.truncated then 2 else 1)
  }

  /** Even the smallest selection of its kind is too long. */
  ghost predicate MinimumFails(g: Graph, size: Size, limit: nat, minimum: nat) {
    && minimum > limit && Decimal.Width(FullLength(g, size)) <= 20
    && minimum == SelectionSize(g, size, IsolatedNodes(g.nodes, g.anchor, 0), [], FullLength(g, size))
  }

  /** A neighborhood without edges keeps the anchor and a prefix of the other nodes. */
  method RenderIsolated(g: Graph, size: Size, limit: nat, unbudgeted: nat) returns (r: Option<Rendered>)
    requires g.edges == [] && Decimal.Width(unbudgeted) <= 20
    requires OtherNodes(g.nodes, g.anchor) > 0
    ensures r.Some? ==> Accurate(g, size, r.value) && IsSelection(g, r.value) && r.value.renderedBytes <= limit
    ensures r.Some? ==> NextFails(g, size, limit, r.value) && r.value.unbudgetedBytes == unbudgeted
    ensures r.None? ==> SelectionSize(g, size, IsolatedNodes(g.nodes, g.anchor, 0), [], unbudgeted) > limit
  {
    var retained := LargestFittingPrefix(OtherNodes(g.nodes, g.anchor), limit, (count: nat) =>
      SelectionSize(g, size, IsolatedNodes(g.nodes, g.anchor, count), [], unbudgeted));
    if retained.None? {
      return None;
    }
    var selection := RenderSelection(g, size, IsolatedNodes(g.nodes, g.anchor, retained.value), [], unbudgeted);
    return Some(selection);
  }

  /** A neighborhood with edges keeps a prefix of them and the nodes they mention. */
  method RenderEdges(g: Graph, size: Size, limit: nat, unbudgeted: nat) returns (r: Option<Rendered>)
    requires g.edges != [] && Decimal.Width(unbudgeted) <= 20
    ensures r.Some? ==> Accurate(g, size, r.value) && IsSelection(g, r.value) && r.value.renderedBytes <= limit
    ensures r.Some? ==> NextFails(g, size, limit, r.value) && r.value.unbudgetedBytes == unbudgeted
    ensures r.None? ==> SelectionSize(g, size, IsolatedNodes(g.nodes, g.anchor, 0), [], unbudgeted) > limit
  {
    var retained := LargestFittingPrefix(|g.edges|, limit, (count: nat) =>
      if count <= |g.edges| then SelectionSize(g, size, PrefixNodes(g, count), g.edges[..count], unbudgeted) else 0);
    if retained.None? {
      NoEdgesLeaveTheAnchor(g.nodes, g.anchor);
      assert g.edges[..0] == [];
      return None;
    }
    var selection := RenderSelection(g, size, PrefixNodes(g, retained.value), g.edges[..retained.value], unbudgeted);
    return Some(selection);
  }

  /** The whole neighborhood if it fits, and otherwise a selection of which the next longer one does not. */
  method Render(g: Graph, size: Size, limit: nat) returns (r: Result<Rendered, Error>)
    ensures r == Err(LimitIsZero) <==> limit == 0
    ensures r.Ok? ==> Accurate(g, size, r.value) && IsSelection(g, r.value) && r.value.renderedBytes <= limit
    ensures r.Ok? ==> r.value.unbudgetedBytes == FullLength(g, size)
    ensures r.Ok? && FullLength(g, size) <= limit ==> r.value.nodes == g.nodes && r.value.edges == g.edges
    ensures r.Ok? && FullLength(g, size) > limit ==> NextFails(g, size, limit, r.value)
    ensures r.Ok? ==> (FullLength(g, size) <= limit <==> r.value.omittedNodes == 0 && r.value.omittedEdges == 0)
    ensures r.Err? && limit > 0 ==> FullLength(g, size) > limit
    ensures r.Err? && limit > 0 ==> r.error.BelowEnvelope? && MinimumFails(g, size, limit, r.error.minimum)
  {
    if limit == 0 {
      return Err(LimitIsZero);
    }
    var full, unbudgeted := SettleNested(size(g.nodes, g.edges), g.truncated);
    if g.truncated {
      LeastIsLeast(size(g.nodes, g.edges), 2);
    } else {
      LeastIsUnique(size(g.nodes, g.edges), 1, full);
    }
    if full <= limit {
      return Ok(Rendered(g.nodes, g.edges, full, unbudgeted, 0, 0));
    }
    hide Accurate, IsSelection, NextFails;
    var selection := None;
    if g.edges != [] {
      selection := RenderEdges(g, size, limit, unbudgeted);
    } else if OtherNodes(g.nodes, g.anchor) > 0 {
      selection := RenderIsolated(g, size, limit, unbudgeted);
    } else {
      AnchorOnlyIsFull(g, size, full);
    }
    if selection.Some? {
      SomethingIsOmitted(g, size, limit, selection.value);
      return Ok(selection.value);
    }
    var minimum := SettleFromZero(Fixed(g, size, IsolatedNodes(g.nodes, g.anchor, 0), [], unbudgeted));
    return Err(BelowEnvelope(minimum));
  }

  lemma SomethingIsOmitted(g: Graph, size: Size, limit: nat, r: Rendered)
    requires Accurate(g, size, r) && NextFails(g, size, limit, r)
    ensures r.omittedNodes + r.omittedEdges > 0
  {
    if g.edges == [] {
      var count: nat :| count < OtherNodes(g.nodes, g.anchor) && r.nodes == IsolatedNodes(g.nodes, g.anchor, count);
      IsolatedCount(g.nodes, g.anchor, count);
    }
  }

  /** With nothing to drop, the minimum is the full response again. */
  lemma AnchorOnlyIsFull(g: Graph, size: Size, full: nat)
    requires g.edges == [] && OtherNodes(g.nodes, g.anchor) == 0
    requires IsLeast(size(g.nodes, []), if g.truncated then 2 else 1, full) && Decimal.Width(full) <= 20
    ensures SelectionSize(g, size, IsolatedNodes(g.nodes, g.anchor, 0), [], full) == full
  {
    NothingToIsolate(g.nodes, g.anchor);
    if g.truncated {
      FullSettlesAgain(size(g.nodes, []), full);
    } else {
      LeastIsUnique(size(g.nodes, []), 1, full);
    }
  }

  /**
   * For a closed neighborhood with unique node keys every answer is faithful: the
   * anchor stays, no kept edge is skipped, no node is overwritten, and what is
   * shown plus what is reported as omitted is what there was.
   */
  lemma RenderedIsFaithful(g: Graph, size: Size, r: Rendered)
    requires UniqueKeys(g.nodes) && EndpointClosed(g.nodes, g.edges) && HasKey(g.nodes, g.anchor)
    requires Accurate(g, size, r) && IsSelection(g, r)
    ensures HasKey(r.nodes, g.anchor)
    ensures |NodeIds(r.nodes)| + r.omittedNodes == |g.nodes|
    ensures |GraphEdges(r.nodes, r.edges)| + r.omittedEdges == |g.edges|
    ensures |GraphEdges(r.nodes, r.edges)| == |r.edges| <= |g.edges|
    ensures forall i :: 0 <= i < |r.edges| ==>
      r.edges[i] == g.edges[i] && TupleOf(r.nodes, g.edges[i], GraphEdges(r.nodes, r.edges)[i])
  {
    hide References, Ids;
    if g.edges == [] {
      var a :| a in g.nodes && a.key == g.anchor;
      if r.nodes != g.nodes {
        var count: nat :| r.nodes == IsolatedNodes(g.nodes, g.anchor, count);
        IsolatedKeepsUnique(g.nodes, g.anchor, count);
      }
      assert a in r.nodes;
    } else {
      assert r.edges == g.edges[..|r.edges|];
      PrunedIsClosed(g, |r.edges|);
      PruneKeepsUnique(g.nodes, r.edges, g.anchor);
    }
    NodesSurviveIff(r.nodes);
    TuplesAreEdges(r.nodes, r.edges);
  }

  /** The nodes up to some place, and from there on only nodes with the key of the anchor. */
  ghost predicate PrefixAndAnchor(g: Graph, nodes: seq<Node>, cut: nat) {
    && cut <= |nodes| && cut <= |g.nodes| && nodes[..cut] == g.nodes[..cut]
    && forall n :: n in nodes[cut..] ==> n.key == g.anchor
  }

  /** Which nodes an answer keeps: the ends of its edges and the anchor, or a prefix and the anchor. */
  lemma SelectionKeepsNodes(g: Graph, r: Rendered)
    requires IsSelection(g, r)
    ensures forall n :: n in g.nodes && n.key == g.anchor ==> n in r.nodes
    ensures g.edges != [] && r.edges != g.edges ==>
      forall n :: n in r.nodes <==>
        n in g.nodes && (n.key == g.anchor || exists e :: e in r.edges && (e.source == n.key || e.target == n.key))
    ensures g.edges != [] && r.edges == g.edges ==> r.nodes == g.nodes
    ensures g.edges == [] ==> r.nodes == g.nodes || exists cut: nat :: PrefixAndAnchor(g, r.nodes, cut)
  {
    if g.edges == [] {
      if r.nodes != g.nodes {
        var count: nat :| count < OtherNodes(g.nodes, g.anchor) && r.nodes == IsolatedNodes(g.nodes, g.anchor, count);
        var cut := IsolatedIsPrefix(g.nodes, g.anchor, count);
        assert PrefixAndAnchor(g, r.nodes, cut);
      }
    } else {
      assert r.edges == g.edges[..|r.edges|];
      if r.edges != g.edges {
        assert |r.edges| < |g.edges|;
        forall n
          ensures n in r.nodes <==>
            n in g.nodes && (n.key == g.anchor || exists e :: e in r.edges && (e.source == n.key || e.target == n.key))
        {
          assert References(r.edges, n.key) <==> exists e :: e in r.edges && (e.source == n.key || e.target == n.key);
        }
      }
    }
  }
}
