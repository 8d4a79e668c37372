/**
 * Chunking of one source file: adjacent units are merged, and a unit that is too
 * large for one embedding is split at line and code-point boundaries.
 */
module Chunking {
  import opened Wrappers
  import opened Utf8
  import Decimal

  const TARGET_TOKENS: nat := 1200
  const MAX_TOKENS: nat := 2000
  const BUDGET_BYTES: nat := TARGET_TOKENS * 4

  datatype ChunkKind =
    | Function | Component | Class | ClassHeader | Method | Imports | Module | RustText

  datatype Span = Span(start: nat, end: nat)

  /** A top-level syntactic item before it becomes one or more chunks. */
  datatype Unit = Unit(
    span: Span, kind: ChunkKind, name: Option<string>, scopeChain: seq<string>,
    symbols: seq<string>, atomic: bool)

  datatype Chunk = Chunk(
    kind: ChunkKind, name: Option<string>, scopeChain: seq<string>, symbols: seq<string>,
    start: nat, end: nat, startLine: nat, endLine: nat, content: seq<Byte>)

  /** A span that can be sliced out of the source. */
  predicate Sliceable(source: seq<Byte>, span: Span) {
    span.start <= span.end <= |source| && IsBoundary(source, span.start) && IsBoundary(source, span.end)
  }

  function EstimatedTokens(span: Span): (tokens: nat)
    ensures span.start <= span.end ==> 4 * tokens <= span.end - span.start < 4 * tokens + 4
    ensures span.start > span.end ==> tokens == 0
  {
    if span.start <= span.end then (span.end - span.start) / 4 else 0
  }

  // ---------------------------------------------------------------- line numbers

  function NewlinesBefore(source: seq<Byte>, offset: nat): (n: nat)
    requires offset <= |source|
    ensures n <= offset
  {
    if offset == 0 then 0
    else NewlinesBefore(source, offset - 1) + (if source[offset - 1] == NEWLINE then 1 else 0)
  }

  lemma {:induction false} NewlinesMonotone(source: seq<Byte>, a: nat, b: nat)
    requires a <= b <= |source|
    ensures NewlinesBefore(source, a) <= NewlinesBefore(source, b)
  {
    if a < b {
      NewlinesMonotone(source, a, b - 1);
    }
  }

  /** The offsets at which the lines of one source begin. */
  class LineIndex {
    var offsets: seq<nat>
    ghost const source: seq<Byte>

    ghost predicate Valid()
      reads this
    {
      && |offsets| == 1 + NewlinesBefore(source, |source|)
      && offsets[0] == 0
      && (forall k :: 0 <= k < |offsets| ==> offsets[k] <= |source| && NewlinesBefore(source, offsets[k]) == k)
      && (forall k :: 1 <= k < |offsets| ==> 0 < offsets[k] && source[offsets[k] - 1] == NEWLINE)
    }

    constructor (text: seq<Byte>)
      ensures Valid() && source == text
    {
      source := text;
      var starts: seq<nat> := [0];
      for i := 0 to |text|
        invariant |starts| == 1 + NewlinesBefore(text, i)
        invariant starts[0] == 0
        invariant forall k :: 0 <= k < |starts| ==> starts[k] <= i && NewlinesBefore(text, starts[k]) == k
        invariant forall k :: 1 <= k < |starts| ==> 0 < starts[k] && text[starts[k] - 1] == NEWLINE
      {
        if text[i] == NEWLINE {
          starts := starts + [i + 1];
        }
      }
      offsets := starts;
    }

    /** `partition_point` over the line starts: how many begin at or before `offset`. */
    method Line(offset: nat) returns (line: nat)
      requires Valid() && offset <= |source|
      ensures line == 1 + NewlinesBefore(source, offset)
    {
      var low, high := 0, |offsets|;
      while low < high
        invariant 0 <= low <= high <= |offsets|
        invariant low == 0 || offsets[low - 1] <= offset
        invariant high == |offsets| || offset < offsets[high]
      {
        var middle := low + (high - low) / 2;
        if offsets[middle] <= offset {
          low := middle + 1;
        } else {
          high := middle;
        }
      }
      line := low;
      assert offsets[0] <= offset;
      NewlinesMonotone(source, offsets[line - 1], offset);
      if line < |offsets| {
        NewlinesMonotone(source, offset, offsets[line] - 1);
      } else {
        NewlinesMonotone(source, offset, |source|);
      }
    }
  }

  // ---------------------------------------------------------------- splitting

  /** The pieces follow each other without gap or overlap from `start` to `end`. */
  predicate Partitions(pieces: seq<Span>, start: nat, end: nat) {
    if pieces == [] then start == end
    else
      && pieces[0].start == start
      && pieces[|pieces| - 1].end == end
      && forall i :: 0 <= i < |pieces| - 1 ==> pieces[i].end == pieces[i + 1].start
  }

  predicate HasNewline(source: seq<Byte>, start: nat, end: nat)
    requires end <= |source|
  {
    exists i :: start <= i < end && source[i] == NEWLINE
  }

  /**
   * A piece that the byte budget cut off. It ends behind the last newline within
   * reach, or, when there is none, on the last code-point boundary in the budget.
   */
  predicate CutWell(source: seq<Byte>, piece: Span) {
    && piece.start < piece.end <= |source|
    && piece.start + 4800 <= |source|
    && (source[piece.end - 1] == NEWLINE || !HasNewline(source, piece.start, piece.end))
    && !HasNewline(source, piece.end, piece.start + 4800 - 3)
    && (source[piece.end - 1] != NEWLINE ==> piece.start + 4800 < piece.end + 4)
  }

  method LastNewline(source: seq<Byte>, start: nat, end: nat) returns (found: Option<nat>)
    requires start <= end <= |source|
    ensures found.None? ==> !HasNewline(source, start, end)
    ensures found.Some? ==> start <= found.value < end && source[found.value] == NEWLINE
    ensures found.Some? ==> !HasNewline(source, found.value + 1, end)
  {
    var i := end;
    while i > start
      invariant start <= i <= end
      invariant !HasNewline(source, i, end)
    {
      i := i - 1;
      if source[i] == NEWLINE {
        return Some(i);
      }
    }
    return None;
  }

  /** A piece of a longer span: within the budget, and well cut unless it is the last. */
  ghost predicate GoodPiece(source: seq<Byte>, piece: Span, end: nat) {
    && Sliceable(source, piece)
    && 0 < piece.end - piece.start <= BUDGET_BYTES
    && piece.end <= end
    && (piece.end < end ==> CutWell(source, piece))
  }

  ghost predicate Split(source: seq<Byte>, spans: seq<Span>, start: nat, here: nat, end: nat) {
    && Partitions(spans, start, here)
    && (forall i :: 0 <= i < |spans| ==> GoodPiece(source, spans[i], end) && spans[i].end <= here)
    && (forall i :: 0 <= i < |spans| - 1 ==> spans[i].end < end)
  }

  lemma SplitFurther(source: seq<Byte>, spans: seq<Span>, start: nat, piece: Span, end: nat)
    requires Split(source, spans, start, piece.start, end) && GoodPiece(source, piece, end)
    ensures Split(source, spans + [piece], start, piece.end, end)
  {
    var all := spans + [piece];
    forall i | 0 <= i < |all|
      ensures GoodPiece(source, all[i], end) && all[i].end <= piece.end
    {
      assert i == |spans| || all[i] == spans[i];
    }
    forall i | 0 <= i < |all| - 1
      ensures all[i].end < end
    {
      assert all[i] == spans[i];
    }
  }

  method SplitByLines(source: seq<Byte>, span: Span) returns (spans: seq<Span>)
    requires Valid(source) && Sliceable(source, span)
    ensures Partitions(spans, span.start, span.end)
    ensures forall i :: 0 <= i < |spans| ==>
      && Sliceable(source, spans[i])
      && 0 < spans[i].end - spans[i].start <= 4800
    ensures forall i :: 0 <= i < |spans| - 1 ==> CutWell(source, spans[i])
  {
    spans := [];
    var start := span.start;
    while start < span.end
      invariant span.start <= start <= span.end && IsBoundary(source, start)
      invariant Split(source, spans, span.start, start, span.end)
    {
      var end := if start + BUDGET_BYTES < span.end then start + BUDGET_BYTES else span.end;
      if end < span.end {
        end := CutPoint(source, start, end);
      }
      SplitFurther(source, spans, span.start, Span(start, end), span.end);
      spans := spans + [Span(start, end)];
      start := end;
    }
    forall i | 0 <= i < |spans| - 1
      ensures CutWell(source, spans[i])
    {
      assert GoodPiece(source, spans[i], span.end);
    }
  }

  /** Move the end of a full budget back to a place where the text may be cut. */
  method CutPoint(source: seq<Byte>, start: nat, budgetEnd: nat) returns (end: nat)
    requires Valid(source) && IsBoundary(source, start)
    requires budgetEnd == start + BUDGET_BYTES < |source|
    ensures start < end <= budgetEnd && IsBoundary(source, end)
    ensures CutWell(source, Span(start, end))
  {
    end := budgetEnd;
    var near := BoundaryNearby(source, budgetEnd);
    while end > start && !IsBoundary(source, end)
      invariant near <= end <= budgetEnd
    {
      end := end - 1;
    }
    var last := LastNewline(source, start, end);
    if last.Some? {
      ghost var sliceEnd := end;
      end := last.value + 1;
      assert IsBoundary(source, end) by {
        BoundaryAfterNewline(source, last.value);
      }
      assert budgetEnd < sliceEnd + 4;
    } else {
      assert !HasNewline(source, end, budgetEnd - 3);
    }
    // The guard that follows in the source finds `end` on a boundary already.
    assert IsBoundary(source, end);
  }

  lemma {:induction false} BoundaryAfterNewline(source: seq<Byte>, i: nat)
    requires Valid(source) && i < |source| && source[i] == NEWLINE
    ensures IsBoundary(source, i + 1)
  {
    var w := CharWidth(source[0]);
    if i < w {
      if w < |source| {
        assert source[w..][0] == source[w];
      }
    } else {
      BoundaryAfterNewline(source[w..], i - w);
      if i + 1 < |source| {
        assert source[w..][i + 1 - w] == source[i + 1];
      }
    }
  }

  // ---------------------------------------------------------------- chunks

  /** What a caller may rely on for every chunk, however large its unit was. */
  ghost predicate WellFormed(source: seq<Byte>, c: Chunk) {
    && Sliceable(source, Span(c.start, c.end))
    && c.content == source[c.start..c.end]
    && (c.end - c.start) / 4 <= 2000
    && c.startLine == 1 + NewlinesBefore(source, c.start)
    && c.endLine == 1 + NewlinesBefore(source, if c.end > c.start then c.end - 1 else c.start)
  }

  /** The byte at `offset` is in a chunk of the same kind and scope as `u`. */
  ghost predicate Covered(chunks: seq<Chunk>, u: Unit, offset: nat) {
    exists c :: c in chunks && c.start <= offset < c.end && c.kind == u.kind && c.scopeChain == u.scopeChain
  }

  function PartName(name: Option<string>, parts: nat, index: nat): Option<string> {
    if parts > 1 && name.Some? then Some(name.value + "#part" + Decimal.Text(index + 1)) else name
  }

  lemma {:induction false} PartitionCovers(pieces: seq<Span>, start: nat, end: nat, offset: nat)
    requires Partitions(pieces, start, end) && start <= offset < end
    ensures exists i :: 0 <= i < |pieces| && pieces[i].start <= offset < pieces[i].end
  {
    if offset >= pieces[0].end {
      PartitionCovers(pieces[1..], pieces[0].end, end, offset);
      var i :| 0 <= i < |pieces| - 1 && pieces[1..][i].start <= offset < pieces[1..][i].end;
      assert pieces[i + 1].start <= offset < pieces[i + 1].end;
    } else {
      assert pieces[0].start <= offset < pieces[0].end;
    }
  }

  /** `c` is the i-th of `parts` chunks of the unit, cut out of it at `span`. */
  ghost predicate PartOf(source: seq<Byte>, u: Unit, parts: nat, i: nat, span: Span, c: Chunk) {
    && WellFormed(source, c)
    && Span(c.start, c.end) == span
    && c.kind == u.kind && c.scopeChain == u.scopeChain
    && c.name == (if parts > 1 && u.name.Some? then Some(u.name.value + "#part" + Decimal.Text(i + 1)) else u.name)
    && c.symbols == (if i == 0 then u.symbols else [])
  }

  method PartChunk(source: seq<Byte>, lines: LineIndex, u: Unit, parts: nat, i: nat, span: Span)
    returns (c: Chunk)
    requires lines.Valid() && lines.source == source
    requires Sliceable(source, span) && EstimatedTokens(span) <= MAX_TOKENS
    ensures PartOf(source, u, parts, i, span, c)
  {
    var startLine := lines.Line(span.start);
    var endLine := lines.Line(if span.end > span.start then span.end - 1 else span.start);
    c := Chunk(u.kind, PartName(u.name, parts, i), u.scopeChain, if i == 0 then u.symbols else [],
               span.start, span.end, startLine, endLine, source[span.start..span.end]);
  }

  /** Oversized units fall back to line splits; every other unit is one chunk. */
  method UnitToChunks(source: seq<Byte>, lines: LineIndex, u: Unit)
    returns (out: seq<Chunk>, ghost spans: seq<Span>)
    requires Valid(source) && Sliceable(source, u.span)
    requires lines.Valid() && lines.source == source
    ensures |out| == |spans| && Partitions(spans, u.span.start, u.span.end)
    ensures forall i :: 0 <= i < |out| ==> PartOf(source, u, |spans|, i, spans[i], out[i])
    ensures forall c :: c in out ==> WellFormed(source, c)
    ensures Small(u) ==> spans == [u.span] && |out| == 1
  {
    var pieces := [u.span];
    if EstimatedTokens(u.span) > MAX_TOKENS {
      pieces := SplitByLines(source, u.span);
    }
    out, spans := [], pieces;
    for i := 0 to |pieces|
      invariant |out| == i
      invariant forall k :: 0 <= k < i ==> PartOf(source, u, |pieces|, k, pieces[k], out[k])
    {
      var c := PartChunk(source, lines, u, |pieces|, i, pieces[i]);
      out := out + [c];
    }
  }

  // ---------------------------------------------------------------- merging

  predicate Anonymous(u: Unit) {
    u.kind == Module && u.name.None?
  }

  predicate Mergeable(a: Unit, u: Unit) {
    && !a.atomic && !u.atomic
    && a.scopeChain == u.scopeChain
    && ((a.kind == Imports && u.kind == Imports)
        || (Anonymous(a) && Anonymous(u)
            && EstimatedTokens(a.span) + EstimatedTokens(u.span) <= TARGET_TOKENS))
  }

  function Hull(a: Span, b: Span): Span {
    Span(if a.start <= b.start then a.start else b.start, if a.end >= b.end then a.end else b.end)
  }

  function Absorb(a: Unit, u: Unit): Unit {
    a.(span := Hull(a.span, u.span),
       name := if a.name.None? then u.name else a.name,
       symbols := a.symbols + u.symbols)
  }

  /** A declaration that retrieval must find as a chunk of its own. */
  predicate StandsAlone(u: Unit) {
    u.kind != Imports && !Anonymous(u)
  }

  predicate Small(u: Unit) {
    EstimatedTokens(u.span) <= MAX_TOKENS
  }

  /** `u` came out as one whole chunk that carries its name, scope and symbols. */
  ghost predicate EmittedWhole(chunks: seq<Chunk>, u: Unit) {
    exists c :: c in chunks && Span(c.start, c.end) == u.span
                && c.kind == u.kind && c.name == u.name && c.scopeChain == u.scopeChain && c.symbols == u.symbols
  }

  /** No byte of `u` is lost, and a declaration that fits is found whole. */
  ghost predicate Accounted(chunks: seq<Chunk>, u: Unit) {
    && (forall offset :: u.span.start <= offset < u.span.end ==> Covered(chunks, u, offset))
    && ((StandsAlone(u) || u.atomic) && EstimatedTokens(u.span) <= 2000 ==> EmittedWhole(chunks, u))
  }

  /** The accumulator still holds everything `u` contributed. */
  predicate Held(acc: Unit, u: Unit) {
    && acc.span.start <= u.span.start && u.span.end <= acc.span.end
    && acc.kind == u.kind && acc.scopeChain == u.scopeChain
    && (StandsAlone(u) || u.atomic ==> acc == u)
  }

  /** Units after merging: each one joins the unit before it whenever it may. */
  function Merged(units: seq<Unit>): seq<Unit> {
    if units == [] then []
    else
      var before, u := Merged(units[..|units| - 1]), units[|units| - 1];
      if before != [] && Mergeable(before[|before| - 1], u)
      then before[..|before| - 1] + [Absorb(before[|before| - 1], u)]
      else before + [u]
  }

  /** Every unit is inside one merged unit, and named declarations stay as they are. */
  lemma {:induction false} MergedHolds(units: seq<Unit>, u: Unit)
    requires u in units
    ensures exists m :: m in Merged(units) && Held(m, u)
  {
    var before, last := Merged(units[..|units| - 1]), units[|units| - 1];
    var merged := Merged(units);
    if u in units[..|units| - 1] {
      MergedHolds(units[..|units| - 1], u);
      var i :| 0 <= i < |before| && Held(before[i], u);
      if i == |before| - 1 && Mergeable(before[i], last) {
        assert Held(Absorb(before[i], last), u);
        assert merged[i] == Absorb(before[i], last);
      } else {
        assert merged[i] == before[i];
      }
      assert merged[i] in merged;
    } else {
      assert u == last;
      assert Held(merged[|merged| - 1], u);
    }
  }

  // ---------------------------------------------------------------- what merging makes of its units

  function SymbolsOf(units: seq<Unit>): seq<string> {
    if units == [] then [] else units[0].symbols + SymbolsOf(units[1..])
  }

  /** `m` has the name of the first unit that has one. */
  predicate FirstName(units: seq<Unit>, m: Unit) {
    && ((forall i :: 0 <= i < |units| ==> units[i].name.None?) ==> m.name.None?)
    && (forall i :: 0 <= i < |units| && units[i].name.Some? && (forall j :: 0 <= j < i ==> units[j].name.None?) ==>
          m.name == units[i].name)
  }

  /** `m` spans from the first byte of the units to the last. */
  predicate Spans(units: seq<Unit>, m: Unit) {
    && (forall i :: 0 <= i < |units| ==> m.span.start <= units[i].span.start && units[i].span.end <= m.span.end)
    && (exists i :: 0 <= i < |units| && units[i].span.start == m.span.start)
    && (exists i :: 0 <= i < |units| && units[i].span.end == m.span.end)
  }

  /** Imports of one scope, or loose statements of one scope. */
  predicate OfOneSort(units: seq<Unit>, m: Unit) {
    forall i :: 0 <= i < |units| ==>
      && !units[i].atomic && units[i].scopeChain == m.scopeChain && units[i].kind == m.kind
      && (m.kind == Imports || (m.kind == Module && units[i].name.None?))
  }

  /** `m` is these units, one after the other, as one. */
  ghost predicate Joined(units: seq<Unit>, m: Unit) {
    && units != [] && m.kind == units[0].kind && m.scopeChain == units[0].scopeChain && m.atomic == units[0].atomic
    && m.symbols == SymbolsOf(units) && FirstName(units, m) && Spans(units, m)
    && (|units| > 1 ==> OfOneSort(units, m))
  }

  /** `u` may not be joined to `m`: it stands alone, is of another sort, or would make it too large. */
  predicate KeptApart(m: Unit, u: Unit) {
    || m.atomic || u.atomic || m.scopeChain != u.scopeChain
    || !((m.kind == Imports && u.kind == Imports) || (m.kind == Module && u.kind == Module && m.name.None? && u.name.None?))
    || (m.kind == Module && EstimatedTokens(m.span) + EstimatedTokens(u.span) > 1200)
  }

  /**
   * The units from one cut to the next are one merged unit. Each group but the last
   * ends where the next unit may not be joined to it, and joining the last unit of a
   * group of loose statements was within the limit.
   */
  ghost predicate GroupedAt(units: seq<Unit>, merged: seq<Unit>, cuts: seq<nat>, k: nat)
    requires k < |merged| && |cuts| == |merged| + 1
  {
    && cuts[k] < cuts[k + 1] <= |units| && Joined(units[cuts[k]..cuts[k + 1]], merged[k])
    && (cuts[k + 1] < |units| ==> KeptApart(merged[k], units[cuts[k + 1]]))
    && (cuts[k + 1] - cuts[k] > 1 && merged[k].kind == Module ==> LastFits(units[cuts[k]..cuts[k + 1]]))
  }

  ghost predicate LastFits(units: seq<Unit>)
    requires units != []
  {
    var init, last := units[..|units| - 1], units[|units| - 1];
    exists m :: Joined(init, m) && EstimatedTokens(m.span) + EstimatedTokens(last.span) <= 1200
  }

  ghost predicate Grouped(units: seq<Unit>, merged: seq<Unit>, cuts: seq<nat>) {
    && |cuts| == |merged| + 1 && cuts[0] == 0 && cuts[|merged|] == |units|
    && forall k :: 0 <= k < |merged| ==> GroupedAt(units, merged, cuts, k)
  }

  lemma {:induction false} SymbolsAppend(units: seq<Unit>, u: Unit)
    ensures SymbolsOf(units + [u]) == SymbolsOf(units) + u.symbols
  {
    if units == [] {
      assert ([] + [u])[1..] == [];
    } else {
      SymbolsAppend(units[1..], u);
      assert (units + [u])[1..] == units[1..] + [u];
    }
  }

  lemma JoinedAlone(u: Unit)
    ensures Joined([u], u)
  {
    SymbolsAppend([], u);
    assert [] + [u] == [u];
    assert [u][0] == u;
  }

  lemma FirstNameMore(units: seq<Unit>, m: Unit, u: Unit)
    requires FirstName(units, m)
    ensures FirstName(units + [u], m.(name := if m.name.None? then u.name else m.name))
  {
    var all := units + [u];
    assert forall i :: 0 <= i < |units| ==> all[i] == units[i];
    if i :| 0 <= i < |all| && all[i].name.Some? && forall j :: 0 <= j < i ==> all[j].name.None? {
      assert i < |units| ==> units[i].name.Some? && forall j :: 0 <= j < i ==> units[j].name.None?;
    }
    if forall i :: 0 <= i < |all| ==> all[i].name.None? {
      assert all[|units|] == u;
      assert forall i :: 0 <= i < |units| ==> units[i].name.None?;
    }
  }

  lemma SpansMore(units: seq<Unit>, m: Unit, u: Unit)
    requires Spans(units, m)
    ensures Spans(units + [u], m.(span := Hull(m.span, u.span)))
  {
    var all := units + [u];
    assert all[|units|] == u;
    var i :| 0 <= i < |units| && units[i].span.start == m.span.start;
    var j :| 0 <= j < |units| && units[j].span.end == m.span.end;
    assert all[i].span.start == m.span.start && all[j].span.end == m.span.end;
  }

  /** A unit that may join does join: the accumulator then is one unit more. */
  lemma JoinedMore(units: seq<Unit>, m: Unit, u: Unit)
    requires Joined(units, m) && Mergeable(m, u)
    ensures Joined(units + [u], Absorb(m, u))
    ensures m.kind == Module ==> LastFits(units + [u])
  {
    SymbolsAppend(units, u);
    FirstNameMore(units, m, u);
    SpansMore(units, m, u);
    var all := units + [u];
    assert all[..|all| - 1] == units && all[|all| - 1] == u;
    assert forall i :: 0 <= i < |units| ==> all[i] == units[i];
    assert OfOneSort(units, m) by {
      if |units| == 1 {
        assert units[0].name == m.name;
      }
    }
  }

  lemma GroupStays(units: seq<Unit>, u: Unit, before: seq<Unit>, merged: seq<Unit>, c: seq<nat>, cuts: seq<nat>, k: nat)
    requires k < |before| && k < |merged| && |c| == |before| + 1 && |cuts| == |merged| + 1
    requires GroupedAt(units, before, c, k) && merged[k] == before[k] && cuts[k] == c[k] && cuts[k + 1] == c[k + 1]
    requires c[k + 1] == |units| ==> KeptApart(before[k], u)
    ensures GroupedAt(units + [u], merged, cuts, k)
  {
    assert (units + [u])[c[k]..c[k + 1]] == units[c[k]..c[k + 1]];
  }

  lemma GroupGrows(units: seq<Unit>, u: Unit, before: seq<Unit>, c: seq<nat>)
    requires before != [] && Grouped(units, before, c) && Mergeable(before[|before| - 1], u)
    ensures Grouped(units + [u], before[..|before| - 1] + [Absorb(before[|before| - 1], u)], c[..|before|] + [|units| + 1])
  {
    var last := |before| - 1;
    var merged, cuts := before[..last] + [Absorb(before[last], u)], c[..|before|] + [|units| + 1];
    forall k | 0 <= k < |merged|
      ensures GroupedAt(units + [u], merged, cuts, k)
    {
      assert GroupedAt(units, before, c, k);
      if k < last {
        CutsAscend(units, before, c, k + 1);
        GroupStays(units, u, before, merged, c, cuts, k);
      } else {
        assert units[c[last]..c[last + 1]] + [u] == (units + [u])[c[last]..|units| + 1];
        JoinedMore(units[c[last]..c[last + 1]], before[last], u);
      }
    }
  }

  lemma CutsAscend(units: seq<Unit>, merged: seq<Unit>, cuts: seq<nat>, k: nat)
    requires Grouped(units, merged, cuts) && k < |merged|
    ensures cuts[k] < |units|
  {
    assert GroupedAt(units, merged, cuts, k);
  }

  lemma GroupBegins(units: seq<Unit>, u: Unit, before: seq<Unit>, c: seq<nat>)
    requires Grouped(units, before, c) && (before != [] ==> !Mergeable(before[|before| - 1], u))
    ensures Grouped(units + [u], before + [u], c + [|units| + 1])
  {
    var merged, cuts := before + [u], c + [|units| + 1];
    forall k | 0 <= k < |merged|
      ensures GroupedAt(units + [u], merged, cuts, k)
    {
      if k < |before| {
        assert GroupedAt(units, before, c, k);
        if k + 1 < |before| {
          CutsAscend(units, before, c, k + 1);
        }
        GroupStays(units, u, before, merged, c, cuts, k);
      } else {
        JoinedAlone(u);
        assert (units + [u])[|units|..|units| + 1] == [u];
      }
    }
  }

  /** Merging puts neighbours together exactly as far as they may be joined. */
  lemma {:induction false} MergedIsGrouped(units: seq<Unit>) returns (cuts: seq<nat>)
    ensures Grouped(units, Merged(units), cuts)
  {
    if units == [] {
      cuts := [0];
    } else {
      var init, u := units[..|units| - 1], units[|units| - 1];
      var c := MergedIsGrouped(init);
      var before := Merged(init);
      assert units == init + [u];
      hide GroupedAt, Mergeable, KeptApart;
      if before != [] && Mergeable(before[|before| - 1], u) {
        GroupGrows(init, u, before, c);
        cuts := c[..|before|] + [|init| + 1];
      } else {
        GroupBegins(init, u, before, c);
        cuts := c + [|init| + 1];
      }
    }
  }

  // ---------------------------------------------------------------- chunks of merged units

  /** One merged unit with the chunks it was turned into. */
  datatype Group = Group(unit: Unit, spans: seq<Span>, chunks: seq<Chunk>)

  ghost predicate GroupOf(source: seq<Byte>, u: Unit, g: Group) {
    && g.unit == u
    && |g.chunks| == |g.spans| && Partitions(g.spans, u.span.start, u.span.end)
    && (forall i :: 0 <= i < |g.chunks| ==> PartOf(source, u, |g.spans|, i, g.spans[i], g.chunks[i]))
    && (Small(u) ==> g.spans == [u.span])
  }

  ghost predicate GroupsOf(source: seq<Byte>, units: seq<Unit>, groups: seq<Group>) {
    |groups| == |units| && forall i :: 0 <= i < |units| ==> GroupOf(source, units[i], groups[i])
  }

  function Chunks(groups: seq<Group>): seq<Chunk> {
    if groups == [] then [] else Chunks(groups[..|groups| - 1]) + groups[|groups| - 1].chunks
  }

  lemma {:induction false} ChunksContain(groups: seq<Group>, i: nat, c: Chunk)
    requires i < |groups| && c in groups[i].chunks
    ensures c in Chunks(groups)
  {
    if i < |groups| - 1 {
      ChunksContain(groups[..|groups| - 1], i, c);
    }
  }

  lemma {:induction false} ChunksOnlyFrom(groups: seq<Group>, c: Chunk)
    requires c in Chunks(groups)
    ensures exists i :: 0 <= i < |groups| && c in groups[i].chunks
  {
    if c !in groups[|groups| - 1].chunks {
      ChunksOnlyFrom(groups[..|groups| - 1], c);
      var i :| 0 <= i < |groups| - 1 && c in groups[..|groups| - 1][i].chunks;
      assert c in groups[i].chunks;
    }
  }

  lemma GroupCovers(source: seq<Byte>, m: Unit, groups: seq<Group>, i: nat, u: Unit, offset: nat)
    requires i < |groups| && GroupOf(source, m, groups[i]) && Held(m, u)
    requires u.span.start <= offset < u.span.end
    ensures Covered(Chunks(groups), u, offset)
  {
    hide WellFormed, Chunks;
    var g := groups[i];
    PartitionCovers(g.spans, m.span.start, m.span.end, offset);
    var k :| 0 <= k < |g.spans| && g.spans[k].start <= offset < g.spans[k].end;
    assert PartOf(source, m, |g.spans|, k, g.spans[k], g.chunks[k]);
    ChunksContain(groups, i, g.chunks[k]);
  }

  lemma GroupEmits(source: seq<Byte>, groups: seq<Group>, i: nat, u: Unit)
    requires i < |groups| && GroupOf(source, u, groups[i]) && Small(u)
    ensures EmittedWhole(Chunks(groups), u)
  {
    hide WellFormed, Chunks;
    var g := groups[i];
    assert PartOf(source, u, |g.spans|, 0, g.spans[0], g.chunks[0]);
    ChunksContain(groups, i, g.chunks[0]);
  }

  /** Chunking loses no byte of any unit, whatever was merged or split on the way. */
  lemma UnitsAreAccounted(source: seq<Byte>, units: seq<Unit>, groups: seq<Group>, u: Unit)
    requires GroupsOf(source, Merged(units), groups) && u in units
    ensures Accounted(Chunks(groups), u)
  {
    hide GroupOf, Chunks, Covered, EmittedWhole;
    MergedHolds(units, u);
    var merged := Merged(units);
    var i :| 0 <= i < |merged| && Held(merged[i], u);
    assert GroupOf(source, merged[i], groups[i]);
    forall offset: nat | u.span.start <= offset < u.span.end
      ensures Covered(Chunks(groups), u, offset)
    {
      GroupCovers(source, merged[i], groups, i, u, offset);
    }
    if (StandsAlone(u) || u.atomic) && Small(u) {
      GroupEmits(source, groups, i, u);
    }
  }

  /** No chunk exceeds the token limit or misstates its lines or its content. */
  lemma ChunksAreWellFormed(source: seq<Byte>, units: seq<Unit>, groups: seq<Group>, c: Chunk)
    requires GroupsOf(source, Merged(units), groups) && c in Chunks(groups)
    ensures WellFormed(source, c)
  {
    ChunksOnlyFrom(groups, c);
    var i :| 0 <= i < |groups| && c in groups[i].chunks;
    var g := groups[i];
    assert GroupOf(source, Merged(units)[i], g);
    var k :| 0 <= k < |g.chunks| && g.chunks[k] == c;
    assert PartOf(source, Merged(units)[i], |g.spans|, k, g.spans[k], g.chunks[k]);
  }

  lemma {:induction false} MergedSliceable(source: seq<Byte>, units: seq<Unit>)
    requires forall u :: u in units ==> Sliceable(source, u.span)
    ensures forall m :: m in Merged(units) ==> Sliceable(source, m.span)
  {
    if units != [] {
      MergedSliceable(source, units[..|units| - 1]);
    }
  }

  function ChunkSymbols(chunks: seq<Chunk>): seq<string> {
    if chunks == [] then [] else ChunkSymbols(chunks[..|chunks| - 1]) + chunks[|chunks| - 1].symbols
  }

  lemma {:induction false} ChunkSymbolsAppend(a: seq<Chunk>, b: seq<Chunk>)
    ensures ChunkSymbols(a + b) == ChunkSymbols(a) + ChunkSymbols(b)
  {
    if b == [] {
      assert a + b == a;
    } else {
      var init, last := b[..|b| - 1], b[|b| - 1];
      ChunkSymbolsAppend(a, init);
      assert (a + b)[..|a + b| - 1] == a + init;
    }
  }

  /** The first part carries the symbols, and the others none. */
  lemma {:induction false} PartSymbols(symbols: seq<string>, parts: seq<Chunk>)
    requires parts != []
    requires forall i :: 0 <= i < |parts| ==> parts[i].symbols == if i == 0 then symbols else []
    ensures ChunkSymbols(parts) == symbols
  {
    if |parts| == 1 {
      assert ChunkSymbols(parts[..0]) == [];
    } else {
      PartSymbols(symbols, parts[..|parts| - 1]);
    }
  }

  lemma GroupSymbols(source: seq<Byte>, u: Unit, g: Group)
    requires GroupOf(source, u, g)
    ensures ChunkSymbols(g.chunks) == u.symbols
  {
    assert g.chunks != [];
    forall i | 0 <= i < |g.chunks|
      ensures g.chunks[i].symbols == if i == 0 then u.symbols else []
    {
      assert PartOf(source, u, |g.spans|, i, g.spans[i], g.chunks[i]);
    }
    PartSymbols(u.symbols, g.chunks);
  }

  lemma {:induction false} GroupsSymbols(source: seq<Byte>, units: seq<Unit>, groups: seq<Group>)
    requires GroupsOf(source, units, groups)
    ensures ChunkSymbols(Chunks(groups)) == SymbolsOf(units)
  {
    hide GroupOf;
    if units != [] {
      var init, last := groups[..|groups| - 1], groups[|groups| - 1];
      GroupsSymbols(source, units[..|units| - 1], init);
      ChunkSymbolsAppend(Chunks(init), last.chunks);
      GroupSymbols(source, units[|units| - 1], last);
      SymbolsAppend(units[..|units| - 1], units[|units| - 1]);
      assert units == units[..|units| - 1] + [units[|units| - 1]];
    }
  }

  lemma {:induction false} MergedSymbols(units: seq<Unit>)
    ensures SymbolsOf(Merged(units)) == SymbolsOf(units)
  {
    if units != [] {
      var init, u := units[..|units| - 1], units[|units| - 1];
      var before := Merged(init);
      MergedSymbols(init);
      SymbolsAppend(init, u);
      assert units == init + [u];
      if before != [] && Mergeable(before[|before| - 1], u) {
        var most, last := before[..|before| - 1], before[|before| - 1];
        assert before == most + [last];
        SymbolsAppend(most, last);
        SymbolsAppend(most, Absorb(last, u));
      } else {
        SymbolsAppend(before, u);
      }
    }
  }

  method MergeUnits(source: seq<Byte>, lines: LineIndex, units: seq<Unit>)
    returns (chunks: seq<Chunk>, ghost groups: seq<Group>)
    requires Valid(source) && lines.Valid() && lines.source == source
    requires forall u :: u in units ==> Sliceable(source, u.span)
    ensures GroupsOf(source, Merged(units), groups) && exists cuts :: Grouped(units, Merged(units), cuts)
    ensures chunks == Chunks(groups)
    ensures forall u :: u in units ==> Accounted(chunks, u)
    ensures forall c :: c in chunks ==> WellFormed(source, c)
    ensures ChunkSymbols(chunks) == SymbolsOf(units)
  {
    chunks, groups := MergeLoop(source, lines, units);
    forall u | u in units
      ensures Accounted(chunks, u)
    {
      UnitsAreAccounted(source, units, groups, u);
    }
    forall c | c in chunks
      ensures WellFormed(source, c)
    {
      ChunksAreWellFormed(source, units, groups, c);
    }
    var cuts := MergedIsGrouped(units);
    GroupsSymbols(source, Merged(units), groups);
    MergedSymbols(units);
  }

  /** The merged units are those sent off already and the one in the accumulator. */
  ghost predicate Parted(units: seq<Unit>, sent: seq<Unit>, acc: Option<Unit>) {
    match acc
    case None => units == [] && sent == []
    case Some(last) => Merged(units) == sent + [last]
  }

  lemma PartedStep(units: seq<Unit>, u: Unit, sent: seq<Unit>, acc: Option<Unit>)
    requires Parted(units, sent, acc)
    ensures
      if acc.Some? && Mergeable(acc.value, u) then Parted(units + [u], sent, Some(Absorb(acc.value, u)))
      else Parted(units + [u], if acc.Some? then sent + [acc.value] else [], Some(u))
  {
    assert (units + [u])[..|units|] == units;
    if acc.Some? {
      var before := Merged(units);
      assert before[|before| - 1] == acc.value && before[..|before| - 1] == sent;
    }
  }

  lemma PartedSliceable(source: seq<Byte>, units: seq<Unit>, sent: seq<Unit>, last: Unit)
    requires forall u :: u in units ==> Sliceable(source, u.span)
    requires Parted(units, sent, Some(last))
    ensures Sliceable(source, last.span)
  {
    MergedSliceable(source, units);
    assert Merged(units)[|sent|] == last;
  }

  /** The accumulator: a unit that may not join it sends it off to be chunked. */
  method MergeLoop(source: seq<Byte>, lines: LineIndex, units: seq<Unit>)
    returns (chunks: seq<Chunk>, ghost groups: seq<Group>)
    requires Valid(source) && lines.Valid() && lines.source == source
    requires forall u :: u in units ==> Sliceable(source, u.span)
    ensures GroupsOf(source, Merged(units), groups)
    ensures chunks == Chunks(groups)
  {
    chunks, groups := [], [];
    var acc: Option<Unit> := None;
    ghost var sent: seq<Unit> := [];
    for i := 0 to |units|
      invariant Parted(units[..i], sent, acc)
      invariant GroupsOf(source, sent, groups) && chunks == Chunks(groups)
    {
      var u := units[i];
      assert units[..i + 1] == units[..i] + [u];
      PartedStep(units[..i], u, sent, acc);
      if acc.None? {
        acc := Some(u);
      } else if Mergeable(acc.value, u) {
        acc := Some(Absorb(acc.value, u));
      } else {
        PartedSliceable(source, units[..i], sent, acc.value);
        var more, spans := UnitToChunks(source, lines, acc.value);
        groups := Append(source, sent, groups, acc.value, spans, more);
        sent := sent + [acc.value];
        chunks := chunks + more;
        acc := Some(u);
      }
    }
    assert units[..|units|] == units;
    if acc.Some? {
      PartedSliceable(source, units, sent, acc.value);
      var more, spans := UnitToChunks(source, lines, acc.value);
      groups := Append(source, sent, groups, acc.value, spans, more);
      chunks := chunks + more;
    }
  }

  lemma Append(source: seq<Byte>, sent: seq<Unit>, before: seq<Group>, acc: Unit, spans: seq<Span>, more: seq<Chunk>)
    returns (groups: seq<Group>)
    requires GroupsOf(source, sent, before)
    requires GroupOf(source, acc, Group(acc, spans, more))
    ensures GroupsOf(source, sent + [acc], groups) && Chunks(groups) == Chunks(before) + more
  {
    groups := before + [Group(acc, spans, more)];
    assert groups[..|groups| - 1] == before;
  }
}
