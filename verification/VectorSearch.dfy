/**
 * Exact vector search: sqlite-vec answers the nearest rows of one partition, so
 * the search asks every origin and format separately and merges the answers.
 */
module VectorSearch {
  import opened Wrappers
  import opened VectorIndex
  import Collections
  import Sorting

  /** A search hit; `similarity` is one minus the distance. */
  datatype Hit = Hit(row: int, chunk: int, similarity: real)

  type Similarity = Vector -> real

  predicate Closer(a: Hit, b: Hit) {
    a.similarity >= b.similarity
  }

  lemma CloserOrders()
    ensures Sorting.TotalPreorder(Closer)
  {
  }

  /** The rows of one partition, restricted to the requested paths inside the query. */
  function Partition(db: Db, p: int, origin: string, format: string, inPath: int -> bool): (part: set<int>)
    requires p in db.profiles
    ensures part <= RowsOf(db, db.profiles[p]).Keys && part <= db.entries.Keys
  {
    var rows := RowsOf(db, db.profiles[p]);
    set r | r in rows && rows[r].profile == p && rows[r].origin == origin && rows[r].format == format && PathAdmits(db, r, inPath)
  }

  /** `rowid IN (SELECT entry.id ... WHERE path in scope)`. */
  predicate PathAdmits(db: Db, r: int, inPath: int -> bool) {
    r in db.entries && db.entries[r].chunk in db.chunks && inPath(db.chunks[db.entries[r].chunk].file)
  }

  /** All rows that a search may return. */
  function Scope(db: Db, p: int, origins: seq<string>, formats: seq<string>, inPath: int -> bool): set<int>
    requires p in db.profiles
  {
    var rows := RowsOf(db, db.profiles[p]);
    set r | r in rows && rows[r].profile == p && rows[r].origin in origins && rows[r].format in formats && PathAdmits(db, r, inPath)
  }

  function ScoreOf(db: Db, p: int, similarity: Similarity, r: int): real
    requires p in db.profiles && r in RowsOf(db, db.profiles[p])
  {
    similarity(RowsOf(db, db.profiles[p])[r].vector)
  }

  function RowsIn(hits: seq<Hit>): set<int> {
    set h | h in hits :: h.row
  }

  /** Each hit is a row of its own, with its chunk and its similarity. */
  ghost predicate Proper(db: Db, p: int, similarity: Similarity, hits: seq<Hit>)
    requires p in db.profiles
  {
    && (forall h :: h in hits ==>
          && h.row in RowsOf(db, db.profiles[p]) && h.row in db.entries
          && h.chunk == db.entries[h.row].chunk && h.similarity == ScoreOf(db, p, similarity, h.row))
    && (forall i, j :: 0 <= i < j < |hits| ==> hits[i].row != hits[j].row)
  }

  /** `hits` are `k` of the rows in `all`, or all of them, and no other row is closer. */
  ghost predicate Nearest(db: Db, p: int, similarity: Similarity, all: set<int>, k: nat, hits: seq<Hit>)
    requires p in db.profiles && all <= RowsOf(db, db.profiles[p]).Keys
  {
    && Proper(db, p, similarity, hits)
    && RowsIn(hits) <= all
    && |hits| == (if |all| < k then |all| else k)
    && (forall r, h :: r in all && r !in RowsIn(hits) && h in hits ==> ScoreOf(db, p, similarity, r) <= h.similarity)
  }

  lemma {:induction false} ProperSize(db: Db, p: int, similarity: Similarity, hits: seq<Hit>)
    requires p in db.profiles && Proper(db, p, similarity, hits)
    ensures |RowsIn(hits)| == |hits|
  {
    if hits != [] {
      var init, last := hits[..|hits| - 1], hits[|hits| - 1];
      assert hits == init + [last];
      assert last in hits;
      ProperSize(db, p, similarity, init);
      assert last.row !in RowsIn(init);
      assert RowsIn(hits) == RowsIn(init) + {last.row};
    } else {
      assert RowsIn(hits) == {};
    }
  }

  /** The nearest rows of one partition, as the virtual table answers them. */
  method NearestRows(db: Db, p: int, similarity: Similarity, all: set<int>, k: nat) returns (hits: seq<Hit>)
    requires p in db.profiles && all <= RowsOf(db, db.profiles[p]).Keys && all <= db.entries.Keys
    ensures Nearest(db, p, similarity, all, k, hits)
  {
    var list := Collections.Elements(all);
    var candidates: seq<Hit> := [];
    for i := 0 to |list|
      invariant |candidates| == i
      invariant forall j :: 0 <= j < i ==>
        candidates[j] == Hit(list[j], db.entries[list[j]].chunk, ScoreOf(db, p, similarity, list[j]))
    {
      assert list[i] in list;
      candidates := candidates + [Hit(list[i], db.entries[list[i]].chunk, ScoreOf(db, p, similarity, list[i]))];
    }
    Collections.ListSize(list, all);
    assert Proper(db, p, similarity, candidates);
    assert RowsIn(candidates) == all by {
      forall r | r in all
        ensures r in RowsIn(candidates)
      {
        var j :| 0 <= j < |list| && list[j] == r;
        assert candidates[j] in candidates;
      }
    }
    hits := SortAndTruncate(db, p, similarity, candidates, all, k);
  }

  /** `sort_by(total_cmp)` followed by `truncate`. */
  method SortAndTruncate(db: Db, p: int, similarity: Similarity, scores: seq<Hit>, ghost all: set<int>, limit: nat)
    returns (hits: seq<Hit>)
    requires p in db.profiles && Proper(db, p, similarity, scores) && RowsIn(scores) == all
    ensures Nearest(db, p, similarity, all, limit, hits)
    ensures Sorting.Sorted(hits, Closer)
  {
    var sorted := Sorting.Sort(scores, Closer);
    CloserOrders();
    Sorting.SortSorts(scores, Closer);
    SortKeepsProper(db, p, similarity, scores, sorted);
    hits := if limit < |sorted| then sorted[..limit] else sorted;
    assert sorted[..|sorted|] == sorted;
    ProperSize(db, p, similarity, sorted);
    CutIsNearest(db, p, similarity, sorted, all, |hits|);
  }

  lemma CutIsNearest(db: Db, p: int, similarity: Similarity, sorted: seq<Hit>, all: set<int>, k: nat)
    requires p in db.profiles && Proper(db, p, similarity, sorted) && RowsIn(sorted) == all
    requires Sorting.Sorted(sorted, Closer) && k <= |sorted|
    ensures forall r, h :: r in all && r !in RowsIn(sorted[..k]) && h in sorted[..k] ==> ScoreOf(db, p, similarity, r) <= h.similarity
  {
    var hits := sorted[..k];
    forall r, h | r in all && r !in RowsIn(hits) && h in hits
      ensures ScoreOf(db, p, similarity, r) <= h.similarity
    {
      var g :| g in sorted && g.row == r;
      var i :| 0 <= i < |hits| && hits[i] == h;
      var j :| 0 <= j < |sorted| && sorted[j] == g;
      assert forall x :: 0 <= x < |hits| ==> hits[x] == sorted[x];
      assert Closer(sorted[i], sorted[j]);
    }
  }

  lemma SortKeepsProper(db: Db, p: int, similarity: Similarity, scores: seq<Hit>, sorted: seq<Hit>)
    requires p in db.profiles && Proper(db, p, similarity, scores)
    requires multiset(sorted) == multiset(scores)
    ensures Proper(db, p, similarity, sorted) && RowsIn(sorted) == RowsIn(scores)
  {
    assert forall h :: h in sorted <==> h in multiset(sorted);
    assert forall h :: h in scores <==> h in multiset(scores);
    forall i, j | 0 <= i < j < |sorted|
      ensures sorted[i].row != sorted[j].row
    {
      if sorted[i].row == sorted[j].row {
        assert sorted[i] == sorted[j];
        assert sorted == sorted[..i] + [sorted[i]] + sorted[i + 1..j] + [sorted[j]] + sorted[j + 1..];
        assert multiset(sorted)[sorted[i]] >= 2;
        assert forall x, y :: 0 <= x < y < |scores| ==> scores[x].row != scores[y].row;
        Collections.AtMostOnce(scores, sorted[i]);
      }
    }
  }

  // ---------------------------------------------------------------- merging partitions

  /** The partitions that were asked so far. */
  function Asked(db: Db, p: int, origins: seq<string>, formats: seq<string>, inPath: int -> bool, i: nat, j: nat): (asked: set<int>)
    requires p in db.profiles && i <= |origins| && j <= |formats|
    ensures asked <= RowsOf(db, db.profiles[p]).Keys
  {
    Scope(db, p, origins[..i], formats, inPath) + (if i < |origins| then Scope(db, p, [origins[i]], formats[..j], inPath) else {})
  }

  /**
   * The collected hits contain everything that can matter for the first `k`: a row
   * that is not among them is outranked by at least `k` hits.
   */
  ghost predicate Collected(db: Db, p: int, similarity: Similarity, asked: set<int>, k: nat, scores: seq<Hit>)
    requires p in db.profiles && asked <= RowsOf(db, db.profiles[p]).Keys
  {
    && Proper(db, p, similarity, scores)
    && RowsIn(scores) <= asked
    && (forall r :: r in asked && r !in RowsIn(scores) ==> Outranked(db, p, similarity, k, scores, r))
  }

  ghost predicate Outranked(db: Db, p: int, similarity: Similarity, k: nat, scores: seq<Hit>, r: int)
    requires p in db.profiles && r in RowsOf(db, db.profiles[p])
  {
    exists close: set<int> :: close <= RowsIn(scores) && |close| >= k
      && forall h :: h in scores && h.row in close ==> ScoreOf(db, p, similarity, r) <= h.similarity
  }

  lemma CollectsMore(db: Db, p: int, similarity: Similarity, asked: set<int>, part: set<int>, k: nat, scores: seq<Hit>, hits: seq<Hit>)
    requires p in db.profiles && asked + part <= RowsOf(db, db.profiles[p]).Keys && asked !! part
    requires Collected(db, p, similarity, asked, k, scores) && Nearest(db, p, similarity, part, k, hits)
    ensures Collected(db, p, similarity, asked + part, k, scores + hits)
  {
    var all := scores + hits;
    assert RowsIn(all) == RowsIn(scores) + RowsIn(hits);
    forall i, j | 0 <= i < j < |all|
      ensures all[i].row != all[j].row
    {
      assert i < |scores| ==> all[i].row in RowsIn(scores) && all[i].row in asked;
      assert j >= |scores| ==> all[j].row in RowsIn(hits) && all[j].row in part;
    }
    assert Proper(db, p, similarity, all);
    forall r | r in asked + part && r !in RowsIn(all)
      ensures Outranked(db, p, similarity, k, all, r)
    {
      if r in asked {
        var close: set<int> :| close <= RowsIn(scores) && |close| >= k
          && forall h :: h in scores && h.row in close ==> ScoreOf(db, p, similarity, r) <= h.similarity;
        forall h | h in all && h.row in close
          ensures ScoreOf(db, p, similarity, r) <= h.similarity
        {
          assert h in scores || h.row in part;
        }
        assert close <= RowsIn(all);
      } else {
        PartOutranks(db, p, similarity, part, k, hits, r);
        forall h | h in all && h.row in RowsIn(hits)
          ensures ScoreOf(db, p, similarity, r) <= h.similarity
        {
          assert h in hits || h.row in asked;
        }
        assert RowsIn(hits) <= RowsIn(all);
      }
    }
  }

  lemma PartOutranks(db: Db, p: int, similarity: Similarity, part: set<int>, k: nat, hits: seq<Hit>, r: int)
    requires p in db.profiles && part <= RowsOf(db, db.profiles[p]).Keys
    requires Nearest(db, p, similarity, part, k, hits) && r in part && r !in RowsIn(hits)
    ensures |RowsIn(hits)| >= k
  {
    ProperSize(db, p, similarity, hits);
    if |part| < k {
      Collections.SubsetSize(RowsIn(hits), part - {r});
    }
  }

  /** The first `limit <= k` of what was collected are the nearest of all rows asked. */
  lemma CollectedIsNearest(db: Db, p: int, similarity: Similarity, asked: set<int>, k: nat, limit: nat, scores: seq<Hit>, hits: seq<Hit>)
    requires p in db.profiles && asked <= RowsOf(db, db.profiles[p]).Keys
    requires limit <= k && Collected(db, p, similarity, asked, k, scores)
    requires Nearest(db, p, similarity, RowsIn(scores), limit, hits)
    ensures Nearest(db, p, similarity, asked, limit, hits)
  {
    ProperSize(db, p, similarity, scores);
    Collections.SubsetSize(RowsIn(scores), asked);
    forall r | r in asked && r !in RowsIn(scores)
      ensures |RowsIn(scores)| >= limit
      ensures forall h :: h in hits ==> ScoreOf(db, p, similarity, r) <= h.similarity
    {
      var close: set<int> :| close <= RowsIn(scores) && |close| >= k
        && forall h :: h in scores && h.row in close ==> ScoreOf(db, p, similarity, r) <= h.similarity;
      Collections.SubsetSize(close, RowsIn(scores));
      forall h | h in hits
        ensures ScoreOf(db, p, similarity, r) <= h.similarity
      {
        HitIsCloseEnough(db, p, similarity, k, limit, scores, hits, close, ScoreOf(db, p, similarity, r), h);
      }
    }
    if asked != RowsIn(scores) {
      var r := Collections.Outside(asked, RowsIn(scores));
    }
  }

  /** If `k` collected rows have a score, no hit among the first `limit` has less. */
  lemma HitIsCloseEnough(db: Db, p: int, similarity: Similarity, k: nat, limit: nat, scores: seq<Hit>, hits: seq<Hit>,
                         close: set<int>, score: real, h: Hit)
    requires p in db.profiles && limit <= k && Proper(db, p, similarity, scores)
    requires Nearest(db, p, similarity, RowsIn(scores), limit, hits)
    requires close <= RowsIn(scores) && |close| >= k
    requires forall g :: g in scores && g.row in close ==> score <= g.similarity
    requires h in hits
    ensures score <= h.similarity
  {
    ProperSize(db, p, similarity, hits);
    if h.similarity < score {
      assert h.row in RowsIn(hits);
      forall r | r in close
        ensures r in RowsIn(hits) - {h.row}
      {
        var g :| g in scores && g.row == r;
        assert g.similarity == ScoreOf(db, p, similarity, r) && score <= g.similarity;
      }
      Collections.SubsetSize(close, RowsIn(hits) - {h.row});
    }
  }

  lemma AskedGrows(db: Db, p: int, origins: seq<string>, formats: seq<string>, inPath: int -> bool, i: nat, j: nat)
    requires p in db.profiles && Collections.Distinct(origins) && Collections.Distinct(formats) && i < |origins| && j < |formats|
    ensures Asked(db, p, origins, formats, inPath, i, j + 1)
         == Asked(db, p, origins, formats, inPath, i, j) + Partition(db, p, origins[i], formats[j], inPath)
    ensures Asked(db, p, origins, formats, inPath, i, j) !! Partition(db, p, origins[i], formats[j], inPath)
    ensures Asked(db, p, origins, formats, inPath, i, j + 1) <= RowsOf(db, db.profiles[p]).Keys
  {
    assert formats[..j + 1] == formats[..j] + [formats[j]];
    assert origins[i] !in origins[..i];
    assert formats[j] !in formats[..j];
  }

  lemma OriginDone(db: Db, p: int, origins: seq<string>, formats: seq<string>, inPath: int -> bool, i: nat)
    requires p in db.profiles && i < |origins|
    ensures Asked(db, p, origins, formats, inPath, i, |formats|) == Asked(db, p, origins, formats, inPath, i + 1, 0)
  {
    assert origins[..i + 1] == origins[..i] + [origins[i]];
    assert formats[..|formats|] == formats;
    assert i + 1 < |origins| ==> Scope(db, p, [origins[i + 1]], formats[..0], inPath) == {};
  }

  /** All formats of one origin. */
  method SearchOrigin(db: Db, p: int, similarity: Similarity, k: nat, origins: seq<string>, formats: seq<string>,
                      inPath: int -> bool, i: nat, before: seq<Hit>)
    returns (scores: seq<Hit>)
    requires p in db.profiles && Collections.Distinct(origins) && Collections.Distinct(formats) && i < |origins|
    requires Collected(db, p, similarity, Asked(db, p, origins, formats, inPath, i, 0), k, before)
    ensures Collected(db, p, similarity, Asked(db, p, origins, formats, inPath, i + 1, 0), k, scores)
  {
    hide Asked, Partition, Collected;
    scores := before;
    for j := 0 to |formats|
      invariant Collected(db, p, similarity, Asked(db, p, origins, formats, inPath, i, j), k, scores)
    {
      var part := Partition(db, p, origins[i], formats[j], inPath);
      var found := NearestRows(db, p, similarity, part, k);
      AskedGrows(db, p, origins, formats, inPath, i, j);
      CollectsMore(db, p, similarity, Asked(db, p, origins, formats, inPath, i, j), part, k, scores, found);
      scores := scores + found;
    }
    OriginDone(db, p, origins, formats, inPath, i);
  }

  /** The row belongs to the profile, to a requested origin and format, and to a chunk of an admitted file. */
  ghost predicate Searched(db: Db, p: int, origins: seq<string>, formats: seq<string>, inPath: int -> bool, r: int)
    requires p in db.profiles
  {
    && db.profiles[p] in db.tables && r in db.tables[db.profiles[p]].rows && r in db.entries && db.entries[r].chunk in db.chunks
    && var row := db.tables[db.profiles[p]].rows[r];
       row.profile == p && row.origin in origins && row.format in formats && inPath(db.chunks[db.entries[r].chunk].file)
  }

  /** Every hit is a searched row with its similarity, and no searched row that is left out is closer. */
  ghost predicate IsNearest(db: Db, p: int, similarity: Similarity, origins: seq<string>, formats: seq<string>, inPath: int -> bool, hits: seq<Hit>)
    requires p in db.profiles
  {
    && (forall h :: h in hits ==>
          && Searched(db, p, origins, formats, inPath, h.row) && h.chunk == db.entries[h.row].chunk
          && h.similarity == similarity(db.tables[db.profiles[p]].rows[h.row].vector))
    && (forall r, h :: Searched(db, p, origins, formats, inPath, r) && h in hits && r !in RowsIn(hits) ==>
          similarity(db.tables[db.profiles[p]].rows[r].vector) <= h.similarity)
  }

  lemma NearestOfScope(db: Db, p: int, similarity: Similarity, origins: seq<string>, formats: seq<string>, inPath: int -> bool, limit: nat, hits: seq<Hit>)
    requires p in db.profiles && Nearest(db, p, similarity, Scope(db, p, origins, formats, inPath), limit, hits)
    ensures IsNearest(db, p, similarity, origins, formats, inPath, hits)
  {
    forall r
      ensures r in Scope(db, p, origins, formats, inPath) <==> Searched(db, p, origins, formats, inPath, r)
    {
    }
    forall h | h in hits
      ensures Searched(db, p, origins, formats, inPath, h.row) && h.chunk == db.entries[h.row].chunk
      ensures h.similarity == similarity(db.tables[db.profiles[p]].rows[h.row].vector)
    {
      assert h.row in RowsIn(hits);
    }
  }

  /**
   * The merged answer is a global one: `limit` rows of the scope, or all of them,
   * in order of similarity, and no other row of the scope is closer.
   */
  method ExactVectorSearch(db: Db, p: int, similarity: Similarity, limit: nat,
                           origins: seq<string>, formats: seq<string>, inPath: int -> bool)
    returns (hits: seq<Hit>)
    requires p in db.profiles && Collections.Distinct(origins) && Collections.Distinct(formats)
    ensures Nearest(db, p, similarity, Scope(db, p, origins, formats, inPath), limit, hits)
    ensures forall i, j :: 0 <= i < j < |hits| ==> hits[i].similarity >= hits[j].similarity
    ensures IsNearest(db, p, similarity, origins, formats, inPath, hits)
  {
    var k := if limit > 1 then limit else 1;
    var scores: seq<Hit> := [];
    assert Asked(db, p, origins, formats, inPath, 0, 0) == {};
    for i := 0 to |origins|
      invariant Collected(db, p, similarity, Asked(db, p, origins, formats, inPath, i, 0), k, scores)
    {
      scores := SearchOrigin(db, p, similarity, k, origins, formats, inPath, i, scores);
    }
    assert origins[..|origins|] == origins;
    assert Asked(db, p, origins, formats, inPath, |origins|, 0) == Scope(db, p, origins, formats, inPath);
    hits := SortAndTruncate(db, p, similarity, scores, RowsIn(scores), limit);
    CollectedIsNearest(db, p, similarity, Scope(db, p, origins, formats, inPath), k, limit, scores, hits);
    NearestOfScope(db, p, similarity, origins, formats, inPath, limit, hits);
  }

  /**
   * For a ready profile whose partition keys match, the scope of a search is the
   * set of eligible, cached chunks in files of the requested origin, format and path.
   */
  lemma ScopeIsEveryMatchingChunk(db: Db, p: int, origins: seq<string>, formats: seq<string>, inPath: int -> bool, c: int)
    requires Sound(db) && p in db.profiles && Ready(db, p).Ok? && KeysMatch(db, p)
    requires c in db.chunks
    ensures (exists r :: r in Scope(db, p, origins, formats, inPath) && db.entries[r].chunk == c)
       <==> && IsVectorCode(db, c) && (db.chunks[c].hash, p) in db.cache
            && db.files[db.chunks[c].file].origin in origins && db.files[db.chunks[c].file].format in formats
            && inPath(db.chunks[c].file)
  {
    ReadyIsExhaustive(db, p);
    var rows := RowsOf(db, db.profiles[p]);
    forall r | r in rows && rows[r].profile == p && r in db.entries && db.entries[r].chunk == c
      ensures r in EntriesOf(db, p)
    {
    }
    if Eligible(db, c) && (db.chunks[c].hash, p) in db.cache {
      var e :| e in rows && rows[e].profile == p && e in db.entries && db.entries[e] == Entry(c, p);
      assert e in EntriesOf(db, p);
    }
  }
}
