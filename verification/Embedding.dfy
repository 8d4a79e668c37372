/**
 * One embedding run: the representations that are missing from the cache are sent
 * to the provider in batches; each batch is committed on its own, and the run may
 * be cancelled between batches.
 */
module Embedding {
  import opened Wrappers
  import opened VectorIndex
  import opened VectorSync
  import opened VectorConnection
  import Collections

  datatype Error =
    | BatchSizeIsZero | AmbiguousHash | ProviderFailed | FingerprintChanged
    | CountMismatch | InconsistentDimensions | IncompatibleDimensions | StatementFailed | IndexFailed

  datatype EmbedReport = EmbedReport(embedded: nat, missing: nat, cachedReused: nat, canceled: bool)

  datatype Response = Response(fingerprint: Option<string>, vectors: seq<Vector>)

  /** What the world answers during a run: the provider, the caller, and the disk. */
  datatype World = World(
    fingerprint: string, isLocal: bool,
    embed: (nat, seq<string>) -> Option<Response>,
    cancel: nat -> bool,
    commits: nat -> bool)

  /** Chunks of the requested origins and policy, in formats that have vectors. */
  predicate Selected(db: Db, selects: int -> bool, c: int)
    requires WellFormed(db) && c in db.chunks
  {
    Eligible(db, c) && selects(db.chunks[c].file)
  }

  /** `selected_embedding_document_count` counts these. */
  function EligibleHashes(db: Db, selects: int -> bool): set<string>
    requires WellFormed(db)
  {
    set c | c in db.chunks && Selected(db, selects, c) :: db.chunks[c].hash
  }

  /** `missing_embedding_documents`; nothing is cached for a profile that does not exist. */
  function MissingHashes(db: Db, selects: int -> bool, profile: Option<int>): set<string>
    requires WellFormed(db)
  {
    set h | h in EligibleHashes(db, selects) && (profile.None? || (h, profile.value) !in db.cache)
  }

  /** `h` belongs to a JavaScript or TypeScript chunk of a selected file. */
  ghost predicate Wanted(db: Db, selects: int -> bool, h: string) {
    exists c :: IsVectorCode(db, c) && selects(db.chunks[c].file) && db.chunks[c].hash == h
  }

  /** The wanted hashes that `known` has no embedding of, each once. */
  ghost predicate ListsWanted(db: Db, selects: int -> bool, known: Option<int>, rows: seq<string>) {
    && Collections.Distinct(rows)
    && forall h :: h in rows <==> Wanted(db, selects, h) && (known.None? || (h, known.value) !in db.cache)
  }

  lemma EligibleAreWanted(db: Db, selects: int -> bool, h: string)
    requires WellFormed(db)
    ensures h in EligibleHashes(db, selects) <==> Wanted(db, selects, h)
  {
    if Wanted(db, selects, h) {
      var c :| IsVectorCode(db, c) && selects(db.chunks[c].file) && db.chunks[c].hash == h;
      assert Selected(db, selects, c);
    }
    if h in EligibleHashes(db, selects) {
      var c :| c in db.chunks && Selected(db, selects, c) && db.chunks[c].hash == h;
      assert IsVectorCode(db, c);
    }
  }

  lemma MissingAreWanted(db: Db, selects: int -> bool, known: Option<int>, rows: seq<string>)
    requires WellFormed(db)
    requires Collections.Distinct(rows) && Hashes(rows) == MissingHashes(db, selects, known)
    ensures ListsWanted(db, selects, known, rows)
  {
    hide EligibleHashes, Wanted;
    forall h
      ensures h in rows <==> Wanted(db, selects, h) && (known.None? || (h, known.value) !in db.cache)
    {
      EligibleAreWanted(db, selects, h);
      assert h in rows <==> h in Hashes(rows);
    }
  }

  /** Two selected chunks with one hash but different contents. */
  predicate Ambiguous(db: Db, selects: int -> bool, missing: set<string>, content: map<int, string>)
    requires WellFormed(db)
  {
    exists c, d :: c in db.chunks && d in db.chunks && Selected(db, selects, c) && Selected(db, selects, d)
                   && db.chunks[c].hash == db.chunks[d].hash && db.chunks[c].hash in missing
                   && c in content && d in content && content[c] != content[d]
  }

  /** Two wanted chunks without an embedding have one hash and different contents. */
  ghost predicate HashIsAmbiguous(db: Db, selects: int -> bool, known: Option<int>, content: map<int, string>) {
    exists c, d ::
      && IsVectorCode(db, c) && IsVectorCode(db, d) && selects(db.chunks[c].file) && selects(db.chunks[d].file)
      && db.chunks[c].hash == db.chunks[d].hash && (known.None? || (db.chunks[c].hash, known.value) !in db.cache)
      && c in content && d in content && content[c] != content[d]
  }

  lemma AmbiguousIff(db: Db, selects: int -> bool, known: Option<int>, content: map<int, string>)
    requires WellFormed(db)
    ensures Ambiguous(db, selects, MissingHashes(db, selects, known), content) <==> HashIsAmbiguous(db, selects, known, content)
  {
    forall c | c in db.chunks
      ensures Selected(db, selects, c) <==> IsVectorCode(db, c) && selects(db.chunks[c].file)
    {
    }
    if HashIsAmbiguous(db, selects, known, content) {
      var c, d :|
        && IsVectorCode(db, c) && IsVectorCode(db, d) && selects(db.chunks[c].file) && selects(db.chunks[d].file)
        && db.chunks[c].hash == db.chunks[d].hash && (known.None? || (db.chunks[c].hash, known.value) !in db.cache)
        && c in content && d in content && content[c] != content[d];
      assert Selected(db, selects, c) && Selected(db, selects, d);
      assert db.chunks[c].hash in MissingHashes(db, selects, known);
    }
  }

  /** No stored vector is lost or replaced. */
  predicate CacheKept(before: Db, now: Db) {
    forall k :: k in before.cache ==> k in now.cache && now.cache[k] == before.cache[k]
  }

  /** Exactly the hashes in `stored` became available for `p`, and nothing else changed in the cache. */
  ghost predicate Gained(before: Db, now: Db, p: int, stored: set<string>) {
    && CacheKept(before, now)
    && forall h, q :: (h, q) in now.cache <==> (h, q) in before.cache || (q == p && h in stored)
  }

  function Hashes(rows: seq<string>): set<string> {
    set h | h in rows
  }

  /** `validate_vectors`: one vector for each text, all of one positive length. */
  predicate ValidVectors(expected: nat, vectors: seq<Vector>) {
    |vectors| == expected && expected > 0 && |vectors[0]| > 0
    && forall i :: 0 <= i < |vectors| ==> |vectors[i]| == |vectors[0]|
  }

  function WithVector(db: Db, h: string, p: int, v: Vector): Db {
    if (h, p) in db.cache then db else db.(cache := db.cache[(h, p) := v])
  }

  lemma CachingIsSound(db: Db, h: string, p: int, v: Vector)
    requires Sound(db) && p in db.profiles
    ensures Sound(WithVector(db, h, p, v))
  {
    hide Eligible, HasEntry;
    var now := WithVector(db, h, p, v);
    forall e | e in now.entries
      ensures Expected(now, e) == Expected(db, e)
    {
    }
    forall q | q in now.markers && CurrentTable(now, now.profiles[q])
      ensures Complete(now, q)
    {
      assert EntriesOf(now, q) == EntriesOf(db, q);
      assert Complete(db, q);
    }
  }

  /** The first `count` vectors of a batch are in; a vector that was there before stays. */
  ghost predicate Stored(before: Db, now: Db, p: int, batch: seq<string>, vectors: seq<Vector>, count: nat)
    requires count <= |batch| == |vectors|
  {
    && now == before.(cache := now.cache)
    && Gained(before, now, p, Hashes(batch[..count]))
    && forall i :: 0 <= i < count && (batch[i], p) !in before.cache ==> now.cache[(batch[i], p)] == vectors[i]
  }

  lemma StoresOneMore(before: Db, now: Db, p: int, batch: seq<string>, vectors: seq<Vector>, count: nat)
    requires count < |batch| == |vectors| && Collections.Distinct(batch)
    requires Stored(before, now, p, batch, vectors, count)
    ensures Stored(before, WithVector(now, batch[count], p, vectors[count]), p, batch, vectors, count + 1)
  {
    assert batch[..count + 1] == batch[..count] + [batch[count]];
    assert Hashes(batch[..count + 1]) == Hashes(batch[..count]) + {batch[count]};
    assert batch[count] !in Hashes(batch[..count]);
  }

  /** The transaction of one batch: all its vectors are stored, or none. */
  method StoreBatch(c: Connection, p: int, batch: seq<string>, vectors: seq<Vector>, commits: bool) returns (ok: bool)
    requires Sound(c.db) && p in c.db.profiles
    requires |batch| == |vectors| && Collections.Distinct(batch)
    modifies c
    ensures Sound(c.db) && ok == commits
    ensures Stored(old(c.db), c.db, p, batch, vectors, if ok then |batch| else 0)
  {
    ghost var before := c.db;
    var saved := c.db;
    for i := 0 to |batch|
      invariant Sound(c.db) && p in c.db.profiles
      invariant Stored(before, c.db, p, batch, vectors, i)
    {
      CachingIsSound(c.db, batch[i], p, vectors[i]);
      StoresOneMore(before, c.db, p, batch, vectors, i);
      c.db := WithVector(c.db, batch[i], p, vectors[i]);
    }
    ok := commits;
    if !commits {
      c.db := saved;
    }
  }

  /** `ensure_profile`: a stored profile must have the dimensions of the response. */
  method ResolveProfile(c: Connection, known: Option<int>, newId: int, dimensions: nat) returns (r: Result<int, Error>)
    requires Sound(c.db)
    requires known.Some? ==> known.value in c.db.profiles
    requires known.None? ==> newId !in c.db.profiles
    modifies c
    ensures Sound(c.db) && c.db.cache == old(c.db).cache && c.db.chunks == old(c.db).chunks && c.db.files == old(c.db).files
    ensures r.Ok? ==> r.value in c.db.profiles && c.db.profiles[r.value] == dimensions
    ensures r.Ok? ==> r.value == if known.Some? then known.value else newId
    ensures known.Some? ==> c.db == old(c.db)
    ensures r.Ok? && known.None? ==> newId !in c.db.markers
    ensures old(c.db).profiles.Keys <= c.db.profiles.Keys
    ensures PlacesKept(old(c.db), c.db)
    ensures r.Err? ==> r.error == IncompatibleDimensions
    ensures dimensions > 0 ==>
      (r.Err? <==> if known.Some? then old(c.db).profiles[known.value] != dimensions else dimensions > 8192)
  {
    if known.Some? {
      if c.db.profiles[known.value] != dimensions {
        return Err(IncompatibleDimensions);
      }
      return Ok(known.value);
    }
    ghost var before := c.db;
    var made := c.EnsureProfile(newId, dimensions);
    NewProfilePlaces(before, c.db, newId, dimensions);
    if made.Err? {
      return Err(IncompatibleDimensions);
    }
    return Ok(newId);
  }

  lemma GainedMore(before: Db, middle: Db, now: Db, p: int, rows: seq<string>, done: nat, end: nat)
    requires done <= end <= |rows|
    requires Gained(before, middle, p, Hashes(rows[..done])) && Gained(middle, now, p, Hashes(rows[done..end]))
    ensures Gained(before, now, p, Hashes(rows[..end]))
  {
    assert rows[..end] == rows[..done] + rows[done..end];
    forall h, q
      ensures (h, q) in now.cache <==> (h, q) in before.cache || (q == p && h in Hashes(rows[..end]))
    {
      assert (h, q) in middle.cache <==> (h, q) in before.cache || (q == p && h in Hashes(rows[..done]));
    }
  }

  /** The local HTTP boundary takes at most sixteen texts. */
  function RequestSize(world: World, batchSize: nat): (n: nat)
    ensures batchSize > 0 ==> 0 < n <= batchSize
    ensures !world.isLocal ==> n == batchSize
    ensures world.isLocal ==> n <= 16 && (n == 16 || n == batchSize)
  {
    if world.isLocal && batchSize > 16 then 16 else batchSize
  }

  /** Requests leave the index of a known profile alone; a new profile is not marked. */
  ghost predicate OnlyCached(before: Db, now: Db, known: Option<int>, newId: int, made: bool) {
    if known.Some? then now == before.(cache := now.cache) else made ==> newId !in now.markers
  }

  /** `v` is what request `number`, the next `size` hashes from its start on, answered for the hash at `k`. */
  ghost predicate Answered(world: World, size: nat, list: seq<string>, number: nat, k: nat, v: Vector) {
    var start := Requests(number, size);
    var end := if start + size <= |list| then start + size else |list|;
    && start <= k < end
    && var response := world.embed(number, list[start..end]);
       response.Some? && k - start < |response.value.vectors| && v == response.value.vectors[k - start]
  }

  ghost predicate SomeAnswer(world: World, size: nat, list: seq<string>, k: nat, v: Vector) {
    exists number: nat :: Answered(world, size, list, number, k, v)
  }

  /** Every hash that the run stored has the vector that the provider gave for it. */
  ghost predicate AsAnswered(before: Db, now: Db, world: World, size: nat, p: int, list: seq<string>, stored: nat) {
    forall k :: 0 <= k < stored && k < |list| && (list[k], p) !in before.cache ==>
      (list[k], p) in now.cache && SomeAnswer(world, size, list, k, now.cache[(list[k], p)])
  }

  /** The hashes of one request that were not cached have the vectors at their positions in the answer. */
  ghost predicate HasVectors(before: Db, now: Db, p: int, batch: seq<string>, vectors: seq<Vector>) {
    forall i :: 0 <= i < |batch| && i < |vectors| && (batch[i], p) !in before.cache ==>
      (batch[i], p) in now.cache && now.cache[(batch[i], p)] == vectors[i]
  }

  lemma AnsweredMore(before: Db, middle: Db, now: Db, world: World, size: nat, p: int, list: seq<string>, number: nat, done: nat, end: nat)
    requires Collections.Distinct(list) && done <= end <= |list|
    requires done == Requests(number, size) && end == if done + size <= |list| then done + size else |list|
    requires Gained(before, middle, p, Hashes(list[..done])) && CacheKept(middle, now)
    requires AsAnswered(before, middle, world, size, p, list, done)
    requires var response := world.embed(number, list[done..end]);
             && response.Some? && |response.value.vectors| == end - done
             && HasVectors(middle, now, p, list[done..end], response.value.vectors)
    ensures AsAnswered(before, now, world, size, p, list, end)
  {
    var vectors := world.embed(number, list[done..end]).value.vectors;
    forall k | 0 <= k < end && (list[k], p) !in before.cache
      ensures (list[k], p) in now.cache && SomeAnswer(world, size, list, k, now.cache[(list[k], p)])
    {
      if k < done {
        assert (list[k], p) in middle.cache;
      } else {
        assert list[k] !in Hashes(list[..done]);
        assert list[done..end][k - done] == list[k];
        assert Answered(world, size, list, number, k, vectors[k - done]);
      }
    }
  }

  /**
   * Why the answer to request `number` for `batch` is not stored; `expected` is the
   * length of the vectors of the profile, once it exists.
   */
  ghost function AnswerError(world: World, number: nat, batch: seq<string>, expected: Option<nat>): Option<Error> {
    if world.embed(number, batch).None? then Some(ProviderFailed)
    else
      var response := world.embed(number, batch).value;
      if |response.vectors| != |batch| then Some(CountMismatch)
      else if batch == [] || response.vectors[0] == [] || (exists v :: v in response.vectors && |v| != |response.vectors[0]|)
        then Some(InconsistentDimensions)
      else if response.fingerprint.Some? && response.fingerprint.value != world.fingerprint then Some(FingerprintChanged)
      else if (if expected.Some? then |response.vectors[0]| != expected.value else |response.vectors[0]| > 8192)
        then Some(IncompatibleDimensions)
      else if !world.commits(number) then Some(StatementFailed)
      else None
  }

  function ProfileOf(known: Option<int>, newId: int): int {
    if known.Some? then known.value else newId
  }

  function Dimensions(db: Db, p: Option<int>): Option<nat> {
    if p.Some? && p.value in db.profiles then Some(db.profiles[p.value]) else None
  }

  /** Rows that were all in their places are so still. */
  ghost predicate PlacesKept(before: Db, now: Db) {
    && WellFormed(before) && WellFormed(now) && (WellPlaced(before) ==> WellPlaced(now))
  }

  lemma SameOccurrencesSamePlaces(before: Db, now: Db)
    requires WellFormed(before) && WellFormed(now)
    requires now.entries == before.entries && now.tables == before.tables && now.profiles == before.profiles
    ensures PlacesKept(before, now)
  {
    assert forall d :: RowsOf(now, d) == RowsOf(before, d);
  }

  lemma NewProfilePlaces(before: Db, now: Db, p: int, d: nat)
    requires WellFormed(before) && WellFormed(now) && p !in before.profiles
    requires var made := before.(profiles := before.profiles[p := d]); now == made || now == Ensured(made, d)
    ensures PlacesKept(before, now)
  {
    var made := before.(profiles := before.profiles[p := d]);
    if WellPlaced(before) {
      forall x, r | r in RowsOf(made, x)
        ensures r in made.entries && made.profiles[made.entries[r].profile] == x
      {
        assert r in RowsOf(before, x);
      }
      EnsuredIsPlaced(made, d);
    }
  }

  /** What request `number` did: its answer is stored for the profile, or there is a reason why not. */
  ghost predicate OneRequest(before: Db, now: Db, world: World, number: nat, batch: seq<string>,
                             resolved: Option<int>, newId: int, r: Result<int, Error>) {
    var p := ProfileOf(resolved, newId);
    && Sound(now) && now.chunks == before.chunks && now.files == before.files
    && AnswerError(world, number, batch, Dimensions(before, resolved)) == (if r.Err? then Some(r.error) else None)
    && Gained(before, now, p, if r.Ok? then Hashes(batch) else {})
    && before.profiles.Keys <= now.profiles.Keys && OnlyCached(before, now, resolved, newId, r.Ok?)
    && PlacesKept(before, now)
    && (r.Ok? ==> r.value == p && IsStored(before, now, world, number, batch, p))
  }

  ghost predicate IsStored(before: Db, now: Db, world: World, number: nat, batch: seq<string>, p: int) {
    var response := world.embed(number, batch);
    && response.Some? && |response.value.vectors| == |batch| > 0
    && HasVectors(before, now, p, batch, response.value.vectors)
    && p in now.profiles && now.profiles[p] == |response.value.vectors[0]|
  }

  /** One request and the transaction that stores its answer. */
  method EmbedBatch(c: Connection, world: World, number: nat, batch: seq<string>, resolved: Option<int>, newId: int)
    returns (r: Result<int, Error>)
    requires Sound(c.db) && batch != [] && Collections.Distinct(batch)
    requires resolved.Some? ==> resolved.value in c.db.profiles
    requires resolved.None? ==> newId !in c.db.profiles
    modifies c
    ensures OneRequest(old(c.db), c.db, world, number, batch, resolved, newId, r)
  {
    var response := world.embed(number, batch);
    if response.None? {
      return Err(ProviderFailed);
    }
    var vectors := response.value.vectors;
    if |vectors| != |batch| {
      return Err(CountMismatch);
    }
    assert forall v :: v in vectors <==> exists i :: 0 <= i < |vectors| && vectors[i] == v;
    if !ValidVectors(|batch|, vectors) {
      return Err(InconsistentDimensions);
    }
    if response.value.fingerprint.Some? && response.value.fingerprint.value != world.fingerprint {
      return Err(FingerprintChanged);
    }
    var profile := ResolveProfile(c, resolved, newId, |vectors[0]|);
    if profile.Err? {
      return Err(profile.error);
    }
    ghost var stored := c.db;
    var ok := StoreBatch(c, profile.value, batch, vectors, world.commits(number));
    SameOccurrencesSamePlaces(stored, c.db);
    assert batch[..|batch|] == batch && batch[..0] == [];
    if !ok {
      return Err(StatementFailed);
    }
    return Ok(profile.value);
  }

  function Requests(n: nat, size: nat): nat {
    if n == 0 then 0 else Requests(n - 1, size) + size
  }

  ghost predicate WholeRequests(stored: nat, size: nat) {
    exists n: nat :: stored == Requests(n, size)
  }

  /** Where the request ends that begins at `start`. */
  function BatchEnd(list: seq<string>, size: nat, start: nat): (end: nat)
    requires start <= |list|
    ensures start <= end <= |list| && (size > 0 && start < |list| ==> start < end)
  {
    if start + size <= |list| then start + size else |list|
  }

  /** The hashes of request `number`. */
  function BatchOf(list: seq<string>, size: nat, number: nat): seq<string> {
    var start := Requests(number, size);
    if start + size <= |list| then list[start..start + size] else if start <= |list| then list[start..] else []
  }

  ghost function FirstLength(world: World, batch: seq<string>): nat {
    var response := world.embed(0, batch);
    if response.Some? && response.value.vectors != [] then |response.value.vectors[0]| else 0
  }

  /** The dimensions that request `number` must have: those of the profile, or of the first answer. */
  ghost function ExpectedLength(world: World, size: nat, list: seq<string>, known: Option<nat>, number: nat): Option<nat> {
    if known.Some? then known else if number == 0 then None else Some(FirstLength(world, BatchOf(list, size, 0)))
  }

  ghost predicate Accepted(world: World, size: nat, list: seq<string>, known: Option<nat>, number: nat) {
    && !world.cancel(1 + number)
    && AnswerError(world, number, BatchOf(list, size, number), ExpectedLength(world, size, list, known, number)).None?
  }

  /** All requests before `requests` were accepted. */
  ghost predicate AllAccepted(world: World, size: nat, list: seq<string>, known: Option<nat>, requests: nat) {
    forall k :: 0 <= k < requests ==> Accepted(world, size, list, known, k)
  }

  /** Why no more requests were sent: all are done, or the next one was cancelled or not accepted. */
  ghost predicate Stopped(world: World, size: nat, list: seq<string>, known: Option<nat>, requests: nat, done: nat,
                          error: Option<Error>, canceled: bool) {
    && AllAccepted(world, size, list, known, requests)
    && (error.None? && !canceled ==> done == |list|)
    && (error.Some? || canceled ==> done == Requests(requests, size) < |list|)
    && (canceled ==> error.None? && world.cancel(1 + requests))
    && (error.Some? ==>
          && !world.cancel(1 + requests)
          && AnswerError(world, requests, BatchOf(list, size, requests), ExpectedLength(world, size, list, known, requests)) == error)
  }

  /** How far a run got: `stored` of `rows` were committed, in whole requests. */
  ghost predicate Progress(before: Db, now: Db, world: World, batchSize: nat, p: int, rows: seq<string>, stored: nat) {
    && Sound(now) && now.chunks == before.chunks && now.files == before.files
    && stored <= |rows| && Gained(before, now, p, Hashes(rows[..stored]))
    && (batchSize > 0 ==> stored == |rows| || WholeRequests(stored, RequestSize(world, batchSize)))
  }

  /** Where a run stands between two requests. */
  ghost predicate UnderWay(before: Db, now: Db, world: World, batchSize: nat, list: seq<string>, known: Option<int>, newId: int,
                           resolved: Option<int>, done: nat, requests: nat) {
    var p, size, dimensions := ProfileOf(known, newId), RequestSize(world, batchSize), Dimensions(before, known);
    && Progress(before, now, world, batchSize, p, list, done) && AsAnswered(before, now, world, size, p, list, done)
    && (done < |list| ==> done == Requests(requests, size))
    && (resolved.Some? ==> resolved.value == p && p in now.profiles)
    && (resolved.None? ==> known.None? && newId !in now.profiles && done == 0)
    && AllAccepted(world, size, list, dimensions, requests)
    && ExpectedLength(world, size, list, dimensions, requests) == Dimensions(now, resolved)
    && OnlyCached(before, now, known, newId, resolved.Some?) && PlacesKept(before, now)
  }

  /** Where it stands when request number `requests` was cancelled or not stored. */
  ghost predicate BrokenOff(before: Db, now: Db, world: World, batchSize: nat, list: seq<string>, known: Option<int>, newId: int,
                            resolved: Option<int>, done: nat, requests: nat, error: Option<Error>, canceled: bool) {
    var p, size, dimensions := ProfileOf(known, newId), RequestSize(world, batchSize), Dimensions(before, known);
    && Progress(before, now, world, batchSize, p, list, done) && AsAnswered(before, now, world, size, p, list, done)
    && Stopped(world, size, list, dimensions, requests, done, error, canceled)
    && (resolved.Some? ==> resolved.value == p && p in now.profiles) && (resolved.None? ==> known.None? && done == 0)
    && OnlyCached(before, now, known, newId, resolved.Some?) && PlacesKept(before, now)
  }

  lemma NothingSent(db: Db, world: World, batchSize: nat, list: seq<string>, known: Option<int>, newId: int)
    requires Sound(db)
    requires known.Some? ==> known.value in db.profiles
    requires known.None? ==> newId !in db.profiles
    ensures UnderWay(db, db, world, batchSize, list, known, newId, known, 0, 0)
  {
    assert list[..0] == [];
    assert Requests(0, RequestSize(world, batchSize)) == 0;
  }

  lemma BatchIs(list: seq<string>, size: nat, number: nat, start: nat, end: nat)
    requires start == Requests(number, size) && start <= |list| && end == if start + size <= |list| then start + size else |list|
    ensures BatchOf(list, size, number) == list[start..end]
  {
  }

  /** A request that was not stored ends the run and leaves what was stored before. */
  lemma RequestFailed(before: Db, middle: Db, now: Db, world: World, batchSize: nat, list: seq<string>, known: Option<int>, newId: int,
                      resolved: Option<int>, done: nat, end: nat, requests: nat, error: Error)
    requires UnderWay(before, middle, world, batchSize, list, known, newId, resolved, done, requests)
    requires done < |list| && end == BatchEnd(list, RequestSize(world, batchSize), done)
    requires !world.cancel(1 + requests)
    requires OneRequest(middle, now, world, requests, list[done..end], resolved, newId, Err(error))
    ensures BrokenOff(before, now, world, batchSize, list, known, newId, resolved, done, requests, Some(error), false)
  {
    hide SomeAnswer, Sound, AnswerError, ExpectedLength, BatchOf, AllAccepted;
    assert list[done..done] == [];
    GainedMore(before, middle, now, ProfileOf(known, newId), list, done, done);
    BatchIs(list, RequestSize(world, batchSize), requests, done, end);
  }

  lemma MoreProgress(before: Db, middle: Db, now: Db, world: World, batchSize: nat, p: int, list: seq<string>, number: nat, done: nat, end: nat)
    requires Collections.Distinct(list) && done < end <= |list|
    requires var size := RequestSize(world, batchSize);
             done == Requests(number, size) && end == if done + size <= |list| then done + size else |list|
    requires Progress(before, middle, world, batchSize, p, list, done)
    requires AsAnswered(before, middle, world, RequestSize(world, batchSize), p, list, done)
    requires Sound(now) && now.chunks == middle.chunks && now.files == middle.files
    requires Gained(middle, now, p, Hashes(list[done..end])) && IsStored(middle, now, world, number, list[done..end], p)
    ensures Progress(before, now, world, batchSize, p, list, end)
    ensures AsAnswered(before, now, world, RequestSize(world, batchSize), p, list, end)
    ensures end < |list| ==> end == Requests(number + 1, RequestSize(world, batchSize))
  {
    hide HasVectors, AsAnswered, Sound;
    AnsweredMore(before, middle, now, world, RequestSize(world, batchSize), p, list, number, done, end);
    GainedMore(before, middle, now, p, list, done, end);
    assert end < |list| ==> end == Requests(number + 1, RequestSize(world, batchSize));
  }

  /** A request that was stored brings the run one request further. */
  lemma RequestStored(before: Db, middle: Db, now: Db, world: World, batchSize: nat, list: seq<string>, known: Option<int>, newId: int,
                      resolved: Option<int>, done: nat, end: nat, requests: nat, p: int)
    requires UnderWay(before, middle, world, batchSize, list, known, newId, resolved, done, requests)
    requires Collections.Distinct(list) && done < |list|
    requires end == BatchEnd(list, RequestSize(world, batchSize), done)
    requires batchSize > 0 && !world.cancel(1 + requests)
    requires OneRequest(middle, now, world, requests, list[done..end], resolved, newId, Ok(p))
    ensures UnderWay(before, now, world, batchSize, list, known, newId, Some(p), end, requests + 1)
  {
    hide HasVectors, AsAnswered, Sound, BatchOf, AnswerError, ExpectedLength, AllAccepted, Hashes, Gained, Progress, Requests, Collections.Distinct;
    var size, dimensions := RequestSize(world, batchSize), Dimensions(before, known);
    BatchIs(list, size, requests, done, end);
    MoreProgress(before, middle, now, world, batchSize, p, list, requests, done, end);
    ExpectedNext(world, size, list, dimensions, requests);
    AcceptedNext(world, size, list, dimensions, requests);
  }

  lemma ExpectedNext(world: World, size: nat, list: seq<string>, known: Option<nat>, number: nat)
    requires AnswerError(world, number, BatchOf(list, size, number), ExpectedLength(world, size, list, known, number)).None?
    ensures ExpectedLength(world, size, list, known, number + 1)
         == Some(|world.embed(number, BatchOf(list, size, number)).value.vectors[0]|)
  {
  }

  lemma AcceptedNext(world: World, size: nat, list: seq<string>, known: Option<nat>, requests: nat)
    requires AllAccepted(world, size, list, known, requests) && !world.cancel(1 + requests)
    requires AnswerError(world, requests, BatchOf(list, size, requests), ExpectedLength(world, size, list, known, requests)).None?
    ensures AllAccepted(world, size, list, known, requests + 1)
  {
  }

  /** Between two requests the next one may be sent, or the run may end. */
  lemma BetweenRequests(before: Db, now: Db, world: World, batchSize: nat, list: seq<string>, known: Option<int>, newId: int,
                        resolved: Option<int>, done: nat, requests: nat)
    requires UnderWay(before, now, world, batchSize, list, known, newId, resolved, done, requests)
    ensures Sound(now) && done <= |list| && (if resolved.Some? then resolved.value in now.profiles else newId !in now.profiles)
    ensures done == |list| ==>
      BrokenOff(before, now, world, batchSize, list, known, newId, resolved, done, requests, None, false)
    ensures done < |list| && world.cancel(1 + requests) ==>
      BrokenOff(before, now, world, batchSize, list, known, newId, resolved, done, requests, None, true)
  {
    hide Sound, AsAnswered, Gained, AllAccepted, OnlyCached;
  }

  /** Send the next batch and store the answer. */
  method SendNext(c: Connection, world: World, batchSize: nat, list: seq<string>, known: Option<int>, newId: int,
                  resolved: Option<int>, done: nat, requests: nat, ghost before: Db)
    returns (r: Result<int, Error>, end: nat)
    requires batchSize > 0 && Collections.Distinct(list) && done < |list| && !world.cancel(1 + requests)
    requires UnderWay(before, c.db, world, batchSize, list, known, newId, resolved, done, requests)
    modifies c
    ensures done < end <= |list|
    ensures r.Ok? ==> UnderWay(before, c.db, world, batchSize, list, known, newId, Some(r.value), end, requests + 1)
    ensures r.Err? ==>
      BrokenOff(before, c.db, world, batchSize, list, known, newId, resolved, done, requests, Some(r.error), false)
  {
    ghost var middle := c.db;
    BetweenRequests(before, middle, world, batchSize, list, known, newId, resolved, done, requests);
    hide *;
    end := BatchEnd(list, RequestSize(world, batchSize), done);
    PartDistinct(list, done, end);
    r := EmbedBatch(c, world, requests, list[done..end], resolved, newId);
    if r.Err? {
      RequestFailed(before, middle, c.db, world, batchSize, list, known, newId, resolved, done, end, requests, r.error);
    } else {
      RequestStored(before, middle, c.db, world, batchSize, list, known, newId, resolved, done, end, requests, r.value);
    }
  }

  /** Send the batches, one after the other, until done, cancelled or failed. */
  method EmbedBatches(c: Connection, world: World, batchSize: nat, list: seq<string>, known: Option<int>, newId: int)
    returns (resolved: Option<int>, error: Option<Error>, canceled: bool, done: nat, requests: nat)
    requires Sound(c.db) && batchSize > 0 && Collections.Distinct(list)
    requires known.Some? ==> known.value in c.db.profiles
    requires known.None? ==> newId !in c.db.profiles
    modifies c
    ensures BrokenOff(old(c.db), c.db, world, batchSize, list, known, newId, resolved, done, requests, error, canceled)
  {
    ghost var before := c.db;
    resolved, error, canceled, done, requests := known, None, false, 0, 0;
    NothingSent(before, world, batchSize, list, known, newId);
    hide *;
    while done < |list|
      invariant UnderWay(before, c.db, world, batchSize, list, known, newId, resolved, done, requests)
      invariant done <= |list| && !canceled && error.None?
      decreases |list| - done
    {
      BetweenRequests(before, c.db, world, batchSize, list, known, newId, resolved, done, requests);
      if world.cancel(1 + requests) {
        canceled := true;
        return;
      }
      var sent, end := SendNext(c, world, batchSize, list, known, newId, resolved, done, requests, before);
      if sent.Err? {
        error := Some(sent.error);
        return;
      }
      resolved := Some(sent.value);
      done := end;
      requests := requests + 1;
    }
    BetweenRequests(before, c.db, world, batchSize, list, known, newId, resolved, done, requests);
  }

  lemma PartDistinct(list: seq<string>, start: nat, end: nat)
    requires Collections.Distinct(list) && start <= end <= |list|
    ensures Collections.Distinct(list[start..end])
  {
  }

  /** The missing hashes, each once, and how many eligible ones are not missing. */
  method ListMissing(db: Db, selects: int -> bool, known: Option<int>) returns (list: seq<string>, reused: nat)
    requires WellFormed(db)
    ensures Collections.Distinct(list) && Hashes(list) == MissingHashes(db, selects, known)
    ensures ListsWanted(db, selects, known, list)
    ensures |list| == |MissingHashes(db, selects, known)| && reused + |list| == |EligibleHashes(db, selects)|
  {
    var missing := MissingHashes(db, selects, known);
    Collections.SubsetSize(missing, EligibleHashes(db, selects));
    reused := |EligibleHashes(db, selects)| - |missing|;
    list := Collections.Elements(missing);
    Collections.ListSize(list, missing);
    assert Hashes(list) == missing;
    MissingAreWanted(db, selects, known, list);
  }

  /** Once all missing hashes are stored, every eligible one is. */
  lemma NothingLeft(before: Db, now: Db, selects: int -> bool, known: Option<int>, newId: int, rows: seq<string>)
    requires WellFormed(before) && WellFormed(now) && now.chunks == before.chunks && now.files == before.files
    requires Hashes(rows) == MissingHashes(before, selects, known)
    requires Gained(before, now, ProfileOf(known, newId), Hashes(rows))
    ensures forall h :: Wanted(now, selects, h) ==> (h, ProfileOf(known, newId)) in now.cache
  {
    SameEligible(before, now, selects);
    forall h | Wanted(now, selects, h)
      ensures (h, ProfileOf(known, newId)) in now.cache
    {
      EligibleAreWanted(now, selects, h);
    }
  }

  lemma SameEligible(before: Db, now: Db, selects: int -> bool)
    requires WellFormed(before) && WellFormed(now) && now.chunks == before.chunks && now.files == before.files
    ensures EligibleHashes(now, selects) == EligibleHashes(before, selects)
  {
    forall x | x in before.chunks
      ensures Selected(now, selects, x) == Selected(before, selects, x)
    {
    }
  }

  lemma SameWanted(before: Db, now: Db, selects: int -> bool)
    requires now.chunks == before.chunks && now.files == before.files
    ensures forall h :: Wanted(now, selects, h) == Wanted(before, selects, h)
  {
    forall c
      ensures IsVectorCode(now, c) == IsVectorCode(before, c)
    {
    }
  }

  lemma AnsweredStill(before: Db, middle: Db, now: Db, world: World, size: nat, p: int, list: seq<string>, stored: nat)
    requires AsAnswered(before, middle, world, size, p, list, stored) && now.cache == middle.cache
    ensures AsAnswered(before, now, world, size, p, list, stored)
  {
  }

  lemma GainedStill(before: Db, middle: Db, now: Db, p: int, stored: set<string>)
    requires Gained(before, middle, p, stored) && now.cache == middle.cache
    ensures Gained(before, now, p, stored)
  {
  }

  /** The answer of a run that got to sending `sent` requests, which stored `stored` of the hashes. */
  ghost predicate Ended(world: World, size: nat, rows: seq<string>, known: Option<nat>, sent: nat, stored: nat,
                        r: Result<EmbedReport, Error>) {
    match r
    case Err(e) =>
      if e == IndexFailed then Stopped(world, size, rows, known, sent, stored, None, false) && !world.cancel(1 + sent)
      else Stopped(world, size, rows, known, sent, stored, Some(e), false)
    case Ok(report) =>
      && report.embedded == stored && report.missing == |rows|
      && if stored < |rows| then report.canceled && Stopped(world, size, rows, known, sent, stored, None, true)
         else report.canceled == world.cancel(1 + sent) && Stopped(world, size, rows, known, sent, stored, None, false)
  }

  /** What a run of `jscout embed` may end in: `stored` of `rows` were stored in `sent` requests. */
  ghost predicate EmbedRan(before: Db, now: Db, world: World, batchSize: nat, selects: int -> bool, content: map<int, string>,
                           known: Option<int>, newId: int, repair: bool,
                           r: Result<EmbedReport, Error>, rows: seq<string>, stored: nat, sent: nat)
    requires Sound(before) && (known.Some? ==> known.value in before.profiles)
  {
    var p, size := ProfileOf(known, newId), RequestSize(world, batchSize);
    && Sound(now) && now.chunks == before.chunks && now.files == before.files
    && (r == Err(BatchSizeIsZero) <==> batchSize == 0)
    && (batchSize > 0 && world.cancel(0) ==> r == Ok(EmbedReport(0, 0, 0, true)) && now == before)
    && (batchSize > 0 && !world.cancel(0) ==>
          && (r == Err(AmbiguousHash) <==> HashIsAmbiguous(before, selects, known, content))
          && (r != Err(AmbiguousHash) ==>
                ListsWanted(before, selects, known, rows) && Ended(world, size, rows, Dimensions(before, known), sent, stored, r)))
    && stored <= |rows| && Gained(before, now, p, Hashes(rows[..stored])) && AsAnswered(before, now, world, size, p, rows, stored)
    && (batchSize > 0 ==> stored == |rows| || WholeRequests(stored, size))
    && (r.Ok? && r.value != EmbedReport(0, 0, 0, true) ==>
          r.value.cachedReused + r.value.missing == |EligibleHashes(before, selects)|)
    && (r.Ok? && !r.value.canceled ==> forall h :: Wanted(now, selects, h) ==> (h, p) in now.cache)
    && (r.Ok? && !r.value.canceled && (known.Some? || stored > 0) ==>
          p in now.profiles && Ready(now, p) == if known.Some? && LeftObsolete(before, p, repair) then Err(ObsoleteTable) else Ok(()))
    && (r == Err(IndexFailed) ==>
          || !WellPlaced(before) || (known.Some? && LeftObsolete(before, known.value, repair))
          || (p in now.profiles && !SupportedDimensions(now.profiles[p])))
  }

  /** A run that has listed what is missing and sent requests. */
  ghost predicate Sending(before: Db, embedded: Db, world: World, batchSize: nat, selects: int -> bool, content: map<int, string>,
                          known: Option<int>, newId: int, list: seq<string>, reused: nat,
                          resolved: Option<int>, error: Option<Error>, canceled: bool, done: nat, requests: nat)
  {
    && Sound(before) && Sound(embedded) && (if known.Some? then known.value in before.profiles else newId !in before.profiles)
    && batchSize > 0 && !world.cancel(0) && !HashIsAmbiguous(before, selects, known, content)
    && ListsWanted(before, selects, known, list) && Hashes(list) == MissingHashes(before, selects, known)
    && reused + |list| == |EligibleHashes(before, selects)|
    && BrokenOff(before, embedded, world, batchSize, list, known, newId, resolved, done, requests, error, canceled)
  }

  /** A request failed, or the run was cancelled. */
  lemma RunBrokenOff(before: Db, now: Db, world: World, batchSize: nat, selects: int -> bool, content: map<int, string>,
                     known: Option<int>, newId: int, repair: bool, list: seq<string>, reused: nat,
                     resolved: Option<int>, error: Option<Error>, canceled: bool, done: nat, requests: nat, r: Result<EmbedReport, Error>)
    requires Sending(before, now, world, batchSize, selects, content, known, newId, list, reused, resolved, error, canceled, done, requests)
    requires error.Some? || canceled || world.cancel(1 + requests)
    requires r == if error.Some? then Err(error.value) else Ok(EmbedReport(done, |list|, reused, true))
    ensures EmbedRan(before, now, world, batchSize, selects, content, known, newId, repair, r, list, done, requests)
  {
    if error.Some? {
      var size := RequestSize(world, batchSize);
      AnswerErrors(world, requests, BatchOf(list, size, requests),
                   ExpectedLength(world, size, list, Dimensions(before, known), requests));
    }
    hide WellPlaced, AsAnswered, Gained, Wanted, HashIsAmbiguous, ListsWanted, AllAccepted, AnswerError, EligibleHashes, MissingHashes, Ready, Faithful, Complete;
  }

  /** What synchronizing the index made of the state in which everything was stored. */
  ghost predicate Synced(embedded: Db, now: Db, resolved: Option<int>, repair: bool, ok: bool)
    requires Sound(embedded)
  {
    && Sound(now) && SameSource(embedded, now)
    && match resolved
       case None => ok
       case Some(p) =>
         && p in embedded.profiles
         && (ok ==> Ready(now, p) == if LeftObsolete(embedded, p, repair) then Err(ObsoleteTable) else Ok(()))
         && (!ok ==> !WellPlaced(embedded) || LeftObsolete(embedded, p, repair) || !SupportedDimensions(embedded.profiles[p]))
  }

  /** Everything was stored, and then the index was synchronized, or that failed. */
  lemma RunCompleted(before: Db, embedded: Db, now: Db, world: World, batchSize: nat, selects: int -> bool, content: map<int, string>,
                     known: Option<int>, newId: int, repair: bool, list: seq<string>, reused: nat,
                     resolved: Option<int>, requests: nat, r: Result<EmbedReport, Error>)
    requires Sending(before, embedded, world, batchSize, selects, content, known, newId, list, reused, resolved, None, false, |list|, requests)
    requires !world.cancel(1 + requests) && Synced(embedded, now, resolved, repair, r.Ok?)
    requires r == if r.Ok? then Ok(EmbedReport(|list|, |list|, reused, false)) else Err(IndexFailed)
    ensures EmbedRan(before, now, world, batchSize, selects, content, known, newId, repair, r, list, |list|, requests)
  {
    assert list[..|list|] == list;
    hide WellPlaced, AsAnswered, Gained, Wanted, HashIsAmbiguous, ListsWanted, AllAccepted, AnswerError, EligibleHashes, MissingHashes, Ready, Faithful, Complete;
    NothingLeft(before, embedded, selects, known, newId, list);
    GainedStill(before, embedded, now, ProfileOf(known, newId), Hashes(list));
    AnsweredStill(before, embedded, now, world, RequestSize(world, batchSize), ProfileOf(known, newId), list, |list|);
    SameWanted(embedded, now, selects);
    ReadyAfter(before, embedded, known, newId, repair, resolved);
    var p, size := ProfileOf(known, newId), RequestSize(world, batchSize);
    assert Ended(world, size, list, Dimensions(before, known), requests, |list|, r) by {
      hide Sound, LeftObsolete, SameSource, Dimensions;
    }
    hide Ended, Stopped, Progress;
  }

  /** Sending requests does not decide whether the profile is left with an obsolete table. */
  lemma ReadyAfter(before: Db, embedded: Db, known: Option<int>, newId: int, repair: bool, resolved: Option<int>)
    requires if known.Some? then known.value in before.profiles else newId !in before.profiles
    requires OnlyCached(before, embedded, known, newId, resolved.Some?)
    requires resolved.Some? ==> resolved.value == ProfileOf(known, newId) && resolved.value in embedded.profiles
    requires resolved.None? ==> known.None?
    ensures resolved.Some? ==>
      LeftObsolete(embedded, resolved.value, repair) == (known.Some? && LeftObsolete(before, known.value, repair))
  {
  }

  /**
   * A run of `jscout embed`. Whatever ends it, the cache has gained whole batches
   * only, each hash with the vector that was answered for it; a run that is neither
   * cancelled nor failed leaves no selected chunk without an embedding and the profile,
   * if there is one, ready for search, unless it was marked and has an obsolete table.
   */
  method EmbedMissing(c: Connection, world: World, batchSize: nat, selects: int -> bool,
                      content: map<int, string>, known: Option<int>, newId: int, repair: bool)
    returns (r: Result<EmbedReport, Error>, ghost rows: seq<string>, ghost stored: nat, ghost sent: nat)
    requires Sound(c.db)
    requires known.Some? ==> known.value in c.db.profiles
    requires known.None? ==> newId !in c.db.profiles
    modifies c
    ensures EmbedRan(old(c.db), c.db, world, batchSize, selects, content, known, newId, repair, r, rows, stored, sent)
  {
    rows, stored, sent := [], 0, 0;
    if batchSize == 0 {
      return Err(BatchSizeIsZero), rows, stored, sent;
    }
    if world.cancel(0) {
      NothingRequested(c.db, world, batchSize, ProfileOf(known, newId));
      return Ok(EmbedReport(0, 0, 0, true)), rows, stored, sent;
    }
    AmbiguousIff(c.db, selects, known, content);
    if Ambiguous(c.db, selects, MissingHashes(c.db, selects, known), content) {
      NothingRequested(c.db, world, batchSize, ProfileOf(known, newId));
      return Err(AmbiguousHash), rows, stored, sent;
    }
    ghost var before := c.db;
    var list, reused := ListMissing(c.db, selects, known);
    hide EmbedRan, BrokenOff, Ambiguous, HashIsAmbiguous, ListsWanted, WellPlaced;
    var resolved, error, canceled, done, requests := EmbedBatches(c, world, batchSize, list, known, newId);
    rows, stored, sent := list, done, requests;
    ghost var embedded := c.db;
    BrokenOffIsSound(before, embedded, world, batchSize, list, known, newId, resolved, done, requests, error, canceled);
    assert Sending(before, embedded, world, batchSize, selects, content, known, newId, list, reused, resolved, error, canceled, done, requests);
    hide Sending, Sound, EligibleHashes, MissingHashes, Ready;
    if error.Some? {
      r := Err(error.value);
      RunBrokenOff(before, embedded, world, batchSize, selects, content, known, newId, repair, list, reused, resolved, error, canceled, done, requests, r);
      return;
    }
    if canceled || world.cancel(1 + requests) {
      r := Ok(EmbedReport(done, |list|, reused, true));
      RunBrokenOff(before, embedded, world, batchSize, selects, content, known, newId, repair, list, reused, resolved, error, canceled, done, requests, r);
      return;
    }
    r := Ok(EmbedReport(done, |list|, reused, false));
    if resolved.Some? {
      var synced := c.SynchronizeVectorIndex(resolved.value, repair);
      if synced.Err? {
        r := Err(IndexFailed);
      }
    }
    RunCompleted(before, embedded, c.db, world, batchSize, selects, content, known, newId, repair, list, reused, resolved, requests, r);
  }

  lemma NothingRequested(db: Db, world: World, batchSize: nat, p: int)
    requires Sound(db)
    ensures Gained(db, db, p, Hashes([])) && Hashes([]) == {} && AsAnswered(db, db, world, RequestSize(world, batchSize), p, [], 0)
    ensures WholeRequests(0, RequestSize(world, batchSize))
  {
    assert Requests(0, RequestSize(world, batchSize)) == 0;
  }

  lemma BrokenOffIsSound(before: Db, now: Db, world: World, batchSize: nat, list: seq<string>, known: Option<int>, newId: int,
                         resolved: Option<int>, done: nat, requests: nat, error: Option<Error>, canceled: bool)
    requires BrokenOff(before, now, world, batchSize, list, known, newId, resolved, done, requests, error, canceled)
    ensures Sound(now) && (resolved.Some? ==> resolved.value in now.profiles) && (error.None? && !canceled ==> done == |list|)
  {
  }

  lemma AnswerErrors(world: World, number: nat, batch: seq<string>, expected: Option<nat>)
    ensures var e := AnswerError(world, number, batch, expected);
      e != Some(BatchSizeIsZero) && e != Some(AmbiguousHash) && e != Some(IndexFailed)
  {
  }

  /** Each committed request strictly shrinks what is missing, by exactly its hashes. */
  lemma CommittedBatchShrinksMissing(before: Db, now: Db, selects: int -> bool, p: int, batch: seq<string>)
    requires WellFormed(before) && WellFormed(now)
    requires now.chunks == before.chunks && now.files == before.files
    requires Gained(before, now, p, Hashes(batch))
    requires batch != [] && Hashes(batch) <= MissingHashes(before, selects, Some(p))
    ensures MissingHashes(now, selects, Some(p)) == MissingHashes(before, selects, Some(p)) - Hashes(batch)
    ensures |MissingHashes(now, selects, Some(p))| < |MissingHashes(before, selects, Some(p))|
  {
    SameEligible(before, now, selects);
    var left, was := MissingHashes(now, selects, Some(p)), MissingHashes(before, selects, Some(p));
    assert left == was - Hashes(batch);
    assert batch[0] in Hashes(batch);
    Collections.SubsetSize(left, was - {batch[0]});
  }
}
