/**
 * Arbitrary runs of the operations that change the vector index or what it is derived
 * from: at any point, a profile that is reported ready is exhaustive.
 */
module VectorRuns {
  import opened Wrappers
  import opened VectorIndex
  import opened VectorSync
  import opened VectorConnection
  import opened Embedding
  import Collections

  datatype Operation =
    | InsertFile(id: int, file: File, chunks: map<int, Chunk>)
    | DeleteFile(id: int)
    | RetagOrigin(id: int, origin: string)
    | EnsureProfile(p: int, d: nat)
    | Materialize(profiles: seq<int>)
    | Synchronize(p: int, repair: bool)
    | FullSync(profiles: seq<int>)
    | Reset(profiles: seq<int>)
    | Embed(world: World, batchSize: nat, selects: int -> bool, content: map<int, string>,
            known: Option<int>, newId: int, repair: bool)
    | LoseTable(d: nat)
    | OldTable(d: nat, rows: map<int, VectorRow>)

  /** Rowids that are new, and profiles and files that exist. */
  predicate Applicable(db: Db, op: Operation) {
    match op
    case InsertFile(id, file, chunks) =>
      id !in db.files && chunks.Keys !! db.chunks.Keys && forall c :: c in chunks ==> chunks[c].file == id
    case DeleteFile(id) => true
    case RetagOrigin(id, origin) => id in db.files
    case EnsureProfile(p, d) => p !in db.profiles
    case Materialize(profiles) => forall p :: p in profiles ==> p in db.profiles
    case Synchronize(p, repair) => p in db.profiles
    case FullSync(profiles) => Collections.Distinct(profiles) && forall p :: p in profiles ==> p in db.profiles
    case Reset(profiles) => forall p :: p in profiles ==> p in db.profiles
    case LoseTable(d) => true
    case OldTable(d, rows) => true
    case Embed(world, batchSize, selects, content, known, newId, repair) =>
      match known
      case Some(p) => p in db.profiles
      case None => newId !in db.profiles
  }

  /** A table is missing from the file, or an older build left it there with whatever rows. */
  function Damaged(db: Db, d: nat, left: Option<map<int, VectorRow>>): Db {
    db.(tables := match left case None => db.tables - {d} case Some(rows) => db.tables[d := Table(false, rows)])
  }

  lemma DamagedIsSound(db: Db, d: nat, left: Option<map<int, VectorRow>>)
    requires Sound(db)
    ensures Sound(Damaged(db, d, left))
  {
    var now := Damaged(db, d, left);
    assert WellFormed(now);
    forall p | p in now.markers && CurrentTable(now, now.profiles[p])
      ensures Complete(now, p)
    {
      assert CurrentTable(db, db.profiles[p]) && EntriesOf(now, p) == EntriesOf(db, p);
    }
  }

  // ---------------------------------------------------------------- what an operation does

  predicate Known(db: Db, profiles: seq<int>) {
    forall p :: p in profiles ==> p in db.profiles
  }

  ghost predicate Supported(db: Db, profiles: seq<int>)
    requires Known(db, profiles)
  {
    forall p :: p in profiles ==> 0 < db.profiles[p] <= 8192
  }

  /** The file, its chunks and their entries are gone, and with the entries their rows. */
  ghost predicate FileIsGone(before: Db, now: Db, id: int) {
    && now.files == before.files - {id}
    && (forall c :: c in now.chunks <==> c in before.chunks && before.chunks[c].file != id)
    && (forall e :: e in now.entries <==>
          e in before.entries && before.entries[e].chunk in before.chunks && before.chunks[before.entries[e].chunk].file != id)
    && (forall e :: e in before.entries && e !in now.entries && before.entries[e].profile in before.profiles ==>
          e !in RowsOf(now, before.profiles[before.entries[e].profile]))
  }

  /** The database took the file in, or it could not be inserted. */
  ghost predicate Inserting(before: Db, now: Db, id: int, file: File, chunks: map<int, Chunk>, ok: bool) {
    && ok == (id !in before.files && forall c :: c in chunks ==> c !in before.chunks && chunks[c].file == id)
    && now == if ok then before.(files := before.files[id := file], chunks := before.chunks + chunks) else before
  }

  ghost predicate Deleting(before: Db, now: Db, id: int, ok: bool)
    requires WellFormed(before)
  {
    && ok == (forall e :: e in before.entries && before.chunks[before.entries[e].chunk].file == id ==>
                0 < before.profiles[before.entries[e].profile] <= 8192)
    && if ok then FileIsGone(before, now, id) else now == before
  }

  ghost predicate Adding(before: Db, now: Db, p: int, d: nat, ok: bool) {
    if p in before.profiles then !ok && now == before
    else
      && ok == (0 < d <= 8192) && now.profiles == before.profiles[p := d] && p !in now.markers
      && now == before.(profiles := now.profiles, tables := now.tables, markers := now.markers)
      && if ok then CurrentTable(now, d) else now.tables == before.tables && now.markers == before.markers
  }

  /** Every cached chunk of the profiles has its entry, and no profile became marked. */
  ghost predicate Materializing(before: Db, now: Db, profiles: seq<int>, ok: bool)
    requires WellFormed(before)
  {
    && WellFormed(now)
    && if ok then
         && Known(before, profiles) && SameSource(before, now) && OnlyDemoted(before, now)
         && forall p :: p in profiles ==> !Unmaterialized(now, p) && !HasIneligible(now, p)
       else now == before && (!Known(before, profiles) || !Supported(before, profiles) || !WellPlaced(before))
  }

  /** The profile is ready for search, if it was not left with an obsolete table. */
  ghost predicate Synchronizing(before: Db, now: Db, p: int, repair: bool, ok: bool)
    requires WellFormed(before)
  {
    && WellFormed(now) && SameSource(before, now)
    && if p !in before.profiles then !ok && now == before
       else if ok then
         Ready(now, p) == if LeftObsolete(before, p, repair) then Err(ObsoleteTable) else Ok(())
       else !WellPlaced(before) || LeftObsolete(before, p, repair) || !Supported(before, [p])
  }

  ghost predicate Repairing(before: Db, now: Db, profiles: seq<int>, ok: bool)
    requires WellFormed(before)
  {
    && WellFormed(now) && SameSource(before, now)
    && if ok then Known(before, profiles) && forall p :: p in profiles ==> Repaired(before, now, p)
       else
         && TablesEnsured(before, now)
         && (!Known(before, profiles) || !Collections.Distinct(profiles) || !Supported(before, profiles) || !WellPlaced(before))
  }

  ghost predicate Resetting(before: Db, now: Db, profiles: seq<int>, ok: bool) {
    && ok == (Known(before, profiles) && Supported(before, profiles))
    && if ok then
         && now == before.(files := map[], chunks := map[], entries := map[], tables := now.tables, markers := now.markers)
         && (forall d :: RowsOf(now, d) == map[]) && (forall p :: p in profiles ==> CurrentTable(now, now.profiles[p]))
       else now == before
  }

  /** What one operation may make of a database, and whether it succeeds. */
  ghost predicate Step(before: Db, now: Db, op: Operation, ok: bool)
    requires Sound(before)
  {
    match op
    case InsertFile(id, file, chunks) => Inserting(before, now, id, file, chunks, ok)
    case DeleteFile(id) => Deleting(before, now, id, ok)
    case RetagOrigin(id, origin) =>
      && ok == (id in before.files)
      && now == if ok then before.(files := before.files[id := before.files[id].(origin := origin)]) else before
    case EnsureProfile(p, d) => Adding(before, now, p, d, ok)
    case Materialize(profiles) => Materializing(before, now, profiles, ok)
    case Synchronize(p, repair) => Synchronizing(before, now, p, repair, ok)
    case FullSync(profiles) => Repairing(before, now, profiles, ok)
    case Reset(profiles) => Resetting(before, now, profiles, ok)
    case LoseTable(d) => ok && now == before.(tables := before.tables - {d})
    case OldTable(d, rows) => ok && now == before.(tables := before.tables[d := Table(false, rows)])
    case Embed(world, batchSize, selects, content, known, newId, repair) =>
      if (if known.Some? then known.value !in before.profiles else newId in before.profiles) then !ok && now == before
      else exists r: Result<EmbedReport, Error>, rows: seq<string>, stored: nat, sent: nat ::
        && EmbedRan(before, now, world, batchSize, selects, content, known, newId, repair, r, rows, stored, sent)
        && ok == r.Ok?
  }

  lemma DeletedFileIsGone(before: Db, now: Db, id: int)
    requires Sound(before) && now.files == before.files - {id}
    requires now.chunks == before.chunks - ChunksOf(before, id) && now.entries == before.entries - EntriesOfFile(before, id)
    requires forall e :: e in EntriesOfFile(before, id) ==> e !in RowsOf(now, DimensionOf(before, e))
    ensures FileIsGone(before, now, id)
  {
    forall e
      ensures e in EntriesOfFile(before, id) <==> e in before.entries && before.chunks[before.entries[e].chunk].file == id
    {
    }
    forall e | e in before.entries && e !in now.entries
      ensures e !in RowsOf(now, before.profiles[before.entries[e].profile])
    {
      assert e in EntriesOfFile(before, id);
      assert DimensionOf(before, e) == before.profiles[before.entries[e].profile];
    }
  }

  /** An operation that does not apply fails and changes nothing. */
  lemma NotApplied(db: Db, op: Operation)
    requires Sound(db) && !Applicable(db, op)
    ensures Step(db, db, op, false)
  {
    match op
    case InsertFile(id, file, chunks) =>
      if forall c :: c in chunks ==> c !in db.chunks {
        assert chunks.Keys !! db.chunks.Keys;
      }
    case FullSync(profiles) =>
      assert TablesEnsured(db, db);
    case _ =>
  }

  method Apply(c: Connection, op: Operation) returns (ok: bool)
    requires Sound(c.db) && Applicable(c.db, op)
    modifies c
    ensures Sound(c.db) && CacheKept(old(c.db), c.db)
    ensures Step(old(c.db), c.db, op, ok)
  {
    ghost var before := c.db;
    match op
    case InsertFile(id, file, chunks) =>
      c.InsertFile(id, file, chunks);
      ok := true;
    case DeleteFile(id) =>
      var r := c.DeleteFile(id);
      ok := r.Ok?;
      if ok {
        DeletedFileIsGone(before, c.db, id);
      }
    case RetagOrigin(id, origin) =>
      c.RetagOrigin(id, origin);
      ok := true;
    case EnsureProfile(p, d) =>
      var r := c.EnsureProfile(p, d);
      ok := r.Ok?;
    case Materialize(profiles) =>
      var r := c.MaterializeCachedEmbeddings(profiles);
      ok := r.Ok?;
    case Synchronize(p, repair) =>
      var r := c.SynchronizeVectorIndex(p, repair);
      ok := r.Ok?;
    case FullSync(profiles) =>
      var r, count, reached := c.SyncVectorIndexes(profiles);
      ok := r.Ok?;
    case Reset(profiles) =>
      var r := c.ResetSnapshot(profiles);
      ok := r.Ok?;
    case Embed(world, batchSize, selects, content, known, newId, repair) =>
      var r, rows, stored, sent := EmbedMissing(c, world, batchSize, selects, content, known, newId, repair);
      ok := r.Ok?;
    case LoseTable(d) =>
      DamagedIsSound(c.db, d, None);
      c.db := Damaged(c.db, d, None);
      ok := true;
    case OldTable(d, rows) =>
      DamagedIsSound(c.db, d, Some(rows));
      c.db := Damaged(c.db, d, Some(rows));
      ok := true;
  }

  /** What a search may rely on. */
  ghost predicate Trustworthy(db: Db) {
    Sound(db) && forall p :: p in db.profiles && Ready(db, p).Ok? ==> Exhaustive(db, p)
  }

  lemma SoundIsTrustworthy(db: Db)
    requires Sound(db)
    ensures Trustworthy(db)
  {
    forall p | p in db.profiles && Ready(db, p).Ok?
      ensures Exhaustive(db, p)
    {
      ReadyIsExhaustive(db, p);
    }
  }

  /** One step after the other leads through these states. */
  ghost predicate Trace(ops: seq<Operation>, states: seq<Db>, results: seq<bool>) {
    && |states| == |ops| + 1 && |results| == |ops|
    && (forall i :: 0 <= i < |states| ==> Trustworthy(states[i]))
    && forall i :: 0 <= i < |ops| ==> Step(states[i], states[i + 1], ops[i], results[i])
  }

  lemma TraceGrows(ops: seq<Operation>, op: Operation, states: seq<Db>, now: Db, results: seq<bool>, ok: bool)
    requires Trace(ops, states, results) && Trustworthy(now)
    requires Trustworthy(states[|ops|]) ==> Step(states[|ops|], now, op, ok)
    ensures Trace(ops + [op], states + [now], results + [ok])
  {
    hide Step, Sound, Exhaustive;
    var all, more, answers := ops + [op], states + [now], results + [ok];
    forall i | 0 <= i < |all|
      ensures Step(more[i], more[i + 1], all[i], answers[i])
    {
      assert Trustworthy(states[i]);
      assert i < |ops| ==> Step(states[i], states[i + 1], ops[i], results[i]);
    }
  }

  /**
   * Any run over any sound database: each operation does what it says or is refused for a
   * stated reason. At every point a ready profile is exhaustive, and no vector that was
   * ever cached has changed.
   */
  method Run(c: Connection, ops: seq<Operation>) returns (results: seq<bool>, ghost states: seq<Db>)
    requires Sound(c.db)
    modifies c
    ensures Trace(ops, states, results) && states[0] == old(c.db) && states[|ops|] == c.db
    ensures forall i, j :: 0 <= i <= j < |states| ==> CacheKept(states[i], states[j])
  {
    SoundIsTrustworthy(c.db);
    results, states := [], [c.db];
    for i := 0 to |ops|
      invariant Sound(c.db) && Trace(ops[..i], states, results) && states[0] == old(c.db) && states[i] == c.db
      invariant forall k, l :: 0 <= k <= l <= i ==> CacheKept(states[k], states[l])
    {
      ghost var before := c.db;
      var ok := false;
      if Applicable(c.db, ops[i]) {
        ok := Apply(c, ops[i]);
      } else {
        NotApplied(c.db, ops[i]);
      }
      SoundIsTrustworthy(c.db);
      forall k | 0 <= k <= i
        ensures CacheKept(states[k], c.db)
      {
        CacheKeptToo(states[k], before, c.db);
      }
      TraceGrows(ops[..i], ops[i], states, c.db, results, ok);
      assert ops[..i + 1] == ops[..i] + [ops[i]];
      results, states := results + [ok], states + [c.db];
    }
    assert ops[..|ops|] == ops;
  }

  lemma CacheKeptToo(a: Db, b: Db, c: Db)
    requires CacheKept(a, b) && CacheKept(b, c)
    ensures CacheKept(a, c)
  {
  }
}
