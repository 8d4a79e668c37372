/**
 * The vector index as one connection operates on it. Savepoints are snapshots:
 * on an error inside one the database is put back to where it began.
 */
module VectorConnection {
  import opened Wrappers
  import opened VectorIndex
  import opened VectorSync
  import Collections

  datatype Failure = UnsupportedDimensions | RowIdTaken | ObsoletePartition

  /** Vector upkeep never touches what it is derived from. */
  predicate SameSource(before: Db, now: Db) {
    now.files == before.files && now.chunks == before.chunks && now.profiles == before.profiles && now.cache == before.cache
  }

  /**
   * A full sync that began in `before`, with its table in the state `ensured`: rows
   * and entries agree, and the index is exhaustive exactly if no spared row was wrong;
   * or nothing but the table was touched and a row that belongs to another profile
   * stands where an entry has to go.
   */
  ghost predicate SyncOutcome(before: Db, ensured: Db, now: Db, p: int, d: nat, r: Result<(), Failure>)
    requires WellFormed(before) && p in before.profiles
  {
    && (r.Ok? ==> Audited(now, p) && RowsKeptOrFresh(before, now, p))
    && (r.Ok? ==> (Exhaustive(now, p) <==> SparedRowsHold(before, p)))
    && OthersKept(before, now, p)
    && (r.Err? ==> r.error == RowIdTaken && now == ensured && !NoForeignOrphans(before, p, d))
    && (Sound(before) ==> Sound(now))
    && SameSource(before, now)
  }

  /** No profile was marked, and one with a current table did not lose its marker. */
  ghost predicate OnlyDemoted(before: Db, now: Db) {
    && now.markers <= before.markers && now.profiles == before.profiles
    && (forall d :: CurrentTable(before, d) ==> CurrentTable(now, d))
    && forall p :: p in before.markers && p in before.profiles && CurrentTable(before, before.profiles[p]) ==> p in now.markers
  }

  lemma OthersKeptSince(before: Db, ensured: Db, now: Db, p: int)
    requires ensured.entries == before.entries && OthersKept(ensured, now, p)
    ensures OthersKept(before, now, p)
  {
  }

  lemma DemotedBySync(before: Db, now: Db, p: int, d: nat)
    requires p in before.profiles && before.profiles[p] == d && p in before.markers && d !in before.tables
    requires now.profiles == before.profiles && now.markers == Ensured(before, d).markers + {p}
    requires forall x :: CurrentTable(now, x) <==> CurrentTable(before, x) || x == d
    ensures OnlyDemoted(before, now)
  {
  }

  lemma DemotedByRefresh(before: Db, now: Db, d: nat)
    requires now.profiles == before.profiles && now.markers == Ensured(before, d).markers
    requires forall x :: CurrentTable(now, x) <==> CurrentTable(Ensured(before, d), x)
    ensures OnlyDemoted(before, now)
  {
  }

  lemma DemotedToo(a: Db, b: Db, c: Db)
    requires OnlyDemoted(a, b) && OnlyDemoted(b, c)
    ensures OnlyDemoted(a, c)
  {
  }

  class Connection {
    var db: Db

    constructor ()
      ensures Sound(db) && db.files == map[] && db.markers == {}
    {
      db := Db(map[], map[], map[], map[], map[], map[], {});
    }

    method EnsureVectorTable(d: nat) returns (r: Result<(), Failure>)
      modifies this
      ensures r == if SupportedDimensions(d) then Ok(()) else Err(UnsupportedDimensions)
      ensures db == if r.Ok? then Ensured(old(db), d) else old(db)
      ensures Sound(old(db)) ==> Sound(db)
    {
      if !SupportedDimensions(d) {
        return Err(UnsupportedDimensions);
      }
      if !CurrentTable(db, d) {
        db := db.(markers := db.markers - ProfilesWith(db, d));
        db := db.(tables := db.tables[d := Table(true, map[])]);
      }
      if Sound(old(db)) {
        EnsuredIsSound(old(db), d);
      }
      return Ok(());
    }

    /** The two inserts for one chunk, under the next entry id. */
    method InsertOccurrence(c: int, p: int, d: nat) returns (r: Result<int, Failure>)
      requires c in db.chunks && db.chunks[c].file in db.files && (db.chunks[c].hash, p) in db.cache && d in db.tables
      modifies this
      ensures r.Ok? ==> r.value !in old(db).entries && r.value !in old(db).tables[d].rows && db == Inserted(old(db), c, p, d, r.value)
      ensures r.Err? ==> db == old(db)
      ensures r.Err? ==> r.error == if db.tables[d].partitioned then RowIdTaken else ObsoletePartition
      ensures r == Err(RowIdTaken) ==> exists id :: id in db.tables[d].rows && id !in db.entries
    {
      var used := Collections.Elements(db.entries.Keys);
      var id := NextRowId(used);
      if !db.tables[d].partitioned {
        return Err(ObsoletePartition);
      }
      if id in db.tables[d].rows {
        return Err(RowIdTaken);
      }
      db := Inserted(db, c, p, d, id);
      r := Ok(id);
    }

    /** Index the chunks that have a cached embedding and no occurrence yet. */
    method MaterializeProfile(p: int, d: nat) returns (r: Result<(), Failure>)
      requires WellFormed(db) && p in db.profiles && db.profiles[p] == d && d in db.tables
      modifies this
      ensures r.Ok? ==> Grown(old(db), db, p, d, MissingChunks(old(db), p))
      ensures SameSource(old(db), db)
      ensures r.Err? ==> r.error == if old(db).tables[d].partitioned then RowIdTaken else ObsoletePartition
      ensures r == Err(RowIdTaken) ==> exists id :: id in old(db).tables[d].rows && id !in old(db).entries
    {
      ghost var before := db;
      var missing := Collections.Elements(MissingChunks(db, p));
      ghost var done: set<int> := {};
      for i := 0 to |missing|
        invariant forall k :: 0 <= k < i ==> missing[k] in done
        invariant forall k :: i <= k < |missing| ==> missing[k] !in done
        invariant done <= MissingChunks(before, p)
        invariant Grown(before, db, p, d, done)
      {
        var c := missing[i];
        assert c in missing;
        ghost var now := db;
        var inserted := InsertOccurrence(c, p, d);
        if inserted.Err? {
          OrphansWereThere(before, now, p, d, done);
          return Err(inserted.error);
        }
        GrowsByOne(before, now, p, d, done, c, inserted.value);
        done := done + {c};
      }
      assert done == MissingChunks(before, p) by {
        forall c | c in MissingChunks(before, p)
          ensures c in done
        {
          assert c in missing;
        }
      }
      return Ok(());
    }

    /** Put back the vector rows that entries of the profile have lost. */
    method RestoreLostRows(p: int, d: nat)
      requires WellFormed(db) && p in db.profiles && db.profiles[p] == d && CurrentTable(db, d)
      modifies this
      ensures db == Restored(old(db), p, d, LostRows(old(db), p, d))
    {
      ghost var before := db;
      var lost := Collections.Elements(LostRows(db, p, d));
      ghost var done: set<int> := {};
      RestoresNothing(db, p, d);
      for i := 0 to |lost|
        invariant done == set k | 0 <= k < i :: lost[k]
        invariant done <= LostRows(before, p, d)
        invariant db == Restored(before, p, d, done)
      {
        var e := lost[i];
        assert e in lost;
        assert NewRow(db, before.entries[e].chunk, p) == NewRow(before, before.entries[e].chunk, p);
        RestoresByOne(before, p, d, done, e);
        db := WithRows(db, d, db.tables[d].rows[e := NewRow(db, db.entries[e].chunk, p)]);
        done := done + {e};
      }
      assert done == LostRows(before, p, d) by {
        forall e | e in LostRows(before, p, d)
          ensures e in done
        {
          assert e in lost;
        }
      }
    }

    /** The savepoint of a full sync, once the table exists. */
    method AuditProfile(p: int, d: nat) returns (r: Result<(), Failure>)
      requires WellFormed(db) && p in db.profiles && db.profiles[p] == d && CurrentTable(db, d)
      modifies this
      ensures SyncOutcome(old(db), old(db), db, p, d, r)
      ensures CurrentTable(db, d)
      ensures r.Ok? ==> OthersUntouched(old(db), db, p) && db.markers == old(db).markers + {p}
      ensures WellPlaced(old(db)) ==> r.Ok? && WellFormed(db) && WellPlaced(db)
    {
      hide WellPlaced, SyncOutcome, OthersUntouched, IsCleaned, Cleaned, Grown, Restored, WellFormed, SameSource;
      ghost var before := db;
      var saved := db;
      CleanedIsCleaned(db, p, d);
      db := Cleaned(db, p, d);
      ghost var cleaned := db;
      CleanedIsReady(before, cleaned, p, d);
      r := MaterializeProfile(p, d);
      if r.Err? {
        AuditFails(before, cleaned, p, d);
        db := saved;
        return;
      }
      ghost var grown := db;
      GrownIsReady(cleaned, grown, p, d);
      RestoreLostRows(p, d);
      RestoredMarkers(grown, p, d);
      db := db.(markers := db.markers + {p});
      AuditedOutcome(before, cleaned, grown, p, d, db);
      if WellPlaced(before) {
        RestoredIsPlaced(grown, db, p, d);
      }
      r := Ok(());
    }

    /** `sync_vector_index` for one profile, from any state that the schema admits. */
    method SyncVectorIndex(p: int) returns (r: Result<(), Failure>)
      requires WellFormed(db) && p in db.profiles
      modifies this
      ensures SameSource(old(db), db)
      ensures !SupportedDimensions(db.profiles[p]) ==> r == Err(UnsupportedDimensions) && db == old(db)
      ensures SupportedDimensions(db.profiles[p]) ==> SyncOutcome(old(db), Ensured(old(db), db.profiles[p]), db, p, db.profiles[p], r)
      ensures Sound(old(db)) ==> Sound(db)
      ensures r.Ok? ==> db.markers == Ensured(old(db), db.profiles[p]).markers + {p}
      ensures r.Ok? ==> forall d :: CurrentTable(db, d) <==> CurrentTable(old(db), d) || d == db.profiles[p]
      ensures WellPlaced(old(db)) ==> WellFormed(db) && WellPlaced(db) && (r.Ok? <==> SupportedDimensions(db.profiles[p]))
    {
      var d := db.profiles[p];
      ghost var before := db;
      EnsuredShape(before, d);
      if WellPlaced(before) {
        EnsuredIsPlaced(before, d);
      }
      r := EnsureVectorTable(d);
      hide Ensured, WellPlaced, Sound, Exhaustive, Audited, SparedRowsHold, RowsKeptOrFresh, NoForeignOrphans, OthersKept;
      if r.Ok? {
        ghost var ensured := db;
        r := AuditProfile(p, d);
        OutcomeSinceEnsured(before, ensured, db, p, d, r);
      }
    }

    /** The tables of all profiles, before the savepoint. */
    method EnsureVectorTables(profiles: seq<int>) returns (r: Result<(), Failure>)
      requires WellFormed(db) && forall p :: p in profiles ==> p in db.profiles
      modifies this
      ensures TablesEnsured(old(db), db)
      ensures r.Ok? <==> forall p :: p in profiles ==> SupportedDimensions(db.profiles[p])
      ensures r.Err? ==> r.error == UnsupportedDimensions
      ensures r.Ok? ==> forall p :: p in profiles ==> CurrentTable(db, db.profiles[p])
      ensures WellPlaced(old(db)) ==> WellFormed(db) && WellPlaced(db)
    {
      ghost var before := db;
      assert TablesEnsured(before, db);
      hide WellPlaced, TablesEnsured, Ensured, SparedRowsHold, Sound;
      for i := 0 to |profiles|
        invariant TablesEnsured(before, db) && WellFormed(db) && db.profiles == before.profiles
        invariant WellPlaced(before) ==> WellPlaced(db)
        invariant forall p :: p in profiles[..i] ==> SupportedDimensions(db.profiles[p]) && CurrentTable(db, db.profiles[p])
      {
        ghost var now := db;
        var p := profiles[i];
        assert p in profiles;
        assert p in before.profiles;
        assert p in db.profiles;
        if WellPlaced(now) {
          EnsuredIsPlaced(now, db.profiles[p]);
        }
        r := EnsureVectorTable(db.profiles[p]);
        if r.Err? {
          return;
        }
        EnsuredToo(before, now, before.profiles[p]);
        EnsuredShape(now, before.profiles[p]);
        assert profiles[..i + 1] == profiles[..i] + [p];
      }
      assert profiles[..|profiles|] == profiles;
      r := Ok(());
    }

    /**
     * `sync_vector_index` for a list of profiles: all are repaired, or only tables were made
     * anew. It fails exactly on an unsupported dimension, or if in the state `reached`, when
     * `count` profiles were repaired, a row of another one stands where the next needs an entry.
     */
    method SyncVectorIndexes(profiles: seq<int>) returns (r: Result<(), Failure>, ghost count: nat, ghost reached: Db)
      requires WellFormed(db) && Collections.Distinct(profiles) && forall p :: p in profiles ==> p in db.profiles
      modifies this
      ensures SameSource(old(db), db) && (Sound(old(db)) ==> Sound(db))
      ensures r.Ok? ==> forall k :: 0 <= k < |profiles| ==> Repaired(old(db), db, profiles[k])
      ensures r == Err(UnsupportedDimensions) <==> exists p :: p in profiles && !SupportedDimensions(db.profiles[p])
      ensures r.Err? ==> TablesEnsured(old(db), db)
      ensures r.Err? && r.error != UnsupportedDimensions ==>
        && r.error == RowIdTaken && count < |profiles| && WellFormed(db) && SameSource(old(db), db)
        && RepairedUpTo(db, reached, profiles, count)
        && !NoForeignOrphans(reached, profiles[count], db.profiles[profiles[count]])
      ensures WellPlaced(old(db)) ==>
        WellFormed(db) && WellPlaced(db) && (r.Ok? <==> forall p :: p in profiles ==> SupportedDimensions(db.profiles[p]))
    {
      ghost var before := db;
      r := EnsureVectorTables(profiles);
      count, reached := 0, db;
      if r.Err? {
        return;
      }
      var saved := db;
      ghost var ensured := db;
      for i := 0 to |profiles|
        invariant RepairedUpTo(ensured, db, profiles, i)
        invariant WellPlaced(ensured) ==> WellPlaced(db)
      {
        ghost var start := db;
        count, reached := i, db;
        r := AuditProfile(profiles[i], db.profiles[profiles[i]]);
        if r.Err? {
          db := saved;
          return;
        }
        RepairedNext(ensured, start, db, profiles, i);
      }
      r := Ok(());
    }

    /** Drop ineligible occurrences and add missing ones; the caller holds the savepoint. */
    method Refresh(p: int, d: nat) returns (r: Result<(), Failure>)
      requires Sound(db) && p in db.profiles && db.profiles[p] == d && d in db.tables
      modifies this
      ensures r.Ok? ==> Sound(db) && !Unmaterialized(db, p) && !HasIneligible(db, p)
      ensures r.Ok? ==> db.markers == old(db).markers && d in db.tables && db.tables[d].partitioned == old(db).tables[d].partitioned
      ensures r.Ok? ==> OthersKept(old(db), db, p) && forall x :: CurrentTable(db, x) <==> CurrentTable(old(db), x)
      ensures SameSource(old(db), db)
      ensures WellPlaced(old(db)) && old(db).tables[d].partitioned ==> r.Ok? && WellPlaced(db)
    {
      ghost var before := db;
      PruneIsSound(db, p, d);
      ghost var placed := WellPlaced(before);
      if placed {
        PrunedIsPlaced(before, p, d);
      }
      db := PrunedIneligible(db, p, d);
      ghost var pruned := db;
      assert placed ==> forall id :: id in pruned.tables[d].rows ==> id in pruned.entries by {
        assert RowsOf(pruned, d) == pruned.tables[d].rows;
      }
      assert OthersKept(before, pruned, p);
      r := MaterializeProfile(p, d);
      if r.Ok? {
        RefreshGrown(before, pruned, db, p, d, placed);
      }
    }

    /**
     * The anti-join of normal passes, with the full audit as its fallback. It makes the
     * profile ready unless a marked profile has an obsolete table, which stays as it is.
     */
    method SynchronizeVectorIndex(p: int, repair: bool) returns (r: Result<(), Failure>)
      requires Sound(db) && p in db.profiles
      modifies this
      ensures Sound(db) && SameSource(old(db), db)
      ensures r.Ok? && (repair || p !in old(db).markers) ==> Audited(db, p)
      ensures r.Ok? ==> Ready(db, p) == if LeftObsolete(old(db), p, repair) then Err(ObsoleteTable) else Ok(())
      ensures r.Ok? && !LeftObsolete(old(db), p, repair) ==> Exhaustive(db, p)
      ensures r.Err? ==> !WellPlaced(old(db)) || LeftObsolete(old(db), p, repair) || !SupportedDimensions(db.profiles[p])
    {
      if repair || p !in db.markers || db.profiles[p] !in db.tables {
        r := SyncVectorIndex(p);
        if r.Ok? {
          ReadyIsExhaustive(db, p);
        }
        return;
      }
      if Unmaterialized(db, p) || HasIneligible(db, p) {
        var saved := db;
        r := Refresh(p, db.profiles[p]);
        if r.Err? {
          db := saved;
          return;
        }
      }
      if CurrentTable(db, db.profiles[p]) {
        ReadyIsExhaustive(db, p);
      }
      return Ok(());
    }

    /** Make sure of the table, and index what is missing. */
    method RefreshOne(p: int) returns (r: Result<(), Failure>)
      requires Sound(db) && p in db.profiles
      modifies this
      ensures SameSource(old(db), db)
      ensures r.Ok? ==> Sound(db) && !Unmaterialized(db, p) && !HasIneligible(db, p)
      ensures r.Ok? ==> OthersKept(old(db), db, p) && OnlyDemoted(old(db), db)
      ensures WellPlaced(old(db)) ==> (r.Ok? <==> SupportedDimensions(db.profiles[p])) && (r.Ok? ==> WellPlaced(db))
    {
      var d := db.profiles[p];
      ghost var before := db;
      EnsuredShape(db, d);
      if WellPlaced(db) {
        EnsuredIsPlaced(db, d);
      }
      hide WellPlaced, Sound, OnlyDemoted, Ensured, OthersKept, Unmaterialized, HasIneligible;
      r := EnsureVectorTable(d);
      if r.Ok? {
        ghost var ensured := db;
        r := Refresh(p, d);
        if r.Ok? {
          DemotedByRefresh(before, db, d);
          OthersKeptSince(before, ensured, db, p);
        }
      }
    }

    /** One profile: the full audit if its table is gone, and otherwise only what is missing. */
    method MaterializeOne(p: int) returns (r: Result<(), Failure>)
      requires Sound(db) && p in db.profiles
      modifies this
      ensures SameSource(old(db), db)
      ensures r.Ok? ==> Sound(db) && !Unmaterialized(db, p) && !HasIneligible(db, p)
      ensures r.Ok? ==> OthersKept(old(db), db, p) && OnlyDemoted(old(db), db)
      ensures WellPlaced(old(db)) ==> (r.Ok? <==> SupportedDimensions(db.profiles[p])) && (r.Ok? ==> WellPlaced(db))
      ensures r.Ok? && p in old(db).markers && db.profiles[p] !in old(db).tables ==> p in db.markers
    {
      var d := db.profiles[p];
      ghost var before := db;
      if p in db.markers && d !in db.tables {
        hide WellPlaced, Complete, Faithful, Exhaustive, KeysMatch, NoForeignOrphans, RowsKeptOrFresh, SparedRowsHold, Eligible, OnlyDemoted, Ensured;
        r := SyncVectorIndex(p);
        if r.Ok? {
          DemotedBySync(before, db, p, d);
        }
      } else {
        hide *;
        r := RefreshOne(p);
      }
    }

    /**
     * What indexing does after it inserted chunks, for every profile of code documents. No
     * profile becomes marked by it. Where rows are in their places, it fails only on a
     * dimension that is not supported.
     */
    method MaterializeCachedEmbeddings(codeProfiles: seq<int>) returns (r: Result<(), Failure>)
      requires Sound(db) && forall p :: p in codeProfiles ==> p in db.profiles
      modifies this
      ensures Sound(db)
      ensures r.Err? ==> db == old(db)
      ensures r.Ok? ==> forall p :: p in codeProfiles ==> !Unmaterialized(db, p) && !HasIneligible(db, p)
      ensures SameSource(old(db), db)
      ensures r.Ok? ==> OnlyDemoted(old(db), db)
      ensures WellPlaced(old(db)) ==>
        WellPlaced(db) && (r.Ok? <==> forall p :: p in codeProfiles ==> SupportedDimensions(db.profiles[p]))
    {
      var saved := db;
      ghost var placed := WellPlaced(db);
      hide WellPlaced, OthersKept, Unmaterialized, HasIneligible, Sound;
      for i := 0 to |codeProfiles|
        invariant Sound(db) && SameSource(old(db), db) && OnlyDemoted(old(db), db)
        invariant placed ==> WellPlaced(db) && forall p :: p in codeProfiles[..i] ==> SupportedDimensions(db.profiles[p])
        invariant forall p :: p in codeProfiles[..i] ==> !Unmaterialized(db, p) && !HasIneligible(db, p)
      {
        var p := codeProfiles[i];
        assert p in codeProfiles;
        ghost var start := db;
        r := MaterializeOne(p);
        if r.Err? {
          db := saved;
          return;
        }
        DemotedToo(old(db), start, db);
        MaterializedToo(start, db, p, codeProfiles[..i]);
        assert codeProfiles[..i + 1] == codeProfiles[..i] + [p];
      }
      assert codeProfiles[..|codeProfiles|] == codeProfiles;
      return Ok(());
    }

    // -------------------------------------------------------------- files and profiles

    /** Insert a file and its chunks under rowids that are not in use. */
    method InsertFile(id: int, file: File, chunks: map<int, Chunk>)
      requires Sound(db) && id !in db.files
      requires chunks.Keys !! db.chunks.Keys && forall c :: c in chunks ==> chunks[c].file == id
      modifies this
      ensures Sound(db)
      ensures db == old(db).(files := old(db).files[id := file], chunks := old(db).chunks + chunks)
    {
      ghost var before := db;
      db := db.(files := db.files[id := file], chunks := db.chunks + chunks);
      forall e | e in db.entries
        ensures db.chunks[db.entries[e].chunk] == before.chunks[before.entries[e].chunk]
      {
      }
      forall p | p in db.markers && CurrentTable(db, db.profiles[p])
        ensures Complete(db, p)
      {
        assert EntriesOf(db, p) == EntriesOf(before, p);
      }
    }

    /** A file changes its origin in place; its vector rows are not touched. */
    method RetagOrigin(id: int, origin: string)
      requires Sound(db) && id in db.files
      modifies this
      ensures Sound(db)
      ensures db == Retagged(old(db), id, origin)
    {
      RetaggedIsSound(db, id, origin);
      db := Retagged(db, id, origin);
    }

    /** A new profile, with the table that it shares. */
    method EnsureProfile(p: int, d: nat) returns (r: Result<(), Failure>)
      requires Sound(db) && p !in db.profiles
      modifies this
      ensures Sound(db) && p !in db.markers
      ensures r.Ok? <==> SupportedDimensions(d)
      ensures var made := old(db).(profiles := old(db).profiles[p := d]);
              db == if r.Ok? then Ensured(made, d) else made
    {
      NewProfileIsSound(db, p, d);
      db := db.(profiles := db.profiles[p := d]);
      r := EnsureVectorTable(d);
    }

    /** `delete_vector_rows_for_file`: one row after the other, in the table of its profile. */
    method DetachRows(id: int) returns (r: Result<(), Failure>)
      requires Sound(db)
      modifies this
      ensures r.Ok? <==> forall e :: e in EntriesOfFile(old(db), id) ==> SupportedDimensions(DimensionOf(old(db), e))
      ensures r.Ok? ==> Detaching(old(db), db, EntriesOfFile(old(db), id))
    {
      ghost var before := db;
      var rows := Collections.Elements(EntriesOfFile(db, id));
      ghost var gone: set<int> := {};
      for i := 0 to |rows|
        invariant gone == set k | 0 <= k < i :: rows[k]
        invariant gone <= EntriesOfFile(before, id)
        invariant forall e :: e in gone ==> SupportedDimensions(DimensionOf(before, e))
        invariant Detaching(before, db, gone)
      {
        var e := rows[i];
        assert e in rows;
        ghost var start := db;
        var d := db.profiles[db.entries[e].profile];
        r := EnsureVectorTable(d);
        if r.Err? {
          return;
        }
        ghost var ensured := db;
        db := WithRows(db, d, db.tables[d].rows - {e});
        DetachesByOne(before, start, gone, e, d, db, ensured);
        gone := gone + {e};
      }
      assert gone == EntriesOfFile(before, id) by {
        assert forall e :: e in rows ==> e in gone;
      }
      return Ok(());
    }

    /** `delete_vector_rows_for_file` and the cascade of the file row behind it. */
    method DeleteFile(id: int) returns (r: Result<(), Failure>)
      requires Sound(db)
      modifies this
      ensures Sound(db)
      ensures r.Ok? <==> forall e :: e in EntriesOfFile(old(db), id) ==> SupportedDimensions(DimensionOf(old(db), e))
      ensures r.Err? ==> db == old(db)
      ensures r.Ok? ==> Detaching(old(db), db.(files := old(db).files, chunks := old(db).chunks, entries := old(db).entries), EntriesOfFile(old(db), id))
      ensures r.Ok? ==> forall e :: e in EntriesOfFile(old(db), id) ==> e !in RowsOf(db, DimensionOf(old(db), e))
      ensures r.Ok? ==> db.files == old(db).files - {id}
      ensures r.Ok? ==> db.chunks == old(db).chunks - ChunksOf(old(db), id)
      ensures r.Ok? ==> db.entries == old(db).entries - EntriesOfFile(old(db), id)
    {
      ghost var before := db;
      var saved := db;
      r := DetachRows(id);
      if r.Err? {
        // The transaction around the deletion is rolled back.
        db := saved;
        return;
      }
      DetachedIsSound(before, db, id);
      db := WithoutFile(db, id);
    }

    /** `reset_snapshot_state`: all occurrences go, markers and the cache stay. */
    method ResetSnapshot(codeProfiles: seq<int>) returns (r: Result<(), Failure>)
      requires Sound(db) && forall p :: p in codeProfiles ==> p in db.profiles
      modifies this
      ensures Sound(db)
      ensures r.Ok? <==> forall p :: p in codeProfiles ==> SupportedDimensions(old(db).profiles[p])
      ensures r.Err? ==> db == old(db)
      ensures r.Ok? ==> db.profiles == old(db).profiles && db.markers <= old(db).markers
      ensures r.Ok? ==> forall p :: p in codeProfiles ==> CurrentTable(db, db.profiles[p])
      ensures r.Ok? ==> db.files == map[] && db.chunks == map[] && db.entries == map[] && db.cache == old(db).cache
      ensures r.Ok? ==> forall d :: RowsOf(db, d) == map[]
      ensures r.Ok? ==> forall p :: p in codeProfiles && p in old(db).markers && CurrentTable(old(db), old(db).profiles[p]) ==> p in db.markers
    {
      var saved := db;
      hide Faithful, Complete, Eligible, Sound;
      for i := 0 to |codeProfiles|
        invariant Sound(db) && db.profiles == old(db).profiles && db.cache == old(db).cache && db.markers <= old(db).markers
        invariant forall p :: p in codeProfiles[..i] ==> SupportedDimensions(db.profiles[p]) && CurrentTable(db, db.profiles[p])
        invariant forall p :: p in old(db).markers && p in db.profiles && CurrentTable(old(db), old(db).profiles[p]) ==>
          p in db.markers && CurrentTable(db, db.profiles[p])
      {
        var p := codeProfiles[i];
        r := EnsureVectorTable(db.profiles[p]);
        if r.Err? {
          db := saved;
          return;
        }
        assert codeProfiles[..i + 1] == codeProfiles[..i] + [p];
      }
      assert codeProfiles[..|codeProfiles|] == codeProfiles;
      EmptiedIsSound(db);
      db := Emptied(db);
      return Ok(());
    }
  }

  function Emptied(db: Db): Db {
    db.(files := map[], chunks := map[], entries := map[], tables := map d | d in db.tables :: db.tables[d].(rows := map[]))
  }

  lemma EmptiedIsSound(db: Db)
    requires Sound(db)
    ensures Sound(Emptied(db)) && (forall d :: RowsOf(Emptied(db), d) == map[])
    ensures forall d :: CurrentTable(Emptied(db), d) <==> CurrentTable(db, d)
  {
    var now := Emptied(db);
    forall p | p in now.markers && CurrentTable(now, now.profiles[p])
      ensures Complete(now, p)
    {
      assert EntriesOf(now, p) == {};
    }
  }

  // ---------------------------------------------------------------- several profiles

  /** Tables may have been made anew; what that withdraws is what `Ensured` says. */
  ghost predicate TablesEnsured(before: Db, now: Db)
    requires WellFormed(before)
  {
    && WellFormed(now) && SameSource(before, now) && now.entries == before.entries
    && (Sound(before) ==> Sound(now))
    && (forall q :: q in before.profiles ==> (SparedRowsHold(now, q) <==> SparedRowsHold(before, q)))
    && (forall d :: CurrentTable(before, d) ==> CurrentTable(now, d))
    && (forall d :: RowsOf(now, d) == RowsOf(before, d) || (!CurrentTable(before, d) && RowsOf(now, d) == map[]))
  }

  lemma EnsuredShape(db: Db, d: nat)
    requires WellFormed(db)
    ensures var now := Ensured(db, d);
            && WellFormed(now) && SameSource(db, now) && now.entries == db.entries
            && (forall x :: CurrentTable(now, x) <==> CurrentTable(db, x) || x == d)
            && (forall x :: RowsOf(now, x) == if x == d && !CurrentTable(db, d) then map[] else RowsOf(db, x))
  {
  }

  lemma EnsuredToo(before: Db, now: Db, d: nat)
    requires WellFormed(before) && TablesEnsured(before, now)
    ensures TablesEnsured(before, Ensured(now, d))
  {
    EnsuredShape(now, d);
    if Sound(before) {
      EnsuredIsSound(now, d);
    }
    forall q | q in before.profiles
      ensures SparedRowsHold(Ensured(now, d), q) <==> SparedRowsHold(now, q)
    {
      SparedRowsHoldEnsured(now, d, q);
    }
    hide Ensured, SparedRowsHold, Sound, WellFormed, CurrentTable, RowsOf;
  }

  /** The index of the profile is audited, and exhaustive exactly if no spared row was wrong. */
  ghost predicate Repaired(before: Db, now: Db, p: int)
    requires WellFormed(before) && p in before.profiles
  {
    Audited(now, p) && (Exhaustive(now, p) <==> SparedRowsHold(before, p))
  }

  /** The first `i` profiles are repaired; of the others the spared rows are as good as before. */
  ghost predicate RepairedUpTo(before: Db, now: Db, profiles: seq<int>, i: nat)
    requires WellFormed(before) && forall p :: p in profiles ==> p in before.profiles
  {
    && i <= |profiles| && WellFormed(now) && SameSource(before, now) && (Sound(before) ==> Sound(now))
    && (forall k :: 0 <= k < |profiles| ==> RepairedAt(before, now, profiles[k], k < i))
  }

  ghost predicate RepairedAt(before: Db, now: Db, p: int, done: bool)
    requires WellFormed(before) && WellFormed(now) && SameSource(before, now) && p in before.profiles
  {
    && CurrentTable(now, now.profiles[p])
    && if done then Repaired(before, now, p) else SparedRowsHold(now, p) <==> SparedRowsHold(before, p)
  }

  /** Repairing `p` completes `p` and leaves every other profile `q` as it was. */
  lemma RepairedStep(before: Db, start: Db, now: Db, p: int, q: int, done: bool)
    requires WellFormed(before) && p in before.profiles && q in before.profiles
    requires WellFormed(start) && SameSource(before, start)
    requires RepairedAt(before, start, q, done) && (q == p ==> !done)
    requires SyncOutcome(start, start, now, p, start.profiles[p], Ok(())) && OthersUntouched(start, now, p)
    ensures RepairedAt(before, now, q, done || q == p)
  {
    if q != p {
      if done {
        AuditedStill(start, now, p, q);
      } else {
        SparedRowsHoldStill(start, now, p, q);
      }
    }
  }

  lemma RepairedNext(before: Db, start: Db, now: Db, profiles: seq<int>, i: nat)
    requires WellFormed(before) && Collections.Distinct(profiles) && forall p :: p in profiles ==> p in before.profiles
    requires i < |profiles| && RepairedUpTo(before, start, profiles, i)
    requires SyncOutcome(start, start, now, profiles[i], start.profiles[profiles[i]], Ok(()))
    requires OthersUntouched(start, now, profiles[i])
    ensures RepairedUpTo(before, now, profiles, i + 1)
  {
    assert WellFormed(now);
    hide RepairedAt, OthersUntouched, Sound;
    forall k | 0 <= k < |profiles|
      ensures RepairedAt(before, now, profiles[k], k < i + 1)
    {
      RepairedStep(before, start, now, profiles[i], profiles[k], k < i);
    }
  }

  lemma CleanedIsReady(before: Db, cleaned: Db, p: int, d: nat)
    requires WellFormed(before) && p in before.profiles && before.profiles[p] == d && CurrentTable(before, d)
    requires IsCleaned(before, cleaned, p, d)
    ensures WellFormed(cleaned) && CurrentTable(cleaned, d)
    ensures cleaned.profiles == before.profiles && cleaned.markers == before.markers
    ensures WellPlaced(before) ==> WellPlaced(cleaned)
  {
    if WellPlaced(before) {
      CleanedIsPlaced(before, cleaned, p, d);
    }
  }

  /** A row in the way has no entry, and so was misplaced from the start. */
  lemma AuditFails(before: Db, cleaned: Db, p: int, d: nat)
    requires WellFormed(before) && p in before.profiles && before.profiles[p] == d && CurrentTable(before, d)
    requires IsCleaned(before, cleaned, p, d)
    requires exists id :: id in cleaned.tables[d].rows && id !in cleaned.entries
    ensures SyncOutcome(before, before, before, p, d, Err(RowIdTaken)) && !WellPlaced(before)
  {
    var id :| id in cleaned.tables[d].rows && id !in cleaned.entries;
    assert id in RowsOf(before, d) && id !in before.entries;
  }

  lemma GrownIsReady(cleaned: Db, grown: Db, p: int, d: nat)
    requires WellFormed(cleaned) && p in cleaned.profiles && cleaned.profiles[p] == d && CurrentTable(cleaned, d)
    requires Grown(cleaned, grown, p, d, MissingChunks(cleaned, p))
    ensures WellFormed(grown) && CurrentTable(grown, d)
    ensures grown.profiles == cleaned.profiles && grown.markers == cleaned.markers
    ensures WellPlaced(cleaned) ==> WellPlaced(grown)
  {
    if WellPlaced(cleaned) {
      GrownIsPlaced(cleaned, grown, p, d);
    }
  }

  lemma RestoredMarkers(grown: Db, p: int, d: nat)
    requires WellFormed(grown) && p in grown.profiles && CurrentTable(grown, d)
    ensures Restored(grown, p, d, LostRows(grown, p, d)).markers == grown.markers
  {
  }

  lemma AuditedOutcome(before: Db, cleaned: Db, grown: Db, p: int, d: nat, now: Db)
    requires WellFormed(before) && p in before.profiles && before.profiles[p] == d && CurrentTable(before, d)
    requires IsCleaned(before, cleaned, p, d)
    requires Grown(cleaned, grown, p, d, MissingChunks(cleaned, p))
    requires now == Restored(grown, p, d, LostRows(grown, p, d)).(markers := grown.markers + {p})
    ensures SyncOutcome(before, before, now, p, d, Ok(()))
    ensures CurrentTable(now, d) && OthersUntouched(before, now, p)
  {
    RepairLeavesOthers(before, cleaned, grown, p, d, now);
    RestoredIsAudited(before, cleaned, grown, p, d, now);
    RepairIsExhaustiveIff(before, cleaned, grown, p, d, now);
    RepairKeepsOthers(before, cleaned, grown, p, d);
    if Sound(before) {
      CleanedIsSound(before, cleaned, p, d);
      RestoredIsSound(cleaned, grown, p, d, now);
    }
  }

  lemma OrphansWereThere(before: Db, now: Db, p: int, d: nat, done: set<int>)
    requires WellFormed(before) && d in before.tables && done <= MissingChunks(before, p) && Grown(before, now, p, d, done)
    ensures now.tables[d].partitioned == before.tables[d].partitioned
    ensures forall id :: id in now.tables[d].rows && id !in now.entries ==> id in before.tables[d].rows && id !in before.entries
  {
  }

  lemma OutcomeSinceEnsured(before: Db, ensured: Db, now: Db, p: int, d: nat, r: Result<(), Failure>)
    requires WellFormed(before) && p in before.profiles && before.profiles[p] == d && ensured == Ensured(before, d)
    requires SyncOutcome(ensured, ensured, now, p, d, r)
    requires Sound(before) ==> Sound(ensured)
    ensures SyncOutcome(before, ensured, now, p, d, r)
  {
  }

  lemma RefreshGrown(before: Db, pruned: Db, now: Db, p: int, d: nat, placed: bool)
    requires WellFormed(before) && p in before.profiles && before.profiles[p] == d && d in before.tables
    requires pruned == PrunedIneligible(before, p, d) && WellFormed(pruned) && Sound(pruned) && !HasIneligible(pruned, p)
    requires placed ==> WellPlaced(pruned)
    requires Grown(pruned, now, p, d, MissingChunks(pruned, p))
    ensures Sound(now) && !Unmaterialized(now, p) && !HasIneligible(now, p)
    ensures now.markers == before.markers && d in now.tables && now.tables[d].partitioned == before.tables[d].partitioned
    ensures OthersKept(before, now, p) && forall x :: CurrentTable(now, x) <==> CurrentTable(before, x)
    ensures placed ==> WellPlaced(now)
  {
    GrownIsSound(pruned, now, p, d);
    if placed {
      GrownIsPlaced(pruned, now, p, d);
    }
    hide Eligible, HasEntry, Faithful, Complete, WellPlaced, MissingChunks;
  }

  lemma RestoresNothing(db: Db, p: int, d: nat)
    requires WellFormed(db) && d in db.tables
    ensures Restored(db, p, d, {}) == db
  {
    assert db.tables[d].rows + map[] == db.tables[d].rows;
    assert db.tables[d := db.tables[d]] == db.tables;
  }

  lemma RestoresByOne(before: Db, p: int, d: nat, done: set<int>, e: int)
    requires WellFormed(before) && d in before.tables && done <= LostRows(before, p, d) && e in LostRows(before, p, d)
    ensures var db := Restored(before, p, d, done);
            Restored(before, p, d, done + {e}) == WithRows(db, d, db.tables[d].rows[e := NewRow(before, before.entries[e].chunk, p)])
  {
    var some := map x | x in done :: NewRow(before, before.entries[x].chunk, p);
    var row := NewRow(before, before.entries[e].chunk, p);
    assert (map x | x in done + {e} :: NewRow(before, before.entries[x].chunk, p)) == some[e := row];
    OneMoreRow(before.tables[d].rows, some, e, row);
    hide WellFormed, Eligible;
  }

  lemma OneMoreRow(rows: map<int, VectorRow>, some: map<int, VectorRow>, e: int, row: VectorRow)
    ensures rows + some[e := row] == (rows + some)[e := row]
  {
  }

  lemma NewProfileIsSound(db: Db, p: int, d: nat)
    requires Sound(db) && p !in db.profiles
    ensures Sound(db.(profiles := db.profiles[p := d]))
  {
    var now := db.(profiles := db.profiles[p := d]);
    assert WellFormed(now);
    forall e | e in now.entries
      ensures Expected(now, e) == Expected(db, e) && now.profiles[now.entries[e].profile] == db.profiles[db.entries[e].profile]
    {
    }
    forall q | q in now.markers && CurrentTable(now, now.profiles[q])
      ensures Complete(now, q)
    {
      assert EntriesOf(now, q) == EntriesOf(db, q);
      assert Complete(db, q);
    }
  }

  /** The profile is marked, its table is obsolete, and no repair was asked for. */
  predicate LeftObsolete(db: Db, p: int, repair: bool)
    requires p in db.profiles
  {
    !repair && p in db.markers && db.profiles[p] in db.tables && !db.tables[db.profiles[p]].partitioned
  }

  /** What was materialized before stays so when another profile is. */
  lemma MaterializedToo(before: Db, now: Db, p: int, others: seq<int>)
    requires WellFormed(before) && WellFormed(now) && SameSource(before, now) && OthersKept(before, now, p)
    requires !Unmaterialized(now, p) && !HasIneligible(now, p)
    requires forall q :: q in others ==> !Unmaterialized(before, q) && !HasIneligible(before, q)
    ensures forall q :: q in others ==> !Unmaterialized(now, q) && !HasIneligible(now, q)
  {
    forall q | q in others && q != p
      ensures !Unmaterialized(now, q) && !HasIneligible(now, q)
    {
      MaterializedStill(before, now, p, q);
    }
  }

  // ---------------------------------------------------------------- retagging

  function Retagged(db: Db, id: int, origin: string): Db
    requires id in db.files
  {
    db.(files := db.files[id := db.files[id].(origin := origin)])
  }

  lemma RetaggedIsSound(db: Db, id: int, origin: string)
    requires Sound(db) && id in db.files
    ensures Sound(Retagged(db, id, origin))
  {
    var now := Retagged(db, id, origin);
    forall e | e in now.entries
      ensures Expected(now, e) == Expected(db, e)
    {
    }
    forall p | p in now.markers && CurrentTable(now, now.profiles[p])
      ensures Complete(now, p)
    {
      assert EntriesOf(now, p) == EntriesOf(db, p);
    }
  }

  /**
   * Retagging leaves readiness alone, and the partition keys of an audited profile
   * survive it exactly when the origin did not change or nothing of the file is indexed.
   */
  lemma RetagKeepsKeysIff(db: Db, p: int, id: int, origin: string)
    requires Audited(db, p) && id in db.files
    ensures Ready(Retagged(db, id, origin), p).Ok?
    ensures WellFormed(Retagged(db, id, origin)) && (
      KeysMatch(Retagged(db, id, origin), p) <==>
      origin == db.files[id].origin || forall e :: e in EntriesOf(db, p) ==> e !in EntriesOfFile(db, id))
  {
    var now := Retagged(db, id, origin);
    assert EntriesOf(now, p) == EntriesOf(db, p);
    assert WellFormed(now);
    forall c | c in now.chunks
      ensures Eligible(now, c) == Eligible(db, c) && HasEntry(now, c, p) == HasEntry(db, c, p)
    {
    }
    forall e | e in EntriesOf(db, p)
      ensures e in RowsOf(db, db.profiles[p])
      ensures FileOf(now, e) == if e in EntriesOfFile(db, id) then FileOf(db, e).(origin := origin) else FileOf(db, e)
    {
      assert RowsOf(db, db.profiles[p])[e].profile == p;
    }
  }

  // ---------------------------------------------------------------- file deletion

  function ChunksOf(db: Db, id: int): set<int> {
    set c | c in db.chunks && db.chunks[c].file == id
  }

  function EntriesOfFile(db: Db, id: int): set<int> {
    set e | e in db.entries && db.entries[e].chunk in db.chunks && db.chunks[db.entries[e].chunk].file == id
  }

  /** The dimension of the table in which the entry has its row. */
  function DimensionOf(db: Db, e: int): nat
    requires WellFormed(db) && e in db.entries
  {
    db.profiles[db.entries[e].profile]
  }

  function GoneFrom(db: Db, gone: set<int>, d: nat): set<int>
    requires WellFormed(db)
  {
    set e | e in gone && e in db.entries && DimensionOf(db, e) == d
  }

  /** A table in which something is deleted and that was obsolete, or missing, is made anew. */
  predicate MadeAnew(db: Db, gone: set<int>, d: nat)
    requires WellFormed(db)
  {
    !CurrentTable(db, d) && GoneFrom(db, gone, d) != {}
  }

  /** The rows of the `gone` entries are out of their tables, and no other row of a table that stays. */
  ghost predicate Detaching(before: Db, now: Db, gone: set<int>)
    requires WellFormed(before)
  {
    && now == before.(tables := now.tables, markers := now.markers)
    && gone <= before.entries.Keys
    && (forall d :: RowsOf(now, d) == if MadeAnew(before, gone, d) then map[] else RowsOf(before, d) - GoneFrom(before, gone, d))
    && (forall d :: CurrentTable(now, d) <==> CurrentTable(before, d) || MadeAnew(before, gone, d))
    && (forall p :: p in now.markers <==> p in before.markers && !MadeAnew(before, gone, before.profiles[p]))
  }

  lemma DetachesByOne(before: Db, start: Db, gone: set<int>, e: int, d: nat, now: Db, ensured: Db)
    requires WellFormed(before) && e in before.entries && d == DimensionOf(before, e)
    requires Detaching(before, start, gone) && ensured == Ensured(start, d)
    requires d in ensured.tables && now == WithRows(ensured, d, ensured.tables[d].rows - {e})
    ensures Detaching(before, now, gone + {e})
  {
    assert GoneFrom(before, gone + {e}, d) == GoneFrom(before, gone, d) + {e};
    forall x: nat | x != d
      ensures GoneFrom(before, gone + {e}, x) == GoneFrom(before, gone, x)
    {
    }
  }

  function WithoutFile(db: Db, id: int): Db {
    db.(files := db.files - {id}, chunks := db.chunks - ChunksOf(db, id), entries := db.entries - EntriesOfFile(db, id))
  }

  lemma DetachedIsSound(before: Db, now: Db, id: int)
    requires Sound(before) && Detaching(before, now, EntriesOfFile(before, id))
    ensures Sound(WithoutFile(now, id))
  {
    var after := WithoutFile(now, id);
    var gone := EntriesOfFile(before, id);
    assert EntriesOfFile(now, id) == gone;
    assert forall p :: p in now.markers ==> p in before.markers;
    assert WellFormed(after);
    forall e | e in after.entries
      ensures Expected(after, e) == Expected(before, e)
    {
    }
    forall p | p in after.markers && CurrentTable(after, after.profiles[p])
      ensures Complete(after, p)
    {
      assert Complete(before, p);
      var rows := RowsOf(after, after.profiles[p]);
      forall e
        ensures (e in rows && rows[e].profile == p) <==> e in EntriesOf(after, p)
      {
        assert e in EntriesOf(after, p) <==> e in EntriesOf(before, p) && e !in gone;
      }
    }
  }

  // ---------------------------------------------------------------- what synchronization misses

  /** One indexed chunk, whose row holds `stored`. */
  function Sample(stored: Vector): Db {
    Db(map[1 := File(true, "typescript", "repository")], map[1 := Chunk(1, "hash")], map[1 := 1],
       map[("hash", 1) := [5]], map[1 := Entry(1, 1)],
       map[1 := Table(true, map[1 := VectorRow(stored, 1, "repository", "typescript")])], {1})
  }

  lemma SampleIsAudited(stored: Vector)
    ensures Audited(Sample(stored), 1) && GoodRow(Sample(stored), 1, 1, 1) && Ready(Sample(stored), 1).Ok?
    ensures NoForeignOrphans(Sample(stored), 1, 1) && Expected(Sample(stored), 1) == [5]
  {
    var db := Sample(stored);
    assert EntriesOf(db, 1) == {1};
    assert db.entries[1] == Entry(1, 1);
  }

  /** A row that holds the wrong vector is still there after a repair, and the profile is ready. */
  method RepairKeepsWrongVector() returns (c: Connection, r: Result<(), Failure>)
    ensures fresh(c) && r.Ok? && SyncOutcome(Sample([6]), Sample([6]), c.db, 1, 1, r)
    ensures Audited(c.db, 1) && Ready(c.db, 1).Ok? && !Exhaustive(c.db, 1)
  {
    c := new Connection();
    c.db := Sample([6]);
    SampleIsAudited([6]);
    r := c.SyncVectorIndex(1);
    WrongVectorStays(c.db);
  }

  lemma WrongVectorStays(now: Db)
    requires SyncOutcome(Sample([6]), Sample([6]), now, 1, 1, Ok(()))
    ensures Ready(now, 1).Ok? && !Exhaustive(now, 1)
  {
    SampleIsAudited([6]);
    assert RowsOf(Sample([6]), 1)[1].vector != Expected(Sample([6]), 1);
    assert !SparedRowsHold(Sample([6]), 1);
  }

  /** A file that becomes part of a workspace package leaves a ready profile with a stale key. */
  lemma RetagLosesKeys()
    ensures Audited(Sample([5]), 1)
    ensures
      var now := Retagged(Sample([5]), 1, "workspace");
      Ready(now, 1).Ok? && WellFormed(now) && !KeysMatch(now, 1)
  {
    SampleIsAudited([5]);
    RetagKeepsKeysIff(Sample([5]), 1, 1, "workspace");
    assert 1 in EntriesOf(Sample([5]), 1) && 1 in EntriesOfFile(Sample([5]), 1);
  }
}
