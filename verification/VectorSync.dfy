/** What materialization and the full audit make of the vector index. */
module VectorSync {
  import opened Wrappers
  import opened VectorIndex
  import Collections

  // ---------------------------------------------------------------- materialization

  function MissingChunks(db: Db, p: int): set<int>
    requires WellFormed(db)
  {
    set c | c in db.chunks && Eligible(db, c) && (db.chunks[c].hash, p) in db.cache && !HasEntry(db, c, p)
  }

  function NewRow(db: Db, c: int, p: int): VectorRow
    requires c in db.chunks && db.chunks[c].file in db.files && (db.chunks[c].hash, p) in db.cache
  {
    var f := db.files[db.chunks[c].file];
    VectorRow(db.cache[(db.chunks[c].hash, p)], p, f.origin, f.format)
  }

  /** Only entries and the rows of one table may differ. */
  ghost predicate SameButOccurrences(before: Db, now: Db, d: nat)
    requires d in before.tables
  {
    && d in now.tables
    && now == before.(entries := now.entries, tables := before.tables[d := before.tables[d].(rows := now.tables[d].rows)])
  }

  /** `done` chunks gained an entry and a row; nothing else changed. */
  ghost predicate Grown(before: Db, now: Db, p: int, d: nat, done: set<int>)
    requires WellFormed(before) && d in before.tables && done <= MissingChunks(before, p)
  {
    && OccurrencesGrown(before, now, p, d, done) && WellFormed(now)
    && (forall c :: c in done ==> HasEntry(now, c, p))
  }

  /** The two inserts for one chunk. */
  function Inserted(db: Db, c: int, p: int, d: nat, id: int): Db
    requires c in db.chunks && db.chunks[c].file in db.files && (db.chunks[c].hash, p) in db.cache && d in db.tables
  {
    WithRows(db, d, db.tables[d].rows[id := NewRow(db, c, p)]).(entries := db.entries[id := Entry(c, p)])
  }

  lemma GrowsByOne(before: Db, now: Db, p: int, d: nat, done: set<int>, c: int, id: int)
    requires WellFormed(before) && d in before.tables && p in before.profiles
    requires done <= MissingChunks(before, p) && c in MissingChunks(before, p) - done
    requires Grown(before, now, p, d, done)
    requires id !in now.entries && id !in now.tables[d].rows
    ensures Grown(before, Inserted(now, c, p, d, id), p, d, done + {c})
  {
    var after := Inserted(now, c, p, d, id);
    StillMissing(before, now, p, d, done, c);
    InsertedIsWellFormed(now, c, p, d, id);
    OccurrencesByOne(before, now, p, d, done, c, id);
    assert after.entries[id] == Entry(c, p);
    forall x | x in done + {c}
      ensures HasEntry(after, x, p)
    {
      if x in done {
        HasEntryStill(now, after, x, p);
      }
    }
  }

  /** Old entries and rows are kept, and the new ones belong together. */
  ghost predicate OccurrencesGrown(before: Db, now: Db, p: int, d: nat, done: set<int>)
    requires WellFormed(before) && d in before.tables && done <= MissingChunks(before, p)
  {
    && SameButOccurrences(before, now, d)
    && (forall e :: e in before.entries ==> e in now.entries && now.entries[e] == before.entries[e])
    && (forall e :: e in now.entries && e !in before.entries ==>
          && now.entries[e].profile == p && now.entries[e].chunk in done
          && e in now.tables[d].rows && now.tables[d].rows[e] == NewRow(before, now.entries[e].chunk, p))
    && (forall r :: r in before.tables[d].rows ==> r in now.tables[d].rows && now.tables[d].rows[r] == before.tables[d].rows[r])
    && (forall r :: r in now.tables[d].rows && r !in before.tables[d].rows ==> r in now.entries && r !in before.entries)
  }

  lemma OccurrencesByOne(before: Db, now: Db, p: int, d: nat, done: set<int>, c: int, id: int)
    requires WellFormed(before) && d in before.tables && p in before.profiles
    requires done <= MissingChunks(before, p) && c in MissingChunks(before, p) - done
    requires OccurrencesGrown(before, now, p, d, done)
    requires id !in now.entries && id !in now.tables[d].rows
    ensures OccurrencesGrown(before, Inserted(now, c, p, d, id), p, d, done + {c})
  {
    hide Eligible, HasEntry;
    assert NewRow(now, c, p) == NewRow(before, c, p);
  }

  lemma HasEntryStill(now: Db, after: Db, x: int, p: int)
    requires forall e :: e in now.entries ==> e in after.entries && after.entries[e] == now.entries[e]
    requires HasEntry(now, x, p)
    ensures HasEntry(after, x, p)
  {
    var e :| e in now.entries && now.entries[e] == Entry(x, p);
    assert e in after.entries && after.entries[e] == Entry(x, p);
  }

  lemma StillMissing(before: Db, now: Db, p: int, d: nat, done: set<int>, c: int)
    requires WellFormed(before) && d in before.tables
    requires done <= MissingChunks(before, p) && c in MissingChunks(before, p) - done
    requires Grown(before, now, p, d, done)
    ensures !HasEntry(now, c, p)
  {
    forall e | e in now.entries
      ensures now.entries[e] != Entry(c, p)
    {
      assert e in before.entries ==> before.entries[e] != Entry(c, p);
    }
  }

  lemma InsertedIsWellFormed(now: Db, c: int, p: int, d: nat, id: int)
    requires WellFormed(now) && d in now.tables && p in now.profiles && id !in now.entries
    requires c in now.chunks && (now.chunks[c].hash, p) in now.cache && !HasEntry(now, c, p)
    ensures WellFormed(Inserted(now, c, p, d, id))
  {
  }

  /** Materialization keeps the index sound and leaves nothing missing. */
  lemma GrownIsSound(before: Db, now: Db, p: int, d: nat)
    requires WellFormed(before) && p in before.profiles && before.profiles[p] == d && d in before.tables
    requires Grown(before, now, p, d, MissingChunks(before, p))
    ensures !Unmaterialized(now, p)
    ensures !HasIneligible(before, p) ==> !HasIneligible(now, p)
    ensures Sound(before) ==> Sound(now)
  {
    forall c | c in now.chunks && Eligible(now, c) && (now.chunks[c].hash, p) in now.cache
      ensures HasEntry(now, c, p)
    {
      if HasEntry(before, c, p) {
        HasEntryStill(before, now, c, p);
      } else {
        assert c in MissingChunks(before, p);
      }
    }
    forall e | e in now.entries && now.entries[e].profile == p && !HasIneligible(before, p)
      ensures Eligible(now, now.entries[e].chunk)
    {
      if e in before.entries {
        assert Eligible(before, before.entries[e].chunk);
      } else {
        assert now.entries[e].chunk in MissingChunks(before, p);
      }
    }
    if Sound(before) {
      GrownStaysComplete(before, now, p, d);
      GrownStaysFaithful(before, now, p, d);
    }
  }

  lemma GrownStaysFaithful(before: Db, now: Db, p: int, d: nat)
    requires WellFormed(before) && p in before.profiles && before.profiles[p] == d && d in before.tables
    requires Grown(before, now, p, d, MissingChunks(before, p)) && Faithful(before)
    ensures Faithful(now)
  {
    forall e | e in now.entries && CurrentTable(now, now.profiles[now.entries[e].profile])
      ensures var rows := RowsOf(now, now.profiles[now.entries[e].profile]);
              e in rows && rows[e].profile == now.entries[e].profile ==> rows[e].vector == Expected(now, e)
    {
      if e !in before.entries {
        assert now.tables[d].rows[e] == NewRow(before, now.entries[e].chunk, p);
      } else {
        assert Expected(now, e) == Expected(before, e);
        assert e in now.tables[d].rows ==> e in before.tables[d].rows;
      }
    }
  }

  lemma GrownStaysComplete(before: Db, now: Db, p: int, d: nat)
    requires Sound(before) && p in before.profiles && before.profiles[p] == d && d in before.tables
    requires Grown(before, now, p, d, MissingChunks(before, p))
    ensures forall q :: q in now.markers && CurrentTable(now, now.profiles[q]) ==> Complete(now, q)
  {
    forall q | q in now.markers && CurrentTable(now, now.profiles[q])
      ensures Complete(now, q)
    {
      GrownKeepsComplete(before, now, p, d, q);
    }
  }

  lemma GrownKeepsComplete(before: Db, now: Db, p: int, d: nat, q: int)
    requires WellFormed(before) && p in before.profiles && before.profiles[p] == d && d in before.tables
    requires Grown(before, now, p, d, MissingChunks(before, p))
    requires q in before.profiles && Complete(before, q)
    ensures Complete(now, q)
  {
    var rows, oldRows := RowsOf(now, now.profiles[q]), RowsOf(before, before.profiles[q]);
    forall e
      ensures (e in rows && rows[e].profile == q) <==> e in EntriesOf(now, q)
    {
      assert e in EntriesOf(before, q) <==> e in oldRows && oldRows[e].profile == q;
      if e in now.entries && e !in before.entries {
        assert now.tables[d].rows[e] == NewRow(before, now.entries[e].chunk, p);
        assert e !in EntriesOf(before, q);
        if before.profiles[q] != d {
          assert rows == oldRows;
        }
      }
    }
  }

  // ---------------------------------------------------------------- the audit of a full sync

  /** All deletions of a full sync: ineligible, mispartitioned and orphaned rows. */
  function Cleaned(db: Db, p: int, d: nat): Db
    requires WellFormed(db) && d in db.tables
  {
    var pruned := PrunedIneligible(db, p, d);
    var keyed := WithRows(pruned, d, pruned.tables[d].rows - Mispartitioned(pruned, p, d));
    WithRows(keyed, d, keyed.tables[d].rows - Orphans(keyed, p, d))
  }

  /** A row that the deletions of a full sync spare. */
  predicate GoodRow(db: Db, p: int, d: nat, e: int)
    requires WellFormed(db)
  {
    && e in EntriesOf(db, p) && Eligible(db, db.entries[e].chunk) && e in RowsOf(db, d)
    && var row := RowsOf(db, d)[e];
       row.profile == p && row.origin == FileOf(db, e).origin && row.format == FileOf(db, e).format
  }

  /** No row that a full sync of `p` will spare holds anything but the cached embedding. */
  ghost predicate SparedRowsHold(db: Db, p: int)
    requires WellFormed(db) && p in db.profiles
  {
    var d := db.profiles[p];
    CurrentTable(db, d) ==> forall e :: GoodRow(db, p, d, e) ==> RowsOf(db, d)[e].vector == Expected(db, e)
  }

  /** Entries of other profiles are neither lost nor gained. */
  ghost predicate OthersKept(before: Db, now: Db, p: int) {
    && (forall e :: e in before.entries && before.entries[e].profile != p ==> e in now.entries && now.entries[e] == before.entries[e])
    && (forall e :: e in now.entries && now.entries[e].profile != p ==> e in before.entries && now.entries[e] == before.entries[e])
  }

  /** What the deletions of a full sync leave behind, whatever they started from. */
  ghost predicate IsCleaned(before: Db, now: Db, p: int, d: nat)
    requires WellFormed(before) && p in before.profiles && d in before.tables
  {
    && SameButOccurrences(before, now, d)
    && WellFormed(now)
    && now.entries == before.entries - IneligibleEntries(before, p)
    && !HasIneligible(now, p)
    && (forall r :: r in now.tables[d].rows ==> r in before.tables[d].rows && now.tables[d].rows[r] == before.tables[d].rows[r])
    && (forall r :: r in now.tables[d].rows && now.tables[d].rows[r].profile == p ==> r in EntriesOf(now, p))
    && (forall e :: e in EntriesOf(now, p) && e in now.tables[d].rows ==>
          var row := now.tables[d].rows[e];
          row.profile == p && row.origin == FileOf(now, e).origin && row.format == FileOf(now, e).format)
    && (forall r :: r in before.tables[d].rows && before.tables[d].rows[r].profile != p && r !in EntriesOf(before, p) ==>
          r in now.tables[d].rows)
    && (forall r :: r in now.tables[d].rows && r !in now.entries ==> r !in before.entries && before.tables[d].rows[r].profile != p)
    && (forall e :: GoodRow(before, p, d, e) ==> e in now.tables[d].rows)
  }

  /** Dropping entries, and any change to tables, keeps the schema. */
  lemma FewerEntries(db: Db, gone: set<int>, tables: map<nat, Table>)
    requires WellFormed(db)
    ensures WellFormed(db.(entries := db.entries - gone, tables := tables))
  {
  }

  lemma NoneIneligible(db: Db, now: Db, p: int)
    requires WellFormed(db) && WellFormed(now) && now.chunks == db.chunks && now.files == db.files
    requires now.entries == db.entries - IneligibleEntries(db, p)
    ensures !HasIneligible(now, p)
  {
  }

  lemma CleanedShape(db: Db, p: int, d: nat, now: Db)
    requires WellFormed(db) && p in db.profiles && d in db.tables && now == Cleaned(db, p, d)
    ensures SameButOccurrences(db, now, d) && WellFormed(now)
    ensures now.entries == db.entries - IneligibleEntries(db, p)
    ensures forall r :: r in now.tables[d].rows ==> r in db.tables[d].rows && now.tables[d].rows[r] == db.tables[d].rows[r]
  {
    FewerEntries(db, IneligibleEntries(db, p), now.tables);
  }

  lemma CleanedIsCleaned(db: Db, p: int, d: nat)
    requires WellFormed(db) && p in db.profiles && d in db.tables
    ensures IsCleaned(db, Cleaned(db, p, d), p, d)
  {
    var pruned := PrunedIneligible(db, p, d);
    FewerEntries(db, IneligibleEntries(db, p), pruned.tables);
    var keyed := WithRows(pruned, d, pruned.tables[d].rows - Mispartitioned(pruned, p, d));
    FewerEntries(db, IneligibleEntries(db, p), keyed.tables);
    var now := Cleaned(db, p, d);
    CleanedShape(db, p, d, now);
    NoneIneligible(db, now, p);
    CleanedRows(db, pruned, keyed, now, p, d);
  }

  lemma CleanedRows(db: Db, pruned: Db, keyed: Db, now: Db, p: int, d: nat)
    requires WellFormed(db) && p in db.profiles && d in db.tables
    requires pruned == PrunedIneligible(db, p, d) && WellFormed(pruned)
    requires keyed == WithRows(pruned, d, pruned.tables[d].rows - Mispartitioned(pruned, p, d))
    requires now == WithRows(keyed, d, keyed.tables[d].rows - Orphans(keyed, p, d)) && WellFormed(now)
    ensures forall r :: r in now.tables[d].rows && now.tables[d].rows[r].profile == p ==> r in EntriesOf(now, p)
    ensures forall e :: e in EntriesOf(now, p) && e in now.tables[d].rows ==>
              var row := now.tables[d].rows[e];
              row.profile == p && row.origin == FileOf(now, e).origin && row.format == FileOf(now, e).format
    ensures forall r :: r in db.tables[d].rows && db.tables[d].rows[r].profile != p && r !in EntriesOf(db, p) ==>
              r in now.tables[d].rows
    ensures forall r :: r in now.tables[d].rows && r !in now.entries ==> r !in db.entries && db.tables[d].rows[r].profile != p
    ensures forall e :: GoodRow(db, p, d, e) ==> e in now.tables[d].rows
  {
    assert EntriesOf(keyed, p) == EntriesOf(now, p) == EntriesOf(pruned, p);
    forall e | e in EntriesOf(now, p) && e in now.tables[d].rows
      ensures var row := now.tables[d].rows[e];
              row.profile == p && row.origin == FileOf(now, e).origin && row.format == FileOf(now, e).format
    {
      assert e !in Mispartitioned(pruned, p, d);
    }
    forall r | r in now.tables[d].rows && r !in now.entries
      ensures r !in db.entries && db.tables[d].rows[r].profile != p
    {
      assert r !in Orphans(keyed, p, d);
    }
    forall e | GoodRow(db, p, d, e)
      ensures e in now.tables[d].rows
    {
      assert e in EntriesOf(keyed, p) && FileOf(pruned, e) == FileOf(db, e);
    }
  }

  /** Deleting rows of `p`, or rows at entries of `p`, disturbs no marked profile but `p`. */
  lemma CleanedIsSound(before: Db, now: Db, p: int, d: nat)
    requires Sound(before) && p in before.profiles && before.profiles[p] == d && d in before.tables
    requires IsCleaned(before, now, p, d)
    ensures Faithful(now)
    ensures forall q :: q in now.markers && q != p && CurrentTable(now, now.profiles[q]) ==> Complete(now, q)
  {
    forall q | q in now.markers && q != p && CurrentTable(now, now.profiles[q])
      ensures Complete(now, q)
    {
      assert Complete(before, q);
      forall e
        ensures (e in RowsOf(now, now.profiles[q]) && RowsOf(now, now.profiles[q])[e].profile == q) <==> e in EntriesOf(now, q)
      {
        assert e in EntriesOf(now, q) <==> e in EntriesOf(before, q);
        assert e in EntriesOf(before, q) ==> e !in EntriesOf(before, p);
      }
    }
  }

  /** Entries of `p` whose vector row was lost. */
  function LostRows(db: Db, p: int, d: nat): set<int>
    requires WellFormed(db) && d in db.tables
  {
    set e | e in db.entries && db.entries[e].profile == p && e !in db.tables[d].rows && Eligible(db, db.entries[e].chunk)
  }

  /** The rows that repair inserts for `some` of the lost ones. */
  function Restored(db: Db, p: int, d: nat, some: set<int>): Db
    requires WellFormed(db) && d in db.tables && some <= LostRows(db, p, d)
  {
    WithRows(db, d, db.tables[d].rows + map e | e in some :: NewRow(db, db.entries[e].chunk, p))
  }

  /** After a full sync: entries, rows and partition keys of the profile all agree. */
  ghost predicate Audited(db: Db, p: int) {
    && WellFormed(db)
    && p in db.markers && CurrentTable(db, db.profiles[p])
    && Complete(db, p) && KeysMatch(db, p)
    && !Unmaterialized(db, p) && !HasIneligible(db, p)
  }

  /** A row that was there before a sync and was left alone, or that holds the cached vector. */
  ghost predicate RowsKeptOrFresh(before: Db, now: Db, p: int)
    requires WellFormed(now) && p in now.profiles
  {
    var rows, was := RowsOf(now, now.profiles[p]), RowsOf(before, now.profiles[p]);
    forall e :: e in EntriesOf(now, p) && e in rows ==>
      rows[e].vector == Expected(now, e) || (e in was && was[e] == rows[e] && e in EntriesOf(before, p))
  }

  /** Where each row of the profile comes from once the lost ones are restored. */
  lemma RestoredRow(before: Db, cleaned: Db, grown: Db, p: int, d: nat, e: int)
    requires WellFormed(before) && p in before.profiles && before.profiles[p] == d && CurrentTable(before, d)
    requires IsCleaned(before, cleaned, p, d)
    requires Grown(cleaned, grown, p, d, MissingChunks(cleaned, p))
    requires e in EntriesOf(grown, p)
    ensures var rows := Restored(grown, p, d, LostRows(grown, p, d)).tables[d].rows;
            && e in rows && rows[e].profile == p
            && rows[e].origin == FileOf(grown, e).origin && rows[e].format == FileOf(grown, e).format
            && (rows[e].vector == Expected(grown, e)
                || (e in before.tables[d].rows && before.tables[d].rows[e] == rows[e] && e in EntriesOf(before, p)))
  {
    GrownIsSound(cleaned, grown, p, d);
    assert Eligible(grown, grown.entries[e].chunk);
    if e in cleaned.entries {
      assert e in EntriesOf(cleaned, p);
      assert FileOf(grown, e) == FileOf(cleaned, e);
      assert e in cleaned.tables[d].rows ==> grown.tables[d].rows[e] == cleaned.tables[d].rows[e];
      assert e !in cleaned.tables[d].rows ==> e !in grown.tables[d].rows;
    } else {
      assert grown.tables[d].rows[e] == NewRow(cleaned, grown.entries[e].chunk, p);
    }
  }

  lemma RestoredHasNoStrangers(before: Db, cleaned: Db, grown: Db, p: int, d: nat, r: int)
    requires WellFormed(before) && p in before.profiles && before.profiles[p] == d && d in before.tables
    requires IsCleaned(before, cleaned, p, d)
    requires Grown(cleaned, grown, p, d, MissingChunks(cleaned, p))
    requires var rows := Restored(grown, p, d, LostRows(grown, p, d)).tables[d].rows; r in rows && rows[r].profile == p
    ensures r in EntriesOf(grown, p)
  {
    if r in cleaned.tables[d].rows {
      assert r in EntriesOf(cleaned, p);
    }
  }

  lemma RestoredIsWellFormed(grown: Db, p: int, d: nat)
    requires WellFormed(grown) && p in grown.profiles && d in grown.tables
    ensures WellFormed(Restored(grown, p, d, LostRows(grown, p, d)).(markers := grown.markers + {p}))
  {
  }

  /** Each entry of the profile has a good row, and each row of the profile an entry. */
  ghost predicate RowsAgree(before: Db, now: Db, p: int, d: nat)
    requires WellFormed(now) && d in now.tables && d in before.tables
  {
    var rows, was := now.tables[d].rows, before.tables[d].rows;
    && (forall e :: e in EntriesOf(now, p) ==>
          && e in rows && rows[e].profile == p
          && rows[e].origin == FileOf(now, e).origin && rows[e].format == FileOf(now, e).format
          && (rows[e].vector == Expected(now, e) || (e in was && was[e] == rows[e] && e in EntriesOf(before, p))))
    && (forall r :: r in rows && rows[r].profile == p ==> r in EntriesOf(now, p))
  }

  lemma RestoredRowsAgree(before: Db, cleaned: Db, grown: Db, p: int, d: nat, now: Db)
    requires WellFormed(before) && p in before.profiles && before.profiles[p] == d && CurrentTable(before, d)
    requires IsCleaned(before, cleaned, p, d)
    requires Grown(cleaned, grown, p, d, MissingChunks(cleaned, p))
    requires now == Restored(grown, p, d, LostRows(grown, p, d)).(markers := grown.markers + {p})
    requires WellFormed(now)
    ensures RowsAgree(before, now, p, d)
  {
    assert EntriesOf(now, p) == EntriesOf(grown, p);
    forall e | e in EntriesOf(now, p)
      ensures e in now.tables[d].rows && now.tables[d].rows[e].profile == p
      ensures now.tables[d].rows[e].origin == FileOf(now, e).origin && now.tables[d].rows[e].format == FileOf(now, e).format
      ensures now.tables[d].rows[e].vector == Expected(now, e)
           || (e in before.tables[d].rows && before.tables[d].rows[e] == now.tables[d].rows[e] && e in EntriesOf(before, p))
    {
      RestoredRow(before, cleaned, grown, p, d, e);
    }
    forall r | r in now.tables[d].rows && now.tables[d].rows[r].profile == p
      ensures r in EntriesOf(now, p)
    {
      RestoredHasNoStrangers(before, cleaned, grown, p, d, r);
    }
  }

  lemma RestoredIsAudited(before: Db, cleaned: Db, grown: Db, p: int, d: nat, now: Db)
    requires WellFormed(before) && p in before.profiles && before.profiles[p] == d && CurrentTable(before, d)
    requires IsCleaned(before, cleaned, p, d)
    requires Grown(cleaned, grown, p, d, MissingChunks(cleaned, p))
    requires now == Restored(grown, p, d, LostRows(grown, p, d)).(markers := grown.markers + {p})
    ensures Audited(now, p) && RowsKeptOrFresh(before, now, p)
  {
    GrownIsSound(cleaned, grown, p, d);
    RestoredIsWellFormed(grown, p, d);
    RestoredRowsAgree(before, cleaned, grown, p, d, now);
    AgreementIsAudited(before, grown, now, p, d);
  }

  lemma AgreementIsAudited(before: Db, grown: Db, now: Db, p: int, d: nat)
    requires WellFormed(grown) && p in grown.profiles && grown.profiles[p] == d && CurrentTable(grown, d) && d in before.tables
    requires !Unmaterialized(grown, p) && !HasIneligible(grown, p)
    requires WellFormed(now) && CurrentTable(now, d) && p in now.markers
    requires now == grown.(tables := now.tables, markers := now.markers)
    requires RowsAgree(before, now, p, d)
    ensures Audited(now, p) && RowsKeptOrFresh(before, now, p)
  {
    assert Complete(now, p);
    assert KeysMatch(now, p);
    forall c | c in now.chunks && Eligible(now, c) && (now.chunks[c].hash, p) in now.cache
      ensures HasEntry(now, c, p)
    {
      assert Eligible(grown, c) && HasEntry(grown, c, p);
    }
    assert !HasIneligible(now, p) by {
      forall e | e in now.entries && now.entries[e].profile == p
        ensures Eligible(now, now.entries[e].chunk)
      {
        assert Eligible(grown, grown.entries[e].chunk);
      }
    }
  }

  lemma RestoredIsSound(cleaned: Db, grown: Db, p: int, d: nat, now: Db)
    requires WellFormed(cleaned) && Faithful(cleaned)
    requires forall q :: q in cleaned.markers && q != p && CurrentTable(cleaned, cleaned.profiles[q]) ==> Complete(cleaned, q)
    requires p in cleaned.profiles && cleaned.profiles[p] == d && CurrentTable(cleaned, d)
    requires Grown(cleaned, grown, p, d, MissingChunks(cleaned, p))
    requires now == Restored(grown, p, d, LostRows(grown, p, d)).(markers := grown.markers + {p}) && Audited(now, p)
    ensures Sound(now)
  {
    GrownStaysFaithful(cleaned, grown, p, d);
    forall q | q in now.markers && q != p && CurrentTable(now, now.profiles[q])
      ensures Complete(now, q)
    {
      GrownKeepsComplete(cleaned, grown, p, d, q);
      assert EntriesOf(now, q) == EntriesOf(grown, q);
      forall e
        ensures (e in RowsOf(now, now.profiles[q]) && RowsOf(now, now.profiles[q])[e].profile == q) <==> e in EntriesOf(now, q)
      {
        assert e in EntriesOf(grown, q) <==> e in RowsOf(grown, grown.profiles[q]) && RowsOf(grown, grown.profiles[q])[e].profile == q;
      }
    }
    forall e | e in now.entries && CurrentTable(now, now.profiles[now.entries[e].profile])
      ensures var rows := RowsOf(now, now.profiles[now.entries[e].profile]);
              e in rows && rows[e].profile == now.entries[e].profile ==> rows[e].vector == Expected(now, e)
    {
      assert Expected(now, e) == Expected(grown, e);
    }
  }

  /** An audited profile is exhaustive exactly when all its rows hold the cached embeddings. */
  lemma AuditedIsExhaustiveIff(now: Db, p: int)
    requires Audited(now, p)
    ensures Exhaustive(now, p) <==> forall e :: e in EntriesOf(now, p) ==> RowsOf(now, now.profiles[p])[e].vector == Expected(now, e)
  {
    var rows := RowsOf(now, now.profiles[p]);
    forall c | c in now.chunks && Eligible(now, c) && (now.chunks[c].hash, p) in now.cache
      ensures exists e :: e in rows && rows[e].profile == p && e in now.entries && now.entries[e] == Entry(c, p)
    {
      var e :| e in now.entries && now.entries[e] == Entry(c, p);
      assert e in EntriesOf(now, p);
    }
    forall e | e in rows && rows[e].profile == p
      ensures e in EntriesOf(now, p) && Eligible(now, now.entries[e].chunk)
    {
      assert e in EntriesOf(now, p);
    }
  }

  /** A spared row is in the repaired table as it was. */
  lemma GoodRowStays(before: Db, cleaned: Db, grown: Db, p: int, d: nat, e: int)
    requires WellFormed(before) && p in before.profiles && before.profiles[p] == d && CurrentTable(before, d)
    requires IsCleaned(before, cleaned, p, d)
    requires Grown(cleaned, grown, p, d, MissingChunks(cleaned, p))
    requires GoodRow(before, p, d, e)
    ensures var rows := Restored(grown, p, d, LostRows(grown, p, d)).tables[d].rows;
            e in EntriesOf(grown, p) && e in rows && rows[e] == before.tables[d].rows[e]
    ensures Expected(grown, e) == Expected(before, e)
  {
    assert e in cleaned.tables[d].rows;
    assert e in grown.tables[d].rows && e !in LostRows(grown, p, d);
  }

  /**
   * A full sync ends in an exhaustive index if and only if no row that its deletions
   * spare held a wrong vector when it began: vectors are compared with nothing.
   */
  lemma RepairIsExhaustiveIff(before: Db, cleaned: Db, grown: Db, p: int, d: nat, now: Db)
    requires WellFormed(before) && p in before.profiles && before.profiles[p] == d && CurrentTable(before, d)
    requires IsCleaned(before, cleaned, p, d)
    requires Grown(cleaned, grown, p, d, MissingChunks(cleaned, p))
    requires now == Restored(grown, p, d, LostRows(grown, p, d)).(markers := grown.markers + {p})
    requires Audited(now, p)
    ensures Exhaustive(now, p) <==> SparedRowsHold(before, p)
  {
    assert EntriesOf(now, p) == EntriesOf(grown, p);
    forall e | GoodRow(before, p, d, e)
      ensures SparedIn(before, now, p, d, e)
    {
      GoodRowStays(before, cleaned, grown, p, d, e);
    }
    forall e | e in EntriesOf(now, p) && RowsOf(now, d)[e].vector != Expected(now, e)
      ensures GoodRow(before, p, d, e) && SparedIn(before, now, p, d, e)
    {
      WrongRowWasGood(before, cleaned, grown, p, d, now, e);
      GoodRowStays(before, cleaned, grown, p, d, e);
    }
    SparedRowsDecide(before, now, p, d);
  }

  lemma SparedRowsDecide(before: Db, now: Db, p: int, d: nat)
    requires WellFormed(before) && p in before.profiles && before.profiles[p] == d && CurrentTable(before, d)
    requires Audited(now, p) && now.profiles[p] == d
    requires forall e :: GoodRow(before, p, d, e) ==> SparedIn(before, now, p, d, e)
    requires forall e :: e in EntriesOf(now, p) && RowsOf(now, d)[e].vector != Expected(now, e) ==>
               GoodRow(before, p, d, e) && SparedIn(before, now, p, d, e)
    ensures Exhaustive(now, p) <==> SparedRowsHold(before, p)
  {
    AuditedIsExhaustiveIff(now, p);
  }

  /** The row of `e` is the same in both states, and so is the vector that it ought to hold. */
  ghost predicate SparedIn(before: Db, now: Db, p: int, d: nat, e: int)
    requires WellFormed(before) && WellFormed(now)
  {
    && e in EntriesOf(before, p) && e in EntriesOf(now, p) && e in RowsOf(before, d) && e in RowsOf(now, d)
    && RowsOf(now, d)[e] == RowsOf(before, d)[e] && Expected(now, e) == Expected(before, e)
  }

  lemma WrongRowWasGood(before: Db, cleaned: Db, grown: Db, p: int, d: nat, now: Db, e: int)
    requires WellFormed(before) && p in before.profiles && before.profiles[p] == d && CurrentTable(before, d)
    requires IsCleaned(before, cleaned, p, d)
    requires Grown(cleaned, grown, p, d, MissingChunks(cleaned, p))
    requires now == Restored(grown, p, d, LostRows(grown, p, d)).(markers := grown.markers + {p})
    requires Audited(now, p) && e in EntriesOf(now, p) && RowsOf(now, d)[e].vector != Expected(now, e)
    ensures GoodRow(before, p, d, e)
  {
    assert e in EntriesOf(grown, p);
    RestoredRow(before, cleaned, grown, p, d, e);
    assert e in cleaned.entries;
    assert FileOf(now, e) == FileOf(before, e);
    assert Eligible(now, now.entries[e].chunk);
  }

  /** In a sound state every spared row holds its embedding. */
  lemma SoundRowsHold(db: Db, p: int)
    requires Sound(db) && p in db.profiles
    ensures SparedRowsHold(db, p)
  {
  }

  lemma RepairKeepsOthers(before: Db, cleaned: Db, grown: Db, p: int, d: nat)
    requires WellFormed(before) && p in before.profiles && d in before.tables
    requires IsCleaned(before, cleaned, p, d)
    requires Grown(cleaned, grown, p, d, MissingChunks(cleaned, p))
    ensures OthersKept(before, grown, p)
  {
  }

  // ---------------------------------------------------------------- the other profiles

  predicate Labelled(db: Db, q: int, e: int)
    requires q in db.profiles
  {
    e in RowsOf(db, db.profiles[q]) && RowsOf(db, db.profiles[q])[e].profile == q
  }

  /** The rows that other profiles have at their own entries stay, and they get no new ones. */
  ghost predicate OthersUntouched(before: Db, now: Db, p: int) {
    && now == before.(entries := now.entries, tables := now.tables, markers := now.markers)
    && before.markers <= now.markers
    && OthersKept(before, now, p)
    && (forall d :: CurrentTable(now, d) <==> CurrentTable(before, d))
    && (forall q, e :: q in before.profiles && q != p && Labelled(now, q, e) ==>
          Labelled(before, q, e) && RowsOf(now, now.profiles[q])[e] == RowsOf(before, now.profiles[q])[e])
    && (forall q, e :: q in before.profiles && q != p && Labelled(before, q, e) && e in EntriesOf(before, q) ==> Labelled(now, q, e))
  }

  lemma RepairLeavesOthers(before: Db, cleaned: Db, grown: Db, p: int, d: nat, now: Db)
    requires WellFormed(before) && p in before.profiles && before.profiles[p] == d && CurrentTable(before, d)
    requires IsCleaned(before, cleaned, p, d)
    requires Grown(cleaned, grown, p, d, MissingChunks(cleaned, p))
    requires now == Restored(grown, p, d, LostRows(grown, p, d)).(markers := grown.markers + {p})
    ensures OthersUntouched(before, now, p)
  {
    RepairKeepsOthers(before, cleaned, grown, p, d);
    OnlyOccurrencesChange(before, cleaned, grown, p, d);
    RestoredShape(before, grown, p, d, now);
    hide IsCleaned, Grown, Labelled, OthersKept, Restored, SameButOccurrences;
    forall q, e | q in before.profiles && q != p && Labelled(now, q, e)
      ensures Labelled(before, q, e) && RowsOf(now, now.profiles[q])[e] == RowsOf(before, now.profiles[q])[e]
    {
      LabelledBefore(before, cleaned, grown, p, d, now, q, e);
    }
    forall q, e | q in before.profiles && q != p && Labelled(before, q, e) && e in EntriesOf(before, q)
      ensures Labelled(now, q, e)
    {
      LabelledAfter(before, cleaned, grown, p, d, now, q, e);
    }
  }

  lemma RestoredShape(before: Db, grown: Db, p: int, d: nat, now: Db)
    requires d in before.tables && SameButOccurrences(before, grown, d) && WellFormed(grown)
    requires now == Restored(grown, p, d, LostRows(grown, p, d)).(markers := grown.markers + {p})
    ensures now == before.(entries := grown.entries, tables := now.tables, markers := before.markers + {p})
    ensures forall x :: CurrentTable(now, x) <==> CurrentTable(before, x)
  {
  }

  lemma OnlyOccurrencesChange(before: Db, cleaned: Db, grown: Db, p: int, d: nat)
    requires WellFormed(before) && p in before.profiles && d in before.tables
    requires IsCleaned(before, cleaned, p, d)
    requires Grown(cleaned, grown, p, d, MissingChunks(cleaned, p))
    ensures SameButOccurrences(before, grown, d)
  {
  }

  lemma LabelledBefore(before: Db, cleaned: Db, grown: Db, p: int, d: nat, now: Db, q: int, e: int)
    requires WellFormed(before) && p in before.profiles && before.profiles[p] == d && CurrentTable(before, d)
    requires IsCleaned(before, cleaned, p, d)
    requires Grown(cleaned, grown, p, d, MissingChunks(cleaned, p))
    requires now == Restored(grown, p, d, LostRows(grown, p, d)).(markers := grown.markers + {p})
    requires q in before.profiles && q != p && Labelled(now, q, e)
    ensures Labelled(before, q, e) && RowsOf(now, now.profiles[q])[e] == RowsOf(before, now.profiles[q])[e]
  {
    if before.profiles[q] == d {
      assert e in grown.tables[d].rows;
      assert e in cleaned.tables[d].rows;
    }
  }

  lemma LabelledAfter(before: Db, cleaned: Db, grown: Db, p: int, d: nat, now: Db, q: int, e: int)
    requires WellFormed(before) && p in before.profiles && before.profiles[p] == d && CurrentTable(before, d)
    requires IsCleaned(before, cleaned, p, d)
    requires Grown(cleaned, grown, p, d, MissingChunks(cleaned, p))
    requires now == Restored(grown, p, d, LostRows(grown, p, d)).(markers := grown.markers + {p})
    requires q in before.profiles && q != p && Labelled(before, q, e) && e in EntriesOf(before, q)
    ensures Labelled(now, q, e)
  {
    if before.profiles[q] == d {
      assert e !in EntriesOf(before, p);
      assert e in cleaned.tables[d].rows;
      assert e in grown.tables[d].rows && e !in LostRows(grown, p, d);
    }
  }

  lemma OthersEntries(before: Db, now: Db, p: int, q: int)
    requires OthersKept(before, now, p) && q != p
    ensures EntriesOf(now, q) == EntriesOf(before, q)
  {
    forall e
      ensures e in EntriesOf(now, q) <==> e in EntriesOf(before, q)
    {
    }
  }

  /** What was audited stays so while another profile is. */
  lemma AuditedStill(before: Db, now: Db, p: int, q: int)
    requires WellFormed(before) && WellFormed(now) && OthersUntouched(before, now, p) && q != p && Audited(before, q)
    ensures Audited(now, q) && (Exhaustive(now, q) <==> Exhaustive(before, q))
  {
    OthersEntries(before, now, p, q);
    forall e
      ensures Labelled(now, q, e) <==> e in EntriesOf(now, q)
      ensures e in EntriesOf(now, q) ==> RowsOf(now, now.profiles[q])[e] == RowsOf(before, now.profiles[q])[e]
    {
      assert Labelled(before, q, e) <==> e in EntriesOf(before, q);
    }
    assert Complete(now, q);
    assert KeysMatch(now, q);
    MaterializedStill(before, now, p, q);
    AuditedIsExhaustiveIff(before, q);
    AuditedIsExhaustiveIff(now, q);
  }

  lemma MaterializedStill(before: Db, now: Db, p: int, q: int)
    requires WellFormed(before) && WellFormed(now) && OthersKept(before, now, p) && q != p
    requires now.files == before.files && now.chunks == before.chunks && now.cache == before.cache
    requires !Unmaterialized(before, q) && !HasIneligible(before, q)
    ensures !Unmaterialized(now, q) && !HasIneligible(now, q)
  {
    forall c | c in now.chunks && Eligible(now, c) && (now.chunks[c].hash, q) in now.cache
      ensures HasEntry(now, c, q)
    {
      assert Eligible(before, c) && HasEntry(before, c, q);
      var e :| e in before.entries && before.entries[e] == Entry(c, q);
      assert e in now.entries && now.entries[e] == Entry(c, q);
    }
    forall e | e in now.entries && now.entries[e].profile == q
      ensures Eligible(now, now.entries[e].chunk)
    {
      assert e in before.entries && Eligible(before, before.entries[e].chunk);
    }
  }

  /** Whether spared rows hold is not affected by what happens to another profile. */
  lemma SparedRowsHoldStill(before: Db, now: Db, p: int, q: int)
    requires WellFormed(before) && WellFormed(now) && OthersUntouched(before, now, p) && q != p && q in before.profiles
    ensures SparedRowsHold(now, q) <==> SparedRowsHold(before, q)
  {
    var d := before.profiles[q];
    OthersEntries(before, now, p, q);
    forall e | e in EntriesOf(before, q)
      ensures GoodRow(now, q, d, e) <==> GoodRow(before, q, d, e)
      ensures GoodRow(now, q, d, e) ==> RowsOf(now, d)[e] == RowsOf(before, d)[e]
      ensures Expected(now, e) == Expected(before, e)
    {
      assert Labelled(before, q, e) <==> Labelled(now, q, e);
    }
  }

  lemma SparedRowsHoldEnsured(db: Db, d: nat, q: int)
    requires WellFormed(db) && q in db.profiles
    ensures WellFormed(Ensured(db, d)) && (SparedRowsHold(Ensured(db, d), q) <==> SparedRowsHold(db, q))
  {
    var now := Ensured(db, d);
    assert WellFormed(now);
    forall e
      ensures GoodRow(now, q, db.profiles[q], e) <==> GoodRow(db, q, db.profiles[q], e) && (CurrentTable(db, d) || db.profiles[q] != d)
    {
      assert EntriesOf(now, q) == EntriesOf(db, q);
    }
  }

  /** Every row of the table that has no entry belongs to `p` and will be cleaned up. */
  ghost predicate NoForeignOrphans(db: Db, p: int, d: nat) {
    forall r :: r in RowsOf(db, d) && r !in db.entries ==> RowsOf(db, d)[r].profile == p
  }

  // ---------------------------------------------------------------- rows in their places

  /** Every row stands at an entry, in the table of the dimension of its profile. */
  ghost predicate WellPlaced(db: Db)
    requires WellFormed(db)
  {
    forall d, r :: r in RowsOf(db, d) ==> r in db.entries && db.profiles[db.entries[r].profile] == d
  }

  lemma EnsuredIsPlaced(db: Db, d: nat)
    requires WellFormed(db) && WellPlaced(db)
    ensures WellFormed(Ensured(db, d)) && WellPlaced(Ensured(db, d))
  {
    var now := Ensured(db, d);
    forall x, r | r in RowsOf(now, x)
      ensures r in now.entries && now.profiles[now.entries[r].profile] == x
    {
      assert r in RowsOf(db, x);
    }
  }

  lemma PrunedIsPlaced(db: Db, p: int, d: nat)
    requires WellFormed(db) && WellPlaced(db) && p in db.profiles && db.profiles[p] == d && d in db.tables
    ensures WellFormed(PrunedIneligible(db, p, d)) && WellPlaced(PrunedIneligible(db, p, d))
  {
    var now := PrunedIneligible(db, p, d);
    assert WellFormed(now);
    forall x, r | r in RowsOf(now, x)
      ensures r in now.entries && now.profiles[now.entries[r].profile] == x
    {
      assert r in RowsOf(db, x);
    }
  }

  lemma CleanedIsPlaced(db: Db, now: Db, p: int, d: nat)
    requires WellFormed(db) && WellPlaced(db) && p in db.profiles && db.profiles[p] == d && d in db.tables
    requires IsCleaned(db, now, p, d)
    ensures WellPlaced(now)
  {
    forall x, r | r in RowsOf(now, x)
      ensures r in now.entries && now.profiles[now.entries[r].profile] == x
    {
      assert r in RowsOf(db, x);
    }
  }

  lemma GrownIsPlaced(before: Db, now: Db, p: int, d: nat)
    requires WellFormed(before) && WellPlaced(before) && p in before.profiles && before.profiles[p] == d && d in before.tables
    requires Grown(before, now, p, d, MissingChunks(before, p))
    ensures WellPlaced(now)
  {
    forall x, r | r in RowsOf(now, x)
      ensures r in now.entries && now.profiles[now.entries[r].profile] == x
    {
      assert x != d ==> RowsOf(now, x) == RowsOf(before, x);
      assert x != d || r in before.tables[d].rows ==> r in RowsOf(before, x);
    }
  }

  lemma RestoredIsPlaced(db: Db, now: Db, p: int, d: nat)
    requires WellFormed(db) && WellPlaced(db) && p in db.profiles && db.profiles[p] == d && d in db.tables
    requires now == Restored(db, p, d, LostRows(db, p, d)).(markers := db.markers + {p})
    ensures WellFormed(now) && WellPlaced(now)
  {
    assert WellFormed(now);
    forall x, r | r in RowsOf(now, x)
      ensures r in now.entries && now.profiles[now.entries[r].profile] == x
    {
      assert x != d ==> RowsOf(now, x) == RowsOf(db, x);
      assert x != d || r in RowsOf(db, x) || r in LostRows(db, p, d);
    }
  }
}
