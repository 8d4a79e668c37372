/**
 * Upkeep of the code vector index: a durable cache of embeddings, an entry for
 * each indexed chunk occurrence, one vector table for each dimension that all
 * profiles of that dimension share, and a completion marker for each profile.
 */
module VectorIndex {
  import opened Wrappers

  type Vector = seq<int>

  datatype File = File(isCode: bool, format: string, origin: string)

  datatype Chunk = Chunk(file: int, hash: string)

  datatype Entry = Entry(chunk: int, profile: int)

  datatype VectorRow = VectorRow(vector: Vector, profile: int, origin: string, format: string)

  /** `partitioned` is false for a table that was made before the format key existed. */
  datatype Table = Table(partitioned: bool, rows: map<int, VectorRow>)

  datatype Db = Db(
    files: map<int, File>, chunks: map<int, Chunk>, profiles: map<int, nat>,
    cache: map<(string, int), Vector>, entries: map<int, Entry>,
    tables: map<nat, Table>, markers: set<int>)

  const MAX_DIMENSIONS: nat := 8192

  predicate SupportedDimensions(d: nat) {
    0 < d <= MAX_DIMENSIONS
  }

  /** Formats whose ranked projection has a vector: `Capability::CodeVector`. */
  const VECTOR_FORMATS := {"javascript", "typescript"}

  // ---------------------------------------------------------------- schema

  /** What the keys and foreign keys of the schema guarantee, even when rows are corrupted. */
  ghost predicate WellFormed(db: Db) {
    && (forall c :: c in db.chunks ==> db.chunks[c].file in db.files)
    && (forall k :: k in db.cache ==> k.1 in db.profiles)
    && (forall e :: e in db.entries ==> db.entries[e].chunk in db.chunks && db.entries[e].profile in db.profiles)
    && (forall e, f :: e in db.entries && f in db.entries && db.entries[e] == db.entries[f] ==> e == f)
    && (forall e :: e in db.entries ==> (db.chunks[db.entries[e].chunk].hash, db.entries[e].profile) in db.cache)
    && db.markers <= db.profiles.Keys
  }

  predicate Eligible(db: Db, c: int)
    requires c in db.chunks && db.chunks[c].file in db.files
  {
    var f := db.files[db.chunks[c].file];
    f.isCode && f.format in VECTOR_FORMATS
  }

  function EntriesOf(db: Db, p: int): set<int> {
    set e | e in db.entries && db.entries[e].profile == p
  }

  predicate HasEntry(db: Db, c: int, p: int) {
    exists e :: e in db.entries && db.entries[e] == Entry(c, p)
  }

  function RowsOf(db: Db, d: nat): map<int, VectorRow> {
    if d in db.tables then db.tables[d].rows else map[]
  }

  function WithRows(db: Db, d: nat, rows: map<int, VectorRow>): Db
    requires d in db.tables
  {
    db.(tables := db.tables[d := db.tables[d].(rows := rows)])
  }

  /** The embedding that the row of entry `e` must hold. */
  function Expected(db: Db, e: int): Vector
    requires e in db.entries && db.entries[e].chunk in db.chunks
    requires (db.chunks[db.entries[e].chunk].hash, db.entries[e].profile) in db.cache
  {
    db.cache[(db.chunks[db.entries[e].chunk].hash, db.entries[e].profile)]
  }

  function FileOf(db: Db, e: int): File
    requires e in db.entries && db.entries[e].chunk in db.chunks && db.chunks[db.entries[e].chunk].file in db.files
  {
    db.files[db.chunks[db.entries[e].chunk].file]
  }

  // ---------------------------------------------------------------- invariants

  predicate CurrentTable(db: Db, d: nat) {
    d in db.tables && db.tables[d].partitioned
  }

  /** In a current table, a row that stands at an entry of its own profile holds the cached embedding. */
  ghost predicate Faithful(db: Db)
    requires WellFormed(db)
  {
    forall e :: e in db.entries && CurrentTable(db, db.profiles[db.entries[e].profile]) ==>
      var rows := RowsOf(db, db.profiles[db.entries[e].profile]);
      e in rows && rows[e].profile == db.entries[e].profile ==> rows[e].vector == Expected(db, e)
  }

  /** The rows labelled with `p` stand at the entries of `p`, one for each. */
  ghost predicate Complete(db: Db, p: int)
    requires p in db.profiles
  {
    var rows := RowsOf(db, db.profiles[p]);
    forall e :: (e in rows && rows[e].profile == p) <==> e in EntriesOf(db, p)
  }

  /** What every operation keeps. */
  ghost predicate Sound(db: Db) {
    && WellFormed(db) && Faithful(db)
    && forall p :: p in db.markers && CurrentTable(db, db.profiles[p]) ==> Complete(db, p)
  }

  /** Partition keys of the rows of `p` agree with the files they come from. */
  ghost predicate KeysMatch(db: Db, p: int)
    requires WellFormed(db) && p in db.profiles
  {
    var rows := RowsOf(db, db.profiles[p]);
    forall e :: e in EntriesOf(db, p) && e in rows ==>
      rows[e].origin == FileOf(db, e).origin && rows[e].format == FileOf(db, e).format
  }

  predicate Unmaterialized(db: Db, p: int)
    requires forall c :: c in db.chunks ==> db.chunks[c].file in db.files
  {
    exists c :: c in db.chunks && Eligible(db, c) && (db.chunks[c].hash, p) in db.cache && !HasEntry(db, c, p)
  }

  predicate HasIneligible(db: Db, p: int)
    requires forall c :: c in db.chunks ==> db.chunks[c].file in db.files
  {
    exists e :: e in db.entries && db.entries[e].profile == p && db.entries[e].chunk in db.chunks && !Eligible(db, db.entries[e].chunk)
  }

  datatype NotReady = NeedsSync | TableMissing | ObsoleteTable

  /** `ready_search_profile`, for a profile that exists. */
  function Ready(db: Db, p: int): Result<(), NotReady>
    requires p in db.profiles
    requires forall c :: c in db.chunks ==> db.chunks[c].file in db.files
  {
    if p !in db.markers || Unmaterialized(db, p) || HasIneligible(db, p) then Err(NeedsSync)
    else if db.profiles[p] !in db.tables then Err(TableMissing)
    else if !db.tables[db.profiles[p]].partitioned then Err(ObsoleteTable)
    else Ok(())
  }

  /** The chunk comes from a code file in one of the two formats that have vectors. */
  ghost predicate IsVectorCode(db: Db, c: int) {
    && c in db.chunks && db.chunks[c].file in db.files
    && db.files[db.chunks[c].file].isCode
    && (db.files[db.chunks[c].file].format == "javascript" || db.files[db.chunks[c].file].format == "typescript")
  }

  /**
   * What a ready answer is worth: the vector rows of the profile are in one-to-one
   * correspondence with the JavaScript and TypeScript chunks that have a cached
   * embedding, and each row holds that embedding.
   */
  ghost predicate Exhaustive(db: Db, p: int)
    requires WellFormed(db) && p in db.profiles
  {
    var rows := RowsOf(db, db.profiles[p]);
    && (forall c :: IsVectorCode(db, c) && (db.chunks[c].hash, p) in db.cache ==>
          exists e :: e in rows && rows[e].profile == p && e in db.entries && db.entries[e] == Entry(c, p))
    && (forall e :: e in rows && rows[e].profile == p ==>
          && e in db.entries && db.entries[e].profile == p
          && IsVectorCode(db, db.entries[e].chunk)
          && rows[e].vector == db.cache[(db.chunks[db.entries[e].chunk].hash, p)])
    && (forall e, f :: (e in rows && f in rows && rows[e].profile == p && rows[f].profile == p
                        && db.entries[e].chunk == db.entries[f].chunk) ==> e == f)
  }

  /** In every sound state a profile that is reported ready is complete. */
  lemma ReadyIsExhaustive(db: Db, p: int)
    requires Sound(db) && p in db.profiles && Ready(db, p).Ok?
    ensures Exhaustive(db, p)
  {
    assert Complete(db, p);
    var rows := RowsOf(db, db.profiles[p]);
    forall e | e in rows && rows[e].profile == p
      ensures e in db.entries && db.entries[e].profile == p && Eligible(db, db.entries[e].chunk) && rows[e].vector == Expected(db, e)
    {
      assert e in EntriesOf(db, p);
    }
    forall c | c in db.chunks && Eligible(db, c) && (db.chunks[c].hash, p) in db.cache
      ensures exists e :: e in rows && rows[e].profile == p && e in db.entries && db.entries[e] == Entry(c, p)
    {
      var e :| e in db.entries && db.entries[e] == Entry(c, p);
      assert e in EntriesOf(db, p);
    }
  }

  /** A rowid that no key uses: one more than the largest. */
  function NextRowId(keys: seq<int>): (id: int)
    ensures forall k :: k in keys ==> k < id
  {
    if keys == [] then 1
    else
      assert keys == [keys[0]] + keys[1..];
      var rest := NextRowId(keys[1..]);
      if rest <= keys[0] then keys[0] + 1 else rest
  }

  // ---------------------------------------------------------------- table recreation

  function ProfilesWith(db: Db, d: nat): set<int> {
    set p | p in db.profiles && db.profiles[p] == d
  }

  /** A missing or obsolete table is replaced by an empty one and its markers go. */
  function Ensured(db: Db, d: nat): Db {
    if CurrentTable(db, d) then db
    else db.(markers := db.markers - ProfilesWith(db, d), tables := db.tables[d := Table(true, map[])])
  }

  lemma EnsuredIsSound(db: Db, d: nat)
    requires Sound(db)
    ensures Sound(Ensured(db, d)) && CurrentTable(Ensured(db, d), d)
  {
    var after := Ensured(db, d);
    forall p | p in after.markers && CurrentTable(after, after.profiles[p])
      ensures Complete(after, p)
    {
      assert after == db || db.profiles[p] != d;
      assert EntriesOf(after, p) == EntriesOf(db, p);
    }
  }

  // ---------------------------------------------------------------- set-based deletions

  function IneligibleEntries(db: Db, p: int): set<int>
    requires WellFormed(db)
  {
    set e | e in db.entries && db.entries[e].profile == p && !Eligible(db, db.entries[e].chunk)
  }

  function PrunedIneligible(db: Db, p: int, d: nat): Db
    requires WellFormed(db) && d in db.tables
  {
    var gone := IneligibleEntries(db, p);
    WithRows(db, d, db.tables[d].rows - gone).(entries := db.entries - gone)
  }

  function Mispartitioned(db: Db, p: int, d: nat): set<int>
    requires WellFormed(db) && d in db.tables
  {
    set e | e in db.entries && db.entries[e].profile == p && e in db.tables[d].rows
            && (db.tables[d].rows[e].profile != p
                || db.tables[d].rows[e].origin != FileOf(db, e).origin
                || db.tables[d].rows[e].format != FileOf(db, e).format)
  }

  function Orphans(db: Db, p: int, d: nat): set<int>
    requires d in db.tables
  {
    set r | r in db.tables[d].rows && db.tables[d].rows[r].profile == p && r !in EntriesOf(db, p)
  }

  /** Dropping entries of one profile together with the rows that stand at them. */
  lemma PruneIsSound(db: Db, p: int, d: nat)
    requires Sound(db) && p in db.profiles && db.profiles[p] == d && d in db.tables
    ensures Sound(PrunedIneligible(db, p, d))
    ensures !HasIneligible(PrunedIneligible(db, p, d), p)
  {
    var after := PrunedIneligible(db, p, d);
    var gone := IneligibleEntries(db, p);
    assert WellFormed(after);
    forall q | q in after.markers && CurrentTable(after, after.profiles[q])
      ensures Complete(after, q)
    {
      assert Complete(db, q);
      forall e
        ensures (e in RowsOf(after, after.profiles[q]) && RowsOf(after, after.profiles[q])[e].profile == q) <==> e in EntriesOf(after, q)
      {
        assert e in EntriesOf(after, q) <==> e in EntriesOf(db, q) && e !in gone;
      }
    }
  }
}
