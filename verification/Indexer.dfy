/**
 * Index publication: one attempt captures its inputs, replaces the canonical rows in a
 * transaction, and commits one complete publication or nothing.
 */
module Indexer {
  import opened Wrappers
  import opened Publication
  import opened Formats
  import opened Tables
  import opened Captures
  import opened Contracts
  import opened Database
  import opened FirstPartyRows
  import opened DependencyFiles
  import opened Checker
  import opened IndexState
  import opened Preparing
  import opened Replacing
  import opened Outcomes
  import ByteOrder

  // ---------------------------------------------------------------- identities

  /** The digests of all planes and their fold; nothing if the platform cannot count that far. */
  method ComputeIdentities(w: World, b: Build, s: Store) returns (r: Option<Identities>)
    ensures r.Some? ==> Computed(w, b, s, r.value)
    ensures r.None? ==> TooMuch(w, b, s)
  {
    var stream := ResolutionStream(s.edges);
    var paths := ByteOrder.Listing(s.contexts.Keys);
    var contexts := Ascii(EDITION_DOMAIN) + PutContexts(paths, s.contexts);
    var codeInput := CodeInputFor(b, s, w.hash(stream));
    var docInput := DocInputFor(b, s);
    if !CodeFits(codeInput) || !DocFits(docInput) || !Short(stream) || !Short(contexts) {
      return None;
    }
    var code := ComputeCodeDigest(w.hash, codeInput);
    var documentation := ComputeDocumentationDigest(w.hash, docInput);
    var provenance := w.provenanceDigest(Provenances(s));
    var publication := ComputeFold(w.hash, code, documentation, provenance);
    r := Some(Identities(code, documentation, provenance, publication));
  }

  // ---------------------------------------------------------------- projection

  /** `rebuild_projection`, or nothing if the stored one may stay. */
  method RebuildUnlessSkipped(db: Connection, w: World, version: Text, digest: Text, skip: bool) returns (ok: bool)
    requires db.live.ids.Keys == db.live.files.Keys
    requires skip ==> db.live.projection == Some(Projected(w, version, db.live, digest))
    modifies db`live, db`clock
    ensures db.clock >= old(db.clock)
    ensures ok ==> db.live == old(db.live).(projection := Some(Projected(w, version, old(db.live), digest)))
    ensures !ok ==> db.Faulted(old(db.clock))
    ensures ok ==> !db.Faulted(old(db.clock))
  {
    if skip {
      return true;
    }
    ok := db.Execute();
    if ok {
      db.live := db.live.(projection := Some(Projected(w, version, db.live, digest)));
    }
  }

  lemma MarkedIsWhole(w: World, b: Build, c: Capture, mode: Mode, s: Store, t: Store, p: Preparation, i: Identities)
    requires Marked(w, b, c, mode, s, t, p, i)
    ensures t.ids.Keys == t.files.Keys && t.resolution.Some?
  {
  }

  method Project(
      db: Connection, w: World, b: Build, c: Capture, options: Options, p: Preparation, i: Identities, resolution: Text, ghost s: Store)
    returns (ok: bool)
    requires CollisionFree(w.hash) && ValidCapture(w, c) && Consistent(w, s)
    requires Marked(w, b, c, options.mode, s, db.live, p, i) && db.live.resolution == Some(resolution)
    requires p.previous.code == s.identities.code && p.previous.resolution == s.resolution
    modifies db`live, db`clock
    ensures db.clock >= old(db.clock)
    ensures ok ==> Projection(w, b, c, options, p, i, s, db.live)
    ensures !ok ==> db.Faulted(old(db.clock))
    ensures ok ==> !db.Faulted(old(db.clock))
  {
    hide CollisionFree, ValidCapture, Consistent, Marked, Projection, Reported, Projected, Retained, Fails;
    MarkedIsWhole(w, b, c, options.mode, s, db.live, p, i);
    ghost var start := db.clock;
    var reset := options.mode.FullRefresh?;
    var contractChanged := JavaScript in p.changed || TypeScript in p.changed;
    ghost var marked := db.live;
    var retained := Retain(db, w, c, options.retention, p.previous, i.code, resolution, contractChanged, reset);
    if retained.Err? {
      return false;
    }
    ghost var kept, middle := db.live, db.clock;
    var skip := MaySkip(options.mode, p, i.code, retained.value);
    SkipAfterReport(w, b, c, options, s, marked, kept, p, i, resolution, retained.value);
    ok := RebuildUnlessSkipped(db, w, b.projection, i.code, skip);
    FailsJoin(db.fails, start, middle, db.clock);
    if ok {
      ProjectionFrom(w, b, c, options, s, marked, kept, db.live, p, i, resolution, retained.value);
    }
  }

  // ---------------------------------------------------------------- publication

  /** `publish_projection_identity`. */
  method MarkProjection(db: Connection, w: World, b: Build, c: Capture, mode: Mode, p: Preparation, ghost s: Store) returns (ok: bool)
    requires Replaced(w, b, c, mode, s, db.live, p)
    modifies db`live, db`clock
    ensures db.clock == old(db.clock) + 1 && ok == !db.fails(old(db.clock))
    ensures ok ==> Replaced(w, b, c, mode, s, db.live, p) && MarkersSet(w, b, c, db.live)
  {
    ghost var replaced := db.live;
    ok := db.Execute();
    if ok {
      db.live := db.live.(projectionMarker := Some(b.projection), resolution := Some(w.hash(ResolutionStream(db.live.edges))));
      hide Replaced, MarkersSet;
      MarkersPut(w, b, c, mode, s, replaced, db.live, p);
    }
  }

  /** The markers of the projection, and then the digests of all planes. */
  method Mark(db: Connection, w: World, b: Build, c: Capture, mode: Mode, p: Preparation, ghost s: Store)
    returns (r: Result<Identities, Error>)
    requires Replaced(w, b, c, mode, s, db.live, p)
    modifies db`live, db`clock
    ensures db.clock >= old(db.clock)
    ensures r.Ok? ==> Marked(w, b, c, mode, s, db.live, p, r.value)
    ensures r.Err? ==> Blamed(w, b, c, s, r.error, db.Faulted(old(db.clock)))
    ensures r.Ok? ==> !db.Faulted(old(db.clock))
  {
    hide Replaced, CanonicalRows, MarkersSet, Computed, TooMuch, Blamed;
    FaultIsBlamed(w, b, c, s);
    var ok := MarkProjection(db, w, b, c, mode, p, s);
    if !ok {
      return Err(SqlFailure);
    }
    var identities := ComputeIdentities(w, b, db.live);
    if identities.None? {
      TooMuchIsBlamed(w, b, c, mode, s, db.live, p, db.Faulted(old(db.clock)));
      return Err(TooLarge);
    }
    ok := db.Execute();
    r := if ok then Ok(identities.value) else Err(SqlFailure);
  }

  lemma TooMuchIsBlamed(w: World, b: Build, c: Capture, mode: Mode, s: Store, t: Store, p: Preparation, faulted: bool)
    requires Replaced(w, b, c, mode, s, t, p) && MarkersSet(w, b, c, t) && TooMuch(w, b, t)
    ensures Blamed(w, b, c, s, TooLarge, faulted)
  {
    assert CanonicalRows(w, b, c, p.discovery, t);
  }

  /** The four identity rows; then documentation vectors are synchronized and errors counted. */
  method PublishIdentities(db: Connection, i: Identities) returns (ok: bool)
    modifies db`live, db`clock
    ensures db.clock >= old(db.clock)
    ensures ok ==> db.live == old(db.live).(identities := Published(i))
    ensures !ok ==> db.Faulted(old(db.clock))
    ensures ok ==> !db.Faulted(old(db.clock))
  {
    ok := db.Execute();
    if ok {
      db.live := db.live.(identities := Published(i));
      ok := db.Execute();
    }
  }

  /** Checker state, projection and identities, when the rows and digests are known. */
  method Finish(db: Connection, w: World, b: Build, c: Capture, options: Options, p: Preparation, i: Identities, ghost s: Store)
    returns (ok: bool)
    requires CollisionFree(w.hash) && ValidCapture(w, c) && Consistent(w, s)
    requires Marked(w, b, c, options.mode, s, db.live, p, i)
    requires p.previous.code == s.identities.code && p.previous.resolution == s.resolution
    modifies db`live, db`clock
    ensures db.clock >= old(db.clock)
    ensures ok ==> Finished(w, b, c, options, p, s, db.live)
    ensures !ok ==> db.Faulted(old(db.clock))
    ensures ok ==> !db.Faulted(old(db.clock))
  {
    hide CollisionFree, ValidCapture, Consistent, Marked, Projection, Finished, Fails;
    MarkedIsWhole(w, b, c, options.mode, s, db.live, p, i);
    ghost var start := db.clock;
    ok := Project(db, w, b, c, options, p, i, db.live.resolution.value, s);
    if ok {
      ghost var middle := db.clock;
      FinishedFrom(w, b, c, options, p, i, s, db.live);
      ok := PublishIdentities(db, i);
      FailsJoin(db.fails, start, middle, db.clock);
    }
  }

  /** Canonical replacement and identities, up to the early drift check. */
  method Identify(db: Connection, w: World, b: Build, c: Capture, mode: Mode, p: Preparation, ghost s: Store)
    returns (r: Result<Identities, Error>)
    requires CollisionFree(w.hash) && ValidCapture(w, c)
    requires Ready(w, b, c, mode, s, db.live, p)
    modifies db`live, db`clock
    ensures db.clock >= old(db.clock)
    ensures r.Ok? ==> Marked(w, b, c, mode, s, db.live, p, r.value) && (c.freshness ==> c.stableEarly)
    ensures r.Err? ==> Blamed(w, b, c, s, r.error, db.Faulted(old(db.clock)))
    ensures r.Ok? ==> !db.Faulted(old(db.clock))
  {
    hide Ready, Marked, CollisionFree, ValidCapture;
    ghost var t := db.live;
    var replaced := ReplaceRows(db, w, b, c, mode, p, s);
    if replaced.Err? {
      if replaced.error == DuplicatePath {
        ClashIsBlamed(w, b, c, mode, s, t, p);
      }
      return Err(replaced.error);
    }
    r := Mark(db, w, b, c, mode, p, s);
    if r.Ok? && c.freshness && !c.stableEarly {
      return Err(ProvenanceDrift);
    }
  }

  /** The second stage of an attempt. */
  method Publish(db: Connection, w: World, b: Build, c: Capture, options: Options, p: Preparation, ghost s: Store)
    returns (r: Result<(), Error>)
    requires CollisionFree(w.hash) && ValidCapture(w, c) && Consistent(w, s)
    requires Ready(w, b, c, options.mode, s, db.live, p)
    modifies db`live, db`clock
    ensures db.clock >= old(db.clock)
    ensures r.Ok? ==> Finished(w, b, c, options, p, s, db.live) && (c.freshness ==> c.stableEarly)
    ensures r.Err? ==> Blamed(w, b, c, s, r.error, db.Faulted(old(db.clock)))
    ensures r.Ok? ==> !db.Faulted(old(db.clock))
  {
    assert p.previous.code == s.identities.code && p.previous.resolution == s.resolution;
    hide Ready, Marked, Finished, Consistent, CollisionFree, ValidCapture;
    var identified := Identify(db, w, b, c, options.mode, p, s);
    if identified.Err? {
      return Err(identified.error);
    }
    var ok := Finish(db, w, b, c, options, p, identified.value, s);
    r := if ok then Ok(()) else Err(SqlFailure);
  }

  // ---------------------------------------------------------------- attempts

  /** Both stages inside the transaction. */
  method Refresh(db: Connection, w: World, b: Build, c: Capture, options: Options) returns (r: Result<Preparation, Error>)
    requires CollisionFree(w.hash) && ValidCapture(w, c)
    requires Consistent(w, db.live)
    modifies db`live, db`clock
    ensures db.clock >= old(db.clock)
    ensures Staged(w, b, c, options, old(db.live), db.live, r, db.Faulted(old(db.clock)))
    ensures r.Ok? ==> !db.Faulted(old(db.clock))
  {
    hide CollisionFree, ValidCapture, Consistent, Ready, Finished, Blamed, Fails;
    ghost var s, start := db.live, db.clock;
    r := Prepare(db, w, b, c, options);
    if r.Ok? {
      ghost var middle := db.clock;
      var published := Publish(db, w, b, c, options, r.value, s);
      FailsJoin(db.fails, start, middle, db.clock);
      if published.Err? {
        BlamedStill(w, b, c, s, published.error, db.Faulted(middle), db.Faulted(start));
        return Err(published.error);
      }
    }
  }

  /** The last drift check and `COMMIT`; anything but a commit is rolled back. */
  method Conclude(db: Connection, failed: Option<Error>, drifted: bool) returns (r: Result<(), Error>)
    requires db.inTransaction && db.committed.ids.Keys == db.committed.files.Keys
    requires failed.None? ==> db.live.ids.Keys == db.live.files.Keys
    modifies db`live, db`committed, db`inTransaction, db`clock
    ensures db.Valid() && db.clock >= old(db.clock) && (db.inTransaction ==> db.Faulted(old(db.clock)))
    ensures r.Ok? ==> !db.inTransaction && failed.None? && !drifted && db.committed == old(db.live)
    ensures r.Ok? ==> !db.Faulted(old(db.clock))
    ensures r.Err? ==> db.committed == old(db.committed)
    ensures failed.Some? ==> r == Err(failed.value)
    ensures failed.None? && r.Err? ==> if drifted then r.error == ProvenanceDrift else r.error == SqlFailure && db.Faulted(old(db.clock))
  {
    if failed.Some? {
      db.Rollback();
      return Err(failed.value);
    }
    if drifted {
      db.Rollback();
      return Err(ProvenanceDrift);
    }
    var ok := db.Commit();
    if !ok {
      db.Rollback();
      return Err(SqlFailure);
    }
    r := Ok(());
  }

  /** The transaction of one attempt, from its first statement to `COMMIT` or `ROLLBACK`. */
  method Transact(db: Connection, w: World, b: Build, c: Capture, options: Options) returns (r: Result<(), Error>)
    requires CollisionFree(w.hash) && ValidCapture(w, c)
    requires db.Valid() && db.inTransaction && db.live == db.committed && Consistent(w, db.committed)
    modifies db`live, db`committed, db`inTransaction, db`clock
    ensures db.Valid() && db.clock >= old(db.clock) && (r.Ok? ==> !db.inTransaction)
    ensures db.inTransaction ==> db.Faulted(old(db.clock))
    ensures Outcome(w, b, c, options, old(db.committed), db.committed, r, db.Faulted(old(db.clock)))
    ensures r.Ok? ==> !db.Faulted(old(db.clock))
  {
    hide IdentitiesCurrent, BackedBy;
    ghost var s, start := db.committed, db.clock;
    var refreshed := Refresh(db, w, b, c, options);
    ghost var t, faulted := db.live, db.Faulted(start);
    r := Conclude(db, if refreshed.Err? then Some(refreshed.error) else None, c.freshness && !c.stableLate);
    OutcomeFrom(w, b, c, options, s, t, db.committed, refreshed, faulted, r, db.Faulted(start));
  }

  /**
   * One attempt. Whatever fails and wherever it fails, the committed state is either
   * untouched or one complete publication of the capture, and can be refreshed again.
   */
  method Attempt(db: Connection, w: World, b: Build, c: Capture, options: Options) returns (r: Result<(), Error>)
    requires CollisionFree(w.hash) && ValidCapture(w, c)
    requires db.Valid() && Consistent(w, db.committed)
    modifies db`live, db`committed, db`inTransaction, db`clock
    ensures db.Valid() && db.clock >= old(db.clock) && (r.Ok? ==> !db.inTransaction)
    ensures db.inTransaction ==> old(db.inTransaction) || db.Faulted(old(db.clock))
    ensures old(db.inTransaction) ==> r == Err(SqlFailure) && db.inTransaction && db.live == old(db.live)
    ensures Outcome(w, b, c, options, old(db.committed), db.committed, r, old(db.inTransaction) || db.Faulted(old(db.clock)))
    ensures r.Ok? ==> DerivedFromTables(w, b, c, db.committed)
    ensures r.Ok? ==> !db.Faulted(old(db.clock))
  {
    hide Outcome, Consistent, CollisionFree, ValidCapture, DerivedFromTables;
    ghost var s, start, inside := db.committed, db.clock, db.inTransaction;
    var ok := db.Begin();
    if !ok {
      r := Err(SqlFailure);
      FailsFrom(w, b, c, options, s, SqlFailure, true, inside || db.Faulted(start));
      return;
    }
    ghost var begun := db.clock;
    r := Transact(db, w, b, c, options);
    OutcomeStill(w, b, c, options, s, db.committed, r, db.Faulted(begun), inside || db.Faulted(start));
    if r.Ok? {
      OutcomeIsDerived(w, b, c, options, s, db.committed, r, inside || db.Faulted(start));
    }
  }

  // ---------------------------------------------------------------- bounded retry

  const MAX_PROVENANCE_ATTEMPTS := 3

  ghost predicate ValidCaptures(w: World, captures: nat -> Capture) {
    forall n :: ValidCapture(w, captures(n))
  }

  /** An attempt as one of the invocation that began at `start`. */
  method AttemptAgain(
      db: Connection, w: World, b: Build, c: Capture, options: Options, ghost s: Store, ghost start: nat, ghost inside: bool)
    returns (r: Result<(), Error>)
    requires CollisionFree(w.hash) && ValidCapture(w, c)
    requires db.Valid() && db.committed == s && Consistent(w, s)
    requires db.clock >= start && (db.inTransaction ==> inside || db.Faulted(start))
    modifies db`live, db`committed, db`inTransaction, db`clock
    ensures db.Valid() && db.clock >= start && (db.inTransaction ==> inside || db.Faulted(start)) && (r.Ok? ==> !db.inTransaction)
    ensures old(db.inTransaction) ==> r == Err(SqlFailure) && db.inTransaction && db.live == old(db.live)
    ensures Outcome(w, b, c, options, s, db.committed, r, inside || db.Faulted(start))
    ensures Consistent(w, db.committed) && (r.Err? ==> db.committed == s)
    ensures r == Err(ProvenanceDrift) ==> c.freshness && !(c.stableEarly && c.stableLate)
  {
    hide Outcome, Consistent, CollisionFree, ValidCapture, DerivedFromTables, Fails;
    ghost var again, open := db.clock, db.inTransaction;
    r := Attempt(db, w, b, c, options);
    FailsJoin(db.fails, start, again, db.clock);
    OutcomeStill(w, b, c, options, s, db.committed, r, open || db.Faulted(again), inside || db.Faulted(start));
    DriftChangesNothing(w, b, c, options, s, db.committed, r, inside || db.Faulted(start));
  }

  /**
   * `index_repo_impl`: only provenance drift is retried, each time with inputs captured
   * anew, and at most three attempts are made in all.
   */
  method IndexRepository(db: Connection, w: World, b: Build, captures: nat -> Capture, options: Options)
    returns (r: Result<(), Error>, attempts: nat)
    requires CollisionFree(w.hash) && ValidCaptures(w, captures)
    requires db.Valid() && Consistent(w, db.committed)
    modifies db`live, db`committed, db`inTransaction, db`clock
    ensures db.Valid() && 1 <= attempts <= 3
    ensures forall n: nat :: n < attempts - 1 ==> captures(n).freshness && !(captures(n).stableEarly && captures(n).stableLate)
    ensures r.Err? && r.error == ProvenanceDrift ==> attempts == 3
    ensures r.Ok? ==> !db.inTransaction
    ensures old(db.inTransaction) ==> r == Err(SqlFailure) && db.inTransaction && db.live == old(db.live)
    ensures Outcome(w, b, captures(attempts - 1), options, old(db.committed), db.committed, r,
              old(db.inTransaction) || db.Faulted(old(db.clock)))
  {
    hide Outcome, Consistent, CollisionFree, ValidCapture, Fails;
    ghost var s, start, inside := db.committed, db.clock, db.inTransaction;
    attempts := 0;
    while true
      invariant db.Valid() && db.committed == s && db.clock >= start && attempts < MAX_PROVENANCE_ATTEMPTS
      invariant forall n: nat :: n < attempts ==> captures(n).freshness && !(captures(n).stableEarly && captures(n).stableLate)
      invariant db.inTransaction ==> inside || db.Faulted(start)
      invariant inside ==> attempts == 0 && db.inTransaction && db.live == old(db.live)
      decreases MAX_PROVENANCE_ATTEMPTS - attempts
    {
      r := AttemptAgain(db, w, b, captures(attempts), options, s, start, inside);
      attempts := attempts + 1;
      if !(r.Err? && r.error == ProvenanceDrift && attempts < MAX_PROVENANCE_ATTEMPTS) {
        return;
      }
    }
  }

  // ---------------------------------------------------------------- whole runs

  /** One invocation: which build ran, what it captured at each attempt, and how. */
  datatype Run = Run(build: Build, captures: nat -> Capture, options: Options)

  ghost predicate PublishedByOneOf(w: World, runs: seq<Run>, s: Store) {
    exists k: nat, n: nat :: k < |runs| && Commits(w, runs[k].build, runs[k].captures(n), s)
  }

  /**
   * Any number of invocations by any builds in any modes, any statement of which may
   * fail: what is committed at the end is what was there, or one complete publication.
   */
  method Serve(db: Connection, w: World, runs: seq<Run>)
    requires CollisionFree(w.hash) && forall k :: 0 <= k < |runs| ==> ValidCaptures(w, runs[k].captures)
    requires db.Valid() && Consistent(w, db.committed)
    modifies db`live, db`committed, db`inTransaction, db`clock
    ensures db.Valid() && Consistent(w, db.committed)
    ensures db.committed == old(db.committed) || PublishedByOneOf(w, runs, db.committed)
  {
    for k := 0 to |runs|
      invariant db.Valid() && Consistent(w, db.committed)
      invariant db.committed == old(db.committed) || PublishedByOneOf(w, runs, db.committed)
    {
      ghost var s, start, inside := db.committed, db.clock, db.inTransaction;
      var r, attempts := IndexRepository(db, w, runs[k].build, runs[k].captures, runs[k].options);
      OutcomeKeeps(w, runs[k].build, runs[k].captures(attempts - 1), runs[k].options, s, db.committed, r,
        inside || db.Faulted(start));
    }
  }

  /** The same for a database that begins empty. */
  method ServeNew(w: World, runs: seq<Run>, fails: nat -> bool) returns (db: Connection)
    requires CollisionFree(w.hash) && forall k :: 0 <= k < |runs| ==> ValidCaptures(w, runs[k].captures)
    ensures fresh(db) && db.Valid() && Consistent(w, db.committed)
    ensures db.committed == EMPTY || PublishedByOneOf(w, runs, db.committed)
  {
    db := new Connection(fails);
    EmptyIsConsistent(w);
    Serve(db, w, runs);
  }
}
