/**
 * The first stage of an attempt: markers are brought up to date, stored rows are
 * invalidated or wiped, and the repository's own rows are made current.
 */
module Preparing {
  import opened Wrappers
  import opened Publication
  import opened Formats
  import opened Tables
  import opened Captures
  import opened Contracts
  import opened Database
  import opened FirstPartyRows
  import opened DependencyFiles
  import opened Checker
  import opened IndexState
  import Dependency

  datatype Mode = Incremental | FullRefresh

  datatype Options = Options(mode: Mode, retention: Retention)

  // ---------------------------------------------------------------- failures

  /** A planned dependency file has the path of a file of the repository. */
  ghost predicate Clashes(w: World, b: Build, c: Capture, files: map<Text, FileRow>, f: DependencyFile) {
    && FirstPartyDone(w, b, c, files) && IsFirstParty(files, f.display)
    && c.discover(Importers(files)).Some? && f in c.discover(Importers(files)).value.files
  }

  /** Why an attempt may fail; the rows that are mentioned are those of the capture. */
  ghost predicate Blamed(w: World, b: Build, c: Capture, s: Store, e: Error, faulted: bool) {
    match e
    case SqlFailure => faulted
    case RetryableRead => exists f :: f in c.code && f.read.Retryable?
    case ProvenanceDrift => c.freshness && !(c.stableEarly && c.stableLate)
    case DuplicatePath =>
      (exists p :: Captured(c, p) && IsDependency(s.files, p)) || (exists files, f :: Clashes(w, b, c, files, f))
    case DiscoveryFailure => exists files :: FirstPartyDone(w, b, c, files) && c.discover(Importers(files)).None?
    case ResolutionFailure => exists d, t :: CanonicalFiles(w, b, c, d, t) && c.resolve(CodeRows(t.files), t.instances).None?
    case TooLarge => exists d, t :: CanonicalRows(w, b, c, d, t) && MarkersSet(w, b, c, t) && TooMuch(w, b, t)
  }

  lemma BlamedStill(w: World, b: Build, c: Capture, s: Store, e: Error, before: bool, after: bool)
    requires Blamed(w, b, c, s, e, before) && (before ==> after)
    ensures Blamed(w, b, c, s, e, after)
  {
  }

  lemma FaultIsBlamed(w: World, b: Build, c: Capture, s: Store)
    ensures Blamed(w, b, c, s, SqlFailure, true)
  {
  }

  // ---------------------------------------------------------------- markers first

  datatype Stale = Stale(changed: set<Format>, relaid: bool, editions: map<Text, Text>)

  ghost predicate MarkersEnsured(w: World, b: Build, c: Capture, s: Store, t: Store, stale: Stale) {
    && ContractsSet(w, b, c, t)
    && t.files == Invalidated(s.files, stale.changed) && t.ids == s.ids && t.ids.Keys == t.files.Keys
    && t.instances == s.instances && t.edges == s.edges
    && t.active == s.active && t.inactive == s.inactive
    && stale.editions == s.contexts && ChangedAre(b, s, stale.changed)
    && (!AnyCode(stale.changed) ==> t.projection == s.projection)
    && Reusable(w, b, stale.editions, stale.changed, stale.relaid, t.files)
  }

  lemma ContractsFrom(w: World, b: Build, c: Capture, s: Store, t: Store, v: Store, changed: set<Format>)
    requires ContractsEnsured(b, s, t, changed)
    requires v == t.(provenanceMarker := Some(b.provenance), contexts := c.editions,
      fingerprint := if c.editions == map[] then None else Some(w.hash(ContextStream(c.editions))))
    ensures ContractsSet(w, b, c, v)
  {
    assert forall f: Format :: MarkerOf(v, f) == MarkerOf(t, f);
  }

  lemma MarkersFrom(w: World, b: Build, c: Capture, s: Store, t: Store, v: Store, stale: Stale)
    requires Faithful(w, s) && s.ids.Keys == s.files.Keys && ContractsEnsured(b, s, t, stale.changed)
    requires stale.relaid == (s.provenanceMarker != Some(b.provenance)) && stale.editions == s.contexts
    requires v == t.(provenanceMarker := Some(b.provenance), contexts := c.editions,
      fingerprint := if c.editions == map[] then None else Some(w.hash(ContextStream(c.editions))))
    ensures MarkersEnsured(w, b, c, s, v, stale)
  {
    InvalidationIsSound(w, b, s, t, stale.changed);
    ContractsFrom(w, b, c, s, t, v, stale.changed);
  }

  method EnsureMarkers(db: Connection, w: World, b: Build, c: Capture) returns (r: Result<Stale, Error>)
    requires Consistent(w, db.live)
    modifies db`live, db`clock
    ensures db.clock >= old(db.clock)
    ensures r.Ok? ==> MarkersEnsured(w, b, c, old(db.live), db.live, r.value)
    ensures r.Err? ==> r.error == SqlFailure && db.Faulted(old(db.clock))
    ensures r.Ok? ==> !db.Faulted(old(db.clock))
  {
    ghost var s := db.live;
    var changed := EnsureFormatContracts(db, b);
    if changed.Err? {
      return Err(changed.error);
    }
    ghost var t := db.live;
    var relaid := EnsureProvenanceFormat(db, b);
    if relaid.Err? {
      return Err(relaid.error);
    }
    var editions := EnsureRustEditionContext(db, w.hash, c.editions);
    if editions.Err? {
      return Err(editions.error);
    }
    MarkersFrom(w, b, c, s, t, db.live, Stale(changed.value, relaid.value, editions.value));
    r := Ok(Stale(changed.value, relaid.value, editions.value));
  }

  // ---------------------------------------------------------------- preparation

  /** `reset_snapshot_state`: every repository-derived row goes, batches and editions stay. */
  function Reset(s: Store): Store {
    s.(files := map[], ids := map[], instances := map[], edges := [], projection := None,
       identities := s.identities.(snapshot := None, provenance := None), projectionMarker := None, resolution := None)
  }

  datatype Preparation = Preparation(previous: Previous, changed: set<Format>, discovery: Discovery)

  /** The rows of the repository are done; everything published before is withdrawn. */
  ghost predicate Ready(w: World, b: Build, c: Capture, mode: Mode, s: Store, t: Store, p: Preparation) {
    && t.ids.Keys == t.files.Keys
    && FirstPartyDone(w, b, c, t.files) && ContractsSet(w, b, c, t)
    && c.discover(Importers(t.files)) == Some(p.discovery)
    && Dependency.References(t)
    && (forall q :: IsDependency(t.files, q) ==> ReusableDependency(w, b, q, t.files[q]))
    && t.identities == NO_IDENTITIES
    && t.active == s.active && t.inactive == s.inactive
    && p.previous.code == s.identities.code && p.previous.resolution == s.resolution && ChangedAre(b, s, p.changed)
    && (mode.Incremental? && !AnyCode(p.changed) ==>
          t.projection == s.projection && CodeUnmoved(w, c, s, t) && SameDependencies(s, t))
  }

  lemma NothingInvalidated(files: map<Text, FileRow>, changed: set<Format>)
    requires !AnyCode(changed)
    ensures Invalidated(files, changed) == files
  {
  }

  /** Invalidation and the first-party loops leave the dependency rows usable. */
  lemma DependenciesReusable(w: World, b: Build, c: Capture, s: Store, t: Store, u: Store, stale: Stale)
    requires Shaped(w, s) && MarkersEnsured(w, b, c, s, t, stale)
    requires SameDependencies(t, u) && u.instances == t.instances
    ensures Dependency.References(u)
    ensures forall q :: IsDependency(u.files, q) ==> ReusableDependency(w, b, q, u.files[q])
  {
    hide ContractsSet, ChangedAre;
    forall q | IsDependency(u.files, q)
      ensures u.files[q].package.Some? && Dependency.RefersTo(u, q) && ReusableDependency(w, b, q, u.files[q])
    {
      assert SameAt(t, u, q);
      assert ShapedRow(w, s, q);
      assert ReusableRow(w, b, stale.editions, stale.changed, stale.relaid, q, t.files[q]);
    }
  }

  /** The markers are set and, for a full refresh, the tables are empty. */
  ghost predicate Started(w: World, b: Build, c: Capture, mode: Mode, s: Store, t: Store, stale: Stale) {
    && ContractsSet(w, b, c, t) && t.ids.Keys == t.files.Keys
    && t.active == s.active && t.inactive == s.inactive && ChangedAre(b, s, stale.changed)
    && (mode.Incremental? ==> MarkersEnsured(w, b, c, s, t, stale))
    && (mode.FullRefresh? ==> t.files == map[])
    && Reusable(w, b, stale.editions, stale.changed, stale.relaid, FirstParty(t.files))
    && (forall p :: IsFirstParty(t.files, p) && CorpusOf(t.files[p].format).Code? ==> t.files[p].provenance.None?)
  }

  lemma IncrementalStarts(w: World, b: Build, c: Capture, s: Store, t: Store, stale: Stale)
    requires Shaped(w, s) && MarkersEnsured(w, b, c, s, t, stale)
    ensures Started(w, b, c, Incremental, s, t, stale)
  {
    forall p | IsFirstParty(t.files, p)
      ensures ReusableRow(w, b, stale.editions, stale.changed, stale.relaid, p, t.files[p])
      ensures CorpusOf(t.files[p].format).Code? ==> t.files[p].provenance.None?
    {
      assert ShapedRow(w, s, p);
    }
  }

  lemma FullStarts(w: World, b: Build, c: Capture, s: Store, t: Store, stale: Stale)
    requires ContractsSet(w, b, c, t) && t.active == s.active && t.inactive == s.inactive && ChangedAre(b, s, stale.changed)
    ensures Started(w, b, c, FullRefresh, s, Reset(t), stale)
  {
    hide ChangedAre;
    ContractsCarryOver(w, b, c, t, Reset(t));
  }

  lemma Starts(w: World, b: Build, c: Capture, mode: Mode, s: Store, t: Store, stale: Stale)
    requires Shaped(w, s) && MarkersEnsured(w, b, c, s, t, stale)
    ensures Started(w, b, c, mode, s, if mode.Incremental? then t else Reset(t), stale)
  {
    if mode.Incremental? {
      hide Shaped, ContractsSet, ChangedAre, Reusable, Started;
      IncrementalStarts(w, b, c, s, t, stale);
    } else {
      hide Shaped, ContractsSet, ChangedAre, Reusable, Started;
      FullStarts(w, b, c, s, t, stale);
    }
  }

  method Start(db: Connection, w: World, b: Build, c: Capture, mode: Mode) returns (r: Result<Stale, Error>)
    requires Consistent(w, db.live)
    modifies db`live, db`clock
    ensures db.clock >= old(db.clock)
    ensures r.Ok? ==> Started(w, b, c, mode, old(db.live), db.live, r.value)
    ensures r.Err? ==> r.error == SqlFailure && db.Faulted(old(db.clock))
    ensures r.Ok? ==> !db.Faulted(old(db.clock))
  {
    assert Shaped(w, db.live);
    hide Consistent, Shaped, Started, MarkersEnsured, Reset, Fails;
    ghost var s, start := db.live, db.clock;
    r := EnsureMarkers(db, w, b, c);
    if r.Err? {
      return;
    }
    Starts(w, b, c, mode, s, db.live, r.value);
    if mode.FullRefresh? {
      ghost var middle := db.clock;
      var ok := db.Execute();
      FailsOnce(db.fails, middle);
      FailsJoin(db.fails, start, middle, db.clock);
      if !ok {
        return Err(SqlFailure);
      }
      db.live := Reset(db.live);
    }
  }

  /** The repository's rows and the dependencies that they ask for. */
  ghost predicate Refreshed(w: World, b: Build, c: Capture, stale: Stale, t: Store, u: Store, d: Discovery) {
    && OnlyRows(t, u) && FirstPartyDone(w, b, c, u.files) && SameDependencies(t, u)
    && CodeKept(w, c, stale.editions, FirstParty(t.files), t, u)
    && c.discover(Importers(u.files)) == Some(d)
  }

  lemma StartedIsReusable(w: World, b: Build, c: Capture, mode: Mode, s: Store, t: Store, stale: Stale)
    requires ValidCapture(w, c) && Started(w, b, c, mode, s, t, stale)
    ensures DistinctPaths(c) && ValidFormats(c) && t.ids.Keys == t.files.Keys
    ensures Reusable(w, b, stale.editions, stale.changed, stale.relaid, FirstParty(t.files))
    ensures forall p :: p in FirstParty(t.files) && CorpusOf(FirstParty(t.files)[p].format).Code? ==> FirstParty(t.files)[p].provenance.None?
    ensures forall q :: IsDependency(t.files, q) ==> IsDependency(s.files, q)
  {
  }

  method RefreshRows(db: Connection, w: World, b: Build, c: Capture, mode: Mode, stale: Stale, ghost s: Store)
    returns (r: Result<Discovery, Error>)
    requires CollisionFree(w.hash) && ValidCapture(w, c)
    requires Started(w, b, c, mode, s, db.live, stale)
    modifies db`live, db`clock
    ensures db.clock >= old(db.clock)
    ensures r.Ok? ==> Refreshed(w, b, c, stale, old(db.live), db.live, r.value)
    ensures r.Err? ==> Blamed(w, b, c, s, r.error, db.Faulted(old(db.clock)))
    ensures r.Ok? ==> !db.Faulted(old(db.clock))
  {
    ghost var t := db.live;
    StartedIsReusable(w, b, c, mode, s, t, stale);
    hide Started, ValidCapture, CollisionFree, DistinctPaths, ValidFormats, Reusable, CodeKept, FirstPartyDone, SameDependencies;
    hide Blamed, Fails, OnlyRows;
    FaultIsBlamed(w, b, c, s);
    ghost var start := db.clock;
    var refreshed := RefreshFirstParty(db, w, b, c, stale.editions, stale.changed, stale.relaid, FirstParty(db.live.files));
    if refreshed.Err? {
      if refreshed.error != SqlFailure {
        CaptureIsBlamed(w, b, c, s, t, refreshed.error, db.Faulted(start));
      }
      return Err(refreshed.error);
    }
    ghost var middle := db.clock;
    var ok := db.Execute();
    FailsOnce(db.fails, middle);
    FailsJoin(db.fails, start, middle, db.clock);
    if !ok {
      return Err(SqlFailure);
    }
    var discovered := c.discover(Importers(db.live.files));
    if discovered.None? {
      UndiscoveredIsBlamed(w, b, c, s, db.live.files, db.Faulted(start));
      return Err(DiscoveryFailure);
    }
    r := Ok(discovered.value);
  }

  lemma CaptureIsBlamed(w: World, b: Build, c: Capture, s: Store, t: Store, e: Error, faulted: bool)
    requires e == RetryableRead ==> exists f :: f in c.code && f.read.Retryable?
    requires e == DuplicatePath ==> exists p :: Captured(c, p) && IsDependency(t.files, p)
    requires forall q :: IsDependency(t.files, q) ==> IsDependency(s.files, q)
    requires e == RetryableRead || e == DuplicatePath
    ensures Blamed(w, b, c, s, e, faulted)
  {
    hide Captured;
    if e == DuplicatePath {
      var q :| Captured(c, q) && IsDependency(t.files, q);
      assert IsDependency(s.files, q);
    }
  }

  lemma UndiscoveredIsBlamed(w: World, b: Build, c: Capture, s: Store, files: map<Text, FileRow>, faulted: bool)
    requires FirstPartyDone(w, b, c, files) && c.discover(Importers(files)).None?
    ensures Blamed(w, b, c, s, DiscoveryFailure, faulted)
  {
  }

  lemma NoDependenciesAfterReset(t: Store, u: Store)
    requires t.files == map[] && SameDependencies(t, u)
    ensures forall q :: !IsDependency(u.files, q)
  {
    forall q: Text
      ensures !IsDependency(u.files, q)
    {
      assert IsDependency(u.files, q) ==> SameAt(t, u, q);
    }
  }

  lemma UnmovedFrom(w: World, b: Build, c: Capture, s: Store, t: Store, u: Store, v: Store, stale: Stale, d: Discovery)
    requires MarkersEnsured(w, b, c, s, t, stale) && !AnyCode(stale.changed)
    requires Refreshed(w, b, c, stale, t, u, d) && v.files == u.files && v.ids == u.ids
    ensures CodeUnmoved(w, c, s, v) && SameDependencies(s, v) && t.projection == s.projection
  {
    NothingInvalidated(s.files, stale.changed);
    assert forall q: Text :: SameAt(t, u, q) ==> SameAt(s, v, q);
  }

  lemma DependenciesCarryOver(t: Store, u: Store, v: Store)
    requires SameDependencies(t, u) && v.files == u.files && v.ids == u.ids
    ensures SameDependencies(t, v)
  {
    assert forall q: Text :: SameAt(t, u, q) ==> SameAt(t, v, q);
  }

  lemma ReadyFrom(w: World, b: Build, c: Capture, mode: Mode, s: Store, t: Store, u: Store, stale: Stale, p: Preparation)
    requires Shaped(w, s) && Started(w, b, c, mode, s, t, stale)
    requires Refreshed(w, b, c, stale, t, u, p.discovery) && p.changed == stale.changed
    requires p.previous.code == s.identities.code && p.previous.resolution == s.resolution
    ensures Ready(w, b, c, mode, s, u.(identities := NO_IDENTITIES, projectionMarker := None, resolution := None), p)
  {
    hide Shaped, MarkersEnsured, ContractsSet, FirstPartyDone, CodeKept, ChangedAre, Reusable, CodeUnmoved, SameDependencies;
    hide ReusableDependency, Importers, FirstParty;
    var v := u.(identities := NO_IDENTITIES, projectionMarker := None, resolution := None);
    ContractsCarryOver(w, b, c, t, v);
    DependenciesCarryOver(t, u, v);
    if mode.Incremental? {
      DependenciesReusable(w, b, c, s, t, v, stale);
      if !AnyCode(stale.changed) {
        UnmovedFrom(w, b, c, s, t, u, v, stale, p.discovery);
      }
    } else {
      NoDependenciesAfterReset(t, v);
    }
  }

  method Prepare(db: Connection, w: World, b: Build, c: Capture, options: Options) returns (r: Result<Preparation, Error>)
    requires CollisionFree(w.hash) && ValidCapture(w, c)
    requires Consistent(w, db.live)
    modifies db`live, db`clock
    ensures db.clock >= old(db.clock)
    ensures r.Ok? ==> Ready(w, b, c, options.mode, old(db.live), db.live, r.value)
    ensures r.Ok? && options.retention.ValidateActive? ==> r.value.previous.checker == Some(CheckerIdentity(w, old(db.live)))
    ensures r.Err? ==> Blamed(w, b, c, old(db.live), r.error, db.Faulted(old(db.clock)))
    ensures r.Ok? ==> !db.Faulted(old(db.clock))
  {
    assert Shaped(w, db.live);
    hide CollisionFree, ValidCapture, Consistent, Ready, Started, Refreshed, Shaped, ChangedAre, Blamed;
    FaultIsBlamed(w, b, c, db.live);
    ghost var s, start := db.live, db.clock;
    var ok := db.Execute();
    if !ok {
      return Err(SqlFailure);
    }
    var checker := if options.retention.ValidateActive? then Some(CheckerIdentity(w, db.live)) else None;
    var previous := Previous(db.live.identities.code, db.live.resolution, checker);
    var started := Start(db, w, b, c, options.mode);
    if started.Err? {
      return Err(started.error);
    }
    ghost var t, middle := db.live, db.clock;
    var refreshed := RefreshRows(db, w, b, c, options.mode, started.value, s);
    if refreshed.Err? {
      BlamedStill(w, b, c, s, refreshed.error, db.Faulted(middle), db.Faulted(start));
      return Err(refreshed.error);
    }
    var prepared := Preparation(previous, started.value.changed, refreshed.value);
    ReadyFrom(w, b, c, options.mode, s, t, db.live, started.value, prepared);
    db.live := db.live.(identities := NO_IDENTITIES, projectionMarker := None, resolution := None);
    r := Ok(prepared);
  }
}
