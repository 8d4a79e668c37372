/**
 * What one indexing attempt may end in, and why: the arguments that carry a publication
 * from its rows over identities, checker state and projection to the commit.
 */
module Outcomes {
  import opened Wrappers
  import opened Publication
  import opened Formats
  import opened Tables
  import opened Captures
  import opened Contracts
  import opened Database
  import opened FirstPartyRows
  import opened DependencyFiles
  import opened Checker
  import opened IndexState
  import opened Preparing
  import opened Replacing
  import ByteOrder

  // ---------------------------------------------------------------- identities

  /** The identities of the rows, computed but not yet published. */
  ghost predicate Computed(w: World, b: Build, s: Store, i: Identities) {
    var resolution := w.hash(ResolutionStream(s.edges));
    && CodeFits(CodeInputOf(b, s, resolution)) && DocFits(DocInputOf(b, s))
    && Short(ResolutionStream(s.edges)) && Short(ContextStream(s.contexts))
    && i.code == CodeDigest(w.hash, CodeInputOf(b, s, resolution))
    && i.documentation == DocDigest(w.hash, DocInputOf(b, s))
    && i.provenance == w.provenanceDigest(Provenances(s))
    && i.publication == Fold(w.hash, i.code, i.documentation, i.provenance)
  }

  /** Identities see neither the projection, nor the batches, nor the old identities. */
  lemma ComputedCarriesOver(w: World, b: Build, s: Store, t: Store, i: Identities)
    requires Computed(w, b, s, i) && SameCanonical(s, t)
    ensures Computed(w, b, t, i)
  {
    SameInputs(b, s, t, w.hash(ResolutionStream(s.edges)));
    assert Provenances(s) == Provenances(t);
  }

  // ---------------------------------------------------------------- projection

  /** Rows, markers and identities are complete; `s` is what the attempt began with. */
  ghost predicate Marked(w: World, b: Build, c: Capture, mode: Mode, s: Store, t: Store, p: Preparation, i: Identities) {
    Replaced(w, b, c, mode, s, t, p) && MarkersSet(w, b, c, t) && Computed(w, b, t, i)
  }

  /** The stored projection is kept only if nothing that it was built from has changed. */
  predicate MaySkip(mode: Mode, p: Preparation, code: Text, checkerChanged: bool) {
    mode.Incremental? && !AnyCode(p.changed) && p.previous.code == Some(code) && !checkerChanged
  }

  lemma SkippedProjectionIsCurrent(
      w: World, b: Build, c: Capture, mode: Mode, s: Store, marked: Store, t: Store, p: Preparation, i: Identities, checkerChanged: bool)
    requires CollisionFree(w.hash) && ValidCapture(w, c) && Consistent(w, s)
    requires Marked(w, b, c, mode, s, marked, p, i) && p.previous.code == s.identities.code
    requires OnlyBatches(marked, t) && MaySkip(mode, p, i.code, checkerChanged)
    requires ReportsChange(marked, t, i.code, checkerChanged)
    ensures t.projection == Some(Projected(w, b.projection, t, i.code))
  {
    var a :| BackedBy(w, a, s);
    SkipIsSound(w, a, b, c, p.discovery, s, marked, i.code);
    ProjectionCarriesOver(w, b.projection, marked, t, i.code);
  }

  /** What the report on the accepted facts says is enough for the skip test. */
  lemma SkipAfterReport(
      w: World, b: Build, c: Capture, options: Options, s: Store, marked: Store, t: Store, p: Preparation, i: Identities,
      resolution: Text, changed: bool)
    requires CollisionFree(w.hash) && ValidCapture(w, c) && Consistent(w, s)
    requires Marked(w, b, c, options.mode, s, marked, p, i) && p.previous.code == s.identities.code
    requires Reported(w, options.retention, marked, t, changed, p.previous, i.code, resolution)
    requires marked.ids.Keys == marked.files.Keys
    ensures t.ids.Keys == t.files.Keys
    ensures MaySkip(options.mode, p, i.code, changed) ==> t.projection == Some(Projected(w, b.projection, t, i.code))
  {
    hide CollisionFree, ValidCapture, Consistent, Marked, Projected;
    if MaySkip(options.mode, p, i.code, changed) {
      SkippedProjectionIsCurrent(w, b, c, options.mode, s, marked, t, p, i, changed);
    }
  }

  /** Everything but the published identities is in place. */
  ghost predicate Projecting(w: World, b: Build, c: Capture, p: Preparation, t: Store, i: Identities) {
    && t.ids.Keys == t.files.Keys
    && CanonicalRows(w, b, c, p.discovery, t) && MarkersSet(w, b, c, t) && Computed(w, b, t, i)
    && t.projection == Some(Projected(w, b.projection, t, i.code))
  }

  lemma ComputedIsCurrent(w: World, b: Build, s: Store, i: Identities)
    requires s.ids.Keys == s.files.Keys && Computed(w, b, s, i) && s.identities == Published(i)
    ensures IdentitiesCurrent(w, b, s)
    ensures Short(ResolutionStream(s.edges)) && Short(ContextStream(s.contexts))
  {
  }

  lemma PublishedIsConsistent(w: World, b: Build, c: Capture, p: Preparation, t: Store, i: Identities)
    requires ValidCapture(w, c) && Projecting(w, b, c, p, t, i)
    ensures IsPublication(w, b, c, p.discovery, t.(identities := Published(i)))
    ensures Consistent(w, t.(identities := Published(i)))
  {
    hide Computed, IdentitiesCurrent, CanonicalRows, ContractsSet, Consistent, ValidCapture, Short, ResolutionStream, ContextStream, Projected;
    var u := t.(identities := Published(i));
    ComputedCarriesOver(w, b, t, u, i);
    ComputedIsCurrent(w, b, u, i);
    CanonicalCarriesOver(w, b, c, p.discovery, t, u);
    ContractsCarryOver(w, b, c, t, u);
    ProjectionCarriesOver(w, b.projection, t, u, i.code);
    PublicationIsConsistent(w, b, c, p.discovery, u);
  }

  /** What is left of the checker's work after manual indexing. */
  ghost predicate RetainedProven(w: World, s: Store, t: Store, previous: Previous) {
    && t.inactive == []
    && (t.active.Some? ==>
          && t.identities.code == Some(t.active.value.snapshot)
          && s.active.Some? && t.active.value.facts == s.active.value.facts
          && s.identities.code == Some(s.active.value.snapshot)
          && previous.checker == Some(CheckerIdentity(w, t)) && s.resolution == t.resolution)
  }

  /** The checker's batches are what its policy makes of the earlier ones over the rows of now. */
  ghost predicate BatchesCarried(w: World, b: Build, c: Capture, options: Options, p: Preparation, s: Store, t: Store) {
    && t.ids.Keys == t.files.Keys && t.identities.code.Some? && t.resolution.Some?
    && p.previous.code == s.identities.code && p.previous.resolution == s.resolution && ChangedAre(b, s, p.changed)
    && var (kept, _) := Retained(w, c, options.retention, t.(active := s.active, inactive := s.inactive), p.previous,
         t.identities.code.value, t.resolution.value, JavaScript in p.changed || TypeScript in p.changed, options.mode.FullRefresh?);
       t.inactive == kept.inactive && SameBatch(t.active, kept.active)
  }

  /** Rows, digests, checker state and projection are in place for `i` to be published. */
  ghost predicate Projection(w: World, b: Build, c: Capture, options: Options, p: Preparation, i: Identities, s: Store, t: Store) {
    && Projecting(w, b, c, p, t, i) && |t.inactive| <= 1
    && BatchesCarried(w, b, c, options, p, s, t.(identities := Published(i)))
    && (options.retention == ValidateActive(false) ==> RetainedProven(w, s, t.(identities := Published(i)), p.previous))
  }

  lemma ProvenFrom(w: World, s: Store, marked: Store, t: Store, previous: Previous, i: Identities, resolution: Text)
    requires OnlyProven(w, marked, t, previous, i.code, resolution)
    requires marked.active == s.active && previous.code == s.identities.code && previous.resolution == s.resolution
    requires t.files == marked.files && t.instances == marked.instances && t.resolution == Some(resolution)
    ensures RetainedProven(w, s, t.(identities := Published(i)), previous)
  {
    assert CheckerRows(t.(identities := Published(i))) == CheckerRows(marked);
  }

  lemma CarriedFrom(
      w: World, b: Build, c: Capture, options: Options, s: Store, marked: Store, kept: Store, t: Store,
      p: Preparation, i: Identities, resolution: Text)
    requires Replaced(w, b, c, options.mode, s, marked, p) && marked.resolution == Some(resolution)
    requires OnlyBatches(marked, kept)
    requires kept == Retained(w, c, options.retention, marked, p.previous, i.code, resolution,
                       JavaScript in p.changed || TypeScript in p.changed, options.mode.FullRefresh?).0
    requires t == kept.(projection := t.projection, identities := Published(i))
    ensures BatchesCarried(w, b, c, options, p, s, t)
  {
    var m := t.(active := s.active, inactive := s.inactive);
    assert m.files == marked.files && m.ids == marked.ids && m.instances == marked.instances;
    RetainedDependsOn(w, c, options.retention, m, marked, p.previous, i.code, resolution,
      JavaScript in p.changed || TypeScript in p.changed, options.mode.FullRefresh?);
    hide Retained, CanonicalRows, ContractsSet, CodeUnmoved, DependenciesUnmoved, ChangedAre;
  }

  lemma ProjectingFrom(
      w: World, b: Build, c: Capture, mode: Mode, s: Store, marked: Store, kept: Store, t: Store, p: Preparation, i: Identities)
    requires Marked(w, b, c, mode, s, marked, p, i) && OnlyBatches(marked, kept)
    requires t == kept.(projection := Some(Projected(w, b.projection, kept, i.code)))
    ensures Projecting(w, b, c, p, t, i)
  {
    ComputedCarriesOver(w, b, marked, t, i);
    CanonicalCarriesOver(w, b, c, p.discovery, marked, t);
    ContractsCarryOver(w, b, c, marked, t);
    ProjectionCarriesOver(w, b.projection, kept, t, i.code);
    hide Computed, CanonicalRows, ContractsSet, Projected;
  }

  lemma ProjectionFrom(
      w: World, b: Build, c: Capture, options: Options, s: Store, marked: Store, kept: Store, t: Store,
      p: Preparation, i: Identities, resolution: Text, changed: bool)
    requires Marked(w, b, c, options.mode, s, marked, p, i) && marked.resolution == Some(resolution)
    requires Reported(w, options.retention, marked, kept, changed, p.previous, i.code, resolution)
    requires kept == Retained(w, c, options.retention, marked, p.previous, i.code, resolution,
                       JavaScript in p.changed || TypeScript in p.changed, options.mode.FullRefresh?).0
    requires t == kept.(projection := Some(Projected(w, b.projection, kept, i.code)))
    ensures Projection(w, b, c, options, p, i, s, t)
  {
    ReplacedBatches(w, b, c, options.mode, s, marked, p);
    hide Retained, Replaced, Computed, MarkersSet, BatchesCarried, ReportsChange, Projected, Projecting, RetainedProven;
    ProjectingFrom(w, b, c, options.mode, s, marked, kept, t, p, i);
    CarriedFrom(w, b, c, options, s, marked, kept, t.(identities := Published(i)), p, i, resolution);
    if options.retention == ValidateActive(false) {
      assert OnlyProven(w, marked, t, p.previous, i.code, resolution);
      ProvenFrom(w, s, marked, t, p.previous, i, resolution);
    }
  }

  lemma ReplacedBatches(w: World, b: Build, c: Capture, mode: Mode, s: Store, t: Store, p: Preparation)
    requires Replaced(w, b, c, mode, s, t, p)
    ensures t.active == s.active && t.inactive == s.inactive
    ensures p.previous.code == s.identities.code && p.previous.resolution == s.resolution
  {
  }

  // ---------------------------------------------------------------- publication

  /** What a successful attempt is about to commit; `s` is what it began with. */
  ghost predicate Finished(w: World, b: Build, c: Capture, options: Options, p: Preparation, s: Store, t: Store) {
    && IsPublication(w, b, c, p.discovery, t) && Consistent(w, t) && |t.inactive| <= 1
    && BatchesCarried(w, b, c, options, p, s, t)
    && (options.retention == ValidateActive(false) ==> RetainedProven(w, s, t, p.previous))
  }

  lemma FinishedFrom(w: World, b: Build, c: Capture, options: Options, p: Preparation, i: Identities, s: Store, t: Store)
    requires ValidCapture(w, c) && Projection(w, b, c, options, p, i, s, t)
    ensures Finished(w, b, c, options, p, s, t.(identities := Published(i)))
  {
    PublishedIsConsistent(w, b, c, p, t, i);
  }

  lemma MarkersPut(w: World, b: Build, c: Capture, mode: Mode, s: Store, replaced: Store, t: Store, p: Preparation)
    requires Replaced(w, b, c, mode, s, replaced, p)
    requires t == replaced.(projectionMarker := Some(b.projection), resolution := Some(w.hash(ResolutionStream(replaced.edges))))
    ensures Replaced(w, b, c, mode, s, t, p) && MarkersSet(w, b, c, t)
  {
    CanonicalCarriesOver(w, b, c, p.discovery, replaced, t);
    ContractsCarryOver(w, b, c, replaced, t);
    assert forall q: Text :: KeptAt(s, replaced, q) ==> KeptAt(s, t, q);
  }

  lemma ClashIsBlamed(w: World, b: Build, c: Capture, mode: Mode, s: Store, t: Store, p: Preparation)
    requires Ready(w, b, c, mode, s, t, p)
    requires exists f :: f in p.discovery.files && IsFirstParty(t.files, f.display)
    ensures Blamed(w, b, c, s, DuplicatePath, false)
  {
    var f :| f in p.discovery.files && IsFirstParty(t.files, f.display);
    assert Clashes(w, b, c, t.files, f);
  }

  // ---------------------------------------------------------------- attempts

  /** The committed index is one complete publication of this capture. */
  ghost predicate Commits(w: World, b: Build, c: Capture, s: Store) {
    exists d :: IsPublication(w, b, c, d, s)
  }

  /** Discovery saw the data of all first-party JavaScript and TypeScript files. */
  ghost predicate DiscoveredFrom(c: Capture, t: Store, d: Discovery) {
    exists seen: map<Text, Text> ::
      && c.discover(seen) == Some(d)
      && (forall p :: p in seen <==>
            p in t.files && !t.files[p].origin.Dependency? && (t.files[p].format.JavaScript? || t.files[p].format.TypeScript?))
      && (forall p :: p in seen && p in t.files ==> seen[p] == t.files[p].data)
  }

  /** Resolution saw all code files and all instances. */
  ghost predicate ResolvedFrom(c: Capture, t: Store) {
    exists rows: map<Text, FileRow> ::
      && c.resolve(rows, t.instances) == Some(t.edges)
      && (forall p :: p in rows <==> IsCode(t, p)) && (forall p :: p in rows && p in t.files ==> rows[p] == t.files[p])
  }

  /** The provenance digest is over the provenance of all documents that have one. */
  ghost predicate ProvenanceFrom(w: World, t: Store) {
    exists rows: map<Text, Provenance> ::
      && t.identities.provenance == Some(w.provenanceDigest(rows))
      && (forall p :: p in rows <==> IsDocument(t, p) && t.files[p].provenance.Some?)
      && (forall p :: p in rows && p in t.files ==> Some(rows[p]) == t.files[p].provenance)
  }

  /** What is derived was derived from the committed tables themselves. */
  ghost predicate DerivedFromTables(w: World, b: Build, c: Capture, t: Store) {
    && t.identities.code.Some? && t.projection.Some?
    && BuiltFrom(w, b.projection, t, t.identities.code.value, t.projection.value)
    && (exists d: Discovery :: DiscoveredFrom(c, t, d)) && ResolvedFrom(c, t) && ProvenanceFrom(w, t)
  }

  lemma DiscoverySees(c: Capture, t: Store, d: Discovery)
    requires c.discover(Importers(t.files)) == Some(d)
    ensures DiscoveredFrom(c, t, d)
  {
    var seen := Importers(t.files);
    assert forall p :: p in seen && p in t.files ==> seen[p] == t.files[p].data;
  }

  lemma ResolutionSees(c: Capture, t: Store)
    requires c.resolve(CodeRows(t.files), t.instances) == Some(t.edges)
    ensures ResolvedFrom(c, t)
  {
    var rows := CodeRows(t.files);
    assert forall p :: p in rows && p in t.files ==> rows[p] == t.files[p];
  }

  lemma ProvenanceSees(w: World, t: Store)
    requires t.identities.provenance == Some(w.provenanceDigest(Provenances(t)))
    ensures ProvenanceFrom(w, t)
  {
    var rows := Provenances(t);
    assert forall p :: p in rows && p in t.files ==> Some(rows[p]) == t.files[p].provenance;
  }

  lemma PublicationIsDerived(w: World, b: Build, c: Capture, d: Discovery, t: Store)
    requires IsPublication(w, b, c, d, t)
    ensures DerivedFromTables(w, b, c, t)
  {
    assert c.discover(Importers(t.files)) == Some(d) && c.resolve(CodeRows(t.files), t.instances) == Some(t.edges);
    assert t.identities.code.Some? && t.identities.provenance == Some(w.provenanceDigest(Provenances(t)));
    hide Projected, BuiltFrom, CodeInputOf, DocInputOf, ResolutionStream, CodeFits, DocFits, IsPublication, CanonicalRows, MarkersSet,
         IdentitiesCurrent, DiscoveredFrom, ResolvedFrom, ProvenanceFrom, Importers, CodeRows, Provenances;
    ProjectedIsBuilt(w, b.projection, t, t.identities.code.value);
    DiscoverySees(c, t, d);
    ResolutionSees(c, t);
    ProvenanceSees(w, t);
  }

  /** A whole new publication, made from a capture that was stable throughout. */
  ghost predicate Succeeds(w: World, b: Build, c: Capture, options: Options, s: Store, t: Store) {
    && (c.freshness ==> c.stableEarly && c.stableLate)
    && DerivedFromTables(w, b, c, t)
    && exists p :: Finished(w, b, c, options, p, s, t)
         && (options.retention.ValidateActive? ==> p.previous.checker == Some(CheckerIdentity(w, s)))
  }

  lemma SucceedsFrom(w: World, b: Build, c: Capture, options: Options, s: Store, t: Store, p: Preparation, faulted: bool)
    requires Finished(w, b, c, options, p, s, t) && (c.freshness ==> c.stableEarly && c.stableLate)
    requires options.retention.ValidateActive? ==> p.previous.checker == Some(CheckerIdentity(w, s))
    ensures Outcome(w, b, c, options, s, t, Ok(()), faulted)
  {
    PublicationIsDerived(w, b, c, p.discovery, t);
    hide IsPublication, DerivedFromTables, Consistent, RetainedProven, CheckerIdentity;
  }

  lemma BlamedAtTheEnd(w: World, b: Build, c: Capture, s: Store, e: Error, faulted: bool)
    requires (e == ProvenanceDrift && c.freshness && !c.stableLate) || (e == SqlFailure && faulted)
    ensures Blamed(w, b, c, s, e, faulted)
  {
  }

  /** All or nothing, and in either case a state that can be refreshed again. */
  ghost predicate Outcome(
      w: World, b: Build, c: Capture, options: Options, s: Store, t: Store, r: Result<(), Error>, faulted: bool) {
    && Consistent(w, t)
    && match r
       case Ok(_) => Succeeds(w, b, c, options, s, t)
       case Err(e) => t == s && Blamed(w, b, c, s, e, faulted)
  }

  lemma OutcomeIsDerived(
      w: World, b: Build, c: Capture, options: Options, s: Store, t: Store, r: Result<(), Error>, faulted: bool)
    requires Outcome(w, b, c, options, s, t, r, faulted) && r.Ok?
    ensures DerivedFromTables(w, b, c, t)
  {
    hide Consistent, DerivedFromTables, Finished, CheckerIdentity;
  }

  lemma FailsFrom(w: World, b: Build, c: Capture, options: Options, s: Store, e: Error, before: bool, after: bool)
    requires Consistent(w, s) && Blamed(w, b, c, s, e, before) && (before ==> after)
    ensures Outcome(w, b, c, options, s, s, Err(e), after)
  {
    BlamedStill(w, b, c, s, e, before, after);
  }

  /** What the two stages inside the transaction have come to. */
  ghost predicate Staged(
      w: World, b: Build, c: Capture, options: Options, s: Store, live: Store, r: Result<Preparation, Error>, faulted: bool) {
    match r
    case Ok(p) =>
      && Finished(w, b, c, options, p, s, live) && (c.freshness ==> c.stableEarly)
      && (options.retention.ValidateActive? ==> p.previous.checker == Some(CheckerIdentity(w, s)))
    case Err(e) => Blamed(w, b, c, s, e, faulted)
  }

  /** What the two stages said, and then the commit, decides the outcome. */
  lemma OutcomeFrom(
      w: World, b: Build, c: Capture, options: Options, s: Store, live: Store, committed: Store,
      refreshed: Result<Preparation, Error>, before: bool, r: Result<(), Error>, after: bool)
    requires Consistent(w, s) && (before ==> after)
    requires Staged(w, b, c, options, s, live, refreshed, before)
    requires refreshed.Err? ==> r == Err(refreshed.error)
    requires refreshed.Ok? && r.Ok? ==> committed == live && !(c.freshness && !c.stableLate)
    requires refreshed.Ok? && r.Err? ==>
      if c.freshness && !c.stableLate then r.error == ProvenanceDrift else r.error == SqlFailure && after
    requires r.Err? ==> committed == s
    ensures Outcome(w, b, c, options, s, committed, r, after)
  {
    if refreshed.Err? {
      FailsFrom(w, b, c, options, s, refreshed.error, before, after);
    } else if r.Ok? {
      SucceedsFrom(w, b, c, options, s, live, refreshed.value, after);
    } else {
      BlamedAtTheEnd(w, b, c, s, r.error, after);
      FailsFrom(w, b, c, options, s, r.error, after, after);
    }
  }

  lemma OutcomeStill(
      w: World, b: Build, c: Capture, options: Options, s: Store, t: Store, r: Result<(), Error>, before: bool, after: bool)
    requires Outcome(w, b, c, options, s, t, r, before) && (before ==> after)
    ensures Outcome(w, b, c, options, s, t, r, after)
  {
    if r.Err? {
      BlamedStill(w, b, c, s, r.error, before, after);
    }
  }

  // ---------------------------------------------------------------- bounded retry

  lemma DriftChangesNothing(
      w: World, b: Build, c: Capture, options: Options, s: Store, t: Store, r: Result<(), Error>, faulted: bool)
    requires Outcome(w, b, c, options, s, t, r, faulted)
    ensures Consistent(w, t) && (r.Err? ==> t == s)
    ensures r == Err(ProvenanceDrift) ==> c.freshness && !(c.stableEarly && c.stableLate)
  {
  }

  lemma OutcomeKeeps(
      w: World, b: Build, c: Capture, options: Options, s: Store, t: Store, r: Result<(), Error>, faulted: bool)
    requires Outcome(w, b, c, options, s, t, r, faulted)
    ensures Consistent(w, t)
    ensures t == s || Commits(w, b, c, t)
  {
  }

  /**
   * Incremental refines full: whatever two stores two attempts started from, and in
   * whatever modes they ran, if both succeed on the same capture then they commit the
   * same rows, edges, markers and identities.
   */
  lemma IncrementalRefinesFull(
      w: World, b: Build, c: Capture, x: Options, y: Options, s: Store, t: Store, s': Store, t': Store, f: bool, f': bool)
    requires Outcome(w, b, c, x, s, t, Ok(()), f) && Outcome(w, b, c, y, s', t', Ok(()), f')
    ensures SameCanonical(t, t') && t.identities == t'.identities
  {
    var p :| Finished(w, b, c, x, p, s, t);
    var q :| Finished(w, b, c, y, q, s', t');
    PublicationUnique(w, b, c, p.discovery, t, q.discovery, t');
  }

  // ---------------------------------------------------------------- what the checker keeps

  /**
   * What manual indexing asks of the checker's active batch: it was found for the code
   * digest published before, the checker's inputs, files and resolution are what they were,
   * no checked format was extracted anew under another contract, and the digest is the same
   * or each item of the batch has exactly one call site in the rows of now.
   */
  ghost predicate BatchServes(w: World, b: Build, c: Capture, mode: Mode, s: Store, t: Store)
    requires t.ids.Keys == t.files.Keys
  {
    && c.checkerInputsFresh && s.active.Some? && s.identities.code == Some(s.active.value.snapshot)
    && CheckerIdentity(w, s) == CheckerIdentity(w, t) && s.resolution == t.resolution
    && !Outdated(b, s, JavaScript) && !Outdated(b, s, TypeScript)
    && ((mode.Incremental? && s.identities.code == t.identities.code) || w.mapped(s.active.value.facts, CodeViews(t)))
  }

  lemma ServesIff(w: World, b: Build, c: Capture, mode: Mode, p: Preparation, s: Store, t: Store, m: Store)
    requires t.ids.Keys == t.files.Keys && m.files == t.files && m.ids == t.ids && m.instances == t.instances && m.active == s.active
    requires t.identities.code.Some? && t.resolution.Some? && ChangedAre(b, s, p.changed)
    requires p.previous == Previous(s.identities.code, s.resolution, Some(CheckerIdentity(w, s)))
    ensures StillServes(w, c, m, p.previous, t.identities.code.value, t.resolution.value,
              JavaScript in p.changed || TypeScript in p.changed, mode.FullRefresh?)
       <==> BatchServes(w, b, c, mode, s, t)
  {
    SeesBatchless(w, t, m);
    hide CheckerIdentity, CodeViews, Outdated;
  }

  lemma SeesBatchless(w: World, x: Store, y: Store)
    requires x.ids.Keys == x.files.Keys && x.files == y.files && x.ids == y.ids && x.instances == y.instances
    ensures CodeViews(x) == CodeViews(y) && CheckerIdentity(w, x) == CheckerIdentity(w, y)
  {
    assert CheckerRows(x) == CheckerRows(y);
  }

  lemma CarriedServes(w: World, b: Build, c: Capture, options: Options, p: Preparation, s: Store, t: Store)
    requires BatchesCarried(w, b, c, options, p, s, t) && options.retention == ValidateActive(false)
    requires p.previous.checker == Some(CheckerIdentity(w, s))
    ensures t.active.Some? <==> BatchServes(w, b, c, options.mode, s, t)
  {
    ServesIff(w, b, c, options.mode, p, s, t, t.(active := s.active, inactive := s.inactive));
    hide StillServes, BatchServes, ChangedAre, CheckerIdentity, CarrySource, WithCarryOnly;
  }

  /** A batch survives manual indexing exactly if it serves the code of now. */
  lemma BatchSurvivesIff(w: World, b: Build, c: Capture, options: Options, s: Store, t: Store, faulted: bool)
    requires Outcome(w, b, c, options, s, t, Ok(()), faulted) && options.retention == ValidateActive(false)
    ensures t.ids.Keys == t.files.Keys && (t.active.Some? <==> BatchServes(w, b, c, options.mode, s, t))
  {
    hide Consistent, DerivedFromTables, IsPublication, RetainedProven, BatchServes;
    var p :| Finished(w, b, c, options, p, s, t) && p.previous.checker == Some(CheckerIdentity(w, s));
    CarriedServes(w, b, c, options, p, s, t);
  }
}
