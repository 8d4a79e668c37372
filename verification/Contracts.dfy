/**
 * The markers that say which rows an earlier build left behind may be kept:
 * extraction contracts per format, the Rust editions, and the provenance layout.
 */
module Contracts {
  import opened Wrappers
  import opened Publication
  import opened Formats
  import opened Tables
  import opened Captures
  import opened Database

  /** The contract the rows of a format were extracted under, if anything says so. */
  function EffectiveVersion(s: Store, f: Format): Option<Text> {
    if f in s.contracts then Some(s.contracts[f])
    else
      match ContractOf(f)
      case LegacyCode => s.extractionMarker
      case LegacyDocumentation => s.chunkMarker
      case PerFormatWhenPresent => None
  }

  // ---------------------------------------------------------------- what stored rows are worth

  /** What the markers of a store claim about one row is true. */
  ghost predicate FaithfulRow(w: World, s: Store, p: Text)
    requires p in s.files
  {
    var row := s.files[p];
    var v := EffectiveVersion(s, row.format);
    && (CorpusOf(row.format).Code? && row.hash != [] && v.Some? && (row.format.Rust? ==> p in s.contexts) ==>
          Extracted(w, v.value, ContextOf(s.contexts, row.format, p), p, row))
    && (CorpusOf(row.format).Docs? && v.Some? ==> Chunked(w, v.value, p, row))
    && (row.provenance.Some? && s.provenanceMarker.Some? ==> row.provenance.value.format == s.provenanceMarker.value)
  }

  ghost predicate Faithful(w: World, s: Store) {
    forall p :: p in s.files ==> FaithfulRow(w, s, p)
  }

  /** What may be concluded from a row that the invalidation left in place. */
  ghost predicate ReusableRow(
      w: World, b: Build, previous: map<Text, Text>, changed: set<Format>, relaid: bool, p: Text, row: FileRow) {
    && (CorpusOf(row.format).Code? && row.hash != [] && (row.format.Rust? ==> p in previous) ==>
          Extracted(w, VersionOf(b, row.format), ContextOf(previous, row.format, p), p, row))
    && (CorpusOf(row.format).Docs? && row.format !in changed ==> Chunked(w, VersionOf(b, row.format), p, row))
    && (row.provenance.Some? && !relaid ==> row.provenance.value.format == b.provenance)
  }

  ghost predicate Reusable(
      w: World, b: Build, previous: map<Text, Text>, changed: set<Format>, relaid: bool, files: map<Text, FileRow>) {
    forall p :: p in files ==> ReusableRow(w, b, previous, changed, relaid, p, files[p])
  }

  // ---------------------------------------------------------------- extraction contracts

  /** An empty hash matches no source, so the row will be extracted again. */
  function Invalidated(files: map<Text, FileRow>, changed: set<Format>): map<Text, FileRow> {
    map p | p in files ::
      if CorpusOf(files[p].format).Code? && files[p].format in changed then files[p].(hash := []) else files[p]
  }

  function WithoutProjection(s: Store): Store {
    s.(projection := None, identities := s.identities.(code := None, snapshot := None), projectionMarker := None)
  }

  predicate AnyCode(changed: set<Format>) {
    exists f :: f in changed && CorpusOf(f).Code?
  }

  /** Rows of the format exist and were extracted under another contract. */
  predicate Outdated(b: Build, s: Store, f: Format) {
    Present(s, f) && EffectiveVersion(s, f) != Some(VersionOf(b, f))
  }

  /** What the rows of a format were extracted under, by its own marker or the older one that stood for it. */
  lemma OutdatedMeans(b: Build, s: Store, f: Format)
    ensures Outdated(b, s, f) <==>
      && (exists p :: p in s.files && s.files[p].format == f)
      && match f
         case JavaScript => (if f in s.contracts then Some(s.contracts[f]) else s.extractionMarker) != Some(b.extraction)
         case TypeScript => (if f in s.contracts then Some(s.contracts[f]) else s.extractionMarker) != Some(b.extraction)
         case Markdown => (if f in s.contracts then Some(s.contracts[f]) else s.chunkMarker) != Some(b.chunk)
         case Mdx => (if f in s.contracts then Some(s.contracts[f]) else s.chunkMarker) != Some(b.chunk)
         case Rust => f !in s.contracts || s.contracts[f] != b.rust
  {
  }

  /** Where a code format is outdated, what is derived from code is withdrawn; otherwise it stays. */
  ghost predicate ProjectionWithdrawn(s: Store, t: Store, changed: set<Format>) {
    if exists f :: f in changed && (f.JavaScript? || f.TypeScript? || f.Rust?)
    then t.projection.None? && t.identities.code.None? && t.identities.snapshot.None? && t.projectionMarker.None?
    else t.projection == s.projection && t.identities == s.identities && t.projectionMarker == s.projectionMarker
  }

  lemma EnsuredWithdraws(b: Build, s: Store, t: Store, changed: set<Format>)
    requires ContractsEnsured(b, s, t, changed)
    ensures ProjectionWithdrawn(s, t, changed)
  {
  }

  /** These are the formats whose rows were extracted under another contract. */
  ghost predicate ChangedAre(b: Build, s: Store, changed: set<Format>) {
    forall f :: f in changed <==> Outdated(b, s, f)
  }

  ghost predicate ContractsEnsured(b: Build, s: Store, t: Store, changed: set<Format>) {
    && (forall f :: f in changed <==> Outdated(b, s, f))
    && (forall f: Format :: MarkerOf(t, f) == Some(VersionOf(b, f)))
    && t.files == Invalidated(s.files, changed)
    && t == (if AnyCode(changed) then WithoutProjection(s) else s).(
         files := t.files, contracts := t.contracts,
         extractionMarker := Some(b.extraction), chunkMarker := Some(b.chunk))
  }

  /** What one round of the loop over the registered formats does. */
  ghost predicate ContractEnsured(b: Build, s: Store, t: Store, f: Format, updated: bool) {
    && updated == Outdated(b, s, f)
    && t == s.(contracts := s.contracts[f := VersionOf(b, f)], files := if updated then Invalidated(s.files, {f}) else s.files)
  }

  method SetContract(db: Connection, f: Format, version: Text) returns (ok: bool)
    modifies db`live, db`clock
    ensures db.clock == old(db.clock) + 1 && ok == !db.fails(old(db.clock))
    ensures db.live == if ok then old(db.live).(contracts := old(db.live).contracts[f := version]) else old(db.live)
  {
    ok := db.Execute();
    if ok {
      db.live := db.live.(contracts := db.live.contracts[f := version]);
    }
  }

  /** `UPDATE files SET hash=''`; documentation keeps its hash and is re-extracted by format. */
  method InvalidateRows(db: Connection, f: Format) returns (ok: bool)
    modifies db`live, db`clock
    ensures db.clock >= old(db.clock) && (!ok ==> db.Faulted(old(db.clock)))
    ensures db.live == if ok then old(db.live).(files := Invalidated(old(db.live).files, {f})) else old(db.live)
    ensures ok ==> !db.Faulted(old(db.clock))
  {
    ok := true;
    if CorpusOf(f).Code? {
      ok := db.Execute();
      if ok {
        db.live := db.live.(files := Invalidated(db.live.files, {f}));
      }
    } else {
      assert Invalidated(db.live.files, {f}) == db.live.files;
    }
  }

  method UpdateContract(db: Connection, f: Format, version: Text, changed: bool) returns (ok: bool)
    modifies db`live, db`clock
    ensures db.clock >= old(db.clock) && (!ok ==> db.Faulted(old(db.clock)))
    ensures db.live.ids == old(db.live).ids && db.live.files.Keys == old(db.live).files.Keys
    ensures ok ==> db.live == old(db.live).(
      contracts := old(db.live).contracts[f := version],
      files := if changed then Invalidated(old(db.live).files, {f}) else old(db.live).files)
    ensures ok ==> !db.Faulted(old(db.clock))
  {
    ok := true;
    if changed {
      ok := InvalidateRows(db, f);
    }
    if ok {
      ok := SetContract(db, f, version);
    }
  }

  /** The legacy marker covers exactly what the effective version says it covers. */
  predicate CoveredByLegacy(f: Format, version: Text, legacyCode: Option<Text>, legacyDocs: Option<Text>) {
    match ContractOf(f)
    case LegacyCode => legacyCode == Some(version)
    case LegacyDocumentation => legacyDocs == Some(version)
    case PerFormatWhenPresent => false
  }

  lemma OutdatedByMarkers(b: Build, s: Store, f: Format)
    ensures Outdated(b, s, f) <==>
      && Present(s, f) && MarkerOf(s, f) != Some(VersionOf(b, f))
      && !(MarkerOf(s, f).None? && CoveredByLegacy(f, VersionOf(b, f), s.extractionMarker, s.chunkMarker))
  {
  }

  method EnsureContract(db: Connection, b: Build, f: Format, legacyCode: Option<Text>, legacyDocs: Option<Text>)
    returns (r: Result<bool, Error>)
    requires db.live.extractionMarker == legacyCode && db.live.chunkMarker == legacyDocs
    requires db.live.ids.Keys == db.live.files.Keys
    modifies db`live, db`clock
    ensures db.clock >= old(db.clock) && db.live.ids.Keys == db.live.files.Keys
    ensures r.Err? ==> r.error == SqlFailure && db.Faulted(old(db.clock))
    ensures r.Ok? ==> ContractEnsured(b, old(db.live), db.live, f, r.value)
    ensures r.Ok? ==> !db.Faulted(old(db.clock))
  {
    OutdatedByMarkers(b, db.live, f);
    var version := VersionOf(b, f);
    var ok := db.Execute();
    if !ok {
      return Err(SqlFailure);
    }
    var current := MarkerOf(db.live, f);
    if current == Some(version) {
      assert db.live.contracts == db.live.contracts[f := version];
      return Ok(false);
    }
    var changed := Present(db.live, f) && !(current.None? && CoveredByLegacy(f, version, legacyCode, legacyDocs));
    ok := UpdateContract(db, f, version, changed);
    r := if ok then Ok(changed) else Err(SqlFailure);
  }

  lemma InvalidatedTwice(files: map<Text, FileRow>, a: set<Format>, b: set<Format>)
    ensures Invalidated(Invalidated(files, a), b) == Invalidated(files, a + b)
  {
  }

  /** The loop has looked at the first `n` registered formats. */
  ghost predicate Ensured(b: Build, s: Store, t: Store, changed: set<Format>, n: nat) {
    && t == s.(files := Invalidated(s.files, changed), contracts := t.contracts)
    && (forall f: Format :: IndexOf(f) < n ==> MarkerOf(t, f) == Some(VersionOf(b, f)))
    && (forall f: Format :: n <= IndexOf(f) ==> MarkerOf(t, f) == MarkerOf(s, f))
    && (forall f: Format :: f in changed <==> IndexOf(f) < n && Outdated(b, s, f))
  }

  lemma StillOutdated(b: Build, s: Store, t: Store, changed: set<Format>, f: Format)
    requires Ensured(b, s, t, changed, IndexOf(f))
    ensures Outdated(b, t, f) == Outdated(b, s, f)
  {
    if Present(s, f) {
      var p :| p in s.files && s.files[p].format == f;
      assert t.files[p].format == f;
    }
    assert MarkerOf(t, f) == MarkerOf(s, f);
  }

  lemma EnsuredNext(b: Build, s: Store, t: Store, u: Store, changed: set<Format>, f: Format, updated: bool)
    requires Ensured(b, s, t, changed, IndexOf(f)) && ContractEnsured(b, t, u, f, updated)
    ensures Ensured(b, s, u, if updated then changed + {f} else changed, IndexOf(f) + 1)
  {
    StillOutdated(b, s, t, changed, f);
    InvalidatedTwice(s.files, changed, {f});
    forall g: Format
      ensures IndexOf(g) < IndexOf(f) + 1 ==> MarkerOf(u, g) == Some(VersionOf(b, g))
      ensures IndexOf(f) + 1 <= IndexOf(g) ==> MarkerOf(u, g) == MarkerOf(s, g)
      ensures IndexOf(g) < IndexOf(f) + 1 <==> IndexOf(g) < IndexOf(f) || g == f
    {
      EnsuredMarker(b, s, t, u, f, g);
    }
  }

  lemma EnsuredMarker(b: Build, s: Store, t: Store, u: Store, f: Format, g: Format)
    requires u.contracts == t.contracts[f := VersionOf(b, f)]
    requires IndexOf(g) < IndexOf(f) ==> MarkerOf(t, g) == Some(VersionOf(b, g))
    requires IndexOf(f) <= IndexOf(g) ==> MarkerOf(t, g) == MarkerOf(s, g)
    ensures IndexOf(g) < IndexOf(f) + 1 ==> MarkerOf(u, g) == Some(VersionOf(b, g))
    ensures IndexOf(f) + 1 <= IndexOf(g) ==> MarkerOf(u, g) == MarkerOf(s, g)
    ensures IndexOf(g) < IndexOf(f) + 1 <==> IndexOf(g) < IndexOf(f) || g == f
  {
    SameIndex(f, g);
    assert g != f ==> MarkerOf(u, g) == MarkerOf(t, g);
  }

  lemma EnsuredFirst(b: Build, s: Store)
    ensures Ensured(b, s, s, {}, 0)
  {
    assert Invalidated(s.files, {}) == s.files;
  }

  lemma EnsuredAll(b: Build, s: Store, t: Store, u: Store, changed: set<Format>)
    requires Ensured(b, s, t, changed, |ALL|)
    requires u == (if AnyCode(changed) then WithoutProjection(t) else t).(
      extractionMarker := Some(b.extraction), chunkMarker := Some(b.chunk))
    ensures ContractsEnsured(b, s, u, changed)
  {
    forall f: Format
      ensures MarkerOf(u, f) == Some(VersionOf(b, f))
    {
      assert MarkerOf(u, f) == MarkerOf(t, f);
    }
  }

  /** The loop over all formats. */
  method EnsureEach(db: Connection, b: Build) returns (r: Result<set<Format>, Error>)
    requires db.live.ids.Keys == db.live.files.Keys
    modifies db`live, db`clock
    ensures db.clock >= old(db.clock) && db.live.ids.Keys == db.live.files.Keys
    ensures r.Err? ==> r.error == SqlFailure && db.Faulted(old(db.clock))
    ensures r.Ok? ==> Ensured(b, old(db.live), db.live, r.value, |ALL|) && !db.Faulted(old(db.clock))
  {
    ghost var start := db.live;
    var legacyCode, legacyDocs := db.live.extractionMarker, db.live.chunkMarker;
    var changed: set<Format> := {};
    EnsuredFirst(b, start);
    hide Ensured, Outdated, Present, MarkerOf, Invalidated, EffectiveVersion;
    for n := 0 to |ALL|
      invariant !db.Faulted(old(db.clock))
      invariant db.clock >= old(db.clock) && db.live.ids.Keys == db.live.files.Keys
      invariant Ensured(b, start, db.live, changed, n)
    {
      var f := ALL[n];
      assert IndexOf(f) == n;
      ghost var before := db.live;
      EnsuredKeepsLegacy(b, start, before, changed, n);
      var updated := EnsureContract(db, b, f, legacyCode, legacyDocs);
      if updated.Err? {
        return Err(updated.error);
      }
      EnsuredNext(b, start, before, db.live, changed, f, updated.value);
      if updated.value {
        changed := changed + {f};
      }
    }
    r := Ok(changed);
  }

  lemma EnsuredKeepsLegacy(b: Build, s: Store, t: Store, changed: set<Format>, n: nat)
    requires Ensured(b, s, t, changed, n)
    ensures t.extractionMarker == s.extractionMarker && t.chunkMarker == s.chunkMarker
  {
  }

  method EnsureFormatContracts(db: Connection, b: Build) returns (r: Result<set<Format>, Error>)
    requires db.live.ids.Keys == db.live.files.Keys
    modifies db`live, db`clock
    ensures db.clock >= old(db.clock) && db.live.ids.Keys == db.live.files.Keys
    ensures r.Err? ==> r.error == SqlFailure && db.Faulted(old(db.clock))
    ensures r.Ok? ==> ContractsEnsured(b, old(db.live), db.live, r.value) && ProjectionWithdrawn(old(db.live), db.live, r.value)
    ensures r.Ok? ==> !db.Faulted(old(db.clock))
  {
    hide Ensured, ContractsEnsured, ProjectionWithdrawn;
    ghost var start := db.live;
    r := EnsureEach(db, b);
    if r.Err? {
      return;
    }
    var changed := r.value;
    ghost var listed := db.live;
    if AnyCode(changed) {
      var ok := db.Execute();
      if !ok {
        return Err(SqlFailure);
      }
      db.live := WithoutProjection(db.live);
    }
    var ok := db.Execute();
    if !ok {
      return Err(SqlFailure);
    }
    db.live := db.live.(extractionMarker := Some(b.extraction), chunkMarker := Some(b.chunk));
    EnsuredAll(b, start, listed, db.live, changed);
    EnsuredWithdraws(b, start, db.live, changed);
  }

  // ---------------------------------------------------------------- editions and provenance

  /** Returns the editions the stored rows were parsed with. */
  method EnsureRustEditionContext(db: Connection, hash: Hash, editions: map<Text, Text>)
    returns (r: Result<map<Text, Text>, Error>)
    requires db.live.ids.Keys == db.live.files.Keys
    modifies db`live, db`clock
    ensures db.clock >= old(db.clock) && db.live.ids.Keys == db.live.files.Keys
    ensures r.Err? ==> r.error == SqlFailure && db.Faulted(old(db.clock))
    ensures r.Ok? ==> r.value == old(db.live.contexts)
    ensures r.Ok? ==> db.live == old(db.live).(contexts := editions,
      fingerprint := if editions == map[] then None else Some(hash(ContextStream(editions))))
    ensures r.Ok? ==> !db.Faulted(old(db.clock))
  {
    var previous := db.live.contexts;
    var ok := db.Execute();
    if !ok {
      return Err(SqlFailure);
    }
    if editions != map[] {
      var fingerprint := Fingerprint(hash, editions);
      db.live := db.live.(contexts := editions, fingerprint := Some(fingerprint));
    } else {
      db.live := db.live.(contexts := editions, fingerprint := None);
    }
    r := Ok(previous);
  }

  /** Whether stored provenance rows have another layout than this build's. */
  method EnsureProvenanceFormat(db: Connection, b: Build) returns (r: Result<bool, Error>)
    requires db.live.ids.Keys == db.live.files.Keys
    modifies db`live, db`clock
    ensures db.clock >= old(db.clock) && db.live.ids.Keys == db.live.files.Keys
    ensures r.Err? ==> r.error == SqlFailure && db.Faulted(old(db.clock))
    ensures r.Ok? ==> (r.value <==> old(db.live.provenanceMarker) != Some(b.provenance))
    ensures r.Ok? ==> db.live == old(db.live).(provenanceMarker := Some(b.provenance))
    ensures r.Ok? ==> !db.Faulted(old(db.clock))
  {
    var ok := db.Execute();
    if !ok {
      return Err(SqlFailure);
    }
    var relaid := db.live.provenanceMarker != Some(b.provenance);
    db.live := db.live.(provenanceMarker := Some(b.provenance));
    r := Ok(relaid);
  }

  // ---------------------------------------------------------------- selective invalidation is enough

  /** A row that kept its hash is what this build would extract from the same source. */
  lemma InvalidationIsSound(w: World, b: Build, s: Store, t: Store, changed: set<Format>)
    requires Faithful(w, s) && ContractsEnsured(b, s, t, changed)
    ensures Reusable(w, b, s.contexts, changed, s.provenanceMarker != Some(b.provenance), t.files)
  {
    forall p | p in t.files
      ensures ReusableRow(w, b, s.contexts, changed, s.provenanceMarker != Some(b.provenance), p, t.files[p])
    {
      assert FaithfulRow(w, s, p);
      var f := s.files[p].format;
      assert Present(s, f);
      assert f in changed <==> EffectiveVersion(s, f) != Some(VersionOf(b, f));
    }
  }
}
