/** What becomes of the checker's batches when the code they were made for is replaced. */
module Checker {
  import opened Wrappers
  import opened Publication
  import opened Formats
  import opened Tables
  import opened Captures
  import opened Database

  datatype Retention =
    | Drop
    | PreserveActiveForWatch
    | ValidateActive(retainFailed: bool)

  /** The prior publication, read before anything was replaced. */
  datatype Previous = Previous(code: Option<Text>, resolution: Option<Text>, checker: Option<Text>)

  // ---------------------------------------------------------------- single operations

  function NewerCarry(a: Batch, b: Batch): Batch {
    if a.reusable == b.reusable then (if a.id < b.id then b else a)
    else if b.reusable then b
    else a
  }

  /** The newest reusable batch, or else the newest one. */
  function CarrySource(batches: seq<Batch>): (r: Option<Batch>)
    ensures batches != [] <==> r.Some?
    ensures r.Some? ==> r.value in batches
    ensures forall b :: b in batches ==> (b.reusable ==> r.value.reusable) && (b.reusable == r.value.reusable ==> b.id <= r.value.id)
  {
    if batches == [] then None
    else
      var last := batches[|batches| - 1];
      match CarrySource(batches[..|batches| - 1])
      case None => Some(last)
      case Some(b) => Some(NewerCarry(b, last))
  }

  function WithCarryOnly(s: Store): Store {
    s.(inactive := match CarrySource(s.inactive) case None => [] case Some(b) => [b])
  }

  function Cleared(s: Store): Store {
    s.(active := None, inactive := [])
  }

  predicate BoundTo(s: Store, digest: Text) {
    s.active.Some? && s.active.value.snapshot == digest
  }

  function Deactivated(s: Store): Store
    requires s.active.Some?
  {
    s.(active := None, inactive := s.inactive + [s.active.value])
  }

  /** Clone the active batch for another digest; the old one stays behind, inactive. */
  function Rebound(s: Store, digest: Text): Store
    requires s.active.Some?
  {
    var bound := s.active.value;
    s.(active := Some(bound.(id := s.nextId, snapshot := digest)), inactive := s.inactive + [bound], nextId := s.nextId + 1)
  }

  /** First-party rows of the formats the checker knows, with their package roots. */
  function CheckerRows(s: Store): map<Text, (CodeRow, Option<Text>)> {
    map p | p in s.files && !s.files[p].origin.Dependency? && EcmaScript(s.files[p].format) ::
      (CodeRowAt(s, p), s.files[p].package)
  }

  function CheckerIdentity(w: World, s: Store): Text {
    w.checkerIdentity(CheckerRows(s))
  }

  /** A first-party file of a format that the checker knows. */
  predicate IsChecked(s: Store, p: Text) {
    p in s.files && !s.files[p].origin.Dependency? && (s.files[p].format.JavaScript? || s.files[p].format.TypeScript?)
  }

  /** Where checker identities are equal and lose nothing, the checker sees the same files, packages and columns. */
  lemma CheckerSeesTheSame(w: World, s: Store, t: Store)
    requires forall x, y :: w.checkerIdentity(x) == w.checkerIdentity(y) ==> x == y
    requires CheckerIdentity(w, s) == CheckerIdentity(w, t)
    ensures forall p :: IsChecked(s, p) <==> IsChecked(t, p)
    ensures forall p :: IsChecked(s, p) ==> IsChecked(t, p) && s.files[p].package == t.files[p].package && EqualColumns(s, t, p)
  {
    var x, y := CheckerRows(s), CheckerRows(t);
    assert x == y;
    forall p
      ensures IsChecked(s, p) <==> IsChecked(t, p)
      ensures IsChecked(s, p) ==> IsChecked(t, p) && s.files[p].package == t.files[p].package && EqualColumns(s, t, p)
    {
      assert p in x <==> IsChecked(s, p);
      assert p in y <==> IsChecked(t, p);
      if IsChecked(s, p) {
        assert x[p] == y[p];
        EqualRowsIff(s, t, p);
      }
    }
  }

  // ---------------------------------------------------------------- the policy

  /**
   * The active batch was found for the published code, by a checker that saw the files,
   * resolution and inputs of now. It serves the code digest `digest` if it is the same
   * one and was not reset, or if each item of it still finds exactly one call site.
   */
  ghost predicate StillServes(w: World, c: Capture, s: Store, previous: Previous, digest: Text, resolution: Text, contractChanged: bool, reset: bool)
    requires s.ids.Keys == s.files.Keys
  {
    && !contractChanged && c.checkerInputsFresh
    && s.active.Some? && previous.code == Some(s.active.value.snapshot)
    && previous.checker == Some(CheckerIdentity(w, s)) && previous.resolution == Some(resolution)
    && ((previous.code == Some(digest) && !reset) || w.mapped(s.active.value.facts, CodeViews(s)))
  }

  /** Watch mode keeps the batch as it is, unless a reset of the same code moved what it points to. */
  function Preserved(w: World, s: Store, previous: Previous, digest: Text, reset: bool): (Store, bool)
    requires s.ids.Keys == s.files.Keys
  {
    if !reset || previous.code != Some(digest) || !BoundTo(s, digest) then (WithCarryOnly(s), false)
    else if w.mapped(s.active.value.facts, CodeViews(s)) then (WithCarryOnly(Rebound(s, digest)), true)
    else (WithCarryOnly(Deactivated(s)), true)
  }

  /** Validation binds a batch that serves to the new digest, and drops or hides any other. */
  ghost function Validated(w: World, c: Capture, retainFailed: bool, s: Store, previous: Previous, digest: Text, resolution: Text,
                           contractChanged: bool, reset: bool): (Store, bool)
    requires s.ids.Keys == s.files.Keys
  {
    if StillServes(w, c, s, previous, digest, resolution, contractChanged, reset) then
      var rebind := reset || previous.code != Some(digest);
      var t := if rebind then Rebound(s, digest) else s;
      (if retainFailed then WithCarryOnly(t) else t.(inactive := []), rebind)
    else if !retainFailed then (Cleared(s), s.active.Some?)
    else if previous.code == Some(digest) && BoundTo(s, digest) then (WithCarryOnly(Deactivated(s)), true)
    else (WithCarryOnly(s), false)
  }

  /** What becomes of the batches, and whether that is reported as a change. */
  ghost function Retained(w: World, c: Capture, retention: Retention, s: Store, previous: Previous, digest: Text, resolution: Text,
                          contractChanged: bool, reset: bool): (Store, bool)
    requires s.ids.Keys == s.files.Keys
  {
    match retention
    case Drop => (Cleared(s), s.active.Some?)
    case PreserveActiveForWatch => Preserved(w, s, previous, digest, reset)
    case ValidateActive(retainFailed) => Validated(w, c, retainFailed, s, previous, digest, resolution, contractChanged, reset)
  }

  /** The active batch stays, is bound to `digest` under a new id, or is no longer active. */
  ghost predicate ActiveFrom(s: Store, t: Store, digest: Text) {
    t.active.Some? ==>
      && s.active.Some? && t.active.value.facts == s.active.value.facts && t.active.value.reusable == s.active.value.reusable
      && (t.active == s.active
          || (t.active.value.snapshot == digest && t.active.value.id == s.nextId && t.nextId == s.nextId + 1))
  }

  /** At most one hidden batch is left, an old one; it is reusable if there was such a one. */
  ghost predicate CarryFrom(s: Store, t: Store) {
    && |t.inactive| <= 1
    && (forall b :: b in t.inactive ==> b in s.inactive || s.active == Some(b))
    && (forall b, hidden :: b in t.inactive && hidden in s.inactive && hidden.reusable ==> b.reusable)
  }

  lemma CarriedIsOld(s: Store, t: Store)
    requires s.inactive <= t.inactive && forall b :: b in t.inactive ==> b in s.inactive || s.active == Some(b)
    ensures CarryFrom(s, WithCarryOnly(t)) && (WithCarryOnly(t).inactive == [] <==> t.inactive == [])
  {
    assert forall b :: b in s.inactive ==> b in t.inactive;
  }

  lemma DisplacedIsOld(s: Store, digest: Text)
    requires s.active.Some?
    ensures s.inactive <= Deactivated(s).inactive && Deactivated(s).inactive != []
    ensures Rebound(s, digest).inactive == Deactivated(s).inactive
    ensures forall b :: b in Deactivated(s).inactive ==> b in s.inactive || s.active == Some(b)
  {
  }

  /** No facts are made up, and at most one old batch is hidden. */
  ghost predicate IsOld(s: Store, t: Store, digest: Text, hides: bool) {
    ActiveFrom(s, t, digest) && CarryFrom(s, t) && (hides <==> t.inactive != [])
  }

  lemma NothingLeftIsOld(s: Store, digest: Text)
    ensures IsOld(s, Cleared(s), digest, false) && IsOld(s, s.(inactive := []), digest, false)
    ensures s.active.Some? ==> IsOld(s, Rebound(s, digest).(inactive := []), digest, false)
  {
  }

  lemma CarriedTooIsOld(s: Store, t: Store, digest: Text)
    requires ActiveFrom(s, t, digest)
    requires s.inactive <= t.inactive && forall b :: b in t.inactive ==> b in s.inactive || s.active == Some(b)
    ensures IsOld(s, WithCarryOnly(t), digest, t.inactive != [])
  {
    CarriedIsOld(s, t);
    hide CarrySource, CarryFrom;
  }

  lemma AllOld(s: Store, digest: Text)
    ensures IsOld(s, WithCarryOnly(s), digest, s.inactive != [])
    ensures s.active.Some? ==>
      IsOld(s, WithCarryOnly(Deactivated(s)), digest, true) && IsOld(s, WithCarryOnly(Rebound(s, digest)), digest, true)
  {
    hide IsOld, CarrySource;
    CarriedTooIsOld(s, s, digest);
    if s.active.Some? {
      DisplacedIsOld(s, digest);
      CarriedTooIsOld(s, Deactivated(s), digest);
      CarriedTooIsOld(s, Rebound(s, digest), digest);
    }
  }

  lemma PreservedIsOld(w: World, s: Store, previous: Previous, digest: Text, reset: bool)
    requires s.ids.Keys == s.files.Keys
    ensures var (t, changed) := Preserved(w, s, previous, digest, reset); IsOld(s, t, digest, changed || s.inactive != [])
  {
    AllOld(s, digest);
    hide IsOld, WithCarryOnly, Rebound, Deactivated, CodeViews;
  }

  lemma ValidatedIsOld(w: World, c: Capture, retainFailed: bool, s: Store, previous: Previous, digest: Text, resolution: Text,
                       contractChanged: bool, reset: bool)
    requires s.ids.Keys == s.files.Keys
    ensures var (t, changed) := Validated(w, c, retainFailed, s, previous, digest, resolution, contractChanged, reset);
      IsOld(s, t, digest, retainFailed && (changed || s.inactive != []))
  {
    AllOld(s, digest);
    NothingLeftIsOld(s, digest);
    assert StillServes(w, c, s, previous, digest, resolution, contractChanged, reset) ==> s.active.Some?;
    hide StillServes, IsOld, WithCarryOnly, Rebound, Deactivated, Cleared, CodeViews;
  }

  /** No policy makes up facts, and each hides at most one batch for the next enrichment. */
  lemma RetainedIsOld(w: World, c: Capture, retention: Retention, s: Store, previous: Previous, digest: Text, resolution: Text,
                      contractChanged: bool, reset: bool)
    requires s.ids.Keys == s.files.Keys
    ensures var (t, changed) := Retained(w, c, retention, s, previous, digest, resolution, contractChanged, reset);
      IsOld(s, t, digest, !retention.Drop? && retention != ValidateActive(false) && (changed || s.inactive != []))
  {
    hide IsOld, Preserved, Validated, Cleared;
    match retention
    case Drop => NothingLeftIsOld(s, digest);
    case PreserveActiveForWatch => PreservedIsOld(w, s, previous, digest, reset);
    case ValidateActive(retainFailed) =>
      ValidatedIsOld(w, c, retainFailed, s, previous, digest, resolution, contractChanged, reset);
  }

  ghost predicate OnlyBatches(s: Store, t: Store) {
    t == s.(active := t.active, inactive := t.inactive, nextId := t.nextId)
  }

  /** If nothing was reported as changed, the projection accepts the same facts. */
  ghost predicate ReportsChange(s: Store, t: Store, digest: Text, changed: bool) {
    !changed ==> Accepted(t.active, digest) == Accepted(s.active, digest)
  }

  /** Outside watch mode only a batch that was proven reusable survives. */
  ghost predicate OnlyProven(w: World, s: Store, t: Store, previous: Previous, digest: Text, resolution: Text) {
    && t.inactive == []
    && (t.active.Some? ==>
          && t.active.value.snapshot == digest
          && s.active.Some? && t.active.value.facts == s.active.value.facts
          && previous.code == Some(s.active.value.snapshot)
          && previous.checker == Some(CheckerIdentity(w, s))
          && previous.resolution == Some(resolution))
  }

  /** One batch, up to its row id. */
  predicate SameBatch(x: Option<Batch>, y: Option<Batch>) {
    x.Some? == y.Some? && (x.Some? ==> x.value.(id := 0) == y.value.(id := 0))
  }

  ghost predicate SameSight(x: Store, y: Store) {
    && x.files == y.files && x.ids == y.ids && x.instances == y.instances
    && x.active == y.active && x.inactive == y.inactive
  }

  lemma SameMoves(x: Store, y: Store, digest: Text)
    requires x.active == y.active && x.inactive == y.inactive
    ensures WithCarryOnly(x).inactive == WithCarryOnly(y).inactive && WithCarryOnly(x).active == WithCarryOnly(y).active
    ensures Cleared(x).active == Cleared(y).active && Cleared(x).inactive == Cleared(y).inactive
    ensures x.active.Some? ==>
      && WithCarryOnly(Deactivated(x)).inactive == WithCarryOnly(Deactivated(y)).inactive
      && WithCarryOnly(Deactivated(x)).active == WithCarryOnly(Deactivated(y)).active
      && WithCarryOnly(Rebound(x, digest)).inactive == WithCarryOnly(Rebound(y, digest)).inactive
      && SameBatch(WithCarryOnly(Rebound(x, digest)).active, WithCarryOnly(Rebound(y, digest)).active)
      && SameBatch(Rebound(x, digest).active, Rebound(y, digest).active)
  {
    hide CarrySource;
  }

  lemma SeesTheSame(w: World, x: Store, y: Store)
    requires x.ids.Keys == x.files.Keys && SameSight(x, y)
    ensures CodeViews(x) == CodeViews(y) && CheckerIdentity(w, x) == CheckerIdentity(w, y)
  {
    assert CheckerRows(x) == CheckerRows(y);
  }

  lemma ServesTheSame(w: World, c: Capture, x: Store, y: Store, previous: Previous, digest: Text, resolution: Text,
                      contractChanged: bool, reset: bool)
    requires x.ids.Keys == x.files.Keys && SameSight(x, y)
    ensures StillServes(w, c, x, previous, digest, resolution, contractChanged, reset)
         == StillServes(w, c, y, previous, digest, resolution, contractChanged, reset)
    ensures StillServes(w, c, x, previous, digest, resolution, contractChanged, reset) ==> x.active.Some?
  {
    hide CodeViews, CheckerIdentity;
    SeesTheSame(w, x, y);
  }

  lemma PreservedDependsOn(w: World, x: Store, y: Store, previous: Previous, digest: Text, reset: bool)
    requires x.ids.Keys == x.files.Keys && SameSight(x, y)
    ensures var k, l := Preserved(w, x, previous, digest, reset).0, Preserved(w, y, previous, digest, reset).0;
      k.inactive == l.inactive && SameBatch(k.active, l.active)
  {
    hide WithCarryOnly, Deactivated, Rebound, CodeViews, CheckerIdentity;
    SeesTheSame(w, x, y);
    SameMoves(x, y, digest);
  }

  lemma ValidatedDependsOn(w: World, c: Capture, retainFailed: bool, x: Store, y: Store, previous: Previous, digest: Text,
                           resolution: Text, contractChanged: bool, reset: bool)
    requires x.ids.Keys == x.files.Keys && SameSight(x, y)
    ensures var k, l := Validated(w, c, retainFailed, x, previous, digest, resolution, contractChanged, reset).0,
                        Validated(w, c, retainFailed, y, previous, digest, resolution, contractChanged, reset).0;
      k.inactive == l.inactive && SameBatch(k.active, l.active)
  {
    hide WithCarryOnly, Deactivated, Rebound, Cleared, StillServes;
    ServesTheSame(w, c, x, y, previous, digest, resolution, contractChanged, reset);
    SameMoves(x, y, digest);
    if StillServes(w, c, x, previous, digest, resolution, contractChanged, reset) {
      if retainFailed {
      }
    } else if retainFailed {
    }
  }

  /** What becomes of the batches depends on rows, row ids, instances and the batches themselves. */
  lemma RetainedDependsOn(w: World, c: Capture, retention: Retention, x: Store, y: Store, previous: Previous, digest: Text,
                          resolution: Text, contractChanged: bool, reset: bool)
    requires x.ids.Keys == x.files.Keys && SameSight(x, y)
    ensures var k, l := Retained(w, c, retention, x, previous, digest, resolution, contractChanged, reset).0,
                        Retained(w, c, retention, y, previous, digest, resolution, contractChanged, reset).0;
      k.inactive == l.inactive && SameBatch(k.active, l.active)
  {
    hide Preserved, Validated;
    match retention
    case Drop =>
    case PreserveActiveForWatch => PreservedDependsOn(w, x, y, previous, digest, reset);
    case ValidateActive(retainFailed) =>
      ValidatedDependsOn(w, c, retainFailed, x, y, previous, digest, resolution, contractChanged, reset);
  }

  method Rebind(db: Connection, w: World, digest: Text, current: Text) returns (r: Result<bool, Error>)
    requires db.live.ids.Keys == db.live.files.Keys
    modifies db`live, db`clock
    ensures db.clock >= old(db.clock)
    ensures r.Ok? ==> (r.value <==> BoundTo(old(db.live), digest) && w.mapped(old(db.live.active.value.facts), CodeViews(old(db.live))))
    ensures r.Ok? ==> db.live == if r.value then Rebound(old(db.live), current) else old(db.live)
    ensures r.Err? ==> r.error == SqlFailure && db.Faulted(old(db.clock))
    ensures r.Ok? ==> !db.Faulted(old(db.clock))
  {
    var ok := db.Execute();
    if !ok {
      return Err(SqlFailure);
    }
    if !BoundTo(db.live, digest) || !w.mapped(db.live.active.value.facts, CodeViews(db.live)) {
      return Ok(false);
    }
    ok := db.Execute();
    if !ok {
      return Err(SqlFailure);
    }
    db.live := Rebound(db.live, current);
    r := Ok(true);
  }

  method Deactivate(db: Connection, digest: Text) returns (r: Result<bool, Error>)
    modifies db`live, db`clock
    ensures db.clock >= old(db.clock)
    ensures r.Ok? ==> (r.value <==> BoundTo(old(db.live), digest))
    ensures r.Ok? ==> db.live == if r.value then Deactivated(old(db.live)) else old(db.live)
    ensures r.Err? ==> r.error == SqlFailure && db.Faulted(old(db.clock))
    ensures r.Ok? ==> !db.Faulted(old(db.clock))
  {
    var ok := db.Execute();
    if !ok {
      return Err(SqlFailure);
    }
    if !BoundTo(db.live, digest) {
      return Ok(false);
    }
    db.live := Deactivated(db.live);
    r := Ok(true);
  }

  /** What all policies promise of the stores that they leave. */
  ghost predicate Reported(w: World, retention: Retention, s: Store, t: Store, changed: bool, previous: Previous, digest: Text, resolution: Text) {
    && OnlyBatches(s, t) && |t.inactive| <= 1
    && (previous.code == Some(digest) ==> ReportsChange(s, t, digest, changed))
    && (retention == ValidateActive(false) ==> OnlyProven(w, s, t, previous, digest, resolution))
  }

  lemma PreservedIsReported(w: World, s: Store, previous: Previous, digest: Text, resolution: Text, reset: bool)
    requires s.ids.Keys == s.files.Keys
    ensures var (t, changed) := Preserved(w, s, previous, digest, reset);
      Reported(w, PreserveActiveForWatch, s, t, changed, previous, digest, resolution)
  {
    hide CarrySource, CodeViews;
  }

  lemma ValidatedIsReported(w: World, c: Capture, retainFailed: bool, s: Store, previous: Previous, digest: Text, resolution: Text,
                            contractChanged: bool, reset: bool)
    requires s.ids.Keys == s.files.Keys
    ensures var (t, changed) := Validated(w, c, retainFailed, s, previous, digest, resolution, contractChanged, reset);
      Reported(w, ValidateActive(retainFailed), s, t, changed, previous, digest, resolution)
  {
    hide CarrySource, CodeViews, CheckerIdentity;
  }

  /** Only batches change; no unreported change reaches the projection; manual indexing keeps what is proven. */
  lemma RetainedIsReported(w: World, c: Capture, retention: Retention, s: Store, previous: Previous, digest: Text, resolution: Text,
                           contractChanged: bool, reset: bool)
    requires s.ids.Keys == s.files.Keys
    ensures var (t, changed) := Retained(w, c, retention, s, previous, digest, resolution, contractChanged, reset);
      Reported(w, retention, s, t, changed, previous, digest, resolution)
  {
    match retention
    case Drop =>
    case PreserveActiveForWatch =>
      hide Reported, Preserved, Cleared;
      PreservedIsReported(w, s, previous, digest, resolution, reset);
    case ValidateActive(retainFailed) =>
      hide Reported, Validated, Cleared;
      ValidatedIsReported(w, c, retainFailed, s, previous, digest, resolution, contractChanged, reset);
  }

  method PreserveActive(db: Connection, w: World, previous: Previous, digest: Text, reset: bool) returns (r: Result<bool, Error>)
    requires db.live.ids.Keys == db.live.files.Keys
    modifies db`live, db`clock
    ensures db.clock >= old(db.clock)
    ensures r.Ok? ==> (db.live, r.value) == Preserved(w, old(db.live), previous, digest, reset)
    ensures r.Err? ==> r.error == SqlFailure && db.Faulted(old(db.clock))
    ensures r.Ok? ==> !db.Faulted(old(db.clock))
  {
    hide CodeViews;
    var remap := reset && previous.code == Some(digest);
    var remapped, deactivated := false, false;
    if remap {
      var rebound := Rebind(db, w, digest, digest);
      if rebound.Err? {
        return Err(rebound.error);
      }
      remapped := rebound.value;
      if !remapped {
        var unbound := Deactivate(db, digest);
        if unbound.Err? {
          return Err(unbound.error);
        }
        deactivated := unbound.value;
      }
    }
    var ok := db.Execute();
    if !ok {
      return Err(SqlFailure);
    }
    db.live := WithCarryOnly(db.live);
    r := Ok(remapped || deactivated);
  }

  /** Whether the active batch may be carried over, and where it is bound afterwards. */
  method TryRebind(db: Connection, w: World, c: Capture, previous: Previous, digest: Text, resolution: Text, contractChanged: bool, reset: bool)
    returns (r: Result<(bool, bool), Error>)
    requires db.live.ids.Keys == db.live.files.Keys
    modifies db`live, db`clock
    ensures db.clock >= old(db.clock)
    ensures r.Ok? && !r.value.1 ==> db.live == old(db.live)
    ensures r.Ok? && r.value.1 ==>
      previous.code.Some? && BoundTo(old(db.live), previous.code.value) && db.live == Rebound(old(db.live), digest)
    ensures r.Ok? ==> r.value.0 == StillServes(w, c, old(db.live), previous, digest, resolution, contractChanged, reset)
    ensures r.Ok? ==> r.value.1 == (r.value.0 && (reset || previous.code != Some(digest)))
    ensures r.Err? ==> r.error == SqlFailure && db.Faulted(old(db.clock))
    ensures r.Ok? ==> !db.Faulted(old(db.clock))
  {
    var ok := db.Execute();
    if !ok {
      return Err(SqlFailure);
    }
    var current := CheckerIdentity(w, db.live);
    var canRebind := !contractChanged && previous.checker == Some(current) && previous.resolution == Some(resolution)
      && previous.code.Some? && BoundTo(db.live, previous.code.value) && c.checkerInputsFresh;
    var alreadyBound := previous.code == Some(digest);
    var rebound := false;
    if canRebind && (reset || !alreadyBound) {
      var cloned := Rebind(db, w, previous.code.value, digest);
      if cloned.Err? {
        return Err(cloned.error);
      }
      rebound := cloned.value;
    }
    r := Ok((canRebind && (if reset then rebound else alreadyBound || rebound), rebound));
  }

  /** A batch that failed validation stays as a hidden source for the next enrichment. */
  method KeepAsCarry(db: Connection, previous: Previous, digest: Text) returns (r: Result<bool, Error>)
    modifies db`live, db`clock
    ensures db.clock >= old(db.clock)
    ensures r.Ok? ==> (r.value <==> previous.code == Some(digest) && BoundTo(old(db.live), digest))
    ensures r.Ok? ==> db.live == WithCarryOnly(if r.value then Deactivated(old(db.live)) else old(db.live))
    ensures r.Err? ==> r.error == SqlFailure && db.Faulted(old(db.clock))
    ensures r.Ok? ==> !db.Faulted(old(db.clock))
  {
    var deactivated := false;
    if previous.code == Some(digest) {
      var unbound := Deactivate(db, digest);
      if unbound.Err? {
        return Err(unbound.error);
      }
      deactivated := unbound.value;
    }
    var ok := db.Execute();
    if !ok {
      return Err(SqlFailure);
    }
    db.live := WithCarryOnly(db.live);
    r := Ok(deactivated);
  }

  method Validate(
      db: Connection, w: World, c: Capture, retainFailed: bool, previous: Previous, digest: Text, resolution: Text,
      contractChanged: bool, reset: bool)
    returns (r: Result<bool, Error>)
    requires db.live.ids.Keys == db.live.files.Keys
    modifies db`live, db`clock
    ensures db.clock >= old(db.clock)
    ensures r.Ok? ==>
      (db.live, r.value) == Validated(w, c, retainFailed, old(db.live), previous, digest, resolution, contractChanged, reset)
    ensures r.Err? ==> r.error == SqlFailure && db.Faulted(old(db.clock))
    ensures r.Ok? ==> !db.Faulted(old(db.clock))
  {
    hide StillServes, CarrySource;
    var tried := TryRebind(db, w, c, previous, digest, resolution, contractChanged, reset);
    if tried.Err? {
      return Err(tried.error);
    }
    var (retained, rebound) := tried.value;
    if retained {
      var ok := db.Execute();
      if !ok {
        return Err(SqlFailure);
      }
      db.live := if retainFailed then WithCarryOnly(db.live) else db.live.(inactive := []);
      return Ok(rebound);
    }
    // What was not retained was not rebound either.
    if retainFailed {
      r := KeepAsCarry(db, previous, digest);
    } else {
      var ok := db.Execute();
      if !ok {
        return Err(SqlFailure);
      }
      var active := db.live.active.Some?;
      db.live := Cleared(db.live);
      r := Ok(active);
    }
  }

  /** Returns whether the set of facts the projection may use has changed. */
  method Retain(
      db: Connection, w: World, c: Capture, retention: Retention, previous: Previous, digest: Text, resolution: Text,
      contractChanged: bool, reset: bool)
    returns (r: Result<bool, Error>)
    requires db.live.ids.Keys == db.live.files.Keys
    modifies db`live, db`clock
    ensures db.clock >= old(db.clock)
    ensures r.Ok? ==> Reported(w, retention, old(db.live), db.live, r.value, previous, digest, resolution)
    ensures r.Ok? ==>
      (db.live, r.value) == Retained(w, c, retention, old(db.live), previous, digest, resolution, contractChanged, reset)
    ensures r.Err? ==> r.error == SqlFailure && db.Faulted(old(db.clock))
    ensures r.Ok? ==> !db.Faulted(old(db.clock))
  {
    RetainedIsReported(w, c, retention, db.live, previous, digest, resolution, contractChanged, reset);
    hide Reported, Preserved, Validated;
    match retention
    case Drop =>
      var ok := db.Execute();
      if !ok {
        return Err(SqlFailure);
      }
      var active := db.live.active.Some?;
      db.live := Cleared(db.live);
      r := Ok(active);
    case PreserveActiveForWatch =>
      r := PreserveActive(db, w, previous, digest, reset);
    case ValidateActive(retainFailed) =>
      r := Validate(db, w, c, retainFailed, previous, digest, resolution, contractChanged, reset);
  }
}
