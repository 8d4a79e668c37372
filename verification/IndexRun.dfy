/**
 * One invocation of the indexer with the reconciliation of the repository policy behind
 * it. Both run on one connection, so a transaction that either leaves open is open for
 * the other.
 */
module IndexRun {
  import opened Wrappers
  import opened Publication
  import opened Tables
  import opened Captures
  import opened Database
  import opened Formats
  import opened Preparing
  import opened IndexState
  import opened Outcomes
  import opened Indexer
  import Recon

  /** What the reconciliation reads once an index is committed. */
  datatype PolicyInputs = PolicyInputs(
    candidates: seq<Recon.Candidate>, evidence: Recon.Evidence, roles: map<int, string>)

  /** The foreign key of the policy rows: a row goes with the file that it is about. */
  function Cascaded(s: Store, t: Recon.Tables): Recon.Tables {
    t.(filePolicy := map f | f in t.filePolicy && f in s.ids.Values :: t.filePolicy[f])
  }

  ghost predicate OneTransaction(db: Connection, policy: Recon.Connection)
    reads db, policy
  {
    db.Valid() && db.inTransaction == policy.inTransaction && (!policy.inTransaction ==> policy.live == policy.committed)
  }

  /** Only the policy rows of files that are no longer indexed are gone. */
  ghost predicate LostDeletedFiles(s: Store, before: Recon.Tables, after: Recon.Tables) {
    && after.current == before.current
    && (forall f :: f in after.filePolicy <==> f in before.filePolicy && exists p :: p in s.ids && s.ids[p] == f)
    && (forall f :: f in after.filePolicy && f in before.filePolicy ==> after.filePolicy[f] == before.filePolicy[f])
  }

  lemma CascadedLost(s: Store, t: Recon.Tables)
    ensures LostDeletedFiles(s, t, Cascaded(s, t))
  {
    forall f
      ensures f in s.ids.Values <==> exists p :: p in s.ids && s.ids[p] == f
    {
    }
  }

  /**
   * How the policy tables end after a successful publication of `s`: they are reconciled
   * with exactly that state, or cleared, unless a failed COMMIT or ROLLBACK keeps the
   * reconciliation open or a statement of the clearing fails.
   */
  ghost predicate PolicyFollows(
      s: Store, p: PolicyInputs, before: Recon.Tables, after: Recon.Tables, done: Result<(), Recon.Failure>, cleared: bool, isOpen: bool) {
    && (done.Ok? ==> !isOpen && Recon.Reconciled(p.candidates, p.evidence, p.roles, after))
    && (done.Err? && isOpen ==>
          && (done.error == Recon.CommitFailed || done.error == Recon.StatementFailed)
          && LostDeletedFiles(s, before, after))
    && (done.Err? && !isOpen && cleared ==> after == Recon.EMPTY)
    && (done.Err? && !isOpen && !cleared ==>
          || LostDeletedFiles(s, before, after)
          || (after.current == before.current && after.filePolicy == map[]))
  }

  /** The policy tables lose the rows of deleted files with the publication, and are then reconciled. */
  method FollowPublication(policy: Recon.Connection, s: Store, p: PolicyInputs)
    returns (done: Result<(), Recon.Failure>, cleared: bool)
    requires Recon.KeysAreUnique(p.candidates, p.evidence)
    requires !policy.inTransaction && policy.live == policy.committed
    modifies policy
    ensures PolicyFollows(s, p, old(policy.committed), policy.committed, done, cleared, policy.inTransaction)
    ensures !policy.inTransaction ==> policy.live == policy.committed
  {
    hide Recon.Reconciled, Recon.Answer;
    CascadedLost(s, policy.committed);
    policy.committed := Cascaded(s, policy.committed);
    policy.live := policy.committed;
    ghost var commit, last;
    done, cleared, commit, last := policy.ReconcileAfterIndex(p.candidates, p.evidence, p.roles);
  }

  ghost predicate AllUnique(inputs: Store -> PolicyInputs) {
    forall s :: Recon.KeysAreUnique(inputs(s).candidates, inputs(s).evidence)
  }

  /** `index_repo` as a command runs it. */
  method IndexAndReconcile(
      db: Connection, policy: Recon.Connection, w: World, b: Build, captures: nat -> Capture, options: Options,
      inputs: Store -> PolicyInputs)
    returns (r: Result<(), Error>, attempts: nat, done: Result<(), Recon.Failure>, cleared: bool)
    requires CollisionFree(w.hash) && ValidCaptures(w, captures) && AllUnique(inputs)
    requires OneTransaction(db, policy) && Consistent(w, db.committed)
    modifies db, policy
    ensures OneTransaction(db, policy) && 1 <= attempts <= 3
    ensures Outcome(w, b, captures(attempts - 1), options, old(db.committed), db.committed, r,
              old(db.inTransaction) || db.Faulted(old(db.clock)))
    ensures r.Ok? ==> PolicyFollows(db.committed, inputs(db.committed), old(policy.committed), policy.committed, done, cleared, db.inTransaction)
    ensures r.Err? ==> policy.committed == old(policy.committed)
    ensures old(db.inTransaction) ==> r == Err(SqlFailure) && db.inTransaction && policy.live == old(policy.live)
  {
    hide Outcome, Consistent, CollisionFree, ValidCaptures, PolicyFollows;
    r, attempts := IndexRepository(db, w, b, captures, options);
    done, cleared := Ok(()), false;
    if r.Err? {
      policy.inTransaction := db.inTransaction;
      return;
    }
    var p := inputs(db.committed);
    assert Recon.KeysAreUnique(inputs(db.committed).candidates, inputs(db.committed).evidence);
    done, cleared := FollowPublication(policy, db.committed, p);
    db.inTransaction := policy.inTransaction;
  }
}
