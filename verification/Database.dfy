/** One writer's SQLite connection: a transaction, a commit, and statements that may fail. */
module Database {
  import opened Wrappers
  import opened Publication
  import opened Tables

  datatype Error =
    | SqlFailure            // a statement failed
    | RetryableRead         // a source file could not be read for now
    | ProvenanceDrift       // the Git state moved while the index was built
    | DiscoveryFailure      // dependencies could not be found, planned or read
    | ResolutionFailure     // module edges could not be resolved
    | DuplicatePath         // UNIQUE constraint on `files.path`
    | TooLarge              // more rows or bytes than the platform can count

  /** `t` differs from `s` in no row but the one at `p`. */
  ghost predicate SameAt(s: Store, t: Store, p: Text) {
    && (p in s.files <==> p in t.files)
    && (p in s.ids <==> p in t.ids)
    && (p in s.files && p in t.files ==> s.files[p] == t.files[p])
    && (p in s.ids && p in t.ids ==> s.ids[p] == t.ids[p])
  }

  ghost predicate OnlyRows(s: Store, t: Store) {
    && t == s.(files := t.files, ids := t.ids, nextId := t.nextId)
    && t.ids.Keys == t.files.Keys
  }

  ghost predicate OnlyAt(s: Store, t: Store, p: Text) {
    OnlyRows(s, t) && forall q: Text :: q != p ==> SameAt(s, t, q)
  }

  lemma OnlyAtChain(s: Store, t: Store, u: Store, p: Text)
    requires OnlyAt(s, t, p) && OnlyAt(t, u, p)
    ensures OnlyAt(s, u, p)
  {
    forall q: Text | q != p
      ensures SameAt(s, u, q)
    {
      assert SameAt(s, t, q) && SameAt(t, u, q);
    }
  }

  /** One of the statements from `from` to `to` fails. */
  ghost predicate Fails(fails: nat -> bool, from: nat, to: nat) {
    exists k :: from <= k < to && fails(k)
  }

  lemma FailsJoin(fails: nat -> bool, from: nat, middle: nat, to: nat)
    requires from <= middle <= to
    ensures Fails(fails, from, to) <==> Fails(fails, from, middle) || Fails(fails, middle, to)
  {
  }

  lemma FailsNone(fails: nat -> bool, k: nat)
    ensures !Fails(fails, k, k)
  {
  }

  lemma FailsOnce(fails: nat -> bool, k: nat)
    ensures Fails(fails, k, k + 1) <==> fails(k)
  {
  }

  class Connection {
    var live: Store
    var committed: Store
    var inTransaction: bool
    var clock: nat
    /** Which of the statements, counted from the start, fail. */
    const fails: nat -> bool

    ghost predicate Valid()
      reads this
    {
      && (!inTransaction ==> live == committed)
      && committed.ids.Keys == committed.files.Keys
    }

    /** A statement run since `from` failed. */
    ghost predicate Faulted(from: nat)
      reads this
    {
      Fails(fails, from, clock)
    }

    constructor (fails: nat -> bool)
      ensures Valid() && !inTransaction && committed == EMPTY && this.fails == fails
    {
      live, committed, inTransaction, clock := EMPTY, EMPTY, false, 0;
      this.fails := fails;
    }

    method Execute() returns (ok: bool)
      modifies `clock
      ensures clock == old(clock) + 1
      ensures ok == !fails(old(clock))
    {
      ok := !fails(clock);
      clock := clock + 1;
    }

    /** `BEGIN IMMEDIATE`, which is refused inside a transaction. */
    method Begin() returns (ok: bool)
      requires Valid()
      modifies `inTransaction, `clock
      ensures Valid() && clock == old(clock) + 1
      ensures ok <==> !old(inTransaction) && !fails(old(clock))
      ensures inTransaction == (old(inTransaction) || ok)
    {
      ok := Execute();
      ok := ok && !inTransaction;
      inTransaction := inTransaction || ok;
    }

    method Commit() returns (ok: bool)
      requires Valid() && inTransaction && live.ids.Keys == live.files.Keys
      modifies `committed, `inTransaction, `clock
      ensures Valid() && clock == old(clock) + 1
      ensures ok == !fails(old(clock)) && inTransaction == !ok
      ensures committed == if ok then live else old(committed)
    {
      ok := Execute();
      if ok {
        committed, inTransaction := live, false;
      }
    }

    /** `ROLLBACK`, whose own failure is ignored by every caller. */
    method Rollback()
      requires committed.ids.Keys == committed.files.Keys
      requires inTransaction
      modifies `live, `inTransaction, `clock
      ensures clock == old(clock) + 1
      ensures fails(old(clock)) ==> inTransaction && live == old(live)
      ensures !fails(old(clock)) ==> !inTransaction && live == committed
    {
      var ok := Execute();
      if ok {
        live, inTransaction := committed, false;
      }
    }

    method DeleteFile(path: Text) returns (ok: bool)
      requires live.ids.Keys == live.files.Keys
      modifies `live, `clock
      ensures OnlyAt(old(live), live, path)
      ensures clock == old(clock) + 1 && ok == !fails(old(clock))
      ensures ok ==> path !in live.files
      ensures !ok ==> live == old(live)
    {
      ok := Execute();
      if ok {
        live := live.(files := live.files - {path}, ids := live.ids - {path});
      }
    }

    method InsertFile(path: Text, row: FileRow) returns (r: Result<(), Error>)
      requires live.ids.Keys == live.files.Keys
      modifies `live, `clock
      ensures OnlyAt(old(live), live, path)
      ensures clock == old(clock) + 1
      ensures r.Ok? ==> path in live.files && live.files[path] == row && live.ids[path] == old(live.nextId)
      ensures r.Err? ==> live == old(live)
      ensures r.Err? ==> r.error == (if fails(old(clock)) then SqlFailure else DuplicatePath)
      ensures r.Err? <==> fails(old(clock)) || path in old(live.files)
    {
      var ok := Execute();
      if !ok {
        return Err(SqlFailure);
      }
      if path in live.files {
        return Err(DuplicatePath);
      }
      live := live.(files := live.files[path := row], ids := live.ids[path := live.nextId], nextId := live.nextId + 1);
      r := Ok(());
    }

    /** `UPDATE files … WHERE id=…`: the row keeps its id. */
    method UpdateFile(path: Text, row: FileRow) returns (ok: bool)
      requires live.ids.Keys == live.files.Keys && path in live.files
      modifies `live, `clock
      ensures OnlyAt(old(live), live, path)
      ensures clock == old(clock) + 1 && ok == !fails(old(clock))
      ensures path in live.files && live.ids[path] == old(live.ids[path])
      ensures live.files[path] == if ok then row else old(live.files[path])
    {
      ok := Execute();
      if ok {
        live := live.(files := live.files[path := row]);
      }
    }
  }
}
