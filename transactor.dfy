/** internal/pg/transactor.go: commit or roll back when a transaction body
    returns, and the Transaction wrapper. */
module Transactor {
  import opened Wrappers
  import opened Errors

  datatype Action = Commit | Rollback

  /** What `commitOrRollbackPGX` does to the transaction and what it returns. */
  datatype Decision = Decision(action: Action, result: Option<Error>)

  /** The error a recovered panic turns into. */
  function PanicError(panicValue: string, rollbackErr: Option<Error>): Error
  {
    Panic(panicValue, rollbackErr)
  }

  /** `commitOrRollbackPGX`, as a function of the body's error, the recovered
      panic value (None: no panic) and what `tx.Commit` / `tx.Rollback` would
      return. */
  function CommitOrRollback(err: Option<Error>, panicValue: Option<string>,
                            commitErr: Option<Error>, rollbackErr: Option<Error>): (d: Decision)
    // Commit only on a clean return; a panic or an error rolls back
    ensures d.action == Commit <==> panicValue.None? && err.None?
    // nil comes back exactly when the transaction was committed successfully
    ensures d.result.None? <==> d.action == Commit && commitErr.None?
    // the body's error is never lost
    ensures err.Some? ==> d.result.Some? && Is(d.result.value, err.value)
    // a panic is always reported, with the rollback failure when there is one
    ensures panicValue.Some? ==> d.result.Some? && Is(d.result.value, PanicError(panicValue.value, rollbackErr))
    // a failed rollback after an error is reported too
    ensures err.Some? && rollbackErr.Some? ==> d.result.Some? && Is(d.result.value, rollbackErr.value)
    // which error comes back, case by case
    ensures panicValue.None? && err.None? ==> d.result == commitErr
    ensures panicValue.None? && err.Some? && rollbackErr.None? ==> d.result == err
    ensures panicValue.None? && err.Some? && rollbackErr.Some? ==> d.result == Some(Joined(err.value, rollbackErr.value))
    ensures panicValue.Some? && err.None? ==> d.result == Some(PanicError(panicValue.value, rollbackErr))
    ensures panicValue.Some? && err.Some? ==> d.result == Some(Joined(err.value, PanicError(panicValue.value, rollbackErr)))
  {
    if panicValue.Some? then
      var inner := PanicError(panicValue.value, rollbackErr);
      Decision(Rollback, Some(if err.Some? then Joined(err.value, inner) else inner))
    else if err.None? then
      Decision(Commit, commitErr)
    else if rollbackErr.Some? then
      Decision(Rollback, Some(Joined(err.value, rollbackErr.value)))
    else
      Decision(Rollback, err)
  }

  /** A pgx.Tx as far as the decision needs it: what Commit and Rollback return,
      and how often each was called. */
  class Tx {
    const commitResult: Option<Error>
    const rollbackResult: Option<Error>
    var commits: nat
    var rollbacks: nat

    constructor(commitResult: Option<Error>, rollbackResult: Option<Error>)
      ensures this.commitResult == commitResult && this.rollbackResult == rollbackResult
      ensures commits == 0 && rollbacks == 0
    {
      this.commitResult := commitResult;
      this.rollbackResult := rollbackResult;
      commits, rollbacks := 0, 0;
    }

    method Commit() returns (err: Option<Error>)
      modifies this
      ensures commits == old(commits) + 1 && rollbacks == old(rollbacks)
      ensures err == commitResult
    {
      commits := commits + 1;
      err := commitResult;
    }

    method Rollback() returns (err: Option<Error>)
      modifies this
      ensures rollbacks == old(rollbacks) + 1 && commits == old(commits)
      ensures err == rollbackResult
    {
      rollbacks := rollbacks + 1;
      err := rollbackResult;
    }
  }

  /** `commitOrRollbackPGX` with its effects: exactly one of Commit and
      Rollback is called, once, as CommitOrRollback decides. */
  method CommitOrRollbackPgx(tx: Tx, err: Option<Error>, panicValue: Option<string>) returns (r: Option<Error>)
    modifies tx
    ensures var d := CommitOrRollback(err, panicValue, tx.commitResult, tx.rollbackResult);
      && r == d.result
      && tx.commits == old(tx.commits) + (if d.action == Commit then 1 else 0)
      && tx.rollbacks == old(tx.rollbacks) + (if d.action == Rollback then 1 else 0)
  {
    if panicValue.Some? {
      var rollbackErr := tx.Rollback();
      var inner := PanicError(panicValue.value, rollbackErr);
      r := Some(if err.Some? then Joined(err.value, inner) else inner);
      return;
    }
    if err.None? {
      r := tx.Commit();
      return;
    }
    var rollbackErr := tx.Rollback();
    if rollbackErr.Some? {
      return Some(Joined(err.value, rollbackErr.value));
    }
    return err;
  }

  /** `transactor.Transaction` over `Pool.Transaction` when no transaction is
      open yet: begin (which may fail), run `f`, then commit or roll back.
      `f` is given by what it returns and whether it panicked. */
  method Transaction(tx: Tx, beginErr: Option<Error>, fErr: Option<Error>, fPanic: Option<string>) returns (r: Option<Error>)
    modifies tx
    ensures beginErr.Some? ==> r == beginErr && tx.commits == old(tx.commits) && tx.rollbacks == old(tx.rollbacks)
    ensures beginErr.None? ==>
      (var d := CommitOrRollback(fErr, fPanic, tx.commitResult, tx.rollbackResult);
       && r == d.result
       && tx.commits == old(tx.commits) + (if d.action == Commit then 1 else 0)
       && tx.rollbacks == old(tx.rollbacks) + (if d.action == Rollback then 1 else 0))
  {
    if beginErr.Some? {
      return beginErr;
    }
    r := CommitOrRollbackPgx(tx, fErr, fPanic);
  }
}
