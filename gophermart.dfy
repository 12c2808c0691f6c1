/** pkg/domain/gophermart.go: posting an order and withdrawing points, over
    the order store, the accrual service and a database transaction. */
module Domain {
  import opened Wrappers
  import opened Errors
  import opened Entity
  import opened OrderStore
  import opened OrderNumber
  import opened Transactor
  import Accrual

  /** The error PostOrder and Withdraw return for a number CheckOrderNumber
      does not accept: its own error, or ErrBadOrderNumber for a failed Luhn
      check. */
  function RejectionError(number: string): Error
  {
    if |number| > OrderNumberMaxLength then OrderNumberTooLong else BadOrderNumber
  }

  /** What the body of Withdraw's transaction returns and leaves in the
      withdrawals table. */
  datatype BodyOutcome = BodyOutcome(err: Option<Error>, withdrawals: seq<Withdrawal>)

  /** The body of Withdraw's transaction as written: the total of the user's
      accruals must cover the value. */
  ghost function WithdrawBody(t: Table, ws: seq<Withdrawal>, w: Withdrawal, generated: Option<Id>): (r: BodyOutcome)
    requires generated.Some? ==> generated.value != NilId
    // a withdrawal is recorded only when the accruals cover it, and alone
    ensures r.err.None? ==>
              && AccrualsSumResult(t, w.userId).Success?
              && w.value <= AccrualsSum(t, w.userId)
              && |r.withdrawals| == |ws| + 1 && r.withdrawals[..|ws|] == ws
              && r.withdrawals[|ws|].userId == w.userId && r.withdrawals[|ws|].value == w.value
    ensures r.err.Some? ==> r.withdrawals == ws
    // the accruals not covering the value is reported as ErrNotEnoughAccruals
    ensures AccrualsSumResult(t, w.userId).Success? && AccrualsSum(t, w.userId) < w.value ==>
              r.err == Some(NotEnoughAccruals)
  {
    match AccrualsSumResult(t, w.userId)
    case Failure(e) => BodyOutcome(Some(e), ws)
    case Success(sum) =>
      if sum < w.value then BodyOutcome(Some(NotEnoughAccruals), ws)
      else
        var out := RecordWithdrawal(ws, w, generated);
        BodyOutcome(out.err, out.withdrawals)
  }

  /** The body with the balance (accruals less withdrawals) as the bound. */
  ghost function WithdrawBodyIntended(t: Table, ws: seq<Withdrawal>, w: Withdrawal, generated: Option<Id>): (r: BodyOutcome)
    requires generated.Some? ==> generated.value != NilId
    ensures r.err.None? ==>
              && AccrualsSumResult(t, w.userId).Success?
              && w.value <= AccrualsSum(t, w.userId) - WithdrawnSum(ws, w.userId)
              && |r.withdrawals| == |ws| + 1 && r.withdrawals[..|ws|] == ws
              && r.withdrawals[|ws|].userId == w.userId && r.withdrawals[|ws|].value == w.value
    ensures r.err.Some? ==> r.withdrawals == ws
  {
    match AccrualsSumResult(t, w.userId)
    case Failure(e) => BodyOutcome(Some(e), ws)
    case Success(sum) =>
      if sum - WithdrawnSum(ws, w.userId) < w.value then BodyOutcome(Some(NotEnoughAccruals), ws)
      else
        var out := RecordWithdrawal(ws, w, generated);
        BodyOutcome(out.err, out.withdrawals)
  }

  /** The withdrawn total after one more row. */
  lemma WithdrawnSumAppend(ws: seq<Withdrawal>, x: Withdrawal, userId: Id)
    ensures WithdrawnSum(ws + [x], userId) == WithdrawnSum(ws, userId) + (if x.userId == userId then x.value else 0.0)
  {
  }

  /** The user withdrew no more than was accrued. */
  ghost predicate Covered(t: Table, ws: seq<Withdrawal>, userId: Id)
  {
    WithdrawnSum(ws, userId) <= AccrualsSum(t, userId)
  }

  /** The intended body keeps every user's withdrawals covered by accruals. */
  lemma IntendedBodyKeepsCovered(t: Table, ws: seq<Withdrawal>, w: Withdrawal, generated: Option<Id>, userId: Id)
    requires generated.Some? ==> generated.value != NilId
    requires Covered(t, ws, userId)
    ensures Covered(t, WithdrawBodyIntended(t, ws, w, generated).withdrawals, userId)
  {
  }

  /** As written, a user with 100 accrued and 60 already withdrawn may
      withdraw 50 more, ending with 110 withdrawn against 100 accrued; the
      intended body refuses it. */
  lemma OverdrawAsWritten()
    ensures var t := map["0928953488" := Row(1, 7, Processed, Some(100.0))];
            var ws := [Withdrawal(2, 7, "9325279751", 60.0)];
            var w := Withdrawal(3, 7, "9325279751", 50.0);
      && Covered(t, ws, 7)
      && WithdrawBody(t, ws, w, None).err.None?
      && !Covered(t, WithdrawBody(t, ws, w, None).withdrawals, 7)
      && WithdrawBodyIntended(t, ws, w, None).err == Some(NotEnoughAccruals)
  {
    var t := map["0928953488" := Row(1, 7, Processed, Some(100.0))];
    var ws := [Withdrawal(2, 7, "9325279751", 60.0)];
    var w := Withdrawal(3, 7, "9325279751", 50.0);
    AccrualsSumRemove(t, "0928953488", 7);
    assert t - {"0928953488"} == map[];
    assert Counts(t["0928953488"], 7);
    assert AccrualsSumResult(t, 7) == Success(100.0);
    assert ws[..0] == [];
    assert WithdrawnSum(ws, 7) == 60.0;
    WithdrawnSumAppend(ws, w, 7);
  }

  /** Withdraw after the number was accepted and BEGIN succeeded, as written.
      The transactor drops the transaction it opened, and the store issues
      its statements on the pool, so every statement commits on its own: the
      row the body recorded stays whatever Commit or Rollback returns. */
  ghost function WithdrawTransaction(t: Table, ws: seq<Withdrawal>, w: Withdrawal, generated: Option<Id>,
                                     commitErr: Option<Error>, rollbackErr: Option<Error>): (r: BodyOutcome)
    requires generated.Some? ==> generated.value != NilId
    // success needs a clean body and a clean commit
    ensures r.err.None? <==> WithdrawBody(t, ws, w, generated).err.None? && commitErr.None?
    // a row is recorded exactly when the body succeeded, whatever the commit did
    ensures WithdrawBody(t, ws, w, generated).err.None? <==> |r.withdrawals| == |ws| + 1
    ensures WithdrawBody(t, ws, w, generated).err.Some? <==> r.withdrawals == ws
    // the body's error is the one reported
    ensures WithdrawBody(t, ws, w, generated).err.Some? ==>
              r.err.Some? && Is(r.err.value, WithdrawBody(t, ws, w, generated).err.value)
  {
    var body := WithdrawBody(t, ws, w, generated);
    BodyOutcome(CommitOrRollback(body.err, None, commitErr, rollbackErr).result, body.withdrawals)
  }

  /** Withdraw after BEGIN with the statements run on the transaction: the
      corrected body's row persists only when the commit succeeds. */
  ghost function WithdrawTransactionIntended(t: Table, ws: seq<Withdrawal>, w: Withdrawal, generated: Option<Id>,
                                             commitErr: Option<Error>, rollbackErr: Option<Error>): (r: BodyOutcome)
    requires generated.Some? ==> generated.value != NilId
    ensures r.err.None? <==> WithdrawBodyIntended(t, ws, w, generated).err.None? && commitErr.None?
    // all or nothing: a failed withdrawal leaves "withdrawn" as it was
    ensures r.err.Some? ==> r.withdrawals == ws
    ensures r.err.None? ==> r.withdrawals == WithdrawBodyIntended(t, ws, w, generated).withdrawals
    ensures r.err.None? ==> w.value <= AccrualsSum(t, w.userId) - WithdrawnSum(ws, w.userId)
  {
    var body := WithdrawBodyIntended(t, ws, w, generated);
    var d := CommitOrRollback(body.err, None, commitErr, rollbackErr);
    BodyOutcome(d.result, if d.result.None? then body.withdrawals else ws)
  }

  /** As written, a withdrawal whose commit fails is reported as failed and is
      kept all the same; run on the transaction, it is not kept. */
  lemma FailedCommitKeepsWithdrawal()
    ensures var t := map["0928953488" := Row(1, 7, Processed, Some(100.0))];
            var w := Withdrawal(3, 7, "9325279751", 50.0);
            var commitErr := Some(Other("commit failed"));
      && WithdrawTransaction(t, [], w, None, commitErr, None).err == commitErr
      && WithdrawTransaction(t, [], w, None, commitErr, None).withdrawals == [w]
      && WithdrawTransactionIntended(t, [], w, None, commitErr, None).err == commitErr
      && WithdrawTransactionIntended(t, [], w, None, commitErr, None).withdrawals == []
  {
    var t := map["0928953488" := Row(1, 7, Processed, Some(100.0))];
    AccrualsSumRemove(t, "0928953488", 7);
    assert t - {"0928953488"} == map[];
    assert Counts(t["0928953488"], 7);
    assert AccrualsSumResult(t, 7) == Success(100.0);
  }

  class Gophermart {
    const repo: OrderRepo
    const accrual: Accrual.Service

    ghost predicate Valid()
      reads this, repo, accrual, accrual.worker
    {
      accrual.repo == repo && accrual.Valid()
    }

    constructor(cfg: Accrual.AccrualConfig, now: int)
      ensures Valid() && fresh(repo) && fresh(accrual) && fresh(accrual.worker)
      ensures repo.orders == map[] && repo.withdrawals == []
    {
      var r := new OrderRepo();
      repo := r;
      accrual := new Accrual.Service(cfg, r, now);
    }

    /** `PostOrder`: reject a bad number before touching anything; otherwise
        force NEW, insert, and only after a successful insert send the stored
        order to the accrual service. */
    method PostOrder(order: Order, generated: Option<Id>, rateExceeded: bool, now: int) returns (err: Option<Error>)
      requires Valid()
      requires generated.Some? ==> generated.value != NilId
      modifies repo, accrual, accrual.worker
      ensures Valid()
      ensures repo.withdrawals == old(repo.withdrawals)
      ensures !Accepted(order.number) ==>
                && err == Some(RejectionError(order.number))
                && repo.orders == old(repo.orders)
                && accrual.worker.submitted == old(accrual.worker.submitted)
      ensures Accepted(order.number) ==>
                var out := InsertOrder(old(repo.orders), order.(status := New), generated);
                && err == out.err
                && repo.orders == out.table
                && accrual.worker.submitted == old(accrual.worker.submitted) + (if out.err.None? then [out.order] else [])
    {
      var ok, checkErr := CheckOrderNumber(order.number);
      if checkErr.Some? {
        return checkErr;
      }
      if !ok {
        return Some(BadOrderNumber);
      }
      var stored, insertErr := repo.Insert(order.(status := New), generated);
      if insertErr.Some? {
        return insertErr;
      }
      ghost var before := accrual.DispatchState();
      err := accrual.Send(stored, rateExceeded, now);
      Accrual.SendStepAccounted(before, accrual.worker.maxWorkers, accrual.cfg.overloadReportCount, rateExceeded, now, stored,
                                accrual.worker.handled);
    }

    /** `Withdraw` as written: reject a bad number before opening the
        transaction (`beginErr`: BEGIN failed); the body checks the total of
        the accruals and records the withdrawal on the pool, then the
        transaction is committed or rolled back with nothing in it. */
    method Withdraw(w: Withdrawal, generated: Option<Id>, tx: Tx, beginErr: Option<Error>) returns (err: Option<Error>)
      requires Valid()
      requires generated.Some? ==> generated.value != NilId
      modifies repo, tx
      ensures Valid()
      ensures repo.orders == old(repo.orders)
      ensures !Accepted(w.orderNumber) || beginErr.Some? ==>
                && err == (if !Accepted(w.orderNumber) then Some(RejectionError(w.orderNumber)) else beginErr)
                && repo.withdrawals == old(repo.withdrawals)
                && tx.commits == old(tx.commits) && tx.rollbacks == old(tx.rollbacks)
      ensures Accepted(w.orderNumber) && beginErr.None? ==>
                var r := WithdrawTransaction(old(repo.orders), old(repo.withdrawals), w, generated, tx.commitResult, tx.rollbackResult);
                var d := CommitOrRollback(WithdrawBody(old(repo.orders), old(repo.withdrawals), w, generated).err, None, tx.commitResult, tx.rollbackResult);
                && err == r.err
                && repo.withdrawals == r.withdrawals
                && tx.commits == old(tx.commits) + (if d.action == Commit then 1 else 0)
                && tx.rollbacks == old(tx.rollbacks) + (if d.action == Rollback then 1 else 0)
    {
      var ok, checkErr := CheckOrderNumber(w.orderNumber);
      if checkErr.Some? {
        return checkErr;
      }
      if !ok {
        return Some(BadOrderNumber);
      }
      if beginErr.Some? {
        return beginErr;
      }
      var bodyErr: Option<Error>;
      var sum := repo.GetAccrualsSum(w.userId);
      if sum.Failure? {
        bodyErr := Some(sum.error);
      } else if sum.value < w.value {
        bodyErr := Some(NotEnoughAccruals);
      } else {
        var _, withdrawErr := repo.Withdraw(w, generated);
        bodyErr := withdrawErr;
      }
      err := Transaction(tx, beginErr, bodyErr, None);
    }

    /** `Withdraw` bounded by the balance, accruals less withdrawals, with the
        body's INSERT held in the transaction until it commits. */
    method WithdrawIntended(w: Withdrawal, generated: Option<Id>, tx: Tx, beginErr: Option<Error>) returns (err: Option<Error>)
      requires Valid()
      requires generated.Some? ==> generated.value != NilId
      modifies repo, tx
      ensures Valid()
      ensures repo.orders == old(repo.orders)
      ensures !Accepted(w.orderNumber) || beginErr.Some? ==>
                && err == (if !Accepted(w.orderNumber) then Some(RejectionError(w.orderNumber)) else beginErr)
                && repo.withdrawals == old(repo.withdrawals)
                && tx.commits == old(tx.commits) && tx.rollbacks == old(tx.rollbacks)
      ensures Accepted(w.orderNumber) && beginErr.None? ==>
                var r := WithdrawTransactionIntended(old(repo.orders), old(repo.withdrawals), w, generated, tx.commitResult, tx.rollbackResult);
                err == r.err && repo.withdrawals == r.withdrawals
      ensures err.Some? ==> repo.withdrawals == old(repo.withdrawals)
      ensures forall u :: Covered(old(repo.orders), old(repo.withdrawals), u) ==> Covered(repo.orders, repo.withdrawals, u)
    {
      var ok, checkErr := CheckOrderNumber(w.orderNumber);
      if checkErr.Some? {
        return checkErr;
      }
      if !ok {
        return Some(BadOrderNumber);
      }
      if beginErr.Some? {
        return beginErr;
      }
      ghost var savedOrders, savedWithdrawals := repo.orders, repo.withdrawals;
      var bodyErr: Option<Error>;
      var sum := repo.GetAccrualsSum(w.userId);
      if sum.Failure? {
        bodyErr := Some(sum.error);
      } else if sum.value - WithdrawnSum(repo.withdrawals, w.userId) < w.value {
        bodyErr := Some(NotEnoughAccruals);
      } else {
        bodyErr := RecordWithdrawal(repo.withdrawals, w, generated).err;
      }
      err := Transaction(tx, beginErr, bodyErr, None);
      if err.None? {
        var _, _ := repo.Withdraw(w, generated);
      }
      forall u | Covered(savedOrders, savedWithdrawals, u)
        ensures Covered(repo.orders, repo.withdrawals, u)
      {
        IntendedBodyKeepsCovered(savedOrders, savedWithdrawals, w, generated, u);
      }
    }
  }
}
