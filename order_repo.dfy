/** internal/pg/order_repo.go: the "order" and "withdrawn" tables, as a map
    from order number to row and a list of withdrawal rows. The SQL is not
    modelled, only what each statement does to the rows. */
module OrderStore {
  import opened Wrappers
  import opened Errors
  import opened Entity
  import OrderNumber

  /** A row of "order", without its number (the map key) and its timestamp. */
  datatype Row = Row(id: Id, userId: Id, status: OrderStatus, accrual: Option<real>)

  /** The "order" table keyed by its unique `number` column (order_number_uindex). */
  type Table = map<string, Row>

  /** The primary key: IDs are set and unique. */
  predicate TableWellFormed(t: Table)
  {
    && (forall n :: n in t ==> t[n].id != NilId)
    && (forall n, m :: n in t && m in t && n != m ==> t[n].id != t[m].id)
  }

  predicate IdTaken(t: Table, id: Id)
  {
    exists n :: n in t && t[n].id == id
  }

  /** The entity.Order that `SELECT *` scans from a row. */
  function OrderOf(number: string, row: Row): Order
  {
    Order(row.id, row.userId, number, row.status, row.accrual)
  }

  /** What `Pool.Exec` returns for a violated constraint: the driver's error
      wrapped in `retriablePostgresErr`, which reports it not retriable, so
      Retry returns it after one attempt. */
  function ConstraintError(constraint: string): (e: Error)
    ensures !e.Retriable? || !e.temporary
  {
    Retriable(Db(constraint), false)
  }

  // ---- Insert ----

  datatype InsertOutcome = InsertOutcome(order: Order, err: Option<Error>, table: Table)

  /** `Insert` as intended: assign an ID when the order has none (`generated`
      is what uuid.NewV6 returned, None when it failed), then insert id, user,
      number and status; a taken number is classified by the owner of the
      existing row. The accrual column is not part of the INSERT and starts
      NULL. The primary key is checked before the number index. */
  function InsertOrder(t: Table, order: Order, generated: Option<Id>): (r: InsertOutcome)
    requires generated.Some? ==> generated.value != NilId
    ensures order.id != NilId ==> r.order == order
    ensures order.id == NilId && generated.Some? ==> r.order == order.(id := generated.value)
    ensures order.id == NilId && generated.None? ==> r.err == Some(IdGeneration)
    // a failed insert writes nothing
    ensures r.err.Some? ==> r.table == t
    ensures r.err.None? <==> r.order.id != NilId && !IdTaken(t, r.order.id) && order.number !in t
    ensures r.err.None? ==> r.table == t[order.number := Row(r.order.id, order.userId, order.status, None)]
    // duplicate numbers are reported by whose order it is
    ensures r.order.id != NilId && !IdTaken(t, r.order.id) && order.number in t ==>
              r.err == Some(if t[order.number].userId == order.userId
                            then OrderCreatedByCurrentUser else OrderCreatedByOtherUser)
    ensures TableWellFormed(t) ==> TableWellFormed(r.table)
  {
    if order.id == NilId && generated.None? then InsertOutcome(order, Some(IdGeneration), t)
    else
      var o := if order.id == NilId then order.(id := generated.value) else order;
      if IdTaken(t, o.id) then InsertOutcome(o, Some(ConstraintError("order_pk")), t)
      else if o.number in t then
        InsertOutcome(o, Some(if t[o.number].userId == o.userId then OrderCreatedByCurrentUser
                              else OrderCreatedByOtherUser), t)
      else InsertOutcome(o, None, t[o.number := Row(o.id, o.userId, o.status, None)])
  }

  /** `Insert` as written. `errors.As` looks for a `*pgconn.PgError` inside
      the error Exec returned, but `retriablePostgresErr` has no Unwrap, so
      the lookup never succeeds and a taken number comes back as the wrapped
      driver error. */
  function InsertOrderAsWritten(t: Table, order: Order, generated: Option<Id>): (r: InsertOutcome)
    requires generated.Some? ==> generated.value != NilId
    // the same rows are written, and the same calls fail
    ensures r.table == InsertOrder(t, order, generated).table
    ensures r.err.None? <==> InsertOrder(t, order, generated).err.None?
    // a taken number is the bare constraint violation
    ensures r.order.id != NilId && !IdTaken(t, r.order.id) && order.number in t ==>
              r.err == Some(ConstraintError("order_number_uindex"))
    // so neither duplicate sentinel is ever recognised
    ensures r.err.Some? ==> !Is(r.err.value, OrderCreatedByCurrentUser) && !Is(r.err.value, OrderCreatedByOtherUser)
  {
    if order.id == NilId && generated.None? then InsertOutcome(order, Some(IdGeneration), t)
    else
      var o := if order.id == NilId then order.(id := generated.value) else order;
      if IdTaken(t, o.id) then InsertOutcome(o, Some(ConstraintError("order_pk")), t)
      else if o.number in t then InsertOutcome(o, Some(ConstraintError("order_number_uindex")), t)
      else InsertOutcome(o, None, t[o.number := Row(o.id, o.userId, o.status, None)])
  }

  /** Posting the same number twice for one user, as the repository's test
      does: the intended insert reports ErrOrderCreatedByCurrentUser, the
      insert as written returns the wrapped violation. The number is "1",
      which the as-written order-number check lets through, so the second
      post does reach the insert. */
  lemma RepeatedPostUnclassified()
    ensures OrderNumber.Accepted("1")
    ensures var order := Order(1, 7, "1", New, None);
            var t := InsertOrder(map[], order, None).table;
            var again := Order(NilId, 7, "1", New, None);
      && InsertOrder(t, again, Some(2)).err == Some(OrderCreatedByCurrentUser)
      && InsertOrderAsWritten(t, again, Some(2)).err == Some(ConstraintError("order_number_uindex"))
  {
    OrderNumber.WrittenAcceptsNonLuhnNumber();
    var t := map["1" := Row(1, 7, New, None)];
    assert !IdTaken(t, 2);
  }

  // ---- the UPDATE statements ----

  /** `UPDATE "order" SET status = $1 WHERE id = $2`. */
  function WithStatusById(t: Table, id: Id, status: OrderStatus): (r: Table)
    ensures r.Keys == t.Keys
    ensures forall n :: n in t && t[n].id != id ==> r[n] == t[n]
    ensures forall n :: n in t && t[n].id == id ==> r[n] == Row(id, t[n].userId, status, t[n].accrual)
  {
    map n | n in t :: if t[n].id == id then t[n].(status := status) else t[n]
  }

  /** `UPDATE "order" SET (status, accrual) = ($2, $3) WHERE id = $1`. */
  function WithAttributesById(t: Table, id: Id, status: OrderStatus, accrual: Option<real>): (r: Table)
    ensures r.Keys == t.Keys
    ensures forall n :: n in t && t[n].id != id ==> r[n] == t[n]
    ensures forall n :: n in t && t[n].id == id ==> r[n] == Row(id, t[n].userId, status, accrual)
  {
    map n | n in t :: if t[n].id == id then t[n].(status := status, accrual := accrual) else t[n]
  }

  /** The accrual engine's `SetOrderStatus(number, status)`: the status of the
      order with that number, if there is one. */
  function WithStatusByNumber(t: Table, number: string, status: OrderStatus): (r: Table)
    ensures r.Keys == t.Keys
    ensures forall n :: n in t && n != number ==> r[n] == t[n]
    ensures number in t ==> r[number] == t[number].(status := status)
  {
    if number in t then t[number := t[number].(status := status)] else t
  }

  lemma WithStatusByIdWellFormed(t: Table, id: Id, status: OrderStatus)
    requires TableWellFormed(t)
    ensures TableWellFormed(WithStatusById(t, id, status))
  {
  }

  lemma WithAttributesByIdWellFormed(t: Table, id: Id, status: OrderStatus, accrual: Option<real>)
    requires TableWellFormed(t)
    ensures TableWellFormed(WithAttributesById(t, id, status, accrual))
  {
  }

  lemma WithStatusByNumberWellFormed(t: Table, number: string, status: OrderStatus)
    requires TableWellFormed(t)
    ensures TableWellFormed(WithStatusByNumber(t, number, status))
  {
  }

  // ---- GetAccrualsSum ----

  /** A row that `SELECT sum(accrual) ... WHERE user_id = $1 AND status = 'PROCESSED'`
      adds up (SUM skips NULL). */
  predicate Counts(row: Row, userId: Id)
  {
    row.userId == userId && row.status == Processed && row.accrual.Some?
  }

  function Contribution(row: Row, userId: Id): real
  {
    if Counts(row, userId) then row.accrual.value else 0.0
  }

  /** The sum of the user's PROCESSED accruals, in no particular row order. */
  ghost function AccrualsSum(t: Table, userId: Id): real
    decreases |t|
  {
    if t == map[] then 0.0
    else
      var n :| n in t;
      assert (t - {n}).Keys == t.Keys - {n};
      Contribution(t[n], userId) + AccrualsSum(t - {n}, userId)
  }

  /** The sum does not depend on which row is taken first. */
  lemma {:induction false} AccrualsSumRemove(t: Table, n: string, userId: Id)
    requires n in t
    ensures AccrualsSum(t, userId) == Contribution(t[n], userId) + AccrualsSum(t - {n}, userId)
    decreases |t|
  {
    var m :| m in t && AccrualsSum(t, userId) == Contribution(t[m], userId) + AccrualsSum(t - {m}, userId);
    if m != n {
      assert (t - {m}).Keys == t.Keys - {m};
      assert (t - {n}).Keys == t.Keys - {n};
      AccrualsSumRemove(t - {m}, n, userId);
      AccrualsSumRemove(t - {n}, m, userId);
      assert t - {m} - {n} == t - {n} - {m};
    }
  }

  /** The rows of t whose number is in keys. */
  function Restrict(t: Table, keys: set<string>): (r: Table)
    ensures r.Keys == t.Keys * keys
  {
    map n | n in t && n in keys :: t[n]
  }

  /** What `GetAccrualsSum` returns: SQL SUM over no counted row is NULL,
      which pgx refuses to scan into a float64. */
  ghost function AccrualsSumResult(t: Table, userId: Id): Result<real, Error>
  {
    if exists n :: n in t && Counts(t[n], userId) then Success(AccrualsSum(t, userId))
    else Failure(Db("NULL sum"))
  }

  // ---- withdrawals ----

  predicate WithdrawalsWellFormed(ws: seq<Withdrawal>)
  {
    && (forall i :: 0 <= i < |ws| ==> ws[i].id != NilId)
    && (forall i, j :: 0 <= i < j < |ws| ==> ws[i].id != ws[j].id)
  }

  predicate WithdrawalIdTaken(ws: seq<Withdrawal>, id: Id)
  {
    exists i :: 0 <= i < |ws| && ws[i].id == id
  }

  datatype WithdrawOutcome = WithdrawOutcome(withdrawal: Withdrawal, err: Option<Error>, withdrawals: seq<Withdrawal>)

  /** `Withdraw`: assign an ID when there is none, then insert one row. */
  function RecordWithdrawal(ws: seq<Withdrawal>, w: Withdrawal, generated: Option<Id>): (r: WithdrawOutcome)
    requires generated.Some? ==> generated.value != NilId
    ensures w.id != NilId ==> r.withdrawal == w
    ensures w.id == NilId && generated.Some? ==> r.withdrawal == w.(id := generated.value)
    ensures r.err.Some? ==> r.withdrawals == ws
    ensures r.err.None? <==> r.withdrawal.id != NilId && !WithdrawalIdTaken(ws, r.withdrawal.id)
    // exactly one row is added
    ensures r.err.None? ==> r.withdrawals == ws + [r.withdrawal]
    ensures WithdrawalsWellFormed(ws) ==> WithdrawalsWellFormed(r.withdrawals)
  {
    if w.id == NilId && generated.None? then WithdrawOutcome(w, Some(IdGeneration), ws)
    else
      var x := if w.id == NilId then w.(id := generated.value) else w;
      if WithdrawalIdTaken(ws, x.id) then WithdrawOutcome(x, Some(ConstraintError("withdrawn_pk")), ws)
      else WithdrawOutcome(x, None, ws + [x])
  }

  /** `SELECT sum(value) FROM withdrawn WHERE user_id = $1`, reading no row as 0. */
  function WithdrawnSum(ws: seq<Withdrawal>, userId: Id): real
  {
    if ws == [] then 0.0
    else WithdrawnSum(ws[..|ws| - 1], userId) + (if ws[|ws| - 1].userId == userId then ws[|ws| - 1].value else 0.0)
  }

  // ---- the repository object ----

  class OrderRepo {
    var orders: Table
    var withdrawals: seq<Withdrawal>

    ghost predicate Valid()
      reads this
    {
      TableWellFormed(orders) && WithdrawalsWellFormed(withdrawals)
    }

    constructor()
      ensures Valid() && orders == map[] && withdrawals == []
    {
      orders, withdrawals := map[], [];
    }

    /** `Insert`; `stored` is the order with the ID the source assigns in place. */
    method Insert(order: Order, generated: Option<Id>) returns (stored: Order, err: Option<Error>)
      requires Valid()
      requires generated.Some? ==> generated.value != NilId
      modifies this
      ensures Valid() && withdrawals == old(withdrawals)
      ensures InsertOrder(old(orders), order, generated) == InsertOutcome(stored, err, orders)
    {
      var r := InsertOrder(orders, order, generated);
      stored, err, orders := r.order, r.err, r.table;
    }

    method FindByNumber(number: string) returns (r: Result<Order, Error>)
      ensures number !in orders ==> r == Failure(NotFound)
      ensures number in orders ==> r == Success(OrderOf(number, orders[number]))
    {
      if number in orders {
        r := Success(OrderOf(number, orders[number]));
      } else {
        r := Failure(NotFound);
      }
    }

    /** `SetOrderStatus(order, status)`: refuses an order without ID, otherwise
        writes the status column of the row with that ID. */
    method SetOrderStatus(order: Order, status: OrderStatus) returns (err: Option<Error>)
      requires Valid()
      modifies this
      ensures Valid() && withdrawals == old(withdrawals)
      ensures order.id == NilId ==> err == Some(IdNotSet) && orders == old(orders)
      ensures order.id != NilId ==> err == None && orders == WithStatusById(old(orders), order.id, status)
    {
      if order.id == NilId {
        return Some(IdNotSet);
      }
      WithStatusByIdWellFormed(orders, order.id, status);
      orders := WithStatusById(orders, order.id, status);
      err := None;
    }

    /** The store operation with the shape the accrual engine calls:
        `SetOrderStatus(number, status)`. */
    method SetOrderStatusByNumber(number: string, status: OrderStatus)
      requires Valid()
      modifies this
      ensures Valid() && withdrawals == old(withdrawals)
      ensures orders == WithStatusByNumber(old(orders), number, status)
    {
      WithStatusByNumberWellFormed(orders, number, status);
      orders := WithStatusByNumber(orders, number, status);
    }

    /** `UpdateAttributes(order)`: refuses an order without ID, otherwise writes
        the order's status and accrual (NULL for nil) into the row with its ID. */
    method UpdateAttributes(order: Order) returns (err: Option<Error>)
      requires Valid()
      modifies this
      ensures Valid() && withdrawals == old(withdrawals)
      ensures order.id == NilId ==> err == Some(IdNotSet) && orders == old(orders)
      ensures order.id != NilId ==> err == None
      ensures order.id != NilId ==> orders == WithAttributesById(old(orders), order.id, order.status, order.accrual)
    {
      if order.id == NilId {
        return Some(IdNotSet);
      }
      WithAttributesByIdWellFormed(orders, order.id, order.status, order.accrual);
      orders := WithAttributesById(orders, order.id, order.status, order.accrual);
      err := None;
    }

    /** `GetAccrualsSum`: adds up the user's PROCESSED accruals row by row. */
    method GetAccrualsSum(userId: Id) returns (r: Result<real, Error>)
      ensures r == AccrualsSumResult(orders, userId)
    {
      var remaining := orders.Keys;
      var sum := 0.0;
      var any := false;
      assert Restrict(orders, remaining) == orders;
      while remaining != {}
        invariant remaining <= orders.Keys
        invariant sum + AccrualsSum(Restrict(orders, remaining), userId) == AccrualsSum(orders, userId)
        invariant any <==> exists n :: n in orders && n !in remaining && Counts(orders[n], userId)
        decreases remaining
      {
        var n :| n in remaining;
        var rest := Restrict(orders, remaining);
        AccrualsSumRemove(rest, n, userId);
        assert rest - {n} == Restrict(orders, remaining - {n});
        if Counts(orders[n], userId) {
          sum := sum + orders[n].accrual.value;
          any := true;
        }
        remaining := remaining - {n};
      }
      assert Restrict(orders, remaining) == map[];
      if any {
        r := Success(sum);
      } else {
        r := Failure(Db("NULL sum"));
      }
    }

    /** `Withdraw`; `stored` carries the ID the source assigns in place. */
    method Withdraw(w: Withdrawal, generated: Option<Id>) returns (stored: Withdrawal, err: Option<Error>)
      requires Valid()
      requires generated.Some? ==> generated.value != NilId
      modifies this
      ensures Valid() && orders == old(orders)
      ensures RecordWithdrawal(old(withdrawals), w, generated) == WithdrawOutcome(stored, err, withdrawals)
    {
      var r := RecordWithdrawal(withdrawals, w, generated);
      stored, err, withdrawals := r.withdrawal, r.err, r.withdrawals;
    }

    /** The query the accrual sweep issues: up to `limit` orders whose status
        is in `statuses` and whose number is not in `exclude`, in no
        particular order (only this contract is modelled). */
    method GetOrdersByStatuses(statuses: set<OrderStatus>, exclude: set<string>, limit: int) returns (found: seq<Order>)
      ensures |found| <= if limit < 0 then 0 else limit
      ensures forall i :: 0 <= i < |found| ==>
                && found[i].number in orders
                && found[i] == OrderOf(found[i].number, orders[found[i].number])
                && found[i].status in statuses
                && found[i].number !in exclude
      ensures forall i, j :: 0 <= i < j < |found| ==> found[i].number != found[j].number
      // fewer than `limit` rows only when there are no more
      ensures |found| < limit ==>
                forall n :: n in orders && orders[n].status in statuses && n !in exclude ==>
                  exists i :: 0 <= i < |found| && found[i].number == n
    {
      found := [];
      var candidates := set n | n in orders && orders[n].status in statuses && n !in exclude;
      ghost var all := candidates;
      while candidates != {} && |found| < limit
        invariant candidates <= all
        invariant |found| <= if limit < 0 then 0 else limit
        invariant forall i :: 0 <= i < |found| ==>
                    && found[i].number in all && found[i].number !in candidates
                    && found[i] == OrderOf(found[i].number, orders[found[i].number])
        invariant forall i, j :: 0 <= i < j < |found| ==> found[i].number != found[j].number
        invariant forall n :: n in all ==> n in candidates || exists i :: 0 <= i < |found| && found[i].number == n
        decreases candidates
      {
        var n :| n in candidates;
        ghost var before := found;
        found := found + [OrderOf(n, orders[n])];
        candidates := candidates - {n};
        forall m | m in all && m !in candidates
          ensures exists i :: 0 <= i < |found| && found[i].number == m
        {
          if m == n {
            assert found[|before|].number == m;
          } else {
            var i :| 0 <= i < |before| && before[i].number == m;
            assert found[i].number == m;
          }
        }
      }
      if |found| < limit {
        forall n | n in orders && orders[n].status in statuses && n !in exclude
          ensures exists i :: 0 <= i < |found| && found[i].number == n
        {
          assert n in all && n !in candidates;
        }
      }
    }
  }
}
