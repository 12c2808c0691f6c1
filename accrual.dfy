/** internal/services/accrual/accrual.go: the accrual reconciliation engine.
    Orders are dispatched through a bounded-admission worker; a task asks the
    accrual system about its order (the HTTP lookup is a parameter) and writes
    the answer to the store; overload defers the order to the periodic sweep,
    which re-submits non-terminal orders that are not in flight. */
module Accrual {
  import opened Wrappers
  import opened Errors
  import opened Entity
  import opened OrderStore
  import opened Workers

  const StatusOK := 200
  const StatusNoContent := 204

  /** The JSON body of the accrual system's answer. A body that does not parse
      leaves the zero value: status "" and accrual 0. */
  datatype AccrualResponse = AccrualResponse(order: string, status: string, accrual: real)

  /** What `getResponse` returns: the HTTP status code (0 when the request or
      the body read failed) and the decoded body (nil unless the code is 200). */
  datatype Lookup = Lookup(code: int, resp: Option<AccrualResponse>)

  /** The accrual system's status vocabulary; any other string is not mapped. */
  function ExternalStatus(s: string): (r: Option<OrderStatus>)
    ensures r.Some? <==> s in ["REGISTERED", "PROCESSING", "INVALID", "PROCESSED"]
    // the internal status has the external name, except that REGISTERED is NEW
    ensures r.Some? ==> r.value.Label() == if s == "REGISTERED" then "NEW" else s
  {
    match s
    case "REGISTERED" => Some(New)
    case "PROCESSING" => Some(Processing)
    case "INVALID" => Some(Invalid)
    case "PROCESSED" => Some(Processed)
    case _ => None
  }

  /** The store write ProcessOrder issues. */
  datatype Write =
    | NoWrite
    | SetStatus(status: OrderStatus)   // orderRepo.SetOrderStatus(number, status)
    | UpdateAttributes(order: Order)   // orderRepo.UpdateAttributes(order)

  /** What ProcessOrder does for one lookup: the write, the order struct after
      its in-place updates, and whether the in-flight mark is removed. */
  datatype Step = Step(write: Write, order: Order, clearsInFlight: bool)

  /** The branches of `ProcessOrder`. */
  function Decide(order: Order, lookup: Lookup): (r: Step)
    // only a 200 answer with a body and a known status, or a 204, writes
    ensures r.write != NoWrite <==>
              || lookup.code == StatusNoContent
              || (lookup.code == StatusOK && lookup.resp.Some? && ExternalStatus(lookup.resp.value.status).Some?)
    // the early returns keep the in-flight mark: no body, unknown status, accrual <= 0
    ensures !r.clearsInFlight <==>
              lookup.code == StatusOK &&
              (lookup.resp.None? || ExternalStatus(lookup.resp.value.status).None? || lookup.resp.value.accrual <= 0.0)
    // a 204 marks the order INVALID and writes no accrual
    ensures lookup.code == StatusNoContent ==> r.write == SetStatus(Invalid)
    // accrual <= 0: only the status column is written
    ensures lookup.code == StatusOK && lookup.resp.Some? && lookup.resp.value.accrual <= 0.0 ==> !r.write.UpdateAttributes?
    // the struct keeps its identity; an accrual is attached only with a terminal status
    ensures r.order.id == order.id && r.order.userId == order.userId && r.order.number == order.number
    ensures r.order.accrual != order.accrual ==> r.order.status.IsTerminal() && r.write == UpdateAttributes(r.order)
  {
    if lookup.code == StatusOK then
      if lookup.resp.None? then Step(NoWrite, order, false)
      else
        var resp := lookup.resp.value;
        match ExternalStatus(resp.status)
        case None => Step(NoWrite, order, false)
        case Some(status) =>
          if resp.accrual <= 0.0 then Step(SetStatus(status), order, false)
          else
            var updated := order.(status := status,
                                  accrual := if status.IsTerminal() then Some(resp.accrual) else order.accrual);
            Step(UpdateAttributes(updated), updated, true)
    else if lookup.code == StatusNoContent then Step(SetStatus(Invalid), order, true)
    else Step(NoWrite, order, true)
  }

  /** The table after a write for the order with this number; UpdateAttributes
      addresses the row by the order's ID and is refused without one. */
  function ApplyWrite(t: Table, number: string, w: Write): (r: Table)
    ensures r.Keys == t.Keys
    ensures w.NoWrite? ==> r == t
    // a status write by number touches that number's row only
    ensures w.SetStatus? ==> forall n :: n in t && n != number ==> r[n] == t[n]
    // an attribute write touches the row with the struct's ID only
    ensures w.UpdateAttributes? ==> forall n :: n in t && t[n].id != w.order.id ==> r[n] == t[n]
    ensures TableWellFormed(t) ==> TableWellFormed(r)
  {
    match w
    case NoWrite => t
    case SetStatus(status) => WithStatusByNumber(t, number, status)
    case UpdateAttributes(o) => if o.id == NilId then t else WithAttributesById(t, o.id, o.status, o.accrual)
  }

  /** The table after ProcessOrder handled `lookup` for `order`. */
  function Reconcile(t: Table, order: Order, lookup: Lookup): (r: Table)
    // the engine neither adds nor removes orders, and never changes who owns
    // an order or its ID
    ensures r.Keys == t.Keys
    ensures forall n :: n in t ==> r[n].id == t[n].id && r[n].userId == t[n].userId
    ensures TableWellFormed(t) ==> TableWellFormed(r)
  {
    ApplyWrite(t, order.number, Decide(order, lookup).write)
  }

  // ---- properties of a lookup's effect on the store ----

  /** An answer that is not understood writes nothing: a status outside the
      vocabulary (also "" from a body that failed to parse), a 200 without
      body, or any code other than 200 and 204 (0 included). */
  lemma UnknownAnswerWritesNothing(t: Table, order: Order, lookup: Lookup)
    requires || (lookup.code == StatusOK && lookup.resp.None?)
             || (lookup.code == StatusOK && lookup.resp.Some? && ExternalStatus(lookup.resp.value.status).None?)
             || (lookup.code != StatusOK && lookup.code != StatusNoContent)
    ensures Reconcile(t, order, lookup) == t
  {
  }

  /** A 200 answer with a known status and accrual <= 0 writes the status of
      that order and leaves every accrual as stored. */
  lemma NonPositiveAccrualWritesStatusOnly(t: Table, order: Order, lookup: Lookup)
    requires lookup.code == StatusOK && lookup.resp.Some?
    requires ExternalStatus(lookup.resp.value.status).Some? && lookup.resp.value.accrual <= 0.0
    ensures var r := Reconcile(t, order, lookup);
      && r.Keys == t.Keys
      && (forall n :: n in t ==> r[n].accrual == t[n].accrual && r[n].id == t[n].id && r[n].userId == t[n].userId)
      && (forall n :: n in t && n != order.number ==> r[n] == t[n])
      && (order.number in t ==> r[order.number].status == ExternalStatus(lookup.resp.value.status).value)
  {
  }

  /** A 200 answer with accrual > 0 writes status and accrual into the row with
      the order's ID: the answer's accrual for PROCESSED and INVALID, and for
      NEW and PROCESSING the accrual the order struct already carried. */
  lemma PositiveAccrualUpdatesAttributes(t: Table, order: Order, lookup: Lookup)
    requires lookup.code == StatusOK && lookup.resp.Some?
    requires ExternalStatus(lookup.resp.value.status).Some? && lookup.resp.value.accrual > 0.0
    requires order.id != NilId
    ensures var r := Reconcile(t, order, lookup);
            var status := ExternalStatus(lookup.resp.value.status).value;
      && r.Keys == t.Keys
      && (forall n :: n in t && t[n].id != order.id ==> r[n] == t[n])
      && (forall n :: n in t && t[n].id == order.id ==>
            && r[n].status == status
            && r[n].accrual == if status.IsTerminal() then Some(lookup.resp.value.accrual) else order.accrual)
  {
  }

  /** A 204 answer marks the order INVALID and leaves every accrual as stored. */
  lemma NoContentInvalidates(t: Table, order: Order, lookup: Lookup)
    requires lookup.code == StatusNoContent
    ensures var r := Reconcile(t, order, lookup);
      && r.Keys == t.Keys
      && (forall n :: n in t ==> r[n].accrual == t[n].accrual)
      && (forall n :: n in t && n != order.number ==> r[n] == t[n])
      && (order.number in t ==> r[order.number].status == Invalid)
  {
  }

  /** Handling the same answer twice leaves the store as handling it once. */
  lemma ReconcileIdempotent(t: Table, order: Order, lookup: Lookup)
    ensures Reconcile(Reconcile(t, order, lookup), order, lookup) == Reconcile(t, order, lookup)
  {
  }

  /** A terminal answer (204, or 200 with PROCESSED or INVALID) leaves the
      order's row terminal, so the sweep no longer selects it; for an answer
      with accrual > 0 the struct must carry the row's ID. */
  lemma TerminalAnswerLeavesSweep(t: Table, order: Order, lookup: Lookup)
    requires order.number in t
    requires || lookup.code == StatusNoContent
             || (&& lookup.code == StatusOK && lookup.resp.Some?
                 && ExternalStatus(lookup.resp.value.status).Some?
                 && ExternalStatus(lookup.resp.value.status).value.IsTerminal()
                 && (lookup.resp.value.accrual > 0.0 ==> order.id == t[order.number].id && order.id != NilId))
    ensures var r := Reconcile(t, order, lookup);
      order.number in r && r[order.number].status.IsTerminal()
  {
  }

  /** The source does not keep statuses monotonic: a REGISTERED answer turns a
      PROCESSED order back into NEW. */
  lemma TerminalStatusCanRegress()
    ensures var t := map["12345" := Row(1, 7, Processed, Some(100.5))];
            var order := Order(1, 7, "12345", Processed, Some(100.5));
            var lookup := Lookup(StatusOK, Some(AccrualResponse("12345", "REGISTERED", 0.0)));
      Reconcile(t, order, lookup)["12345"].status == New
  {
  }

  // ---- overload accounting ----

  /** `overloadCounter` and `overloadStartTime` after one overload event, and
      whether "Too many overload events" is logged (`rateExceeded` stands for
      the events-per-second comparison against OverloadReportRPS). */
  datatype OverloadState = OverloadState(counter: int, startTime: int, reported: bool)

  function NextOverload(counter: int, startTime: int, reportCount: int, rateExceeded: bool, now: int): (r: OverloadState)
    // the window is closed, and the counter restarts, when it reaches OverloadReportCount
    ensures counter + 1 >= reportCount ==> r.counter == 0 && r.startTime == now
    ensures counter + 1 < reportCount ==> r.counter == counter + 1 && r.startTime == startTime
    // the rate check only logs, at the end of a window
    ensures r.reported <==> counter + 1 >= reportCount && rateExceeded
  {
    var c := counter + 1;
    if c >= reportCount then OverloadState(0, now, rateExceeded)
    else OverloadState(c, startTime, false)
  }

  /** The counter stays below max(OverloadReportCount, 1). */
  lemma OverloadCounterBounded(counter: int, startTime: int, reportCount: int, rateExceeded: bool, now: int)
    requires 0 <= counter < if reportCount < 1 then 1 else reportCount
    ensures var r := NextOverload(counter, startTime, reportCount, rateExceeded, now);
      0 <= r.counter < if reportCount < 1 then 1 else reportCount
  {
  }

  // ---- the service ----

  /** config.Accrual without the address (the lookup is a parameter), the
      polling interval (ticks are explicit calls) and OverloadReportRPS (the
      rate comparison is a parameter). */
  datatype AccrualConfig = AccrualConfig(maxActiveWorkers: int, overloadReportCount: int, pollingCount: int)

  /** How many of n submissions start when `free` slots are open: the worker
      admits while fewer than maxWorkers tasks run. */
  function Admitted(free: int, n: nat): (k: nat)
    ensures k <= n
    // fewer than n only when the open slots ran out
    ensures k < n ==> k == if free < 0 then 0 else free
  {
    if free <= 0 then 0 else if free < n then free else n
  }

  /** The in-flight set after a batch whose first k orders started and whose
      orders k..i were overloaded: starts mark, overloads unmark, and every
      start comes before every overload. */
  function InFlightAfter(inFlight: set<string>, orders: seq<Order>, k: nat, i: nat): set<string>
    requires k <= i <= |orders|
  {
    (inFlight + NumbersOf(orders[..k])) - NumbersOf(orders[k..i])
  }

  /** One more order starts, while none was overloaded yet. */
  lemma InFlightAfterStart(inFlight: set<string>, orders: seq<Order>, k: nat)
    requires k < |orders|
    ensures InFlightAfter(inFlight, orders, k, k) + {orders[k].number} == InFlightAfter(inFlight, orders, k + 1, k + 1)
    ensures orders[..k + 1] == orders[..k] + [orders[k]]
  {
    assert orders[..k + 1] == orders[..k] + [orders[k]];
    NumbersOfSnoc(orders[..k], orders[k]);
    assert orders[k..k] == [] && orders[k + 1..k + 1] == [];
    assert NumbersOf([]) == {};
  }

  /** One more order is overloaded. */
  lemma InFlightAfterOverload(inFlight: set<string>, orders: seq<Order>, k: nat, i: nat)
    requires k <= i < |orders|
    ensures InFlightAfter(inFlight, orders, k, i) - {orders[i].number} == InFlightAfter(inFlight, orders, k, i + 1)
    ensures orders[k..i + 1] == orders[k..i] + [orders[i]]
  {
    assert orders[k..i + 1] == orders[k..i] + [orders[i]];
    NumbersOfSnoc(orders[k..i], orders[i]);
  }

  /** When the batch's numbers are distinct and none was in flight, the
      overloaded orders unmark only themselves. */
  lemma InFlightAfterDistinct(inFlight: set<string>, orders: seq<Order>, k: nat)
    requires k <= |orders|
    requires forall i :: 0 <= i < |orders| ==> orders[i].number !in inFlight
    requires forall i, j :: 0 <= i < j < |orders| ==> orders[i].number != orders[j].number
    ensures InFlightAfter(inFlight, orders, k, |orders|) == inFlight + NumbersOf(orders[..k])
  {
    var started, rest := NumbersOf(orders[..k]), NumbersOf(orders[k..]);
    forall n | n in rest
      ensures n !in inFlight && n !in started
    {
      var j :| 0 <= j < |orders[k..]| && orders[k..][j].number == n;
      assert orders[k + j].number == n;
    }
  }

  /** The overload state after n overload events at the same instant. */
  function Overloads(s: OverloadState, reportCount: int, rateExceeded: bool, now: int, n: nat): OverloadState
  {
    if n == 0 then s
    else
      var p := Overloads(s, reportCount, rateExceeded, now, n - 1);
      NextOverload(p.counter, p.startTime, reportCount, rateExceeded, now)
  }

  lemma OverloadsStep(s: OverloadState, reportCount: int, rateExceeded: bool, now: int, n: nat)
    ensures var p := Overloads(s, reportCount, rateExceeded, now, n);
      Overloads(s, reportCount, rateExceeded, now, n + 1) == NextOverload(p.counter, p.startTime, reportCount, rateExceeded, now)
  {
  }

  lemma MulAtLeast(d: int, m: int)
    requires d >= 1 && m > 0
    ensures d * m >= m
  {
  }

  /** The remainder is the only r in [0, m) with x == q * m + r. */
  lemma ModUnique(x: int, m: int, q: int, r: int)
    requires m > 0 && 0 <= r < m && x == q * m + r
    ensures x % m == r
  {
    var q0 := x / m;
    var r0 := x % m;
    assert x == q0 * m + r0;
    assert (q - q0) * m == r0 - r;
    if q > q0 {
      MulAtLeast(q - q0, m);
    } else if q < q0 {
      MulAtLeast(q0 - q, m);
    }
  }

  /** Counting one more modulo m wraps to zero exactly at m. */
  lemma ModStep(a: nat, m: int)
    requires m > 1
    ensures (a + 1) % m == if a % m + 1 >= m then 0 else a % m + 1
  {
    var q := a / m;
    assert a == q * m + a % m;
    if a % m + 1 >= m {
      assert a + 1 == (q + 1) * m + 0;
      ModUnique(a + 1, m, q + 1, 0);
    } else {
      ModUnique(a + 1, m, q, a % m + 1);
    }
  }

  /** n overload events move the counter on by n modulo the report count,
      and restart the window when they reach its end. */
  lemma {:induction false} OverloadsClosedForm(s: OverloadState, reportCount: int, rateExceeded: bool, now: int, n: nat)
    requires 0 <= s.counter < if reportCount < 1 then 1 else reportCount
    ensures var r := Overloads(s, reportCount, rateExceeded, now, n);
      && r.counter == (if reportCount <= 1 then (if n == 0 then s.counter else 0) else (s.counter + n) % reportCount)
      && r.startTime == (if s.counter + n >= reportCount && n > 0 then now else s.startTime)
  {
    if n > 0 {
      OverloadsClosedForm(s, reportCount, rateExceeded, now, n - 1);
      if reportCount > 1 {
        ModStep(s.counter + n - 1, reportCount);
        if s.counter + n - 1 < reportCount {
          ModUnique(s.counter + n - 1, reportCount, 0, s.counter + n - 1);
        }
      }
    }
  }

  /** The numbers of a list of orders. */
  function NumbersOf(orders: seq<Order>): set<string>
  {
    set i | 0 <= i < |orders| :: orders[i].number
  }

  lemma NumbersOfSnoc(orders: seq<Order>, o: Order)
    ensures NumbersOf(orders + [o]) == NumbersOf(orders) + {o.number}
  {
    var s := orders + [o];
    assert forall i :: 0 <= i < |orders| ==> s[i] == orders[i];
    assert s[|orders|] == o;
  }

  /** What Send changes, seen from the sweep: the worker's started and
      overloaded lists, the in-flight set and the overload window. */
  datatype Dispatch = Dispatch(submitted: seq<Order>, pending: seq<Order>, overloaded: seq<Order>, inFlight: set<string>,
                               counter: int, startTime: int)

  /** One Send: the order is marked, then started when fewer than maxWorkers
      tasks run, and otherwise unmarked and counted as an overload. */
  function SendStep(d: Dispatch, maxWorkers: int, reportCount: int, rateExceeded: bool, now: int, order: Order): Dispatch
  {
    if |d.pending| < maxWorkers then
      d.(submitted := d.submitted + [order], pending := d.pending + [order], inFlight := d.inFlight + {order.number})
    else
      var next := NextOverload(d.counter, d.startTime, reportCount, rateExceeded, now);
      d.(submitted := d.submitted + [order], overloaded := d.overloaded + [order], inFlight := d.inFlight + {order.number} - {order.number},
         counter := next.counter, startTime := next.startTime)
  }

  /** Send for each of the first i orders in turn. */
  function SendEach(d: Dispatch, maxWorkers: int, reportCount: int, rateExceeded: bool, now: int, orders: seq<Order>, i: nat): Dispatch
    requires i <= |orders|
  {
    if i == 0 then d
    else SendStep(SendEach(d, maxWorkers, reportCount, rateExceeded, now, orders, i - 1),
                  maxWorkers, reportCount, rateExceeded, now, orders[i - 1])
  }

  /** A batch sent in order, in closed form: the first k orders start, k being
      how many free slots there were, and every later one is overloaded;
      starts mark, overloads unmark, and the overload window advances once
      per overloaded order. */
  function AdmitPrefix(d: Dispatch, maxWorkers: int, reportCount: int, rateExceeded: bool, now: int, orders: seq<Order>): Dispatch
  {
    var k := Admitted(maxWorkers - |d.pending|, |orders|);
    var s := Overloads(OverloadState(d.counter, d.startTime, false), reportCount, rateExceeded, now, |orders| - k);
    Dispatch(d.submitted + orders, d.pending + orders[..k], d.overloaded + orders[k..], InFlightAfter(d.inFlight, orders, k, |orders|),
             s.counter, s.startTime)
  }

  /** How the slices of a batch at a split point extend by its last order. */
  lemma SnocSlices(orders: seq<Order>, k: nat)
    requires k < |orders|
    ensures orders[..|orders| - 1][..k] == orders[..k]
    ensures orders[..|orders| - 1][k..] == orders[k..|orders| - 1]
    ensures orders[k..] == orders[k..|orders| - 1] + [orders[|orders| - 1]]
  {
  }

  /** While the worker has a free slot, the closed form starts the next order. */
  lemma AdmitPrefixStart(d: Dispatch, maxWorkers: int, reportCount: int, rateExceeded: bool, now: int, orders: seq<Order>)
    requires orders != []
    requires |AdmitPrefix(d, maxWorkers, reportCount, rateExceeded, now, orders[..|orders| - 1]).pending| < maxWorkers
    ensures var n := |orders|;
      AdmitPrefix(d, maxWorkers, reportCount, rateExceeded, now, orders)
      == SendStep(AdmitPrefix(d, maxWorkers, reportCount, rateExceeded, now, orders[..n - 1]),
                  maxWorkers, reportCount, rateExceeded, now, orders[n - 1])
  {
    var n := |orders|;
    var init := orders[..n - 1];
    var k' := Admitted(maxWorkers - |d.pending|, n - 1);
    assert k' == n - 1 && Admitted(maxWorkers - |d.pending|, n) == n;
    assert init[..k'] == orders[..k'];
    assert init[k'..] == [] && orders[n..] == [] && orders[k'..n - 1] == [];
    assert orders == init + [orders[n - 1]];
    InFlightAfterStart(d.inFlight, orders, k');
  }

  /** Every order sent is recorded as submitted, started or not. */
  lemma AdmitPrefixSubmits(d: Dispatch, maxWorkers: int, reportCount: int, rateExceeded: bool, now: int, orders: seq<Order>)
    requires orders != []
    ensures AdmitPrefix(d, maxWorkers, reportCount, rateExceeded, now, orders).submitted
            == AdmitPrefix(d, maxWorkers, reportCount, rateExceeded, now, orders[..|orders| - 1]).submitted + [orders[|orders| - 1]]
  {
    assert orders == orders[..|orders| - 1] + [orders[|orders| - 1]];
  }

  /** Once the worker is full, the next order goes to the overloaded queue. */
  lemma OverloadQueues(d: Dispatch, maxWorkers: int, reportCount: int, rateExceeded: bool, now: int, orders: seq<Order>)
    requires orders != []
    requires |AdmitPrefix(d, maxWorkers, reportCount, rateExceeded, now, orders[..|orders| - 1]).pending| >= maxWorkers
    ensures var p := AdmitPrefix(d, maxWorkers, reportCount, rateExceeded, now, orders[..|orders| - 1]);
      var r := AdmitPrefix(d, maxWorkers, reportCount, rateExceeded, now, orders);
      r.pending == p.pending && r.overloaded == p.overloaded + [orders[|orders| - 1]]
  {
    var k := Admitted(maxWorkers - |d.pending|, |orders| - 1);
    assert k == Admitted(maxWorkers - |d.pending|, |orders|);
    SnocSlices(orders, k);
  }

  /** The in-flight set after i orders depends only on those i orders. */
  lemma InFlightAfterPrefix(inFlight: set<string>, orders: seq<Order>, k: nat, i: nat)
    requires k <= i <= |orders|
    ensures InFlightAfter(inFlight, orders[..i], k, i) == InFlightAfter(inFlight, orders, k, i)
  {
    assert orders[..i][..k] == orders[..k];
    assert orders[..i][k..i] == orders[k..i];
  }

  /** Once the worker is full, the next order leaves the in-flight set. */
  lemma OverloadInFlight(d: Dispatch, maxWorkers: int, reportCount: int, rateExceeded: bool, now: int, orders: seq<Order>)
    requires orders != []
    requires |AdmitPrefix(d, maxWorkers, reportCount, rateExceeded, now, orders[..|orders| - 1]).pending| >= maxWorkers
    ensures var p := AdmitPrefix(d, maxWorkers, reportCount, rateExceeded, now, orders[..|orders| - 1]);
      var r := AdmitPrefix(d, maxWorkers, reportCount, rateExceeded, now, orders);
      var x := orders[|orders| - 1];
      r.inFlight == p.inFlight + {x.number} - {x.number}
  {
    var n := |orders|;
    var k := Admitted(maxWorkers - |d.pending|, n - 1);
    assert k == Admitted(maxWorkers - |d.pending|, n);
    InFlightAfterPrefix(d.inFlight, orders, k, n - 1);
    InFlightAfterOverload(d.inFlight, orders, k, n - 1);
    var x := orders[n - 1];
    var inFlight := InFlightAfter(d.inFlight, orders, k, n - 1);
    assert inFlight - {x.number} == inFlight + {x.number} - {x.number};
  }

  /** Once the worker is full, the next order advances the overload window. */
  lemma OverloadWindow(d: Dispatch, maxWorkers: int, reportCount: int, rateExceeded: bool, now: int, orders: seq<Order>)
    requires orders != []
    requires |AdmitPrefix(d, maxWorkers, reportCount, rateExceeded, now, orders[..|orders| - 1]).pending| >= maxWorkers
    ensures var p := AdmitPrefix(d, maxWorkers, reportCount, rateExceeded, now, orders[..|orders| - 1]);
      var r := AdmitPrefix(d, maxWorkers, reportCount, rateExceeded, now, orders);
      var next := NextOverload(p.counter, p.startTime, reportCount, rateExceeded, now);
      r.counter == next.counter && r.startTime == next.startTime
  {
    var n := |orders|;
    var k := Admitted(maxWorkers - |d.pending|, n - 1);
    assert k == Admitted(maxWorkers - |d.pending|, n);
    OverloadsStep(OverloadState(d.counter, d.startTime, false), reportCount, rateExceeded, now, n - 1 - k);
  }

  /** Sending one order at a time gives the closed form. */
  lemma {:induction false} SendEachAdmitsPrefix(d: Dispatch, maxWorkers: int, reportCount: int, rateExceeded: bool, now: int,
                                                orders: seq<Order>, i: nat)
    requires i <= |orders|
    ensures SendEach(d, maxWorkers, reportCount, rateExceeded, now, orders, i) == AdmitPrefix(d, maxWorkers, reportCount, rateExceeded, now, orders[..i])
  {
    if i == 0 {
      assert orders[..0][..0] == [] && orders[..0][0..] == [];
      assert NumbersOf([]) == {};
    } else {
      SendEachAdmitsPrefix(d, maxWorkers, reportCount, rateExceeded, now, orders, i - 1);
      var batch := orders[..i];
      assert batch[..i - 1] == orders[..i - 1] && batch[i - 1] == orders[i - 1];
      if |AdmitPrefix(d, maxWorkers, reportCount, rateExceeded, now, batch[..i - 1]).pending| < maxWorkers {
        AdmitPrefixStart(d, maxWorkers, reportCount, rateExceeded, now, batch);
      } else {
        AdmitPrefixSubmits(d, maxWorkers, reportCount, rateExceeded, now, batch);
        OverloadQueues(d, maxWorkers, reportCount, rateExceeded, now, batch);
        OverloadInFlight(d, maxWorkers, reportCount, rateExceeded, now, batch);
        OverloadWindow(d, maxWorkers, reportCount, rateExceeded, now, batch);
      }
    }
  }

  /** What one sweep sends: at most `pollingCount` distinct stored orders, each
      NEW or PROCESSING and not in flight, read as stored. */
  ghost predicate SweepBatch(sent: seq<Order>, t: Table, inFlight: set<string>, pollingCount: int)
  {
    && |sent| <= (if pollingCount < 0 then 0 else pollingCount)
    && (forall i :: 0 <= i < |sent| ==>
          && sent[i].number in t
          && sent[i] == OrderOf(sent[i].number, t[sent[i].number])
          && sent[i].status in {New, Processing}
          && sent[i].number !in inFlight)
    && (forall i, j :: 0 <= i < j < |sent| ==> sent[i].number != sent[j].number)
  }

  /** A swept batch, sent in order: the closed form, every order submitted,
      and, since none of it was in flight, only the started orders marked; the
      worker's account of its arguments still holds. */
  lemma SweptBatchSent(d: Dispatch, maxWorkers: int, reportCount: int, rateExceeded: bool, now: int,
                       sent: seq<Order>, t: Table, pollingCount: int, handled: seq<Order>)
    requires SweepBatch(sent, t, d.inFlight, pollingCount)
    requires Accounted(d.submitted, handled, d.pending, d.overloaded)
    ensures var r := SendEach(d, maxWorkers, reportCount, rateExceeded, now, sent, |sent|);
      && r == AdmitPrefix(d, maxWorkers, reportCount, rateExceeded, now, sent)
      && r.submitted == d.submitted + sent
      && r.inFlight == d.inFlight + NumbersOf(sent[..Admitted(maxWorkers - |d.pending|, |sent|)])
      && Accounted(r.submitted, handled, r.pending, r.overloaded)
  {
    SendEachAdmitsPrefix(d, maxWorkers, reportCount, rateExceeded, now, sent, |sent|);
    assert sent[..|sent|] == sent;
    InFlightAfterDistinct(d.inFlight, sent, Admitted(maxWorkers - |d.pending|, |sent|));
    AdmitPrefixAccounted(d, maxWorkers, reportCount, rateExceeded, now, sent, handled);
  }

  /** One Send keeps the worker's account of its arguments. */
  lemma SendStepAccounted(d: Dispatch, maxWorkers: int, reportCount: int, rateExceeded: bool, now: int, order: Order,
                          handled: seq<Order>)
    requires Accounted(d.submitted, handled, d.pending, d.overloaded)
    ensures var r := SendStep(d, maxWorkers, reportCount, rateExceeded, now, order);
      Accounted(r.submitted, handled, r.pending, r.overloaded)
  {
    if |d.pending| < maxWorkers {
      StartAccounted(d.submitted, handled, d.pending, d.overloaded, order);
    } else {
      OverloadAccounted(d.submitted, handled, d.pending, d.overloaded, order);
    }
  }

  /** A whole batch keeps the worker's account: every order is submitted and
      is either started or overloaded. */
  lemma AdmitPrefixAccounted(d: Dispatch, maxWorkers: int, reportCount: int, rateExceeded: bool, now: int,
                             orders: seq<Order>, handled: seq<Order>)
    requires Accounted(d.submitted, handled, d.pending, d.overloaded)
    ensures var r := AdmitPrefix(d, maxWorkers, reportCount, rateExceeded, now, orders);
      Accounted(r.submitted, handled, r.pending, r.overloaded)
  {
    var k := Admitted(maxWorkers - |d.pending|, |orders|);
    assert orders == orders[..k] + orders[k..];
    assert multiset(orders) == multiset(orders[..k]) + multiset(orders[k..]);
  }

  class Service {
    const cfg: AccrualConfig
    const worker: OverloadableWorker<Order>
    const repo: OrderRepo
    var overloadCounter: int
    var overloadStartTime: int
    /** The in-flight set (`processingOrders`). */
    var processingOrders: set<string>
    /** `tickMu` is held. */
    var tickBusy: bool

    function OverloadBound(): nat
    {
      if cfg.overloadReportCount < 1 then 1 else cfg.overloadReportCount
    }

    /** The state a Send changes. */
    ghost function DispatchState(): Dispatch
      reads this`processingOrders, this`overloadCounter, this`overloadStartTime, worker
    {
      Dispatch(worker.submitted, worker.pending, worker.overloaded, processingOrders, overloadCounter, overloadStartTime)
    }

    /** What sending orders keeps: the worker's accounting and the overload
        counter's range. */
    ghost predicate Dispatching()
      reads this`overloadCounter, worker
    {
      && worker.Valid()
      && 0 <= overloadCounter < OverloadBound()
    }

    ghost predicate Valid()
      reads this`overloadCounter, worker, repo
    {
      Dispatching() && worker.Accounts() && repo.Valid()
    }

    /** `NewService(cfg, orderRepo)` without starting the ticker goroutine. */
    constructor(cfg: AccrualConfig, repo: OrderRepo, now: int)
      requires repo.Valid()
      ensures Valid() && fresh(worker)
      ensures this.cfg == cfg && this.repo == repo
      ensures worker.maxWorkers == ToInt32(cfg.maxActiveWorkers)
      ensures worker.submitted == [] && worker.pending == []
      ensures overloadCounter == 0 && overloadStartTime == now
      ensures processingOrders == {} && !tickBusy
    {
      this.cfg := cfg;
      this.repo := repo;
      worker := new OverloadableWorker(cfg.maxActiveWorkers);
      overloadCounter, overloadStartTime := 0, now;
      processingOrders := {};
      tickBusy := false;
    }

    /** `ProcessOrderOnOverload`: forget the in-flight mark (the sweep will find
        the order again) and count the overload event. */
    method ProcessOrderOnOverload(order: Order, rateExceeded: bool, now: int) returns (reported: bool)
      requires Dispatching()
      modifies this
      ensures Dispatching()
      ensures processingOrders == old(processingOrders) - {order.number}
      ensures var next := NextOverload(old(overloadCounter), old(overloadStartTime), cfg.overloadReportCount, rateExceeded, now);
        overloadCounter == next.counter && overloadStartTime == next.startTime && reported == next.reported
      ensures tickBusy == old(tickBusy)
    {
      processingOrders := processingOrders - {order.number};
      OverloadCounterBounded(overloadCounter, overloadStartTime, cfg.overloadReportCount, rateExceeded, now);
      var next := NextOverload(overloadCounter, overloadStartTime, cfg.overloadReportCount, rateExceeded, now);
      overloadCounter, overloadStartTime, reported := next.counter, next.startTime, next.reported;
    }

    /** `Send`: mark the order in flight, then give it to the worker; when the
        worker is full the overload handler runs at once. Always returns nil. */
    method Send(order: Order, rateExceeded: bool, now: int) returns (err: Option<Error>)
      requires Dispatching()
      modifies this, worker
      ensures Dispatching()
      ensures err == None
      ensures DispatchState() == SendStep(old(DispatchState()), worker.maxWorkers, cfg.overloadReportCount, rateExceeded, now, order)
      ensures tickBusy == old(tickBusy)
      ensures worker.submitted == old(worker.submitted) + [order]
      ensures worker.handled == old(worker.handled)
      ensures old(worker.workersNum) < worker.maxWorkers ==>
                && processingOrders == old(processingOrders) + {order.number}
                && worker.pending == old(worker.pending) + [order]
                && worker.overloaded == old(worker.overloaded)
                && overloadCounter == old(overloadCounter) && overloadStartTime == old(overloadStartTime)
      ensures old(worker.workersNum) >= worker.maxWorkers ==>
                && processingOrders == old(processingOrders) - {order.number}
                && worker.pending == old(worker.pending)
                && worker.overloaded == old(worker.overloaded) + [order]
                && var next := NextOverload(old(overloadCounter), old(overloadStartTime), cfg.overloadReportCount, rateExceeded, now);
                   overloadCounter == next.counter && overloadStartTime == next.startTime
    {
      processingOrders := processingOrders + {order.number};
      var started := worker.Add(order);
      if !started {
        var _ := ProcessOrderOnOverload(order, rateExceeded, now);
      }
      err := None;
    }

    /** `ProcessOrder` with `getResponse` answered by `lookup`; `updated` is the
        order struct after the source's in-place updates. Store errors are only
        logged, and the store refuses nothing here but a missing ID. */
    method ProcessOrder(order: Order, lookup: Lookup) returns (updated: Order)
      requires Valid()
      modifies this, repo
      ensures Valid()
      ensures var step := Decide(order, lookup);
        && repo.orders == ApplyWrite(old(repo.orders), order.number, step.write)
        && updated == step.order
        && processingOrders == if step.clearsInFlight then old(processingOrders) - {order.number} else old(processingOrders)
      ensures repo.withdrawals == old(repo.withdrawals)
      ensures overloadCounter == old(overloadCounter) && overloadStartTime == old(overloadStartTime)
      ensures tickBusy == old(tickBusy)
    {
      var step := Decide(order, lookup);
      match step.write {
        case NoWrite =>
        case SetStatus(status) =>
          repo.SetOrderStatusByNumber(order.number, status);
        case UpdateAttributes(o) =>
          var _ := repo.UpdateAttributes(o);
      }
      updated := step.order;
      if step.clearsInFlight {
        processingOrders := processingOrders - {order.number};
      }
    }

    /** The started task `worker.pending[k]` runs: ProcessOrder, then the
        worker's deferred decrements. */
    method RunTask(k: nat, lookup: Lookup) returns (order: Order, updated: Order)
      requires Valid() && k < |worker.pending|
      modifies this, worker, repo
      ensures Valid()
      ensures order == old(worker.pending[k])
      ensures worker.pending == old(worker.pending[..k] + worker.pending[k + 1..])
      ensures worker.handled == old(worker.handled) + [order]
      ensures worker.workersNum == old(worker.workersNum) - 1
      ensures var step := Decide(order, lookup);
        && repo.orders == ApplyWrite(old(repo.orders), order.number, step.write)
        && updated == step.order
        && processingOrders == if step.clearsInFlight then old(processingOrders) - {order.number} else old(processingOrders)
      // nothing else changes
      ensures overloadCounter == old(overloadCounter) && overloadStartTime == old(overloadStartTime)
      ensures tickBusy == old(tickBusy)
      ensures worker.overloaded == old(worker.overloaded) && worker.submitted == old(worker.submitted)
      ensures repo.withdrawals == old(repo.withdrawals)
    {
      order := worker.pending[k];
      updated := ProcessOrder(order, lookup);
      var _ := worker.Complete(k);
    }

    /** The sweep's loop: Send each order in turn. */
    method SendAll(orders: seq<Order>, rateExceeded: bool, now: int)
      requires Dispatching()
      modifies this, worker
      ensures Dispatching()
      ensures tickBusy == old(tickBusy)
      ensures worker.handled == old(worker.handled)
      ensures DispatchState() == SendEach(old(DispatchState()), worker.maxWorkers, cfg.overloadReportCount, rateExceeded, now, orders, |orders|)
    {
      ghost var d0 := DispatchState();
      var i := 0;
      while i < |orders|
        invariant 0 <= i <= |orders|
        invariant Dispatching() && tickBusy == old(tickBusy)
        invariant worker.handled == old(worker.handled)
        invariant DispatchState() == SendEach(d0, worker.maxWorkers, cfg.overloadReportCount, rateExceeded, now, orders, i)
      {
        var _ := Send(orders[i], rateExceeded, now);
        i := i + 1;
      }
    }

    /** The body of `processTick` once the lock is held: snapshot the
        in-flight set, fetch up to PollingCount NEW or PROCESSING orders
        outside it, and Send each. The first ones start while the pool has
        room, the rest go the overload path. */
    method Sweep(rateExceeded: bool, now: int) returns (sent: seq<Order>)
      requires Valid()
      modifies this, worker
      ensures Valid()
      ensures tickBusy == old(tickBusy)
      ensures worker.handled == old(worker.handled)
      ensures SweepBatch(sent, old(repo.orders), old(processingOrders), cfg.pollingCount)
      ensures worker.submitted == old(worker.submitted) + sent
      ensures DispatchState() == AdmitPrefix(old(DispatchState()), worker.maxWorkers, cfg.overloadReportCount, rateExceeded, now, sent)
      // the batch was not in flight, so its overloaded orders unmark only themselves
      ensures processingOrders == old(processingOrders) + NumbersOf(sent[..Admitted(worker.maxWorkers - |old(worker.pending)|, |sent|)])
    {
      var active := processingOrders;
      sent := repo.GetOrdersByStatuses({New, Processing}, active, cfg.pollingCount);
      assert SweepBatch(sent, repo.orders, active, cfg.pollingCount);
      ghost var d0 := DispatchState();
      ghost var started := NumbersOf(sent[..Admitted(worker.maxWorkers - |worker.pending|, |sent|)]);
      SendAll(sent, rateExceeded, now);
      SweptBatchSent(d0, worker.maxWorkers, cfg.overloadReportCount, rateExceeded, now, sent, repo.orders, cfg.pollingCount,
                     worker.handled);
      assert processingOrders == DispatchState().inFlight == d0.inFlight + started;
    }

    /** `processTick`: skipped while another tick holds the lock; otherwise
        a Sweep under the lock. */
    method ProcessTick(rateExceeded: bool, now: int) returns (sent: seq<Order>)
      requires Valid()
      modifies this, worker
      ensures Valid()
      // a tick that finds another one running does nothing
      ensures old(tickBusy) ==> sent == [] && unchanged(this) && unchanged(worker)
      ensures !old(tickBusy) ==>
                && !tickBusy
                && worker.handled == old(worker.handled)
                && SweepBatch(sent, old(repo.orders), old(processingOrders), cfg.pollingCount)
                && worker.submitted == old(worker.submitted) + sent
                && DispatchState() == AdmitPrefix(old(DispatchState()), worker.maxWorkers, cfg.overloadReportCount, rateExceeded, now, sent)
                && processingOrders == old(processingOrders) + NumbersOf(sent[..Admitted(worker.maxWorkers - |old(worker.pending)|, |sent|)])
    {
      if tickBusy {
        return [];
      }
      ghost var d0 := DispatchState();
      tickBusy := true;
      sent := Sweep(rateExceeded, now);
      assert DispatchState() == AdmitPrefix(d0, worker.maxWorkers, cfg.overloadReportCount, rateExceeded, now, sent);
      assert processingOrders == d0.inFlight + NumbersOf(sent[..Admitted(worker.maxWorkers - |d0.pending|, |sent|)]);
      tickBusy := false;
    }
  }
}
