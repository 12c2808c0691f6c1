/** internal/workers/overloadable_worker.go: bounded admission. An argument
    either starts a handler task, when fewer than maxWorkers run, or goes to
    the overload handler at once. Goroutines are explicit: a started task sits
    in `pending` until a `Complete` step runs its handler and its deferred
    decrements. */
module Workers {

  const Int32Modulus := 0x1_0000_0000

  /** Go's `int32(x)`: keep the low 32 bits, as two's complement. */
  function ToInt32(x: int): (r: int)
    ensures -0x8000_0000 <= r < 0x8000_0000
    ensures (r - x) % Int32Modulus == 0
    ensures -0x8000_0000 <= x < 0x8000_0000 ==> r == x
  {
    var m := x % Int32Modulus;
    if m >= 0x8000_0000 then m - Int32Modulus else m
  }

  /** Every argument went to exactly one of the two handlers, once: the
      submitted arguments are, as a multiset, the handled, the pending and the
      overloaded ones together. */
  ghost predicate Accounted<T>(submitted: seq<T>, handled: seq<T>, pending: seq<T>, overloaded: seq<T>)
  {
    multiset(submitted) == multiset(handled) + multiset(pending) + multiset(overloaded)
  }

  /** Starting a task for a new argument keeps the account. */
  lemma StartAccounted<T>(submitted: seq<T>, handled: seq<T>, pending: seq<T>, overloaded: seq<T>, arg: T)
    requires Accounted(submitted, handled, pending, overloaded)
    ensures Accounted(submitted + [arg], handled, pending + [arg], overloaded)
  {
  }

  /** Handing a new argument to the overload handler keeps the account. */
  lemma OverloadAccounted<T>(submitted: seq<T>, handled: seq<T>, pending: seq<T>, overloaded: seq<T>, arg: T)
    requires Accounted(submitted, handled, pending, overloaded)
    ensures Accounted(submitted + [arg], handled, pending, overloaded + [arg])
  {
  }

  /** A pending task finishing keeps the account. */
  lemma FinishAccounted<T>(submitted: seq<T>, handled: seq<T>, pending: seq<T>, overloaded: seq<T>, k: nat)
    requires Accounted(submitted, handled, pending, overloaded)
    requires k < |pending|
    ensures Accounted(submitted, handled + [pending[k]], pending[..k] + pending[k + 1..], overloaded)
  {
    assert pending == pending[..k] + [pending[k]] + pending[k + 1..];
  }

  /** Moving the first pending argument to the handled ones keeps their
      concatenation. */
  lemma HandFirst<T>(handled: seq<T>, pending: seq<T>)
    requires pending != []
    ensures (handled + [pending[0]]) + (pending[..0] + pending[1..]) == handled + pending
  {
    assert pending == [pending[0]] + pending[1..];
  }

  class OverloadableWorker<T(==)> {
    const maxWorkers: int
    /** The atomic.Int32 counter of running handler tasks. */
    var workersNum: int
    /** The sync.WaitGroup counter. */
    var waitGroup: int
    /** Started tasks whose handler has not finished, in start order. */
    var pending: seq<T>
    /** Arguments the handler has finished with, in order. */
    var handled: seq<T>
    /** Arguments passed to the overload handler, in order. */
    var overloaded: seq<T>
    /** Every argument passed to Add, in order. */
    ghost var submitted: seq<T>

    /** How many tasks may run at once: a negative limit admits none. */
    function Capacity(): nat
      reads this
    {
      if maxWorkers < 0 then 0 else maxWorkers
    }

    ghost predicate Valid()
      reads this
    {
      // the counters are the number of started-but-unfinished tasks
      && workersNum == |pending|
      && waitGroup == |pending|
      // never more than maxWorkers of them
      && workersNum <= Capacity()
    }

    ghost predicate Accounts()
      reads this
    {
      Accounted(submitted, handled, pending, overloaded)
    }

    /** `NewOverloadableWorker(maxWorkers, handler, onOverload)`. */
    constructor(maxWorkers: int)
      ensures Valid() && Accounts()
      ensures this.maxWorkers == ToInt32(maxWorkers)
      ensures pending == [] && handled == [] && overloaded == [] && submitted == []
    {
      this.maxWorkers := ToInt32(maxWorkers);
      workersNum, waitGroup := 0, 0;
      pending, handled, overloaded := [], [], [];
      submitted := [];
    }

    /** `Add(ctx, arg)`. `started` tells the caller which way the argument went:
        true when a handler task was started, false when the overload handler
        must be (and, in the source, is) called synchronously with it. */
    method Add(arg: T) returns (started: bool)
      requires Valid()
      modifies this
      ensures Valid()
      ensures old(Accounts()) ==> Accounts()
      ensures started <==> old(workersNum) < maxWorkers
      ensures maxWorkers <= 0 ==> !started
      ensures submitted == old(submitted) + [arg]
      ensures handled == old(handled)
      ensures started ==> && pending == old(pending) + [arg] && overloaded == old(overloaded)
                          && workersNum == old(workersNum) + 1 && waitGroup == old(waitGroup) + 1
      ensures !started ==> && pending == old(pending) && overloaded == old(overloaded) + [arg]
                           && workersNum == old(workersNum) && waitGroup == old(waitGroup)
    {
      if Accounts() {
        if workersNum < maxWorkers {
          StartAccounted(submitted, handled, pending, overloaded, arg);
        } else {
          OverloadAccounted(submitted, handled, pending, overloaded, arg);
        }
      }
      submitted := submitted + [arg];
      if workersNum < maxWorkers {
        waitGroup := waitGroup + 1;
        workersNum := workersNum + 1;
        pending := pending + [arg];
        started := true;
      } else {
        overloaded := overloaded + [arg];
        started := false;
      }
    }

    /** The started task `pending[k]` finishes: its handler runs, then the
        deferred function decrements the counter and the WaitGroup. */
    method Complete(k: nat) returns (arg: T)
      requires Valid()
      requires k < |pending|
      modifies this
      ensures Valid()
      ensures old(Accounts()) ==> Accounts()
      ensures arg == old(pending[k])
      ensures pending == old(pending[..k] + pending[k + 1..])
      ensures handled == old(handled) + [arg]
      ensures workersNum == old(workersNum) - 1 && waitGroup == old(waitGroup) - 1
      ensures overloaded == old(overloaded) && submitted == old(submitted)
    {
      arg := pending[k];
      if Accounts() {
        FinishAccounted(submitted, handled, pending, overloaded, k);
      }
      pending := pending[..k] + pending[k + 1..];
      handled := handled + [arg];
      workersNum := workersNum - 1;
      waitGroup := waitGroup - 1;
    }

    /** `Wait`: blocks until the WaitGroup is zero, i.e. until every started
        task has finished; here the tasks finish in start order. */
    method Wait()
      requires Valid()
      modifies this
      ensures Valid()
      ensures old(Accounts()) ==> Accounts()
      ensures pending == [] && waitGroup == 0 && workersNum == 0
      ensures handled == old(handled) + old(pending)
      ensures overloaded == old(overloaded) && submitted == old(submitted)
    {
      ghost var accounted := Accounts();
      while waitGroup != 0
        invariant Valid()
        invariant accounted ==> Accounts()
        invariant handled + pending == old(handled) + old(pending)
        invariant overloaded == old(overloaded) && submitted == old(submitted)
        decreases |pending|
      {
        HandFirst(handled, pending);
        var _ := Complete(0);
      }
    }
  }
}
