/** internal/workers/activePool.go: the non-generic OverloadableWorker, whose
    overload handler hands a task to a small fixed pool, and ActivePool,
    which waits for both. The non-generic `Run(task)` does what the generic
    `Add` does with a task closure as argument and "call it" as handler, so it
    is modelled by that class. */
module ActivePool {
  import opened Workers

  /** A task closure, by its identity. */
  type Task = nat

  /** The fixed pool seen from outside: `Run` hands it a task, one of its
      workers runs queued tasks in order, and `Wait` returns when all have
      run. Its channel and goroutines are not modelled. */
  class FixedPool {
    const size: int
    /** Tasks handed over and not yet run. */
    var queued: seq<Task>
    /** Tasks run, in order. */
    var ran: seq<Task>

    constructor(size: int)
      ensures this.size == size && queued == [] && ran == []
    {
      this.size := size;
      queued, ran := [], [];
    }

    method Run(task: Task)
      modifies this
      ensures queued == old(queued) + [task] && ran == old(ran)
    {
      queued := queued + [task];
    }

    /** A pool worker takes the next task off the channel and runs it. */
    method Step() returns (task: Task)
      requires queued != []
      modifies this
      ensures task == old(queued[0])
      ensures queued == old(queued[1..]) && ran == old(ran) + [task]
    {
      task := queued[0];
      queued := queued[1..];
      ran := ran + [task];
    }

    method Wait()
      modifies this
      ensures queued == [] && ran == old(ran) + old(queued)
    {
      while queued != []
        invariant ran + queued == old(ran) + old(queued)
        decreases |queued|
      {
        ghost var before := queued;
        var task := Step();
        assert before == [task] + queued;
      }
    }
  }

  datatype ActivePoolConfig = ActivePoolConfig(maxActiveWorkers: int, overloadPoolSize: int)

  class ActivePool {
    const worker: OverloadableWorker<Task>
    const pool: FixedPool

    ghost predicate Valid()
      reads this, worker, pool
    {
      && worker.Valid() && worker.Accounts()
      // everything the worker turned away went to the pool
      && worker.overloaded == pool.ran + pool.queued
    }

    /** Every task given to Run is run exactly once or is still waiting, on
        one of the two paths. */
    lemma Accounted()
      requires Valid()
      ensures multiset(worker.submitted) ==
                multiset(worker.handled) + multiset(worker.pending) + multiset(pool.ran) + multiset(pool.queued)
    {
    }

    /** `NewActivePool(cfg)`. */
    constructor(cfg: ActivePoolConfig)
      ensures Valid() && fresh(worker) && fresh(pool)
      ensures worker.maxWorkers == ToInt32(cfg.maxActiveWorkers) && pool.size == cfg.overloadPoolSize
      ensures worker.submitted == [] && pool.queued == [] && pool.ran == []
    {
      worker := new OverloadableWorker(cfg.maxActiveWorkers);
      pool := new FixedPool(cfg.overloadPoolSize);
    }

    /** `OverloadableWorker.Run(task)`: start it below the limit, otherwise
        hand it to the pool's Run. */
    method Run(task: Task)
      requires Valid()
      modifies worker, pool
      ensures Valid()
      ensures worker.submitted == old(worker.submitted) + [task]
      ensures old(worker.workersNum) < worker.maxWorkers ==>
                && worker.pending == old(worker.pending) + [task]
                && worker.workersNum == old(worker.workersNum) + 1
                && pool.queued == old(pool.queued)
      ensures old(worker.workersNum) >= worker.maxWorkers ==>
                && worker.pending == old(worker.pending)
                && worker.workersNum == old(worker.workersNum)
                && pool.queued == old(pool.queued) + [task]
      ensures worker.handled == old(worker.handled) && pool.ran == old(pool.ran)
    {
      var started := worker.Add(task);
      if !started {
        pool.Run(task);
      }
    }

    /** A started task finishes. */
    method CompleteActive(k: nat) returns (task: Task)
      requires Valid() && k < |worker.pending|
      modifies worker
      ensures Valid()
      ensures task == old(worker.pending[k]) && worker.handled == old(worker.handled) + [task]
      ensures worker.pending == old(worker.pending[..k] + worker.pending[k + 1..])
    {
      task := worker.Complete(k);
    }

    /** `ActivePool.Wait`: wait for the started tasks, then for the pool. */
    method Wait()
      requires Valid()
      modifies worker, pool
      ensures Valid()
      ensures worker.pending == [] && worker.waitGroup == 0 && pool.queued == []
      ensures worker.handled == old(worker.handled) + old(worker.pending)
      ensures pool.ran == old(pool.ran) + old(pool.queued)
      ensures multiset(worker.submitted) == multiset(worker.handled) + multiset(pool.ran)
    {
      worker.Wait();
      pool.Wait();
      Accounted();
    }
  }
}
