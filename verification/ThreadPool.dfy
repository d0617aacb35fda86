/**
 The pool's shared fields and the blocks of code that run under its mutex, each proved to be
 the corresponding step of the transition system.
 */
module ThreadPool {
  import opened Options
  import opened PoolModel

  class Pool {
    var workers: seq<Worker>    // where each thread starts
    var tasks: seq<Job>
    var stop: bool

    /** The fields agree with the shared part of a state of the transition system. */
    ghost predicate Mirrors(s: State)
      reads this
    {
      tasks == s.tasks && stop == s.stop && |workers| == Size(s) >= 1
    }

    /** Each new thread starts at the top of the loop, ready to take the pool mutex. */
    constructor (workerCount: nat)
      requires workerCount > 0
      ensures workers == Init(workerCount).workers && Mirrors(Init(workerCount))
    {
      workers := [];
      tasks := [];
      stop := false;
      new;
      for i := 0 to workerCount
        invariant workers == Init(workerCount).workers[..i] && tasks == [] && !stop
      {
        workers := workers + [Locking];
      }
    }

    /** A pool without threads is refused. */
    static method Create(workerCount: nat) returns (pool: Option<Pool>)
      ensures pool.None? <==> workerCount == 0
      ensures pool.Some? ==>
                && fresh(pool.value) && |pool.value.workers| == workerCount
                && (forall w :: 0 <= w < workerCount ==> pool.value.workers[w].Locking?)
                && pool.value.tasks == [] && !pool.value.stop
                && pool.value.Mirrors(Init(workerCount))
    {
      if workerCount == 0 {
        return None;
      }
      var p := new Pool(workerCount);
      return Some(p);
    }

    /** The locked block of Submit, entered by call `c`; `ok` is false when it throws. */
    method Push(job: Job, ghost s: State, ghost c: nat) returns (ok: bool)
      requires Mirrors(s) && IsCall(s, c) && s.calls[c].pc.Holding?
      requires job == JobFor(s, c, s.calls[c].pc.w)
      modifies this`tasks
      ensures ok == !old(stop)
      ensures tasks == (if ok then old(tasks) + [job] else old(tasks)) && stop == old(stop)
      ensures var step := if ok then Step.Push(c) else Reject(c);
              CallerEnabled(s, step) && Mirrors(ApplyCaller(s, step))
    {
      if stop {
        return false;
      }
      tasks := tasks + [job];
      return true;
    }

    /** One pass of worker `w` through its locked block, from the wait predicate to the pop. */
    method Next(ghost s: State, ghost w: nat) returns (decision: Decision)
      requires Mirrors(s) && IsWorker(s, w) && s.workers[w].Checking?
      modifies this`tasks
      ensures decision.Run? ==> old(tasks) == [decision.job] + tasks
      ensures !decision.Run? ==> old(tasks) == tasks == []
      ensures decision.Leave? ==> stop
      ensures stop == old(stop) && (stop ==> !decision.Block?)
      ensures var step := match decision case Block => Sleep(w) case Leave => Exit(w) case Run(_) => Take(w);
              WorkerEnabled(s, step) && Mirrors(ApplyWorker(s, step))
    {
      if !(stop || tasks != []) {
        return Block;
      }
      if stop && tasks == [] {
        return Leave;
      }
      decision := Run(tasks[0]);
      tasks := tasks[1..];
    }

    /** The locked block of the destructor. */
    method Stop(ghost s: State)
      requires Mirrors(s) && s.dtor.DtorHolding?
      modifies this`stop
      ensures stop && tasks == old(tasks)
      ensures DtorEnabled(s, DtorStop) && Mirrors(ApplyDtor(s, DtorStop))
    {
      stop := true;
    }
  }
}
