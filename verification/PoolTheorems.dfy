/** Safety of the pool and of the square-sum calls, over every run. */
module PoolTheorems {
  import opened Options
  import opened Sums
  import opened SquareSum
  import opened PoolModel
  import opened PoolInvariants

  /** Whatever else ran on the pool, a call that returns gives the sum of its own items' squares. */
  lemma SharedPoolResult(workers: nat, s: State, c: nat)
    requires Reachable(workers, s) && IsCall(s, c) && s.calls[c].pc.Returned?
    ensures s.calls[c].pc.value == SumSquares(s.calls[c].items, 0, |s.calls[c].items|)
  {
    ReachableInv(workers, s);
    assert ResultOk(s, c);
  }

  /** What the calls of a run were given, in the order they began. */
  function Begun(run: seq<Step>): seq<seq<real>> {
    if run == [] then [] else (if run[0].Begin? then [run[0].items] else []) + Begun(run[1..])
  }

  /** What the calls of a state work on. */
  function ItemsOf(calls: seq<Call>): seq<seq<real>> {
    seq(|calls|, c requires 0 <= c < |calls| => calls[c].items)
  }

  lemma CallerKeepsItems(s: State, step: Step)
    requires Size(s) >= 1 && CallerEnabled(s, step)
    ensures Size(ApplyCaller(s, step)) == Size(s) && ItemsOf(ApplyCaller(s, step).calls) == ItemsOf(s.calls)
  {
  }

  lemma StepKeepsItems(s: State, step: Step)
    requires Size(s) >= 1 && Enabled(s, step)
    ensures Size(Apply(s, step)) == Size(s)
    ensures ItemsOf(Apply(s, step).calls) == ItemsOf(s.calls) + if step.Begin? then [step.items] else []
  {
    if CallerEnabled(s, step) {
      CallerKeepsItems(s, step);
    } else if WorkerEnabled(s, step) {
      WorkerKeepsCalls(s, step);
    }
  }

  /** Every call works on the items it began with. */
  lemma {:induction false} CallsBegun(s: State, run: seq<Step>)
    requires Size(s) >= 1 && Legal(s, run)
    ensures ItemsOf(Exec(s, run).calls) == ItemsOf(s.calls) + Begun(run)
    decreases |run|
  {
    if run == [] {
      assert ItemsOf(s.calls) + [] == ItemsOf(s.calls);
    } else {
      var first := if run[0].Begin? then [run[0].items] else [];
      StepKeepsItems(s, run[0]);
      CallsBegun(Apply(s, run[0]), run[1..]);
      assert (ItemsOf(s.calls) + first) + Begun(run[1..]) == ItemsOf(s.calls) + (first + Begun(run[1..]));
    }
  }

  /** In any run, the c-th call to begin can only return the sum of the squares it was given. */
  lemma SharedPoolRun(workers: nat, run: seq<Step>, c: nat)
    requires workers >= 1 && Legal(Init(workers), run) && c < |Begun(run)|
    ensures var s := Exec(Init(workers), run);
            && |s.calls| == |Begun(run)|
            && (s.calls[c].pc.Returned? ==> s.calls[c].pc.value == SumSquares(Begun(run)[c], 0, |Begun(run)[c]|))
  {
    var s := Exec(Init(workers), run);
    CallsBegun(Init(workers), run);
    assert ItemsOf(s.calls) == Begun(run);
    assert |s.calls| == |ItemsOf(s.calls)| && s.calls[c].items == ItemsOf(s.calls)[c];
    if s.calls[c].pc.Returned? {
      assert Reachable(workers, s);
      SharedPoolResult(workers, s, c);
    }
  }

  /**
   What the pool's surroundings may do at any moment: begin a call on any items, wake up any
   sleeping worker for nothing, and, once, start the destructor when the mutex is free. The
   number of threads never changes.
   */
  lemma Surroundings(workers: nat, s: State)
    requires Reachable(workers, s) && workers >= 1
    ensures Size(s) == workers
    ensures forall items :: Enabled(s, Begin(items)) && |Apply(s, Begin(items)).calls| == |s.calls| + 1
    ensures forall w: nat :: w < workers && s.workers[w].Asleep? ==>
              Enabled(s, Spurious(w)) && !Apply(s, Spurious(w)).workers[w].Asleep?
    ensures s.dtor.Alive? && s.mutex.None? ==> Enabled(s, DtorLock) && !Apply(s, DtorLock).dtor.Alive?
  {
  }

  /** No step but the destructor's notification wakes more than one sleeping worker. */
  lemma WakesAtMostOne(s: State, step: Step, v: nat, w: nat)
    requires Size(s) >= 1 && Enabled(s, step) && !step.DtorNotify? && v < w < Size(s)
    requires s.workers[v].Asleep? && s.workers[w].Asleep?
    ensures Apply(s, step).workers[v].Asleep? || Apply(s, step).workers[w].Asleep?
  {
  }

  /**
   A sleeping worker means that at most as many jobs are queued as there are submitters about
   to notify and workers on their way from a wakeup to the queue. So a queued job never meets
   a pool in which every worker sleeps and nobody is about to notify.
   */
  lemma NoLostWakeup(workers: nat, s: State)
    requires Reachable(workers, s)
    ensures SomeAsleep(s) ==> |s.tasks| <= Sum(s.calls, IsNotifying()) + Sum(s.workers, IsAwake())
    ensures s.tasks != [] ==>
              || (exists w :: 0 <= w < |s.workers| && !s.workers[w].Asleep?)
              || (exists c :: 0 <= c < |s.calls| && s.calls[c].pc.Notifying?)
  {
    ReachableInv(workers, s);
    if s.tasks != [] && s.workers[0].Asleep? && Sum(s.workers, IsAwake()) == 0 {
      var c := SumWitness(s.calls, IsNotifying());
    } else if s.tasks != [] && s.workers[0].Asleep? {
      SumNonnegative(s.workers, IsAwake());
      var w := SumWitness(s.workers, IsAwake());
    }
  }

  /** A job, queued or in a worker's hands, that still refers to call `c`'s locals. */
  ghost predicate RefersTo(s: State, c: nat) {
    || (exists k :: 0 <= k < |s.tasks| && s.tasks[k].call == c)
    || (exists w :: 0 <= w < |s.workers| && Working(s.workers[w]) && s.workers[w].job.call == c)
  }

  /** The call is over, one way or the other. */
  ghost predicate Finished(call: Call) {
    call.pc.Returned? || call.pc.Threw?
  }

  /**
   The captured locals outlive their users: once a call has returned no job refers to its
   items, accumulator or accumulator mutex, and that mutex is unlocked. A call whose frame is
   gone while jobs still refer to it has been thrown out of its submission loop by a stopped
   pool, and its items make at least two chunks. (`ThrownCall` shows that this is exact.)
   */
  lemma CapturedLocals(workers: nat, s: State, c: nat)
    requires Reachable(workers, s) && IsCall(s, c)
    ensures s.calls[c].pc.Returned? ==> !RefersTo(s, c) && s.calls[c].accOwner.None?
    ensures RefersTo(s, c) && Finished(s.calls[c]) ==>
              && s.calls[c].pc.Threw? && s.stop
              && 1 <= s.calls[c].submitted < ChunkCount(|s.calls[c].items|, workers)
  {
    ReachableInv(workers, s);
    assert CallOk(s.calls[c], Size(s)) && RecordOwns(s, c);
    if s.calls[c].pc.Returned? {
      forall i: nat
        ensures LiveOk(s, c, i)
      {
      }
      AllReadyNoJobs(s, c);
    }
  }

  lemma {:induction false} ExecAppend(s: State, run: seq<Step>, step: Step)
    requires Size(s) >= 1 && Legal(s, run) && Enabled(Exec(s, run), step)
    ensures Legal(s, run + [step]) && Exec(s, run + [step]) == Apply(Exec(s, run), step)
    decreases |run|
  {
    if run == [] {
      assert run + [step] == [step];
      assert Legal(Apply(s, step), []);
    } else {
      assert (run + [step])[1..] == run[1..] + [step];
      ExecAppend(Apply(s, run[0]), run[1..], step);
    }
  }

  lemma Initial(workers: nat)
    requires workers >= 1
    ensures Reachable(workers, Init(workers))
  {
    assert Legal(Init(workers), []) && Exec(Init(workers), []) == Init(workers);
  }

  lemma Extend(workers: nat, s: State, step: Step, t: State)
    requires Reachable(workers, s) && Size(s) >= 1
    requires Enabled(s, step) && Apply(s, step) == t
    ensures Reachable(workers, t)
  {
    var run :| Legal(Init(workers), run) && Exec(Init(workers), run) == s;
    ExecAppend(Init(workers), run, step);
  }

  /**
   A call past its submission loop has had exactly its chunks accepted, in order: non-empty
   consecutive ranges from 0 to the end of its items, no more of them than threads.
   */
  lemma SubmittedChunks(workers: nat, s: State, c: nat)
    requires Reachable(workers, s) && IsCall(s, c)
    requires s.calls[c].pc.Waiting? || s.calls[c].pc.Returned?
    ensures RangesOf(s.accepted, c) == ChunkRanges(|s.calls[c].items|, workers)
    ensures s.calls[c].items != [] ==> Partitions(RangesOf(s.accepted, c), |s.calls[c].items|, workers)
  {
    ReachableInv(workers, s);
    assert CallOk(s.calls[c], Size(s)) && RangesOk(s, c);
    if s.calls[c].items != [] {
      ChunkRangesPartition(|s.calls[c].items|, workers);
    }
  }

  // ---------- Exactly once, in order ----------

  lemma {:induction false} SumOfTwo<T>(s: seq<T>, f: T -> int, i: nat, j: nat)
    requires i < j < |s| && f(s[i]) == 1 && f(s[j]) == 1
    requires forall k :: 0 <= k < |s| ==> f(s[k]) >= 0
    ensures Sum(s, f) >= 2
  {
    if i == 0 {
      SumAtLeast(s[1..], f, j - 1);
    } else {
      SumOfTwo(s[1..], f, i - 1, j - 1);
    }
  }

  /** How many workers have popped this job and not yet fulfilled its future. */
  ghost function Holders(s: State, job: Job): int {
    Sum(s.workers, Holds(job.call, job.idx))
  }

  /**
   No job is accepted twice, jobs are popped in the order they were pushed, and every popped
   job is either done (its future is ready) or held by exactly one worker.
   */
  lemma ExactlyOnceInOrder(workers: nat, s: State)
    requires Reachable(workers, s)
    ensures forall i, j :: 0 <= i < j < |s.accepted| ==> s.accepted[i] != s.accepted[j]
    ensures |s.taken| <= |s.accepted| && s.taken == s.accepted[..|s.taken|]
    ensures forall i :: 0 <= i < |s.taken| ==>
                          && s.taken[i].call < |s.calls|
                          && Holders(s, s.taken[i])
                             == if s.taken[i].idx in s.calls[s.taken[i].call].ready then 0 else 1
  {
    ReachableInv(workers, s);
    forall i, j | 0 <= i < j < |s.accepted|
      ensures s.accepted[i] != s.accepted[j]
    {
      var job := s.accepted[i];
      if s.accepted[j] == job {
        assert JobOk(s, job) && AcceptedOk(s, job.call, job.idx);
        SumOfTwo(s.accepted, IsJob(job.call, job.idx), i, j);
      }
    }
    forall i | 0 <= i < |s.taken|
      ensures s.taken[i].call < |s.calls|
      ensures Holders(s, s.taken[i]) == if s.taken[i].idx in s.calls[s.taken[i].call].ready then 0 else 1
    {
      var job := s.taken[i];
      assert job == s.accepted[i] && JobOk(s, job);
      assert LiveOk(s, job.call, job.idx) && AcceptedOk(s, job.call, job.idx);
      NotQueuedTwice(s, i);
    }
  }

  /** A popped job is no longer in the queue. */
  lemma NotQueuedTwice(s: State, i: nat)
    requires Inv(s) && i < |s.taken|
    ensures Sum(s.tasks, IsJob(s.taken[i].call, s.taken[i].idx)) == 0
  {
    var job := s.taken[i];
    var f := IsJob(job.call, job.idx);
    assert job == s.accepted[i] && JobOk(s, job) && AcceptedOk(s, job.call, job.idx);
    SumNonnegative(s.tasks, f);
    if Sum(s.tasks, f) > 0 {
      var k := SumWitness(s.tasks, f);
      assert s.accepted[|s.taken| + k] == s.tasks[k];
      SumOfTwo(s.accepted, f, i, |s.taken| + k);
    }
  }

  /** All the work ever accepted has been carried out. */
  ghost predicate Drained(s: State) {
    && s.tasks == []
    && s.taken == s.accepted
    && (forall w :: 0 <= w < |s.workers| ==> !Working(s.workers[w]))
    && (forall i :: 0 <= i < |s.accepted| ==>
          s.accepted[i].call < |s.calls| && s.accepted[i].idx in s.calls[s.accepted[i].call].ready)
  }

  lemma NothingLeftDrained(s: State)
    requires Inv(s) && s.tasks == []
    requires forall w :: 0 <= w < |s.workers| ==> !Working(s.workers[w])
    ensures Drained(s)
  {
    forall i | 0 <= i < |s.accepted|
      ensures s.accepted[i].call < |s.calls| && s.accepted[i].idx in s.calls[s.accepted[i].call].ready
    {
      var job := s.accepted[i];
      assert JobOk(s, job) && LiveOk(s, job.call, job.idx);
      SumZero(s.workers, Holds(job.call, job.idx));
    }
  }

  /** When the destructor's join loop is through, every thread has left and all work is done. */
  lemma JoinMeansDrained(workers: nat, s: State)
    requires Reachable(workers, s) && s.dtor.Destroyed?
    ensures Drained(s) && forall w :: 0 <= w < |s.workers| ==> s.workers[w].Exited?
  {
    ReachableInv(workers, s);
    assert s.workers[0].Exited?;
    NothingLeftDrained(s);
  }

  /** Once stopped, a pool stays stopped, accepts nothing more and sends no worker to sleep. */
  lemma StoppedStep(s: State, step: Step)
    requires Size(s) >= 1 && s.stop && Enabled(s, step)
    ensures var t := Apply(s, step);
            && t.stop && t.accepted == s.accepted
            && (forall w :: 0 <= w < |t.workers| && t.workers[w].Asleep? ==> s.workers[w].Asleep?)
  {
  }

  /** The thread is between taking and releasing the pool mutex. */
  ghost predicate InsidePool(s: State, thread: Thread) {
    match thread
    case PoolWorker(w) => IsWorker(s, w) && s.workers[w].Checking?
    case Caller(c) => IsCall(s, c) && s.calls[c].pc.Holding?
    case Owner => s.dtor.DtorHolding?
  }

  /**
   The recorded owner is the only thread inside a locked block of the pool, no two workers
   own one call's accumulator mutex. (That no worker holds both kinds of lock is by construction.)
   */
  lemma MutualExclusion(workers: nat, s: State)
    requires Reachable(workers, s)
    ensures forall thread :: InsidePool(s, thread) <==> s.mutex == Some(thread)
    ensures forall v, w :: 0 <= v < w < |s.workers| && OwnsAcc(s.workers[v]) && OwnsAcc(s.workers[w]) ==>
                             s.workers[v].job.call != s.workers[w].job.call
    ensures forall w: nat :: w < |s.workers| && OwnsAcc(s.workers[w]) ==> !InsidePool(s, PoolWorker(w))
  {
    ReachableInv(workers, s);
    forall v, w | 0 <= v < w < |s.workers| && OwnsAcc(s.workers[v]) && OwnsAcc(s.workers[w])
      ensures s.workers[v].job.call != s.workers[w].job.call
    {
      assert OwnerRecorded(s, v) && OwnerRecorded(s, w);
    }
  }
}
