/** The pool and the calls on it never get stuck and never run forever on their own. */
module PoolProgress {
  import opened Options
  import opened Sums
  import opened SquareSum
  import opened PoolModel
  import opened PoolInvariants
  import opened PoolTheorems

  // ---------- Some thread can always move ----------

  /** Steps nobody has to take: new work, spurious wakeups and the start of the destructor. */
  predicate Voluntary(step: Step) {
    step.Begin? || step.Spurious? || step.DtorLock?
  }

  /** Whoever is inside a critical section of the pool can leave it. */
  lemma HolderMoves(s: State) returns (step: Step)
    requires Inv(s) && s.mutex.Some?
    ensures Enabled(s, step) && !Voluntary(step)
  {
    match s.mutex.value
    case PoolWorker(w) =>
      match Decide(s.tasks, s.stop) {
        case Block => step := Sleep(w);
        case Leave => step := Exit(w);
        case Run(_) => step := Take(w);
      }
    case Caller(c) => step := if s.stop then Reject(c) else Push(c);
    case Owner => step := DtorStop;
  }

  /** A worker with a job can go on, or the owner of the accumulator mutex it needs can. */
  lemma WorkingMoves(s: State, w: nat) returns (step: Step)
    requires Inv(s) && IsWorker(s, w) && Working(s.workers[w])
    ensures Enabled(s, step) && !Voluntary(step)
  {
    var worker := s.workers[w];
    var c := worker.job.call;
    assert JobOk(s, worker.job);
    ChunkBounds(|s.calls[c].items|, Size(s), worker.job.idx);
    match worker
    case Running(job, pos, _) =>
      if pos < job.end {
        step := Square(w);
      } else if s.calls[c].accOwner.None? {
        step := AccLock(w);
      } else {
        assert RecordOwns(s, c);
        step := OwnerMoves(s, s.calls[c].accOwner.value);
      }
    case Completing(_) => step := Complete(w);
    case _ => step := OwnerMoves(s, w);
  }

  lemma OwnerMoves(s: State, w: nat) returns (step: Step)
    requires Inv(s) && IsWorker(s, w) && OwnsAcc(s.workers[w])
    ensures Enabled(s, step) && !Voluntary(step)
  {
    match s.workers[w]
    case Merging(_, _) => step := AccLoad(w);
    case Storing(_, _, _) => step := AccStore(w);
    case Unlocking(_) => step := AccUnlock(w);
  }

  /** With the pool mutex free, a worker that is neither asleep nor gone can move. */
  lemma AwakeMoves(s: State, w: nat) returns (step: Step)
    requires Inv(s) && s.mutex.None? && IsWorker(s, w)
    requires !s.workers[w].Asleep? && !s.workers[w].Exited?
    ensures Enabled(s, step) && !Voluntary(step)
  {
    if Working(s.workers[w]) {
      step := WorkingMoves(s, w);
    } else {
      step := WorkerLock(w);
    }
  }

  /** With the pool mutex free, a call can move unless it waits for a future that is not ready. */
  lemma CallerMoves(s: State, c: nat) returns (step: Step)
    requires Inv(s) && s.mutex.None? && IsCall(s, c) && !Finished(s.calls[c])
    requires s.calls[c].pc.Waiting? ==> s.calls[c].pc.k in s.calls[c].ready || s.calls[c].pc.k == s.calls[c].submitted
    ensures Enabled(s, step) && !Voluntary(step)
  {
    assert CallOk(s.calls[c], Size(s));
    match s.calls[c].pc
    case Submitting(w) => step := if InLoop(s, c, w) then SubmitLock(c) else LoopEnd(c);
    case Notifying(_) =>
      if t: nat :| t < |s.workers| && s.workers[t].Asleep? {
        step := Notify(c, Some(t));
      } else {
        step := Notify(c, None);
      }
    case Waiting(k) => step := if k == s.calls[c].submitted then Return(c) else Await(c);
  }

  /**
   Deadlock freedom of the two-lock system: while a call has not finished, some thread can
   take a step that is neither a new call, nor a spurious wakeup, nor the destructor starting.
   */
  lemma NoDeadlock(s: State, c: nat) returns (step: Step)
    requires Inv(s) && IsCall(s, c) && !Finished(s.calls[c])
    ensures Enabled(s, step) && !Voluntary(step)
  {
    var call := s.calls[c];
    assert CallOk(call, Size(s));
    if s.mutex.Some? {
      step := HolderMoves(s);
    } else if !call.pc.Waiting? || call.pc.k in call.ready || call.pc.k == call.submitted {
      step := CallerMoves(s, c);
    } else {
      step := AwaitedJobMoves(s, c, call.pc.k);
    }
  }

  /** A future that is not ready keeps somebody busy. */
  lemma AwaitedJobMoves(s: State, c: nat, k: nat) returns (step: Step)
    requires Inv(s) && s.mutex.None? && IsCall(s, c) && k < s.calls[c].submitted && k !in s.calls[c].ready
    ensures Enabled(s, step) && !Voluntary(step)
  {
    assert LiveOk(s, c, k);
    if w: nat :| w < |s.workers| && !s.workers[w].Asleep? && !s.workers[w].Exited? {
      step := AwakeMoves(s, w);
    } else {
      SumZero(s.workers, Holds(c, k));
      assert s.tasks != [];
      assert !s.workers[0].Exited?;
      SumZero(s.workers, IsAwake());
      var d := SumWitness(s.calls, IsNotifying());
      step := CallerMoves(s, d);
    }
  }

  /** A stopped pool is never stuck before the join loop is through. */
  lemma ShutdownMoves(s: State) returns (step: Step)
    requires Inv(s) && s.stop && !s.dtor.Destroyed?
    ensures Enabled(s, step) && !Voluntary(step)
  {
    if s.mutex.Some? {
      step := HolderMoves(s);
    } else if s.dtor.DtorNotifying? {
      step := DtorNotify;
    } else if s.dtor.i < |s.workers| && !s.workers[s.dtor.i].Exited? {
      step := AwakeMoves(s, s.dtor.i);
    } else {
      step := DtorJoin;
    }
  }

  /** Nothing but a voluntary step is left. */
  ghost predicate Quiescent(s: State)
    requires Size(s) >= 1
  {
    forall step :: Enabled(s, step) ==> Voluntary(step)
  }

  /** What it means that nothing has been forgotten. */
  ghost predicate AllDone(s: State) {
    && Drained(s)
    && (forall c :: 0 <= c < |s.calls| ==>
          || s.calls[c].pc == Returned(SumSquares(s.calls[c].items, 0, |s.calls[c].items|))
          || (s.calls[c].pc.Threw? && s.stop))
    && (s.stop ==> s.dtor.Destroyed?)
  }

  /** At rest every thread of the pool is asleep or gone, and every call is over. */
  lemma RestIsIdle(s: State)
    requires Inv(s) && Quiescent(s)
    ensures forall w :: 0 <= w < |s.workers| ==> s.workers[w].Asleep? || s.workers[w].Exited?
    ensures forall c :: 0 <= c < |s.calls| ==> Finished(s.calls[c])
    ensures s.stop ==> s.dtor.Destroyed?
  {
    forall c | 0 <= c < |s.calls|
      ensures Finished(s.calls[c])
    {
      if !Finished(s.calls[c]) {
        var step := NoDeadlock(s, c);
      }
    }
    if s.stop && !s.dtor.Destroyed? {
      var step := ShutdownMoves(s);
    }
    if s.mutex.Some? {
      var step := HolderMoves(s);
    }
    forall w | 0 <= w < |s.workers|
      ensures s.workers[w].Asleep? || s.workers[w].Exited?
    {
      if !s.workers[w].Asleep? && !s.workers[w].Exited? {
        var step := AwakeMoves(s, w);
      }
    }
  }

  /** An idle pool has an empty queue: otherwise a wakeup would be on its way. */
  lemma IdleIsEmpty(s: State)
    requires Size(s) >= 1 && WakeOk(s) && StopOk(s)
    requires forall w :: 0 <= w < |s.workers| ==> s.workers[w].Asleep? || s.workers[w].Exited?
    requires forall c :: 0 <= c < |s.calls| ==> Finished(s.calls[c])
    ensures s.tasks == []
  {
    if s.workers[0].Asleep? {
      SumZero(s.workers, IsAwake());
      SumZero(s.calls, IsNotifying());
      assert SomeAsleep(s);
    }
  }

  /**
   Wherever the system comes to rest, every call has returned the right sum or was refused by
   a stopped pool, every accepted job has been done, and a destructor that has started has
   finished.
   */
  lemma RestIsComplete(workers: nat, s: State)
    requires Reachable(workers, s) && Size(s) >= 1 && Quiescent(s)
    ensures AllDone(s)
  {
    ReachableInv(workers, s);
    RestIsIdle(s);
    IdleIsEmpty(s);
    NothingLeftDrained(s);
    forall c | 0 <= c < |s.calls|
      ensures ResultOk(s, c) && (s.calls[c].pc.Threw? ==> s.stop)
    {
    }
  }

  // ---------- The work left ----------

  ghost function JobWeight(): Job -> int {
    (job: Job) => job.end - job.start + 7
  }

  /** Sleeping costs nothing while the pool runs; a stopped pool wakes each sleeper once more. */
  ghost function WorkerWeight(stop: bool): Worker -> int {
    (worker: Worker) =>
      match worker
      case Running(job, pos, _) => job.end - pos + 7
      case Merging(_, _) => 6
      case Storing(_, _, _) => 5
      case Unlocking(_) => 4
      case Completing(_) => 3
      case Locking => 2
      case Woken => 2
      case Checking => 1
      case Asleep => if stop then 3 else 0
      case Exited => 0
  }

  /** Items not yet handed to the pool at iteration `w`, and 12 for each iteration still possible. */
  ghost function SubmitWeight(n: nat, workers: nat, w: nat): int
    requires workers >= 1
  {
    (if ChunkLo(n, workers, w) < n then n - ChunkLo(n, workers, w) else 0)
    + 12 * (workers - w) + ChunkCount(n, workers) + 2
  }

  ghost function CallWeight(workers: nat): Call -> int
    requires workers >= 1
  {
    (call: Call) =>
      var n := |call.items|;
      match call.pc
      case Submitting(w) => SubmitWeight(n, workers, w)
      case Holding(w) => SubmitWeight(n, workers, w) - 1
      case Notifying(w) => SubmitWeight(n, workers, w + 1) + 3
      case Waiting(k) => call.submitted - k + 1
      case _ => 0
  }

  ghost function DtorWeight(workers: nat, dtor: DtorPc): int {
    match dtor
    case Alive => 4 * workers + 4
    case DtorHolding => 4 * workers + 3
    case DtorNotifying => workers + 2
    case Joining(i) => workers - i + 1
    case Destroyed => 0
  }

  ghost function Work(s: State): int
    requires Size(s) >= 1
  {
    Sum(s.tasks, JobWeight()) + Sum(s.workers, WorkerWeight(s.stop))
    + Sum(s.calls, CallWeight(Size(s))) + DtorWeight(Size(s), s.dtor)
  }

  lemma WorkNonnegative(s: State)
    requires Inv(s)
    ensures Work(s) >= 0
  {
    forall i | 0 <= i < |s.tasks|
      ensures JobWeight()(s.tasks[i]) >= 0
    {
      assert JobOk(s, s.tasks[i]);
      ChunkBounds(|s.calls[s.tasks[i].call].items|, Size(s), s.tasks[i].idx);
    }
    forall c | 0 <= c < |s.calls|
      ensures CallWeight(Size(s))(s.calls[c]) >= 0
    {
      assert CallOk(s.calls[c], Size(s));
      ChunkGuard(|s.calls[c].items|, Size(s), 0);
    }
    SumNonnegative(s.tasks, JobWeight());
    SumNonnegative(s.workers, WorkerWeight(s.stop));
    SumNonnegative(s.calls, CallWeight(Size(s)));
  }

  /** One iteration hands one chunk to the pool and uses up one iteration. */
  lemma SubmitWeightStep(n: nat, workers: nat, w: nat)
    requires workers >= 1 && w < ChunkCount(n, workers)
    ensures SubmitWeight(n, workers, w + 1)
            == SubmitWeight(n, workers, w) - (ChunkHi(n, workers, w) - ChunkLo(n, workers, w)) - 12
  {
    ChunkBounds(n, workers, w);
    ChunkGuard(n, workers, w + 1);
  }

  lemma SubmitWeightBound(n: nat, workers: nat, w: nat)
    requires 1 <= workers && w <= workers
    ensures SubmitWeight(n, workers, w) >= ChunkCount(n, workers) + 2
  {
  }

  /** Pushing costs the call more than the queued job adds. */
  lemma PushUses(s: State, c: nat)
    requires Size(s) >= 1 && CallsOk(s) && CallerEnabled(s, Push(c))
    ensures var f := CallWeight(Size(s));
            f(ApplyCaller(s, Push(c)).calls[c]) + JobWeight()(JobFor(s, c, s.calls[c].pc.w)) < f(s.calls[c])
  {
    assert CallOk(s.calls[c], Size(s));
    SubmitWeightStep(|s.calls[c].items|, Size(s), s.calls[c].pc.w);
  }

  lemma PushWorks(s: State, c: nat)
    requires Inv(s) && CallerEnabled(s, Push(c))
    ensures Work(ApplyCaller(s, Push(c))) < Work(s)
  {
    var t := ApplyCaller(s, Push(c));
    PushUses(s, c);
    SumUpdate(s.calls, c, t.calls[c], CallWeight(Size(s)));
    SumAppend(s.tasks, JobFor(s, c, s.calls[c].pc.w), JobWeight());
    assert t.workers == s.workers && t.stop == s.stop && t.dtor == s.dtor;
  }

  lemma NotifyUses(s: State, c: nat, target: Option<nat>)
    requires Size(s) >= 1 && CallerEnabled(s, Notify(c, target))
    ensures var f := CallWeight(Size(s));
            f(ApplyCaller(s, Notify(c, target)).calls[c]) == f(s.calls[c]) - 3
  {
  }

  lemma NotifyWorks(s: State, c: nat, target: Option<nat>)
    requires Inv(s) && CallerEnabled(s, Notify(c, target))
    ensures Work(ApplyCaller(s, Notify(c, target))) < Work(s)
  {
    var t := ApplyCaller(s, Notify(c, target));
    NotifyUses(s, c, target);
    SumUpdate(s.calls, c, t.calls[c], CallWeight(Size(s)));
    if target.Some? {
      SumUpdate(s.workers, target.value, Woken, WorkerWeight(s.stop));
    }
    assert t.tasks == s.tasks && t.stop == s.stop && t.dtor == s.dtor;
  }

  /** What the remaining caller steps do to the weight of the call. */
  lemma CallerUses(s: State, step: Step)
    requires Size(s) >= 1 && CallsOk(s) && CallerEnabled(s, step) && !step.Push? && !step.Notify?
    ensures var f := CallWeight(Size(s));
            f(ApplyCaller(s, step).calls[step.c]) < f(s.calls[step.c])
  {
    var call := s.calls[step.c];
    assert CallOk(call, Size(s));
    ChunkGuard(|call.items|, Size(s), 0);
    SubmitWeightBound(|call.items|, Size(s), call.submitted);
    if step.LoopEnd? {
      ChunkGuard(|call.items|, Size(s), call.pc.w);
    }
  }

  lemma CallerWorks(s: State, step: Step)
    requires Inv(s) && CallerEnabled(s, step)
    ensures Work(ApplyCaller(s, step)) < Work(s)
  {
    if step.Push? {
      PushWorks(s, step.c);
    } else if step.Notify? {
      NotifyWorks(s, step.c, step.target);
    } else {
      var t := ApplyCaller(s, step);
      CallerUses(s, step);
      assert t.calls == s.calls[step.c := t.calls[step.c]];
      SumUpdate(s.calls, step.c, t.calls[step.c], CallWeight(Size(s)));
      assert t.workers == s.workers && t.tasks == s.tasks && t.stop == s.stop && t.dtor == s.dtor;
    }
  }

  lemma TakeUses(s: State, w: nat)
    requires WorkerEnabled(s, Take(w))
    ensures var t := ApplyWorker(s, Take(w));
            var f := WorkerWeight(s.stop);
            f(t.workers[w]) + Sum(t.tasks, JobWeight()) == f(s.workers[w]) + Sum(s.tasks, JobWeight()) - 1
  {
  }

  /** What a worker step does to the weights of the worker and of the queue. */
  lemma WorkerUses(s: State, step: Step)
    requires Size(s) >= 1 && JobsOk(s) && WorkerEnabled(s, step)
    ensures var t := ApplyWorker(s, step);
            var f := WorkerWeight(s.stop);
            var used := f(s.workers[step.w]) + Sum(s.tasks, JobWeight())
                        - f(t.workers[step.w]) - Sum(t.tasks, JobWeight());
            if step.Spurious? && !s.stop then used == -2 else used >= 1
  {
    if step.Take? {
      TakeUses(s, step.w);
    } else {
      assert ApplyWorker(s, step).tasks == s.tasks;
      if step.AccLock? {
        assert s.workers[step.w].pos == s.workers[step.w].job.end;
      }
    }
  }

  /** The weight of a call does not depend on its accumulator or on which futures are ready. */
  lemma SameCallWeight(workers: nat, a: Call, b: Call)
    requires workers >= 1 && a.items == b.items && a.pc == b.pc && a.submitted == b.submitted
    ensures CallWeight(workers)(a) == CallWeight(workers)(b)
  {
  }

  /** A spurious wakeup of a running pool is the only worker step that does not use work up. */
  lemma WorkerWorks(s: State, step: Step)
    requires Inv(s) && WorkerEnabled(s, step)
    ensures step.Spurious? && !s.stop ==> Work(ApplyWorker(s, step)) == Work(s) + 2
    ensures !(step.Spurious? && !s.stop) ==> Work(ApplyWorker(s, step)) < Work(s)
  {
    var t := ApplyWorker(s, step);
    WorkerUses(s, step);
    WorkerKeepsCalls(s, step);
    SumUpdate(s.workers, step.w, t.workers[step.w], WorkerWeight(s.stop));
    forall c | 0 <= c < |s.calls|
      ensures CallWeight(Size(s))(s.calls[c]) == CallWeight(Size(s))(t.calls[c])
    {
      SameCallWeight(Size(s), s.calls[c], t.calls[c]);
    }
    SumPointwise(s.calls, t.calls, CallWeight(Size(s)));
  }

  lemma DtorWorks(s: State, step: Step)
    requires Inv(s) && DtorEnabled(s, step)
    ensures Work(ApplyDtor(s, step)) < Work(s)
  {
    var t := ApplyDtor(s, step);
    match step
    case DtorStop => SumBound(t.workers, s.workers, WorkerWeight(true), WorkerWeight(false), 3);
    case DtorNotify => SumBound(t.workers, s.workers, WorkerWeight(true), WorkerWeight(true), 0);
    case _ =>
  }

  /** What the environment adds to the work left: new calls, and wakeups out of nothing. */
  ghost function Allowance(s: State, step: Step): int
    requires Size(s) >= 1
  {
    if step.Begin? then CallWeight(Size(s))(NewCall(step.items)) + 1
    else if step.Spurious? && !s.stop then 3
    else 0
  }

  /** Every step uses up at least one unit of work beyond what the environment adds with it. */
  lemma StepWorks(s: State, step: Step)
    requires Inv(s) && Enabled(s, step)
    ensures Work(Apply(s, step)) + 1 <= Work(s) + Allowance(s, step)
  {
    if step.Begin? {
      SumAppend(s.calls, NewCall(step.items), CallWeight(Size(s)));
    } else if CallerEnabled(s, step) {
      CallerWorks(s, step);
    } else if WorkerEnabled(s, step) {
      WorkerWorks(s, step);
    } else {
      DtorWorks(s, step);
    }
  }

  ghost function Allowances(s: State, run: seq<Step>): int
    requires Size(s) >= 1 && Legal(s, run)
    decreases |run|
  {
    if run == [] then 0 else Allowance(s, run[0]) + Allowances(Apply(s, run[0]), run[1..])
  }

  /**
   No run is longer than the work at its start plus what the environment adds on the way. So
   without new calls and spurious wakeups every run comes to rest, and once the pool is
   stopped spurious wakeups no longer add anything.
   */
  lemma {:induction false} RunBounded(s: State, run: seq<Step>)
    requires Inv(s) && Legal(s, run)
    ensures |run| + Work(Exec(s, run)) <= Work(s) + Allowances(s, run)
    ensures |run| <= Work(s) + Allowances(s, run)
    decreases |run|
  {
    if run == [] {
      WorkNonnegative(s);
    } else {
      StepInv(s, run[0]);
      StepWorks(s, run[0]);
      RunBounded(Apply(s, run[0]), run[1..]);
    }
  }

  /** A stopped pool that is given no further calls is through after at most `Work` steps. */
  lemma {:induction false} ShutdownTerminates(s: State, run: seq<Step>)
    requires Inv(s) && s.stop && Legal(s, run)
    requires forall i :: 0 <= i < |run| ==> !run[i].Begin?
    ensures |run| <= Work(s)
    decreases |run|
  {
    RunBounded(s, run);
    NoAllowance(s, run);
  }

  lemma {:induction false} NoAllowance(s: State, run: seq<Step>)
    requires Size(s) >= 1 && s.stop && Legal(s, run)
    requires forall i :: 0 <= i < |run| ==> !run[i].Begin?
    ensures Allowances(s, run) == 0
    decreases |run|
  {
    if run != [] {
      StoppedStep(s, run[0]);
      NoAllowance(Apply(s, run[0]), run[1..]);
    }
  }

  // ---------- Total correctness ----------

  ghost predicate NoneVoluntary(run: seq<Step>) {
    forall i :: 0 <= i < |run| ==> !Voluntary(run[i])
  }

  lemma {:induction false} InvoluntaryAllowance(s: State, run: seq<Step>)
    requires Size(s) >= 1 && Legal(s, run) && NoneVoluntary(run)
    ensures Allowances(s, run) == 0
    decreases |run|
  {
    if run != [] {
      assert !Voluntary(run[0]);
      forall i | 0 <= i < |run[1..]|
        ensures !Voluntary(run[1..][i])
      {
        assert run[1..][i] == run[i + 1];
      }
      InvoluntaryAllowance(Apply(s, run[0]), run[1..]);
    }
  }

  lemma {:induction false} ExecReachable(workers: nat, s: State, run: seq<Step>)
    requires Reachable(workers, s) && Size(s) >= 1 && Legal(s, run)
    ensures Reachable(workers, Exec(s, run))
    decreases |run|
  {
    if run != [] {
      Extend(workers, s, run[0], Apply(s, run[0]));
      ExecReachable(workers, Apply(s, run[0]), run[1..]);
    }
  }

  /**
   Total correctness of the pool and all calls on it. From any reachable state, a run in which
   no new call begins, no worker wakes up for nothing and no destructor starts has at most
   `Work(s)` steps; and one that cannot be continued ends with everything complete.
   */
  lemma EveryRunCompletes(workers: nat, s: State, run: seq<Step>)
    requires Reachable(workers, s) && Size(s) >= 1 && Legal(s, run) && NoneVoluntary(run)
    ensures |run| <= Work(s)
    ensures Quiescent(Exec(s, run)) ==> AllDone(Exec(s, run))
  {
    ReachableInv(workers, s);
    RunBounded(s, run);
    InvoluntaryAllowance(s, run);
    ExecReachable(workers, s, run);
    if Quiescent(Exec(s, run)) {
      RestIsComplete(workers, Exec(s, run));
    }
  }

  /** One step on the way there: the work left shrinks and stays a natural number. */
  lemma InvoluntaryStep(workers: nat, s: State, step: Step)
    requires Reachable(workers, s) && Size(s) >= 1 && Enabled(s, step) && !Voluntary(step)
    ensures Reachable(workers, Apply(s, step)) && Size(Apply(s, step)) == Size(s)
    ensures 0 <= Work(Apply(s, step)) < Work(s)
  {
    ReachableInv(workers, s);
    StepInv(s, step);
    StepWorks(s, step);
    Extend(workers, s, step, Apply(s, step));
    WorkNonnegative(Apply(s, step));
  }

  lemma Prepend(s: State, step: Step, rest: seq<Step>)
    requires Size(s) >= 1 && Enabled(s, step) && Size(Apply(s, step)) == Size(s) && Legal(Apply(s, step), rest)
    ensures Legal(s, [step] + rest) && Exec(s, [step] + rest) == Exec(Apply(s, step), rest)
  {
    assert ([step] + rest)[1..] == rest;
  }

  /** And every reachable state can be run to completion. */
  lemma {:induction false} SomeRunCompletes(workers: nat, s: State) returns (run: seq<Step>)
    requires Reachable(workers, s) && Size(s) >= 1
    ensures Legal(s, run) && NoneVoluntary(run) && AllDone(Exec(s, run))
    decreases Work(s)
  {
    if Quiescent(s) {
      run := [];
      RestIsComplete(workers, s);
    } else {
      var step :| Enabled(s, step) && !Voluntary(step);
      InvoluntaryStep(workers, s, step);
      var rest := SomeRunCompletes(workers, Apply(s, step));
      Prepend(s, step, rest);
      run := [step] + rest;
    }
  }
}
