/** What every step of the pool and of the calls sharing it keeps. */
module PoolInvariants {
  import opened Options
  import opened Sums
  import opened SquareSum
  import opened PoolModel

  // ---------- Weights ----------

  /** 1 on the job of future `i` of call `c`. */
  ghost function IsJob(c: nat, i: nat): Job -> int {
    (job: Job) => if job.call == c && job.idx == i then 1 else 0
  }

  /** 1 on a worker that has popped the job of future `i` of call `c` and not fulfilled it. */
  ghost function Holds(c: nat, i: nat): Worker -> int {
    (worker: Worker) => if Working(worker) && worker.job.call == c && worker.job.idx == i then 1 else 0
  }

  /** What a queued job of call `c` has still to add to that call's accumulator. */
  ghost function QueuedSquares(c: nat, items: seq<real>): Job -> real {
    (job: Job) => if job.call == c then SumSquares(items, job.start, job.end) else 0.0
  }

  /** What a worker has still to add to the accumulator of call `c`. */
  ghost function PendingSquares(c: nat, items: seq<real>): Worker -> real {
    (worker: Worker) =>
      if !Working(worker) || worker.job.call != c then 0.0
      else match worker
        case Running(job, pos, partial) => partial + SumSquares(items, pos, job.end)
        case Merging(_, partial) => partial
        case Storing(_, partial, _) => partial
        case _ => 0.0
  }

  ghost function IsNotifying(): Call -> int {
    (call: Call) => if call.pc.Notifying? then 1 else 0
  }

  ghost function IsAwake(): Worker -> int {
    (worker: Worker) => if worker.Woken? || worker.Checking? then 1 else 0
  }

  // ---------- The invariant ----------

  /** The recorded owner of the pool mutex is exactly the thread inside a critical section. */
  ghost predicate MutexOk(s: State) {
    && (forall w: nat :: w < |s.workers| ==> (s.workers[w].Checking? <==> s.mutex == Some(PoolWorker(w))))
    && (forall c: nat :: c < |s.calls| ==> (s.calls[c].pc.Holding? <==> s.mutex == Some(Caller(c))))
    && (s.dtor.DtorHolding? <==> s.mutex == Some(Owner))
    && (s.mutex.Some? && s.mutex.value.PoolWorker? ==> s.mutex.value.w < |s.workers|)
    && (s.mutex.Some? && s.mutex.value.Caller? ==> s.mutex.value.c < |s.calls|)
  }

  ghost predicate JobOk(s: State, job: Job)
    requires Size(s) >= 1
  {
    job.call < |s.calls| && job.idx < s.calls[job.call].submitted && job == JobFor(s, job.call, job.idx)
  }

  ghost predicate JobsOk(s: State)
    requires Size(s) >= 1
  {
    && (forall i :: 0 <= i < |s.accepted| ==> JobOk(s, s.accepted[i]))
    && (forall i :: 0 <= i < |s.tasks| ==> JobOk(s, s.tasks[i]))
    && (forall w :: 0 <= w < |s.workers| && Working(s.workers[w]) ==> JobOk(s, s.workers[w].job))
    && (forall w :: 0 <= w < |s.workers| && s.workers[w].Running? ==>
          s.workers[w].job.start <= s.workers[w].pos <= s.workers[w].job.end)
  }

  /** A worker inside the accumulator's locked block is its recorded owner, and has read its value. */
  ghost predicate OwnerRecorded(s: State, w: nat)
    requires IsWorker(s, w)
  {
    var worker := s.workers[w];
    OwnsAcc(worker) ==>
      && worker.job.call < |s.calls|
      && s.calls[worker.job.call].accOwner == Some(w)
      && (worker.Storing? ==> worker.loaded == s.calls[worker.job.call].acc)
  }

  /** The recorded owner of a call's accumulator mutex is inside that call's locked block. */
  ghost predicate RecordOwns(s: State, c: nat)
    requires IsCall(s, c)
  {
    var owner := s.calls[c].accOwner;
    owner.Some? ==>
      owner.value < |s.workers| && OwnsAcc(s.workers[owner.value]) && s.workers[owner.value].job.call == c
  }

  /** Each accumulator mutex has one owner, and what that owner has read is still current. */
  ghost predicate AccOk(s: State) {
    && (forall w: nat :: w < |s.workers| ==> OwnerRecorded(s, w))
    && (forall c: nat :: c < |s.calls| ==> RecordOwns(s, c))
  }

  ghost predicate CallOk(call: Call, workers: nat)
    requires workers >= 1
  {
    var count := ChunkCount(|call.items|, workers);
    && call.submitted <= count
    && (forall i :: i in call.ready ==> i < call.submitted)
    && match call.pc
       case Submitting(w) => call.submitted == w
       case Holding(w) => call.submitted == w < count
       case Notifying(w) => call.submitted == w + 1
       case Waiting(k) => k <= call.submitted == count && forall i: nat :: i < k ==> i in call.ready
       case Returned(_) => call.submitted == count && forall i: nat :: i < count ==> i in call.ready
       case Threw => call.submitted < count
  }

  ghost predicate CallsOk(s: State)
    requires Size(s) >= 1
  {
    forall c: nat :: c < |s.calls| ==> CallOk(s.calls[c], Size(s))
  }

  /** A submitted job whose future is not ready is in exactly one place; any other is nowhere. */
  ghost predicate LiveOk(s: State, c: nat, i: nat)
    requires IsCall(s, c)
  {
    Sum(s.tasks, IsJob(c, i)) + Sum(s.workers, Holds(c, i))
    == if i < s.calls[c].submitted && i !in s.calls[c].ready then 1 else 0
  }

  /** Accumulated, in workers' hands, queued and not yet submitted: always the whole sum. */
  ghost predicate ConservedOk(s: State, c: nat)
    requires Size(s) >= 1 && IsCall(s, c)
  {
    var call := s.calls[c];
    var n := |call.items|;
    call.acc + Total(s.workers, PendingSquares(c, call.items)) + Total(s.tasks, QueuedSquares(c, call.items))
    + SumSquares(call.items, ChunkLo(n, Size(s), call.submitted), n)
    == SumSquares(call.items, 0, n)
  }

  ghost predicate ResultOk(s: State, c: nat)
    requires IsCall(s, c)
  {
    var call := s.calls[c];
    call.pc.Returned? ==> call.pc.value == SumSquares(call.items, 0, |call.items|)
  }

  /** Jobs leave the queue in the order they entered it. */
  ghost predicate FifoOk(s: State) {
    s.accepted == s.taken + s.tasks
  }

  /** Each submitted future has been accepted by the queue once. */
  ghost predicate AcceptedOk(s: State, c: nat, i: nat)
    requires IsCall(s, c)
  {
    Sum(s.accepted, IsJob(c, i)) == if i < s.calls[c].submitted then 1 else 0
  }

  /** The ranges of the jobs that call `c` has had accepted, in order. */
  ghost function RangesOf(accepted: seq<Job>, c: nat): seq<Range> {
    if accepted == [] then []
    else
      var last := accepted[|accepted| - 1];
      RangesOf(accepted[..|accepted| - 1], c) + if last.call == c then [Range(last.start, last.end)] else []
  }

  /** A call has submitted the first chunks of its items, in order. */
  ghost predicate RangesOk(s: State, c: nat)
    requires Size(s) >= 1 && IsCall(s, c)
  {
    var ranges := ChunkRanges(|s.calls[c].items|, Size(s));
    s.calls[c].submitted <= |ranges| && RangesOf(s.accepted, c) == ranges[..s.calls[c].submitted]
  }

  ghost predicate SomeAsleep(s: State) {
    exists w :: 0 <= w < |s.workers| && s.workers[w].Asleep?
  }

  /** No lost wakeup: while a worker sleeps, every queued job has a wakeup on its way. */
  ghost predicate WakeOk(s: State) {
    SomeAsleep(s) ==> |s.tasks| <= Sum(s.calls, IsNotifying()) + Sum(s.workers, IsAwake())
  }

  ghost predicate StopOk(s: State) {
    && (s.stop <==> !s.dtor.Alive? && !s.dtor.DtorHolding?)
    && (forall w :: 0 <= w < |s.workers| && s.workers[w].Exited? ==> s.stop && s.tasks == [])
    && (forall c :: 0 <= c < |s.calls| && s.calls[c].pc.Threw? ==> s.stop)
    && (s.dtor.Joining? || s.dtor.Destroyed? ==> !SomeAsleep(s))
    && (s.dtor.Joining? ==> s.dtor.i <= |s.workers|)
    && (forall w :: 0 <= w < |s.workers| && (s.dtor.Destroyed? || (s.dtor.Joining? && w < s.dtor.i)) ==>
          s.workers[w].Exited?)
  }

  /** The parts that are not about one future or one call's sum. */
  ghost predicate Control(s: State) {
    && Size(s) >= 1
    && MutexOk(s) && JobsOk(s) && AccOk(s) && CallsOk(s) && FifoOk(s) && WakeOk(s) && StopOk(s)
  }

  ghost predicate Inv(s: State) {
    && Control(s)
    && (forall c: nat, i: nat :: c < |s.calls| ==> LiveOk(s, c, i))
    && (forall c: nat, i: nat :: c < |s.calls| ==> AcceptedOk(s, c, i))
    && (forall c: nat :: c < |s.calls| ==> ConservedOk(s, c) && ResultOk(s, c) && RangesOk(s, c))
  }

  lemma InitInv(workers: nat)
    requires workers >= 1
    ensures Inv(Init(workers))
  {
  }

  // ---------- Preservation, one part at a time ----------

  /** What a worker step leaves alone. */
  lemma WorkerKeepsCalls(s: State, step: Step)
    requires WorkerEnabled(s, step)
    ensures var t := ApplyWorker(s, step);
            && t.stop == s.stop && t.dtor == s.dtor && t.accepted == s.accepted && |t.calls| == |s.calls|
            && t.workers == s.workers[step.w := t.workers[step.w]]
            && (forall c :: 0 <= c < |s.calls| ==>
                  && t.calls[c].items == s.calls[c].items && t.calls[c].pc == s.calls[c].pc
                  && t.calls[c].submitted == s.calls[c].submitted)
  {
  }

  lemma MutexCaller(s: State, step: Step)
    requires Size(s) >= 1 && MutexOk(s) && CallerEnabled(s, step)
    ensures MutexOk(ApplyCaller(s, step))
  {
  }

  lemma MutexWorker(s: State, step: Step)
    requires Size(s) >= 1 && MutexOk(s) && WorkerEnabled(s, step)
    ensures MutexOk(ApplyWorker(s, step))
  {
  }

  lemma MutexDtor(s: State, step: Step)
    requires Size(s) >= 1 && MutexOk(s) && DtorEnabled(s, step)
    ensures MutexOk(ApplyDtor(s, step))
  {
  }

  lemma JobsCaller(s: State, step: Step)
    requires Size(s) >= 1 && MutexOk(s) && JobsOk(s) && AccOk(s) && CallsOk(s) && CallerEnabled(s, step)
    ensures JobsOk(ApplyCaller(s, step))
  {
    var t := ApplyCaller(s, step);
    assert Extends(s, t);
    assert step.Push? ==> JobOk(t, JobFor(s, step.c, s.calls[step.c].pc.w));
    forall i | 0 <= i < |t.accepted|
      ensures JobOk(t, t.accepted[i])
    {
      if i < |s.accepted| {
        JobExtends(s, t, s.accepted[i]);
      }
    }
    forall i | 0 <= i < |t.tasks|
      ensures JobOk(t, t.tasks[i])
    {
      if i < |s.tasks| {
        JobExtends(s, t, s.tasks[i]);
      }
    }
    forall w | 0 <= w < |t.workers| && Working(t.workers[w])
      ensures JobOk(t, t.workers[w].job)
    {
      JobExtends(s, t, s.workers[w].job);
    }
  }

  /** The calls of `s` are still there, with the same items and no fewer submissions. */
  ghost predicate Extends(s: State, t: State) {
    && Size(s) == Size(t)
    && |s.calls| <= |t.calls|
    && (forall c :: 0 <= c < |s.calls| ==>
          s.calls[c].items == t.calls[c].items && s.calls[c].submitted <= t.calls[c].submitted)
  }

  lemma JobExtends(s: State, t: State, job: Job)
    requires Size(s) >= 1 && JobOk(s, job) && Extends(s, t)
    ensures JobOk(t, job)
  {
  }

  lemma WorkerExtends(s: State, step: Step)
    requires WorkerEnabled(s, step)
    ensures Extends(s, ApplyWorker(s, step))
  {
  }

  /** The job in the stepping worker's hands was there before or comes from the queue. */
  lemma OwnJobOk(s: State, step: Step)
    requires Size(s) >= 1 && JobsOk(s) && CallsOk(s) && WorkerEnabled(s, step)
    ensures var worker := ApplyWorker(s, step).workers[step.w];
            && (Working(worker) ==> JobOk(s, worker.job))
            && (worker.Running? ==> worker.job.start <= worker.pos <= worker.job.end)
  {
    if step.Take? {
      var job := s.tasks[0];
      assert JobOk(s, job);
      ChunkBounds(|s.calls[job.call].items|, Size(s), job.idx);
    }
  }

  lemma JobsWorker(s: State, step: Step)
    requires Size(s) >= 1 && JobsOk(s) && CallsOk(s) && WorkerEnabled(s, step)
    ensures JobsOk(ApplyWorker(s, step))
  {
    var t := ApplyWorker(s, step);
    WorkerExtends(s, step);
    WorkerKeepsCalls(s, step);
    OwnJobOk(s, step);
    assert t.tasks == if step.Take? then s.tasks[1..] else s.tasks;
    forall job | JobOk(s, job)
      ensures JobOk(t, job)
    {
      JobExtends(s, t, job);
    }
  }

  lemma JobsDtor(s: State, step: Step)
    requires Size(s) >= 1 && MutexOk(s) && JobsOk(s) && AccOk(s) && CallsOk(s) && DtorEnabled(s, step)
    ensures JobsOk(ApplyDtor(s, step))
  {
  }

  lemma AccCaller(s: State, step: Step)
    requires Size(s) >= 1 && AccOk(s) && CallerEnabled(s, step)
    ensures AccOk(ApplyCaller(s, step))
  {
    var t := ApplyCaller(s, step);
    forall w: nat | w < |t.workers|
      ensures OwnerRecorded(t, w)
    {
      assert OwnerRecorded(s, w);
    }
    forall c: nat | c < |t.calls|
      ensures RecordOwns(t, c)
    {
      assert RecordOwns(s, c);
    }
  }

  lemma OwnerRecordedWorker(s: State, step: Step, w: nat)
    requires AccOk(s) && WorkerEnabled(s, step) && IsWorker(s, w)
    ensures OwnerRecorded(ApplyWorker(s, step), w)
  {
    assert OwnerRecorded(s, w) && OwnerRecorded(s, step.w);
    if w != step.w {
      assert ApplyWorker(s, step).workers[w] == s.workers[w];
    }
  }

  lemma RecordOwnsWorker(s: State, step: Step, c: nat)
    requires AccOk(s) && WorkerEnabled(s, step) && IsCall(s, c)
    ensures RecordOwns(ApplyWorker(s, step), c)
  {
    assert OwnerRecorded(s, step.w) && RecordOwns(s, c);
  }

  lemma AccWorker(s: State, step: Step)
    requires AccOk(s) && WorkerEnabled(s, step)
    ensures AccOk(ApplyWorker(s, step))
  {
    forall w: nat | w < |s.workers|
      ensures OwnerRecorded(ApplyWorker(s, step), w)
    {
      OwnerRecordedWorker(s, step, w);
    }
    forall c: nat | c < |s.calls|
      ensures RecordOwns(ApplyWorker(s, step), c)
    {
      RecordOwnsWorker(s, step, c);
    }
  }

  lemma AccDtor(s: State, step: Step)
    requires AccOk(s) && DtorEnabled(s, step)
    ensures AccOk(ApplyDtor(s, step))
  {
    var t := ApplyDtor(s, step);
    forall w: nat | w < |t.workers|
      ensures OwnerRecorded(t, w)
    {
      assert OwnerRecorded(s, w);
    }
    forall c: nat | c < |t.calls|
      ensures RecordOwns(t, c)
    {
      assert RecordOwns(s, c);
    }
  }

  lemma OwnCallOk(s: State, step: Step)
    requires Size(s) >= 1 && CallsOk(s) && CallerEnabled(s, step)
    ensures CallOk(ApplyCaller(s, step).calls[step.c], Size(s))
  {
    var call := s.calls[step.c];
    assert CallOk(call, Size(s));
    if step.LoopEnd? || step.SubmitLock? {
      ChunkGuard(|call.items|, Size(s), call.pc.w);
    }
  }

  lemma CallsCaller(s: State, step: Step)
    requires Size(s) >= 1 && CallsOk(s) && CallerEnabled(s, step)
    ensures CallsOk(ApplyCaller(s, step))
  {
    var t := ApplyCaller(s, step);
    OwnCallOk(s, step);
    forall c: nat | c < |t.calls|
      ensures CallOk(t.calls[c], Size(t))
    {
      assert c == step.c || t.calls[c] == s.calls[c];
    }
  }

  lemma CallsWorker(s: State, step: Step)
    requires Size(s) >= 1 && MutexOk(s) && JobsOk(s) && CallsOk(s) && WorkerEnabled(s, step)
    ensures CallsOk(ApplyWorker(s, step))
  {
  }

  lemma CallsDtor(s: State, step: Step)
    requires Size(s) >= 1 && MutexOk(s) && JobsOk(s) && CallsOk(s) && DtorEnabled(s, step)
    ensures CallsOk(ApplyDtor(s, step))
  {
  }

  lemma FifoCaller(s: State, step: Step)
    requires Size(s) >= 1 && FifoOk(s) && CallerEnabled(s, step)
    ensures FifoOk(ApplyCaller(s, step))
  {
  }

  lemma FifoWorker(s: State, step: Step)
    requires Size(s) >= 1 && FifoOk(s) && WorkerEnabled(s, step)
    ensures FifoOk(ApplyWorker(s, step))
  {
  }

  lemma FifoDtor(s: State, step: Step)
    requires Size(s) >= 1 && FifoOk(s) && DtorEnabled(s, step)
    ensures FifoOk(ApplyDtor(s, step))
  {
  }

  lemma StopCaller(s: State, step: Step)
    requires Size(s) >= 1 && MutexOk(s) && StopOk(s) && CallerEnabled(s, step)
    ensures StopOk(ApplyCaller(s, step))
  {
  }

  /** A worker leaves only a stopped pool with an empty queue, and none of its steps refills it. */
  lemma ExitsAtEnd(s: State, step: Step)
    requires StopOk(s) && WorkerEnabled(s, step)
    ensures var t := ApplyWorker(s, step);
            && (s.tasks == [] ==> t.tasks == [])
            && (t.workers[step.w].Exited? ==> s.stop && t.tasks == [])
            && (t.workers[step.w].Asleep? ==> !s.stop)
            && !s.workers[step.w].Exited?
  {
  }

  lemma StopWorker(s: State, step: Step)
    requires StopOk(s) && WorkerEnabled(s, step)
    ensures StopOk(ApplyWorker(s, step))
  {
    var t := ApplyWorker(s, step);
    WorkerKeepsCalls(s, step);
    ExitsAtEnd(s, step);
    forall w | 0 <= w < |t.workers|
      ensures w == step.w || t.workers[w] == s.workers[w]
    {
    }
  }

  lemma StopDtor(s: State, step: Step)
    requires Size(s) >= 1 && MutexOk(s) && StopOk(s) && DtorEnabled(s, step)
    ensures StopOk(ApplyDtor(s, step))
  {
  }

  // ---------- Every submitted job is in exactly one place ----------

  lemma LiveCaller(s: State, step: Step, c: nat, i: nat)
    requires Size(s) >= 1 && CallsOk(s) && CallerEnabled(s, step)
    requires IsCall(s, c) && LiveOk(s, c, i) && AcceptedOk(s, c, i)
    ensures LiveOk(ApplyCaller(s, step), c, i) && AcceptedOk(ApplyCaller(s, step), c, i)
  {
    match step
    case Push(d) =>
      var job := JobFor(s, d, s.calls[d].pc.w);
      SumAppend(s.tasks, job, IsJob(c, i));
      SumAppend(s.accepted, job, IsJob(c, i));
    case Notify(_, target) =>
      if target.Some? {
        SumUpdate(s.workers, target.value, Woken, Holds(c, i));
      }
    case _ =>
  }

  lemma LiveTake(s: State, w: nat, c: nat, i: nat)
    requires WorkerEnabled(s, Take(w)) && IsCall(s, c) && LiveOk(s, c, i)
    ensures LiveOk(ApplyWorker(s, Take(w)), c, i)
  {
    SumUpdate(s.workers, w, ApplyWorker(s, Take(w)).workers[w], Holds(c, i));
  }

  lemma LiveComplete(s: State, w: nat, c: nat, i: nat)
    requires WorkerEnabled(s, Complete(w)) && IsCall(s, c) && LiveOk(s, c, i)
    ensures LiveOk(ApplyWorker(s, Complete(w)), c, i)
  {
    SumUpdate(s.workers, w, Locking, Holds(c, i));
    SumAtLeast(s.workers, Holds(c, i), w);
    SumNonnegative(s.tasks, IsJob(c, i));
  }

  lemma LiveOther(s: State, step: Step, c: nat, i: nat)
    requires WorkerEnabled(s, step) && !step.Take? && !step.Complete? && IsCall(s, c) && LiveOk(s, c, i)
    ensures LiveOk(ApplyWorker(s, step), c, i)
  {
    var t := ApplyWorker(s, step);
    assert t.workers == s.workers[step.w := t.workers[step.w]] && t.tasks == s.tasks;
    SumUpdate(s.workers, step.w, t.workers[step.w], Holds(c, i));
  }

  lemma LiveWorker(s: State, step: Step, c: nat, i: nat)
    requires WorkerEnabled(s, step) && IsCall(s, c) && LiveOk(s, c, i) && AcceptedOk(s, c, i)
    ensures LiveOk(ApplyWorker(s, step), c, i) && AcceptedOk(ApplyWorker(s, step), c, i)
  {
    if step.Take? {
      LiveTake(s, step.w, c, i);
    } else if step.Complete? {
      LiveComplete(s, step.w, c, i);
    } else {
      LiveOther(s, step, c, i);
    }
  }

  lemma LiveDtor(s: State, step: Step, c: nat, i: nat)
    requires DtorEnabled(s, step)
    requires IsCall(s, c) && LiveOk(s, c, i) && AcceptedOk(s, c, i)
    ensures LiveOk(ApplyDtor(s, step), c, i) && AcceptedOk(ApplyDtor(s, step), c, i)
  {
    SumPointwise(s.workers, ApplyDtor(s, step).workers, Holds(c, i));
  }

  // ---------- Nothing of a sum is lost or counted twice ----------

  lemma ConservedPush(s: State, d: nat, c: nat)
    requires Size(s) >= 1 && CallsOk(s) && CallerEnabled(s, Push(d))
    requires IsCall(s, c) && ConservedOk(s, c)
    ensures ConservedOk(ApplyCaller(s, Push(d)), c)
  {
    var items := s.calls[c].items;
    var job := JobFor(s, d, s.calls[d].pc.w);
    assert CallOk(s.calls[d], Size(s));
    TotalAppend(s.tasks, job, QueuedSquares(c, items));
    if c == d {
      ChunkSumStep(items, Size(s), s.calls[d].pc.w);
    }
  }

  lemma ConservedCaller(s: State, step: Step, c: nat)
    requires Size(s) >= 1 && CallsOk(s) && CallerEnabled(s, step)
    requires IsCall(s, c) && ConservedOk(s, c)
    ensures ConservedOk(ApplyCaller(s, step), c)
  {
    if step.Push? {
      ConservedPush(s, step.c, c);
    } else {
      var t := ApplyCaller(s, step);
      assert t.calls[c].(pc := s.calls[c].pc) == s.calls[c] && t.tasks == s.tasks;
      if step.Notify? && step.target.Some? {
        TotalUpdate(s.workers, step.target.value, Woken, PendingSquares(c, s.calls[c].items));
      } else {
        assert t.workers == s.workers;
      }
    }
  }

  /** Popping a job moves its squares from the queue into the worker's hands. */
  lemma TakeMovesSquares(s: State, w: nat, c: nat)
    requires WorkerEnabled(s, Take(w)) && IsCall(s, c)
    ensures var t := ApplyWorker(s, Take(w));
            var items := s.calls[c].items;
            var p, q := PendingSquares(c, items), QueuedSquares(c, items);
            && t.calls == s.calls && p(s.workers[w]) == 0.0
            && p(t.workers[w]) + Total(t.tasks, q) == Total(s.tasks, q)
  {
    assert !Working(s.workers[w]);
  }

  /** One turn of the summation loop moves one square into the partial sum. */
  lemma SquareMovesSquare(s: State, w: nat, c: nat)
    requires WorkerEnabled(s, Square(w)) && IsCall(s, c)
    ensures var t := ApplyWorker(s, Square(w));
            var p := PendingSquares(c, s.calls[c].items);
            t.tasks == s.tasks && t.calls == s.calls && p(t.workers[w]) == p(s.workers[w])
  {
  }

  /** The store: what leaves the worker's hands arrives in the accumulator. */
  lemma StoreMovesSquares(s: State, w: nat, c: nat)
    requires WorkerEnabled(s, AccStore(w)) && AccOk(s) && IsCall(s, c)
    ensures var t := ApplyWorker(s, AccStore(w));
            var p := PendingSquares(c, s.calls[c].items);
            && t.tasks == s.tasks
            && t.calls[c].acc + p(t.workers[w]) == s.calls[c].acc + p(s.workers[w])
  {
    assert OwnerRecorded(s, w);
  }

  /** Any other step leaves both as they are. */
  lemma OtherMovesNothing(s: State, step: Step, c: nat)
    requires WorkerEnabled(s, step) && !step.Take? && !step.Square? && !step.AccStore? && IsCall(s, c)
    ensures var t := ApplyWorker(s, step);
            var p := PendingSquares(c, s.calls[c].items);
            t.tasks == s.tasks && t.calls[c].acc == s.calls[c].acc && p(t.workers[step.w]) == p(s.workers[step.w])
  {
  }

  lemma ConservedWorker(s: State, step: Step, c: nat)
    requires Size(s) >= 1 && WorkerEnabled(s, step) && AccOk(s)
    requires IsCall(s, c) && ConservedOk(s, c)
    ensures ConservedOk(ApplyWorker(s, step), c)
  {
    var t := ApplyWorker(s, step);
    var items := s.calls[c].items;
    if step.Take? {
      TakeMovesSquares(s, step.w, c);
    } else if step.Square? {
      SquareMovesSquare(s, step.w, c);
    } else if step.AccStore? {
      StoreMovesSquares(s, step.w, c);
    } else {
      OtherMovesNothing(s, step, c);
    }
    assert t.workers == s.workers[step.w := t.workers[step.w]];
    TotalUpdate(s.workers, step.w, t.workers[step.w], PendingSquares(c, items));
    assert t.calls[c].items == items && t.calls[c].submitted == s.calls[c].submitted;
  }

  lemma ConservedDtor(s: State, step: Step, c: nat)
    requires Size(s) >= 1 && DtorEnabled(s, step)
    requires IsCall(s, c) && ConservedOk(s, c)
    ensures ConservedOk(ApplyDtor(s, step), c)
  {
    TotalPointwise(s.workers, ApplyDtor(s, step).workers, PendingSquares(c, s.calls[c].items));
  }

  /** When every future of a call is ready, no queued or popped job belongs to it. */
  lemma AllReadyNoJobs(s: State, c: nat)
    requires Size(s) >= 1 && IsCall(s, c) && JobsOk(s)
    requires forall i: nat :: LiveOk(s, c, i)
    requires forall i: nat :: i < s.calls[c].submitted ==> i in s.calls[c].ready
    ensures forall k :: 0 <= k < |s.tasks| ==> s.tasks[k].call != c
    ensures forall w :: 0 <= w < |s.workers| && Working(s.workers[w]) ==> s.workers[w].job.call != c
  {
    forall k | 0 <= k < |s.tasks|
      ensures s.tasks[k].call != c
    {
      if s.tasks[k].call == c {
        var i := s.tasks[k].idx;
        assert JobOk(s, s.tasks[k]) && LiveOk(s, c, i);
        SumAtLeast(s.tasks, IsJob(c, i), k);
        SumNonnegative(s.workers, Holds(c, i));
      }
    }
    forall w | 0 <= w < |s.workers| && Working(s.workers[w])
      ensures s.workers[w].job.call != c
    {
      if s.workers[w].job.call == c {
        var i := s.workers[w].job.idx;
        assert JobOk(s, s.workers[w].job) && LiveOk(s, c, i);
        SumAtLeast(s.workers, Holds(c, i), w);
        SumNonnegative(s.tasks, IsJob(c, i));
      }
    }
  }

  /** All futures ready: the accumulator holds the whole sum. */
  lemma AllReadySum(s: State, c: nat)
    requires Size(s) >= 1 && IsCall(s, c) && JobsOk(s) && ConservedOk(s, c)
    requires forall i: nat :: LiveOk(s, c, i)
    requires s.calls[c].submitted == ChunkCount(|s.calls[c].items|, Size(s))
    requires forall i: nat :: i < s.calls[c].submitted ==> i in s.calls[c].ready
    ensures s.calls[c].acc == SumSquares(s.calls[c].items, 0, |s.calls[c].items|)
  {
    var items := s.calls[c].items;
    AllReadyNoJobs(s, c);
    TotalZero(s.tasks, QueuedSquares(c, items));
    TotalZero(s.workers, PendingSquares(c, items));
    ChunkGuard(|items|, Size(s), s.calls[c].submitted);
  }

  lemma ResultCaller(s: State, step: Step, c: nat)
    requires Inv(s) && CallerEnabled(s, step) && IsCall(s, c)
    ensures ResultOk(ApplyCaller(s, step), c)
  {
    assert ConservedOk(s, c) && ResultOk(s, c);
    if step.Return? && step.c == c {
      assert CallOk(s.calls[c], Size(s));
      AllReadySum(s, c);
    }
  }

  lemma RangesCaller(s: State, step: Step, c: nat)
    requires Size(s) >= 1 && CallsOk(s) && CallerEnabled(s, step)
    requires IsCall(s, c) && RangesOk(s, c)
    ensures RangesOk(ApplyCaller(s, step), c)
  {
    var t := ApplyCaller(s, step);
    assert t.calls[c].items == s.calls[c].items;
    if step.Push? {
      var job := JobFor(s, step.c, s.calls[step.c].pc.w);
      assert CallOk(s.calls[step.c], Size(s));
      assert t.accepted[..|t.accepted| - 1] == s.accepted;
      if step.c != c {
        assert RangesOf(s.accepted, c) + [] == RangesOf(s.accepted, c);
      }
    }
  }

  lemma {:induction false} NoRanges(accepted: seq<Job>, c: nat)
    requires forall i :: 0 <= i < |accepted| ==> accepted[i].call != c
    ensures RangesOf(accepted, c) == []
    decreases |accepted|
  {
    if accepted != [] {
      NoRanges(accepted[..|accepted| - 1], c);
    }
  }

  // ---------- No lost wakeup ----------

  lemma WakeCaller(s: State, step: Step)
    requires Size(s) >= 1 && WakeOk(s) && CallerEnabled(s, step)
    ensures WakeOk(ApplyCaller(s, step))
  {
    var t := ApplyCaller(s, step);
    SumUpdate(s.calls, step.c, t.calls[step.c], IsNotifying());
    if step.Notify? && step.target.Some? {
      SumUpdate(s.workers, step.target.value, Woken, IsAwake());
    }
    if SomeAsleep(t) {
      var w :| 0 <= w < |t.workers| && t.workers[w].Asleep?;
      assert s.workers[w].Asleep?;
    }
  }

  lemma WakeWorker(s: State, step: Step)
    requires WakeOk(s) && WorkerEnabled(s, step)
    ensures WakeOk(ApplyWorker(s, step))
  {
    var t := ApplyWorker(s, step);
    WorkerKeepsCalls(s, step);
    SumUpdate(s.workers, step.w, t.workers[step.w], IsAwake());
    SumPointwise(s.calls, t.calls, IsNotifying());
    SumNonnegative(t.calls, IsNotifying());
    SumNonnegative(t.workers, IsAwake());
    if SomeAsleep(t) && !step.Sleep? {
      var w :| 0 <= w < |t.workers| && t.workers[w].Asleep?;
      assert s.workers[w].Asleep?;
    }
  }

  lemma WakeDtor(s: State, step: Step)
    requires WakeOk(s) && DtorEnabled(s, step)
    ensures WakeOk(ApplyDtor(s, step))
  {
  }

  // ---------- A new call ----------

  lemma BeginWake(s: State, items: seq<real>)
    requires Size(s) >= 1 && WakeOk(s)
    ensures WakeOk(Apply(s, Begin(items)))
  {
    var t := Apply(s, Begin(items));
    SumAppend(s.calls, NewCall(items), IsNotifying());
    assert SomeAsleep(t) ==> SomeAsleep(s);
  }

  lemma BeginCalls(s: State, items: seq<real>)
    requires Size(s) >= 1 && CallsOk(s)
    ensures CallsOk(Apply(s, Begin(items)))
  {
    ChunkGuard(|items|, Size(s), 0);
  }

  lemma BeginAcc(s: State, items: seq<real>)
    requires Size(s) >= 1 && AccOk(s)
    ensures AccOk(Apply(s, Begin(items)))
  {
    var t := Apply(s, Begin(items));
    forall w: nat | w < |t.workers|
      ensures OwnerRecorded(t, w)
    {
      assert OwnerRecorded(s, w);
    }
    forall c: nat | c < |t.calls|
      ensures RecordOwns(t, c)
    {
      assert c < |s.calls| ==> RecordOwns(s, c);
    }
  }

  lemma BeginJobs(s: State, items: seq<real>)
    requires Size(s) >= 1 && JobsOk(s)
    ensures JobsOk(Apply(s, Begin(items)))
  {
    var t := Apply(s, Begin(items));
    assert Extends(s, t);
    forall job | JobOk(s, job)
      ensures JobOk(t, job)
    {
      JobExtends(s, t, job);
    }
  }

  lemma BeginControl(s: State, items: seq<real>)
    requires Control(s)
    ensures Control(Apply(s, Begin(items)))
  {
    BeginWake(s, items);
    BeginCalls(s, items);
    BeginAcc(s, items);
    BeginJobs(s, items);
  }

  /** No job refers to a call that has not begun. */
  lemma NewCallSums(s: State, items: seq<real>, i: nat)
    requires Size(s) >= 1 && JobsOk(s)
    ensures var t := Apply(s, Begin(items));
            && LiveOk(t, |s.calls|, i) && AcceptedOk(t, |s.calls|, i)
            && ConservedOk(t, |s.calls|) && RangesOk(t, |s.calls|)
  {
    var d := |s.calls|;
    SumZero(s.tasks, IsJob(d, i));
    SumZero(s.workers, Holds(d, i));
    SumZero(s.accepted, IsJob(d, i));
    TotalZero(s.tasks, QueuedSquares(d, items));
    TotalZero(s.workers, PendingSquares(d, items));
    NoRanges(s.accepted, d);
  }

  /** The sums of the calls already there do not change. */
  lemma OldCallSums(s: State, items: seq<real>, c: nat, i: nat)
    requires Size(s) >= 1 && IsCall(s, c)
    requires LiveOk(s, c, i) && AcceptedOk(s, c, i) && ConservedOk(s, c) && ResultOk(s, c) && RangesOk(s, c)
    ensures var t := Apply(s, Begin(items));
            && LiveOk(t, c, i) && AcceptedOk(t, c, i)
            && ConservedOk(t, c) && ResultOk(t, c) && RangesOk(t, c)
  {
  }

  lemma BeginSums(s: State, items: seq<real>, c: nat, i: nat)
    requires Inv(s) && c <= |s.calls|
    ensures var t := Apply(s, Begin(items));
            && LiveOk(t, c, i) && AcceptedOk(t, c, i)
            && ConservedOk(t, c) && ResultOk(t, c) && RangesOk(t, c)
  {
    if c < |s.calls| {
      assert LiveOk(s, c, i) && AcceptedOk(s, c, i) && ConservedOk(s, c) && ResultOk(s, c) && RangesOk(s, c);
      OldCallSums(s, items, c, i);
    } else {
      NewCallSums(s, items, i);
    }
  }

  lemma BeginInv(s: State, items: seq<real>)
    requires Inv(s)
    ensures Inv(Apply(s, Begin(items)))
  {
    var t := Apply(s, Begin(items));
    BeginControl(s, items);
    forall c: nat, i: nat | c < |t.calls|
      ensures LiveOk(t, c, i) && AcceptedOk(t, c, i)
    {
      BeginSums(s, items, c, i);
    }
    forall c: nat | c < |t.calls|
      ensures ConservedOk(t, c) && ResultOk(t, c) && RangesOk(t, c)
    {
      BeginSums(s, items, c, 0);
    }
  }

  // ---------- The invariant is inductive ----------

  lemma CallerControl(s: State, step: Step)
    requires Control(s) && CallerEnabled(s, step)
    ensures Control(ApplyCaller(s, step))
  {
    MutexCaller(s, step);
    JobsCaller(s, step);
    AccCaller(s, step);
    CallsCaller(s, step);
    FifoCaller(s, step);
    WakeCaller(s, step);
    StopCaller(s, step);
  }

  lemma CallerJobSums(s: State, step: Step, c: nat, i: nat)
    requires Inv(s) && CallerEnabled(s, step) && IsCall(s, c)
    ensures var t := ApplyCaller(s, step);
            |t.calls| == |s.calls| && LiveOk(t, c, i) && AcceptedOk(t, c, i)
  {
    assert LiveOk(s, c, i) && AcceptedOk(s, c, i);
    LiveCaller(s, step, c, i);
  }

  lemma CallerKeepsCalls(s: State, step: Step)
    requires Size(s) >= 1 && CallerEnabled(s, step)
    ensures Size(ApplyCaller(s, step)) == Size(s) && |ApplyCaller(s, step).calls| == |s.calls|
  {
  }

  lemma CallerInv(s: State, step: Step)
    requires Inv(s) && CallerEnabled(s, step)
    ensures Inv(ApplyCaller(s, step))
  {
    var t := ApplyCaller(s, step);
    CallerControl(s, step);
    CallerKeepsCalls(s, step);
    forall c: nat, i: nat | c < |t.calls|
      ensures LiveOk(t, c, i) && AcceptedOk(t, c, i)
    {
      CallerJobSums(s, step, c, i);
    }
    forall c: nat | c < |t.calls|
      ensures ConservedOk(t, c) && ResultOk(t, c) && RangesOk(t, c)
    {
      assert ConservedOk(s, c) && ResultOk(s, c) && RangesOk(s, c);
      ConservedCaller(s, step, c);
      RangesCaller(s, step, c);
      ResultCaller(s, step, c);
    }
  }

  lemma WorkerControl(s: State, step: Step)
    requires Control(s) && WorkerEnabled(s, step)
    ensures Control(ApplyWorker(s, step))
  {
    MutexWorker(s, step);
    JobsWorker(s, step);
    AccWorker(s, step);
    CallsWorker(s, step);
    FifoWorker(s, step);
    WakeWorker(s, step);
    StopWorker(s, step);
  }

  lemma WorkerKeepsResults(s: State, step: Step, c: nat)
    requires Size(s) >= 1 && WorkerEnabled(s, step) && IsCall(s, c) && ResultOk(s, c) && RangesOk(s, c)
    ensures ResultOk(ApplyWorker(s, step), c) && RangesOk(ApplyWorker(s, step), c)
  {
    WorkerKeepsCalls(s, step);
  }

  lemma WorkerSums(s: State, step: Step, c: nat, i: nat)
    requires Inv(s) && WorkerEnabled(s, step) && IsCall(s, c)
    ensures var t := ApplyWorker(s, step);
            && |t.calls| == |s.calls|
            && LiveOk(t, c, i) && AcceptedOk(t, c, i)
            && ConservedOk(t, c) && ResultOk(t, c) && RangesOk(t, c)
  {
    assert LiveOk(s, c, i) && AcceptedOk(s, c, i) && ConservedOk(s, c) && ResultOk(s, c) && RangesOk(s, c);
    LiveWorker(s, step, c, i);
    ConservedWorker(s, step, c);
    WorkerKeepsResults(s, step, c);
  }

  lemma WorkerInv(s: State, step: Step)
    requires Inv(s) && WorkerEnabled(s, step)
    ensures Inv(ApplyWorker(s, step))
  {
    var t := ApplyWorker(s, step);
    WorkerControl(s, step);
    assert |t.calls| == |s.calls|;
    forall c: nat, i: nat | c < |t.calls|
      ensures LiveOk(t, c, i) && AcceptedOk(t, c, i)
    {
      WorkerSums(s, step, c, i);
    }
    forall c: nat | c < |t.calls|
      ensures ConservedOk(t, c) && ResultOk(t, c) && RangesOk(t, c)
    {
      WorkerSums(s, step, c, 0);
    }
  }

  lemma DtorControl(s: State, step: Step)
    requires Control(s) && DtorEnabled(s, step)
    ensures Control(ApplyDtor(s, step))
  {
    MutexDtor(s, step);
    JobsDtor(s, step);
    AccDtor(s, step);
    CallsDtor(s, step);
    FifoDtor(s, step);
    WakeDtor(s, step);
    StopDtor(s, step);
  }

  lemma DtorSums(s: State, step: Step, c: nat, i: nat)
    requires Inv(s) && DtorEnabled(s, step) && IsCall(s, c)
    ensures var t := ApplyDtor(s, step);
            && |t.calls| == |s.calls|
            && LiveOk(t, c, i) && AcceptedOk(t, c, i)
            && ConservedOk(t, c) && ResultOk(t, c) && RangesOk(t, c)
  {
    assert LiveOk(s, c, i) && AcceptedOk(s, c, i) && ConservedOk(s, c) && ResultOk(s, c) && RangesOk(s, c);
    LiveDtor(s, step, c, i);
    ConservedDtor(s, step, c);
  }

  lemma DtorInv(s: State, step: Step)
    requires Inv(s) && DtorEnabled(s, step)
    ensures Inv(ApplyDtor(s, step))
  {
    var t := ApplyDtor(s, step);
    DtorControl(s, step);
    assert |t.calls| == |s.calls|;
    forall c: nat, i: nat | c < |t.calls|
      ensures LiveOk(t, c, i) && AcceptedOk(t, c, i)
    {
      DtorSums(s, step, c, i);
    }
    forall c: nat | c < |t.calls|
      ensures ConservedOk(t, c) && ResultOk(t, c) && RangesOk(t, c)
    {
      DtorSums(s, step, c, 0);
    }
  }

  lemma StepInv(s: State, step: Step)
    requires Inv(s) && Enabled(s, step)
    ensures Inv(Apply(s, step))
  {
    if step.Begin? {
      BeginInv(s, step.items);
    } else if CallerEnabled(s, step) {
      CallerInv(s, step);
    } else if WorkerEnabled(s, step) {
      WorkerInv(s, step);
    } else {
      DtorInv(s, step);
    }
  }

  lemma {:induction false} RunInv(s: State, run: seq<Step>)
    requires Inv(s) && Legal(s, run)
    ensures Inv(Exec(s, run))
    decreases |run|
  {
    if run != [] {
      StepInv(s, run[0]);
      RunInv(Apply(s, run[0]), run[1..]);
    }
  }

  /** The invariant holds in every state any run reaches. */
  lemma ReachableInv(workers: nat, s: State)
    requires Reachable(workers, s)
    ensures Inv(s) && Size(s) == workers
  {
    var run :| Legal(Init(workers), run) && Exec(Init(workers), run) == s;
    InitInv(workers);
    RunInv(Init(workers), run);
  }
}
