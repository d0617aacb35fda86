/**
 The thread pool and the square-sum calls that share it, as a transition system.

 Any number of workers and any number of calls interleave arbitrarily. The pool mutex and
 each call's accumulator mutex have explicit owners; whatever runs between taking the pool
 mutex and giving it back is one step, because nobody else can be inside. A wait on the
 condition variable releases the mutex and blocks in one step, `notify_one` moves one blocked
 worker (if there is one) to `Woken`, and a blocked worker may also wake up spuriously.
 */
module PoolModel {
  import opened Options
  import opened SquareSum

  /** A submitted closure: which call it belongs to, which future it fulfils, what it captured. */
  datatype Job = Job(call: nat, idx: nat, start: nat, end: nat)

  datatype Worker =
    | Locking                                            // wants the pool mutex, at the top of the loop
    | Checking                                           // owns the pool mutex, evaluates the wait predicate
    | Asleep                                             // blocked in the condition variable
    | Woken                                              // notified or woken spuriously, wants the mutex back
    | Running(job: Job, pos: nat, partial: real)         // in the summation loop
    | Merging(job: Job, partial: real)                   // owns the accumulator mutex, has not read it yet
    | Storing(job: Job, partial: real, loaded: real)     // has read the accumulator, has not written it yet
    | Unlocking(job: Job)                                // has written, still owns the accumulator mutex
    | Completing(job: Job)                               // released it, the future is not ready yet
    | Exited

  datatype CallPc =
    | Submitting(w: nat)      // at the head of iteration w of the submission loop
    | Holding(w: nat)         // owns the pool mutex inside Submit
    | Notifying(w: nat)       // released it, has not notified yet
    | Waiting(k: nat)         // in get() on future k, or past the last future
    | Returned(value: real)
    | Threw                   // Submit found the pool stopped

  /** One activation of the square-sum function with its locals. */
  datatype Call = Call(items: seq<real>, pc: CallPc, submitted: nat, ready: set<nat>,
                       acc: real, accOwner: Option<nat>)

  datatype Thread = PoolWorker(w: nat) | Caller(c: nat) | Owner

  /** The destructor. */
  datatype DtorPc = Alive | DtorHolding | DtorNotifying | Joining(i: nat) | Destroyed

  /** `accepted` and `taken` record every job in the order of its push and of its pop. */
  datatype State = State(workers: seq<Worker>, tasks: seq<Job>, stop: bool, mutex: Option<Thread>,
                         calls: seq<Call>, dtor: DtorPc, accepted: seq<Job>, taken: seq<Job>)

  datatype Step =
    | Begin(items: seq<real>)
    | LoopEnd(c: nat)
    | SubmitLock(c: nat)
    | Push(c: nat)
    | Reject(c: nat)
    | Notify(c: nat, target: Option<nat>)
    | Await(c: nat)
    | Return(c: nat)
    | WorkerLock(w: nat)
    | Sleep(w: nat)
    | Exit(w: nat)
    | Take(w: nat)
    | Square(w: nat)
    | AccLock(w: nat)
    | AccLoad(w: nat)
    | AccStore(w: nat)
    | AccUnlock(w: nat)
    | Complete(w: nat)
    | Spurious(w: nat)
    | DtorLock
    | DtorStop
    | DtorNotify
    | DtorJoin

  // ---------- What the two critical sections decide ----------

  datatype Decision = Block | Leave | Run(job: Job)

  /** The worker's locked block: wait predicate, exit test, pop. */
  function Decide(tasks: seq<Job>, stop: bool): Decision {
    if !stop && tasks == [] then Block
    else if stop && tasks == [] then Leave
    else Run(tasks[0])
  }

  // ---------- Reading a state ----------

  predicate Working(worker: Worker) {
    worker.Running? || worker.Merging? || worker.Storing? || worker.Unlocking? || worker.Completing?
  }

  predicate OwnsAcc(worker: Worker) {
    worker.Merging? || worker.Storing? || worker.Unlocking?
  }

  predicate IsCall(s: State, c: nat) {
    c < |s.calls|
  }

  predicate IsWorker(s: State, w: nat) {
    w < |s.workers|
  }

  function Size(s: State): nat {
    |s.workers|
  }

  /** The job of iteration `w` of call `c`. */
  function JobFor(s: State, c: nat, w: nat): Job
    requires IsCall(s, c) && Size(s) >= 1
  {
    var n := |s.calls[c].items|;
    Job(c, w, ChunkLo(n, Size(s), w), ChunkHi(n, Size(s), w))
  }

  /** Iteration `w` of call `c`'s submission loop runs, neither bound having been reached. */
  predicate InLoop(s: State, c: nat, w: nat)
    requires IsCall(s, c) && Size(s) >= 1
  {
    w < Size(s) && ChunkLo(|s.calls[c].items|, Size(s), w) < |s.calls[c].items|
  }

  // ---------- Steps ----------

  ghost predicate CallerEnabled(s: State, step: Step)
    requires Size(s) >= 1
  {
    match step
    case LoopEnd(c) => IsCall(s, c) && s.calls[c].pc.Submitting? && !InLoop(s, c, s.calls[c].pc.w)
    case SubmitLock(c) => IsCall(s, c) && s.calls[c].pc.Submitting? && InLoop(s, c, s.calls[c].pc.w) && s.mutex.None?
    case Push(c) => IsCall(s, c) && s.calls[c].pc.Holding? && !s.stop
    case Reject(c) => IsCall(s, c) && s.calls[c].pc.Holding? && s.stop
    case Notify(c, target) =>
      && IsCall(s, c) && s.calls[c].pc.Notifying?
      && (match target
          case Some(t) => IsWorker(s, t) && s.workers[t].Asleep?
          case None => forall t :: 0 <= t < |s.workers| ==> !s.workers[t].Asleep?)
    case Await(c) =>
      && IsCall(s, c) && s.calls[c].pc.Waiting?
      && s.calls[c].pc.k < s.calls[c].submitted && s.calls[c].pc.k in s.calls[c].ready
    case Return(c) => IsCall(s, c) && s.calls[c].pc.Waiting? && s.calls[c].pc.k == s.calls[c].submitted
    case _ => false
  }

  ghost predicate WorkerEnabled(s: State, step: Step) {
    match step
    case WorkerLock(w) => IsWorker(s, w) && (s.workers[w].Locking? || s.workers[w].Woken?) && s.mutex.None?
    case Sleep(w) => IsWorker(s, w) && s.workers[w].Checking? && Decide(s.tasks, s.stop).Block?
    case Exit(w) => IsWorker(s, w) && s.workers[w].Checking? && Decide(s.tasks, s.stop).Leave?
    case Take(w) => IsWorker(s, w) && s.workers[w].Checking? && Decide(s.tasks, s.stop).Run?
    case Square(w) =>
      && IsWorker(s, w) && s.workers[w].Running? && s.workers[w].pos < s.workers[w].job.end
      && IsCall(s, s.workers[w].job.call)
      && s.workers[w].pos < |s.calls[s.workers[w].job.call].items|
    case AccLock(w) =>
      && IsWorker(s, w) && s.workers[w].Running? && s.workers[w].pos >= s.workers[w].job.end
      && IsCall(s, s.workers[w].job.call) && s.calls[s.workers[w].job.call].accOwner.None?
    case AccLoad(w) => IsWorker(s, w) && s.workers[w].Merging? && IsCall(s, s.workers[w].job.call)
    case AccStore(w) => IsWorker(s, w) && s.workers[w].Storing? && IsCall(s, s.workers[w].job.call)
    case AccUnlock(w) => IsWorker(s, w) && s.workers[w].Unlocking? && IsCall(s, s.workers[w].job.call)
    case Complete(w) => IsWorker(s, w) && s.workers[w].Completing? && IsCall(s, s.workers[w].job.call)
    case Spurious(w) => IsWorker(s, w) && s.workers[w].Asleep?
    case _ => false
  }

  ghost predicate DtorEnabled(s: State, step: Step) {
    match step
    case DtorLock => s.dtor.Alive? && s.mutex.None?
    case DtorStop => s.dtor.DtorHolding?
    case DtorNotify => s.dtor.DtorNotifying?
    case DtorJoin => s.dtor.Joining? && (s.dtor.i < |s.workers| ==> s.workers[s.dtor.i].Exited?)
    case _ => false
  }

  ghost predicate Enabled(s: State, step: Step)
    requires Size(s) >= 1
  {
    step.Begin? || CallerEnabled(s, step) || WorkerEnabled(s, step) || DtorEnabled(s, step)
  }

  function SetCall(s: State, c: nat, call: Call): State
    requires IsCall(s, c)
  {
    s.(calls := s.calls[c := call])
  }

  function SetWorker(s: State, w: nat, worker: Worker): State
    requires IsWorker(s, w)
  {
    s.(workers := s.workers[w := worker])
  }

  function WakeAll(workers: seq<Worker>): seq<Worker> {
    seq(|workers|, i requires 0 <= i < |workers| => if workers[i].Asleep? then Woken else workers[i])
  }

  ghost function ApplyCaller(s: State, step: Step): State
    requires Size(s) >= 1 && CallerEnabled(s, step)
  {
    match step
    case LoopEnd(c) => SetCall(s, c, s.calls[c].(pc := Waiting(0)))
    case SubmitLock(c) => SetCall(s, c, s.calls[c].(pc := Holding(s.calls[c].pc.w))).(mutex := Some(Caller(c)))
    case Push(c) =>
      var w := s.calls[c].pc.w;
      var job := JobFor(s, c, w);
      SetCall(s, c, s.calls[c].(pc := Notifying(w), submitted := s.calls[c].submitted + 1))
      .(tasks := s.tasks + [job], accepted := s.accepted + [job], mutex := None)
    case Reject(c) => SetCall(s, c, s.calls[c].(pc := Threw)).(mutex := None)
    case Notify(c, target) =>
      var t := SetCall(s, c, s.calls[c].(pc := Submitting(s.calls[c].pc.w + 1)));
      if target.Some? then SetWorker(t, target.value, Woken) else t
    case Await(c) => SetCall(s, c, s.calls[c].(pc := Waiting(s.calls[c].pc.k + 1)))
    case Return(c) => SetCall(s, c, s.calls[c].(pc := Returned(s.calls[c].acc)))
  }

  ghost function ApplyWorker(s: State, step: Step): State
    requires WorkerEnabled(s, step)
  {
    match step
    case WorkerLock(w) => SetWorker(s, w, Checking).(mutex := Some(PoolWorker(w)))
    case Sleep(w) => SetWorker(s, w, Asleep).(mutex := None)
    case Exit(w) => SetWorker(s, w, Exited).(mutex := None)
    case Take(w) =>
      var job := Decide(s.tasks, s.stop).job;
      SetWorker(s, w, Running(job, job.start, 0.0))
      .(tasks := s.tasks[1..], taken := s.taken + [job], mutex := None)
    case Square(w) =>
      var r := s.workers[w];
      var x := s.calls[r.job.call].items[r.pos];
      SetWorker(s, w, Running(r.job, r.pos + 1, r.partial + x * x))
    case AccLock(w) =>
      var r := s.workers[w];
      SetCall(SetWorker(s, w, Merging(r.job, r.partial)), r.job.call,
              s.calls[r.job.call].(accOwner := Some(w)))
    case AccLoad(w) =>
      var r := s.workers[w];
      SetWorker(s, w, Storing(r.job, r.partial, s.calls[r.job.call].acc))
    case AccStore(w) =>
      var r := s.workers[w];
      SetCall(SetWorker(s, w, Unlocking(r.job)), r.job.call,
              s.calls[r.job.call].(acc := r.loaded + r.partial))
    case AccUnlock(w) =>
      var r := s.workers[w];
      SetCall(SetWorker(s, w, Completing(r.job)), r.job.call,
              s.calls[r.job.call].(accOwner := None))
    case Complete(w) =>
      var r := s.workers[w];
      SetCall(SetWorker(s, w, Locking), r.job.call,
              s.calls[r.job.call].(ready := s.calls[r.job.call].ready + {r.job.idx}))
    case Spurious(w) => SetWorker(s, w, Woken)
  }

  ghost function ApplyDtor(s: State, step: Step): State
    requires DtorEnabled(s, step)
  {
    match step
    case DtorLock => s.(dtor := DtorHolding, mutex := Some(Owner))
    case DtorStop => s.(dtor := DtorNotifying, stop := true, mutex := None)
    case DtorNotify => s.(dtor := Joining(0), workers := WakeAll(s.workers))
    case DtorJoin => s.(dtor := if s.dtor.i < |s.workers| then Joining(s.dtor.i + 1) else Destroyed)
  }

  /** A call starts; an empty list returns 0 at once, before the pool is touched. */
  function NewCall(items: seq<real>): Call {
    Call(items, if items == [] then Returned(0.0) else Submitting(0), 0, {}, 0.0, None)
  }

  ghost function Apply(s: State, step: Step): (t: State)
    requires Size(s) >= 1 && Enabled(s, step)
    ensures Size(t) == Size(s)
  {
    if step.Begin? then s.(calls := s.calls + [NewCall(step.items)])
    else if CallerEnabled(s, step) then ApplyCaller(s, step)
    else if WorkerEnabled(s, step) then ApplyWorker(s, step)
    else ApplyDtor(s, step)
  }

  // ---------- Runs ----------

  /** A pool as constructed, with every thread started. */
  function Init(workers: nat): State {
    State(seq(workers, _ => Locking), [], false, None, [], Alive, [], [])
  }

  ghost predicate Legal(s: State, run: seq<Step>)
    requires Size(s) >= 1
    decreases |run|
  {
    run == [] || (Enabled(s, run[0]) && Legal(Apply(s, run[0]), run[1..]))
  }

  ghost function Exec(s: State, run: seq<Step>): (t: State)
    requires Size(s) >= 1 && Legal(s, run)
    ensures Size(t) == Size(s)
    decreases |run|
  {
    if run == [] then s else Exec(Apply(s, run[0]), run[1..])
  }

  /** `s` is what some finite run of a pool of `workers` threads leads to. */
  ghost predicate Reachable(workers: nat, s: State) {
    workers >= 1 && exists run :: Legal(Init(workers), run) && Exec(Init(workers), run) == s
  }
}
