/**
 The thread-pool flavour: an executor's `map` over the items as a transition system.

 The caller submits every item, collects the results in input order, and waits for the
 executor's threads. The threads take items from a FIFO queue and finish them at any time. The
 first result that is a failure cancels what has not been started. (These are the rules of
 `concurrent.futures.ThreadPoolExecutor`; a thread not created yet is one that has not moved.)
 */
module ExecutorMap {
  import opened Options
  import opened Sums
  import Queue = QueuePipeline

  type Entry = Queue.Entry

  type Outcome = Queue.Outcome

  datatype Answer = List(list: seq<real>) | Error(error: int)

  datatype Pc =
    | Submitting(k: nat)
    | Collecting(list: seq<real>)
    | Closing(answer: Answer)      // leaving the `with` block waits for the threads
    | Finished(answer: Answer)

  datatype State = State(queue: seq<Entry>, threads: seq<Option<Entry>>, outcomes: seq<Option<Outcome>>,
                         started: seq<Entry>, pc: Pc)

  datatype Step = Take(t: nat) | Finish(t: nat) | Submit | Collect | Close

  function Init(items: seq<real>, workers: int): State {
    State([], seq(if workers < 1 then 1 else workers, _ => None), seq(|items|, _ => None), [], Submitting(0))
  }

  predicate AllIdle(s: State) {
    forall t :: 0 <= t < |s.threads| ==> s.threads[t].None?
  }

  ghost predicate Enabled(items: seq<real>, s: State, step: Step) {
    match step
    case Take(t) => t < |s.threads| && s.threads[t].None? && s.queue != []
    case Finish(t) => t < |s.threads| && s.threads[t].Some? && s.threads[t].value.idx < |s.outcomes|
    case Submit => s.pc.Submitting? && s.pc.k <= |items|
    case Collect =>
      s.pc.Collecting? && |s.pc.list| <= |s.outcomes| == |items|
      && (|s.pc.list| < |items| ==> s.outcomes[|s.pc.list|].Some?)
    case Close => s.pc.Closing? && s.queue == [] && AllIdle(s)
  }

  /** The caller asks for the next result. */
  function CollectNext(s: State): State
    requires s.pc.Collecting? && |s.pc.list| <= |s.outcomes|
    requires |s.pc.list| < |s.outcomes| ==> s.outcomes[|s.pc.list|].Some?
  {
    if |s.pc.list| == |s.outcomes| then s.(pc := Closing(List(s.pc.list)))
    else match s.outcomes[|s.pc.list|].value
      case Value(v) => s.(pc := Collecting(s.pc.list + [v]))
      case Failure(e) => s.(pc := Closing(Error(e)), queue := [])
  }

  ghost function Apply(items: seq<real>, work: Entry -> Outcome, s: State, step: Step): State
    requires Enabled(items, s, step)
  {
    match step
    case Take(t) =>
      s.(queue := s.queue[1..], threads := s.threads[t := Some(s.queue[0])], started := s.started + [s.queue[0]])
    case Finish(t) =>
      var e := s.threads[t].value;
      s.(threads := s.threads[t := None], outcomes := s.outcomes[e.idx := Some(work(e))])
    case Submit =>
      if s.pc.k < |items| then s.(queue := s.queue + [Queue.Entry(s.pc.k, items[s.pc.k])], pc := Submitting(s.pc.k + 1))
      else s.(pc := Collecting([]))
    case Collect => CollectNext(s)
    case Close => s.(pc := Finished(s.pc.answer))
  }

  ghost predicate Legal(items: seq<real>, work: Entry -> Outcome, s: State, run: seq<Step>)
    decreases |run|
  {
    run == [] || (Enabled(items, s, run[0]) && Legal(items, work, Apply(items, work, s, run[0]), run[1..]))
  }

  ghost function Exec(items: seq<real>, work: Entry -> Outcome, s: State, run: seq<Step>): State
    requires Legal(items, work, s, run)
    decreases |run|
  {
    if run == [] then s else Exec(items, work, Apply(items, work, s, run[0]), run[1..])
  }

  ghost predicate Reachable(items: seq<real>, workers: int, work: Entry -> Outcome, s: State) {
    exists run :: Legal(items, work, Init(items, workers), run)
                  && Exec(items, work, Init(items, workers), run) == s
  }

  // ---------- The invariant ----------

  ghost function IsBusy(): Option<Entry> -> int {
    (thread: Option<Entry>) => if thread.Some? then 1 else 0
  }

  /** 1 on a thread working on item `i`. */
  ghost function IsAt(i: nat): Option<Entry> -> int {
    (thread: Option<Entry>) => if thread.Some? && thread.value.idx == i then 1 else 0
  }

  predicate HasFailed(s: State) {
    (s.pc.Closing? || s.pc.Finished?) && s.pc.answer.Error?
  }

  function Submitted(items: seq<real>, s: State): nat {
    if s.pc.Submitting? then s.pc.k else |items|
  }

  /** Items are started in input order, each once; after a failure no more are started. */
  ghost predicate InOrder(items: seq<real>, s: State) {
    var entries := Queue.Entries(items);
    && Submitted(items, s) <= |items|
    && s.started + s.queue <= entries
    && (if HasFailed(s) then s.queue == [] else |s.started + s.queue| == Submitted(items, s))
  }

  /** A started item is finished or in exactly one thread's hands, any other is in none. */
  ghost predicate HeldOnce(s: State, i: nat) {
    Sum(s.threads, IsAt(i)) + (if i < |s.outcomes| && s.outcomes[i].Some? then 1 else 0)
    == if i < |s.started| then 1 else 0
  }

  ghost predicate OutcomesOk(items: seq<real>, work: Entry -> Outcome, s: State) {
    && |s.outcomes| == |items|
    && forall i :: 0 <= i < |items| && s.outcomes[i].Some? ==> s.outcomes[i].value == work(Queue.Entry(i, items[i]))
  }

  ghost predicate ThreadsOk(items: seq<real>, s: State) {
    && |s.threads| >= 1
    && (forall t :: 0 <= t < |s.threads| && s.threads[t].Some? ==> Queue.GoodEntry(items, s.threads[t].value))
    && (s.pc.Finished? ==> s.queue == [] && AllIdle(s))
  }

  /** These are the results of the first items. */
  ghost predicate Collected(s: State, list: seq<real>) {
    && |list| <= |s.outcomes|
    && forall i :: 0 <= i < |list| ==> s.outcomes[i] == Some(Queue.Value(list[i]))
  }

  /** Item `k` failed with this error, and no item before it failed. */
  ghost predicate FirstFailed(s: State, k: nat, error: int) {
    && k < |s.outcomes| && s.outcomes[k] == Some(Queue.Failure(error))
    && forall i :: 0 <= i < k ==> s.outcomes[i].Some? && s.outcomes[i].value.Value?
  }

  ghost predicate AnswerOk(s: State, answer: Answer) {
    match answer
    case List(list) => |list| == |s.outcomes| && Collected(s, list)
    case Error(error) => exists k: nat :: FirstFailed(s, k, error)
  }

  ghost predicate PcOk(s: State) {
    match s.pc
    case Submitting(_) => true
    case Collecting(list) => Collected(s, list)
    case Closing(answer) => AnswerOk(s, answer)
    case Finished(answer) => AnswerOk(s, answer)
  }

  ghost predicate Inv(items: seq<real>, work: Entry -> Outcome, s: State) {
    && InOrder(items, s) && OutcomesOk(items, work, s) && ThreadsOk(items, s) && PcOk(s)
    && forall i: nat :: HeldOnce(s, i)
  }

  lemma InitInv(items: seq<real>, workers: int, work: Entry -> Outcome)
    ensures Inv(items, work, Init(items, workers))
  {
    var s := Init(items, workers);
    forall i: nat
      ensures HeldOnce(s, i)
    {
      SumZero(s.threads, IsAt(i));
    }
  }

  lemma TakeStep(items: seq<real>, work: Entry -> Outcome, s: State, t: nat)
    requires Inv(items, work, s) && Enabled(items, s, Take(t))
    ensures Inv(items, work, Apply(items, work, s, Take(t)))
  {
    var s' := Apply(items, work, s, Take(t));
    var e := s.queue[0];
    assert Queue.Entries(items)[|s.started|] == (s.started + s.queue)[|s.started|] == e;
    assert s'.started + s'.queue == s.started + s.queue;
    forall i: nat
      ensures HeldOnce(s', i)
    {
      assert HeldOnce(s, i);
      SumUpdate(s.threads, t, Some(e), IsAt(i));
    }
    AnswerStays(s, s');
  }

  /** When a thread finishes an item, nobody has finished it before. */
  lemma FinishingFirst(items: seq<real>, work: Entry -> Outcome, s: State, t: nat)
    requires Inv(items, work, s) && t < |s.threads| && s.threads[t].Some?
    ensures s.threads[t].value.idx < |s.outcomes| && s.outcomes[s.threads[t].value.idx].None?
  {
    var i := s.threads[t].value.idx;
    assert HeldOnce(s, i);
    SumAtLeast(s.threads, IsAt(i), t);
  }

  lemma FinishStep(items: seq<real>, work: Entry -> Outcome, s: State, t: nat)
    requires Inv(items, work, s) && Enabled(items, s, Finish(t))
    ensures Inv(items, work, Apply(items, work, s, Finish(t)))
  {
    var s' := Apply(items, work, s, Finish(t));
    var e := s.threads[t].value;
    FinishingFirst(items, work, s, t);
    assert e == Queue.Entry(e.idx, items[e.idx]);
    forall i: nat
      ensures HeldOnce(s', i)
    {
      assert HeldOnce(s, i);
      SumUpdate(s.threads, t, None, IsAt(i));
    }
    AnswerStays(s, s');
  }

  /** Results already there stay, so what the caller has made of them stays right. */
  lemma AnswerStays(s: State, s': State)
    requires PcOk(s) && s'.pc == s.pc && |s'.outcomes| == |s.outcomes|
    requires forall i :: 0 <= i < |s.outcomes| && s.outcomes[i].Some? ==> s'.outcomes[i] == s.outcomes[i]
    ensures PcOk(s')
  {
    if HasFailed(s) {
      var k: nat :| FirstFailed(s, k, s.pc.answer.error);
      assert FirstFailed(s', k, s.pc.answer.error);
    }
  }

  lemma SubmitStep(items: seq<real>, work: Entry -> Outcome, s: State)
    requires Inv(items, work, s) && Enabled(items, s, Submit)
    ensures Inv(items, work, Apply(items, work, s, Submit))
  {
    var s' := Apply(items, work, s, Submit);
    assert s.pc.k < |items| ==> s'.started + s'.queue == (s.started + s.queue) + [Queue.Entries(items)[s.pc.k]];
    forall i: nat
      ensures HeldOnce(s', i)
    {
      assert HeldOnce(s, i);
    }
  }

  lemma CollectStep(items: seq<real>, work: Entry -> Outcome, s: State, step: Step)
    requires Inv(items, work, s) && Enabled(items, s, step) && (step.Collect? || step.Close?)
    ensures Inv(items, work, Apply(items, work, s, step))
  {
    var s' := Apply(items, work, s, step);
    if HasFailed(s') {
      assert s'.started + s'.queue <= s.started + s.queue;
      if step.Collect? {
        assert FirstFailed(s', |s.pc.list|, s'.pc.answer.error);
      } else {
        var k: nat :| FirstFailed(s, k, s.pc.answer.error);
        assert FirstFailed(s', k, s'.pc.answer.error);
      }
    }
    forall i: nat
      ensures HeldOnce(s', i)
    {
      assert HeldOnce(s, i);
    }
  }

  lemma StepInv(items: seq<real>, work: Entry -> Outcome, s: State, step: Step)
    requires Inv(items, work, s) && Enabled(items, s, step)
    ensures Inv(items, work, Apply(items, work, s, step))
  {
    match step
    case Take(t) => TakeStep(items, work, s, t);
    case Finish(t) => FinishStep(items, work, s, t);
    case Submit => SubmitStep(items, work, s);
    case _ => CollectStep(items, work, s, step);
  }

  lemma {:induction false} RunInv(items: seq<real>, work: Entry -> Outcome, s: State, run: seq<Step>)
    requires Inv(items, work, s) && Legal(items, work, s, run)
    ensures Inv(items, work, Exec(items, work, s, run))
    decreases |run|
  {
    if run != [] {
      StepInv(items, work, s, run[0]);
      RunInv(items, work, Apply(items, work, s, run[0]), run[1..]);
    }
  }

  lemma ReachableInv(items: seq<real>, workers: int, work: Entry -> Outcome, s: State)
    requires Reachable(items, workers, work, s)
    ensures Inv(items, work, s)
  {
    var run :| Legal(items, work, Init(items, workers), run) && Exec(items, work, Init(items, workers), run) == s;
    InitInv(items, workers, work);
    RunInv(items, work, Init(items, workers), run);
  }

  // ---------- Results ----------

  /** Item `k` is the first in input order whose work fails. */
  ghost predicate FirstFailing(items: seq<real>, work: Entry -> Outcome, k: nat) {
    && k < |items| && work(Queue.Entry(k, items[k])).Failure?
    && forall i :: 0 <= i < k ==> work(Queue.Entry(i, items[i])).Value?
  }

  /**
   The executor's map refines `map`: under every schedule it returns exactly when no item
   fails, with the work function's values in input order, and otherwise it raises the failure
   of the first failing item in input order, whichever failed first in time. Either way
   nothing is left queued or running.
   */
  lemma RefinesMap(items: seq<real>, workers: int, work: Entry -> Outcome, s: State)
    requires Reachable(items, workers, work, s) && s.pc.Finished?
    ensures s.pc.answer.List? <==> !Queue.SomeFails(items, work)
    ensures s.pc.answer.List? ==>
              && |s.pc.answer.list| == |items|
              && forall i :: 0 <= i < |items| ==>
                   work(Queue.Entry(i, items[i])) == Queue.Value(s.pc.answer.list[i])
    ensures s.pc.answer.Error? ==>
              exists k: nat :: FirstFailing(items, work, k)
                               && work(Queue.Entry(k, items[k])) == Queue.Failure(s.pc.answer.error)
    ensures s.queue == [] && AllIdle(s)
  {
    ReachableInv(items, workers, work, s);
    match s.pc.answer
    case List(list) =>
      assert forall i :: 0 <= i < |items| ==> s.outcomes[i] == Some(Queue.Value(list[i]));
    case Error(error) =>
      var k: nat :| FirstFailed(s, k, error);
      assert FirstFailing(items, work, k);
  }

  /** An item is worked on at most once: its result is missing while a thread works on it. */
  lemma WorkedOnOnce(items: seq<real>, workers: int, work: Entry -> Outcome, s: State, t: nat, u: nat)
    requires Reachable(items, workers, work, s)
    requires t < |s.threads| && s.threads[t].Some? && u < |s.threads| && s.threads[u].Some?
    ensures Enabled(items, s, Finish(t)) && s.outcomes[s.threads[t].value.idx].None?
    ensures s.threads[t].value.idx == s.threads[u].value.idx ==> t == u
  {
    ReachableInv(items, workers, work, s);
    FinishingFirst(items, work, s, t);
    var i := s.threads[t].value.idx;
    if t != u && s.threads[u].value.idx == i {
      var without := s.threads[t := None];
      assert HeldOnce(s, i);
      SumUpdate(s.threads, t, None, IsAt(i));
      SumAtLeast(without, IsAt(i), u);
    }
  }

  /** How many items have been taken from the queue. */
  function Takes(run: seq<Step>): nat {
    if run == [] then 0 else (if run[0].Take? then 1 else 0) + Takes(run[1..])
  }

  lemma {:induction false} StartedCount(items: seq<real>, work: Entry -> Outcome, s: State, run: seq<Step>)
    requires Legal(items, work, s, run)
    ensures |Exec(items, work, s, run).started| == |s.started| + Takes(run)
    decreases |run|
  {
    if run != [] {
      StartedCount(items, work, Apply(items, work, s, run[0]), run[1..]);
    }
  }

  /** Items are started in input order: the k-th to be taken, by whichever thread, is item k. */
  lemma StartedInOrder(items: seq<real>, workers: int, work: Entry -> Outcome, run: seq<Step>, t: nat)
    requires Legal(items, work, Init(items, workers), run)
    requires Enabled(items, Exec(items, work, Init(items, workers), run), Take(t))
    ensures Takes(run) < |items|
    ensures Apply(items, work, Exec(items, work, Init(items, workers), run), Take(t)).threads[t]
            == Some(Queue.Entry(Takes(run), items[Takes(run)]))
  {
    var s := Exec(items, work, Init(items, workers), run);
    InitInv(items, workers, work);
    RunInv(items, work, Init(items, workers), run);
    StartedCount(items, work, Init(items, workers), run);
    assert Queue.Entries(items)[|s.started|] == (s.started + s.queue)[|s.started|] == s.queue[0];
  }

  /** Once a failure has been collected no further item is ever started. */
  lemma NothingStartsAfterFailure(items: seq<real>, workers: int, work: Entry -> Outcome, s: State, step: Step)
    requires Reachable(items, workers, work, s) && Enabled(items, s, step)
    requires (s.pc.Closing? || s.pc.Finished?) && s.pc.answer.Error?
    ensures !step.Take? && !step.Submit?
    ensures var t := Apply(items, work, s, step);
            (t.pc.Closing? || t.pc.Finished?) && t.pc.answer == s.pc.answer
  {
    ReachableInv(items, workers, work, s);
  }

  // ---------- The threads ----------

  /** There are as many threads as configured, at least one, at every moment. */
  lemma ThreadCount(items: seq<real>, workers: int, work: Entry -> Outcome, s: State)
    requires Reachable(items, workers, work, s)
    ensures |s.threads| == if workers < 1 then 1 else workers
  {
    var run :| Legal(items, work, Init(items, workers), run) && Exec(items, work, Init(items, workers), run) == s;
    CountStays(items, work, Init(items, workers), run);
  }

  lemma {:induction false} CountStays(items: seq<real>, work: Entry -> Outcome, s: State, run: seq<Step>)
    requires Legal(items, work, s, run)
    ensures |Exec(items, work, s, run).threads| == |s.threads|
    decreases |run|
  {
    if run != [] {
      CountStays(items, work, Apply(items, work, s, run[0]), run[1..]);
    }
  }

  /** The first `k` items submitted, the first `m` of them taken by the first `m` threads. */
  function Stage(items: seq<real>, workers: int, k: nat, m: nat): State
    requires m <= k <= |items|
  {
    var entries := Queue.Entries(items);
    Init(items, workers).(
      queue := entries[m..k], started := entries[..m], pc := Submitting(k),
      threads := seq(|Init(items, workers).threads|,
                     t requires 0 <= t => if t < m then Some(entries[t]) else None))
  }

  lemma StageSubmit(items: seq<real>, workers: int, work: Entry -> Outcome, k: nat)
    requires k < |items|
    ensures Enabled(items, Stage(items, workers, k, 0), Submit)
    ensures Apply(items, work, Stage(items, workers, k, 0), Submit) == Stage(items, workers, k + 1, 0)
  {
    var s, t := Stage(items, workers, k, 0), Stage(items, workers, k + 1, 0);
    assert s.queue + [Queue.Entries(items)[k]] == t.queue;
    assert s.threads == t.threads;
  }

  lemma StageTake(items: seq<real>, workers: int, work: Entry -> Outcome, m: nat)
    requires m < |items| && m < |Init(items, workers).threads|
    ensures Enabled(items, Stage(items, workers, |items|, m), Take(m))
    ensures Apply(items, work, Stage(items, workers, |items|, m), Take(m)) == Stage(items, workers, |items|, m + 1)
  {
    var s, t := Stage(items, workers, |items|, m), Stage(items, workers, |items|, m + 1);
    var e := Queue.Entries(items)[m];
    assert s.queue == [e] + t.queue;
    assert s.started + [e] == t.started;
    assert s.threads[m := Some(e)] == t.threads;
  }

  lemma {:induction false} ExecAppend(items: seq<real>, work: Entry -> Outcome, s: State, run: seq<Step>, step: Step)
    requires Legal(items, work, s, run) && Enabled(items, Exec(items, work, s, run), step)
    ensures Legal(items, work, s, run + [step])
    ensures Exec(items, work, s, run + [step]) == Apply(items, work, Exec(items, work, s, run), step)
    decreases |run|
  {
    if run == [] {
      assert run + [step] == [step];
      assert Legal(items, work, Apply(items, work, s, step), []);
    } else {
      assert (run + [step])[1..] == run[1..] + [step];
      ExecAppend(items, work, Apply(items, work, s, run[0]), run[1..], step);
    }
  }

  lemma Extend(items: seq<real>, workers: int, work: Entry -> Outcome, s: State, step: Step)
    requires Reachable(items, workers, work, s) && Enabled(items, s, step)
    ensures Reachable(items, workers, work, Apply(items, work, s, step))
  {
    var run :| Legal(items, work, Init(items, workers), run) && Exec(items, work, Init(items, workers), run) == s;
    ExecAppend(items, work, Init(items, workers), run, step);
  }

  lemma {:induction false} StageReachable(items: seq<real>, workers: int, work: Entry -> Outcome, k: nat, m: nat)
    requires m <= k <= |items| && m <= |Init(items, workers).threads| && (m > 0 ==> k == |items|)
    ensures Reachable(items, workers, work, Stage(items, workers, k, m))
    decreases m, k
  {
    var s0 := Init(items, workers);
    if m > 0 {
      StageReachable(items, workers, work, k, m - 1);
      StageTake(items, workers, work, m - 1);
      Extend(items, workers, work, Stage(items, workers, k, m - 1), Take(m - 1));
    } else if k > 0 {
      StageReachable(items, workers, work, k - 1, 0);
      StageSubmit(items, workers, work, k - 1);
      Extend(items, workers, work, Stage(items, workers, k - 1, 0), Submit);
    } else {
      assert Stage(items, workers, 0, 0) == s0;
      assert Legal(items, work, s0, []) && Exec(items, work, s0, []) == s0;
    }
  }

  /** As many threads as there are, or as there are items for, can be at work at once. */
  lemma AllAtOnce(items: seq<real>, workers: int, work: Entry -> Outcome)
    ensures var most := if workers < 1 then 1 else workers;
            exists s :: Reachable(items, workers, work, s) && |s.threads| == most
                        && forall t :: 0 <= t < most && t < |items| ==> s.threads[t].Some?
  {
    var most := if workers < 1 then 1 else workers;
    var m := if most < |items| then most else |items|;
    StageReachable(items, workers, work, |items|, m);
    ThreadCount(items, workers, work, Stage(items, workers, |items|, m));
  }

  // ---------- Every schedule ends ----------

  ghost function Work(items: seq<real>, s: State): int {
    2 * |s.queue| + Sum(s.threads, IsBusy())
    + match s.pc
      case Submitting(k) => 3 * (|items| - k) + |items| + 4
      case Collecting(list) => |items| - |list| + 3
      case Closing(_) => 1
      case Finished(_) => 0
  }

  lemma StepWorks(items: seq<real>, work: Entry -> Outcome, s: State, step: Step)
    requires Inv(items, work, s) && Enabled(items, s, step)
    ensures 0 <= Work(items, Apply(items, work, s, step)) < Work(items, s)
  {
    var s' := Apply(items, work, s, step);
    if step.Take? || step.Finish? {
      SumUpdate(s.threads, step.t, s'.threads[step.t], IsBusy());
    }
    SumNonnegative(s'.threads, IsBusy());
  }

  /** A map that has not ended is never stuck. */
  lemma NeverStuck(items: seq<real>, work: Entry -> Outcome, s: State) returns (step: Step)
    requires Inv(items, work, s) && !s.pc.Finished?
    ensures Enabled(items, s, step)
  {
    if t: nat :| t < |s.threads| && s.threads[t].Some? {
      FinishingFirst(items, work, s, t);
      step := Finish(t);
    } else if s.queue != [] {
      step := Take(0);
    } else if s.pc.Submitting? {
      step := Submit;
    } else if s.pc.Closing? {
      step := Close;
    } else {
      var i := |s.pc.list|;
      assert HeldOnce(s, i);
      SumZero(s.threads, IsAt(i));
      step := Collect;
    }
  }

  lemma {:induction false} RunBounded(items: seq<real>, work: Entry -> Outcome, s: State, run: seq<Step>)
    requires Inv(items, work, s) && Legal(items, work, s, run)
    ensures |run| <= Work(items, s)
    decreases |run|
  {
    if run == [] {
      SumNonnegative(s.threads, IsBusy());
    } else {
      StepInv(items, work, s, run[0]);
      StepWorks(items, work, s, run[0]);
      RunBounded(items, work, Apply(items, work, s, run[0]), run[1..]);
    }
  }

  /** Every schedule has at most 4 steps per item and 4 more, and where none is left the map has ended. */
  lemma EverySchedule(items: seq<real>, workers: int, work: Entry -> Outcome, run: seq<Step>)
    requires Legal(items, work, Init(items, workers), run)
    ensures |run| <= 4 * |items| + 4
    ensures var s := Exec(items, work, Init(items, workers), run);
            (forall step :: !Enabled(items, s, step)) ==> s.pc.Finished?
  {
    var s0 := Init(items, workers);
    var s := Exec(items, work, s0, run);
    InitInv(items, workers, work);
    SumZero(s0.threads, IsBusy());
    RunBounded(items, work, s0, run);
    RunInv(items, work, s0, run);
    if !s.pc.Finished? {
      var step := NeverStuck(items, work, s);
    }
  }
}
