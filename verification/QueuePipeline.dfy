/**
 The queue pipeline as a transition system: a FIFO queue with join accounting, a fixed set of
 consumers scheduled in any order, a failure list, and cancellation after the join.

 The work function is an arbitrary function `work` of the queue entry, giving a value or a
 failure. (Other non-local exits and missing results are outside the model.) A step is a
 stretch between two suspension points, or a part of one, so every schedule of the event loop
 is a run here.
 */
module QueuePipeline {
  import opened Options
  import opened Sums

  /** What `put_nowait` enqueues: a position and the item there. */
  datatype Entry = Entry(idx: nat, value: real)

  datatype Outcome = Value(result: real) | Failure(error: int)

  datatype Consumer =
    | Idle               // at or before `queue.get()`, holding nothing
    | Busy(entry: Entry) // in the work function
    | Gone               // returned after a cancellation in `queue.get()`
    | Killed             // cancelled inside the work function

  datatype Main =
    | Joining
    | Gathering
    | Returned(list: seq<real>)
    | Raised(error: int)

  datatype State = State(queue: seq<Entry>, unfinished: int, consumers: seq<Consumer>, cancelled: bool,
                         results: seq<Option<real>>, failures: seq<int>, main: Main,
                         attempted: seq<Entry>, finished: seq<Entry>)

  datatype Step =
    | Get(c: nat)
    | Complete(c: nat)
    | JoinReturns
    | Deliver(c: nat)      // a requested cancellation reaches the consumer
    | GatherReturns

  /** The enumerated items. */
  function Entries(items: seq<real>): seq<Entry> {
    seq(|items|, i requires 0 <= i < |items| => Entry(i, items[i]))
  }

  /** After all puts, before any consumer has run: the enqueuing loop has no suspension point. */
  function Init(items: seq<real>, workers: int): State {
    State(Entries(items), |items|, seq(if workers < 1 then 1 else workers, _ => Idle), false,
          seq(|items|, _ => None), [], Joining, [], [])
  }

  predicate IsConsumer(s: State, c: nat) {
    c < |s.consumers|
  }

  ghost predicate Enabled(s: State, step: Step) {
    match step
    case Get(c) => IsConsumer(s, c) && s.consumers[c].Idle? && s.queue != []
    case Complete(c) => IsConsumer(s, c) && s.consumers[c].Busy? && s.consumers[c].entry.idx < |s.results|
    case JoinReturns => s.main.Joining? && s.unfinished == 0
    case Deliver(c) => IsConsumer(s, c) && s.cancelled && (s.consumers[c].Idle? || s.consumers[c].Busy?)
    case GatherReturns =>
      s.main.Gathering? && forall c :: 0 <= c < |s.consumers| ==> s.consumers[c].Gone? || s.consumers[c].Killed?
  }

  function SetConsumer(s: State, c: nat, consumer: Consumer): State
    requires IsConsumer(s, c)
  {
    s.(consumers := s.consumers[c := consumer])
  }

  /** A missing result is replaced by 0. */
  function OrZero(results: seq<Option<real>>): seq<real> {
    seq(|results|, i requires 0 <= i < |results| => if results[i].Some? then results[i].value else 0.0)
  }

  ghost function Apply(s: State, work: Entry -> Outcome, step: Step): State
    requires Enabled(s, step)
  {
    match step
    case Get(c) =>
      SetConsumer(s, c, Busy(s.queue[0])).(queue := s.queue[1..], attempted := s.attempted + [s.queue[0]])
    case Complete(c) =>
      var e := s.consumers[c].entry;
      var t := SetConsumer(s, c, Idle).(unfinished := s.unfinished - 1, finished := s.finished + [e]);
      (match work(e)
       case Value(v) => t.(results := s.results[e.idx := Some(v)])
       case Failure(error) => t.(failures := s.failures + [error]))
    case JoinReturns => s.(main := Gathering, cancelled := true)
    case Deliver(c) =>
      if s.consumers[c].Idle? then SetConsumer(s, c, Gone)
      else SetConsumer(s, c, Killed).(unfinished := s.unfinished - 1)
    case GatherReturns =>
      s.(main := if s.failures != [] then Raised(s.failures[0]) else Returned(OrZero(s.results)))
  }

  ghost predicate Legal(s: State, work: Entry -> Outcome, run: seq<Step>)
    decreases |run|
  {
    run == [] || (Enabled(s, run[0]) && Legal(Apply(s, work, run[0]), work, run[1..]))
  }

  ghost function Exec(s: State, work: Entry -> Outcome, run: seq<Step>): State
    requires Legal(s, work, run)
    decreases |run|
  {
    if run == [] then s else Exec(Apply(s, work, run[0]), work, run[1..])
  }

  /** `s` is what some schedule of the pipeline over these items leads to. */
  ghost predicate Reachable(items: seq<real>, workers: int, work: Entry -> Outcome, s: State) {
    exists run :: Legal(Init(items, workers), work, run) && Exec(Init(items, workers), work, run) == s
  }

  // ---------- Weights ----------

  ghost function IsBusy(): Consumer -> int {
    (consumer: Consumer) => if consumer.Busy? then 1 else 0
  }

  ghost function IsLive(): Consumer -> int {
    (consumer: Consumer) => if consumer.Idle? || consumer.Busy? then 1 else 0
  }

  /** 1 on a consumer working on item `i`. */
  ghost function IsAt(i: nat): Consumer -> int {
    (consumer: Consumer) => if consumer.Busy? && consumer.entry.idx == i then 1 else 0
  }

  ghost function IsItem(i: nat): Entry -> int {
    (e: Entry) => if e.idx == i then 1 else 0
  }

  ghost function Fails(work: Entry -> Outcome): Entry -> int {
    (e: Entry) => if work(e).Failure? then 1 else 0
  }

  ghost function BusyFails(work: Entry -> Outcome): Consumer -> int {
    (consumer: Consumer) => if consumer.Busy? && work(consumer.entry).Failure? then 1 else 0
  }

  /** The number of failing items. */
  ghost function FailCount(items: seq<real>, work: Entry -> Outcome): int {
    Sum(Entries(items), Fails(work))
  }

  // ---------- The invariant ----------

  /** The unfinished count is what is queued plus what consumers hold. */
  ghost predicate JoinAccounting(s: State) {
    s.unfinished == |s.queue| + Sum(s.consumers, IsBusy())
  }

  /** Items are attempted in input order, each once. */
  ghost predicate InOrder(s: State, items: seq<real>) {
    s.attempted + s.queue == Entries(items)
  }

  /** An attempted item is finished or in exactly one consumer's hands, any other is in none. */
  ghost predicate HeldOnce(s: State, i: nat) {
    Sum(s.consumers, IsAt(i)) + Sum(s.finished, IsItem(i)) == if i < |s.attempted| then 1 else 0
  }

  /** The failures among these entries, in their order. */
  ghost function FailuresOf(finished: seq<Entry>, work: Entry -> Outcome): seq<int> {
    if finished == [] then []
    else
      var last := finished[|finished| - 1];
      FailuresOf(finished[..|finished| - 1], work) + if work(last).Failure? then [work(last).error] else []
  }

  ghost predicate GoodEntry(items: seq<real>, e: Entry) {
    e.idx < |items| && e.value == items[e.idx]
  }

  /** A slot is filled exactly when its item is finished and gave a value: that value. */
  ghost predicate SlotOk(s: State, items: seq<real>, work: Entry -> Outcome, i: nat)
    requires i < |items| == |s.results|
  {
    var outcome := work(Entry(i, items[i]));
    s.results[i] == if Sum(s.finished, IsItem(i)) > 0 && outcome.Value? then Some(outcome.result) else None
  }

  ghost predicate Control(s: State, items: seq<real>) {
    && |s.consumers| >= 1
    && |s.results| == |items|
    && (s.cancelled <==> !s.main.Joining?)
    && (s.cancelled ==> s.unfinished == 0)
    && (!s.cancelled ==> forall c :: 0 <= c < |s.consumers| ==> !s.consumers[c].Gone?)
    && (forall c :: 0 <= c < |s.consumers| ==> !s.consumers[c].Killed?)
    && (s.main.Returned? || s.main.Raised? ==> forall c :: 0 <= c < |s.consumers| ==> s.consumers[c].Gone?)
  }

  ghost predicate GoodEntries(s: State, items: seq<real>) {
    && (forall c :: 0 <= c < |s.consumers| && s.consumers[c].Busy? ==> GoodEntry(items, s.consumers[c].entry))
    && (forall k :: 0 <= k < |s.queue| ==> GoodEntry(items, s.queue[k]))
    && (forall k :: 0 <= k < |s.finished| ==> GoodEntry(items, s.finished[k]))
  }

  ghost predicate FailureAccounting(s: State, items: seq<real>, work: Entry -> Outcome) {
    && s.failures == FailuresOf(s.finished, work)
    && |s.failures| + Sum(s.queue, Fails(work)) + Sum(s.consumers, BusyFails(work)) == FailCount(items, work)
  }

  ghost predicate Answered(s: State) {
    match s.main
    case Returned(list) => s.failures == [] && list == OrZero(s.results)
    case Raised(e) => s.failures != [] && e == s.failures[0]
    case _ => true
  }

  ghost predicate Inv(s: State, items: seq<real>, work: Entry -> Outcome) {
    && Control(s, items) && GoodEntries(s, items) && JoinAccounting(s) && InOrder(s, items)
    && FailureAccounting(s, items, work) && Answered(s)
    && (forall i: nat :: HeldOnce(s, i))
    && (forall i: nat :: i < |items| ==> SlotOk(s, items, work, i))
  }

  lemma InitHeld(items: seq<real>, workers: int, i: nat)
    ensures HeldOnce(Init(items, workers), i)
  {
    SumZero(Init(items, workers).consumers, IsAt(i));
  }

  lemma InitCounts(items: seq<real>, workers: int, work: Entry -> Outcome)
    ensures JoinAccounting(Init(items, workers)) && FailureAccounting(Init(items, workers), items, work)
  {
    var s := Init(items, workers);
    SumZero(s.consumers, IsBusy());
    SumZero(s.consumers, BusyFails(work));
  }

  lemma InitInv(items: seq<real>, workers: int, work: Entry -> Outcome)
    ensures Inv(Init(items, workers), items, work)
  {
    InitCounts(items, workers, work);
    forall i: nat
      ensures HeldOnce(Init(items, workers), i)
    {
      InitHeld(items, workers, i);
    }
  }

  /** Once nothing is unfinished, the queue is empty and no consumer is in the work function. */
  lemma NothingUnfinished(s: State)
    requires JoinAccounting(s) && s.unfinished == 0
    ensures s.queue == [] && forall c :: 0 <= c < |s.consumers| ==> !s.consumers[c].Busy?
  {
    SumNonnegative(s.consumers, IsBusy());
    forall c | 0 <= c < |s.consumers|
      ensures !s.consumers[c].Busy?
    {
      SumAtLeast(s.consumers, IsBusy(), c);
    }
  }

  lemma GetStep(s: State, items: seq<real>, work: Entry -> Outcome, c: nat)
    requires Inv(s, items, work) && Enabled(s, Get(c))
    ensures Inv(Apply(s, work, Get(c)), items, work)
  {
    var t := Apply(s, work, Get(c));
    var e := s.queue[0];
    if s.cancelled {
      NothingUnfinished(s);
      assert false;
    }
    SumUpdate(s.consumers, c, Busy(e), IsBusy());
    SumUpdate(s.consumers, c, Busy(e), BusyFails(work));
    assert Entries(items)[|s.attempted|] == e;
    forall i: nat
      ensures HeldOnce(t, i)
    {
      assert HeldOnce(s, i);
      SumUpdate(s.consumers, c, Busy(e), IsAt(i));
    }
    forall i: nat | i < |items|
      ensures SlotOk(t, items, work, i)
    {
      assert SlotOk(s, items, work, i);
    }
  }

  /** When a consumer finishes an item, nobody has finished it before and its slot is empty. */
  lemma CompletingFirst(s: State, items: seq<real>, work: Entry -> Outcome, c: nat)
    requires Inv(s, items, work) && IsConsumer(s, c) && s.consumers[c].Busy?
    ensures Sum(s.finished, IsItem(s.consumers[c].entry.idx)) == 0
    ensures s.consumers[c].entry.idx < |s.results| && s.results[s.consumers[c].entry.idx] == None
    ensures s.unfinished >= 1 && !s.cancelled
  {
    var i := s.consumers[c].entry.idx;
    assert HeldOnce(s, i) && SlotOk(s, items, work, i);
    SumAtLeast(s.consumers, IsAt(i), c);
    SumNonnegative(s.finished, IsItem(i));
    SumAtLeast(s.consumers, IsBusy(), c);
  }

  lemma CompleteSlots(s: State, items: seq<real>, work: Entry -> Outcome, c: nat, i: nat)
    requires Inv(s, items, work) && Enabled(s, Complete(c)) && i < |items|
    ensures |Apply(s, work, Complete(c)).results| == |items|
    ensures SlotOk(Apply(s, work, Complete(c)), items, work, i)
  {
    var e := s.consumers[c].entry;
    assert SlotOk(s, items, work, i);
    CompletingFirst(s, items, work, c);
    SumAppend(s.finished, e, IsItem(i));
  }

  lemma CompleteHeld(s: State, items: seq<real>, work: Entry -> Outcome, c: nat, i: nat)
    requires Inv(s, items, work) && Enabled(s, Complete(c))
    ensures HeldOnce(Apply(s, work, Complete(c)), i)
  {
    assert HeldOnce(s, i);
    SumUpdate(s.consumers, c, Idle, IsAt(i));
    SumAppend(s.finished, s.consumers[c].entry, IsItem(i));
  }

  lemma CompleteJoin(s: State, work: Entry -> Outcome, c: nat)
    requires JoinAccounting(s) && Enabled(s, Complete(c))
    ensures JoinAccounting(Apply(s, work, Complete(c)))
  {
    SumUpdate(s.consumers, c, Idle, IsBusy());
  }

  lemma CompleteFailures(s: State, items: seq<real>, work: Entry -> Outcome, c: nat)
    requires FailureAccounting(s, items, work) && Enabled(s, Complete(c))
    ensures FailureAccounting(Apply(s, work, Complete(c)), items, work)
  {
    var t := Apply(s, work, Complete(c));
    SumUpdate(s.consumers, c, Idle, BusyFails(work));
    assert t.finished[..|t.finished| - 1] == s.finished;
  }

  lemma CompleteControl(s: State, items: seq<real>, work: Entry -> Outcome, c: nat)
    requires Inv(s, items, work) && Enabled(s, Complete(c))
    ensures var t := Apply(s, work, Complete(c));
            Control(t, items) && GoodEntries(t, items) && InOrder(t, items) && Answered(t)
  {
    CompletingFirst(s, items, work, c);
  }

  lemma CompleteStep(s: State, items: seq<real>, work: Entry -> Outcome, c: nat)
    requires Inv(s, items, work) && Enabled(s, Complete(c))
    ensures Inv(Apply(s, work, Complete(c)), items, work)
  {
    var t := Apply(s, work, Complete(c));
    CompleteControl(s, items, work, c);
    CompleteJoin(s, work, c);
    CompleteFailures(s, items, work, c);
    forall i: nat
      ensures HeldOnce(t, i)
    {
      CompleteHeld(s, items, work, c, i);
    }
    forall i: nat | i < |items|
      ensures |t.results| == |items| && SlotOk(t, items, work, i)
    {
      CompleteSlots(s, items, work, c, i);
    }
  }

  lemma DeliverStep(s: State, items: seq<real>, work: Entry -> Outcome, c: nat)
    requires Inv(s, items, work) && Enabled(s, Deliver(c))
    ensures Inv(Apply(s, work, Deliver(c)), items, work)
  {
    var t := Apply(s, work, Deliver(c));
    NothingUnfinished(s);
    SumUpdate(s.consumers, c, Gone, IsBusy());
    SumUpdate(s.consumers, c, Gone, BusyFails(work));
    forall i: nat
      ensures HeldOnce(t, i)
    {
      assert HeldOnce(s, i);
      SumUpdate(s.consumers, c, Gone, IsAt(i));
    }
    forall i: nat | i < |items|
      ensures SlotOk(t, items, work, i)
    {
      assert SlotOk(s, items, work, i);
    }
  }

  lemma MainStep(s: State, items: seq<real>, work: Entry -> Outcome, step: Step)
    requires Inv(s, items, work) && Enabled(s, step) && (step.JoinReturns? || step.GatherReturns?)
    ensures Inv(Apply(s, work, step), items, work)
  {
    var t := Apply(s, work, step);
    forall i: nat
      ensures HeldOnce(t, i)
    {
      assert HeldOnce(s, i);
    }
    forall i: nat | i < |items|
      ensures SlotOk(t, items, work, i)
    {
      assert SlotOk(s, items, work, i);
    }
  }

  lemma StepInv(s: State, items: seq<real>, work: Entry -> Outcome, step: Step)
    requires Inv(s, items, work) && Enabled(s, step)
    ensures Inv(Apply(s, work, step), items, work)
  {
    match step
    case Get(c) => GetStep(s, items, work, c);
    case Complete(c) => CompleteStep(s, items, work, c);
    case Deliver(c) => DeliverStep(s, items, work, c);
    case _ => MainStep(s, items, work, step);
  }

  lemma {:induction false} RunInv(s: State, items: seq<real>, work: Entry -> Outcome, run: seq<Step>)
    requires Inv(s, items, work) && Legal(s, work, run)
    ensures Inv(Exec(s, work, run), items, work)
    decreases |run|
  {
    if run != [] {
      StepInv(s, items, work, run[0]);
      RunInv(Apply(s, work, run[0]), items, work, run[1..]);
    }
  }

  lemma ReachableInv(items: seq<real>, workers: int, work: Entry -> Outcome, s: State)
    requires Reachable(items, workers, work, s)
    ensures Inv(s, items, work)
  {
    var run :| Legal(Init(items, workers), work, run) && Exec(Init(items, workers), work, run) == s;
    InitInv(items, workers, work);
    RunInv(Init(items, workers), items, work, run);
  }

  // ---------- Results ----------

  /**
   In every reachable state the unfinished count is queued plus held, so it is positive
   whenever `task_done` is called; and once the join has returned every consumer is idle or
   gone, the queue is empty and no cancellation has hit a consumer inside the work function.
   */
  lemma JoinMeansIdle(items: seq<real>, workers: int, work: Entry -> Outcome, s: State)
    requires Reachable(items, workers, work, s)
    ensures s.unfinished == |s.queue| + Sum(s.consumers, IsBusy())
    ensures forall c :: 0 <= c < |s.consumers| && s.consumers[c].Busy? ==> s.unfinished >= 1 && !s.cancelled
    ensures s.cancelled ==> s.queue == [] && forall c :: 0 <= c < |s.consumers| ==>
                              s.consumers[c].Idle? || s.consumers[c].Gone?
    ensures forall c :: 0 <= c < |s.consumers| ==> !s.consumers[c].Killed?
  {
    ReachableInv(items, workers, work, s);
    if s.cancelled {
      NothingUnfinished(s);
    }
    forall c: nat | c < |s.consumers| && s.consumers[c].Busy?
      ensures s.unfinished >= 1 && !s.cancelled
    {
      CompletingFirst(s, items, work, c);
    }
  }

  /** A result slot is empty whenever it is about to be written: no slot is written twice. */
  lemma SlotWrittenOnce(items: seq<real>, workers: int, work: Entry -> Outcome, s: State, c: nat)
    requires Reachable(items, workers, work, s) && IsConsumer(s, c) && s.consumers[c].Busy?
    ensures Enabled(s, Complete(c))
    ensures s.results[s.consumers[c].entry.idx] == None
  {
    ReachableInv(items, workers, work, s);
    CompletingFirst(s, items, work, c);
  }

  /** Every item was attempted once, in input order, and finished once. */
  ghost predicate AllDone(s: State, items: seq<real>) {
    && s.attempted == Entries(items)
    && forall i: nat :: i < |items| ==> Sum(s.finished, IsItem(i)) == 1
  }

  lemma CancelledAllDone(s: State, items: seq<real>, work: Entry -> Outcome)
    requires Inv(s, items, work) && s.cancelled
    ensures AllDone(s, items)
    ensures |s.failures| == FailCount(items, work)
    ensures forall i: nat :: i < |items| ==>
              s.results[i] == match work(Entry(i, items[i])) case Value(v) => Some(v) case Failure(_) => None
  {
    NothingUnfinished(s);
    SumZero(s.consumers, BusyFails(work));
    forall i: nat | i < |items|
      ensures Sum(s.finished, IsItem(i)) == 1
      ensures s.results[i] == match work(Entry(i, items[i])) case Value(v) => Some(v) case Failure(_) => None
    {
      assert HeldOnce(s, i) && SlotOk(s, items, work, i);
      SumZero(s.consumers, IsAt(i));
    }
  }

  ghost predicate SomeFails(items: seq<real>, work: Entry -> Outcome) {
    exists i: nat :: i < |items| && work(Entry(i, items[i])).Failure?
  }

  lemma FailCountPositive(items: seq<real>, work: Entry -> Outcome)
    ensures FailCount(items, work) > 0 <==> SomeFails(items, work)
    ensures FailCount(items, work) >= 0
  {
    var entries := Entries(items);
    SumNonnegative(entries, Fails(work));
    if FailCount(items, work) > 0 {
      var i := SumWitness(entries, Fails(work));
      assert work(Entry(i, items[i])).Failure?;
    }
    if SomeFails(items, work) {
      var i: nat :| i < |items| && work(Entry(i, items[i])).Failure?;
      SumAtLeast(entries, Fails(work), i);
    }
  }

  /**
   The pipeline refines `map`: for every number of workers and every schedule it returns
   exactly when no item fails, and then the list holds the work function's value for each
   item, in input order, with no slot filled by the fallback.
   */
  lemma RefinesMap(items: seq<real>, workers: int, work: Entry -> Outcome, s: State)
    requires Reachable(items, workers, work, s) && (s.main.Returned? || s.main.Raised?)
    ensures s.main.Returned? <==> !SomeFails(items, work)
    ensures s.main.Returned? ==>
              && |s.main.list| == |s.results| == |items|
              && (forall i :: 0 <= i < |items| ==>
                    s.results[i].Some? && s.main.list[i] == work(Entry(i, items[i])).result)
    ensures AllDone(s, items)
  {
    ReachableInv(items, workers, work, s);
    CancelledAllDone(s, items, work);
    FailCountPositive(items, work);
  }

  // ---------- Every schedule ends ----------

  ghost function Work(s: State): int {
    2 * |s.queue| + Sum(s.consumers, IsBusy()) + Sum(s.consumers, IsLive())
    + match s.main case Joining => 2 case Gathering => 1 case _ => 0
  }

  /** Twice the queued plus the held items, and what is left of the wind-down, always shrinks. */
  lemma StepWorks(s: State, items: seq<real>, work: Entry -> Outcome, step: Step)
    requires Inv(s, items, work) && Enabled(s, step)
    ensures 0 <= Work(Apply(s, work, step)) < Work(s)
  {
    var t := Apply(s, work, step);
    if step.Get? || step.Complete? || step.Deliver? {
      SumUpdate(s.consumers, step.c, t.consumers[step.c], IsBusy());
      SumUpdate(s.consumers, step.c, t.consumers[step.c], IsLive());
    }
    if step.Deliver? {
      NothingUnfinished(s);
    }
    SumNonnegative(t.consumers, IsBusy());
    SumNonnegative(t.consumers, IsLive());
  }

  /** A pipeline that has not answered is never stuck. */
  lemma NeverStuck(s: State, items: seq<real>, work: Entry -> Outcome) returns (step: Step)
    requires Inv(s, items, work) && !s.main.Returned? && !s.main.Raised?
    ensures Enabled(s, step)
  {
    if c: nat :| c < |s.consumers| && s.consumers[c].Busy? {
      step := Complete(c);
    } else if s.cancelled {
      if c: nat :| c < |s.consumers| && s.consumers[c].Idle? {
        step := Deliver(c);
      } else {
        step := GatherReturns;
      }
    } else if s.queue != [] {
      step := Get(0);
    } else {
      SumZero(s.consumers, IsBusy());
      step := JoinReturns;
    }
  }

  lemma {:induction false} RunBounded(s: State, items: seq<real>, work: Entry -> Outcome, run: seq<Step>)
    requires Inv(s, items, work) && Legal(s, work, run)
    ensures |run| <= Work(s)
    decreases |run|
  {
    if run == [] {
      SumNonnegative(s.consumers, IsBusy());
      SumNonnegative(s.consumers, IsLive());
    } else {
      StepInv(s, items, work, run[0]);
      StepWorks(s, items, work, run[0]);
      RunBounded(Apply(s, work, run[0]), items, work, run[1..]);
    }
  }

  lemma InitialWork(items: seq<real>, workers: int)
    ensures Work(Init(items, workers)) <= 2 * |items| + (if workers < 1 then 1 else workers) + 2
  {
    var s := Init(items, workers);
    SumZero(s.consumers, IsBusy());
    SumBound(s.consumers, s.consumers, IsLive(), IsBusy(), 1);
  }

  /**
   Every schedule ends with an answer: it takes at most two steps per item, one per consumer
   and two of the caller, and where no step is left the pipeline has returned or raised.
   */
  lemma EverySchedule(items: seq<real>, workers: int, work: Entry -> Outcome, run: seq<Step>)
    requires Legal(Init(items, workers), work, run)
    ensures |run| <= 2 * |items| + (if workers < 1 then 1 else workers) + 2
    ensures var s := Exec(Init(items, workers), work, run);
            (forall step :: !Enabled(s, step)) ==> s.main.Returned? || s.main.Raised?
  {
    var s0 := Init(items, workers);
    var s := Exec(s0, work, run);
    InitInv(items, workers, work);
    RunBounded(s0, items, work, run);
    InitialWork(items, workers);
    RunInv(s0, items, work, run);
    if !s.main.Returned? && !s.main.Raised? {
      var step := NeverStuck(s, items, work);
    }
  }
}
