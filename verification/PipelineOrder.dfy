/**
 The queue pipeline told by its schedule: which item a consumer is handed, which failure is
 raised and how often an item is worked on, read off the steps of the run.
 */
module PipelineOrder {
  import opened Options
  import opened Sums
  import opened QueuePipeline

  // ---------- Reading a run ----------

  /** How often an item was taken from the queue. */
  function Gets(run: seq<Step>): nat {
    if run == [] then 0 else Gets(run[..|run| - 1]) + if run[|run| - 1].Get? then 1 else 0
  }

  /** The number of the item consumer `c` is working on: the k-th `get` hands out item k. */
  function Held(run: seq<Step>, c: nat): Option<nat> {
    if run == [] then None
    else
      var front, last := run[..|run| - 1], run[|run| - 1];
      if last == Get(c) then Some(Gets(front)) else if last == Complete(c) then None else Held(front, c)
  }

  /** How often a consumer has finished work on item `i`. */
  function Completions(run: seq<Step>, i: nat): nat {
    if run == [] then 0
    else
      var front, last := run[..|run| - 1], run[|run| - 1];
      Completions(front, i) + if last.Complete? && Held(front, last.c) == Some(i) then 1 else 0
  }

  /** The error of the first item to finish with a failure. */
  function FirstError(items: seq<real>, work: Entry -> Outcome, run: seq<Step>): Option<int> {
    if run == [] then None
    else
      var front, last := run[..|run| - 1], run[|run| - 1];
      var before := FirstError(items, work, front);
      if before.Some? || !last.Complete? then before
      else
        match Held(front, last.c)
        case None => None
        case Some(i) => if i < |items| then ErrorOf(work(Entry(i, items[i]))) else None
  }

  function ErrorOf(outcome: Outcome): Option<int> {
    match outcome
    case Value(_) => None
    case Failure(error) => Some(error)
  }

  // ---------- The state records the run ----------

  ghost predicate ConsumerTells(consumer: Consumer, held: Option<nat>) {
    if consumer.Busy? then held == Some(consumer.entry.idx) else held.None?
  }

  ghost predicate ConsumersTell(s: State, run: seq<Step>) {
    forall c: nat :: c < |s.consumers| ==> ConsumerTells(s.consumers[c], Held(run, c))
  }

  ghost predicate FinishedTells(s: State, run: seq<Step>) {
    forall i: nat :: Sum(s.finished, IsItem(i)) == Completions(run, i)
  }

  ghost predicate ErrorTells(items: seq<real>, work: Entry -> Outcome, s: State, run: seq<Step>) {
    FirstError(items, work, run) == if s.failures == [] then None else Some(s.failures[0])
  }

  ghost predicate Recorded(items: seq<real>, work: Entry -> Outcome, s: State, run: seq<Step>) {
    |s.attempted| == Gets(run) && ConsumersTell(s, run) && FinishedTells(s, run) && ErrorTells(items, work, s, run)
  }

  /** What one more step adds to the readings of a run. */
  lemma OneMore(run: seq<Step>, step: Step)
    ensures (run + [step])[..|run + [step]| - 1] == run && (run + [step])[|run + [step]| - 1] == step
  {
  }

  lemma StepConsumer(items: seq<real>, work: Entry -> Outcome, s: State, run: seq<Step>, step: Step, c: nat)
    requires Inv(s, items, work) && Recorded(items, work, s, run) && Enabled(s, step) && c < |s.consumers|
    ensures |Apply(s, work, step).consumers| == |s.consumers|
    ensures ConsumerTells(Apply(s, work, step).consumers[c], Held(run + [step], c))
  {
    OneMore(run, step);
    assert ConsumerTells(s.consumers[c], Held(run, c));
    if step.Get? {
      assert Entries(items)[|s.attempted|] == s.queue[0];
    } else if step.Deliver? {
      NothingUnfinished(s);
    }
  }

  lemma StepCompletions(items: seq<real>, work: Entry -> Outcome, s: State, run: seq<Step>, step: Step, i: nat)
    requires Inv(s, items, work) && Recorded(items, work, s, run) && Enabled(s, step)
    ensures Sum(Apply(s, work, step).finished, IsItem(i)) == Completions(run + [step], i)
  {
    OneMore(run, step);
    if step.Complete? {
      assert ConsumerTells(s.consumers[step.c], Held(run, step.c));
      SumAppend(s.finished, s.consumers[step.c].entry, IsItem(i));
    }
  }

  lemma StepError(items: seq<real>, work: Entry -> Outcome, s: State, run: seq<Step>, step: Step)
    requires Inv(s, items, work) && Recorded(items, work, s, run) && Enabled(s, step)
    ensures ErrorTells(items, work, Apply(s, work, step), run + [step])
  {
    OneMore(run, step);
    if step.Complete? {
      var e := s.consumers[step.c].entry;
      assert ConsumerTells(s.consumers[step.c], Held(run, step.c));
      assert GoodEntry(items, e) && e == Entry(e.idx, items[e.idx]);
    }
  }

  lemma StepRecorded(items: seq<real>, work: Entry -> Outcome, s: State, run: seq<Step>, step: Step)
    requires Inv(s, items, work) && Recorded(items, work, s, run) && Enabled(s, step)
    ensures Recorded(items, work, Apply(s, work, step), run + [step])
  {
    var t := Apply(s, work, step);
    OneMore(run, step);
    StepError(items, work, s, run, step);
    forall c: nat | c < |t.consumers|
      ensures ConsumerTells(t.consumers[c], Held(run + [step], c))
    {
      StepConsumer(items, work, s, run, step, c);
    }
    forall i: nat
      ensures Sum(t.finished, IsItem(i)) == Completions(run + [step], i)
    {
      StepCompletions(items, work, s, run, step, i);
    }
  }

  /** A run seen from its last step. */
  lemma {:induction false} ExecFront(work: Entry -> Outcome, s: State, run: seq<Step>)
    requires run != [] && Legal(s, work, run)
    ensures var front, last := run[..|run| - 1], run[|run| - 1];
            && Legal(s, work, front) && Enabled(Exec(s, work, front), last)
            && Exec(s, work, run) == Apply(Exec(s, work, front), work, last)
    decreases |run|
  {
    if |run| > 1 {
      var t := Apply(s, work, run[0]);
      ExecFront(work, t, run[1..]);
      assert run[1..][..|run| - 2] == run[..|run| - 1][1..];
    } else {
      assert run[..0] == [] && run[1..] == [];
      assert Legal(s, work, []) && Exec(s, work, []) == s;
    }
  }

  lemma {:induction false} RunRecorded(items: seq<real>, work: Entry -> Outcome, s: State, run: seq<Step>)
    requires Inv(s, items, work) && Recorded(items, work, s, []) && Legal(s, work, run)
    ensures Recorded(items, work, Exec(s, work, run), run)
    decreases |run|
  {
    if run != [] {
      var front, last := run[..|run| - 1], run[|run| - 1];
      ExecFront(work, s, run);
      var t := Exec(s, work, front);
      RunInv(s, items, work, front);
      RunRecorded(items, work, s, front);
      StepRecorded(items, work, t, front, last);
      assert Apply(t, work, last) == Exec(s, work, run);
      assert front + [last] == run;
    }
  }

  /** A schedule of the pipeline from its beginning. */
  ghost predicate IsRun(items: seq<real>, workers: int, work: Entry -> Outcome, run: seq<Step>) {
    Legal(Init(items, workers), work, run)
  }

  ghost function End(items: seq<real>, workers: int, work: Entry -> Outcome, run: seq<Step>): State
    requires IsRun(items, workers, work, run)
  {
    Exec(Init(items, workers), work, run)
  }

  lemma EndRecorded(items: seq<real>, workers: int, work: Entry -> Outcome, run: seq<Step>)
    requires IsRun(items, workers, work, run)
    ensures Inv(End(items, workers, work, run), items, work)
    ensures Recorded(items, work, End(items, workers, work, run), run)
  {
    InitInv(items, workers, work);
    RunInv(Init(items, workers), items, work, run);
    RunRecorded(items, work, Init(items, workers), run);
  }

  // ---------- Results ----------

  /** Items are handed out in input order: the k-th `get`, whoever calls it, gives item k. */
  lemma HandedOutInOrder(items: seq<real>, workers: int, work: Entry -> Outcome, run: seq<Step>, c: nat)
    requires IsRun(items, workers, work, run) && Enabled(End(items, workers, work, run), Get(c))
    ensures Gets(run) < |items|
    ensures Apply(End(items, workers, work, run), work, Get(c)).consumers[c] == Busy(Entry(Gets(run), items[Gets(run)]))
  {
    EndRecorded(items, workers, work, run);
    var s := End(items, workers, work, run);
    assert Entries(items)[|s.attempted|] == s.queue[0];
  }

  lemma {:induction false} ExecAppend(work: Entry -> Outcome, s: State, run: seq<Step>, step: Step)
    requires Legal(s, work, run) && Enabled(Exec(s, work, run), step)
    ensures Legal(s, work, run + [step])
    ensures Exec(s, work, run + [step]) == Apply(Exec(s, work, run), work, step)
    decreases |run|
  {
    if run == [] {
      assert run + [step] == [step];
      assert Legal(Apply(s, work, step), work, []);
    } else {
      assert (run + [step])[1..] == run[1..] + [step];
      ExecAppend(work, Apply(s, work, run[0]), run[1..], step);
    }
  }

  /** There are as many consumers as configured, at least one, at every moment. */
  lemma ConsumerCount(items: seq<real>, workers: int, work: Entry -> Outcome, s: State)
    requires Reachable(items, workers, work, s)
    ensures |s.consumers| == if workers < 1 then 1 else workers
  {
    var run :| Legal(Init(items, workers), work, run) && Exec(Init(items, workers), work, run) == s;
    CountStays(work, Init(items, workers), run);
  }

  lemma {:induction false} CountStays(work: Entry -> Outcome, s: State, run: seq<Step>)
    requires Legal(s, work, run)
    ensures |Exec(s, work, run).consumers| == |s.consumers|
    decreases |run|
  {
    if run != [] {
      CountStays(work, Apply(s, work, run[0]), run[1..]);
    }
  }

  /**
   Consumers move in any order: each one that holds nothing can be the next to take an item
   while there is one, and each one at work can be the next to finish.
   */
  lemma AnyOrder(items: seq<real>, workers: int, work: Entry -> Outcome, run: seq<Step>, c: nat)
    requires IsRun(items, workers, work, run) && c < if workers < 1 then 1 else workers
    ensures Held(run, c).None? && Gets(run) < |items| ==> IsRun(items, workers, work, run + [Get(c)])
    ensures Held(run, c).Some? ==> IsRun(items, workers, work, run + [Complete(c)])
  {
    EndRecorded(items, workers, work, run);
    CountStays(work, Init(items, workers), run);
    var s := End(items, workers, work, run);
    assert ConsumerTells(s.consumers[c], Held(run, c));
    if s.consumers[c].Busy? {
      CompletingFirst(s, items, work, c);
      ExecAppend(work, Init(items, workers), run, Complete(c));
    } else if Gets(run) < |items| {
      if s.cancelled {
        NothingUnfinished(s);
      }
      ExecAppend(work, Init(items, workers), run, Get(c));
    }
  }

  /**
   When the pipeline has answered, every item has been handed out and worked on once, whatever
   failed. It raises exactly when some item fails, and then the error of the first item to
   finish with a failure; as many failures are recorded as items fail.
   */
  lemma RaisesFirstFailure(items: seq<real>, workers: int, work: Entry -> Outcome, run: seq<Step>)
    requires IsRun(items, workers, work, run)
    requires End(items, workers, work, run).main.Returned? || End(items, workers, work, run).main.Raised?
    ensures var s := End(items, workers, work, run);
            && (s.main.Raised? <==> SomeFails(items, work))
            && (match FirstError(items, work, run)
                case None => s.main.Returned?
                case Some(error) => s.main == Raised(error))
            && |s.failures| == FailCount(items, work)
    ensures Gets(run) == |items| && forall i: nat :: i < |items| ==> Completions(run, i) == 1
  {
    EndRecorded(items, workers, work, run);
    var s := End(items, workers, work, run);
    CancelledAllDone(s, items, work);
    FailCountPositive(items, work);
    forall i: nat | i < |items|
      ensures Completions(run, i) == 1
    {
      assert Sum(s.finished, IsItem(i)) == 1;
    }
  }

  // ---------- The consumers ----------

  /** The first `m` items handed out, one to each of the first `m` consumers. */
  function Stage(items: seq<real>, workers: int, m: nat): State
    requires m <= |items|
  {
    var entries := Entries(items);
    Init(items, workers).(
      queue := entries[m..], attempted := entries[..m],
      consumers := seq(|Init(items, workers).consumers|,
                       c requires 0 <= c => if c < m then Busy(entries[c]) else Idle))
  }

  lemma StageNext(items: seq<real>, workers: int, work: Entry -> Outcome, m: nat)
    requires m < |items| && m < |Init(items, workers).consumers|
    ensures Enabled(Stage(items, workers, m), Get(m))
    ensures Apply(Stage(items, workers, m), work, Get(m)) == Stage(items, workers, m + 1)
  {
    var s, t, e := Stage(items, workers, m), Stage(items, workers, m + 1), Entries(items)[m];
    assert s.queue == [e] + t.queue;
    assert s.attempted + [e] == t.attempted;
    assert s.consumers[m := Busy(e)] == t.consumers;
  }

  lemma {:induction false} StageReachable(items: seq<real>, workers: int, work: Entry -> Outcome, m: nat)
    requires m <= |items| && m <= |Init(items, workers).consumers|
    ensures Reachable(items, workers, work, Stage(items, workers, m))
    decreases m
  {
    var s0 := Init(items, workers);
    if m == 0 {
      assert Stage(items, workers, 0) == s0;
      assert Legal(s0, work, []) && Exec(s0, work, []) == s0;
    } else {
      StageReachable(items, workers, work, m - 1);
      StageNext(items, workers, work, m - 1);
      var run :| Legal(s0, work, run) && Exec(s0, work, run) == Stage(items, workers, m - 1);
      ExecAppend(work, s0, run, Get(m - 1));
    }
  }

  /** As many consumers as there are, or as there are items for, can be at work at once. */
  lemma AllAtOnce(items: seq<real>, workers: int, work: Entry -> Outcome)
    ensures var most := if workers < 1 then 1 else workers;
            exists s :: Reachable(items, workers, work, s) && |s.consumers| == most
                        && forall c :: 0 <= c < most && c < |items| ==> s.consumers[c].Busy?
  {
    var most := if workers < 1 then 1 else workers;
    var m := if most < |items| then most else |items|;
    StageReachable(items, workers, work, m);
    ConsumerCount(items, workers, work, Stage(items, workers, m));
  }
}
