/** The retried fan-out ends under every schedule, provided the downstream service answers. */
module FanOutProgress {
  import opened Options
  import opened Sums
  import opened Arithmetic
  import opened FanOut

  ghost function TaskWeight(): Task -> int {
    (task: Task) => if task.Pending? then 2 else if task.InFlight? then 1 else 0
  }

  ghost function RoundWeight(): Round -> int {
    (round: Round) => Sum(round.tasks, TaskWeight())
  }

  /** Requests not yet sent or answered, and a full attempt for each one still allowed. */
  ghost function Work(cfg: Config, s: State): int {
    Sum(s.rounds, RoundWeight())
    + (cfg.attempts - |s.rounds|) * (2 * |cfg.items| + 2)
    + match s.pc case Gathering => 2 case BackingOff => 1 case Finished(_) => 0
  }

  lemma NewRoundWeight(cfg: Config)
    ensures RoundWeight()(NewRound(cfg)) <= 2 * |cfg.items|
  {
    var tasks := NewRound(cfg).tasks;
    SumZero(tasks, IsInFlight());
    SumBound(tasks, tasks, TaskWeight(), IsInFlight(), 2);
  }

  lemma RequestWorks(cfg: Config, s: State, step: Step)
    requires Enabled(cfg, s, step) && (step.Acquire? || step.Respond?)
    ensures Work(cfg, Apply(cfg, s, step)) == Work(cfg, s) - 1
  {
    var t := Apply(cfg, s, step);
    SumUpdate(s.rounds[step.r].tasks, step.i, t.rounds[step.r].tasks[step.i], TaskWeight());
    SumUpdate(s.rounds, step.r, t.rounds[step.r], RoundWeight());
  }

  lemma RetryWorks(cfg: Config, s: State)
    requires s.pc.BackingOff?
    ensures Work(cfg, Apply(cfg, s, RetryNow)) <= Work(cfg, s) - 1
  {
    var full := 2 * |cfg.items| + 2;
    NewRoundWeight(cfg);
    SumAppend(s.rounds, NewRound(cfg), RoundWeight());
    TimesPred(cfg.attempts - |s.rounds|, full);
  }

  lemma StepWorks(cfg: Config, s: State, step: Step)
    requires Enabled(cfg, s, step)
    ensures Work(cfg, Apply(cfg, s, step)) < Work(cfg, s)
  {
    match step
    case Acquire(_, _) => RequestWorks(cfg, s, step);
    case Respond(_, _, _) => RequestWorks(cfg, s, step);
    case RetryNow => RetryWorks(cfg, s);
    case _ =>
  }

  lemma WorkNonnegative(cfg: Config, s: State)
    requires Inv(cfg, s)
    ensures Work(cfg, s) >= 0
  {
    forall r | 0 <= r < |s.rounds|
      ensures RoundWeight()(s.rounds[r]) >= 0
    {
      SumNonnegative(s.rounds[r].tasks, TaskWeight());
    }
    SumNonnegative(s.rounds, RoundWeight());
    MulMonotone(0, cfg.attempts - |s.rounds|, 2 * |cfg.items| + 2);
  }

  /** An attempt still gathering can send a request, take an answer, or be gathered. */
  lemma GatheringMoves(cfg: Config, s: State) returns (step: Step)
    requires Inv(cfg, s) && s.pc.Gathering?
    ensures Enabled(cfg, s, step)
  {
    var r := |s.rounds| - 1;
    var round := s.rounds[r];
    assert RoundOk(cfg, round);
    if round.firstFailed.Some? {
      step := GatherErr;
    } else if i: nat :| i < |round.tasks| && round.tasks[i].InFlight? {
      step := Respond(r, i, Answer(0.0));
    } else if i: nat :| i < |round.tasks| && round.tasks[i].Pending? {
      SumZero(round.tasks, IsInFlight());
      step := Acquire(r, i);
    } else {
      step := GatherOk;
    }
  }

  lemma {:induction false} RunBounded(cfg: Config, s: State, run: seq<Step>)
    requires Inv(cfg, s) && Legal(cfg, s, run)
    ensures |run| <= Work(cfg, s)
    decreases |run|
  {
    if run == [] {
      WorkNonnegative(cfg, s);
    } else {
      StepInv(cfg, s, run[0]);
      StepWorks(cfg, s, run[0]);
      RunBounded(cfg, Apply(cfg, s, run[0]), run[1..]);
    }
  }

  lemma InitialWork(cfg: Config)
    ensures Work(cfg, Init(cfg)) <= cfg.attempts * (2 * |cfg.items| + 2)
  {
    NewRoundWeight(cfg);
    assert Init(cfg).rounds == [] + [NewRound(cfg)];
    SumAppend([], NewRound(cfg), RoundWeight());
    TimesPred(cfg.attempts, 2 * |cfg.items| + 2);
  }

  /**
   Every schedule takes at most 2 steps per item and 2 more for each attempt, stragglers of
   failed attempts included, and where no step is left the retried call has finished.
   */
  lemma EverySchedule(cfg: Config, run: seq<Step>)
    requires Sensible(cfg) && Legal(cfg, Init(cfg), run)
    ensures |run| <= cfg.attempts * (2 * |cfg.items| + 2)
    ensures var s := Exec(cfg, Init(cfg), run);
            (forall step :: !Enabled(cfg, s, step)) ==> s.pc.Finished?
  {
    var s := Exec(cfg, Init(cfg), run);
    NewRoundOk(cfg);
    InitialWork(cfg);
    RunBounded(cfg, Init(cfg), run);
    RunInv(cfg, Init(cfg), run);
    if s.pc.Gathering? {
      var step := GatheringMoves(cfg, s);
    } else if s.pc.BackingOff? {
      assert Enabled(cfg, s, RetryNow);
    }
  }
}
