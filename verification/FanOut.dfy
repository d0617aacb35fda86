/**
 The semaphore-bounded fan-out under the retry loop, as a transition system.

 Each attempt creates a fresh semaphore and one task per item. A gather raises as soon as one
 task has failed and leaves the others running, so requests of earlier attempts may still be
 in flight while later ones start theirs. What the downstream service answers is arbitrary: a
 number, an HTTP error, or something that is neither.
 */
module FanOut {
  import opened Options
  import opened Sums
  import opened Arithmetic
  import Retry

  datatype Config = Config(items: seq<real>, concurrency: int, attempts: nat) {
    /** The semaphore's initial value: limits below 1 act like 1. */
    const limit: nat := if concurrency < 1 then 1 else concurrency
  }

  datatype Task = Pending | InFlight | Done(value: real) | Failed(retryable: bool, error: int)

  datatype Round = Round(permits: int, tasks: seq<Task>, firstFailed: Option<nat>)

  datatype Pc = Gathering | BackingOff | Finished(result: Retry.Result<seq<real>>)

  /** `verdicts` records how each finished gather ended. */
  datatype State = State(rounds: seq<Round>, pc: Pc, verdicts: seq<Retry.Attempt<seq<real>>>)

  /** What comes back for a request. */
  datatype Reply = Answer(value: real) | HttpError(error: int) | OtherError(error: int)

  datatype Step =
    | Acquire(r: nat, i: nat)
    | Respond(r: nat, i: nat, reply: Reply)
    | GatherOk
    | GatherErr
    | RetryNow

  ghost predicate Sensible(cfg: Config) {
    cfg.attempts >= 1
  }

  function NewRound(cfg: Config): Round {
    Round(cfg.limit, seq(|cfg.items|, _ => Pending), None)
  }

  function Init(cfg: Config): State {
    State([NewRound(cfg)], Gathering, [])
  }

  predicate IsTask(s: State, r: nat, i: nat) {
    r < |s.rounds| && i < |s.rounds[r].tasks|
  }

  function Last(s: State): Round
    requires s.rounds != []
  {
    s.rounds[|s.rounds| - 1]
  }

  ghost predicate Enabled(cfg: Config, s: State, step: Step) {
    match step
    case Acquire(r, i) => IsTask(s, r, i) && s.rounds[r].tasks[i].Pending? && s.rounds[r].permits > 0
    case Respond(r, i, reply) => IsTask(s, r, i) && s.rounds[r].tasks[i].InFlight?
    case GatherOk =>
      s.pc.Gathering? && s.rounds != [] && forall i :: 0 <= i < |Last(s).tasks| ==> Last(s).tasks[i].Done?
    case GatherErr =>
      && s.pc.Gathering? && s.rounds != [] && Last(s).firstFailed.Some?
      && Last(s).firstFailed.value < |Last(s).tasks| && Last(s).tasks[Last(s).firstFailed.value].Failed?
    case RetryNow => s.pc.BackingOff?
  }

  function TaskAfter(reply: Reply): Task {
    match reply
    case Answer(v) => Done(v)
    case HttpError(e) => Failed(true, e)
    case OtherError(e) => Failed(false, e)
  }

  /** The values of completed tasks in the order of the items. */
  function Values(tasks: seq<Task>): seq<real> {
    seq(|tasks|, i requires 0 <= i < |tasks| => if tasks[i].Done? then tasks[i].value else 0.0)
  }

  function SetRound(s: State, r: nat, round: Round): State
    requires r < |s.rounds|
  {
    s.(rounds := s.rounds[r := round])
  }

  ghost function Apply(cfg: Config, s: State, step: Step): State
    requires Enabled(cfg, s, step)
  {
    match step
    case Acquire(r, i) =>
      var round := s.rounds[r];
      SetRound(s, r, round.(permits := round.permits - 1, tasks := round.tasks[i := InFlight]))
    case Respond(r, i, reply) =>
      var round := s.rounds[r];
      var task := TaskAfter(reply);
      SetRound(s, r, Round(round.permits + 1, round.tasks[i := task],
                           if task.Failed? && round.firstFailed.None? then Some(i) else round.firstFailed))
    case GatherOk =>
      var list := Values(Last(s).tasks);
      s.(pc := Finished(Retry.Success(list)), verdicts := s.verdicts + [Retry.Ok(list)])
    case GatherErr =>
      var task := Last(s).tasks[Last(s).firstFailed.value];
      if !task.retryable then
        s.(pc := Finished(Retry.Raised(task.error)), verdicts := s.verdicts + [Retry.Fatal(task.error)])
      else
        s.(pc := if |s.rounds| >= cfg.attempts then Finished(Retry.Raised(task.error)) else BackingOff,
           verdicts := s.verdicts + [Retry.Retryable(task.error)])
    case RetryNow => s.(rounds := s.rounds + [NewRound(cfg)], pc := Gathering)
  }

  ghost predicate Legal(cfg: Config, s: State, run: seq<Step>)
    decreases |run|
  {
    run == [] || (Enabled(cfg, s, run[0]) && Legal(cfg, Apply(cfg, s, run[0]), run[1..]))
  }

  ghost function Exec(cfg: Config, s: State, run: seq<Step>): State
    requires Legal(cfg, s, run)
    decreases |run|
  {
    if run == [] then s else Exec(cfg, Apply(cfg, s, run[0]), run[1..])
  }

  ghost predicate Reachable(cfg: Config, s: State) {
    Sensible(cfg) && exists run :: Legal(cfg, Init(cfg), run) && Exec(cfg, Init(cfg), run) == s
  }

  lemma {:induction false} ExecAppend(cfg: Config, s: State, run: seq<Step>, step: Step)
    requires Legal(cfg, s, run) && Enabled(cfg, Exec(cfg, s, run), step)
    ensures Legal(cfg, s, run + [step]) && Exec(cfg, s, run + [step]) == Apply(cfg, Exec(cfg, s, run), step)
    decreases |run|
  {
    if run == [] {
      assert run + [step] == [step];
      assert Legal(cfg, Apply(cfg, s, step), []);
    } else {
      assert (run + [step])[1..] == run[1..] + [step];
      ExecAppend(cfg, Apply(cfg, s, run[0]), run[1..], step);
    }
  }

  // ---------- The invariant ----------

  ghost function IsInFlight(): Task -> int {
    (task: Task) => if task.InFlight? then 1 else 0
  }

  /** Requests of one attempt that are in flight. */
  ghost function InFlightIn(): Round -> int {
    (round: Round) => Sum(round.tasks, IsInFlight())
  }

  /** Requests in flight over all attempts. */
  ghost function TotalInFlight(s: State): int {
    Sum(s.rounds, InFlightIn())
  }

  ghost predicate RoundOk(cfg: Config, round: Round) {
    && |round.tasks| == |cfg.items|
    && round.permits >= 0
    && round.permits + InFlightIn()(round) == cfg.limit
    && (round.firstFailed.Some? ==>
          round.firstFailed.value < |round.tasks| && round.tasks[round.firstFailed.value].Failed?)
    && (round.firstFailed.None? ==> forall i :: 0 <= i < |round.tasks| ==> !round.tasks[i].Failed?)
  }

  predicate AllDone(round: Round) {
    forall i :: 0 <= i < |round.tasks| ==> round.tasks[i].Done?
  }

  function FirstFailure(round: Round): Option<Task> {
    if round.firstFailed.Some? && round.firstFailed.value < |round.tasks|
    then Some(round.tasks[round.firstFailed.value]) else None
  }

  /** A gather ended with all answers in order, or with the failure of its first failed task. */
  ghost predicate VerdictOk(round: Round, verdict: Retry.Attempt<seq<real>>) {
    match verdict
    case Ok(list) => AllDone(round) && list == Values(round.tasks)
    case Retryable(e) => FirstFailure(round) == Some(Failed(true, e))
    case Fatal(e) => FirstFailure(round) == Some(Failed(false, e))
  }

  ghost predicate Inv(cfg: Config, s: State) {
    && Sensible(cfg)
    && 1 <= |s.rounds| <= cfg.attempts
    && (forall r :: 0 <= r < |s.rounds| ==> RoundOk(cfg, s.rounds[r]))
    && |s.verdicts| == (if s.pc.Gathering? then |s.rounds| - 1 else |s.rounds|)
    && (forall r :: 0 <= r < |s.verdicts| ==> VerdictOk(s.rounds[r], s.verdicts[r]))
    && (forall r :: 0 <= r < |s.verdicts| ==> (s.pc.Finished? && r == |s.verdicts| - 1) || s.verdicts[r].Retryable?)
    && (s.pc.BackingOff? ==> |s.rounds| < cfg.attempts)
    && (s.pc.Finished? ==>
          var last := s.verdicts[|s.verdicts| - 1];
          && s.pc.result == Retry.Final(last)
          && (last.Retryable? ==> |s.rounds| == cfg.attempts))
  }

  lemma NewRoundOk(cfg: Config)
    ensures RoundOk(cfg, NewRound(cfg)) && InFlightIn()(NewRound(cfg)) == 0
  {
    SumZero(NewRound(cfg).tasks, IsInFlight());
  }

  lemma AcquireRound(cfg: Config, round: Round, i: nat)
    requires RoundOk(cfg, round) && i < |round.tasks| && round.tasks[i].Pending? && round.permits > 0
    ensures RoundOk(cfg, round.(permits := round.permits - 1, tasks := round.tasks[i := InFlight]))
  {
    SumUpdate(round.tasks, i, InFlight, IsInFlight());
  }

  lemma RespondRound(cfg: Config, round: Round, i: nat, reply: Reply)
    requires RoundOk(cfg, round) && i < |round.tasks| && round.tasks[i].InFlight?
    ensures var task := TaskAfter(reply);
            RoundOk(cfg, Round(round.permits + 1, round.tasks[i := task],
                               if task.Failed? && round.firstFailed.None? then Some(i) else round.firstFailed))
  {
    SumUpdate(round.tasks, i, TaskAfter(reply), IsInFlight());
  }

  /** Sending or answering a request of a round keeps the verdict already given on it. */
  lemma SetRoundInv(cfg: Config, s: State, r: nat, i: nat, round: Round)
    requires Inv(cfg, s) && IsTask(s, r, i) && (s.rounds[r].tasks[i].Pending? || s.rounds[r].tasks[i].InFlight?)
    requires RoundOk(cfg, round)
    requires FirstFailure(s.rounds[r]).Some? ==> FirstFailure(round) == FirstFailure(s.rounds[r])
    ensures Inv(cfg, SetRound(s, r, round))
  {
    var t := SetRound(s, r, round);
    forall q | 0 <= q < |t.verdicts|
      ensures VerdictOk(t.rounds[q], t.verdicts[q])
    {
      assert VerdictOk(s.rounds[q], s.verdicts[q]);
    }
  }

  lemma GatherInv(cfg: Config, s: State, step: Step)
    requires Inv(cfg, s) && Enabled(cfg, s, step) && (step.GatherOk? || step.GatherErr?)
    ensures Inv(cfg, Apply(cfg, s, step))
  {
    var t := Apply(cfg, s, step);
    assert VerdictOk(Last(s), t.verdicts[|s.verdicts|]);
  }

  lemma RetryInv(cfg: Config, s: State)
    requires Inv(cfg, s) && s.pc.BackingOff?
    ensures Inv(cfg, Apply(cfg, s, RetryNow))
  {
    NewRoundOk(cfg);
  }

  lemma StepInv(cfg: Config, s: State, step: Step)
    requires Inv(cfg, s) && Enabled(cfg, s, step)
    ensures Inv(cfg, Apply(cfg, s, step))
  {
    match step
    case Acquire(r, i) =>
      AcquireRound(cfg, s.rounds[r], i);
      SetRoundInv(cfg, s, r, i, Apply(cfg, s, step).rounds[r]);
    case Respond(r, i, reply) =>
      RespondRound(cfg, s.rounds[r], i, reply);
      SetRoundInv(cfg, s, r, i, Apply(cfg, s, step).rounds[r]);
    case RetryNow => RetryInv(cfg, s);
    case _ => GatherInv(cfg, s, step);
  }

  lemma {:induction false} RunInv(cfg: Config, s: State, run: seq<Step>)
    requires Inv(cfg, s) && Legal(cfg, s, run)
    ensures Inv(cfg, Exec(cfg, s, run))
    decreases |run|
  {
    if run != [] {
      StepInv(cfg, s, run[0]);
      RunInv(cfg, Apply(cfg, s, run[0]), run[1..]);
    }
  }

  lemma ReachableInv(cfg: Config, s: State)
    requires Reachable(cfg, s)
    ensures Inv(cfg, s)
  {
    var run :| Legal(cfg, Init(cfg), run) && Exec(cfg, Init(cfg), run) == s;
    NewRoundOk(cfg);
    RunInv(cfg, Init(cfg), run);
  }

  // ---------- Results ----------

  /** Within one attempt, permits and requests in flight add up to the configured number, at least 1. */
  lemma BoundedPerAttempt(cfg: Config, s: State, r: nat)
    requires Reachable(cfg, s) && r < |s.rounds|
    ensures s.rounds[r].permits + InFlightIn()(s.rounds[r]) == if cfg.concurrency < 1 then 1 else cfg.concurrency
    ensures s.rounds[r].permits >= 0 && InFlightIn()(s.rounds[r]) >= 0
  {
    ReachableInv(cfg, s);
    assert RoundOk(cfg, s.rounds[r]);
    SumNonnegative(s.rounds[r].tasks, IsInFlight());
  }

  function Min(a: int, b: int): int {
    if a < b then a else b
  }

  /** The most requests the whole retried call can have in flight at once. */
  function Peak(cfg: Config): int {
    var n := |cfg.items|;
    if n == 0 then 0 else (cfg.attempts - 1) * Min(cfg.limit, n - 1) + Min(cfg.limit, n)
  }

  lemma {:induction false} InFlightAtMost(tasks: seq<Task>)
    ensures 0 <= Sum(tasks, IsInFlight()) <= |tasks|
  {
    if tasks != [] {
      InFlightAtMost(tasks[1..]);
    }
  }

  /** A failed attempt has at least one task that is no longer in flight. */
  lemma {:induction false} FailedOneLess(tasks: seq<Task>, i: nat)
    requires i < |tasks| && !tasks[i].InFlight?
    ensures Sum(tasks, IsInFlight()) <= |tasks| - 1
  {
    InFlightAtMost(tasks[1..]);
    if i > 0 {
      FailedOneLess(tasks[1..], i - 1);
    }
  }

  lemma {:induction false} SumAtMost(rounds: seq<Round>, each: int)
    requires forall r :: 0 <= r < |rounds| ==> InFlightIn()(rounds[r]) <= each
    ensures Sum(rounds, InFlightIn()) <= |rounds| * each
  {
    if rounds != [] {
      SumAtMost(rounds[1..], each);
      TimesPred(|rounds|, each);
    }
  }

  /** Without items nothing can fail, so there is no second attempt. */
  lemma NoItemsOneRound(cfg: Config, s: State)
    requires Inv(cfg, s) && cfg.items == []
    ensures |s.rounds| == 1
  {
    assert RoundOk(cfg, s.rounds[0]);
    assert s.verdicts != [] ==> VerdictOk(s.rounds[0], s.verdicts[0]);
  }

  /** What the attempts before the last can have left in flight. */
  lemma EarlierInFlight(cfg: Config, s: State)
    requires Inv(cfg, s) && |cfg.items| >= 1
    ensures Sum(s.rounds[..|s.rounds| - 1], InFlightIn()) <= (|s.rounds| - 1) * Min(cfg.limit, |cfg.items| - 1)
  {
    var earlier := s.rounds[..|s.rounds| - 1];
    forall r | 0 <= r < |earlier|
      ensures InFlightIn()(earlier[r]) <= Min(cfg.limit, |cfg.items| - 1)
    {
      assert RoundOk(cfg, s.rounds[r]) && VerdictOk(s.rounds[r], s.verdicts[r]);
      FailedOneLess(earlier[r].tasks, earlier[r].firstFailed.value);
    }
    SumAtMost(earlier, Min(cfg.limit, |cfg.items| - 1));
  }

  /** The requests in flight of the last attempt and of those before it. */
  lemma LastApart(s: State)
    requires s.rounds != []
    ensures TotalInFlight(s) == Sum(s.rounds[..|s.rounds| - 1], InFlightIn()) + InFlightIn()(Last(s))
  {
    assert s.rounds == s.rounds[..|s.rounds| - 1] + [Last(s)];
    SumAppend(s.rounds[..|s.rounds| - 1], Last(s), InFlightIn());
  }

  /** No more than `Peak` requests are ever in flight, so never more than attempts x configured number. */
  lemma InFlightBounded(cfg: Config, s: State)
    requires Reachable(cfg, s)
    ensures TotalInFlight(s) <= Peak(cfg)
    ensures Peak(cfg) <= cfg.attempts * if cfg.concurrency < 1 then 1 else cfg.concurrency
  {
    ReachableInv(cfg, s);
    var n := |cfg.items|;
    LastApart(s);
    assert RoundOk(cfg, Last(s));
    InFlightAtMost(Last(s).tasks);
    if n == 0 {
      NoItemsOneRound(cfg, s);
    } else {
      EarlierInFlight(cfg, s);
      MulMonotone(|s.rounds| - 1, cfg.attempts - 1, Min(cfg.limit, n - 1));
    }
    PeakAtMost(cfg);
  }

  lemma PeakAtMost(cfg: Config)
    requires Sensible(cfg)
    ensures Peak(cfg) <= cfg.attempts * cfg.limit
  {
    var n := |cfg.items|;
    TimesPred(cfg.attempts, cfg.limit);
    if n > 0 {
      MulMonotone(0, cfg.attempts - 1, cfg.limit - Min(cfg.limit, n - 1));
      TimesDifference(cfg.attempts - 1, cfg.limit, Min(cfg.limit, n - 1));
    } else {
      MulMonotone(0, cfg.attempts, cfg.limit);
    }
  }
}
