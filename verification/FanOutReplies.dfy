/**
 The retried fan-out told by its replies: what the downstream service sent in a run determines
 the verdict of every attempt, the list, and how many requests are in flight. Everything here
 is read off the steps of the run, not off the state they lead to.
 */
module FanOutReplies {
  import opened Options
  import opened Sums
  import opened FanOut
  import Retry

  // ---------- Reading a run ----------

  /** The reply to the request for item `i` in attempt `r`. */
  function ReplyTo(run: seq<Step>, r: nat, i: nat): Option<Reply> {
    if run == [] then None
    else
      var before := ReplyTo(run[..|run| - 1], r, i);
      var last := run[|run| - 1];
      if before.None? && last.Respond? && last.r == r && last.i == i then Some(last.reply) else before
  }

  /** The first reply in attempt `r` that is an error, whichever request it answers. */
  function FirstError(run: seq<Step>, r: nat): Option<Reply> {
    if run == [] then None
    else
      var before := FirstError(run[..|run| - 1], r);
      var last := run[|run| - 1];
      if before.None? && last.Respond? && last.r == r && !last.reply.Answer? then Some(last.reply) else before
  }

  /** The retries begun, and so the number of the latest attempt when the first is 0. */
  function Retries(run: seq<Step>): nat {
    if run == [] then 0 else Retries(run[..|run| - 1]) + if run[|run| - 1].RetryNow? then 1 else 0
  }

  function Attempts(run: seq<Step>): nat {
    Retries(run) + 1
  }

  /** Requests sent and not yet answered, over all attempts. */
  function Outstanding(run: seq<Step>): int {
    if run == [] then 0
    else
      var last := run[|run| - 1];
      Outstanding(run[..|run| - 1]) + if last.Acquire? then 1 else if last.Respond? then -1 else 0
  }

  /** Requests sent and not yet answered in attempt `r`. */
  function OutstandingIn(run: seq<Step>, r: nat): int {
    if run == [] then 0
    else
      var last := run[|run| - 1];
      OutstandingIn(run[..|run| - 1], r)
      + if last.Acquire? && last.r == r then 1 else if last.Respond? && last.r == r then -1 else 0
  }

  // ---------- The state records the run ----------

  /** A request is pending until sent, in flight until answered, and then what it was answered. */
  ghost predicate TaskTells(task: Task, sent: bool, reply: Option<Reply>) {
    match reply
    case None => if sent then task.InFlight? else task.Pending?
    case Some(Answer(v)) => task == Done(v)
    case Some(HttpError(e)) => task == Failed(true, e)
    case Some(OtherError(e)) => task == Failed(false, e)
  }

  ghost predicate RoundTells(round: Round, run: seq<Step>, r: nat) {
    && (FirstFailure(round).None? <==> FirstError(run, r).None?)
    && (FirstError(run, r).Some? ==>
          !FirstError(run, r).value.Answer? && TaskTells(FirstFailure(round).value, true, FirstError(run, r)))
    && InFlightIn()(round) == OutstandingIn(run, r)
  }

  ghost predicate Untouched(run: seq<Step>, r: nat) {
    && FirstError(run, r).None? && OutstandingIn(run, r) == 0
    && (forall i: nat :: ReplyTo(run, r, i).None? && Acquire(r, i) !in run)
  }

  ghost predicate Counted(s: State, run: seq<Step>) {
    |s.rounds| == Attempts(run) && TotalInFlight(s) == Outstanding(run)
  }

  ghost predicate TasksTell(s: State, run: seq<Step>) {
    forall r: nat, i: nat :: IsTask(s, r, i) ==>
      TaskTells(s.rounds[r].tasks[i], Acquire(r, i) in run, ReplyTo(run, r, i))
  }

  ghost predicate RoundsTell(s: State, run: seq<Step>) {
    forall r: nat :: r < |s.rounds| ==> RoundTells(s.rounds[r], run, r)
  }

  ghost predicate RestUntouched(s: State, run: seq<Step>) {
    forall r: nat :: r >= |s.rounds| ==> Untouched(run, r)
  }

  ghost predicate Recorded(s: State, run: seq<Step>) {
    Counted(s, run) && TasksTell(s, run) && RoundsTell(s, run) && RestUntouched(s, run)
  }

  lemma InitRecorded(cfg: Config)
    ensures Recorded(Init(cfg), [])
  {
    NewRoundOk(cfg);
    SumAppend([], NewRound(cfg), InFlightIn());
    assert Init(cfg).rounds == [] + [NewRound(cfg)];
  }

  /** What one more step adds to the readings of a run. */
  lemma OneMore(run: seq<Step>, step: Step)
    ensures (run + [step])[..|run + [step]| - 1] == run && (run + [step])[|run + [step]| - 1] == step
  {
  }

  /** A step on this very request. */
  lemma RequestTask(cfg: Config, s: State, run: seq<Step>, step: Step)
    requires TasksTell(s, run) && Enabled(cfg, s, step) && (step.Acquire? || step.Respond?)
    ensures TaskTells(Apply(cfg, s, step).rounds[step.r].tasks[step.i], Acquire(step.r, step.i) in run + [step],
                      ReplyTo(run + [step], step.r, step.i))
  {
    OneMore(run, step);
    assert IsTask(s, step.r, step.i);
  }

  lemma StepTask(cfg: Config, s: State, run: seq<Step>, step: Step, r: nat, i: nat)
    requires Recorded(s, run) && Enabled(cfg, s, step) && IsTask(Apply(cfg, s, step), r, i)
    ensures TaskTells(Apply(cfg, s, step).rounds[r].tasks[i], Acquire(r, i) in run + [step],
                      ReplyTo(run + [step], r, i))
  {
    OneMore(run, step);
    if (step.Acquire? || step.Respond?) && step.r == r && step.i == i {
      RequestTask(cfg, s, run, step);
    } else {
      assert (Acquire(r, i) in run + [step]) == (Acquire(r, i) in run);
      assert ReplyTo(run + [step], r, i) == ReplyTo(run, r, i);
      if r < |s.rounds| {
        assert IsTask(s, r, i);
      } else {
        assert Untouched(run, r);
      }
    }
  }

  /** A step on a request of attempt `r`. */
  lemma RequestRound(cfg: Config, s: State, run: seq<Step>, step: Step)
    requires Inv(cfg, s) && Recorded(s, run) && Enabled(cfg, s, step) && (step.Acquire? || step.Respond?)
    ensures RoundTells(Apply(cfg, s, step).rounds[step.r], run + [step], step.r)
  {
    var t := Apply(cfg, s, step);
    OneMore(run, step);
    assert RoundTells(s.rounds[step.r], run, step.r) && RoundOk(cfg, s.rounds[step.r]);
    SumUpdate(s.rounds[step.r].tasks, step.i, t.rounds[step.r].tasks[step.i], IsInFlight());
  }

  lemma StepRound(cfg: Config, s: State, run: seq<Step>, step: Step, r: nat)
    requires Inv(cfg, s) && Recorded(s, run) && Enabled(cfg, s, step) && r < |s.rounds|
    ensures RoundTells(Apply(cfg, s, step).rounds[r], run + [step], r)
  {
    if (step.Acquire? || step.Respond?) && step.r == r {
      RequestRound(cfg, s, run, step);
    } else {
      OneMore(run, step);
      assert RoundTells(s.rounds[r], run, r);
      assert Apply(cfg, s, step).rounds[r] == s.rounds[r];
    }
  }

  lemma StepUntouched(cfg: Config, s: State, run: seq<Step>, step: Step, r: nat)
    requires Recorded(s, run) && Enabled(cfg, s, step) && r >= |s.rounds|
    ensures Untouched(run + [step], r)
  {
    OneMore(run, step);
    assert Untouched(run, r);
  }

  lemma StepTotal(cfg: Config, s: State, run: seq<Step>, step: Step)
    requires Counted(s, run) && Enabled(cfg, s, step)
    ensures Counted(Apply(cfg, s, step), run + [step])
  {
    OneMore(run, step);
    var t := Apply(cfg, s, step);
    match step
    case RetryNow =>
      NewRoundOk(cfg);
      SumAppend(s.rounds, NewRound(cfg), InFlightIn());
    case GatherOk =>
    case GatherErr =>
    case _ =>
      SumUpdate(s.rounds[step.r].tasks, step.i, t.rounds[step.r].tasks[step.i], IsInFlight());
      SumUpdate(s.rounds, step.r, t.rounds[step.r], InFlightIn());
  }

  lemma StepRecorded(cfg: Config, s: State, run: seq<Step>, step: Step)
    requires Inv(cfg, s) && Recorded(s, run) && Enabled(cfg, s, step)
    ensures Recorded(Apply(cfg, s, step), run + [step])
  {
    var t := Apply(cfg, s, step);
    OneMore(run, step);
    StepTotal(cfg, s, run, step);
    forall r: nat, i: nat | IsTask(t, r, i)
      ensures TaskTells(t.rounds[r].tasks[i], Acquire(r, i) in run + [step], ReplyTo(run + [step], r, i))
    {
      StepTask(cfg, s, run, step, r, i);
    }
    forall r: nat | r < |t.rounds|
      ensures RoundTells(t.rounds[r], run + [step], r)
    {
      if r < |s.rounds| {
        StepRound(cfg, s, run, step, r);
      } else {
        StepUntouched(cfg, s, run, step, r);
        NewRoundOk(cfg);
      }
    }
    forall r: nat | r >= |t.rounds|
      ensures Untouched(run + [step], r)
    {
      StepUntouched(cfg, s, run, step, r);
    }
  }

  /** A run seen from its last step. */
  lemma {:induction false} ExecFront(cfg: Config, s: State, run: seq<Step>)
    requires run != [] && Legal(cfg, s, run)
    ensures var front, last := run[..|run| - 1], run[|run| - 1];
            && Legal(cfg, s, front) && Enabled(cfg, Exec(cfg, s, front), last)
            && Exec(cfg, s, run) == Apply(cfg, Exec(cfg, s, front), last)
    decreases |run|
  {
    if |run| > 1 {
      var t := Apply(cfg, s, run[0]);
      ExecFront(cfg, t, run[1..]);
      assert run[1..][..|run| - 2] == run[..|run| - 1][1..];
    } else {
      assert run[..0] == [] && run[1..] == [];
      assert Legal(cfg, s, []) && Exec(cfg, s, []) == s;
    }
  }

  /** A run of the retried call from its beginning. */
  ghost predicate IsRun(cfg: Config, run: seq<Step>) {
    Sensible(cfg) && Legal(cfg, Init(cfg), run)
  }

  ghost function End(cfg: Config, run: seq<Step>): State
    requires IsRun(cfg, run)
  {
    Exec(cfg, Init(cfg), run)
  }

  /** A run is a shorter run and one more step. */
  lemma EndStep(cfg: Config, run: seq<Step>)
    requires run != [] && IsRun(cfg, run)
    ensures var front, last := run[..|run| - 1], run[|run| - 1];
            && IsRun(cfg, front) && Enabled(cfg, End(cfg, front), last)
            && End(cfg, run) == Apply(cfg, End(cfg, front), last)
  {
    ExecFront(cfg, Init(cfg), run);
  }

  lemma {:induction false} EndRecorded(cfg: Config, run: seq<Step>)
    requires IsRun(cfg, run)
    ensures Inv(cfg, End(cfg, run)) && Recorded(End(cfg, run), run)
    decreases |run|
  {
    if run == [] {
      NewRoundOk(cfg);
      InitRecorded(cfg);
    } else {
      var front, last := run[..|run| - 1], run[|run| - 1];
      EndStep(cfg, run);
      EndRecorded(cfg, front);
      StepInv(cfg, End(cfg, front), last);
      StepRecorded(cfg, End(cfg, front), front, last);
      assert front + [last] == run;
    }
  }

  // ---------- Results ----------

  /** The requests in flight are those sent and not yet answered, in each attempt and in all. */
  lemma InFlightIsOutstanding(cfg: Config, run: seq<Step>)
    requires IsRun(cfg, run)
    ensures TotalInFlight(End(cfg, run)) == Outstanding(run)
    ensures |End(cfg, run).rounds| == Attempts(run)
    ensures forall r: nat :: r < Attempts(run) ==> InFlightIn()(End(cfg, run).rounds[r]) == OutstandingIn(run, r)
  {
    EndRecorded(cfg, run);
    forall r: nat | r < Attempts(run)
      ensures InFlightIn()(End(cfg, run).rounds[r]) == OutstandingIn(run, r)
    {
      assert RoundTells(End(cfg, run).rounds[r], run, r);
    }
  }

  /** All items were answered with numbers, in attempt `r`. */
  ghost predicate AllAnswered(cfg: Config, run: seq<Step>, r: nat) {
    forall i: nat :: i < |cfg.items| ==> ReplyTo(run, r, i).Some? && ReplyTo(run, r, i).value.Answer?
  }

  /** These are the numbers the downstream service sent in attempt `r`, in input order. */
  ghost predicate AreAnswers(cfg: Config, run: seq<Step>, r: nat, list: seq<real>) {
    |list| == |cfg.items| && forall i: nat :: i < |list| ==> ReplyTo(run, r, i) == Some(Answer(list[i]))
  }

  /**
   How an attempt ended, by its replies: with all the numbers sent, or with the first error,
   which is retryable exactly when it is an HTTP error.
   */
  ghost predicate EndedAs(cfg: Config, run: seq<Step>, r: nat, verdict: Retry.Attempt<seq<real>>) {
    match verdict
    case Ok(list) => FirstError(run, r).None? && AreAnswers(cfg, run, r, list)
    case Retryable(e) => FirstError(run, r) == Some(HttpError(e))
    case Fatal(e) => FirstError(run, r) == Some(OtherError(e))
  }

  /** The verdict of every gather so far is what the replies say. */
  lemma VerdictsTold(cfg: Config, run: seq<Step>)
    requires IsRun(cfg, run)
    ensures var s := End(cfg, run);
            |s.verdicts| <= Attempts(run)
            && forall r: nat :: r < |s.verdicts| ==> EndedAs(cfg, run, r, s.verdicts[r])
  {
    EndRecorded(cfg, run);
    var s := End(cfg, run);
    forall r: nat | r < |s.verdicts|
      ensures EndedAs(cfg, run, r, s.verdicts[r])
    {
      VerdictTold(cfg, s, run, r);
    }
  }

  lemma VerdictTold(cfg: Config, s: State, run: seq<Step>, r: nat)
    requires Inv(cfg, s) && Recorded(s, run) && r < |s.verdicts|
    ensures EndedAs(cfg, run, r, s.verdicts[r])
  {
    var round := s.rounds[r];
    assert RoundOk(cfg, round) && VerdictOk(round, s.verdicts[r]) && RoundTells(round, run, r);
    if s.verdicts[r].Ok? {
      forall i: nat | i < |cfg.items|
        ensures ReplyTo(run, r, i) == Some(Answer(s.verdicts[r].value[i]))
      {
        assert IsTask(s, r, i) && round.tasks[i].Done?;
      }
    }
  }

  /** The squares, which is what the fan-out is for. */
  function Squares(items: seq<real>): seq<real> {
    seq(|items|, i requires 0 <= i < |items| => items[i] * items[i])
  }

  /** Every number the downstream service sent in attempt `r` is the square of its item. */
  ghost predicate Honest(cfg: Config, run: seq<Step>, r: nat) {
    forall i: nat :: i < |cfg.items| && ReplyTo(run, r, i).Some? && ReplyTo(run, r, i).value.Answer? ==>
      ReplyTo(run, r, i).value.value == cfg.items[i] * cfg.items[i]
  }

  lemma AnswersSquares(cfg: Config, run: seq<Step>, r: nat, list: seq<real>)
    requires AreAnswers(cfg, run, r, list)
    ensures list == Squares(cfg.items) <==> Honest(cfg, run, r)
  {
    forall i: nat | i < |list|
      ensures list[i] == Squares(cfg.items)[i] <==> ReplyTo(run, r, i).value.value == cfg.items[i] * cfg.items[i]
    {
      assert ReplyTo(run, r, i) == Some(Answer(list[i]));
    }
    if !Honest(cfg, run, r) {
      var i: nat :| i < |list| && ReplyTo(run, r, i).value.value != cfg.items[i] * cfg.items[i];
      assert list[i] != Squares(cfg.items)[i];
    }
  }

  /** The first error of attempt `r` is an HTTP error. */
  predicate HttpFailed(run: seq<Step>, r: nat) {
    FirstError(run, r).Some? && FirstError(run, r).value.HttpError?
  }

  /** How attempt `c`, counted from 1, ended. */
  function Outcome(s: State): nat -> Retry.Attempt<seq<real>> {
    (c: nat) => if 1 <= c <= |s.verdicts| then s.verdicts[c - 1] else Retry.Retryable(0)
  }

  lemma EarlierFailed(cfg: Config, run: seq<Step>, r: nat)
    requires IsRun(cfg, run) && End(cfg, run).pc.Finished? && r < Retries(run)
    ensures HttpFailed(run, r)
  {
    EndRecorded(cfg, run);
    VerdictTold(cfg, End(cfg, run), run, r);
    assert End(cfg, run).verdicts[r].Retryable?;
  }

  /** The replies of the last attempt decide what the caller gets. */
  ghost predicate Decided(cfg: Config, run: seq<Step>, result: Retry.Result<seq<real>>) {
    match FirstError(run, Retries(run))
    case None =>
      && result.Success? && AreAnswers(cfg, run, Retries(run), result.value)
      && (result.value == Squares(cfg.items) <==> Honest(cfg, run, Retries(run)))
    case Some(HttpError(e)) => result == Retry.Raised(e) && Attempts(run) == cfg.attempts
    case Some(OtherError(e)) => result == Retry.Raised(e)
    case Some(Answer(_)) => false
  }

  lemma LastDecides(cfg: Config, run: seq<Step>)
    requires IsRun(cfg, run) && End(cfg, run).pc.Finished?
    ensures Decided(cfg, run, End(cfg, run).pc.result)
  {
    EndRecorded(cfg, run);
    var s, last := End(cfg, run), Retries(run);
    VerdictTold(cfg, s, run, last);
    if s.pc.result.Success? {
      AnswersSquares(cfg, run, last, s.pc.result.value);
    }
  }

  /**
   A finished run is the retry loop over its attempts. Every attempt but the last ended with
   an HTTP error as its first error. The last one decides: all its items were answered, and
   the list holds those answers in input order, the squares exactly when the downstream
   service squared; or its first error is raised, an HTTP error only if no attempt was left.
   */
  lemma RefinesRetriedMap(cfg: Config, run: seq<Step>)
    requires IsRun(cfg, run) && End(cfg, run).pc.Finished?
    ensures Attempts(run) <= cfg.attempts && Retry.StopsAt(Outcome(End(cfg, run)), cfg.attempts, Attempts(run))
    ensures forall c: nat :: 1 <= c <= Attempts(run) ==> EndedAs(cfg, run, c - 1, Outcome(End(cfg, run))(c))
    ensures forall r: nat :: r < Retries(run) ==> HttpFailed(run, r)
    ensures Decided(cfg, run, End(cfg, run).pc.result)
  {
    EndRecorded(cfg, run);
    VerdictsTold(cfg, run);
    LastDecides(cfg, run);
    forall r: nat | r < Retries(run)
      ensures HttpFailed(run, r)
    {
      EarlierFailed(cfg, run, r);
    }
  }

  /** A request is sent at most once and answered at most once, so `ReplyTo` is its only reply. */
  lemma SentAndAnsweredOnce(cfg: Config, run: seq<Step>, step: Step)
    requires IsRun(cfg, run) && Enabled(cfg, End(cfg, run), step) && (step.Acquire? || step.Respond?)
    ensures step.r < Attempts(run) && step.i < |cfg.items|
    ensures step.Acquire? ==> step !in run
    ensures step.Respond? ==> Acquire(step.r, step.i) in run && ReplyTo(run, step.r, step.i).None?
  {
    EndRecorded(cfg, run);
    assert IsTask(End(cfg, run), step.r, step.i) && RoundOk(cfg, End(cfg, run).rounds[step.r]);
  }

  /** Whatever the downstream service replies to a request that it has, and whenever, is a run. */
  lemma AnyReply(cfg: Config, run: seq<Step>, r: nat, i: nat, reply: Reply)
    requires IsRun(cfg, run) && Acquire(r, i) in run && ReplyTo(run, r, i).None?
    ensures IsRun(cfg, run + [Respond(r, i, reply)])
  {
    EndRecorded(cfg, run);
    RunTasks(cfg, Init(cfg), run, r, i);
    assert IsTask(End(cfg, run), r, i);
    ExecAppend(cfg, Init(cfg), run, Respond(r, i, reply));
  }

  /** Only requests of attempts that have begun are sent. */
  lemma {:induction false} RunTasks(cfg: Config, s: State, run: seq<Step>, r: nat, i: nat)
    requires Legal(cfg, s, run) && (Acquire(r, i) in run || IsTask(s, r, i))
    ensures IsTask(Exec(cfg, s, run), r, i)
    decreases |run|
  {
    if run != [] {
      assert Acquire(r, i) in run[1..] || Acquire(r, i) == run[0] || IsTask(s, r, i);
      RunTasks(cfg, Apply(cfg, s, run[0]), run[1..], r, i);
    }
  }
}
