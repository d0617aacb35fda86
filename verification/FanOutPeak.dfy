/**
 The concurrency limit is a limit per attempt, not for the retried call: how many requests
 can really be in flight at once, and exactly when that stays within the limit.
 */
module FanOutPeak {
  import opened Options
  import opened Sums
  import opened Arithmetic
  import Retry
  import opened FanOut
  import opened FanOutReplies

  /** The first `lo` tasks have failed, those before `hi` are in flight, the rest is pending. */
  function Filled(cfg: Config, lo: nat, hi: nat): Round
    requires lo <= hi <= |cfg.items|
  {
    Round(cfg.limit - (hi - lo),
          seq(|cfg.items|, i => if i < lo then Failed(true, 0) else if i < hi then InFlight else Pending),
          if lo > 0 then Some(0) else None)
  }

  /** How many siblings of a failed task one attempt can leave in flight. */
  function Left(cfg: Config): nat
    requires Sensible(cfg) && |cfg.items| >= 1
  {
    Min(cfg.limit, |cfg.items| - 1)
  }

  /** `j` failed attempts, each with as many requests left in flight as possible, and one more. */
  function Stage(cfg: Config, j: nat, lo: nat, hi: nat): State
    requires Sensible(cfg) && |cfg.items| >= 1 && lo <= hi <= |cfg.items|
  {
    State(seq(j, _ => Filled(cfg, 1, 1 + Left(cfg))) + [Filled(cfg, lo, hi)], Gathering,
          seq(j, _ => Retry.Retryable(0)))
  }

  lemma Extend(cfg: Config, s: State, step: Step, t: State)
    requires Reachable(cfg, s) && Enabled(cfg, s, step) && Apply(cfg, s, step) == t
    ensures Reachable(cfg, t)
  {
    var run :| Legal(cfg, Init(cfg), run) && Exec(cfg, Init(cfg), run) == s;
    ExecAppend(cfg, Init(cfg), run, step);
  }

  lemma AcquireNext(cfg: Config, j: nat, lo: nat, hi: nat)
    requires Sensible(cfg) && lo <= hi < |cfg.items| && hi - lo < cfg.limit
    requires Reachable(cfg, Stage(cfg, j, lo, hi))
    ensures Reachable(cfg, Stage(cfg, j, lo, hi + 1))
  {
    var s, t := Stage(cfg, j, lo, hi), Stage(cfg, j, lo, hi + 1);
    assert s.rounds[j].tasks[hi := InFlight] == t.rounds[j].tasks;
    assert s.rounds[j := t.rounds[j]] == t.rounds;
    Extend(cfg, s, Acquire(j, hi), t);
  }

  lemma {:induction false} AcquireUpTo(cfg: Config, j: nat, lo: nat, hi: nat)
    requires Sensible(cfg) && lo <= hi <= |cfg.items| && |cfg.items| >= 1 && hi - lo <= cfg.limit
    requires Reachable(cfg, Stage(cfg, j, lo, lo))
    ensures Reachable(cfg, Stage(cfg, j, lo, hi))
    decreases hi
  {
    if lo < hi {
      AcquireUpTo(cfg, j, lo, hi - 1);
      AcquireNext(cfg, j, lo, hi - 1);
    }
  }

  lemma FirstFails(cfg: Config, j: nat)
    requires Sensible(cfg) && |cfg.items| >= 1 && Reachable(cfg, Stage(cfg, j, 0, 1))
    ensures Reachable(cfg, Stage(cfg, j, 1, 1))
  {
    var s, t := Stage(cfg, j, 0, 1), Stage(cfg, j, 1, 1);
    assert s.rounds[j].tasks[0 := Failed(true, 0)] == t.rounds[j].tasks;
    assert s.rounds[j := t.rounds[j]] == t.rounds;
    Extend(cfg, s, Respond(j, 0, HttpError(0)), t);
  }

  lemma GatherFails(cfg: Config, j: nat)
    requires Sensible(cfg) && |cfg.items| >= 1 && j + 1 < cfg.attempts
    requires Reachable(cfg, Stage(cfg, j, 1, 1 + Left(cfg)))
    ensures Reachable(cfg, Stage(cfg, j + 1, 0, 0))
  {
    var s, u := Stage(cfg, j, 1, 1 + Left(cfg)), Stage(cfg, j + 1, 0, 0);
    var t := s.(pc := BackingOff, verdicts := u.verdicts);
    assert s.verdicts + [Retry.Retryable(0)] == u.verdicts;
    Extend(cfg, s, GatherErr, t);
    assert NewRound(cfg) == Filled(cfg, 0, 0);
    assert s.rounds + [NewRound(cfg)] == u.rounds;
    Extend(cfg, t, RetryNow, u);
  }

  lemma InitialStage(cfg: Config)
    requires Sensible(cfg) && |cfg.items| >= 1
    ensures Reachable(cfg, Stage(cfg, 0, 0, 0))
  {
    assert NewRound(cfg) == Filled(cfg, 0, 0);
    assert Stage(cfg, 0, 0, 0).rounds == [NewRound(cfg)];
    assert Legal(cfg, Init(cfg), []) && Exec(cfg, Init(cfg), []) == Stage(cfg, 0, 0, 0);
  }

  /** One attempt in which only the first request is answered, with an error. */
  lemma NextStage(cfg: Config, j: nat)
    requires Sensible(cfg) && |cfg.items| >= 1 && j + 1 < cfg.attempts
    requires Reachable(cfg, Stage(cfg, j, 0, 0))
    ensures Reachable(cfg, Stage(cfg, j + 1, 0, 0))
  {
    var left := Left(cfg);
    AcquireNext(cfg, j, 0, 0);
    FirstFails(cfg, j);
    AcquireUpTo(cfg, j, 1, 1 + left);
    GatherFails(cfg, j);
  }

  lemma {:induction false} StageReachable(cfg: Config, j: nat)
    requires Sensible(cfg) && |cfg.items| >= 1 && j < cfg.attempts
    ensures Reachable(cfg, Stage(cfg, j, 0, 0))
  {
    if j == 0 {
      InitialStage(cfg);
    } else {
      StageReachable(cfg, j - 1);
      NextStage(cfg, j - 1);
    }
  }

  // ---------- Counting ----------

  lemma {:induction false} InFlightFilled(tasks: seq<Task>, lo: nat, hi: nat)
    requires lo <= hi <= |tasks|
    requires forall i :: 0 <= i < |tasks| ==> (tasks[i].InFlight? <==> lo <= i < hi)
    ensures Sum(tasks, IsInFlight()) == hi - lo
  {
    if tasks != [] {
      InFlightFilled(tasks[1..], if lo > 0 then lo - 1 else 0, if hi > 0 then hi - 1 else 0);
    }
  }

  lemma {:induction false} SumConstant(rounds: seq<Round>, each: int)
    requires forall r :: 0 <= r < |rounds| ==> InFlightIn()(rounds[r]) == each
    ensures Sum(rounds, InFlightIn()) == |rounds| * each
  {
    if rounds != [] {
      SumConstant(rounds[1..], each);
      TimesPred(|rounds|, each);
    }
  }

  lemma StageInFlight(cfg: Config, j: nat, hi: nat)
    requires Sensible(cfg) && |cfg.items| >= 1 && hi <= |cfg.items|
    ensures TotalInFlight(Stage(cfg, j, 0, hi)) == j * Left(cfg) + hi
  {
    var full, last := Filled(cfg, 1, 1 + Left(cfg)), Filled(cfg, 0, hi);
    var earlier := seq(j, _ => full);
    InFlightFilled(full.tasks, 1, 1 + Left(cfg));
    InFlightFilled(last.tasks, 0, hi);
    SumConstant(earlier, Left(cfg));
    SumAppend(earlier, last, InFlightIn());
  }

  lemma PeakReached(cfg: Config)
    requires Sensible(cfg)
    ensures exists s :: Reachable(cfg, s) && TotalInFlight(s) == Peak(cfg)
  {
    if cfg.items == [] {
      NewRoundOk(cfg);
      assert Legal(cfg, Init(cfg), []) && Exec(cfg, Init(cfg), []) == Init(cfg);
      SumConstant(Init(cfg).rounds, 0);
      assert Reachable(cfg, Init(cfg));
      assert TotalInFlight(Init(cfg)) == |Init(cfg).rounds| * 0;
    } else {
      var j, hi := cfg.attempts - 1, Min(cfg.limit, |cfg.items|);
      StageReachable(cfg, j);
      AcquireUpTo(cfg, j, 0, hi);
      StageInFlight(cfg, j, hi);
    }
  }

  /** The bound on requests sent and not yet answered is attained, and no run exceeds it. */
  lemma PeakAttained(cfg: Config)
    requires Sensible(cfg)
    ensures exists run :: IsRun(cfg, run) && Outstanding(run) == Peak(cfg)
    ensures forall run :: IsRun(cfg, run) ==> Outstanding(run) <= Peak(cfg)
  {
    PeakReached(cfg);
    var s :| Reachable(cfg, s) && TotalInFlight(s) == Peak(cfg);
    var run :| Legal(cfg, Init(cfg), run) && Exec(cfg, Init(cfg), run) == s;
    InFlightIsOutstanding(cfg, run);
    forall other | IsRun(cfg, other)
      ensures Outstanding(other) <= Peak(cfg)
    {
      InFlightIsOutstanding(cfg, other);
      assert Reachable(cfg, End(cfg, other));
      InFlightBounded(cfg, End(cfg, other));
    }
  }

  /** A caller's test for the limit holding over the whole retried call. */
  predicate LimitHolds(cfg: Config) {
    var n := |cfg.items|;
    cfg.attempts == 1 || n <= 1 || cfg.limit >= cfg.attempts * (n - 1) + 1
  }

  lemma PeakWithinLimit(cfg: Config)
    requires Sensible(cfg)
    ensures Peak(cfg) <= cfg.limit <==> LimitHolds(cfg)
  {
    var n, a, m := |cfg.items|, cfg.attempts, cfg.limit;
    if n >= 2 && a >= 2 {
      TimesPred(a, n - 1);
      MultipleAtLeast(a - 1, m);
      MultipleAtLeast(a - 1, n - 1);
    }
  }

  /**
   The configured number, taken as 1 where it is less, bounds the requests sent and not yet
   answered over a retried call exactly when there is one attempt, at most one item, or that
   number is above attempts x (items - 1).
   */
  lemma ConcurrencyAcrossRetries(cfg: Config)
    requires Sensible(cfg)
    ensures var n, max := |cfg.items|, if cfg.concurrency < 1 then 1 else cfg.concurrency;
            (forall run :: IsRun(cfg, run) ==> Outstanding(run) <= max)
            <==> cfg.attempts == 1 || n <= 1 || max > cfg.attempts * (n - 1)
  {
    PeakWithinLimit(cfg);
    PeakAttained(cfg);
  }

  /** For instance two items, one request at a time and three attempts: three at once. */
  lemma LimitOneExceeded()
    ensures exists run :: IsRun(Config([1.0, 2.0], 1, 3), run) && Outstanding(run) == 3
  {
    var cfg := Config([1.0, 2.0], 1, 3);
    assert Peak(cfg) == 3;
    PeakAttained(cfg);
  }
}
