/**
 The three concurrency flavours of the processing service and the C++ worker compute the same
 thing: every run of any of them that succeeds gives the squares, and the same aggregate.
 */
module Agreement {
  import opened Options
  import opened Arithmetic
  import opened SquareSum
  import Retry
  import ExecutorMap
  import FanOut
  import FanOutReplies
  import QueuePipeline
  import PoolModel
  import PoolTheorems

  // ---------- Aggregation ----------

  /** The three operation names, and any other string. */
  datatype Operation = Sum | Mean | SquareSum | Other(name: string)

  datatype Aggregated = Scalar(value: real) | Unsupported

  function SumOf(list: seq<real>): real {
    if list == [] then 0.0 else list[0] + SumOf(list[1..])
  }

  function Aggregate(operation: Operation, fanout: seq<real>): Aggregated {
    if fanout == [] then Scalar(0.0)
    else match operation
      case Sum => Scalar(SumOf(fanout))
      case Mean => Scalar(SumOf(fanout) / |fanout| as real)
      case SquareSum => Scalar(SumOf(fanout))
      case Other(_) => Unsupported
  }

  /** Adding up the list of squares is summing the squares. */
  lemma {:induction false} SumOfSquares(items: seq<real>, lo: nat)
    requires lo <= |items|
    ensures SumOf(FanOutReplies.Squares(items)[lo..]) == SumSquares(items, lo, |items|)
    decreases |items| - lo
  {
    if lo < |items| {
      var tail := FanOutReplies.Squares(items)[lo..];
      assert tail[1..] == FanOutReplies.Squares(items)[lo + 1..];
      SumOfSquares(items, lo + 1);
    }
  }

  // ---------- The flavours ----------

  /** The work function squares every item it is given. */
  ghost predicate Squaring(work: QueuePipeline.Entry -> QueuePipeline.Outcome) {
    forall e :: work(e) == QueuePipeline.Value(e.value * e.value)
  }

  /** Every schedule of the queue pipeline with a squaring work function returns the squares. */
  lemma QueueSquares(items: seq<real>, workers: int, work: QueuePipeline.Entry -> QueuePipeline.Outcome,
                     q: QueuePipeline.State)
    requires QueuePipeline.Reachable(items, workers, work, q) && Squaring(work)
    requires q.main.Returned? || q.main.Raised?
    ensures q.main == QueuePipeline.Returned(FanOutReplies.Squares(items))
  {
    QueuePipeline.RefinesMap(items, workers, work, q);
    assert !QueuePipeline.SomeFails(items, work);
    forall i | 0 <= i < |items|
      ensures q.main.list[i] == FanOutReplies.Squares(items)[i]
    {
      var e := QueuePipeline.Entry(i, items[i]);
      assert q.results[i].Some? && work(e) == QueuePipeline.Value(e.value * e.value);
    }
    assert q.main.list == FanOutReplies.Squares(items);
  }

  /**
   The queue pipeline and the executor's map with any one work function, each under any
   schedule and with any number of workers: both return or both raise, and they return the
   same list.
   */
  lemma QueueAgreesWithExecutor(items: seq<real>, work: QueuePipeline.Entry -> QueuePipeline.Outcome,
                                workers: int, q: QueuePipeline.State, threads: int, e: ExecutorMap.State)
    requires QueuePipeline.Reachable(items, workers, work, q) && (q.main.Returned? || q.main.Raised?)
    requires ExecutorMap.Reachable(items, threads, work, e) && e.pc.Finished?
    ensures q.main.Returned? <==> e.pc.answer.List?
    ensures q.main.Returned? ==> q.main.list == e.pc.answer.list
  {
    QueuePipeline.RefinesMap(items, workers, work, q);
    ExecutorMap.RefinesMap(items, threads, work, e);
    if q.main.Returned? {
      forall i | 0 <= i < |items|
        ensures q.main.list[i] == e.pc.answer.list[i]
      {
        assert q.results[i].Some? && q.main.list[i] == work(QueuePipeline.Entry(i, items[i])).result;
      }
      assert q.main.list == e.pc.answer.list;
    }
  }

  /** The executor's map with a squaring work function returns the squares. */
  lemma ExecutorSquares(items: seq<real>, threads: int, work: QueuePipeline.Entry -> QueuePipeline.Outcome,
                        e: ExecutorMap.State)
    requires ExecutorMap.Reachable(items, threads, work, e) && Squaring(work) && e.pc.Finished?
    ensures e.pc.answer == ExecutorMap.List(FanOutReplies.Squares(items))
  {
    ExecutorMap.RefinesMap(items, threads, work, e);
    assert !QueuePipeline.SomeFails(items, work);
    forall i | 0 <= i < |items|
      ensures e.pc.answer.list[i] == FanOutReplies.Squares(items)[i]
    {
      var entry := QueuePipeline.Entry(i, items[i]);
      assert work(entry) == QueuePipeline.Value(entry.value * entry.value);
    }
    assert e.pc.answer.list == FanOutReplies.Squares(items);
  }

  /** Adding up the squares gives what a call on the C++ pool returns, whatever else that pool is doing. */
  lemma CppAgrees(items: seq<real>, workers: nat, p: PoolModel.State, c: nat)
    requires PoolModel.Reachable(workers, p) && PoolModel.IsCall(p, c)
    requires p.calls[c].items == items && p.calls[c].pc.Returned?
    ensures p.calls[c].pc.value == SumOf(FanOutReplies.Squares(items))
  {
    PoolTheorems.SharedPoolResult(workers, p, c);
    SumOfSquares(items, 0);
    assert FanOutReplies.Squares(items)[0..] == FanOutReplies.Squares(items);
  }

  /**
   The fan-out under any schedule and any retries that end in success, the queue pipeline and
   the executor's map under any schedule give one list, provided the downstream service sent
   squares; its aggregate as a square sum is what a call on the C++ pool returns.
   */
  lemma FlavoursAgree(cfg: FanOut.Config, run: seq<FanOut.Step>,
                      work: QueuePipeline.Entry -> QueuePipeline.Outcome, workers: int, q: QueuePipeline.State,
                      threads: int, e: ExecutorMap.State,
                      cppThreads: nat, p: PoolModel.State, c: nat)
    requires FanOutReplies.IsRun(cfg, run) && FanOutReplies.End(cfg, run).pc.Finished?
    requires FanOutReplies.End(cfg, run).pc.result.Success?
    requires FanOutReplies.Honest(cfg, run, FanOutReplies.Retries(run))
    requires Squaring(work)
    requires QueuePipeline.Reachable(cfg.items, workers, work, q) && (q.main.Returned? || q.main.Raised?)
    requires ExecutorMap.Reachable(cfg.items, threads, work, e) && e.pc.Finished?
    requires PoolModel.Reachable(cppThreads, p) && PoolModel.IsCall(p, c)
    requires p.calls[c].items == cfg.items && p.calls[c].pc.Returned?
    ensures var list := FanOutReplies.End(cfg, run).pc.result.value;
            && q.main == QueuePipeline.Returned(list)
            && e.pc.answer == ExecutorMap.List(list)
            && Aggregate(Operation.SquareSum, list) == Scalar(p.calls[c].pc.value)
  {
    FanOutReplies.RefinesRetriedMap(cfg, run);
    QueueSquares(cfg.items, workers, work, q);
    ExecutorSquares(cfg.items, threads, work, e);
    CppAgrees(cfg.items, cppThreads, p, c);
  }

  // ---------- The response ----------

  datatype Response =
    | Processed(result: real, itemsProcessed: nat, fanoutResults: seq<real>, cppResult: Option<real>)
    | BadGateway
    | BadRequest
    | ServerError

  /**
   The main endpoint, given how the last attempt of the fan-out ended: HTTP errors are turned
   into a gateway error, other exceptions are not caught. `cpp` is what the C++ worker
   answers, None when it cannot be reached.
   */
  function Process(operation: Operation, items: seq<real>, verdict: Retry.Attempt<seq<real>>, cpp: Option<real>)
    : Response
  {
    match verdict
    case Retryable(_) => BadGateway
    case Fatal(_) => ServerError
    case Ok(fanout) =>
      var cppResult := if operation.SquareSum? then cpp else None;
      match Aggregate(operation, fanout)
      case Unsupported => BadRequest
      case Scalar(result) => Processed(result, |items|, fanout, cppResult)
  }

  /** The response to a finished run of the fan-out. */
  ghost function Respond(operation: Operation, cfg: FanOut.Config, run: seq<FanOut.Step>, cpp: Option<real>): Response
    requires FanOutReplies.IsRun(cfg, run)
  {
    var s := FanOutReplies.End(cfg, run);
    Process(operation, cfg.items, FanOutReplies.Outcome(s)(|s.rounds|), cpp)
  }

  /** The C++ worker was not reached, or some call on its pool over these items has returned this. */
  ghost predicate FromPool(items: seq<real>, cpp: Option<real>) {
    cpp.Some? ==>
      exists workers: nat, p: PoolModel.State, c: nat ::
        && PoolModel.Reachable(workers, p) && PoolModel.IsCall(p, c)
        && p.calls[c].items == items && p.calls[c].pc == PoolModel.Returned(cpp.value)
  }

  /** The verdict the response is made from is what the replies of the last attempt say. */
  lemma LastVerdict(cfg: FanOut.Config, run: seq<FanOut.Step>)
    requires FanOutReplies.IsRun(cfg, run) && FanOutReplies.End(cfg, run).pc.Finished?
    ensures var s := FanOutReplies.End(cfg, run);
            FanOutReplies.EndedAs(cfg, run, FanOutReplies.Retries(run), FanOutReplies.Outcome(s)(|s.rounds|))
  {
    FanOutReplies.RefinesRetriedMap(cfg, run);
    FanOutReplies.InFlightIsOutstanding(cfg, run);
    assert 1 <= FanOutReplies.Attempts(run) <= FanOutReplies.Attempts(run);
  }

  /**
   Each error response in terms of what the downstream service replied. A gateway error means
   that every attempt allowed was made and the first error in each was an HTTP error.
   */
  lemma ResponseErrors(operation: Operation, cfg: FanOut.Config, run: seq<FanOut.Step>, cpp: Option<real>)
    requires FanOutReplies.IsRun(cfg, run) && FanOutReplies.End(cfg, run).pc.Finished? && cfg.items != []
    ensures var r, last := Respond(operation, cfg, run, cpp), FanOutReplies.Retries(run);
            && (r.BadGateway? <==> last + 1 == cfg.attempts
                                   && forall i: nat :: i <= last ==> FanOutReplies.HttpFailed(run, i))
            && (r.ServerError? <==> FanOutReplies.FirstError(run, last).Some?
                                    && FanOutReplies.FirstError(run, last).value.OtherError?)
            && (r.BadRequest? <==> FanOutReplies.FirstError(run, last).None? && operation.Other?)
            && (r.Processed? <==> FanOutReplies.FirstError(run, last).None? && !operation.Other?)
  {
    FanOutReplies.RefinesRetriedMap(cfg, run);
    LastVerdict(cfg, run);
    var s, last := FanOutReplies.End(cfg, run), FanOutReplies.Retries(run);
    match FanOutReplies.Outcome(s)(|s.rounds|)
    case Ok(list) => assert list != [] && !FanOutReplies.HttpFailed(run, last);
    case Retryable(e) =>
      forall i: nat | i <= last
        ensures FanOutReplies.HttpFailed(run, i)
      {
      }
    case Fatal(e) => assert !FanOutReplies.HttpFailed(run, last);
  }

  /** The C++ figure, when there is one. */
  lemma CppFigure(items: seq<real>, cpp: Option<real>)
    requires FromPool(items, cpp)
    ensures cpp.Some? ==> cpp.value == SumSquares(items, 0, |items|)
  {
    if cpp.Some? {
      var workers: nat, p: PoolModel.State, c: nat :|
        && PoolModel.Reachable(workers, p) && PoolModel.IsCall(p, c)
        && p.calls[c].items == items && p.calls[c].pc == PoolModel.Returned(cpp.value);
      PoolTheorems.SharedPoolResult(workers, p, c);
    }
  }

  /** What a response made from this list has to say. */
  ghost predicate Figures(operation: Operation, list: seq<real>, cpp: Option<real>, r: Response) {
    && r.Processed? && r.fanoutResults == list && r.itemsProcessed == |list|
    && SumOf(list) == (if operation.Mean? then r.result * |list| as real else r.result)
    && r.cppResult == (if operation.SquareSum? then cpp else None)
  }

  lemma ProcessFigures(operation: Operation, items: seq<real>, list: seq<real>, cpp: Option<real>)
    requires list != [] && |list| == |items|
    ensures var r := Process(operation, items, Retry.Ok(list), cpp);
            if operation.Other? then r.BadRequest? else Figures(operation, list, cpp, r)
  {
    RealQuotient(SumOf(list), |list| as real);
  }

  /** The list of a fan-out that succeeded, and what it adds up to when it is right. */
  lemma FanoutFigure(cfg: FanOut.Config, run: seq<FanOut.Step>)
    requires FanOutReplies.IsRun(cfg, run) && FanOutReplies.End(cfg, run).pc.Finished?
    ensures var s, last := FanOutReplies.End(cfg, run), FanOutReplies.Retries(run);
            FanOutReplies.Outcome(s)(|s.rounds|).Ok? ==>
              var list := FanOutReplies.Outcome(s)(|s.rounds|).value;
              && FanOutReplies.AreAnswers(cfg, run, last, list)
              && (FanOutReplies.Honest(cfg, run, last) ==> SumOf(list) == SumSquares(cfg.items, 0, |cfg.items|))
  {
    LastVerdict(cfg, run);
    var s := FanOutReplies.End(cfg, run);
    var verdict := FanOutReplies.Outcome(s)(|s.rounds|);
    if verdict.Ok? {
      FanOutReplies.AnswersSquares(cfg, run, FanOutReplies.Retries(run), verdict.value);
      SumOfSquares(cfg.items, 0);
      assert FanOutReplies.Squares(cfg.items)[0..] == FanOutReplies.Squares(cfg.items);
    }
  }

  /**
   The figures of a response. The list is what the downstream service replied in the last
   attempt, in input order, and the result its aggregate, the mean times the count being the
   total; the C++ figure is there for a square sum only and is the sum of the squares. So the
   two figures are one number exactly when the replies add up to that, as they do when the
   downstream service squared.
   */
  lemma ResponseFigures(operation: Operation, cfg: FanOut.Config, run: seq<FanOut.Step>, cpp: Option<real>)
    requires FanOutReplies.IsRun(cfg, run) && FanOutReplies.End(cfg, run).pc.Finished?
    requires cfg.items != [] && FromPool(cfg.items, cpp)
    requires Respond(operation, cfg, run, cpp).Processed?
    ensures var r, last := Respond(operation, cfg, run, cpp), FanOutReplies.Retries(run);
            var total := SumSquares(cfg.items, 0, |cfg.items|);
            && FanOutReplies.AreAnswers(cfg, run, last, r.fanoutResults)
            && Figures(operation, r.fanoutResults, cpp, r)
            && (cpp.Some? ==> cpp.value == total)
            && (FanOutReplies.Honest(cfg, run, last) ==> SumOf(r.fanoutResults) == total)
  {
    var s := FanOutReplies.End(cfg, run);
    FanoutFigure(cfg, run);
    CppFigure(cfg.items, cpp);
    ProcessFigures(operation, cfg.items, FanOutReplies.Outcome(s)(|s.rounds|).value, cpp);
  }
}
