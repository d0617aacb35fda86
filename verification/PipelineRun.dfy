/**
 The pipeline's shared objects, its enqueuing loop, and the code between two suspension points
 of a consumer and of the caller, each proved to be the corresponding step.
 */
module PipelineRun {
  import opened Options
  import opened QueuePipeline

  class Shared {
    var queue: seq<Entry>
    var unfinished: int
    var results: array<Option<real>>
    var failures: seq<int>

    /** The objects agree with the shared part of a state of the transition system. */
    ghost predicate Mirrors(s: State)
      reads this, results
    {
      queue == s.queue && unfinished == s.unfinished && results[..] == s.results && failures == s.failures
    }

    /** The results list, the failure list, and the queue filled by `put_nowait`. */
    constructor (items: seq<real>)
      ensures forall workers :: Mirrors(Init(items, workers))
      ensures unfinished == |queue| == results.Length == |items| && failures == []
      ensures forall i :: 0 <= i < |items| ==> queue[i] == Entry(i, items[i]) && results[i] == None
      ensures fresh(results)
    {
      var slots := new Option<real>[|items|](_ => None);
      var entries: seq<Entry>, count := [], 0;
      for idx := 0 to |items|
        invariant entries == Entries(items)[..idx] && count == idx
      {
        entries := entries + [Entry(idx, items[idx])];
        count := count + 1;
      }
      queue, unfinished, results, failures := entries, count, slots, [];
    }

    /** `queue.get()` of consumer `c` when the queue is not empty. */
    method Get(ghost s: State, ghost work: Entry -> Outcome, ghost c: nat) returns (entry: Entry)
      requires Mirrors(s) && IsConsumer(s, c) && s.consumers[c].Idle? && queue != []
      modifies this
      ensures results == old(results) && old(queue) == [entry] + queue
      ensures Enabled(s, QueuePipeline.Step.Get(c)) && Mirrors(Apply(s, work, QueuePipeline.Step.Get(c)))
      ensures Apply(s, work, QueuePipeline.Step.Get(c)).consumers[c] == Busy(entry)
    {
      entry := queue[0];
      queue := queue[1..];
    }

    /** From the work function's outcome to `task_done`, at the end of the loop body. */
    method Complete(entry: Entry, outcome: Outcome, ghost s: State, ghost work: Entry -> Outcome, ghost c: nat)
      requires Mirrors(s) && Enabled(s, QueuePipeline.Step.Complete(c))
      requires s.consumers[c] == Busy(entry) && outcome == work(entry)
      modifies this, results
      ensures results == old(results) && queue == old(queue) && unfinished == old(unfinished) - 1
      ensures outcome.Value? ==>
                failures == old(failures) && results[..] == old(results[..])[entry.idx := Some(outcome.result)]
      ensures outcome.Failure? ==>
                failures == old(failures) + [outcome.error] && results[..] == old(results[..])
      ensures Mirrors(Apply(s, work, QueuePipeline.Step.Complete(c)))
    {
      match outcome {
        case Value(v) => results[entry.idx] := Some(v);
        case Failure(error) => failures := failures + [error];
      }
      unfinished := unfinished - 1;
    }

    /** After the gather: raise the first failure or build the list. */
    method Answer(ghost s: State, ghost work: Entry -> Outcome) returns (answer: Main)
      requires Mirrors(s) && Enabled(s, GatherReturns)
      ensures answer == Apply(s, work, GatherReturns).main
      ensures failures != [] ==> answer == Raised(failures[0])
      ensures failures == [] ==> answer.Returned? && |answer.list| == results.Length
      ensures failures == [] ==> forall i :: 0 <= i < results.Length ==>
                                   answer.list[i] == match results[i] case Some(v) => v case None => 0.0
    {
      if failures != [] {
        return Raised(failures[0]);
      }
      var list: seq<real> := [];
      for i := 0 to results.Length
        invariant list == OrZero(results[..])[..i]
      {
        list := list + [if results[i].Some? then results[i].value else 0.0];
      }
      return Main.Returned(list);
    }
  }
}
