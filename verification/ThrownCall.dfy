/**
 When exactly the captured locals of a call can die before their users: a call can be thrown
 out of its submission loop with jobs left behind if and only if its items make two chunks.
 */
module ThrownCall {
  import opened Arithmetic
  import opened Options
  import opened SquareSum
  import opened PoolModel
  import opened PoolInvariants
  import opened PoolTheorems

  /** A pool no thread of which has moved yet, with one call, its first `k` jobs queued. */
  function Fresh(items: seq<real>, workers: nat, k: nat, pc: CallPc): State
    requires workers >= 1 && k <= 1
  {
    var n := |items|;
    var jobs := if k == 0 then [] else [Job(0, 0, ChunkLo(n, workers, 0), ChunkHi(n, workers, 0))];
    State(seq(workers, _ => Locking), jobs, false, None, [Call(items, pc, k, {}, 0.0, None)], Alive, jobs, [])
  }

  /** The call has entered Submit for its first job. */
  lemma FirstLocked(items: seq<real>, workers: nat)
    requires workers >= 1 && ChunkCount(|items|, workers) >= 1
    ensures Reachable(workers, Fresh(items, workers, 0, Holding(0)).(mutex := Some(Caller(0))))
  {
    var s := Fresh(items, workers, 0, Submitting(0));
    var t := Fresh(items, workers, 0, Holding(0)).(mutex := Some(Caller(0)));
    ChunkGuard(|items|, workers, 0);
    Initial(workers);
    Extend(workers, Init(workers), Begin(items), s);
    Extend(workers, s, SubmitLock(0), t);
  }

  /** The first job is queued and its notification has found nobody asleep. */
  lemma FirstSubmitted(items: seq<real>, workers: nat)
    requires workers >= 1 && ChunkCount(|items|, workers) >= 1
    ensures Reachable(workers, Fresh(items, workers, 1, Submitting(1)))
  {
    var s := Fresh(items, workers, 0, Holding(0)).(mutex := Some(Caller(0)));
    var t := Fresh(items, workers, 1, Notifying(0));
    FirstLocked(items, workers);
    Extend(workers, s, Push(0), t);
    Extend(workers, t, Notify(0, None), Fresh(items, workers, 1, Submitting(1)));
  }

  /** The destructor stops the pool between the first and the second submission. */
  lemma StoppedBetween(items: seq<real>, workers: nat)
    requires workers >= 1 && ChunkCount(|items|, workers) >= 1
    ensures Reachable(workers, Fresh(items, workers, 1, Submitting(1)).(dtor := DtorNotifying, stop := true))
  {
    FirstSubmitted(items, workers);
    var s := Fresh(items, workers, 1, Submitting(1));
    var t := s.(dtor := DtorHolding, mutex := Some(Owner));
    Extend(workers, s, DtorLock, t);
    Extend(workers, t, DtorStop, s.(dtor := DtorNotifying, stop := true));
  }

  /** The second submission is refused, and the first job is still queued. */
  lemma SecondRefused(items: seq<real>, workers: nat)
    requires workers >= 1 && ChunkCount(|items|, workers) >= 2
    ensures Reachable(workers, Fresh(items, workers, 1, Threw).(dtor := DtorNotifying, stop := true))
  {
    var s := Fresh(items, workers, 1, Submitting(1)).(dtor := DtorNotifying, stop := true);
    var t := Fresh(items, workers, 1, Holding(1)).(dtor := DtorNotifying, stop := true, mutex := Some(Caller(0)));
    ChunkGuard(|items|, workers, 1);
    StoppedBetween(items, workers);
    Extend(workers, s, SubmitLock(0), t);
    Extend(workers, t, Reject(0), Fresh(items, workers, 1, Threw).(dtor := DtorNotifying, stop := true));
  }

  /** Some run leaves a job behind that refers to the locals of a finished call on these items. */
  ghost predicate CanDangle(items: seq<real>, workers: nat) {
    exists s: State, c: nat ::
      Reachable(workers, s) && IsCall(s, c) && s.calls[c].items == items
      && Finished(s.calls[c]) && RefersTo(s, c)
  }

  lemma TwoHalves(n: nat, workers: nat)
    requires n >= 2 && workers >= 2
    ensures ChunkSize(n, workers) < n
  {
    ChunkSizeIsLeast(n, workers);
    MulMonotone(2, workers, n - 1);
  }

  /** Two items and two threads are what it takes for two chunks. */
  lemma TwoChunks(n: nat, workers: nat)
    requires workers >= 1
    ensures ChunkCount(n, workers) >= 2 <==> n >= 2 && workers >= 2
  {
    ChunkGuard(n, workers, 1);
    ChunkSizeIsLeast(n, workers);
    if n >= 2 && workers >= 2 {
      assert ChunkLo(n, workers, 1) == ChunkSize(n, workers);
      if ChunkSize(n, workers) >= n {
        TwoHalves(n, workers);
      }
    }
  }

  /**
   A call's locals can die before their users if and only if its items are cut into at least
   two chunks, that is, for two or more items on two or more threads. One chunk is always
   safe, whenever the destructor starts; with more a destructor that starts inside the
   submission loop can always break it.
   */
  lemma DanglesExactly(items: seq<real>, workers: nat)
    requires workers >= 1
    ensures CanDangle(items, workers) <==> ChunkCount(|items|, workers) >= 2
    ensures CanDangle(items, workers) <==> |items| >= 2 && workers >= 2
  {
    TwoChunks(|items|, workers);
    if CanDangle(items, workers) {
      var s: State, c: nat :| Reachable(workers, s) && IsCall(s, c) && s.calls[c].items == items
                              && Finished(s.calls[c]) && RefersTo(s, c);
      CapturedLocals(workers, s, c);
    }
    if ChunkCount(|items|, workers) >= 2 {
      var s := Fresh(items, workers, 1, Threw).(dtor := DtorNotifying, stop := true);
      SecondRefused(items, workers);
      assert IsCall(s, 0) && s.tasks[0].call == 0;
    }
  }

  /** For instance two items on two threads. */
  lemma ThrownCallLeavesJobs()
    ensures CanDangle([1.0, 2.0], 2)
  {
    DanglesExactly([1.0, 2.0], 2);
  }
}
