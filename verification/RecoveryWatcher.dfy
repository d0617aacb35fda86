/** The watcher as the object it is: per-service runtimes updated in place by each tick. */
module RecoveryWatcher {
  import opened Options
  import opened Recovery

  /** One service's running state. */
  class ServiceRuntime {
    const name: string
    var consecutiveFailures: nat
    var history: seq<Event>

    constructor (name: string)
      ensures this.name == name && consecutiveFailures == 0 && history == []
    {
      this.name := name;
      consecutiveFailures := 0;
      history := [];
    }
  }

  class Watcher {
    const threshold: int
    const names: seq<string>
    const order: seq<string>    // the insertion order of `runtimes`
    var runtimes: map<string, ServiceRuntime>
    var recoveryCount: map<string, nat>
    var stop: bool

    ghost predicate Valid()
      reads this`runtimes, runtimes.Values
    {
      && runtimes.Keys == (set name | name in names)
      && FirstOccurrences(names, order)
      && (forall name :: name in runtimes ==> runtimes[name].name == name)
    }

    /** Results come from probing the watcher's own targets. */
    ghost predicate Known(results: seq<Result>) {
      forall i :: 0 <= i < |results| ==> results[i].name in names
    }

    /** A count that has not been touched yet reads as 0. */
    function Count(name: string): nat
      reads this`recoveryCount
    {
      if name in recoveryCount then recoveryCount[name] else 0
    }

    ghost function View(runtime: ServiceRuntime): Service
      reads this`recoveryCount, runtime
    {
      Service(runtime.consecutiveFailures, runtime.history, Count(runtime.name))
    }

    ghost function Table(): map<string, Service>
      reads this`runtimes, this`recoveryCount, runtimes.Values
    {
      map name | name in runtimes :: View(runtimes[name])
    }

    /** A name that occurs twice among the targets gets one runtime, at its first place. */
    constructor (names: seq<string>, threshold: int)
      ensures Valid() && Table() == NewTable(names) && !stop
      ensures this.names == names && this.threshold == threshold
      ensures forall name :: name in runtimes ==> fresh(runtimes[name])
    {
      var table: map<string, ServiceRuntime>, keys: seq<string> := map[], [];
      for i := 0 to |names|
        invariant table.Keys == (set name | name in names[..i]) == (set name | name in keys)
        invariant Ascending(names, keys, i)
        invariant forall name :: name in table ==>
                    && fresh(table[name]) && table[name].name == name
                    && table[name].consecutiveFailures == 0 && table[name].history == []
      {
        if names[i] !in table {
          AscendingNext(names, keys, i);
          keys := keys + [names[i]];
        }
        var runtime := new ServiceRuntime(names[i]);
        table := table[names[i] := runtime];
        assert names[..i + 1] == names[..i] + [names[i]];
      }
      assert names[..|names|] == names;
      this.names := names;
      this.threshold := threshold;
      order := keys;
      runtimes := table;
      recoveryCount := map[];
      stop := false;
    }

    /** All events so far: the lists in the order of the dictionary, then sorted by time. */
    method AllEvents() returns (events: seq<Event>)
      requires Valid()
      ensures events == History(order, Table())
    {
      var all: seq<Event> := [];
      for i := 0 to |order|
        invariant all + Concatenated(order[i..], Table()) == Concatenated(order, Table())
      {
        ConcatenatedNext(order, Table(), i, all);
        all := all + runtimes[order[i]].history;
      }
      assert all + [] == all;
      events := Sort(all);
    }

    /** Restart a service, record the event, and start counting anew, whatever the answer. */
    method Recover(runtime: ServiceRuntime, p: Probe)
      requires Valid() && runtime.name in runtimes && runtimes[runtime.name] == runtime
      modifies this`recoveryCount, runtime
      ensures Valid()
      ensures runtime.consecutiveFailures == 0
      ensures |runtime.history| == |old(runtime.history)| + 1
      ensures runtime.history[..|runtime.history| - 1] == old(runtime.history)
      ensures Tells(runtime.history[|runtime.history| - 1], runtime.name, p)
      ensures recoveryCount == old(recoveryCount)[runtime.name := old(Count(runtime.name)) + 1]
    {
      var recovered := if p.start.success then Some(p.start.finishedAt) else None;
      var event := Event(runtime.name, p.now, recovered, p.start.duration, p.start.success);
      runtime.history := runtime.history + [event];
      runtime.consecutiveFailures := 0;
      recoveryCount := recoveryCount[runtime.name := Count(runtime.name) + 1];
    }

    /** What one result does to its own runtime. */
    method Digest(runtime: ServiceRuntime, r: Result)
      requires Valid() && r.name in runtimes && runtimes[r.name] == runtime
      modifies this`recoveryCount, runtime
      ensures View(runtime) == Observe(r.name, threshold, old(View(runtime)), r.probe)
      ensures forall name :: name != r.name ==> Count(name) == old(Count(name))
    {
      if r.probe.ok {
        runtime.consecutiveFailures := 0;
      } else {
        runtime.consecutiveFailures := runtime.consecutiveFailures + 1;
        if runtime.consecutiveFailures >= threshold {
          ghost var before := runtime.history;
          Recover(runtime, r.probe);
          assert runtime.history == before + [EventOf(runtime.name, r.probe)];
        }
      }
    }

    /** One result of a tick. */
    method HandleResult(r: Result)
      requires Valid() && r.name in runtimes
      modifies this`recoveryCount, runtimes[r.name]
      ensures Valid() && Table() == Handle(threshold, old(Table()), r)
    {
      Digest(runtimes[r.name], r);
    }

    /** One poll cycle: the table afterwards is the specification's, result by result. */
    method Tick(results: seq<Result>)
      requires Valid() && Known(results)
      modifies this`recoveryCount, runtimes.Values
      ensures Valid() && Table() == HandleAll(threshold, old(Table()), results)
    {
      for i := 0 to |results|
        invariant Valid() && Table() == HandleAll(threshold, old(Table()), results[..i])
      {
        assert results[..i + 1][..i] == results[..i];
        HandleResult(results[i]);
      }
      assert results[..|results|] == results;
    }

    /** One round of the loop, continuing what earlier results have made of an initial table. */
    method Cycle(results: seq<Result>, requested: bool, ghost table: map<string, Service>, ghost seen: seq<Result>)
      requires Valid() && Known(results) && Table() == HandleAll(threshold, table, seen)
      modifies this`recoveryCount, this`stop, runtimes.Values
      ensures Valid() && Table() == HandleAll(threshold, table, seen + results)
      ensures stop == requested
    {
      Tick(results);
      HandleAllConcat(threshold, table, seen, results);
      stop := requested;
    }

    /**
     The polling loop over a supply of ticks. `stops[i]` says whether a stop has been
     requested by the time tick `i` and the wait after it are over: that tick is the last.
     */
    method Run(ticks: seq<seq<Result>>, stops: seq<bool>) returns (done: nat)
      requires Valid() && |ticks| == |stops|
      requires forall i :: 0 <= i < |ticks| ==> Known(ticks[i])
      modifies this`recoveryCount, this`stop, runtimes.Values
      ensures Valid() && done <= |ticks|
      ensures Table() == HandleAll(threshold, old(Table()), Flatten(ticks[..done]))
      ensures old(stop) ==> stop && done == 0
      ensures !old(stop) ==> stop == (done > 0 && stops[done - 1])
      ensures forall i :: 0 <= i < done - 1 ==> !stops[i]
      ensures !stop ==> done == |ticks|
    {
      ghost var table := Table();
      ghost var seen: seq<Result> := [];
      done := 0;
      while !stop && done < |ticks|
        invariant done <= |ticks| && Valid()
        invariant seen == Flatten(ticks[..done]) && Table() == HandleAll(threshold, table, seen)
        invariant old(stop) ==> stop && done == 0
        invariant !old(stop) ==> stop == (done > 0 && stops[done - 1])
        invariant forall i :: 0 <= i < done - 1 ==> !stops[i]
        decreases |ticks| - done
      {
        FlattenNext(ticks, done);
        Cycle(ticks[done], stops[done], table, seen);
        seen := seen + ticks[done];
        done := done + 1;
      }
    }

    /** Runs the loop and then reads the history. */
    method RunAndReport(ticks: seq<seq<Result>>, stops: seq<bool>) returns (done: nat, events: seq<Event>)
      requires Valid() && |ticks| == |stops| && !stop
      requires forall i :: 0 <= i < |ticks| ==> Known(ticks[i])
      modifies this`recoveryCount, this`stop, runtimes.Values
      ensures Valid() && done <= |ticks|
      ensures forall i :: 0 <= i < done - 1 ==> !stops[i]
      ensures done < |ticks| ==> done > 0 && stops[done - 1]
      ensures Table() == HandleAll(threshold, old(Table()), Flatten(ticks[..done]))
      ensures events == History(order, Table())
    {
      done := Run(ticks, stops);
      events := AllEvents();
    }

    /**
     A watcher's whole life: created, run over a supply of ticks until a stop is requested,
     asked for its history. Each service ends up with the closed form of its own probes, and
     the history accounts for every recovery.
     */
    static method Session(names: seq<string>, threshold: int, ticks: seq<seq<Result>>, stops: seq<bool>)
      returns (watcher: Watcher, done: nat, events: seq<Event>)
      requires |ticks| == |stops|
      requires forall i, j :: 0 <= i < |ticks| && 0 <= j < |ticks[i]| ==> ticks[i][j].name in names
      ensures done <= |ticks| && forall i :: 0 <= i < done - 1 ==> !stops[i]
      ensures done < |ticks| ==> done > 0 && stops[done - 1]
      ensures Accounted(threshold, names, Flatten(ticks[..done]), watcher.Table(), events)
    {
      watcher := new Watcher(names, threshold);
      done, events := watcher.RunAndReport(ticks, stops);
      ghost var table := watcher.Table();
      assert Accounted(threshold, names, Flatten(ticks[..done]), table, events) by {
        WatcherExact(threshold, names, watcher.order, Flatten(ticks[..done]));
      }
    }
  }

  /** These names first occur before position `i`, in this order. */
  ghost predicate Ascending(names: seq<string>, keys: seq<string>, i: nat) {
    && (forall a :: 0 <= a < |keys| ==> FirstAt(names, keys[a]) < i)
    && (forall a, b :: 0 <= a < b < |keys| ==> FirstAt(names, keys[a]) < FirstAt(names, keys[b]))
  }

  lemma AscendingNext(names: seq<string>, keys: seq<string>, i: nat)
    requires i < |names| && names[i] !in names[..i] && Ascending(names, keys, i)
    ensures Ascending(names, keys + [names[i]], i + 1)
  {
    FirstAtIs(names, i);
  }

  /** Taking one more list of the concatenation. */
  lemma ConcatenatedNext(order: seq<string>, table: map<string, Service>, i: nat, all: seq<Event>)
    requires i < |order| && order[i] in table
    ensures all + Concatenated(order[i..], table)
            == (all + table[order[i]].history) + Concatenated(order[i + 1..], table)
  {
    assert order[i..][1..] == order[i + 1..];
  }

  lemma FlattenNext(ticks: seq<seq<Result>>, i: nat)
    requires i < |ticks|
    ensures Flatten(ticks[..i + 1]) == Flatten(ticks[..i]) + ticks[i]
  {
    assert ticks[..i + 1][..i] == ticks[..i];
  }

  function Flatten(ticks: seq<seq<Result>>): seq<Result> {
    if ticks == [] then [] else Flatten(ticks[..|ticks| - 1]) + ticks[|ticks| - 1]
  }
}
