/**
 The recovery watcher as a function of what it observes: per-service failure counters, the
 recoveries they trigger, and the merged history.
 */
module Recovery {
  import opened Arithmetic
  import opened Options

  datatype Event = Event(service: string, detectedAt: int, recoveredAt: Option<int>, duration: real, success: bool)

  /** What `docker start` would answer, when, and after how long. */
  datatype Start = Start(success: bool, finishedAt: int, duration: real)

  /** One probe result, with what the clock would show and a start would bring if needed. */
  datatype Probe = Probe(ok: bool, now: int, start: Start)

  datatype Result = Result(name: string, probe: Probe)

  /** What the record of a recovery has to say about the failed probe that triggered it. */
  predicate Tells(e: Event, name: string, p: Probe) {
    && e.service == name
    && e.detectedAt == p.now
    && e.success == p.start.success
    && e.duration == p.start.duration
    && (p.start.success ==> e.recoveredAt == Some(p.start.finishedAt))
    && (!p.start.success ==> e.recoveredAt == None)
  }

  /** The event of a recovery triggered by this probe. */
  function EventOf(name: string, p: Probe): (e: Event)
    ensures Tells(e, name, p)
  {
    Event(name, p.now, if p.start.success then Some(p.start.finishedAt) else None, p.start.duration, p.start.success)
  }

  /** A service's counter, its recovery events, and the number of recovery attempts. */
  datatype Service = Service(failures: nat, history: seq<Event>, attempts: nat)

  const NEW: Service := Service(0, [], 0)

  /** How the watcher digests one probe result of a service. */
  function Observe(name: string, threshold: int, s: Service, p: Probe): Service {
    if p.ok then s.(failures := 0)
    else if s.failures + 1 >= threshold then
      Service(0, s.history + [EventOf(name, p)], s.attempts + 1)
    else s.(failures := s.failures + 1)
  }

  function WatchFrom(name: string, threshold: int, s: Service, trace: seq<Probe>): Service {
    if trace == [] then s
    else Observe(name, threshold, WatchFrom(name, threshold, s, trace[..|trace| - 1]), trace[|trace| - 1])
  }

  /** A service watched alone from the start. */
  function Watch(name: string, threshold: int, trace: seq<Probe>): Service {
    WatchFrom(name, threshold, NEW, trace)
  }

  // ---------- The counter in closed form ----------

  /** Failures needed for a recovery: thresholds below 1 act like 1. */
  function Needed(threshold: int): nat {
    if threshold < 1 then 1 else threshold
  }

  /** The length of the run of failures a trace ends with. */
  function TrailingRun(trace: seq<Probe>): nat {
    if trace == [] || trace[|trace| - 1].ok then 0 else 1 + TrailingRun(trace[..|trace| - 1])
  }

  lemma {:induction false} TrailingRunMaximal(trace: seq<Probe>)
    ensures var r := TrailingRun(trace);
            && r <= |trace|
            && (forall i :: |trace| - r <= i < |trace| ==> !trace[i].ok)
            && (r < |trace| ==> trace[|trace| - r - 1].ok)
  {
    if trace != [] && !trace[|trace| - 1].ok {
      TrailingRunMaximal(trace[..|trace| - 1]);
    }
  }

  /** A maximal run of failures ends just before position `j`. */
  predicate RunEnds(trace: seq<Probe>, j: nat)
    requires 1 <= j <= |trace|
  {
    !trace[j - 1].ok && (j == |trace| || trace[j].ok)
  }

  /** The sum of floor(length / k) over the maximal failure runs that end at or before `j`. */
  function RunQuotients(trace: seq<Probe>, k: nat, j: nat): nat
    requires k >= 1 && j <= |trace|
  {
    if j == 0 then 0
    else RunQuotients(trace, k, j - 1) + if RunEnds(trace, j) then TrailingRun(trace[..j]) / k else 0
  }

  lemma {:induction false} RunQuotientsPrefix(trace: seq<Probe>, p: Probe, k: nat, j: nat)
    requires k >= 1 && j < |trace|
    ensures RunQuotients(trace + [p], k, j) == RunQuotients(trace, k, j)
  {
    if j > 0 {
      RunQuotientsPrefix(trace, p, k, j - 1);
      assert (trace + [p])[..j] == trace[..j];
    }
  }

  /** One more probe closes the last run or makes it longer by one. */
  lemma RunQuotientsAppend(trace: seq<Probe>, p: Probe, k: nat)
    requires k >= 1
    ensures var n, r := |trace|, TrailingRun(trace);
            RunQuotients(trace + [p], k, n + 1)
            == RunQuotients(trace, k, n) + if p.ok then 0 else (r + 1) / k - r / k
  {
    var n := |trace|;
    var longer := trace + [p];
    assert longer[..n] == trace && longer[..n + 1] == longer && longer[n] == p;
    if n > 0 {
      assert longer[n - 1] == trace[n - 1];
      RunQuotientsPrefix(trace, p, k, n - 1);
      assert trace[..n] == trace;
    }
  }

  /** The probe at position `i` failed and is a k-th failure of its run. */
  predicate IsPoint(trace: seq<Probe>, k: nat, i: nat)
    requires k >= 1
  {
    i < |trace| && !trace[i].ok && TrailingRun(trace[..i + 1]) % k == 0
  }

  /** The positions of the probes that trigger a recovery, told without a counter. */
  function Points(trace: seq<Probe>, k: nat): seq<nat>
    requires k >= 1
  {
    if trace == [] then []
    else
      var n := |trace| - 1;
      Points(trace[..n], k) + if !trace[n].ok && TrailingRun(trace) % k == 0 then [n] else []
  }

  lemma {:induction false} PointsInside(trace: seq<Probe>, k: nat)
    requires k >= 1
    ensures forall j :: 0 <= j < |Points(trace, k)| ==> Points(trace, k)[j] < |trace|
  {
    if trace != [] {
      PointsInside(trace[..|trace| - 1], k);
    }
  }

  lemma {:induction false} PointsAscend(trace: seq<Probe>, k: nat)
    requires k >= 1
    ensures forall a, b :: 0 <= a < b < |Points(trace, k)| ==> Points(trace, k)[a] < Points(trace, k)[b]
  {
    if trace != [] {
      PointsAscend(trace[..|trace| - 1], k);
      PointsInside(trace[..|trace| - 1], k);
    }
  }

  lemma {:induction false} PointIn(trace: seq<Probe>, k: nat, i: nat)
    requires k >= 1
    ensures IsPoint(trace, k, i) <==> i in Points(trace, k)
  {
    if trace != [] {
      var n := |trace| - 1;
      PointIn(trace[..n], k, i);
      PointsInside(trace[..n], k);
      if i < n {
        assert trace[..n][..i + 1] == trace[..i + 1];
      } else if i == n {
        assert trace[..n + 1] == trace;
      }
    }
  }

  /** They are all the k-th failures of runs, in order. */
  lemma PointsExact(trace: seq<Probe>, k: nat)
    requires k >= 1
    ensures forall i: nat :: IsPoint(trace, k, i) <==> i in Points(trace, k)
    ensures forall a, b :: 0 <= a < b < |Points(trace, k)| ==> Points(trace, k)[a] < Points(trace, k)[b]
  {
    PointsAscend(trace, k);
    forall i: nat
      ensures IsPoint(trace, k, i) <==> i in Points(trace, k)
    {
      PointIn(trace, k, i);
    }
  }

  /** One event for each recovery point, in order, telling of the probe there. */
  ghost predicate TellsAll(history: seq<Event>, name: string, k: nat, trace: seq<Probe>)
    requires k >= 1
  {
    && |history| == |Points(trace, k)|
    && forall j :: 0 <= j < |history| ==>
         Points(trace, k)[j] < |trace| && Tells(history[j], name, trace[Points(trace, k)[j]])
  }

  function FailedProbes(trace: seq<Probe>): nat {
    if trace == [] then 0
    else FailedProbes(trace[..|trace| - 1]) + if trace[|trace| - 1].ok then 0 else 1
  }

  /** One observation of a counter that is a run length modulo k. */
  lemma ObserveExact(name: string, threshold: int, s: Service, r: nat, p: Probe)
    requires s.failures == r % Needed(threshold)
    ensures var t := Observe(name, threshold, s, p);
            var k, longer := Needed(threshold), if p.ok then 0 else r + 1;
            && t.failures == longer % k
            && t.history == s.history + (if !p.ok && longer % k == 0 then [EventOf(name, p)] else [])
            && t.attempts - s.attempts == |t.history| - |s.history|
  {
    var k := Needed(threshold);
    NextQuotient(r, k);
    assert r % k < k;
    assert 0 % k == 0;
  }

  /** The counter and the events, one induction on the trace. */
  lemma {:induction false} CounterExact(name: string, threshold: int, trace: seq<Probe>)
    ensures var k, s := Needed(threshold), Watch(name, threshold, trace);
            && s.failures == TrailingRun(trace) % k
            && TellsAll(s.history, name, k, trace)
            && s.attempts == |s.history|
  {
    if trace != [] {
      var front, last := trace[..|trace| - 1], trace[|trace| - 1];
      CounterExact(name, threshold, front);
      PointsInside(front, Needed(threshold));
      ObserveExact(name, threshold, Watch(name, threshold, front), TrailingRun(front), last);
    }
  }

  lemma {:induction false} PointsCount(trace: seq<Probe>, k: nat)
    requires k >= 1
    ensures |Points(trace, k)| == RunQuotients(trace, k, |trace|)
  {
    if trace != [] {
      var front, last := trace[..|trace| - 1], trace[|trace| - 1];
      assert trace == front + [last];
      PointsCount(front, k);
      RunQuotientsAppend(front, last, k);
      NextQuotient(TrailingRun(front), k);
    }
  }

  /** The state a service must be in after these probes, told without a counter. */
  ghost predicate Exact(name: string, threshold: int, trace: seq<Probe>, s: Service) {
    var k := Needed(threshold);
    && s.failures == TrailingRun(trace) % k
    && TellsAll(s.history, name, k, trace)
    && |s.history| == RunQuotients(trace, k, |trace|)
    && s.attempts == |s.history|
  }

  /**
   The watcher's exact behaviour over every probe trace, whatever `docker start` answers: the
   counter is the trailing failure run modulo k, the events come at every k-th failure of a
   run, so there are floor(length / k) of them for each maximal run, each with one attempt, and
   each event tells when its probe failed and what `docker start` brought.
   */
  lemma ExactBehaviour(name: string, threshold: int, trace: seq<Probe>)
    ensures Exact(name, threshold, trace, Watch(name, threshold, trace))
  {
    CounterExact(name, threshold, trace);
    PointsCount(trace, Needed(threshold));
  }

  /** Every k failed probes pay for at most one recovery, and the counter holds the rest. */
  lemma {:induction false} FailuresConserved(name: string, threshold: int, trace: seq<Probe>)
    ensures var s := Watch(name, threshold, trace);
            Needed(threshold) * |s.history| + s.failures <= FailedProbes(trace)
    ensures Watch(name, threshold, trace).failures < Needed(threshold)
  {
    if trace != [] {
      var front, last := trace[..|trace| - 1], trace[|trace| - 1];
      FailuresConserved(name, threshold, front);
      var s := Watch(name, threshold, front);
      assert Needed(threshold) * (|s.history| + 1) == Needed(threshold) * |s.history| + Needed(threshold);
    }
  }

  // ---------- Many services ----------

  /** The watcher's table after one more result. */
  function Handle(threshold: int, table: map<string, Service>, r: Result): map<string, Service> {
    if r.name in table then table[r.name := Observe(r.name, threshold, table[r.name], r.probe)] else table
  }

  function HandleAll(threshold: int, table: map<string, Service>, results: seq<Result>): map<string, Service> {
    if results == [] then table
    else Handle(threshold, HandleAll(threshold, table, results[..|results| - 1]), results[|results| - 1])
  }

  /** The probes of one service among all results. */
  function Project(results: seq<Result>, name: string): seq<Probe> {
    if results == [] then []
    else
      var last := results[|results| - 1];
      Project(results[..|results| - 1], name) + if last.name == name then [last.probe] else []
  }

  /** A fresh table over these services. */
  function NewTable(names: seq<string>): map<string, Service> {
    map name | name in names :: NEW
  }

  /** Services do not interfere: each fares as if watched alone on its own probes. */
  lemma {:induction false} NonInterference(threshold: int, table: map<string, Service>, results: seq<Result>,
                                           name: string)
    ensures HandleAll(threshold, table, results).Keys == table.Keys
    ensures name in table ==>
              HandleAll(threshold, table, results)[name]
              == WatchFrom(name, threshold, table[name], Project(results, name))
  {
    if results != [] {
      NonInterference(threshold, table, results[..|results| - 1], name);
      var front := Project(results[..|results| - 1], name);
      var last := results[|results| - 1];
      assert front + [] == front;
      assert (front + [last.probe])[..|front|] == front;
    }
  }

  lemma {:induction false} HandleAllConcat(threshold: int, table: map<string, Service>, a: seq<Result>, b: seq<Result>)
    ensures HandleAll(threshold, table, a + b) == HandleAll(threshold, HandleAll(threshold, table, a), b)
  {
    if b == [] {
      assert a + b == a;
    } else {
      assert (a + b)[..|a + b| - 1] == a + b[..|b| - 1];
      HandleAllConcat(threshold, table, a, b[..|b| - 1]);
    }
  }

  // ---------- The merged history ----------

  /** The recovery, if any, that one result triggers. */
  function Recovered(threshold: int, table: map<string, Service>, r: Result): seq<Event> {
    if r.name in table && !r.probe.ok && table[r.name].failures + 1 >= threshold
    then [EventOf(r.name, r.probe)] else []
  }

  /** All recoveries of all services in the order they happened. */
  function Log(threshold: int, table: map<string, Service>, results: seq<Result>): seq<Event> {
    if results == [] then []
    else
      var front := results[..|results| - 1];
      Log(threshold, table, front)
      + Recovered(threshold, HandleAll(threshold, table, front), results[|results| - 1])
  }

  /** The per-service lists one after the other, in the order of the table. */
  function Concatenated(names: seq<string>, table: map<string, Service>): seq<Event> {
    if names == [] then []
    else (if names[0] in table then table[names[0]].history else []) + Concatenated(names[1..], table)
  }

  predicate SortedByTime(events: seq<Event>) {
    forall i, j :: 0 <= i < j < |events| ==> events[i].detectedAt <= events[j].detectedAt
  }

  predicate StrictlyByTime(events: seq<Event>) {
    forall i, j :: 0 <= i < j < |events| ==> events[i].detectedAt < events[j].detectedAt
  }

  function Insert(e: Event, events: seq<Event>): (r: seq<Event>)
    ensures multiset(r) == multiset{e} + multiset(events)
  {
    if events == [] || e.detectedAt <= events[0].detectedAt then
      assert multiset([e] + events) == multiset{e} + multiset(events);
      [e] + events
    else
      assert events == [events[0]] + events[1..];
      [events[0]] + Insert(e, events[1..])
  }

  /** The stable sort by detection time. */
  function Sort(events: seq<Event>): (r: seq<Event>)
    ensures multiset(r) == multiset(events)
  {
    if events == [] then []
    else
      assert events == [events[0]] + events[1..];
      Insert(events[0], Sort(events[1..]))
  }

  /** What the `history` property returns. */
  function History(names: seq<string>, table: map<string, Service>): seq<Event> {
    Sort(Concatenated(names, table))
  }

  lemma {:induction false} InsertSorted(e: Event, events: seq<Event>)
    requires SortedByTime(events)
    ensures SortedByTime(Insert(e, events))
  {
    if events != [] && e.detectedAt > events[0].detectedAt {
      InsertSorted(e, events[1..]);
      var rest := Insert(e, events[1..]);
      forall i | 0 <= i < |rest|
        ensures events[0].detectedAt <= rest[i].detectedAt
      {
        assert rest[i] in multiset(rest);
        assert rest[i] == e || rest[i] in events[1..];
      }
    }
  }

  lemma {:induction false} SortSorted(events: seq<Event>)
    ensures SortedByTime(Sort(events))
  {
    if events != [] {
      SortSorted(events[1..]);
      InsertSorted(events[0], Sort(events[1..]));
    }
  }

  lemma SameHead(a: seq<Event>, b: seq<Event>)
    requires SortedByTime(a) && StrictlyByTime(b) && multiset(a) == multiset(b) && a != [] && b != []
    ensures a[0] == b[0]
  {
    assert a[0] in multiset(b) && b[0] in multiset(a);
    var i :| 0 <= i < |b| && b[i] == a[0];
    var j :| 0 <= j < |a| && a[j] == b[0];
    assert a[0].detectedAt <= a[j].detectedAt;
  }

  lemma WithoutHead(events: seq<Event>)
    requires events != []
    ensures multiset(events[1..]) == multiset(events) - multiset{events[0]}
  {
    assert events == [events[0]] + events[1..];
  }

  lemma SameTails(a: seq<Event>, b: seq<Event>)
    requires SortedByTime(a) && StrictlyByTime(b) && multiset(a) == multiset(b) && a != [] && b != []
    ensures a[0] == b[0] && multiset(a[1..]) == multiset(b[1..])
    ensures SortedByTime(a[1..]) && StrictlyByTime(b[1..])
  {
    SameHead(a, b);
    WithoutHead(a);
    WithoutHead(b);
  }

  /** Strictly increasing times leave only one sorted arrangement. */
  lemma {:induction false} SortedUnique(a: seq<Event>, b: seq<Event>)
    requires SortedByTime(a) && StrictlyByTime(b) && multiset(a) == multiset(b)
    ensures a == b
  {
    assert |a| == |multiset(a)| == |multiset(b)| == |b|;
    if a != [] {
      SameTails(a, b);
      SortedUnique(a[1..], b[1..]);
      assert a == [a[0]] + a[1..] && b == [b[0]] + b[1..];
    }
  }

  predicate Distinct(names: seq<string>) {
    forall i, j :: 0 <= i < j < |names| ==> names[i] != names[j]
  }

  lemma {:induction false} ConcatenatedUnchanged(names: seq<string>, table: map<string, Service>,
                                                 name: string, s: Service)
    requires name !in names
    ensures Concatenated(names, table[name := s]) == Concatenated(names, table)
  {
    if names != [] {
      ConcatenatedUnchanged(names[1..], table, name, s);
    }
  }

  /** Appending an event to one service's list adds it to the concatenation once. */
  lemma {:induction false} ConcatenatedAppend(names: seq<string>, table: map<string, Service>,
                                              name: string, s: Service, e: Event)
    requires Distinct(names) && name in names && name in table
    requires s.history == table[name].history + [e]
    ensures multiset(Concatenated(names, table[name := s])) == multiset(Concatenated(names, table)) + multiset{e}
  {
    var rest := names[1..];
    if names[0] == name {
      assert name !in rest;
      ConcatenatedUnchanged(rest, table, name, s);
    } else {
      assert name in rest;
      ConcatenatedAppend(rest, table, name, s, e);
    }
  }

  lemma {:induction false} ConcatenatedSame(names: seq<string>, table: map<string, Service>,
                                            other: map<string, Service>)
    requires table.Keys == other.Keys
    requires forall name :: name in table ==> table[name].history == other[name].history
    ensures Concatenated(names, table) == Concatenated(names, other)
  {
    if names != [] {
      ConcatenatedSame(names[1..], table, other);
    }
  }

  lemma {:induction false} ConcatenatedNew(names: seq<string>, all: seq<string>)
    ensures Concatenated(names, NewTable(all)) == []
  {
    if names != [] {
      ConcatenatedNew(names[1..], all);
    }
  }

  /** One more result appends the same events to the log and to the per-service lists. */
  lemma UnionStep(threshold: int, names: seq<string>, before: map<string, Service>, r: Result)
    requires Distinct(names) && before.Keys == (set name | name in names)
    ensures var after := Handle(threshold, before, r);
            multiset(Concatenated(names, after))
            == multiset(Concatenated(names, before)) + multiset(Recovered(threshold, before, r))
  {
    if Recovered(threshold, before, r) != [] {
      var s := Observe(r.name, threshold, before[r.name], r.probe);
      ConcatenatedAppend(names, before, r.name, s, EventOf(r.name, r.probe));
    } else {
      ConcatenatedSame(names, before, Handle(threshold, before, r));
    }
  }

  /** The per-service lists together hold exactly the logged recoveries. */
  lemma {:induction false} LogIsUnion(threshold: int, names: seq<string>, results: seq<Result>)
    requires Distinct(names)
    ensures multiset(Concatenated(names, HandleAll(threshold, NewTable(names), results)))
            == multiset(Log(threshold, NewTable(names), results))
  {
    if results == [] {
      ConcatenatedNew(names, names);
    } else {
      var front, r := results[..|results| - 1], results[|results| - 1];
      LogIsUnion(threshold, names, front);
      NonInterference(threshold, NewTable(names), front, r.name);
      UnionStep(threshold, names, HandleAll(threshold, NewTable(names), front), r);
    }
  }

  /**
   With strictly increasing detection times the merged history is the chronological log of
   all recoveries. Whatever the times, it is sorted and holds each recovery once.
   */
  lemma MergedHistory(threshold: int, names: seq<string>, results: seq<Result>)
    requires Distinct(names)
    ensures var table := HandleAll(threshold, NewTable(names), results);
            var log := Log(threshold, NewTable(names), results);
            && SortedByTime(History(names, table))
            && multiset(History(names, table)) == multiset(log)
            && (StrictlyByTime(log) ==> History(names, table) == log)
  {
    var table := HandleAll(threshold, NewTable(names), results);
    var log := Log(threshold, NewTable(names), results);
    LogIsUnion(threshold, names, results);
    SortSorted(Concatenated(names, table));
    if StrictlyByTime(log) {
      SortedUnique(History(names, table), log);
    }
  }

  /** A table depends on which names there are, not on their order or number. */
  lemma SameTable(names: seq<string>, order: seq<string>)
    requires (set name | name in names) == (set name | name in order)
    ensures NewTable(names) == NewTable(order)
  {
    var named, ordered := set name | name in names, set name | name in order;
    forall name: string
      ensures name in names <==> name in order
    {
      assert name in named <==> name in ordered;
    }
  }

  /** One service's events among others. */
  function Of(events: seq<Event>, service: string): seq<Event> {
    if events == [] then []
    else if events[0].service == service then [events[0]] + Of(events[1..], service)
    else Of(events[1..], service)
  }

  /** The log keeps each service's own history as a subsequence, in its own order. */
  lemma {:induction false} LogKeepsServiceOrder(threshold: int, names: seq<string>, results: seq<Result>, name: string)
    requires name in names
    ensures name in HandleAll(threshold, NewTable(names), results)
    ensures Of(Log(threshold, NewTable(names), results), name)
            == HandleAll(threshold, NewTable(names), results)[name].history
  {
    var table := NewTable(names);
    NonInterference(threshold, table, results, name);
    if results != [] {
      var front, r := results[..|results| - 1], results[|results| - 1];
      LogKeepsServiceOrder(threshold, names, front, name);
      NonInterference(threshold, table, front, name);
      assert Log(threshold, table, front) + [] == Log(threshold, table, front);
      OfAppend(Log(threshold, table, front), EventOf(r.name, r.probe), name);
    }
  }

  lemma {:induction false} OfAppend(events: seq<Event>, e: Event, service: string)
    ensures Of(events + [e], service) == Of(events, service) + if e.service == service then [e] else []
  {
    if events == [] {
      assert events + [e] == [e];
    } else {
      OfAppend(events[1..], e, service);
      assert (events + [e])[1..] == events[1..] + [e];
    }
  }

  lemma {:induction false} OfService(events: seq<Event>, service: string)
    ensures forall i :: 0 <= i < |Of(events, service)| ==> Of(events, service)[i].service == service
  {
    if events != [] {
      OfService(events[1..], service);
    }
  }

  lemma {:induction false} OfConcat(a: seq<Event>, b: seq<Event>, service: string)
    ensures Of(a + b, service) == Of(a, service) + Of(b, service)
  {
    if a == [] {
      assert a + b == b;
    } else {
      assert (a + b)[1..] == a[1..] + b;
      OfConcat(a[1..], b, service);
    }
  }

  /** Events of one service only, seen as that service's or as another's. */
  lemma {:induction false} OfUniform(events: seq<Event>, owner: string, service: string)
    requires forall i :: 0 <= i < |events| ==> events[i].service == owner
    ensures Of(events, service) == if owner == service then events else []
  {
    if events != [] {
      OfUniform(events[1..], owner, service);
    }
  }

  /** Inserting in front of equals keeps each service's order. */
  lemma {:induction false} InsertStable(e: Event, events: seq<Event>, service: string)
    requires e.service == service ==>
               forall x :: x in Of(events, service) ==> e.detectedAt <= x.detectedAt
    ensures Of(Insert(e, events), service)
            == (if e.service == service then [e] else []) + Of(events, service)
  {
    if events == [] || e.detectedAt <= events[0].detectedAt {
      assert ([e] + events)[1..] == events;
    } else {
      var head, tail := events[0], events[1..];
      assert head.service == service ==> head in Of(events, service);
      assert forall x :: x in Of(tail, service) ==> x in Of(events, service);
      InsertStable(e, tail, service);
      var rest := Insert(e, tail);
      assert ([head] + rest)[1..] == rest;
    }
  }

  lemma {:induction false} SortStable(events: seq<Event>, service: string)
    requires SortedByTime(Of(events, service))
    ensures Of(Sort(events), service) == Of(events, service)
  {
    if events != [] {
      var tail := Of(events[1..], service);
      var whole := Of(events, service);
      if events[0].service == service {
        assert whole[0] == events[0] && whole[1..] == tail;
        forall i | 0 <= i < |tail|
          ensures events[0].detectedAt <= tail[i].detectedAt
        {
          assert whole[0].detectedAt <= whole[i + 1].detectedAt;
        }
      } else {
        assert whole == tail;
      }
      SortStable(events[1..], service);
      InsertStable(events[0], Sort(events[1..]), service);
    }
  }

  /** Each service's list holds its own events only. */
  ghost predicate OwnEvents(table: map<string, Service>) {
    forall name, i :: name in table && 0 <= i < |table[name].history| ==> table[name].history[i].service == name
  }

  lemma OwnEventsAlways(threshold: int, names: seq<string>, results: seq<Result>)
    ensures OwnEvents(HandleAll(threshold, NewTable(names), results))
  {
    var table := HandleAll(threshold, NewTable(names), results);
    forall name, i | name in table && 0 <= i < |table[name].history|
      ensures table[name].history[i].service == name
    {
      NonInterference(threshold, NewTable(names), results, name);
      LogKeepsServiceOrder(threshold, names, results, name);
      OfService(Log(threshold, NewTable(names), results), name);
    }
  }

  /** The concatenation holds each service's list as it is. */
  lemma {:induction false} OfConcatenated(names: seq<string>, table: map<string, Service>, name: string)
    requires Distinct(names)
    requires OwnEvents(table)
    ensures Of(Concatenated(names, table), name) == if name in names && name in table then table[name].history else []
  {
    if names != [] {
      var first := if names[0] in table then table[names[0]].history else [];
      OfConcatenated(names[1..], table, name);
      OfConcat(first, Concatenated(names[1..], table), name);
      OfUniform(first, names[0], name);
      assert name == names[0] ==> name !in names[1..];
    }
  }

  /** Even with equal detection times the merged history keeps each service's own order. */
  lemma MergedKeepsServiceOrder(threshold: int, names: seq<string>, results: seq<Result>, name: string)
    requires Distinct(names) && name in names
    requires name in HandleAll(threshold, NewTable(names), results)
    requires SortedByTime(HandleAll(threshold, NewTable(names), results)[name].history)
    ensures var table := HandleAll(threshold, NewTable(names), results);
            Of(History(names, table), name) == table[name].history
  {
    var table := HandleAll(threshold, NewTable(names), results);
    OwnEventsAlways(threshold, names, results);
    OfConcatenated(names, table, name);
    SortStable(Concatenated(names, table), name);
  }

  // ---------- Equal detection times ----------

  /** The place of a name's first occurrence. */
  function FirstAt(names: seq<string>, name: string): nat {
    if names == [] || names[0] == name then 0 else 1 + FirstAt(names[1..], name)
  }

  lemma {:induction false} FirstAtIs(names: seq<string>, i: nat)
    requires i < |names| && names[i] !in names[..i]
    ensures FirstAt(names, names[i]) == i
  {
    if i > 0 {
      assert names[0] in names[..i];
      assert names[1..][..i - 1] == names[..i][1..];
      FirstAtIs(names[1..], i - 1);
    }
  }

  /** The names without repetitions, each at its first place. */
  ghost predicate FirstOccurrences(names: seq<string>, order: seq<string>) {
    && (set name | name in names) == (set name | name in order)
    && forall a, b :: 0 <= a < b < |order| ==> FirstAt(names, order[a]) < FirstAt(names, order[b])
  }

  lemma FirstOccurrencesDistinct(names: seq<string>, order: seq<string>)
    requires FirstOccurrences(names, order)
    ensures Distinct(order)
  {
    forall a, b | 0 <= a < b < |order|
      ensures order[a] != order[b]
    {
      assert FirstAt(names, order[a]) < FirstAt(names, order[b]);
    }
  }

  ghost predicate InTableOrder(names: seq<string>, events: seq<Event>) {
    forall i, j :: 0 <= i < j < |events| ==> FirstAt(names, events[i].service) <= FirstAt(names, events[j].service)
  }

  ghost predicate Before(names: seq<string>, x: Event, y: Event) {
    || x.detectedAt < y.detectedAt
    || (x.detectedAt == y.detectedAt && FirstAt(names, x.service) <= FirstAt(names, y.service))
  }

  /** Sorted by time, and events of one time in the order in which their services are listed. */
  ghost predicate TimeThenTable(names: seq<string>, events: seq<Event>) {
    forall i, j :: 0 <= i < j < |events| ==> Before(names, events[i], events[j])
  }

  lemma {:induction false} InsertOrdered(names: seq<string>, e: Event, events: seq<Event>)
    requires TimeThenTable(names, events)
    requires forall x :: x in events ==> FirstAt(names, e.service) <= FirstAt(names, x.service)
    ensures TimeThenTable(names, Insert(e, events))
  {
    if events != [] {
      if e.detectedAt <= events[0].detectedAt {
        forall j | 0 <= j < |events|
          ensures Before(names, e, events[j])
        {
          assert events[j] in events;
          assert j > 0 ==> Before(names, events[0], events[j]);
        }
      } else {
        InsertOrdered(names, e, events[1..]);
        var rest := Insert(e, events[1..]);
        forall j | 0 <= j < |rest|
          ensures Before(names, events[0], rest[j])
        {
          assert rest[j] in multiset(rest);
          assert rest[j] == e || rest[j] in events[1..];
        }
      }
    }
  }

  lemma {:induction false} SortOrdered(names: seq<string>, events: seq<Event>)
    requires InTableOrder(names, events)
    ensures TimeThenTable(names, Sort(events))
  {
    if events != [] {
      SortOrdered(names, events[1..]);
      forall x | x in Sort(events[1..])
        ensures FirstAt(names, events[0].service) <= FirstAt(names, x.service)
      {
        assert x in multiset(Sort(events[1..]));
        assert x in events[1..];
      }
      InsertOrdered(names, events[0], Sort(events[1..]));
    }
  }

  lemma {:induction false} ConcatenatedOrdered(names: seq<string>, order: seq<string>, table: map<string, Service>)
    requires OwnEvents(table)
    requires forall a, b :: 0 <= a < b < |order| ==> FirstAt(names, order[a]) < FirstAt(names, order[b])
    ensures InTableOrder(names, Concatenated(order, table))
    ensures forall e :: e in Concatenated(order, table) ==> e.service in order
  {
    if order != [] {
      ConcatenatedOrdered(names, order[1..], table);
      forall e | e in Concatenated(order[1..], table)
        ensures FirstAt(names, order[0]) < FirstAt(names, e.service)
      {
        var b :| 0 <= b < |order[1..]| && order[1..][b] == e.service;
        assert FirstAt(names, order[0]) < FirstAt(names, order[b + 1]);
      }
    }
  }

  // ---------- The whole watcher ----------

  /**
   What must be true of a watcher of these names once it has digested these results. The last
   three lines leave only one list of events: times first, then the order in which services
   are listed, then each service's own order.
   */
  ghost predicate Accounted(threshold: int, names: seq<string>, results: seq<Result>,
                            table: map<string, Service>, events: seq<Event>) {
    var log := Log(threshold, NewTable(names), results);
    && table.Keys == (set name | name in names)
    && (forall name :: name in table ==> Exact(name, threshold, Project(results, name), table[name]))
    && (StrictlyByTime(log) ==> events == log)
    && multiset(events) == multiset(log)
    && TimeThenTable(names, events)
    && (forall name :: name in table && SortedByTime(table[name].history) ==> Of(events, name) == table[name].history)
  }

  /**
   The whole watcher at once, for any target list, repeated names included: every service has
   the closed form of its own probes, and the merged history is sorted, with ties in the order
   of the targets, and holds exactly the recoveries that happened, in the order they happened
   when no two times are equal.
   */
  lemma WatcherExact(threshold: int, names: seq<string>, order: seq<string>, results: seq<Result>)
    requires FirstOccurrences(names, order)
    ensures var table := HandleAll(threshold, NewTable(names), results);
            Accounted(threshold, names, results, table, History(order, table))
  {
    var table := HandleAll(threshold, NewTable(names), results);
    SameTable(names, order);
    FirstOccurrencesDistinct(names, order);
    MergedHistory(threshold, order, results);
    OwnEventsAlways(threshold, order, results);
    ConcatenatedOrdered(names, order, table);
    SortOrdered(names, Concatenated(order, table));
    NonInterference(threshold, NewTable(names), results, "");
    forall name | name in table
      ensures Exact(name, threshold, Project(results, name), table[name])
      ensures SortedByTime(table[name].history) ==> Of(History(order, table), name) == table[name].history
    {
      NonInterference(threshold, NewTable(names), results, name);
      ExactBehaviour(name, threshold, Project(results, name));
      assert name in order;
      if SortedByTime(table[name].history) {
        MergedKeepsServiceOrder(threshold, order, results, name);
      }
    }
  }
}
