/**
 The watcher against an environment that stops containers: a probe succeeds exactly when the
 container is up at that moment, and `docker start` brings it up.
 */
module ClosedLoop {
  import opened Recovery

  /** `pending` holds the results of the current tick not yet digested. */
  datatype World = World(table: map<string, Service>, up: set<string>, pending: seq<Result>)

  datatype Move =
    | StopContainer(name: string)   // the adversary, at any moment
    | Sample(now: int)              // probe all targets at once
    | Digest                        // handle the next result of the tick

  /** Results of probing all targets at once, in the order of the targets. */
  function Probes(names: seq<string>, up: set<string>, now: int): seq<Result> {
    seq(|names|, i requires 0 <= i < |names| => Result(names[i], Probe(names[i] in up, now, Start(true, now, 0.0))))
  }

  /** Digesting one result: a recovery starts the container. */
  function DigestOne(threshold: int, w: World): World
    requires w.pending != []
  {
    var r := w.pending[0];
    World(Handle(threshold, w.table, r),
          if Recovered(threshold, w.table, r) != [] then w.up + {r.name} else w.up,
          w.pending[1..])
  }

  function Step(threshold: int, names: seq<string>, w: World, move: Move): World {
    match move
    case StopContainer(name) => w.(up := w.up - {name})
    case Sample(now) => if w.pending == [] then w.(pending := Probes(names, w.up, now)) else w
    case Digest => if w.pending == [] then w else DigestOne(threshold, w)
  }

  function Play(threshold: int, names: seq<string>, w: World, moves: seq<Move>): World
    decreases |moves|
  {
    if moves == [] then w
    else Play(threshold, names, Step(threshold, names, w, moves[0]), moves[1..])
  }

  /** Every target is known, and counters are below the number of failures that reset them. */
  ghost predicate Sound(threshold: int, names: seq<string>, w: World) {
    && w.table.Keys == (set name | name in names)
    && (forall name :: name in w.table ==> w.table[name].failures < Needed(threshold))
    && (forall i :: 0 <= i < |w.pending| ==> w.pending[i].name in names && w.pending[i].probe.start.success)
  }

  lemma StepSound(threshold: int, names: seq<string>, w: World, move: Move)
    requires Sound(threshold, names, w)
    ensures Sound(threshold, names, Step(threshold, names, w, move))
  {
  }

  /** Whatever the adversary and the watcher do, the counters stay below the threshold. */
  lemma {:induction false} PlaySound(threshold: int, names: seq<string>, w: World, moves: seq<Move>)
    requires Sound(threshold, names, w)
    ensures Sound(threshold, names, Play(threshold, names, w, moves))
    decreases |moves|
  {
    if moves != [] {
      StepSound(threshold, names, w, moves[0]);
      PlaySound(threshold, names, Step(threshold, names, w, moves[0]), moves[1..]);
    }
  }

  // ---------- One tick ----------

  /** Digesting everything that is pending. */
  function DigestAll(threshold: int, w: World): World
    decreases |w.pending|
  {
    if w.pending == [] then w else DigestAll(threshold, DigestOne(threshold, w))
  }

  /** A whole tick with nothing pending before it and no container stopped during it. */
  function Tick(threshold: int, names: seq<string>, w: World, now: int): World {
    DigestAll(threshold, w.(pending := Probes(names, w.up, now)))
  }

  /** A tick is one sample and one digest per target. */
  function TickMoves(targets: nat, now: int): seq<Move> {
    [Sample(now)] + seq(targets, _ => Digest)
  }

  lemma {:induction false} PlayDigests(threshold: int, names: seq<string>, w: World, n: nat)
    requires n == |w.pending|
    ensures Play(threshold, names, w, seq(n, _ => Digest)) == DigestAll(threshold, w)
    decreases n
  {
    if n > 0 {
      var moves: seq<Move> := seq(n, _ => Digest);
      assert moves[1..] == seq(n - 1, _ => Digest);
      PlayDigests(threshold, names, DigestOne(threshold, w), n - 1);
    }
  }

  lemma PlayTick(threshold: int, names: seq<string>, w: World, now: int)
    requires w.pending == []
    ensures Play(threshold, names, w, TickMoves(|names|, now)) == Tick(threshold, names, w, now)
  {
    var moves := TickMoves(|names|, now);
    assert moves[1..] == seq(|names|, _ => Digest);
    PlayDigests(threshold, names, w.(pending := Probes(names, w.up, now)), |names|);
  }

  /** What a tick does to one service that it probes once. */
  ghost predicate Digested(threshold: int, before: World, after: World, name: string, ok: bool)
    requires name in before.table && name in after.table
  {
    var c := before.table[name].failures;
    var recovers := !ok && c + 1 >= threshold;
    && after.table[name].failures == (if ok || recovers then 0 else c + 1)
    && (name in after.up <==> name in before.up || recovers)
  }

  lemma {:induction false} DigestOthers(threshold: int, w: World, name: string)
    requires name in w.table
    requires forall i :: 0 <= i < |w.pending| ==> w.pending[i].name != name
    ensures var v := DigestAll(threshold, w);
            && v.pending == [] && v.table.Keys == w.table.Keys
            && v.table[name] == w.table[name] && (name in v.up <==> name in w.up)
    decreases |w.pending|
  {
    if w.pending != [] {
      DigestOthers(threshold, DigestOne(threshold, w), name);
    }
  }

  lemma {:induction false} DigestName(threshold: int, w: World, name: string, i: nat)
    requires name in w.table && i < |w.pending| && w.pending[i].name == name
    requires forall j :: 0 <= j < |w.pending| && j != i ==> w.pending[j].name != name
    ensures var v := DigestAll(threshold, w);
            && v.pending == [] && v.table.Keys == w.table.Keys
            && Digested(threshold, w, v, name, w.pending[i].probe.ok)
    decreases |w.pending|
  {
    if i == 0 {
      DigestOthers(threshold, DigestOne(threshold, w), name);
    } else {
      DigestName(threshold, DigestOne(threshold, w), name, i - 1);
    }
  }

  lemma TickName(threshold: int, names: seq<string>, w: World, now: int, name: string)
    requires Distinct(names) && name in names && name in w.table
    ensures var v := Tick(threshold, names, w, now);
            && v.pending == [] && v.table.Keys == w.table.Keys
            && Digested(threshold, w, v, name, name in w.up)
  {
    var i :| 0 <= i < |names| && names[i] == name;
    DigestName(threshold, w.(pending := Probes(names, w.up, now)), name, i);
  }

  // ---------- Many ticks ----------

  /** `m` ticks in a row, the clock reading given by `clock`. */
  function Ticks(threshold: int, names: seq<string>, w: World, clock: nat -> int, m: nat): World {
    if m == 0 then w else Tick(threshold, names, Ticks(threshold, names, w, clock, m - 1), clock(m))
  }

  /**
   How long a container stays down, exactly: one that is down with its counter at `c` is up
   after `m` undisturbed ticks if and only if m >= k - c. One that is up stays up.
   */
  lemma {:induction false} RecoveryTime(threshold: int, names: seq<string>, w: World, clock: nat -> int, m: nat,
                                        name: string)
    requires Distinct(names) && name in names && Sound(threshold, names, w) && w.pending == []
    ensures var v := Ticks(threshold, names, w, clock, m);
            var k, c := Needed(threshold), w.table[name].failures;
            && v.table.Keys == w.table.Keys
            && (name in v.up <==> name in w.up || m >= k - c)
            && v.table[name].failures == (if m == 0 then c else if name in w.up || m >= k - c then 0 else c + m)
            && (m > 0 ==> v.pending == [])
  {
    if m > 0 {
      RecoveryTime(threshold, names, w, clock, m - 1, name);
      TickName(threshold, names, Ticks(threshold, names, w, clock, m - 1), clock(m), name);
    }
  }

  /** The moves of `m` ticks with nothing in between. */
  function TicksMoves(targets: nat, clock: nat -> int, m: nat): seq<Move> {
    if m == 0 then [] else TicksMoves(targets, clock, m - 1) + TickMoves(targets, clock(m))
  }

  lemma {:induction false} PlayConcat(threshold: int, names: seq<string>, w: World, a: seq<Move>, b: seq<Move>)
    ensures Play(threshold, names, w, a + b) == Play(threshold, names, Play(threshold, names, w, a), b)
    decreases |a|
  {
    if a == [] {
      assert a + b == b;
    } else {
      assert (a + b)[1..] == a[1..] + b;
      PlayConcat(threshold, names, Step(threshold, names, w, a[0]), a[1..], b);
    }
  }

  lemma {:induction false} PlayTicks(threshold: int, names: seq<string>, w: World, clock: nat -> int, m: nat)
    requires w.pending == []
    ensures Play(threshold, names, w, TicksMoves(|names|, clock, m)) == Ticks(threshold, names, w, clock, m)
    ensures Ticks(threshold, names, w, clock, m).pending == []
  {
    if m > 0 {
      PlayTicks(threshold, names, w, clock, m - 1);
      PlayConcat(threshold, names, w, TicksMoves(|names|, clock, m - 1), TickMoves(|names|, clock(m)));
      PlayTick(threshold, names, Ticks(threshold, names, w, clock, m - 1), clock(m));
      DigestsAll(threshold, Ticks(threshold, names, w, clock, m - 1).(
                   pending := Probes(names, Ticks(threshold, names, w, clock, m - 1).up, clock(m))));
    }
  }

  /** Digesting one by one leaves nothing pending and the table the watcher's tick leaves. */
  lemma {:induction false} DigestsAll(threshold: int, w: World)
    ensures DigestAll(threshold, w).pending == []
    ensures DigestAll(threshold, w).table == HandleAll(threshold, w.table, w.pending)
    decreases |w.pending|
  {
    if w.pending != [] {
      var first, rest := w.pending[..1], w.pending[1..];
      DigestsAll(threshold, DigestOne(threshold, w));
      assert w.pending == first + rest;
      assert first[..0] == [];
      HandleAllConcat(threshold, w.table, first, rest);
    }
  }

  /**
   Bounded recovery: after any play of stops, samples and digests that leaves no result
   pending, k undisturbed ticks bring every target's container up, and it stays up.
   */
  lemma BoundedRecovery(threshold: int, names: seq<string>, up: set<string>, moves: seq<Move>,
                        clock: nat -> int, m: nat)
    requires Distinct(names) && m >= Needed(threshold)
    requires Play(threshold, names, World(NewTable(names), up, []), moves).pending == []
    ensures var calm := TicksMoves(|names|, clock, m);
            var v := Play(threshold, names, World(NewTable(names), up, []), moves + calm);
            forall name :: name in names ==> name in v.up
  {
    var w0 := World(NewTable(names), up, []);
    var w := Play(threshold, names, w0, moves);
    PlaySound(threshold, names, w0, moves);
    PlayConcat(threshold, names, w0, moves, TicksMoves(|names|, clock, m));
    PlayTicks(threshold, names, w, clock, m);
    forall name | name in names
      ensures name in Ticks(threshold, names, w, clock, m).up
    {
      RecoveryTime(threshold, names, w, clock, m, name);
    }
  }

  /**
   Stopping a container takes down that one and nothing else, at any moment of any play; the
   watcher's table and the results it has yet to digest stay as they are.
   */
  lemma StopTakesDown(threshold: int, names: seq<string>, w: World, moves: seq<Move>, name: string)
    ensures var before := Play(threshold, names, w, moves);
            var after := Play(threshold, names, w, moves + [StopContainer(name)]);
            && name !in after.up
            && (forall other :: other != name ==> (other in after.up <==> other in before.up))
            && after.table == before.table && after.pending == before.pending
  {
    PlayConcat(threshold, names, w, moves, [StopContainer(name)]);
    assert [StopContainer(name)][1..] == [];
  }

  /**
   How long a stopped container stays down, exactly: if it is stopped between two ticks, after
   any play, with its counter at `c`, it is up after `m` undisturbed ticks if and only if
   m >= k - c. One whose counter is 0 is up after k ticks and no sooner.
   */
  lemma StoppedIsBack(threshold: int, names: seq<string>, up: set<string>, moves: seq<Move>, name: string,
                      clock: nat -> int, m: nat)
    requires Distinct(names) && name in names
    requires Play(threshold, names, World(NewTable(names), up, []), moves).pending == []
    ensures var w0 := World(NewTable(names), up, []);
            var before := Play(threshold, names, w0, moves);
            var after := Play(threshold, names, w0, moves + [StopContainer(name)] + TicksMoves(|names|, clock, m));
            name in before.table && (name in after.up <==> m >= Needed(threshold) - before.table[name].failures)
  {
    var w0 := World(NewTable(names), up, []);
    var stopped := moves + [StopContainer(name)];
    var w := Play(threshold, names, w0, stopped);
    StopTakesDown(threshold, names, w0, moves, name);
    PlaySound(threshold, names, w0, stopped);
    PlayConcat(threshold, names, w0, stopped, TicksMoves(|names|, clock, m));
    PlayTicks(threshold, names, w, clock, m);
    RecoveryTime(threshold, names, w, clock, m, name);
  }
}
