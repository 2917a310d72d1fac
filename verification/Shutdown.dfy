/**
 How the target loops stop: each waits in a select between its timer and the context, and where
 both are ready either may be taken. Whether a pass can follow the cancellation, and how many, is
 a matter of how fast the runtime gets round to a select that is ready.
 */
module Shutdown {
  import opened Domain
  import opened AlertMachine
  import opened Cadence
  import opened Checker
  import opened Detection

  /** The longest pass, the longest time from a select being ready to its being taken, the shortest delay of a timer. */
  datatype Pace = Pace(pass: int, reaction: int, least: int) {
    predicate Valid() { pass >= 0 && reaction >= 0 && least >= 1 }
  }

  /** One loop: in a pass begun at `since`, waiting since then for a timer that expires at `expiry`, or gone. */
  datatype Phase = Passing(since: int) | Waiting(since: int, expiry: int) | Returned

  datatype World = World(loops: seq<Phase>, now: int, cancelledAt: Option<int>)

  datatype Action =
    | Finish(i: nat, delay: int)
    | Fire(i: nat)
    | Stop(i: nat)
    | Elapse(until: int)
    | Cancel

  /** `Start` launches one loop per target, each with a first pass. */
  function Init(loops: nat, start: int): World {
    World(seq(loops, i => Passing(start)), start, None)
  }

  predicate OfLoop(a: Action, i: nat) { (a.Finish? || a.Fire? || a.Stop?) && a.i == i }

  function Min(a: int, b: int): int { if a < b then a else b }

  function Max(a: int, b: int): int { if a < b then b else a }

  /** When a select is ready: its timer has expired, or the context is done. */
  function Ready(w: World, p: Phase): int
    requires p.Waiting?
  {
    if w.cancelledAt.None? then p.expiry else Min(p.expiry, Max(w.cancelledAt.value, p.since))
  }

  /** When the next step of a loop is due. */
  function Due(c: Pace, w: World, p: Phase): int
    requires !p.Returned?
  {
    if p.Passing? then p.since + c.pass else Ready(w, p) + c.reaction
  }

  /** A select takes a case that is ready, and time does not pass a step that is due. */
  predicate Enabled(c: Pace, w: World, a: Action) {
    match a
    case Finish(i, delay) => i < |w.loops| && w.loops[i].Passing? && delay >= c.least
    case Fire(i) => i < |w.loops| && w.loops[i].Waiting? && w.loops[i].expiry <= w.now
    case Stop(i) => i < |w.loops| && w.loops[i].Waiting? && w.cancelledAt.Some?
    case Elapse(until) =>
      w.now <= until && forall i :: 0 <= i < |w.loops| && !w.loops[i].Returned? ==> until <= Due(c, w, w.loops[i])
    case Cancel => w.cancelledAt.None?
  }

  function Apply(c: Pace, w: World, a: Action): World
    requires Enabled(c, w, a)
  {
    match a
    case Finish(i, delay) => w.(loops := w.loops[i := Waiting(w.now, w.now + delay)])
    case Fire(i) => w.(loops := w.loops[i := Passing(w.now)])
    case Stop(i) => w.(loops := w.loops[i := Returned])
    case Elapse(until) => w.(now := until)
    case Cancel => w.(cancelledAt := Some(w.now))
  }

  predicate Legal(c: Pace, w: World, run: seq<Action>)
    decreases |run|
  {
    run == [] || (Enabled(c, w, run[0]) && Legal(c, Apply(c, w, run[0]), run[1..]))
  }

  function After(c: Pace, w: World, run: seq<Action>): World
    requires Legal(c, w, run)
    decreases |run|
  {
    if run == [] then w else After(c, Apply(c, w, run[0]), run[1..])
  }

  /** The passes loop `i` starts. */
  function Passes(run: seq<Action>, i: nat): nat {
    if run == [] then 0 else (if run[0] == Fire(i) then 1 else 0) + Passes(run[1..], i)
  }

  /** The steps loop `i` takes. */
  function Steps(run: seq<Action>, i: nat): nat {
    if run == [] then 0 else (if OfLoop(run[0], i) then 1 else 0) + Steps(run[1..], i)
  }

  // ---------------------------------------------------------------------------
  // What holds in every reachable world.

  predicate OnTime(c: Pace, w: World, p: Phase) {
    p.Returned? || (p.since <= w.now <= Due(c, w, p) && (p.Waiting? ==> p.expiry >= p.since + c.least))
  }

  predicate Inv(c: Pace, w: World) {
    && (w.cancelledAt.Some? ==> w.cancelledAt.value <= w.now)
    && forall i :: 0 <= i < |w.loops| ==> OnTime(c, w, w.loops[i])
  }

  lemma StepPreservesInv(c: Pace, w: World, a: Action)
    requires c.Valid() && Inv(c, w) && Enabled(c, w, a)
    ensures Inv(c, Apply(c, w, a))
  {
    var v := Apply(c, w, a);
    forall i | 0 <= i < |v.loops| ensures OnTime(c, v, v.loops[i]) {
      assert OnTime(c, w, w.loops[i]);
    }
  }

  lemma {:induction false} RunPreservesInv(c: Pace, w: World, run: seq<Action>)
    requires c.Valid() && Inv(c, w) && Legal(c, w, run)
    ensures Inv(c, After(c, w, run))
    decreases |run|
  {
    if run != [] {
      StepPreservesInv(c, w, run[0]);
      RunPreservesInv(c, Apply(c, w, run[0]), run[1..]);
    }
  }

  // ---------------------------------------------------------------------------
  // Passes after the cancellation.

  /** Loop `i` waits for a timer that expires before its select has to be taken. */
  predicate MayFire(c: Pace, w: World, i: nat) {
    i < |w.loops| && w.loops[i].Waiting? && w.loops[i].expiry <= Due(c, w, w.loops[i])
  }

  function StepsLeft(c: Pace, w: World, i: nat): nat {
    if i >= |w.loops| || w.loops[i].Returned? then 0
    else if MayFire(c, w, i) then 3
    else if w.loops[i].Passing? then 2
    else 1
  }

  /** With a runtime faster than the shortest delay, a timer set after the cancellation never fires. */
  lemma {:induction false} LoopsStopAfterCancel(c: Pace, w: World, run: seq<Action>, i: nat)
    requires c.Valid() && c.reaction < c.least && Inv(c, w) && w.cancelledAt.Some? && Legal(c, w, run)
    ensures Passes(run, i) <= if MayFire(c, w, i) then 1 else 0
    ensures Steps(run, i) <= StepsLeft(c, w, i)
    decreases |run|
  {
    if run != [] {
      var v := Apply(c, w, run[0]);
      StepPreservesInv(c, w, run[0]);
      LoopsStopAfterCancel(c, v, run[1..], i);
      if i < |w.loops| {
        assert OnTime(c, w, w.loops[i]) && OnTime(c, v, v.loops[i]);
      }
    }
  }

  /** `before` leads from the start to the cancellation and `after` goes on from there. */
  ghost predicate CancelledRun(c: Pace, loops: nat, start: int, before: seq<Action>, after: seq<Action>) {
    && Legal(c, Init(loops, start), before)
    && Enabled(c, After(c, Init(loops, start), before), Cancel)
    && Legal(c, Apply(c, After(c, Init(loops, start), before), Cancel), after)
  }

  lemma CancelledInv(c: Pace, loops: nat, start: int, before: seq<Action>, after: seq<Action>)
    requires c.Valid() && CancelledRun(c, loops, start, before, after)
    ensures Inv(c, After(c, Init(loops, start), before))
    ensures Inv(c, Apply(c, After(c, Init(loops, start), before), Cancel))
  {
    RunPreservesInv(c, Init(loops, start), before);
    StepPreservesInv(c, After(c, Init(loops, start), before), Cancel);
  }

  /** A loop that is as late as the next timer passes as often as it likes. */
  function LateRun(c: Pace, n: nat, now: int): seq<Action> {
    if n == 0 then [] else [Finish(0, c.least), Elapse(now + c.least), Fire(0)] + LateRun(c, n - 1, now + c.least)
  }

  lemma {:induction false} LateLoopsKeepPassing(c: Pace, at: int, n: nat, now: int)
    requires c.Valid() && c.reaction >= c.least && at <= now
    ensures Legal(c, World([Passing(now)], now, Some(at)), LateRun(c, n, now)) && Passes(LateRun(c, n, now), 0) == n
    decreases n
  {
    if n > 0 {
      var w, run := World([Passing(now)], now, Some(at)), LateRun(c, n, now);
      LateLoopsKeepPassing(c, at, n - 1, now + c.least);
      assert run[1..][1..][1..] == LateRun(c, n - 1, now + c.least);
      assert run[1..][0] == Elapse(now + c.least) && run[1..][1..][0] == Fire(0);
      var w1 := Apply(c, w, Finish(0, c.least));
      var w2 := Apply(c, w1, Elapse(now + c.least));
      assert Apply(c, w2, Fire(0)) == World([Passing(now + c.least)], now + c.least, Some(at));
      assert Legal(c, w2, run[1..][1..]);
      assert Legal(c, w1, run[1..]);
      assert Passes(run[1..], 0) == Passes(run[1..][1..], 0);
    }
  }

  /** In every run of every number of loops, at most one pass of each loop begins after the cancellation. */
  ghost predicate AtMostOneLatePass(c: Pace) {
    forall loops: nat, start: int, before: seq<Action>, after: seq<Action>, i: nat ::
      CancelledRun(c, loops, start, before, after) ==> Passes(after, i) <= 1
  }

  /**
   That is so exactly when the runtime gets round to a ready select in less time than the shortest
   delay of a timer. Nothing else limits the passes: otherwise some loop makes any number of them.
   */
  lemma OneLatePassExactly(c: Pace)
    requires c.Valid()
    ensures AtMostOneLatePass(c) <==> c.reaction < c.least
    ensures c.reaction >= c.least ==> forall n: nat ::
              CancelledRun(c, 1, 0, [], LateRun(c, n, 0)) && Passes(LateRun(c, n, 0), 0) == n
  {
    if c.reaction < c.least {
      forall loops: nat, start: int, before: seq<Action>, after: seq<Action>, i: nat
        | CancelledRun(c, loops, start, before, after)
        ensures Passes(after, i) <= 1
      {
        CancelledInv(c, loops, start, before, after);
        LoopsStopAfterCancel(c, Apply(c, After(c, Init(loops, start), before), Cancel), after, i);
      }
    } else {
      forall n: nat ensures CancelledRun(c, 1, 0, [], LateRun(c, n, 0)) && Passes(LateRun(c, n, 0), 0) == n {
        LateLoopsKeepPassing(c, 0, n, 0);
        assert Apply(c, Init(1, 0), Cancel) == World([Passing(0)], 0, Some(0));
      }
      var two: nat := 2;
      assert CancelledRun(c, 1, 0, [], LateRun(c, two, 0)) && Passes(LateRun(c, two, 0), 0) == 2;
    }
  }

  /** Once the loops before `n` are out of the way, loop `i` can be let fire. */
  lemma {:induction false} LetFire(c: Pace, w: World, i: nat, n: nat) returns (run: seq<Action>)
    requires c.Valid() && Inv(c, w) && w.cancelledAt.Some? && MayFire(c, w, i) && n <= |w.loops|
    requires forall j :: 0 <= j < n && j != i ==> w.loops[j].Returned?
    ensures Legal(c, w, run) && Passes(run, i) >= 1
    decreases |w.loops| - n, if n == |w.loops| || w.loops[n].Returned? then 0 else if w.loops[n].Waiting? then 1 else 2
  {
    if n == |w.loops| {
      var until := Max(w.now, w.loops[i].expiry);
      assert OnTime(c, w, w.loops[i]);
      var v := Apply(c, w, Elapse(until));
      run := [Elapse(until), Fire(i)];
      assert run[1..] == [Fire(i)] && run[1..][1..] == [];
      assert Legal(c, v, run[1..]);
      assert Passes(run[1..], i) == 1;
    } else if n == i || w.loops[n].Returned? {
      run := LetFire(c, w, i, n + 1);
    } else {
      var a := if w.loops[n].Passing? then Finish(n, c.least) else Stop(n);
      StepPreservesInv(c, w, a);
      var rest := LetFire(c, Apply(c, w, a), i, n);
      run := [a] + rest;
      assert run[1..] == rest;
    }
  }

  /** Which loops can begin a pass after the cancellation: exactly those whose timer may still fire. */
  lemma LatePassPossibleExactly(c: Pace, w: World, i: nat)
    requires c.Valid() && c.reaction < c.least && Inv(c, w) && w.cancelledAt.Some?
    ensures (exists run :: Legal(c, w, run) && Passes(run, i) >= 1) <==> MayFire(c, w, i)
  {
    if MayFire(c, w, i) {
      var run := LetFire(c, w, i, 0);
    } else {
      forall run | Legal(c, w, run) ensures Passes(run, i) == 0 {
        LoopsStopAfterCancel(c, w, run, i);
      }
    }
  }

  // ---------------------------------------------------------------------------
  // `Start` returns.

  lemma {:induction false} NoneReturnsUncancelled(c: Pace, w: World, run: seq<Action>)
    requires w.cancelledAt.None? && Legal(c, w, run) && Cancel !in run
    requires forall i :: 0 <= i < |w.loops| ==> !w.loops[i].Returned?
    ensures var v := After(c, w, run);
            && v.cancelledAt.None? && |v.loops| == |w.loops|
            && forall i :: 0 <= i < |v.loops| ==> !v.loops[i].Returned?
    decreases |run|
  {
    if run != [] {
      assert run[0] in run;
      NoneReturnsUncancelled(c, Apply(c, w, run[0]), run[1..]);
    }
  }

  /** And not before the cancellation: until then every target goes on being watched. */
  lemma NoLoopReturnsBeforeCancel(c: Pace, loops: nat, start: int, run: seq<Action>)
    requires Legal(c, Init(loops, start), run) && Cancel !in run
    ensures var w := After(c, Init(loops, start), run);
            |w.loops| == loops && forall i :: 0 <= i < loops ==> !w.loops[i].Returned?
  {
    NoneReturnsUncancelled(c, Init(loops, start), run);
  }

  predicate AllReturned(w: World) {
    forall i :: 0 <= i < |w.loops| ==> w.loops[i].Returned?
  }

  /** No pass begins later than a reaction after the cancellation, and no wait later than a pass after that. */
  predicate Winding(c: Pace, w: World) {
    && w.cancelledAt.Some?
    && forall i :: 0 <= i < |w.loops| && !w.loops[i].Returned? ==>
         w.loops[i].since <= w.cancelledAt.value + c.reaction + if w.loops[i].Waiting? then c.pass else 0
  }

  lemma {:induction false} RunWinds(c: Pace, w: World, run: seq<Action>)
    requires c.Valid() && c.reaction < c.least && Inv(c, w) && Winding(c, w) && Legal(c, w, run)
    ensures Winding(c, After(c, w, run)) && After(c, w, run).cancelledAt == w.cancelledAt
    decreases |run|
  {
    if run != [] {
      var a := run[0];
      var v := Apply(c, w, a);
      StepPreservesInv(c, w, a);
      if a.Finish? || a.Fire? {
        assert OnTime(c, w, w.loops[a.i]);
      }
      assert Winding(c, v);
      RunWinds(c, v, run[1..]);
    }
  }

  /**
   All loops are gone when a pass and two reactions have gone by since the cancellation; and until
   they are, one of them can step at once.
   */
  lemma StartReturnsInTime(c: Pace, loops: nat, start: int, before: seq<Action>, after: seq<Action>)
    requires c.Valid() && c.reaction < c.least && CancelledRun(c, loops, start, before, after)
    ensures var at := After(c, Init(loops, start), before).now;
            var w := After(c, Apply(c, After(c, Init(loops, start), before), Cancel), after);
            && (w.now > at + c.pass + 2 * c.reaction ==> AllReturned(w))
            && (!AllReturned(w) ==> exists i: nat, a: Action :: i < |w.loops| && OfLoop(a, i) && Enabled(c, w, a))
  {
    var v := Apply(c, After(c, Init(loops, start), before), Cancel);
    var w := After(c, v, after);
    CancelledInv(c, loops, start, before, after);
    forall i | 0 <= i < |v.loops| && !v.loops[i].Returned? ensures v.loops[i].since <= v.now {
      assert OnTime(c, v, v.loops[i]);
    }
    RunWinds(c, v, after);
    RunPreservesInv(c, v, after);
    if !AllReturned(w) {
      var i: nat :| i < |w.loops| && !w.loops[i].Returned?;
      assert OnTime(c, w, w.loops[i]);
      var a := if w.loops[i].Passing? then Finish(i, c.least) else Stop(i);
      assert OfLoop(a, i) && Enabled(c, w, a);
    }
  }

  // ---------------------------------------------------------------------------
  // Where the pace comes from, and what a late pass does.

  /** A pass is a check and a fan-out; a timer is set to an interval or more. */
  function PaceOf(b: Bounds, reaction: int): Pace
    requires b.retry.maxAttempts >= 1
  {
    Pace(b.CheckBound() + FANOUT_TIMEOUT, reaction, b.interval)
  }

  lemma RoundsKeepPace(b: Bounds, reaction: nat, h: seq<Round>, jobs: seq<Job>, i: nat)
    requires b.Valid() && RunsJobs(b, h, jobs) && KeepsBounds(b, h) && Paced(b.interval, h) && i < |h|
    ensures PaceOf(b, reaction).Valid()
    ensures h[i].doneAt - h[i].startAt <= PaceOf(b, reaction).pass && h[i].delay >= PaceOf(b, reaction).least
  {
    hide RunsJobs, Bounds.CheckBound;
    CheckIsBounded(b, h, jobs, i);
    CheckBoundIsPositive(b);
    assert DelayInRange(b.interval, h[i].delay);
  }

  lemma CheckBoundIsPositive(b: Bounds)
    requires b.Valid()
    ensures b.CheckBound() >= 0
  {
    assert b.retry.maxAttempts * b.timeout >= 0;
  }

  /**
   A pass begun after the cancellation starts no probe. Its result is a failure that says so, so it
   attempts one alert at most, never a recovery, and leaves the target unhealthy.
   */
  lemma LatePassProbesNothing(p: Policy, s: State, job: Job, round: Round)
    requires job.maxAttempts >= 1 && job.env.doneAtTop(1) && round.result == job.Result()
    ensures round.result == job.Blank().(error := Some(Cancelled), attempts := 1) && job.ProbesAt(1) == 0
    ensures Next(p, s, round).status == Unhealthy
    ensures Decide(p, s, round) in {None, Some(Failure), Some(Reminder)}
    ensures Decide(p, s, round) == Some(Failure) <==> s.status != Unhealthy
  {
    StopIsUnique(job, 1);
  }
}
