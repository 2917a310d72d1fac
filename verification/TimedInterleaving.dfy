/**
 The timed laws inside an interleaved run: every loop reads the clock and sets its own timer, and
 whatever the other loops do in between, its reminders and the report of its outages keep time.
 */
module TimedInterleaving {
  import opened Domain
  import opened AlertMachine
  import opened Outages
  import opened Cadence
  import opened Checker
  import opened Detection
  import opened Interleaving

  /** A check starts when the timer set after the rounds so far has run out. */
  ghost predicate TimerRanOut(h: seq<Round>, round: Round) {
    h != [] ==> h[|h| - 1].doneAt + h[|h| - 1].delay <= round.startAt
  }

  /** The readings a round brings along until it is judged. */
  ghost predicate ReadInOrder(interval: int, h: seq<Round>, round: Round) {
    && TimerRanOut(h, round)
    && round.startAt <= round.sinceAt <= round.stampAt
    && DelayInRange(interval, round.delay)
  }

  /** At instant `at` the step fits the clock readings and the timer of its own loop. */
  ghost predicate Timely(c: Interleaving.Setup, w: World, a: Action, at: int)
    requires Enabled(c, w, a)
  {
    var loop := w.loops[a.i];
    match a
    case Observe(i, round) =>
      ReadInOrder(c.targets[i].interval, loop.history, round) && round.startAt <= at <= round.sinceAt
    case Judge(_) => loop.phase.round.stampAt <= at <= loop.phase.round.doneAt
    case _ => loop.history != [] ==> at <= loop.history[|loop.history| - 1].doneAt
  }

  /** All steps are timely on one clock, which shows `now` at the beginning. */
  ghost predicate TimelyRun(c: Interleaving.Setup, w: World, run: seq<Action>, now: int, at: seq<int>)
    requires Legal(c, w, run)
    decreases |run|
  {
    && |at| == |run|
    && (run != [] ==>
          && now <= at[0] && Timely(c, w, run[0], at[0])
          && TimelyRun(c, Apply(c, w, run[0]), run[1..], at[0], at[1..]))
  }

  /** What a loop has been through is a run of the timer loop. */
  ghost predicate KeepsTime(interval: int, loop: Loop) {
    && Timed(interval, loop.history)
    && (loop.phase.Observed? ==> ReadInOrder(interval, loop.history, loop.phase.round))
  }

  ghost predicate AllKeepTime(c: Interleaving.Setup, w: World) {
    |w.loops| == |c.targets| && forall i :: 0 <= i < |w.loops| ==> KeepsTime(c.targets[i].interval, w.loops[i])
  }

  /** The rounds of target `i` in a run. */
  function HistoryOf(c: Interleaving.Setup, run: seq<Action>, i: nat): seq<Round>
    requires Legal(c, c.Init(), run)
  {
    var loops := After(c, c.Init(), run).loops;
    if i < |loops| then loops[i].history else []
  }

  lemma OneMoreTimedRound(interval: int, h: seq<Round>, round: Round)
    requires interval > 0 && Timed(interval, h) && ReadInOrder(interval, h, round) && round.stampAt <= round.doneAt
    ensures Timed(interval, h + [round])
  {
    var more := h + [round];
    forall i: nat | i + 1 < |more|
      ensures more[i].doneAt <= more[i + 1].startAt && more[i].doneAt + more[i].delay <= more[i + 1].startAt
    {
      if i + 1 < |h| {
        assert h[i].doneAt <= h[i + 1].startAt && h[i].doneAt + h[i].delay <= h[i + 1].startAt;
      } else {
        assert DelayInRange(interval, h[i].delay);
      }
    }
  }

  lemma StepKeepsTime(c: Interleaving.Setup, w: World, a: Action, at: int)
    requires forall i :: 0 <= i < |c.targets| ==> c.targets[i].interval > 0
    requires AllKeepTime(c, w) && Enabled(c, w, a) && Timely(c, w, a, at)
    ensures AllKeepTime(c, Apply(c, w, a))
  {
    hide Timed, ReadInOrder, Recorded, Logged, Attempt;
    var v, loop := Apply(c, w, a), w.loops[a.i];
    assert KeepsTime(c.targets[a.i].interval, loop);
    if a.Judge? {
      OneMoreTimedRound(c.targets[a.i].interval, loop.history, loop.phase.round);
    }
    forall i | 0 <= i < |v.loops| ensures KeepsTime(c.targets[i].interval, v.loops[i]) {
      assert KeepsTime(c.targets[i].interval, w.loops[i]);
    }
  }

  lemma {:induction false} RunKeepsTime(c: Interleaving.Setup, w: World, run: seq<Action>, now: int, at: seq<int>)
    requires forall i :: 0 <= i < |c.targets| ==> c.targets[i].interval > 0
    requires AllKeepTime(c, w) && Legal(c, w, run) && TimelyRun(c, w, run, now, at)
    ensures AllKeepTime(c, After(c, w, run))
    decreases |run|
  {
    if run != [] {
      hide AllKeepTime, Timely, Apply, Enabled;
      StepKeepsTime(c, w, run[0], at[0]);
      RunKeepsTime(c, Apply(c, w, run[0]), run[1..], at[0], at[1..]);
    }
  }

  /**
   In every timely interleaving each target's rounds are a run of the timer loop, and the alerts
   about it in the shared log are the ones the machine raises on that run. So any two alerts of one
   of its outages, the later a reminder, are a period apart.
   */
  lemma InterleavedReminders(c: Interleaving.Setup, run: seq<Action>, now: int, at: seq<int>, i: nat)
    requires DistinctNames(c.targets) && i < |c.targets|
    requires forall j :: 0 <= j < |c.targets| ==> c.targets[j].interval > 0
    requires Legal(c, c.Init(), run) && TimelyRun(c, c.Init(), run, now, at)
    ensures var w, h := After(c, c.Init(), run), HistoryOf(c, run, i);
            && |w.loops| == |c.targets|
            && Timed(c.targets[i].interval, h)
            && Kinds(About(w.log, c.targets[i].name)) == Attempted(Log(c.PolicyOf(i), h))
            && (c.PolicyOf(i).Sound() && c.multiplier > 0 ==> Spaced(c.PolicyOf(i), h))
  {
    hide Spaced, Log, Attempted, Legal, TimelyRun;
    RunKeepsTime(c, c.Init(), run, now, at);
    EveryTargetFollowsItsMachine(c, run, i);
    var h := HistoryOf(c, run, i);
    assert KeepsTime(c.targets[i].interval, After(c, c.Init(), run).loops[i]);
    if c.PolicyOf(i).Sound() && c.multiplier > 0 {
      SoundPoliciesSpaceReminders(c.PolicyOf(i), h);
    }
  }

  lemma {:induction false} AttemptedHolds(log: seq<Option<AlertKind>>, j: nat)
    requires j < |log| && log[j].Some?
    ensures log[j].value in Attempted(log)
  {
    if j < |log| - 1 {
      AttemptedHolds(log[..|log| - 1], j);
    }
  }

  /**
   And a target that breaks for good at time `t` has its failure in the shared log by two checks,
   one fan-out and one sleep after `t`, as if it were watched alone.
   */
  lemma InterleavedOutageIsReportedInTime(c: Interleaving.Setup, run: seq<Action>, now: int,
      at: seq<int>, i: nat, b: Bounds, jobs: seq<Job>, t: int, k: nat)
    requires DistinctNames(c.targets) && i < |c.targets|
    requires forall j :: 0 <= j < |c.targets| ==> c.targets[j].interval > 0
    requires Legal(c, c.Init(), run) && TimelyRun(c, c.Init(), run, now, at)
    requires b.Valid() && b.interval == c.targets[i].interval
    requires RunsJobs(b, HistoryOf(c, run, i), jobs) && KeepsBounds(b, HistoryOf(c, run, i))
    requires var h := HistoryOf(c, run, i);
             && k + 1 < |h| && h[k].startAt < t <= h[k + 1].startAt
             && forall m: nat :: m < |h| && t <= h[m].startAt ==> Fails(h, m)
    ensures var w, h := After(c, c.Init(), run), HistoryOf(c, run, i);
            && Failure in Kinds(About(w.log, c.targets[i].name))
            && exists j: nat ::
                 && j <= k + 1 && Log(c.PolicyOf(i), h)[j] == Some(Failure) && FailsThrough(h, j, k + 1)
                 && h[j].stampAt <= t + 2 * b.CheckBound() + FANOUT_TIMEOUT + b.SleepBound()
  {
    hide Log, Attempted, Legal, TimelyRun, RunsJobs, KeepsBounds, FailsThrough, Bounds.CheckBound, Bounds.SleepBound;
    var h := HistoryOf(c, run, i);
    InterleavedReminders(c, run, now, at, i);
    OutageIsReportedInTime(b, c.PolicyOf(i), h, jobs, t, k);
    var j: nat :| j <= k + 1 && Log(c.PolicyOf(i), h)[j] == Some(Failure) && FailsThrough(h, j, k + 1)
                  && h[j].stampAt <= t + 2 * b.CheckBound() + FANOUT_TIMEOUT + b.SleepBound();
    AttemptedHolds(Log(c.PolicyOf(i), h), j);
  }
}
