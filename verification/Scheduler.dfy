/**
 The scheduler in its own form: one state object per target, updated in place by
 `CheckAndAlert`, and the timer loop around it. Both are proved against the alert machine.
 */
module Scheduler {
  import opened Domain
  import opened AlertMachine
  import opened Alerters
  import opened Cadence
  import Int64
  import M = Metrics

  class TargetState {
    var status: HealthStatus
    var lastAlertTime: Option<int>

    constructor ()
      ensures View() == INITIAL
    {
      status, lastAlertTime := Unknown, None;
    }

    function View(): State
      reads this
    {
      State(status, lastAlertTime)
    }
  }

  /** What the outside contributes to one pass of the loop: the check, the clock, the jitter draw, the network. */
  datatype Tick = Tick(result: CheckResult, startAt: int, sinceAt: int, stampAt: int, doneAt: int, draw: int, outcomes: Outcomes)

  function RoundOf(interval: int, t: Tick): Round {
    Round(t.result, t.startAt, t.sinceAt, t.stampAt, t.doneAt, NextDelay(interval, t.draw))
  }

  function Rounds(interval: int, script: seq<Tick>): (h: seq<Round>)
    ensures |h| == |script|
    ensures forall i :: 0 <= i < |h| ==> h[i] == RoundOf(interval, script[i])
  {
    seq(|script|, i requires 0 <= i < |script| => RoundOf(interval, script[i]))
  }

  /** The clock is monotone, draws are in range, and no check starts before the timer set after the previous one. */
  ghost predicate Permits(target: Target, script: seq<Tick>) {
    && (forall i :: 0 <= i < |script| ==>
          && script[i].result.target == target
          && script[i].startAt <= script[i].sinceAt <= script[i].stampAt <= script[i].doneAt
          && IsDraw(target.interval, script[i].draw))
    && (forall i :: 0 <= i < |script| - 1 ==>
          && script[i].doneAt <= script[i + 1].startAt
          && script[i].doneAt + NextDelay(target.interval, script[i].draw) <= script[i + 1].startAt)
  }

  /** The alerts a decision sends out: one or none. */
  function AlertsOf(decision: Option<AlertKind>, result: CheckResult): seq<Alert> {
    if decision.Some? then [Alert(decision.value, result.target, result)] else []
  }

  /** The ledger after one round decided `decision`. */
  function LedgerAfter(parse: UrlParser, routes: seq<Route>, l: M.Ledger, decision: Option<AlertKind>,
                       result: CheckResult, outcomes: Outcomes): M.Ledger
  {
    var observed := M.AfterCheck(parse, l, result);
    if decision.Some? then FanOut(observed, routes, Alert(decision.value, result.target, result), outcomes) else observed
  }

  /** Alerts attempted over a whole history, in order. */
  function AlertsOver(p: Policy, h: seq<Round>): seq<Alert> {
    if h == [] then []
    else
      var n: nat := |h| - 1;
      AlertsOver(p, h[..n]) + AlertsOf(Decide(p, StateAfter(p, h[..n]), h[n]), h[n].result)
  }

  function LedgerOver(parse: UrlParser, routes: seq<Route>, p: Policy, l: M.Ledger, script: seq<Tick>): M.Ledger {
    if script == [] then l
    else
      var n: nat := |script| - 1;
      var h := Rounds(p.interval, script);
      LedgerAfter(parse, routes, LedgerOver(parse, routes, p, l, script[..n]),
                  Decide(p, StateAfter(p, h[..n]), h[n]), script[n].result, script[n].outcomes)
  }

  /** One more round, in all three accounts. */
  lemma OverOneMore(parse: UrlParser, routes: seq<Route>, p: Policy, l: M.Ledger,
      script: seq<Tick>, i: nat)
    requires i < |script|
    ensures var h := Rounds(p.interval, script);
            var decision := Decide(p, StateAfter(p, h[..i]), h[i]);
            && StateAfter(p, h[..i + 1]) == Next(p, StateAfter(p, h[..i]), h[i])
            && AlertsOver(p, h[..i + 1]) == AlertsOver(p, h[..i]) + AlertsOf(decision, script[i].result)
            && LedgerOver(parse, routes, p, l, script[..i + 1])
               == LedgerAfter(parse, routes, LedgerOver(parse, routes, p, l, script[..i]), decision, script[i].result, script[i].outcomes)
  {
    hide LedgerAfter, AlertsOf, Next, Decide, NextDelay;
    var h := Rounds(p.interval, script);
    assert h[..i + 1][..i] == h[..i];
    assert script[..i + 1][..i] == script[..i];
    assert Rounds(p.interval, script[..i + 1]) == h[..i + 1];
  }

  function AfterRegisterTargets(parse: UrlParser, l: M.Ledger, targets: seq<Target>): M.Ledger {
    if targets == [] then l
    else M.AfterRegisterTarget(parse, AfterRegisterTargets(parse, l, targets[..|targets| - 1]), targets[|targets| - 1])
  }

  ghost predicate Watched(parse: UrlParser, targets: seq<Target>, labels: M.Labels) {
    exists i: nat :: i < |targets| && M.LabelsFor(parse, targets[i]) == labels
  }

  /**
   Every target's check counters exist at start-up, at zero if nothing was counted before, and
   registration creates none but theirs.
   */
  lemma {:induction false} TargetCountersAtStartUp(parse: UrlParser, l: M.Ledger, targets: seq<Target>, key: M.CheckKey)
    ensures var r := AfterRegisterTargets(parse, l, targets);
            && (key in r.checks <==> key in l.checks || Watched(parse, targets, key.0))
            && M.Value(r.checks, key) == M.Value(l.checks, key)
            && r == l.(checks := r.checks)
  {
    hide M.AfterRegisterTarget, M.LabelsFor, M.Value;
    if targets != [] {
      var n: nat := |targets| - 1;
      var t := targets[n];
      TargetCountersAtStartUp(parse, l, targets[..n], key);
      M.RegisterTargetCreatesExactly(parse, AfterRegisterTargets(parse, l, targets[..n]), t, key);
      if M.LabelsFor(parse, t) != key.0 && Watched(parse, targets, key.0) {
        var i: nat :| i < |targets| && M.LabelsFor(parse, targets[i]) == key.0;
        assert targets[..n][i] == targets[i];
      }
      if Watched(parse, targets[..n], key.0) {
        var i: nat :| i < |targets[..n]| && M.LabelsFor(parse, targets[..n][i]) == key.0;
        assert targets[i] == targets[..n][i];
      }
    }
  }

  class Scheduler {
    const alerter: CompositeAlerter
    const recorder: M.Metrics
    const targets: seq<Target>
    const reminderMultiplier: int
    ghost var log: seq<Alert>

    ghost predicate Valid()
      reads alerter
    {
      alerter.Valid() && alerter.recorder == recorder
    }

    constructor (alerter: CompositeAlerter, recorder: M.Metrics, targets: seq<Target>, reminderMultiplier: int)
      requires alerter.Valid() && alerter.recorder == recorder
      modifies recorder
      ensures Valid() && log == []
      ensures this.alerter == alerter && this.recorder == recorder
      ensures this.targets == targets && this.reminderMultiplier == reminderMultiplier
      ensures recorder.View() == AfterRegisterTargets(recorder.parse, old(recorder.View()), targets)
    {
      for i := 0 to |targets|
        invariant recorder.View() == AfterRegisterTargets(recorder.parse, old(recorder.View()), targets[..i])
      {
        assert targets[..i + 1][..i] == targets[..i];
        recorder.RegisterTarget(targets[i]);
      }
      assert targets[..|targets|] == targets;
      this.alerter, this.recorder, this.targets, this.reminderMultiplier := alerter, recorder, targets, reminderMultiplier;
      log := [];
    }

    function PolicyFor(target: Target): Policy { Policy(reminderMultiplier, target.interval) }

    predicate ReminderDue(state: TargetState, target: Target, now: int)
      reads state
    {
      reminderMultiplier > 0 && Since(now, state.lastAlertTime) >= PolicyFor(target).Threshold()
    }

    /** Fans the alert out and forgets the errors: delivery never decides what is attempted next. */
    method Send(alert: Alert, outcomes: Outcomes)
      requires Valid()
      modifies recorder, this`log
      ensures recorder.View() == FanOut(old(recorder.View()), alerter.Routes(), alert, outcomes)
      ensures log == old(log) + [alert]
    {
      log := log + [alert];
      var error := alerter.Send(alert, outcomes);
    }

    method CheckAndAlert(target: Target, state: TargetState, tick: Tick)
      requires Valid() && tick.result.target == target
      modifies state, recorder, this`log
      ensures var p, round := PolicyFor(target), RoundOf(target.interval, tick);
              var decision := Decide(p, old(state.View()), round);
              && state.View() == Next(p, old(state.View()), round)
              && log == old(log) + (if decision.Some? then [Alert(decision.value, target, tick.result)] else [])
              && recorder.View()
                 == LedgerAfter(recorder.parse, alerter.Routes(), old(recorder.View()), decision, tick.result, tick.outcomes)
    {
      hide FanOut, M.AfterCheck, NextDelay, CompositeAlerter.Routes, CompositeAlerter.Valid;
      var result := tick.result;
      recorder.ObserveCheck(result);
      var currentStatus := Unhealthy;
      if result.success {
        currentStatus := Healthy;
      }
      var previousStatus := state.status;
      state.status := currentStatus;
      if !result.success && previousStatus != Unhealthy {
        state.lastAlertTime := Some(tick.stampAt);
        Send(Alert(Failure, result.target, result), tick.outcomes);
      } else if !result.success && ReminderDue(state, target, tick.sinceAt) {
        state.lastAlertTime := Some(tick.stampAt);
        Send(Alert(Reminder, result.target, result), tick.outcomes);
      } else if !result.success {
      } else if previousStatus == Unhealthy {
        state.lastAlertTime := None;
        Send(Alert(Recovery, result.target, result), tick.outcomes);
      }
    }

    /**
     The loop of one target until its context is cancelled, which is where the script ends.
     It checks once at start-up whatever the context says.
     */
    method RunTargetLoop(target: Target, script: seq<Tick>)
      returns (final: TargetState, delays: seq<int>, ghost history: seq<Round>)
      requires Valid() && script != [] && Permits(target, script)
      modifies recorder, this`log
      ensures fresh(final)
      ensures history == Rounds(target.interval, script) && Clocked(history)
      ensures |delays| == |script| && forall i :: 0 <= i < |delays| ==>
                var t := script[i];
                history[i] == Round(t.result, t.startAt, t.sinceAt, t.stampAt, t.doneAt, delays[i])
      ensures target.interval > 0 && target.interval + target.interval / 10 <= Int64.TWO_63 ==>
                forall i :: 0 <= i < |delays| ==>
                  delays[i] == target.interval + if target.interval >= 10 then script[i].draw else 0
      ensures target.interval > 0 && target.interval + JitterSpread(target.interval) <= Int64.TWO_63 ==>
                Paced(target.interval, history)
      ensures final.View() == StateAfter(PolicyFor(target), history)
      ensures log == old(log) + AlertsOver(PolicyFor(target), history)
      ensures recorder.View() == LedgerOver(recorder.parse, alerter.Routes(), PolicyFor(target), old(recorder.View()), script)
    {
      hide StateAfter, AlertsOver, LedgerOver, LedgerAfter, Next, Decide, NextDelay, Clocked, Paced, CompositeAlerter.Routes;
      ghost var p := PolicyFor(target);
      ghost var parse, routes, l := recorder.parse, alerter.Routes(), recorder.View();
      history := Rounds(target.interval, script);
      final := new TargetState();
      StartOfRun(parse, routes, p, l);
      OverOneMore(parse, routes, p, l, script, 0);
      assert history[..0] == [] && script[..0] == [];
      CheckAndAlert(target, final, script[0]);
      delays := [NextDelay(target.interval, script[0].draw)];
      for i := 1 to |script|
        invariant Valid() && fresh(final)
        invariant |delays| == i && forall j :: 0 <= j < i ==> delays[j] == NextDelay(target.interval, script[j].draw)
        invariant alerter.Routes() == routes
        invariant final.View() == StateAfter(p, history[..i])
        invariant log == old(log) + AlertsOver(p, history[..i])
        invariant recorder.View() == LedgerOver(parse, routes, p, l, script[..i])
      {
        OverOneMore(parse, routes, p, l, script, i);
        CheckAndAlert(target, final, script[i]);
        delays := delays + [NextDelay(target.interval, script[i].draw)];
      }
      SleepsFollowDraws(target, script);
      assert history[..|script|] == history && script[..|script|] == script;
      RoundsAreTimed(target, script);
    }
  }

  lemma SleepsFollowDraws(target: Target, script: seq<Tick>)
    requires Permits(target, script)
    ensures target.interval > 0 && target.interval + target.interval / 10 <= Int64.TWO_63 ==>
              forall i :: 0 <= i < |script| ==>
                NextDelay(target.interval, script[i].draw)
                == target.interval + if target.interval >= 10 then script[i].draw else 0
  {
  }

  lemma StartOfRun(parse: UrlParser, routes: seq<Route>, p: Policy, l: M.Ledger)
    ensures StateAfter(p, []) == INITIAL && AlertsOver(p, []) == [] && LedgerOver(parse, routes, p, l, []) == l
  {
  }

  lemma RoundsAreTimed(target: Target, script: seq<Tick>)
    requires Permits(target, script)
    ensures Clocked(Rounds(target.interval, script))
    ensures target.interval > 0 && target.interval + JitterSpread(target.interval) <= Int64.TWO_63 ==>
              Paced(target.interval, Rounds(target.interval, script))
  {
    var h := Rounds(target.interval, script);
    if target.interval > 0 && target.interval + JitterSpread(target.interval) <= Int64.TWO_63 {
      if target.interval <= Int64.MAX {
        DelayInRangeExactly(target.interval);
      }
      forall i: nat | i < |h| ensures DelayInRange(target.interval, h[i].delay) {
        assert IsDraw(target.interval, script[i].draw);
      }
    }
  }
}
