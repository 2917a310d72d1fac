/**
 One call of `CheckAndAlert` is one of the interleavings: the run in which a goroutine takes
 all the steps of a round without being interrupted.
 */
module RoundRefinement {
  import opened Domain
  import opened AlertMachine
  import opened Alerters
  import opened Interleaving
  import M = Metrics
  import S = Scheduler

  /** The deliveries to the alerters from the `n`-th on, then rest. */
  function Deliveries(i: nat, outcomes: Outcomes, n: nat, count: nat): seq<Action>
    requires n <= count
    decreases count - n
  {
    if n == count then [Rest(i)] else [Deliver(i, outcomes(n))] + Deliveries(i, outcomes, n + 1, count)
  }

  /** All steps of a round of goroutine `i`. */
  function RoundActions(c: Interleaving.Setup, i: nat, decision: Option<AlertKind>, round: Round,
      outcomes: Outcomes): seq<Action> {
    [Observe(i, round), Judge(i)] + if decision.Some? then Deliveries(i, outcomes, 0, |c.routes|) else []
  }

  lemma StepFirst(c: Interleaving.Setup, w: World, a: Action, rest: seq<Action>)
    requires Enabled(c, w, a) && Legal(c, Apply(c, w, a), rest)
    ensures Legal(c, w, [a] + rest) && After(c, w, [a] + rest) == After(c, Apply(c, w, a), rest)
  {
    assert ([a] + rest)[1..] == rest;
  }

  lemma {:induction false} DeliveriesFanOut(c: Interleaving.Setup, w: World, i: nat, alert: Alert,
      outcomes: Outcomes, n: nat, l: M.Ledger)
    requires |w.loops| == |c.targets| && i < |w.loops| && n <= |c.routes|
    requires w.loops[i].phase == InFlight(alert, n)
    requires w.ledger == FanOut(l, c.routes[..n], alert, outcomes)
    ensures Legal(c, w, Deliveries(i, outcomes, n, |c.routes|))
    ensures After(c, w, Deliveries(i, outcomes, n, |c.routes|))
            == World(w.loops[i := w.loops[i].(phase := Resting)], w.log, FanOut(l, c.routes, alert, outcomes))
    decreases |c.routes| - n
  {
    hide FanOut, Alerters.Deliver;
    var run := Deliveries(i, outcomes, n, |c.routes|);
    var a := run[0];
    var v := Apply(c, w, a);
    assert w.log + [] == w.log;
    if n == |c.routes| {
      assert c.routes[..n] == c.routes;
      assert run[1..] == [];
    } else {
      FanOutOneMore(l, c.routes, alert, outcomes, n);
      DeliveriesFanOut(c, v, i, alert, outcomes, n + 1, l);
      assert run[1..] == Deliveries(i, outcomes, n + 1, |c.routes|);
      assert v.loops[i := v.loops[i].(phase := Resting)] == w.loops[i := w.loops[i].(phase := Resting)];
    }
  }

  lemma FanOutOneMore(l: M.Ledger, routes: seq<Route>, alert: Alert, outcomes: Outcomes, n: nat)
    requires n < |routes|
    ensures FanOut(l, routes[..n + 1], alert, outcomes)
            == Alerters.Deliver(FanOut(l, routes[..n], alert, outcomes), routes[n], alert, outcomes(n))
  {
    assert routes[..n + 1][..n] == routes[..n];
  }

  lemma FanOutNothing(l: M.Ledger, routes: seq<Route>, alert: Alert, outcomes: Outcomes)
    ensures FanOut(l, routes[..0], alert, outcomes) == l
  {
  }

  /**
   The effect of `CheckAndAlert` on state, alerts and metrics is that of an uninterrupted round
   of the interleaved system, so what holds of every interleaving holds of it.
   */
  lemma CheckAndAlertIsAnInterleaving(c: Interleaving.Setup, w: World, i: nat, round: Round,
      outcomes: Outcomes)
    requires |w.loops| == |c.targets| && i < |w.loops|
    requires w.loops[i].phase.Resting? && round.result.target == c.targets[i]
    ensures var p, loop := c.PolicyOf(i), w.loops[i];
            var decision := Decide(p, loop.state, round);
            var run := RoundActions(c, i, decision, round, outcomes);
            && Legal(c, w, run)
            && After(c, w, run) == World(
                 w.loops[i := Loop(Next(p, loop.state, round), Resting, loop.history + [round])],
                 w.log + S.AlertsOf(decision, round.result),
                 S.LedgerAfter(c.parse, c.routes, w.ledger, decision, round.result, outcomes))
  {
    hide FanOut, Decide, Next, M.AfterCheck, Legal, After;
    var p, loop := c.PolicyOf(i), w.loops[i];
    var decision := Decide(p, loop.state, round);
    var rest := if decision.Some? then Deliveries(i, outcomes, 0, |c.routes|) else [];
    var observed := Apply(c, w, Observe(i, round));
    assert w.log + [] == w.log;
    var judged := Apply(c, observed, Judge(i));
    var next := Loop(Next(p, loop.state, round), Resting, loop.history + [round]);
    assert judged.log == w.log + S.AlertsOf(decision, round.result);
    if decision.Some? {
      var alert := Alert(decision.value, round.result.target, round.result);
      FanOutNothing(judged.ledger, c.routes, alert, outcomes);
      DeliveriesFanOut(c, judged, i, alert, outcomes, 0, judged.ledger);
      assert judged.loops[i := judged.loops[i].(phase := Resting)] == w.loops[i := next];
    } else {
      NoStep(c, judged);
      assert judged.loops == w.loops[i := next];
    }
    StepFirst(c, observed, Judge(i), rest);
    StepFirst(c, w, Observe(i, round), [Judge(i)] + rest);
    assert RoundActions(c, i, decision, round, outcomes) == [Observe(i, round)] + ([Judge(i)] + rest);
  }

  lemma NoStep(c: Interleaving.Setup, w: World)
    ensures Legal(c, w, []) && After(c, w, []) == w
  {
  }
}
