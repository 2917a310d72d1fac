/**
 All target loops at once: one goroutine per target, sharing the alerters and the metrics,
 interleaved at every shared access. Each loop observes its check, judges it, delivers the
 alert to one alerter after the other, and rests.
 */
module Interleaving {
  import opened Domain
  import opened Counting
  import opened AlertMachine
  import opened Outages
  import opened Alerters
  import M = Metrics

  /** `delivered` counts the alerters the alert in flight has passed. */
  datatype Phase = Resting | Observed(round: Round) | InFlight(alert: Alert, delivered: nat)

  /** One goroutine. `history` holds the rounds it has judged so far. */
  datatype Loop = Loop(state: State, phase: Phase, history: seq<Round>)

  datatype World = World(loops: seq<Loop>, log: seq<Alert>, ledger: M.Ledger)

  datatype Action =
    | Observe(i: nat, round: Round)
    | Judge(i: nat)
    | Deliver(i: nat, outcome: Option<Error>)
    | Rest(i: nat)

  datatype Setup = Setup(parse: UrlParser, targets: seq<Target>, multiplier: int, routes: seq<Route>) {
    function PolicyOf(i: nat): Policy requires i < |targets| { Policy(multiplier, targets[i].interval) }

    function LabelsOf(i: nat): M.Labels requires i < |targets| { M.LabelsFor(parse, targets[i]) }

    function Init(): World {
      World(seq(|targets|, i => Loop(INITIAL, Resting, [])), [], M.EMPTY)
    }

    /** The same application watching target `i` only. */
    function Alone(i: nat): Setup requires i < |targets| { this.(targets := [targets[i]]) }
  }

  predicate Enabled(c: Setup, w: World, a: Action) {
    && a.i < |w.loops| == |c.targets|
    && var phase := w.loops[a.i].phase;
       match a
       case Observe(i, round) => phase.Resting? && round.result.target == c.targets[i]
       case Judge(_) => phase.Observed?
       case Deliver(_, _) => phase.InFlight? && phase.delivered < |c.routes|
       case Rest(_) => phase.InFlight? && phase.delivered == |c.routes|
  }

  function Attempt(p: Policy, loop: Loop): seq<Alert>
    requires loop.phase.Observed?
  {
    var r := loop.phase.round;
    match Decide(p, loop.state, r)
    case Some(kind) => [Alert(kind, r.result.target, r.result)]
    case None => []
  }

  /** What the action does to its own goroutine. */
  function Step(c: Setup, p: Policy, loop: Loop, a: Action): Loop {
    match a
    case Observe(_, round) => loop.(phase := Observed(round))
    case Judge(_) =>
      if !loop.phase.Observed? then loop
      else
        var alerts := Attempt(p, loop);
        Loop(Next(p, loop.state, loop.phase.round),
             if alerts == [] then Resting else InFlight(alerts[0], 0),
             loop.history + [loop.phase.round])
    case Deliver(_, _) =>
      if loop.phase.InFlight? then loop.(phase := InFlight(loop.phase.alert, loop.phase.delivered + 1)) else loop
    case Rest(_) => loop.(phase := Resting)
  }

  /** What it appends to the alert log. */
  function Logged(p: Policy, loop: Loop, a: Action): seq<Alert> {
    if a.Judge? && loop.phase.Observed? then Attempt(p, loop) else []
  }

  /** What it does to the metrics. */
  function Recorded(c: Setup, loop: Loop, a: Action, l: M.Ledger): M.Ledger {
    match a
    case Observe(_, round) => M.AfterCheck(c.parse, l, round.result)
    case Deliver(_, outcome) =>
      if loop.phase.InFlight? && loop.phase.delivered < |c.routes|
      then Alerters.Deliver(l, c.routes[loop.phase.delivered], loop.phase.alert, outcome) else l
    case _ => l
  }

  function Apply(c: Setup, w: World, a: Action): World
    requires Enabled(c, w, a)
  {
    var p, loop := c.PolicyOf(a.i), w.loops[a.i];
    World(w.loops[a.i := Step(c, p, loop, a)], w.log + Logged(p, loop, a), Recorded(c, loop, a, w.ledger))
  }

  predicate Legal(c: Setup, w: World, run: seq<Action>)
    decreases |run|
  {
    run == [] || (Enabled(c, w, run[0]) && Legal(c, Apply(c, w, run[0]), run[1..]))
  }

  function After(c: Setup, w: World, run: seq<Action>): World
    requires Legal(c, w, run)
    decreases |run|
  {
    if run == [] then w else After(c, Apply(c, w, run[0]), run[1..])
  }

  // ---------------------------------------------------------------------------
  // Non-interference.

  /** The alerts about the target called `name`. */
  function About(log: seq<Alert>, name: string): seq<Alert> {
    if log == [] then []
    else About(log[..|log| - 1], name) + if log[|log| - 1].target.name == name then [log[|log| - 1]] else []
  }

  lemma AboutOnAppend(log: seq<Alert>, more: seq<Alert>, name: string)
    requires |more| <= 1
    ensures About(log + more, name) == About(log, name) + if more != [] && more[0].target.name == name then more else []
  {
    if more == [] {
      assert log + more == log;
    } else {
      assert (log + more)[..|log|] == log;
    }
  }

  /** The actions of goroutine `i`, as those of the only goroutine of `Alone(i)`. */
  function Projected(run: seq<Action>, i: nat): seq<Action> {
    if run == [] then []
    else (if run[0].i == i then [run[0].(i := 0)] else []) + Projected(run[1..], i)
  }

  /** World `w` looks to goroutine `i` like world `v`, in which it is alone. */
  ghost predicate LooksLike(c: Setup, i: nat, w: World, v: World)
    requires i < |c.targets|
  {
    && |w.loops| == |c.targets|
    && v.loops == [w.loops[i]]
    && About(w.log, c.targets[i].name) == v.log
    && M.SeriesOf(w.ledger, c.LabelsOf(i)) == M.SeriesOf(v.ledger, c.LabelsOf(i))
  }

  /** Every goroutine works for its own target. */
  ghost predicate OwnTargets(c: Setup, w: World) {
    && |w.loops| == |c.targets|
    && forall i :: 0 <= i < |w.loops| ==>
         match w.loops[i].phase
         case Resting => true
         case Observed(round) => round.result.target == c.targets[i]
         case InFlight(alert, n) => alert.target == c.targets[i] && n <= |c.routes|
  }

  lemma StepKeepsOwnTargets(c: Setup, w: World, a: Action)
    requires OwnTargets(c, w) && Enabled(c, w, a)
    ensures OwnTargets(c, Apply(c, w, a))
  {
  }

  /** Deliveries touch no per-target series. */
  lemma DeliveryKeepsSeries(l: M.Ledger, r: Route, alert: Alert, outcome: Option<Error>,
      labels: M.Labels)
    ensures M.SeriesOf(Alerters.Deliver(l, r, alert, outcome), labels) == M.SeriesOf(l, labels)
  {
  }

  lemma ForeignStepIsInvisible(c: Setup, i: nat, w: World, v: World, a: Action)
    requires DistinctNames(c.targets) && i < |c.targets| && OwnTargets(c, w) && LooksLike(c, i, w, v)
    requires Enabled(c, w, a) && a.i != i
    ensures LooksLike(c, i, Apply(c, w, a), v)
  {
    hide M.SeriesOf, M.AfterCheck, Alerters.Deliver, Decide, Next, About;
    var p, loop := c.PolicyOf(a.i), w.loops[a.i];
    assert c.targets[a.i].name != c.targets[i].name;
    AboutOnAppend(w.log, Logged(p, loop, a), c.targets[i].name);
    match a
    case Observe(_, round) =>
      M.CheckMovesOwnSeriesOnly(c.parse, w.ledger, round.result, c.LabelsOf(i));
    case Deliver(_, outcome) =>
      DeliveryKeepsSeries(w.ledger, c.routes[loop.phase.delivered], loop.phase.alert, outcome, c.LabelsOf(i));
    case _ =>
  }

  lemma OwnStepLooksTheSame(c: Setup, i: nat, w: World, v: World, a: Action)
    requires DistinctNames(c.targets) && i < |c.targets| && OwnTargets(c, w) && LooksLike(c, i, w, v)
    requires Enabled(c, w, a) && a.i == i
    ensures Enabled(c.Alone(i), v, a.(i := 0))
    ensures LooksLike(c, i, Apply(c, w, a), Apply(c.Alone(i), v, a.(i := 0)))
  {
    hide M.SeriesOf, M.AfterCheck, Alerters.Deliver, Decide, Next, About;
    var p, loop := c.PolicyOf(i), w.loops[i];
    AboutOnAppend(w.log, Logged(p, loop, a), c.targets[i].name);
    match a
    case Observe(_, round) =>
      M.CheckMovesOwnSeries(c.parse, w.ledger, round.result);
      M.CheckMovesOwnSeries(c.parse, v.ledger, round.result);
    case Deliver(_, outcome) =>
      DeliveryKeepsSeries(w.ledger, c.routes[loop.phase.delivered], loop.phase.alert, outcome, c.LabelsOf(i));
      DeliveryKeepsSeries(v.ledger, c.routes[loop.phase.delivered], loop.phase.alert, outcome, c.LabelsOf(i));
    case _ =>
  }

  lemma {:induction false} ProjectionFrom(c: Setup, i: nat, w: World, v: World, run: seq<Action>)
    requires DistinctNames(c.targets) && i < |c.targets| && OwnTargets(c, w) && LooksLike(c, i, w, v)
    requires Legal(c, w, run)
    ensures Legal(c.Alone(i), v, Projected(run, i))
    ensures LooksLike(c, i, After(c, w, run), After(c.Alone(i), v, Projected(run, i)))
    decreases |run|
  {
    hide LooksLike, OwnTargets, Apply, Enabled;
    if run != [] {
      var a := run[0];
      StepKeepsOwnTargets(c, w, a);
      if a.i == i {
        OwnStepLooksTheSame(c, i, w, v, a);
        var b := a.(i := 0);
        ProjectionFrom(c, i, Apply(c, w, a), Apply(c.Alone(i), v, b), run[1..]);
        assert Projected(run, i) == [b] + Projected(run[1..], i);
      } else {
        ForeignStepIsInvisible(c, i, w, v, a);
        ProjectionFrom(c, i, Apply(c, w, a), v, run[1..]);
        assert Projected(run, i) == Projected(run[1..], i);
      }
    }
  }

  /**
   For every interleaving, what concerns one target - its state, its alerts, its series - is
   what the same checks, clock readings and deliveries produce with that target alone.
   */
  lemma {:induction false} TargetsDoNotInterfere(c: Setup, run: seq<Action>, i: nat)
    requires DistinctNames(c.targets) && i < |c.targets| && Legal(c, c.Init(), run)
    ensures Legal(c.Alone(i), c.Alone(i).Init(), Projected(run, i))
    ensures var w, v := After(c, c.Init(), run), After(c.Alone(i), c.Alone(i).Init(), Projected(run, i));
            && |w.loops| == |c.targets|
            && v.loops == [w.loops[i]]
            && About(w.log, c.targets[i].name) == v.log
            && M.SeriesOf(w.ledger, c.LabelsOf(i)) == M.SeriesOf(v.ledger, c.LabelsOf(i))
  {
    assert c.Alone(i).Init().loops == [c.Init().loops[i]];
    ProjectionFrom(c, i, c.Init(), c.Alone(i).Init(), run);
  }

  /** Actions of the other goroutines leave a target's state and series as they are. */
  lemma ForeignActionsChangeNothing(c: Setup, w: World, a: Action, i: nat)
    requires DistinctNames(c.targets) && i < |c.targets| && OwnTargets(c, w) && Enabled(c, w, a) && a.i != i
    ensures Apply(c, w, a).loops[i] == w.loops[i]
    ensures M.SeriesOf(Apply(c, w, a).ledger, c.LabelsOf(i)) == M.SeriesOf(w.ledger, c.LabelsOf(i))
    ensures About(Apply(c, w, a).log, c.targets[i].name) == About(w.log, c.targets[i].name)
  {
    ForeignStepIsInvisible(c, i, w, World([w.loops[i]], About(w.log, c.targets[i].name), w.ledger), a);
  }

  // ---------------------------------------------------------------------------
  // Every target follows its alert machine, and the metrics agree with it.

  function Kinds(alerts: seq<Alert>): seq<AlertKind> {
    seq(|alerts|, i requires 0 <= i < |alerts| => alerts[i].kind)
  }

  function Results(h: seq<Round>): seq<CheckResult> {
    seq(|h|, i requires 0 <= i < |h| => h[i].result)
  }

  /** The results the metrics have seen: a check is recorded before it is judged. */
  function Recordings(loop: Loop): seq<CheckResult> {
    Results(loop.history) + if loop.phase.Observed? then [loop.phase.round.result] else []
  }

  /** State, alerts and series of one target, all accounted for by the rounds it went through. */
  ghost predicate Follows(p: Policy, loop: Loop, alerts: seq<Alert>, series: M.Series) {
    && loop.state == StateAfter(p, loop.history)
    && Kinds(alerts) == Attempted(Log(p, loop.history))
    && M.Reports(series, Recordings(loop))
  }

  lemma JudgingFollows(p: Policy, loop: Loop, alerts: seq<Alert>, series: M.Series, next: Loop)
    requires Follows(p, loop, alerts, series) && loop.phase.Observed?
    requires next.state == Next(p, loop.state, loop.phase.round)
    requires next.history == loop.history + [loop.phase.round] && !next.phase.Observed?
    ensures Follows(p, next, alerts + Attempt(p, loop), series)
  {
    hide Decide, Next, M.Reports;
    var h, round := loop.history, loop.phase.round;
    assert next.history[..|h|] == h;
    assert Recordings(next) == Recordings(loop);
    var decision := Decide(p, loop.state, round);
    assert Log(p, next.history) == Log(p, h) + [decision];
    assert Log(p, next.history)[..|h|] == Log(p, h);
    assert Kinds(alerts + Attempt(p, loop)) == Kinds(alerts) + Kinds(Attempt(p, loop));
    assert Kinds(Attempt(p, loop)) == if decision.Some? then [decision.value] else [];
  }

  lemma ObservingFollows(c: Setup, p: Policy, loop: Loop, alerts: seq<Alert>, l: M.Ledger,
      round: Round, labels: M.Labels)
    requires labels == M.LabelsFor(c.parse, round.result.target) && loop.phase.Resting?
    requires Follows(p, loop, alerts, M.SeriesOf(l, labels))
    ensures Follows(p, loop.(phase := Observed(round)), alerts, M.SeriesOf(M.AfterCheck(c.parse, l, round.result), labels))
  {
    hide M.SeriesOf, M.AfterCheck, M.Reports, M.LabelsFor;
    M.ReportsAfterOwnCheck(c.parse, l, Recordings(loop), round.result);
    assert Recordings(loop) == Results(loop.history);
  }

  /** The single goroutine of a world with one target. */
  ghost predicate SoloFollows(c: Setup, v: World)
    requires |c.targets| == 1
  {
    && OwnTargets(c, v)
    && Follows(c.PolicyOf(0), v.loops[0], v.log, M.SeriesOf(v.ledger, c.LabelsOf(0)))
  }

  lemma SoloStepFollows(c: Setup, v: World, a: Action)
    requires |c.targets| == 1 && SoloFollows(c, v) && Enabled(c, v, a)
    ensures SoloFollows(c, Apply(c, v, a))
  {
    hide M.SeriesOf, M.AfterCheck, M.Reports, Alerters.Deliver, Decide, Next, M.LabelsFor, Log, Attempted, StateAfter;
    StepKeepsOwnTargets(c, v, a);
    var p, loop := c.PolicyOf(0), v.loops[0];
    match a
    case Observe(_, round) =>
      ObservingFollows(c, p, loop, v.log, v.ledger, round, c.LabelsOf(0));
    case Judge(_) =>
      JudgingFollows(p, loop, v.log, M.SeriesOf(v.ledger, c.LabelsOf(0)), Step(c, p, loop, a));
    case Deliver(_, outcome) =>
      DeliveryKeepsSeries(v.ledger, c.routes[loop.phase.delivered], loop.phase.alert, outcome, c.LabelsOf(0));
      assert Recordings(Apply(c, v, a).loops[0]) == Recordings(loop);
    case Rest(_) =>
      assert Recordings(Apply(c, v, a).loops[0]) == Recordings(loop);
  }

  lemma {:induction false} SoloRunFollows(c: Setup, v: World, run: seq<Action>)
    requires |c.targets| == 1 && SoloFollows(c, v) && Legal(c, v, run)
    ensures SoloFollows(c, After(c, v, run))
    decreases |run|
  {
    hide SoloFollows, Apply, Enabled;
    if run != [] {
      SoloStepFollows(c, v, run[0]);
      SoloRunFollows(c, Apply(c, v, run[0]), run[1..]);
    }
  }

  lemma SoloInitFollows(c: Setup)
    requires |c.targets| == 1
    ensures SoloFollows(c, c.Init())
  {
    M.EmptyLedgerReportsNothing(c.LabelsOf(0));
    assert Recordings(c.Init().loops[0]) == [];
  }

  /** In every interleaving each target's state, alerts and series are those of its own rounds. */
  lemma EveryTargetFollowsItsMachine(c: Setup, run: seq<Action>, i: nat)
    requires DistinctNames(c.targets) && i < |c.targets| && Legal(c, c.Init(), run)
    ensures var w := After(c, c.Init(), run);
            && |w.loops| == |c.targets|
            && Follows(c.PolicyOf(i), w.loops[i], About(w.log, c.targets[i].name), M.SeriesOf(w.ledger, c.LabelsOf(i)))
  {
    hide Follows, M.SeriesOf, About;
    TargetsDoNotInterfere(c, run, i);
    SoloInitFollows(c.Alone(i));
    SoloRunFollows(c.Alone(i), c.Alone(i).Init(), Projected(run, i));
  }

  /** So the alerts about a target keep to the grammar, however the targets are interleaved. */
  lemma InterleavedAlertGrammar(c: Setup, run: seq<Action>, i: nat)
    requires DistinctNames(c.targets) && i < |c.targets| && Legal(c, c.Init(), run)
    ensures var w := After(c, c.Init(), run);
            && |w.loops| == |c.targets|
            && var kinds := Kinds(About(w.log, c.targets[i].name));
               if w.loops[i].state.status == Unhealthy then IsOpen(kinds) else IsClosed(kinds)
  {
    EveryTargetFollowsItsMachine(c, run, i);
    AlertGrammar(c.PolicyOf(i), After(c, c.Init(), run).loops[i].history);
  }

  /** An alert tells of one of the rounds `h`, and its kind fits how that check went. */
  ghost predicate Truthful(h: seq<Round>, alert: Alert) {
    && alert.target == alert.result.target
    && (alert.result.success <==> alert.kind == Recovery)
    && exists k: nat :: k < |h| && h[k].result == alert.result
  }

  lemma JudgedAlertIsTruthful(p: Policy, loop: Loop)
    requires loop.phase.Observed?
    ensures forall alert :: alert in Attempt(p, loop) ==> Truthful(loop.history + [loop.phase.round], alert)
  {
    assert (loop.history + [loop.phase.round])[|loop.history|].result == loop.phase.round.result;
  }

  lemma TruthLasts(h: seq<Round>, round: Round, alert: Alert)
    requires Truthful(h, alert)
    ensures Truthful(h + [round], alert)
  {
    var k: nat :| k < |h| && h[k].result == alert.result;
    assert (h + [round])[k].result == alert.result;
  }

  /** Every alert in the log is about the result of one of its own target's rounds. */
  ghost predicate AllTruthful(c: Setup, w: World) {
    && OwnTargets(c, w)
    && forall alert :: alert in w.log ==>
         exists i: nat :: i < |w.loops| && alert.target == c.targets[i] && Truthful(w.loops[i].history, alert)
  }

  lemma StepIsTruthful(c: Setup, w: World, a: Action)
    requires AllTruthful(c, w) && Enabled(c, w, a)
    ensures AllTruthful(c, Apply(c, w, a))
  {
    hide M.AfterCheck, Alerters.Deliver, Decide, Next, Truthful;
    var p, loop, v := c.PolicyOf(a.i), w.loops[a.i], Apply(c, w, a);
    StepKeepsOwnTargets(c, w, a);
    if a.Judge? {
      JudgedAlertIsTruthful(p, loop);
    }
    forall alert | alert in v.log
      ensures exists i: nat :: i < |v.loops| && alert.target == c.targets[i] && Truthful(v.loops[i].history, alert)
    {
      if alert in w.log {
        var i: nat :| i < |w.loops| && alert.target == c.targets[i] && Truthful(w.loops[i].history, alert);
        if a.Judge? && i == a.i {
          TruthLasts(w.loops[i].history, loop.phase.round, alert);
        }
        assert Truthful(v.loops[i].history, alert);
      } else {
        assert Truthful(v.loops[a.i].history, alert) && alert.target == c.targets[a.i];
      }
    }
  }

  lemma {:induction false} RunIsTruthful(c: Setup, w: World, run: seq<Action>)
    requires AllTruthful(c, w) && Legal(c, w, run)
    ensures AllTruthful(c, After(c, w, run))
    decreases |run|
  {
    if run != [] {
      StepIsTruthful(c, w, run[0]);
      RunIsTruthful(c, Apply(c, w, run[0]), run[1..]);
    }
  }

  /**
   In every interleaving, every alert in the log carries the result of a check its own target went
   through: a failed one for failures and reminders, a passed one for recoveries.
   */
  lemma AlertsTellWhatHappened(c: Setup, run: seq<Action>, alert: Alert)
    requires Legal(c, c.Init(), run) && alert in After(c, c.Init(), run).log
    ensures var w := After(c, c.Init(), run);
            && |w.loops| == |c.targets|
            && alert.target == alert.result.target
            && (alert.result.success <==> alert.kind == Recovery)
            && exists i: nat, k: nat ::
                 i < |w.loops| && k < |w.loops[i].history|
                 && alert.target == c.targets[i] && w.loops[i].history[k].result == alert.result
  {
    RunIsTruthful(c, c.Init(), run);
    var w := After(c, c.Init(), run);
    var i: nat :| i < |w.loops| && alert.target == c.targets[i] && Truthful(w.loops[i].history, alert);
    var k: nat :| k < |w.loops[i].history| && w.loops[i].history[k].result == alert.result;
  }

  lemma {:induction false} TalliesAddUp(rs: seq<CheckResult>)
    ensures M.Tally(rs, true) + M.Tally(rs, false) == |rs|
  {
    if rs != [] {
      TalliesAddUp(rs[..|rs| - 1]);
    }
  }

  /**
   Between its rounds a target that has been checked is shown as up exactly when its state is
   healthy, and its counters add up to the rounds run. Only between recording a check and
   judging it can the gauge be ahead of the state.
   */
  lemma MetricsAgreeWithStates(c: Setup, run: seq<Action>, i: nat)
    requires DistinctNames(c.targets) && i < |c.targets| && Legal(c, c.Init(), run)
    ensures var w := After(c, c.Init(), run);
            && |w.loops| == |c.targets|
            && var loop, series := w.loops[i], M.SeriesOf(w.ledger, c.LabelsOf(i));
            && series.passed + series.failed == |loop.history| + (if loop.phase.Observed? then 1 else 0)
            && (series.up.None? <==> loop.history == [] && !loop.phase.Observed?)
            && (!loop.phase.Observed? && loop.history != [] ==> (series.up == Some(1) <==> loop.state.status == Healthy))
            && (loop.phase.Observed? ==> (series.up == Some(1) <==> loop.phase.round.result.success))
            && M.IsLatestExpiry(Recordings(loop), series.certExpiry)
  {
    EveryTargetFollowsItsMachine(c, run, i);
    var loop := After(c, c.Init(), run).loops[i];
    StatusIsLatestCheck(c.PolicyOf(i), loop.history);
    TalliesAddUp(Recordings(loop));
  }

  // ---------------------------------------------------------------------------
  // Deliveries of all targets together.

  /** 1 if the loop still has to offer an alert of this kind to route `j`, which admits it. */
  function Pending(c: Setup, j: nat, kind: AlertKind, loop: Loop): nat
    requires j < |c.routes|
  {
    if && loop.phase.InFlight? && loop.phase.alert.kind == kind
       && loop.phase.delivered <= j && c.routes[j].Admits(loop.phase.alert)
    then 1 else 0
  }

  function AllPending(c: Setup, j: nat, kind: AlertKind, loops: seq<Loop>): nat
    requires j < |c.routes|
  {
    if loops == [] then 0 else Pending(c, j, kind, loops[0]) + AllPending(c, j, kind, loops[1..])
  }

  lemma {:induction false} PendingUpdate(c: Setup, j: nat, kind: AlertKind, loops: seq<Loop>, i: nat, loop: Loop)
    requires j < |c.routes| && i < |loops|
    ensures AllPending(c, j, kind, loops[i := loop]) + Pending(c, j, kind, loops[i])
            == AllPending(c, j, kind, loops) + Pending(c, j, kind, loop)
  {
    hide Pending;
    if i == 0 {
      assert loops[0 := loop][1..] == loops[1..];
    } else {
      PendingUpdate(c, j, kind, loops[1..], i - 1, loop);
      assert loops[i := loop][1..] == loops[1..][i - 1 := loop];
    }
  }

  /** The alerts of a kind in the log that route `r` admits. */
  function AdmittedIn(r: Route, log: seq<Alert>, kind: AlertKind): nat {
    CountOf(log, (a: Alert) => a.kind == kind && r.Admits(a))
  }

  /** Delivery attempts counted so far. */
  function Attempts(l: M.Ledger, r: Route, kind: AlertKind): nat {
    M.Value(l.sent, (r.channel.Name(), kind)) + M.Value(l.failed, (r.channel.Name(), kind))
  }

  ghost predicate Conserved(c: Setup, w: World, j: nat, kind: AlertKind)
    requires j < |c.routes|
  {
    Attempts(w.ledger, c.routes[j], kind) + AllPending(c, j, kind, w.loops) == AdmittedIn(c.routes[j], w.log, kind)
  }

  lemma CheckKeepsAttempts(c: Setup, l: M.Ledger, result: CheckResult, r: Route, kind: AlertKind)
    ensures Attempts(M.AfterCheck(c.parse, l, result), r, kind) == Attempts(l, r, kind)
  {
  }

  lemma DeliveryAttempts(c: Setup, l: M.Ledger, n: nat, alert: Alert, outcome: Option<Error>,
      j: nat, kind: AlertKind)
    requires DistinctChannels(c.routes) && n < |c.routes| && j < |c.routes|
    ensures Attempts(Alerters.Deliver(l, c.routes[n], alert, outcome), c.routes[j], kind)
            == Attempts(l, c.routes[j], kind) + if n == j && alert.kind == kind && c.routes[j].Admits(alert) then 1 else 0
  {
    hide M.Value, Channel.Name, Alerters.Deliver;
    DeliverCounts(l, c.routes[n], alert, outcome, (c.routes[j].channel.Name(), kind));
    NamesIdentifyChannels(c.routes[n].channel, c.routes[j].channel);
  }

  lemma AttemptedAlertIsPending(c: Setup, p: Policy, loop: Loop, log: seq<Alert>, next: Loop,
      j: nat, kind: AlertKind)
    requires j < |c.routes| && loop.phase.Observed?
    requires next.phase == if Attempt(p, loop) == [] then Resting else InFlight(Attempt(p, loop)[0], 0)
    ensures AdmittedIn(c.routes[j], log + Attempt(p, loop), kind) == AdmittedIn(c.routes[j], log, kind) + Pending(c, j, kind, next)
  {
    hide Decide, Route.Admits;
    var more := Attempt(p, loop);
    if more == [] {
      assert log + more == log;
    } else {
      Counting.CountOnAppend(log, more[0], (a: Alert) => a.kind == kind && c.routes[j].Admits(a));
      assert more == [more[0]];
    }
  }

  lemma StepConserves(c: Setup, w: World, a: Action, j: nat, kind: AlertKind)
    requires DistinctChannels(c.routes) && j < |c.routes|
    requires Enabled(c, w, a) && Conserved(c, w, j, kind)
    ensures Conserved(c, Apply(c, w, a), j, kind)
  {
    hide AdmittedIn, Attempts, M.AfterCheck, Alerters.Deliver, Decide, Next, Attempt, Route.Admits;
    var p, loop := c.PolicyOf(a.i), w.loops[a.i];
    var next := Step(c, p, loop, a);
    PendingUpdate(c, j, kind, w.loops, a.i, next);
    match a
    case Observe(_, round) =>
      CheckKeepsAttempts(c, w.ledger, round.result, c.routes[j], kind);
      assert w.log + [] == w.log;
    case Judge(_) =>
      AttemptedAlertIsPending(c, p, loop, w.log, next, j, kind);
    case Deliver(_, outcome) =>
      DeliveryAttempts(c, w.ledger, loop.phase.delivered, loop.phase.alert, outcome, j, kind);
      assert w.log + [] == w.log;
    case Rest(_) =>
      assert w.log + [] == w.log;
  }

  lemma {:induction false} RunConserves(c: Setup, w: World, run: seq<Action>, j: nat, kind: AlertKind)
    requires DistinctChannels(c.routes) && j < |c.routes|
    requires Conserved(c, w, j, kind) && Legal(c, w, run)
    ensures Conserved(c, After(c, w, run), j, kind)
    decreases |run|
  {
    hide Conserved, Apply, Enabled;
    if run != [] {
      StepConserves(c, w, run[0], j, kind);
      RunConserves(c, Apply(c, w, run[0]), run[1..], j, kind);
    }
  }

  lemma {:induction false} NothingPendingAtRest(c: Setup, j: nat, kind: AlertKind, loops: seq<Loop>)
    requires j < |c.routes| && forall i :: 0 <= i < |loops| ==> !loops[i].phase.InFlight?
    ensures AllPending(c, j, kind, loops) == 0
  {
    if loops != [] {
      NothingPendingAtRest(c, j, kind, loops[1..]);
    }
  }

  /**
   However the fan-outs of the targets overlap, an alerter has counted one delivery attempt
   for every alert its filter admits, except those still in flight towards it; with no alert
   in flight there is no exception.
   */
  lemma ConcurrentDeliveriesConserved(c: Setup, run: seq<Action>, j: nat, kind: AlertKind)
    requires DistinctChannels(c.routes) && j < |c.routes| && Legal(c, c.Init(), run)
    ensures var w := After(c, c.Init(), run);
            && Attempts(w.ledger, c.routes[j], kind) + AllPending(c, j, kind, w.loops) == AdmittedIn(c.routes[j], w.log, kind)
            && ((forall i :: 0 <= i < |w.loops| ==> !w.loops[i].phase.InFlight?) ==>
                Attempts(w.ledger, c.routes[j], kind) == AdmittedIn(c.routes[j], w.log, kind))
  {
    NothingPendingAtRest(c, j, kind, c.Init().loops);
    RunConserves(c, c.Init(), run, j, kind);
    var w := After(c, c.Init(), run);
    if forall i :: 0 <= i < |w.loops| ==> !w.loops[i].phase.InFlight? {
      NothingPendingAtRest(c, j, kind, w.loops);
    }
  }
}
