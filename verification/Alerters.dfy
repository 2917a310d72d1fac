/**
 Fan-out of one alert: a composite over company filters, each around an instrumented
 channel that reports its delivery attempts to the metrics.
 */
module Alerters {
  import opened Counting
  import opened Domain
  import M = Metrics

  /** A configured channel. Its `Send` is a network call: any outcome is possible. */
  datatype Channel = Telegram(instance: string) | Mattermost(instance: string) {
    function Name(): string {
      match this
      case Telegram(i) => "telegram:" + i
      case Mattermost(i) => "mattermost:" + i
    }
  }

  /** No two channels share a name, so none shares its counters. */
  lemma NamesIdentifyChannels(a: Channel, b: Channel)
    ensures a.Name() == b.Name() <==> a == b
  {
    if a.Name() == b.Name() {
      assert a.Name()[0] == b.Name()[0];
      match a
      case Telegram(i) =>
        assert b.Telegram?;
        assert a.Name()[|"telegram:"|..] == i && b.Name()[|"telegram:"|..] == b.instance;
      case Mattermost(i) =>
        assert b.Mattermost?;
        assert a.Name()[|"mattermost:"|..] == i && b.Name()[|"mattermost:"|..] == b.instance;
    }
  }

  /** A filter around an instrumented channel, as a value. */
  datatype Route = Route(channel: Channel, companies: set<string>, catchAll: bool) {
    predicate Admits(alert: Alert) { catchAll || alert.target.company in companies }
  }

  /** The network's answer to each alerter of one fan-out, by position. */
  type Outcomes = nat -> Option<Error>

  type SendErrors = seq<(string, Error)>

  function Deliver(l: M.Ledger, r: Route, alert: Alert, outcome: Option<Error>): M.Ledger {
    if r.Admits(alert) then M.AfterAlert(l, r.channel.Name(), alert.kind, outcome) else l
  }

  /** The ledger after an alert went through the first routes of the composite, in order. */
  function FanOut(l: M.Ledger, routes: seq<Route>, alert: Alert, outcomes: Outcomes): M.Ledger {
    if routes == [] then l
    else
      var n: nat := |routes| - 1;
      Deliver(FanOut(l, routes[..n], alert, outcomes), routes[n], alert, outcomes(n))
  }

  predicate FailsAt(r: Route, alert: Alert, outcome: Option<Error>) {
    r.Admits(alert) && outcome.Some?
  }

  function ErrorsOf(routes: seq<Route>, alert: Alert, outcomes: Outcomes): SendErrors {
    if routes == [] then []
    else
      var n: nat := |routes| - 1;
      ErrorsOf(routes[..n], alert, outcomes)
      + if FailsAt(routes[n], alert, outcomes(n)) then [(routes[n].channel.Name(), outcomes(n).value)] else []
  }

  /** The positions of the routes that let the alert through and could not deliver it. */
  function FailedRoutes(routes: seq<Route>, alert: Alert, outcomes: Outcomes): seq<nat> {
    if routes == [] then []
    else
      var n: nat := |routes| - 1;
      FailedRoutes(routes[..n], alert, outcomes) + if FailsAt(routes[n], alert, outcomes(n)) then [n] else []
  }

  /** `at` lists, in order, the failed routes of those that admit the alert, and `errors` names each with its error. */
  ghost predicate OnePerFailedRoute(routes: seq<Route>, alert: Alert, outcomes: Outcomes, at: seq<nat>, errors: SendErrors) {
    && |errors| == |at|
    && (forall k, m :: 0 <= k < m < |at| ==> at[k] < at[m])
    && (forall i: nat :: i in at <==>
          i < |routes| && (routes[i].catchAll || alert.target.company in routes[i].companies) && outcomes(i).Some?)
    && (forall k :: 0 <= k < |at| ==>
          at[k] < |routes| && outcomes(at[k]).Some?
          && errors[k] == (routes[at[k]].channel.Name(), outcomes(at[k]).value))
  }

  lemma OneMoreRoute(routes: seq<Route>, r: Route, alert: Alert, outcomes: Outcomes, at: seq<nat>, errors: SendErrors)
    requires OnePerFailedRoute(routes, alert, outcomes, at, errors)
    ensures var n := |routes|;
            if FailsAt(r, alert, outcomes(n))
            then OnePerFailedRoute(routes + [r], alert, outcomes, at + [n], errors + [(r.channel.Name(), outcomes(n).value)])
            else OnePerFailedRoute(routes + [r], alert, outcomes, at, errors)
  {
    hide Channel.Name;
    var n := |routes|;
    assert forall i: nat :: i in at + [n] <==> i in at || i == n;
  }

  /** The joined error names every alerter that failed, in order, with its own error, and no other. */
  lemma {:induction false} ErrorsNameTheFailures(routes: seq<Route>, alert: Alert, outcomes: Outcomes)
    ensures OnePerFailedRoute(routes, alert, outcomes, FailedRoutes(routes, alert, outcomes), ErrorsOf(routes, alert, outcomes))
  {
    if routes == [] {
      assert FailedRoutes(routes, alert, outcomes) == [];
    } else {
      hide Channel.Name, OnePerFailedRoute, FailsAt;
      var n: nat := |routes| - 1;
      ErrorsNameTheFailures(routes[..n], alert, outcomes);
      OneMoreRoute(routes[..n], routes[n], alert, outcomes, FailedRoutes(routes[..n], alert, outcomes),
                   ErrorsOf(routes[..n], alert, outcomes));
      assert routes == routes[..n] + [routes[n]];
    }
  }

  class Instrumented {
    const inner: Channel
    const observer: M.Metrics

    constructor (inner: Channel, observer: M.Metrics)
      ensures this.inner == inner && this.observer == observer
    {
      this.inner, this.observer := inner, observer;
    }

    function Name(): string { inner.Name() }

    method Send(alert: Alert, outcome: Option<Error>) returns (error: Option<Error>)
      modifies observer
      ensures error == outcome
      ensures observer.View() == M.AfterAlert(old(observer.View()), Name(), alert.kind, outcome)
    {
      error := outcome;
      observer.ObserveAlert(inner.Name(), alert, error);
    }
  }

  class CompanyFilter {
    const inner: Instrumented
    const companies: set<string>
    const catchAll: bool

    /** An empty list admits every company. */
    constructor (inner: Instrumented, companies: seq<string>)
      ensures this.inner == inner
      ensures this.catchAll <==> companies == []
      ensures forall c :: c in this.companies <==> c in companies
    {
      var members: set<string> := {};
      for i := 0 to |companies|
        invariant forall c :: c in members <==> c in companies[..i]
      {
        members := members + {companies[i]};
      }
      assert companies[..|companies|] == companies;
      this.inner := inner;
      this.companies := members;
      this.catchAll := |members| == 0;
      assert companies != [] ==> companies[0] in members;
    }

    function AsRoute(): Route { Route(inner.inner, companies, catchAll) }

    function Name(): string { inner.Name() }

    method Send(alert: Alert, outcome: Option<Error>) returns (error: Option<Error>)
      modifies inner.observer
      ensures error == if catchAll || alert.target.company in companies then outcome else None
      ensures inner.observer.View()
              == if catchAll || alert.target.company in companies
                 then M.AfterAlert(old(inner.observer.View()), inner.Name(), alert.kind, outcome)
                 else old(inner.observer.View())
      ensures inner.observer.View() == Deliver(old(inner.observer.View()), AsRoute(), alert, outcome)
    {
      if !catchAll {
        if alert.target.company !in companies {
          return None;
        }
      }
      error := inner.Send(alert, outcome);
    }
  }

  class CompositeAlerter {
    var alerters: seq<CompanyFilter>
    ghost const recorder: M.Metrics

    constructor (ghost recorder: M.Metrics)
      ensures Valid() && Routes() == [] && this.recorder == recorder
    {
      this.recorder := recorder;
      alerters := [];
    }

    /** All alerters report to the same metrics. */
    ghost predicate Valid()
      reads this
    {
      forall a :: a in alerters ==> a.inner.observer == recorder
    }

    function Routes(): (rs: seq<Route>)
      reads this
      ensures |rs| == |alerters|
    {
      seq(|alerters|, i requires 0 <= i < |alerters| reads this => alerters[i].AsRoute())
    }

    method Add(alerter: CompanyFilter)
      requires Valid() && alerter.inner.observer == recorder
      modifies this
      ensures Valid() && Routes() == old(Routes()) + [alerter.AsRoute()]
    {
      alerters := alerters + [alerter];
    }

    /** Tries every alerter, whatever the earlier ones answered, and joins their errors. */
    method Send(alert: Alert, outcomes: Outcomes) returns (error: Option<SendErrors>)
      requires Valid() && this as object != recorder
      modifies recorder
      ensures recorder.View() == FanOut(old(recorder.View()), Routes(), alert, outcomes)
      ensures error == (var errors := ErrorsOf(Routes(), alert, outcomes); if errors == [] then None else Some(errors))
    {
      hide Deliver, Channel.Name;
      var errors: SendErrors := [];
      for i := 0 to |alerters|
        invariant recorder.View() == FanOut(old(recorder.View()), Routes()[..i], alert, outcomes)
        invariant errors == ErrorsOf(Routes()[..i], alert, outcomes)
      {
        assert Routes()[..i + 1][..i] == Routes()[..i];
        assert alerters[i] in alerters;
        var e := alerters[i].Send(alert, outcomes(i));
        if e.Some? {
          errors := errors + [(alerters[i].Name(), e.value)];
        }
      }
      assert Routes()[..|alerters|] == Routes();
      error := if |errors| > 0 then Some(errors) else None;
    }
  }

  // ---------------------------------------------------------------------------
  // Conservation.

  ghost predicate DistinctChannels(routes: seq<Route>) {
    forall i, j :: 0 <= i < j < |routes| ==> routes[i].channel != routes[j].channel
  }

  /** One fan-out, in numbers: what it adds to the two counters of one route. */
  function SentBy(r: Route, alert: Alert, outcome: Option<Error>, kind: AlertKind): nat {
    if alert.kind == kind && r.Admits(alert) && outcome.None? then 1 else 0
  }

  function FailedBy(r: Route, alert: Alert, outcome: Option<Error>, kind: AlertKind): nat {
    if alert.kind == kind && FailsAt(r, alert, outcome) then 1 else 0
  }

  lemma DeliverCounts(l: M.Ledger, r: Route, alert: Alert, outcome: Option<Error>, key: M.AlertKey)
    ensures var d := Deliver(l, r, alert, outcome);
            if key.0 == r.channel.Name() then
              && M.Value(d.sent, key) == M.Value(l.sent, key) + SentBy(r, alert, outcome, key.1)
              && M.Value(d.failed, key) == M.Value(l.failed, key) + FailedBy(r, alert, outcome, key.1)
            else
              && M.Value(d.sent, key) == M.Value(l.sent, key)
              && M.Value(d.failed, key) == M.Value(l.failed, key)
  {
    hide Channel.Name, Route.Admits, M.Value, M.AfterAlert;
    M.AlertMovesOneCounter(l, r.channel.Name(), alert.kind, outcome, key);
  }

  lemma {:induction false} FanOutMissesOtherNames(l: M.Ledger, routes: seq<Route>, alert: Alert, outcomes: Outcomes,
      key: M.AlertKey)
    requires forall i :: 0 <= i < |routes| ==> routes[i].channel.Name() != key.0
    ensures var r := FanOut(l, routes, alert, outcomes);
            M.Value(r.sent, key) == M.Value(l.sent, key) && M.Value(r.failed, key) == M.Value(l.failed, key)
  {
    hide Deliver, M.Value, Channel.Name, SentBy, FailedBy;
    if routes != [] {
      var n: nat := |routes| - 1;
      FanOutMissesOtherNames(l, routes[..n], alert, outcomes, key);
      DeliverCounts(FanOut(l, routes[..n], alert, outcomes), routes[n], alert, outcomes(n), key);
    }
  }

  /** A fan-out adds one delivery attempt to each route that admits the alert, however the other routes fared. */
  lemma {:induction false} FanOutCounts(l: M.Ledger, routes: seq<Route>, alert: Alert, outcomes: Outcomes, i: nat,
      kind: AlertKind)
    requires DistinctChannels(routes) && i < |routes|
    ensures var r, key := FanOut(l, routes, alert, outcomes), (routes[i].channel.Name(), kind);
            && M.Value(r.sent, key) == M.Value(l.sent, key) + SentBy(routes[i], alert, outcomes(i), kind)
            && M.Value(r.failed, key) == M.Value(l.failed, key) + FailedBy(routes[i], alert, outcomes(i), kind)
  {
    hide Deliver, M.Value, Channel.Name, SentBy, FailedBy;
    var n: nat := |routes| - 1;
    var key := (routes[i].channel.Name(), kind);
    DeliverCounts(FanOut(l, routes[..n], alert, outcomes), routes[n], alert, outcomes(n), key);
    if i < n {
      FanOutCounts(l, routes[..n], alert, outcomes, i, kind);
      NamesIdentifyChannels(routes[i].channel, routes[n].channel);
    } else {
      forall j | 0 <= j < n ensures routes[..n][j].channel.Name() != key.0 {
        NamesIdentifyChannels(routes[j].channel, routes[i].channel);
      }
      FanOutMissesOtherNames(l, routes[..n], alert, outcomes, key);
    }
  }

  /** One call of `Send` on the composite. */
  datatype Sending = Sending(alert: Alert, outcomes: Outcomes)

  function AfterSendings(l: M.Ledger, routes: seq<Route>, sendings: seq<Sending>): M.Ledger {
    if sendings == [] then l
    else
      var last := sendings[|sendings| - 1];
      FanOut(AfterSendings(l, routes, sendings[..|sendings| - 1]), routes, last.alert, last.outcomes)
  }

  /** The alerts of a kind that route `r` lets through. */
  function Admitted(r: Route, sendings: seq<Sending>, kind: AlertKind): nat {
    CountOf(sendings, (s: Sending) => s.alert.kind == kind && r.Admits(s.alert))
  }

  /** Those of them whose delivery by alerter `i` failed. */
  function Undelivered(r: Route, i: nat, sendings: seq<Sending>, kind: AlertKind): nat {
    CountOf(sendings, (s: Sending) => s.alert.kind == kind && FailsAt(r, s.alert, s.outcomes(i)))
  }

  /**
   Over any sequence of alerts, an alerter's sent and failed counters for a kind together
   count exactly the alerts of that kind its filter admits, and its failed counter those of
   them it could not deliver.
   */
  lemma {:induction false} DeliveryConservation(l: M.Ledger, routes: seq<Route>, sendings: seq<Sending>, i: nat,
      kind: AlertKind)
    requires DistinctChannels(routes) && i < |routes|
    ensures var r, key := AfterSendings(l, routes, sendings), (routes[i].channel.Name(), kind);
            && M.Value(r.sent, key) + M.Value(r.failed, key)
               == M.Value(l.sent, key) + M.Value(l.failed, key) + Admitted(routes[i], sendings, kind)
            && M.Value(r.failed, key) == M.Value(l.failed, key) + Undelivered(routes[i], i, sendings, kind)
  {
    hide FanOut, M.Value, Channel.Name, Route.Admits;
    if sendings != [] {
      var before, last := sendings[..|sendings| - 1], sendings[|sendings| - 1];
      DeliveryConservation(l, routes, before, i, kind);
      FanOutCounts(AfterSendings(l, routes, before), routes, last.alert, last.outcomes, i, kind);
    }
  }

  /** The failed counters of the first `n` routes for a kind, added up. */
  function FailureTotal(l: M.Ledger, routes: seq<Route>, n: nat, kind: AlertKind): nat
    requires n <= |routes|
  {
    if n == 0 then 0
    else FailureTotal(l, routes, n - 1, kind) + M.Value(l.failed, (routes[n - 1].channel.Name(), kind))
  }

  /** A fan-out reports one error per failure it counts: none exactly when nothing failed. */
  lemma FanOutErrorsMatchFailures(l: M.Ledger, routes: seq<Route>, alert: Alert, outcomes: Outcomes)
    requires DistinctChannels(routes)
    ensures |ErrorsOf(routes, alert, outcomes)|
            == FailureTotal(FanOut(l, routes, alert, outcomes), routes, |routes|, alert.kind)
               - FailureTotal(l, routes, |routes|, alert.kind)
    ensures ErrorsOf(routes, alert, outcomes) == [] <==>
            forall i: nat :: i < |routes| && routes[i].Admits(alert) ==> outcomes(i).None?
  {
    ErrorsUpTo(l, routes, alert, outcomes, |routes|);
    assert routes[..|routes|] == routes;
    NoErrorsExactly(routes, alert, outcomes);
  }

  lemma {:induction false} ErrorsUpTo(l: M.Ledger, routes: seq<Route>, alert: Alert, outcomes: Outcomes, n: nat)
    requires DistinctChannels(routes) && n <= |routes|
    ensures |ErrorsOf(routes[..n], alert, outcomes)|
            == FailureTotal(FanOut(l, routes, alert, outcomes), routes, n, alert.kind)
               - FailureTotal(l, routes, n, alert.kind)
  {
    if n > 0 {
      ErrorsUpTo(l, routes, alert, outcomes, n - 1);
      FanOutCounts(l, routes, alert, outcomes, n - 1, alert.kind);
      assert routes[..n][..n - 1] == routes[..n - 1];
    }
  }

  lemma {:induction false} NoErrorsExactly(routes: seq<Route>, alert: Alert, outcomes: Outcomes)
    ensures ErrorsOf(routes, alert, outcomes) == [] <==>
            forall i: nat :: i < |routes| && routes[i].Admits(alert) ==> outcomes(i).None?
  {
    if routes != [] {
      var n: nat := |routes| - 1;
      NoErrorsExactly(routes[..n], alert, outcomes);
      forall i: nat | i < n ensures routes[..n][i] == routes[i] {}
    }
  }
}
