/**
 The two places where the application wires the layers together: building the alerters from
 the configuration, and the one-shot run with its exit code.
 */
module App {
  import opened Domain
  import opened Alerters
  import opened CheckAll
  import opened Checker
  import opened Config
  import M = Metrics

  // ---------------------------------------------------------------------------
  // Building the alerters.

  predicate Supported(a: AlerterConfig) { a.kind == "telegram" || a.kind == "mattermost" }

  function ChannelFor(name: string, a: AlerterConfig): Channel {
    if a.kind == "telegram" then Telegram(name) else Mattermost(name)
  }

  function RouteFor(name: string, a: AlerterConfig): Route {
    Route(ChannelFor(name, a), (set c | c in a.companies), a.companies == [])
  }

  /**
   What the configuration of an alerter comes to: a channel named after its type and its key, and a
   filter that lets through the alerts of the listed companies, or all of them if none is listed.
   */
  lemma RouteFollowsConfiguration(name: string, a: AlerterConfig, alert: Alert)
    requires a.kind == "telegram" || a.kind == "mattermost"
    ensures RouteFor(name, a).channel.Name() == a.kind + ":" + name
    ensures RouteFor(name, a).channel == if a.kind == "telegram" then Telegram(name) else Mattermost(name)
    ensures RouteFor(name, a).Admits(alert) <==> a.companies == [] || alert.target.company in a.companies
  {
    assert "telegram:" == "telegram" + ":" && "mattermost:" == "mattermost" + ":";
  }

  /** The ledger after registering alerters under these names. */
  function AfterRegisterAlerters(l: M.Ledger, names: seq<string>): M.Ledger {
    if names == [] then l
    else M.AfterRegisterKinds(AfterRegisterAlerters(l, names[..|names| - 1]), names[|names| - 1], M.KINDS)
  }

  /** The names of the enabled alerters, each once, in the order the map iteration happened to take. */
  ghost predicate IsOrderOf(order: seq<string>, alerters: map<string, AlerterConfig>) {
    && (forall name :: name in order <==> name in alerters && alerters[name].enabled)
    && (forall i, j :: 0 <= i < j < |order| ==> order[i] != order[j])
  }

  /** One alerter: registered under its configuration key, instrumented, and filtered outside of that. */
  method AddAlerter(built: CompositeAlerter, recorder: M.Metrics, name: string, a: AlerterConfig) returns (ok: bool)
    requires built.Valid() && built.recorder == recorder
    modifies built, recorder
    ensures built.Valid()
    ensures ok <==> a.kind == "telegram" || a.kind == "mattermost"
    ensures built.Routes() == old(built.Routes()) + if ok then [RouteFor(name, a)] else []
    ensures recorder.View() == if ok then M.AfterRegisterKinds(old(recorder.View()), name, M.KINDS) else old(recorder.View())
  {
    var inner: Channel;
    if a.kind == "telegram" {
      inner := Telegram(name);
    } else if a.kind == "mattermost" {
      inner := Mattermost(name);
    } else {
      return false;
    }
    recorder.RegisterAlerter(name);
    var instrumented := new Instrumented(inner, recorder);
    var filter := new CompanyFilter(instrumented, a.companies);
    built.Add(filter);
    assert filter.companies == set c | c in a.companies;
    ok := true;
  }

  /** The routes of these alerters, in this order. */
  function RoutesFor(order: seq<string>, alerters: map<string, AlerterConfig>): (routes: seq<Route>)
    requires forall name :: name in order ==> name in alerters
    ensures |routes| == |order|
    ensures forall i :: 0 <= i < |order| ==> routes[i] == RouteFor(order[i], alerters[order[i]])
  {
    seq(|order|, i requires 0 <= i < |order| => RouteFor(order[i], alerters[order[i]]))
  }

  /**
   One filter around one instrumented channel per enabled alerter. An unsupported type makes
   it fail; disabled alerters are not looked at.
   */
  method ProvideAlerter(alerters: map<string, AlerterConfig>, recorder: M.Metrics)
    returns (composite: CompositeAlerter?, ghost order: seq<string>)
    modifies recorder
    ensures composite != null <==>
            forall name :: name in alerters && alerters[name].enabled ==> alerters[name].kind in {"telegram", "mattermost"}
    ensures composite != null ==>
              && fresh(composite) && composite.Valid() && composite.recorder == recorder
              && IsOrderOf(order, alerters)
              && composite.Routes() == RoutesFor(order, alerters)
              && recorder.View() == AfterRegisterAlerters(old(recorder.View()), order)
  {
    hide CompositeAlerter.Routes, RouteFor, CompositeAlerter.Valid, M.AfterRegisterKinds;
    order := [];
    var built := new CompositeAlerter(recorder);
    var todo := alerters.Keys;
    while todo != {}
      invariant todo <= alerters.Keys
      invariant fresh(built) && built.Valid() && built.recorder == recorder
      invariant forall name :: name in order <==> name in alerters && alerters[name].enabled && name !in todo
      invariant forall i, j :: 0 <= i < j < |order| ==> order[i] != order[j]
      invariant forall name :: name in alerters && alerters[name].enabled && name !in todo ==> Supported(alerters[name])
      invariant built.Routes() == RoutesFor(order, alerters)
      invariant recorder.View() == AfterRegisterAlerters(old(recorder.View()), order)
      decreases todo
    {
      var name :| name in todo;
      todo := todo - {name};
      if alerters[name].enabled {
        var ok := AddAlerter(built, recorder, name, alerters[name]);
        if !ok {
          composite := null;
          return;
        }
        assert (order + [name])[..|order|] == order;
        assert RoutesFor(order + [name], alerters) == RoutesFor(order, alerters) + [RouteFor(name, alerters[name])];
        order := order + [name];
      }
    }
    composite := built;
  }

  /** Different alerters never share counters. */
  lemma RoutesAreDistinct(order: seq<string>, alerters: map<string, AlerterConfig>,
      routes: seq<Route>)
    requires IsOrderOf(order, alerters) && routes == RoutesFor(order, alerters)
    ensures DistinctChannels(routes)
  {
    forall i, j | 0 <= i < j < |routes| ensures routes[i].channel != routes[j].channel {
      assert order[i] != order[j];
    }
  }

  // ---------------------------------------------------------------------------
  // Which alert counters exist at start-up.

  /** Registration creates the counters of the configuration keys and no others. */
  lemma {:induction false} RegisteredSeriesExactly(names: seq<string>, key: M.AlertKey)
    ensures key in AfterRegisterAlerters(M.EMPTY, names).sent <==> key.0 in names
    ensures key in AfterRegisterAlerters(M.EMPTY, names).failed <==> key.0 in names
  {
    if names != [] {
      var n: nat := |names| - 1;
      RegisteredSeriesExactly(names[..n], key);
      M.RegisterKindsCreatesExactly(AfterRegisterAlerters(M.EMPTY, names[..n]), names[n], M.KINDS, key);
      assert names == names[..n] + [names[n]];
      assert key.1 in M.KINDS by { AllKinds(key.1); }
    }
  }

  lemma AllKinds(kind: AlertKind)
    ensures kind in M.KINDS
  {
    assert M.KINDS[0] == Failure && M.KINDS[1] == Reminder && M.KINDS[2] == Recovery;
  }

  lemma LongestName(names: seq<string>) returns (i: nat)
    requires names != []
    ensures i < |names| && forall j :: 0 <= j < |names| ==> |names[j]| <= |names[i]|
  {
    i := 0;
    for n := 1 to |names|
      invariant i < n <= |names|
      invariant forall j :: 0 <= j < n ==> |names[j]| <= |names[i]|
    {
      if |names[n]| > |names[i]| {
        i := n;
      }
    }
  }

  /** The counters the `i`-th alerter increments. */
  function KeyOf(order: seq<string>, alerters: map<string, AlerterConfig>, i: nat, kind: AlertKind): M.AlertKey
    requires IsOrderOf(order, alerters) && i < |order|
  {
    (ChannelFor(order[i], alerters[order[i]]).Name(), kind)
  }

  /** None of the `i`-th alerter's counters exists at start-up. */
  ghost predicate Unannounced(order: seq<string>, alerters: map<string, AlerterConfig>, i: nat)
    requires IsOrderOf(order, alerters) && i < |order|
  {
    forall kind ::
      && KeyOf(order, alerters, i, kind) !in AfterRegisterAlerters(M.EMPTY, order).failed
      && KeyOf(order, alerters, i, kind) !in AfterRegisterAlerters(M.EMPTY, order).sent
  }

  /**
   An alerter's counters exist at start-up exactly when its own name happens to be the
   configuration key of an enabled alerter; and whatever is configured, that is not so for
   some enabled alerter: a rule over its counters sees nothing until its first delivery.
   */
  lemma {:induction false} CountersAtStartUpExactly(order: seq<string>, alerters: map<string, AlerterConfig>)
    requires IsOrderOf(order, alerters)
    ensures forall i: nat, kind :: i < |order| ==>
              (KeyOf(order, alerters, i, kind) in AfterRegisterAlerters(M.EMPTY, order).failed
               <==> ChannelFor(order[i], alerters[order[i]]).Name() in order)
    ensures forall i: nat, kind :: i < |order| ==>
              (KeyOf(order, alerters, i, kind) in AfterRegisterAlerters(M.EMPTY, order).sent
               <==> ChannelFor(order[i], alerters[order[i]]).Name() in order)
    ensures order != [] ==> exists i: nat :: i < |order| && Unannounced(order, alerters, i)
  {
    forall i: nat, kind | i < |order|
      ensures var counted := ChannelFor(order[i], alerters[order[i]]).Name() in order;
              && (KeyOf(order, alerters, i, kind) in AfterRegisterAlerters(M.EMPTY, order).failed <==> counted)
              && (KeyOf(order, alerters, i, kind) in AfterRegisterAlerters(M.EMPTY, order).sent <==> counted)
    {
      RegisteredSeriesExactly(order, KeyOf(order, alerters, i, kind));
    }
    if order != [] {
      var i := LongestName(order);
      var name := ChannelFor(order[i], alerters[order[i]]).Name();
      assert |name| > |order[i]|;
      assert name !in order;
      assert Unannounced(order, alerters, i);
    }
  }

  // ---------------------------------------------------------------------------
  // The one-shot run.

  /** The alerts for the failed results, in order. */
  function FailureAlerts(results: seq<CheckResult>): seq<Alert> {
    if results == [] then []
    else
      var last := results[|results| - 1];
      FailureAlerts(results[..|results| - 1]) + if last.success then [] else [Alert(Failure, last.target, last)]
  }

  /** The same alerts with what the network made of them. */
  function Deliveries(results: seq<CheckResult>, network: nat -> Outcomes): seq<Alerters.Sending> {
    if results == [] then []
    else
      var n: nat := |results| - 1;
      Deliveries(results[..n], network)
      + if results[n].success then [] else [Alerters.Sending(Alert(Failure, results[n].target, results[n]), network(n))]
  }

  /** Each failed result is sent out once, in order, and meets the network's answer to that result. */
  lemma {:induction false} DeliveriesAreTheAlerts(results: seq<CheckResult>, network: nat -> Outcomes)
    ensures |Deliveries(results, network)| == |FailureAlerts(results)| == |FailedAt(results)|
    ensures forall k :: 0 <= k < |FailedAt(results)| ==>
              Deliveries(results, network)[k] == Alerters.Sending(FailureAlerts(results)[k], network(FailedAt(results)[k]))
  {
    if results != [] {
      DeliveriesAreTheAlerts(results[..|results| - 1], network);
    }
  }

  predicate AllPassed(results: seq<CheckResult>) {
    forall i :: 0 <= i < |results| ==> results[i].success
  }

  lemma SendOneMore(l: M.Ledger, routes: seq<Route>, sendings: seq<Alerters.Sending>,
      s: Alerters.Sending)
    ensures AfterSendings(l, routes, sendings + [s]) == FanOut(AfterSendings(l, routes, sendings), routes, s.alert, s.outcomes)
  {
    assert (sendings + [s])[..|sendings|] == sendings;
  }

  /** Reports every failed target and exits with 1 if there is one, whatever the alerters answer. */
  method RunOneshot(results: seq<CheckResult>, alerter: CompositeAlerter, recorder: M.Metrics, network: nat -> Outcomes)
    returns (exitCode: int, attempted: seq<Alert>)
    requires alerter.Valid() && alerter.recorder == recorder
    modifies recorder
    ensures exitCode == if AllPassed(results) then 0 else 1
    ensures attempted == FailureAlerts(results)
    ensures recorder.View() == AfterSendings(old(recorder.View()), alerter.Routes(), Deliveries(results, network))
  {
    hide FailureAlerts, Deliveries, AllPassed, AfterSendings, FanOut, ErrorsOf, CompositeAlerter.Routes, CompositeAlerter.Valid;
    ghost var l, routes := recorder.View(), alerter.Routes();
    attempted := [];
    var hasFailures := false;
    NothingReportedYet(l, routes, results, network);
    for i := 0 to |results|
      invariant alerter.Valid() && alerter.Routes() == routes
      invariant hasFailures <==> !AllPassed(results[..i])
      invariant attempted == FailureAlerts(results[..i])
      invariant recorder.View() == AfterSendings(l, routes, Deliveries(results[..i], network))
    {
      OneMoreResult(results, network, i);
      if !results[i].success {
        hasFailures := true;
        var alert := Alert(Failure, results[i].target, results[i]);
        SendOneMore(l, routes, Deliveries(results[..i], network), Alerters.Sending(alert, network(i)));
        attempted := attempted + [alert];
        var error := alerter.Send(alert, network(i));
      }
    }
    assert results[..|results|] == results;
    exitCode := if hasFailures then 1 else 0;
  }

  lemma NothingReportedYet(l: M.Ledger, routes: seq<Route>, results: seq<CheckResult>,
      network: nat -> Outcomes)
    ensures AllPassed(results[..0]) && FailureAlerts(results[..0]) == []
    ensures AfterSendings(l, routes, Deliveries(results[..0], network)) == l
  {
  }

  lemma OneMoreResult(results: seq<CheckResult>, network: nat -> Outcomes, i: nat)
    requires i < |results|
    ensures AllPassed(results[..i + 1]) <==> AllPassed(results[..i]) && results[i].success
    ensures FailureAlerts(results[..i + 1])
            == FailureAlerts(results[..i]) + if results[i].success then [] else [Alert(Failure, results[i].target, results[i])]
    ensures results[i].success ==> FailureAlerts(results[..i + 1]) == FailureAlerts(results[..i])
    ensures results[i].success ==> Deliveries(results[..i + 1], network) == Deliveries(results[..i], network)
    ensures !results[i].success ==>
              Deliveries(results[..i + 1], network)
              == Deliveries(results[..i], network) + [Alerters.Sending(Alert(Failure, results[i].target, results[i]), network(i))]
  {
    assert results[..i + 1] == results[..i] + [results[i]];
    assert results[..i + 1][..i] == results[..i];
  }

  /** The positions of the failed results. */
  function FailedAt(results: seq<CheckResult>): seq<nat> {
    if results == [] then []
    else FailedAt(results[..|results| - 1]) + if results[|results| - 1].success then [] else [|results| - 1]
  }

  /** `at` lists the positions of the failed results in order, and `alerts` has one failure alert for each. */
  ghost predicate OnePerFailure(results: seq<CheckResult>, at: seq<nat>, alerts: seq<Alert>) {
    && |alerts| == |at|
    && (forall k, m :: 0 <= k < m < |at| ==> at[k] < at[m])
    && (forall i: nat :: i in at <==> i < |results| && !results[i].success)
    && (forall k :: 0 <= k < |at| ==>
          at[k] < |results| && alerts[k] == Alert(Failure, results[at[k]].target, results[at[k]]))
  }

  lemma OnePerFailureOnAppend(results: seq<CheckResult>, r: CheckResult, at: seq<nat>,
      alerts: seq<Alert>)
    requires OnePerFailure(results, at, alerts)
    ensures r.success ==> OnePerFailure(results + [r], at, alerts)
    ensures !r.success ==> OnePerFailure(results + [r], at + [|results|], alerts + [Alert(Failure, r.target, r)])
  {
    var more := at + [|results|];
    assert forall i: nat :: i in more <==> i in at || i == |results|;
  }

  /** One failure alert per failed target and none else, in configuration order. */
  lemma {:induction false} OneAlertPerFailedTarget(results: seq<CheckResult>)
    ensures OnePerFailure(results, FailedAt(results), FailureAlerts(results))
  {
    if results == [] {
      assert FailedAt(results) == [];
    } else {
      hide OnePerFailure;
      var n: nat := |results| - 1;
      OneAlertPerFailedTarget(results[..n]);
      OnePerFailureOnAppend(results[..n], results[n], FailedAt(results[..n]), FailureAlerts(results[..n]));
      assert results == results[..n] + [results[n]];
    }
  }

  /**
   End to end without cancellation: whatever the interleaving of the checks and the answers of
   the alerters, the exit code and the alerts are those of checking the targets in order.
   */
  lemma OneshotIsDeterministic(c: CheckAll.Setup, run: seq<CheckAll.Action>)
    requires c.Valid() && Legal(c, c.Init(), run) && Cancel !in run && AllDone(After(c, c.Init(), run))
    ensures var s := After(c, c.Init(), run);
            && (forall i :: 0 <= i < |s.results| ==> s.results[i].Some?)
            && FailureAlerts(Collected(s)) == FailureAlerts(InOrder(c))
            && (AllPassed(Collected(s)) <==> forall i :: 0 <= i < |c.jobs| ==> c.jobs[i].Result().success)
  {
    ScheduleIndependence(c, run);
    assert forall i :: 0 <= i < |c.jobs| ==> InOrder(c)[i] == c.jobs[i].Result();
  }

  lemma CutShortPassIsGenuine(job: Job, r: CheckResult)
    requires job.maxAttempts >= 1 && job.env.Uncancelled() && CutShort(job, r) && r.success
    ensures r == job.Result()
  {
    hide Job.Result;
    var cut: Cut :| cut.Coherent() && r == cut.Of(job).Result();
    CancelledPassIsGenuine(cut.Of(job), job);
  }

  /**
   An exit code of 0 is never a by-product of cancellation: in every run, cancelled or not, it
   means every target passes its full check.
   */
  lemma ExitZeroMeansAllHealthy(c: CheckAll.Setup, run: seq<CheckAll.Action>)
    requires c.Valid() && Legal(c, c.Init(), run) && AllDone(After(c, c.Init(), run))
    ensures var s := After(c, c.Init(), run);
            && |s.results| == |c.jobs|
            && (forall i :: 0 <= i < |s.results| ==> s.results[i].Some?)
            && (AllPassed(Collected(s)) ==> forall i :: 0 <= i < |c.jobs| ==> c.jobs[i].Result().success)
  {
    var s := After(c, c.Init(), run);
    InitInv(c);
    RunPreservesInv(c, c.Init(), run);
    forall i: nat | i < |c.jobs|
      ensures s.results[i].Some? && (s.results[i].value.success ==> c.jobs[i].Result().success)
    {
      CancelledRunsFillEveryResult(c, run, i);
      var job, r := c.jobs[i], s.results[i].value;
      if r.success && r != job.Result() {
        CutShortPassIsGenuine(job, r);
      }
    }
    if AllPassed(Collected(s)) {
      forall i | 0 <= i < |c.jobs| ensures c.jobs[i].Result().success {
        assert Collected(s)[i].success;
      }
    }
  }

  /**
   When a one-shot run exits with 0: exactly when every full check passes and none was cut off. So
   a cancelled run over healthy targets fails exactly if one of its checks gave up the wait for a
   slot, found its context done before a probe or in a wait, or had a probe aborted.
   */
  lemma ExitZeroExactly(c: CheckAll.Setup, run: seq<CheckAll.Action>)
    requires c.Valid() && Legal(c, c.Init(), run) && AllDone(After(c, c.Init(), run))
    ensures var s := After(c, c.Init(), run);
            && |s.results| == |c.jobs|
            && (forall i :: 0 <= i < |s.results| ==> s.results[i].Some?)
            && (AllPassed(Collected(s))
                <==> forall i: nat :: i < |c.jobs| ==> c.jobs[i].Result().success && !CutOffIn(c, c.Init(), run, i))
  {
    hide Job.Result, CutOffIn;
    var s := After(c, c.Init(), run);
    InitInv(c);
    RunPreservesInv(c, c.Init(), run);
    forall i: nat | i < |c.jobs|
      ensures && s.results[i].Some?
              && (s.results[i].value.success <==> c.jobs[i].Result().success && !CutOffIn(c, c.Init(), run, i))
    {
      CutOffExactly(c, run, i);
    }
    forall i: nat | i < |c.jobs| ensures Collected(s)[i].success == s.results[i].value.success {
    }
    if AllPassed(Collected(s)) {
      forall i: nat | i < |c.jobs| ensures c.jobs[i].Result().success && !CutOffIn(c, c.Init(), run, i) {
        assert Collected(s)[i].success;
      }
    }
  }
}
