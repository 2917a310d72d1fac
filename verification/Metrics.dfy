/**
 The metrics ledger: gauges and counters keyed by their labels, the recorder that updates
 them in place, and what they say about the history that produced them.
 */
module Metrics {
  import opened Counting
  import opened Domain

  /** The labels of every per-target series. */
  datatype Labels = Labels(target: string, company: string, scheme: string)

  function LabelsFor(parse: UrlParser, t: Target): (labels: Labels)
    ensures labels.target == t.name && labels.company == t.company
    ensures if parse(t.url).Some? then labels.scheme == parse(t.url).value.scheme else labels.scheme == ""
  {
    var u := parse(t.url);
    Labels(t.name, t.company, if u.Some? then u.value.scheme else "")
  }

  /** Two targets share their series exactly when name, company and the scheme of their URLs agree. */
  lemma SharedLabelsExactly(parse: UrlParser, a: Target, b: Target)
    requires parse(a.url).Some? && parse(b.url).Some?
    ensures LabelsFor(parse, a) == LabelsFor(parse, b) <==>
            a.name == b.name && a.company == b.company && parse(a.url).value.scheme == parse(b.url).value.scheme
  {
  }

  type CheckKey = (Labels, bool)
  type AlertKey = (string, AlertKind)

  datatype Ledger = Ledger(
    up: map<Labels, int>,
    latency: map<Labels, int>,
    status: map<Labels, int>,
    attempts: map<Labels, int>,
    lastCheck: map<Labels, int>,
    certExpiry: map<Labels, int>,
    checks: map<CheckKey, nat>,
    sent: map<AlertKey, nat>,
    failed: map<AlertKey, nat>)

  const EMPTY := Ledger(map[], map[], map[], map[], map[], map[], map[], map[], map[])

  function Value<K>(m: map<K, nat>, k: K): nat { if k in m then m[k] else 0 }

  /** Naming a counter series creates it at zero. */
  function Touch<K>(m: map<K, nat>, k: K): map<K, nat> { m[k := Value(m, k)] }

  function Inc<K>(m: map<K, nat>, k: K): map<K, nat> { m[k := Value(m, k) + 1] }

  lemma TouchCreatesExactly<K>(m: map<K, nat>, k: K, key: K)
    ensures key in Touch(m, k) <==> key in m || key == k
    ensures Value(Touch(m, k), key) == Value(m, key)
  {
  }

  lemma IncValue<K>(m: map<K, nat>, k: K, key: K)
    ensures Value(Inc(m, k), key) == Value(m, key) + if key == k then 1 else 0
  {
  }

  function AfterRegisterTarget(parse: UrlParser, l: Ledger, t: Target): Ledger {
    var labels := LabelsFor(parse, t);
    l.(checks := Touch(Touch(l.checks, (labels, true)), (labels, false)))
  }

  const KINDS := [Failure, Reminder, Recovery]

  function AfterRegisterKinds(l: Ledger, name: string, kinds: seq<AlertKind>): Ledger {
    if kinds == [] then l
    else
      var before := AfterRegisterKinds(l, name, kinds[..|kinds| - 1]);
      var key := (name, kinds[|kinds| - 1]);
      before.(sent := Touch(before.sent, key), failed := Touch(before.failed, key))
  }

  function AfterCheck(parse: UrlParser, l: Ledger, r: CheckResult): Ledger {
    var labels := LabelsFor(parse, r.target);
    l.(up := l.up[labels := if r.success then 1 else 0],
       latency := l.latency[labels := r.latency],
       status := l.status[labels := r.actualStatus],
       attempts := l.attempts[labels := r.attempts],
       lastCheck := l.lastCheck[labels := r.timestamp],
       checks := Inc(l.checks, (labels, r.success)),
       certExpiry := if r.certNotAfter.Some? then l.certExpiry[labels := r.certNotAfter.value] else l.certExpiry)
  }

  function AfterAlert(l: Ledger, name: string, kind: AlertKind, error: Option<Error>): Ledger {
    if error.Some? then l.(failed := Inc(l.failed, (name, kind)))
    else l.(sent := Inc(l.sent, (name, kind)))
  }

  /** An observed delivery moves one counter of one alerter. */
  lemma AlertMovesOneCounter(l: Ledger, name: string, kind: AlertKind, error: Option<Error>,
      key: AlertKey)
    ensures var r := AfterAlert(l, name, kind, error);
            && Value(r.sent, key) == Value(l.sent, key) + (if key == (name, kind) && error.None? then 1 else 0)
            && Value(r.failed, key) == Value(l.failed, key) + (if key == (name, kind) && error.Some? then 1 else 0)
  {
    hide Value, Inc;
    IncValue(l.sent, (name, kind), key);
    IncValue(l.failed, (name, kind), key);
  }

  /** The Prometheus-backed recorder. */
  class Metrics {
    const parse: UrlParser
    var up: map<Labels, int>
    var latency: map<Labels, int>
    var status: map<Labels, int>
    var attempts: map<Labels, int>
    var lastCheck: map<Labels, int>
    var certExpiry: map<Labels, int>
    var checks: map<CheckKey, nat>
    var alerts: map<AlertKey, nat>
    var alertFailures: map<AlertKey, nat>

    function View(): Ledger
      reads this
    {
      Ledger(up, latency, status, attempts, lastCheck, certExpiry, checks, alerts, alertFailures)
    }

    constructor (parse: UrlParser)
      ensures View() == EMPTY && this.parse == parse
    {
      this.parse := parse;
      up, latency, status, attempts, lastCheck, certExpiry := map[], map[], map[], map[], map[], map[];
      checks, alerts, alertFailures := map[], map[], map[];
    }

    method RegisterTarget(target: Target)
      modifies this
      ensures View() == AfterRegisterTarget(parse, old(View()), target)
    {
      var labels := LabelsFor(parse, target);
      checks := Touch(checks, (labels, true));
      checks := Touch(checks, (labels, false));
    }

    method RegisterAlerter(name: string)
      modifies this
      ensures View() == AfterRegisterKinds(old(View()), name, KINDS)
    {
      for i := 0 to |KINDS|
        invariant View() == AfterRegisterKinds(old(View()), name, KINDS[..i])
      {
        assert KINDS[..i + 1][..i] == KINDS[..i];
        alerts := Touch(alerts, (name, KINDS[i]));
        alertFailures := Touch(alertFailures, (name, KINDS[i]));
      }
      assert KINDS[..|KINDS|] == KINDS;
    }

    method ObserveCheck(result: CheckResult)
      modifies this
      ensures View() == AfterCheck(parse, old(View()), result)
    {
      var labels := LabelsFor(parse, result.target);
      var value, outcome := 0, false;
      if result.success {
        value, outcome := 1, true;
      }
      up := up[labels := value];
      latency := latency[labels := result.latency];
      status := status[labels := result.actualStatus];
      attempts := attempts[labels := result.attempts];
      lastCheck := lastCheck[labels := result.timestamp];
      checks := Inc(checks, (labels, outcome));
      if result.certNotAfter.Some? {
        certExpiry := certExpiry[labels := result.certNotAfter.value];
      }
    }

    method ObserveAlert(alerter: string, alert: Alert, error: Option<Error>)
      modifies this
      ensures View() == AfterAlert(old(View()), alerter, alert.kind, error)
    {
      if error.Some? {
        alertFailures := Inc(alertFailures, (alerter, alert.kind));
        return;
      }
      alerts := Inc(alerts, (alerter, alert.kind));
    }
  }

  // ---------------------------------------------------------------------------
  // Which series exist.

  /** Registering a target creates its two check counters at zero and changes nothing else. */
  lemma RegisterTargetCreatesExactly(parse: UrlParser, l: Ledger, t: Target, key: CheckKey)
    ensures var r := AfterRegisterTarget(parse, l, t);
            && (key in r.checks <==> key in l.checks || key.0 == LabelsFor(parse, t))
            && Value(r.checks, key) == Value(l.checks, key)
            && r == l.(checks := r.checks)
  {
    hide LabelsFor, Touch, Value;
    var labels := LabelsFor(parse, t);
    TouchCreatesExactly(l.checks, (labels, true), key);
    TouchCreatesExactly(Touch(l.checks, (labels, true)), (labels, false), key);
    if key.1 { assert key == (key.0, true); } else { assert key == (key.0, false); }
  }

  /** Registering an alerter creates its six series at zero, keeps every count, and creates no series of another name. */
  lemma {:induction false} RegisterKindsCreatesExactly(l: Ledger, name: string, kinds: seq<AlertKind>, key: AlertKey)
    ensures var r := AfterRegisterKinds(l, name, kinds);
            && (key in r.sent <==> key in l.sent || (key.0 == name && key.1 in kinds))
            && (key in r.failed <==> key in l.failed || (key.0 == name && key.1 in kinds))
            && Value(r.sent, key) == Value(l.sent, key)
            && Value(r.failed, key) == Value(l.failed, key)
            && r == l.(sent := r.sent, failed := r.failed)
  {
    hide Touch, Value;
    if kinds != [] {
      var n: nat := |kinds| - 1;
      var before := AfterRegisterKinds(l, name, kinds[..n]);
      RegisterKindsCreatesExactly(l, name, kinds[..n], key);
      TouchCreatesExactly(before.sent, (name, kinds[n]), key);
      TouchCreatesExactly(before.failed, (name, kinds[n]), key);
      assert kinds == kinds[..n] + [kinds[n]];
    }
  }

  // ---------------------------------------------------------------------------
  // One target's series.

  function Lookup<K, V>(m: map<K, V>, k: K): Option<V> { if k in m then Some(m[k]) else None }

  /** Everything the ledger says under one set of labels. */
  datatype Series = Series(
    up: Option<int>,
    latency: Option<int>,
    status: Option<int>,
    attempts: Option<int>,
    lastCheck: Option<int>,
    certExpiry: Option<int>,
    passed: nat,
    failed: nat)

  function SeriesOf(l: Ledger, labels: Labels): Series {
    Series(Lookup(l.up, labels), Lookup(l.latency, labels), Lookup(l.status, labels), Lookup(l.attempts, labels),
           Lookup(l.lastCheck, labels), Lookup(l.certExpiry, labels),
           Value(l.checks, (labels, true)), Value(l.checks, (labels, false)))
  }

  /** A check moves the series of its own labels and no other. */
  lemma CheckMovesOwnSeriesOnly(parse: UrlParser, l: Ledger, r: CheckResult, labels: Labels)
    requires labels != LabelsFor(parse, r.target)
    ensures SeriesOf(AfterCheck(parse, l, r), labels) == SeriesOf(l, labels)
  {
  }

  /** How a check of its own target moves a series. */
  function Observe(s: Series, r: CheckResult): Series {
    Series(Some(if r.success then 1 else 0), Some(r.latency), Some(r.actualStatus), Some(r.attempts), Some(r.timestamp),
           if r.certNotAfter.Some? then r.certNotAfter else s.certExpiry,
           s.passed + (if r.success then 1 else 0), s.failed + (if r.success then 0 else 1))
  }

  lemma CheckMovesOwnSeries(parse: UrlParser, l: Ledger, r: CheckResult)
    ensures SeriesOf(AfterCheck(parse, l, r), LabelsFor(parse, r.target)) == Observe(SeriesOf(l, LabelsFor(parse, r.target)), r)
  {
  }

  function AfterChecks(parse: UrlParser, l: Ledger, rs: seq<CheckResult>): Ledger {
    if rs == [] then l else AfterCheck(parse, AfterChecks(parse, l, rs[..|rs| - 1]), rs[|rs| - 1])
  }

  /** The results recorded under `labels`, in order. */
  function Own(parse: UrlParser, rs: seq<CheckResult>, labels: Labels): seq<CheckResult> {
    if rs == [] then []
    else Own(parse, rs[..|rs| - 1], labels)
         + if LabelsFor(parse, rs[|rs| - 1].target) == labels then [rs[|rs| - 1]] else []
  }

  /** Checks under other labels leave no trace in a series. */
  lemma {:induction false} SeriesDependsOnOwnChecks(parse: UrlParser, l: Ledger, rs: seq<CheckResult>, labels: Labels)
    ensures SeriesOf(AfterChecks(parse, l, rs), labels) == SeriesOf(AfterChecks(parse, l, Own(parse, rs, labels)), labels)
  {
    hide AfterCheck, SeriesOf, LabelsFor;
    if rs != [] {
      var r, before := rs[|rs| - 1], rs[..|rs| - 1];
      SeriesDependsOnOwnChecks(parse, l, before, labels);
      var mine := Own(parse, before, labels);
      if LabelsFor(parse, r.target) == labels {
        assert (mine + [r])[..|mine|] == mine;
        CheckMovesOwnSeries(parse, AfterChecks(parse, l, before), r);
        CheckMovesOwnSeries(parse, AfterChecks(parse, l, mine), r);
      } else {
        CheckMovesOwnSeriesOnly(parse, AfterChecks(parse, l, before), r, labels);
        assert Own(parse, rs, labels) == mine;
      }
    }
  }

  /** The latest certificate expiry that was seen at all. */
  ghost predicate IsLatestExpiry(rs: seq<CheckResult>, expiry: Option<int>) {
    if expiry.None? then forall i :: 0 <= i < |rs| ==> rs[i].certNotAfter.None?
    else exists i ::
        && 0 <= i < |rs|
        && rs[i].certNotAfter == expiry
        && forall j :: i < j < |rs| ==> rs[j].certNotAfter.None?
  }

  /** How many results passed, or failed. */
  function Tally(rs: seq<CheckResult>, success: bool): nat {
    CountOf(rs, (r: CheckResult) => r.success == success)
  }

  /** What a series must say after the results `rs` of its target. */
  ghost predicate Reports(s: Series, rs: seq<CheckResult>) {
    && (rs != [] ==>
        var last := rs[|rs| - 1];
        && s.up == Some(if last.success then 1 else 0)
        && s.latency == Some(last.latency)
        && s.status == Some(last.actualStatus)
        && s.attempts == Some(last.attempts)
        && s.lastCheck == Some(last.timestamp))
    && (rs == [] ==> s.up.None? && s.latency.None? && s.status.None? && s.attempts.None? && s.lastCheck.None?)
    && IsLatestExpiry(rs, s.certExpiry)
    && s.passed == Tally(rs, true)
    && s.failed == Tally(rs, false)
  }

  /**
   The gauges of a target show its latest check, its counters every check ever run, and its
   certificate gauge the latest expiry seen anywhere in its history, failed handshakes since
   notwithstanding; no other target's checks matter.
   */
  lemma {:induction false} SeriesReportsHistory(parse: UrlParser, rs: seq<CheckResult>, labels: Labels)
    ensures Reports(SeriesOf(AfterChecks(parse, EMPTY, rs), labels), Own(parse, rs, labels))
  {
    hide AfterCheck, SeriesOf, LabelsFor, Reports;
    if rs == [] {
      EmptyLedgerReportsNothing(labels);
    } else {
      var r, before := rs[|rs| - 1], rs[..|rs| - 1];
      SeriesReportsHistory(parse, before, labels);
      var l := AfterChecks(parse, EMPTY, before);
      if LabelsFor(parse, r.target) == labels {
        ReportsAfterOwnCheck(parse, l, Own(parse, before, labels), r);
      } else {
        CheckMovesOwnSeriesOnly(parse, l, r, labels);
        assert Own(parse, rs, labels) == Own(parse, before, labels);
      }
    }
  }

  lemma EmptyLedgerReportsNothing(labels: Labels)
    ensures Reports(SeriesOf(EMPTY, labels), [])
  {
  }

  /** One more check of the same target keeps its series up to date. */
  lemma ReportsAfterOwnCheck(parse: UrlParser, l: Ledger, rs: seq<CheckResult>, r: CheckResult)
    requires Reports(SeriesOf(l, LabelsFor(parse, r.target)), rs)
    ensures Reports(SeriesOf(AfterCheck(parse, l, r), LabelsFor(parse, r.target)), rs + [r])
  {
    hide AfterCheck, SeriesOf, LabelsFor, IsLatestExpiry;
    CheckMovesOwnSeries(parse, l, r);
    CountOnAppend(rs, r, (x: CheckResult) => x.success == true);
    CountOnAppend(rs, r, (x: CheckResult) => x.success == false);
    assert Tally(rs + [r], true) == Tally(rs, true) + if r.success then 1 else 0;
    ExpiryOnAppend(rs, r, SeriesOf(l, LabelsFor(parse, r.target)).certExpiry);
  }

  lemma ExpiryOnAppend(rs: seq<CheckResult>, r: CheckResult, expiry: Option<int>)
    requires IsLatestExpiry(rs, expiry)
    ensures IsLatestExpiry(rs + [r], if r.certNotAfter.Some? then r.certNotAfter else expiry)
  {
    var all := rs + [r];
    if r.certNotAfter.Some? {
      assert all[|rs|].certNotAfter == r.certNotAfter;
    } else if expiry.Some? {
      var i :| 0 <= i < |rs| && rs[i].certNotAfter == expiry && forall j :: i < j < |rs| ==> rs[j].certNotAfter.None?;
      assert all[i].certNotAfter == expiry;
      forall j | i < j < |all| ensures all[j].certNotAfter.None? {}
    }
  }
}
