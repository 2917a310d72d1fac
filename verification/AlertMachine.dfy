/**
 The per-target alert state machine as a function of its history, and the declarative
 account of the same alerts that never mentions a state.
 */
module AlertMachine {
  import opened Domain
  import Int64

  /**
   One pass through the target loop: the check and its clock readings. `sinceAt` is read to
   decide whether a reminder is due, `stampAt` when an alert is attempted, `doneAt` when the
   timer is set to `delay`.
   */
  datatype Round = Round(result: CheckResult, startAt: int, sinceAt: int, stampAt: int, doneAt: int, delay: int)

  /** `lastAlert` is `lastAlertTime`, with `None` for Go's zero time. */
  datatype State = State(status: HealthStatus, lastAlert: Option<int>)

  const INITIAL := State(Unknown, None)

  /** The reminder multiplier of the application and the interval of the target. */
  datatype Policy = Policy(multiplier: int, interval: int) {

    /** The reminder period as `time.Duration` arithmetic computes it. */
    function Threshold(): int { Int64.Wrap(interval * multiplier) }

    /** The reminder period that is meant. */
    function Period(): int { interval * multiplier }

    /** Reminders are on and their period is a duration. */
    predicate Sound() { interval > 0 && (multiplier > 0 ==> Int64.Fits(Period())) }
  }

  /** `time.Since`: the distance to the zero time does not fit a duration and clamps. */
  function Since(now: int, t: Option<int>): int {
    if t.None? then Int64.MAX else Int64.Saturate(now - t.value)
  }

  predicate ReminderDue(p: Policy, lastAlert: Option<int>, now: int) {
    p.multiplier > 0 && Since(now, lastAlert) >= p.Threshold()
  }

  /** Against the zero time every reminder is due: no period exceeds the largest duration. */
  lemma DueAgainstZeroTime(p: Policy, now: int)
    ensures ReminderDue(p, None, now) <==> p.multiplier > 0
  {
  }

  /** The alert `checkAndAlert` attempts in state `s`. */
  function Decide(p: Policy, s: State, c: Round): Option<AlertKind> {
    if !c.result.success && s.status != Unhealthy then Some(Failure)
    else if !c.result.success && ReminderDue(p, s.lastAlert, c.sinceAt) then Some(Reminder)
    else if !c.result.success then None
    else if s.status == Unhealthy then Some(Recovery)
    else None
  }

  /** The state it leaves. The stamp moves when an alert is attempted, delivered or not. */
  function Next(p: Policy, s: State, c: Round): State {
    State(if c.result.success then Healthy else Unhealthy,
          match Decide(p, s, c)
          case Some(Recovery) => None
          case Some(_) => Some(c.stampAt)
          case None => s.lastAlert)
  }

  function StateAfter(p: Policy, h: seq<Round>): State {
    if h == [] then INITIAL else Next(p, StateAfter(p, h[..|h| - 1]), h[|h| - 1])
  }

  /** What was attempted in each round of history `h`. */
  function Log(p: Policy, h: seq<Round>): (log: seq<Option<AlertKind>>)
    ensures |log| == |h|
  {
    if h == [] then []
    else Log(p, h[..|h| - 1]) + [Decide(p, StateAfter(p, h[..|h| - 1]), h[|h| - 1])]
  }

  lemma {:induction false} LogAt(p: Policy, h: seq<Round>, k: nat)
    requires k < |h|
    ensures Log(p, h)[k] == Decide(p, StateAfter(p, h[..k]), h[k])
    ensures StateAfter(p, h[..k + 1]) == Next(p, StateAfter(p, h[..k]), h[k])
  {
    if k < |h| - 1 {
      LogAt(p, h[..|h| - 1], k);
      assert h[..|h| - 1][..k] == h[..k];
      assert h[..|h| - 1][..k + 1] == h[..k + 1];
    } else {
      assert h[..k + 1] == h;
    }
    assert h[..k + 1][..k] == h[..k];
  }

  lemma LogPrefix(p: Policy, h: seq<Round>, n: nat)
    requires n <= |h|
    ensures Log(p, h[..n]) == Log(p, h)[..n]
  {
    forall k: nat | k < n ensures Log(p, h[..n])[k] == Log(p, h)[k] {
      LogAt(p, h[..n], k);
      LogAt(p, h, k);
      assert h[..n][..k] == h[..k];
    }
  }

  // ---------------------------------------------------------------------------
  // The declarative account.

  predicate Fails(h: seq<Round>, k: nat) requires k < |h| { !h[k].result.success }

  /** Round `k` is the first failed check of an outage. */
  predicate StartsOutage(h: seq<Round>, k: nat)
    requires k < |h|
  {
    Fails(h, k) && (k == 0 || !Fails(h, k - 1))
  }

  /** Round `k` is a failed check after a failed check. */
  predicate ContinuesOutage(h: seq<Round>, k: nat)
    requires k < |h|
  {
    Fails(h, k) && k > 0 && Fails(h, k - 1)
  }

  /** Round `k` is a passed check after a failed check. */
  predicate EndsOutage(h: seq<Round>, k: nat)
    requires k < |h|
  {
    !Fails(h, k) && k > 0 && Fails(h, k - 1)
  }

  /** Round `j` holds the latest alert before round `k`. */
  predicate LatestAlert(log: seq<Option<AlertKind>>, j: nat, k: nat)
    requires k <= |log|
  {
    j < k && log[j].Some? && forall i: nat :: j < i < k ==> log[i].None?
  }

  /** A reminder is due in round `k`: the latest alert lies at least a period back. */
  ghost predicate PeriodElapsed(p: Policy, h: seq<Round>, log: seq<Option<AlertKind>>, k: nat)
    requires k < |h| == |log|
  {
    p.multiplier > 0 && exists j: nat :: LatestAlert(log, j, k) && h[k].sinceAt - h[j].stampAt >= p.Period()
  }

  /** What round `k` should attempt, given the alerts before it. */
  ghost function Expected(p: Policy, h: seq<Round>, log: seq<Option<AlertKind>>, k: nat): Option<AlertKind>
    requires k < |h| == |log|
  {
    if StartsOutage(h, k) then Some(Failure)
    else if EndsOutage(h, k) then Some(Recovery)
    else if ContinuesOutage(h, k) && PeriodElapsed(p, h, log, k) then Some(Reminder)
    else None
  }

  ghost predicate Explains(p: Policy, h: seq<Round>, log: seq<Option<AlertKind>>) {
    |log| == |h| && forall k: nat :: k < |h| ==> log[k] == Expected(p, h, log, k)
  }

  lemma {:induction false} StatusIsLatestCheck(p: Policy, h: seq<Round>)
    ensures var s := StateAfter(p, h);
            && s.status == (if h == [] then Unknown else if Fails(h, |h| - 1) then Unhealthy else Healthy)
            && (s.lastAlert.Some? <==> s.status == Unhealthy)
  {
    if h != [] {
      StatusIsLatestCheck(p, h[..|h| - 1]);
    }
  }

  /** The round whose stamp an unhealthy state carries. */
  ghost predicate HoldsStamp(h: seq<Round>, log: seq<Option<AlertKind>>, s: State, j: nat)
    requires |log| == |h|
  {
    && LatestAlert(log, j, |h|)
    && log[j] != Some(Recovery)
    && s.lastAlert == Some(h[j].stampAt)
    && forall i: nat :: j <= i < |h| ==> Fails(h, i)
  }

  lemma {:induction false} StampHolder(p: Policy, h: seq<Round>) returns (j: nat)
    requires h != [] && Fails(h, |h| - 1)
    ensures HoldsStamp(h, Log(p, h), StateAfter(p, h), j)
  {
    hide ReminderDue;
    var n: nat := |h| - 1;
    var g, log := h[..n], Log(p, h);
    assert log[..n] == Log(p, g);
    StatusIsLatestCheck(p, g);
    if log[n].Some? {
      j := n;
    } else {
      assert Fails(g, n - 1);
      j := StampHolder(p, g);
      forall i: nat | j <= i < n ensures Fails(h, i) { assert Fails(g, i); }
      forall i: nat | j <= i < n ensures log[i] == Log(p, g)[i] {}
    }
  }

  /**
   The state says no more than the history: unhealthy means the latest check failed, and
   then the stamp is that of the latest failure or reminder, with only failed checks since;
   otherwise there is no stamp.
   */
  ghost predicate Summarises(h: seq<Round>, log: seq<Option<AlertKind>>, s: State)
    requires |log| == |h|
  {
    && (h == [] ==> s == INITIAL)
    && (h != [] ==> s.status == if Fails(h, |h| - 1) then Unhealthy else Healthy)
    && (s.lastAlert.Some? <==> s.status == Unhealthy)
    && (s.status == Unhealthy ==> exists j: nat :: HoldsStamp(h, log, s, j))
  }

  lemma StateSummarisesHistory(p: Policy, h: seq<Round>)
    ensures Summarises(h, Log(p, h), StateAfter(p, h))
  {
    hide Log, StateAfter, HoldsStamp;
    StatusIsLatestCheck(p, h);
    if h == [] {
      assert StateAfter(p, h) == INITIAL by { EmptyHistory(p); }
    } else if Fails(h, |h| - 1) {
      var j := StampHolder(p, h);
    }
  }

  lemma EmptyHistory(p: Policy)
    ensures StateAfter(p, []) == INITIAL
  {
  }

  lemma LatestAlertIsUnique(log: seq<Option<AlertKind>>, i: nat, j: nat, k: nat)
    requires k <= |log| && LatestAlert(log, i, k) && LatestAlert(log, j, k)
    ensures i == j
  {
  }

  /** In an outage the machine's clock comparison is the declarative one. */
  lemma {:induction false} ReminderDueExactly(p: Policy, h: seq<Round>, k: nat)
    requires p.Sound() && k < |h| && ContinuesOutage(h, k)
    ensures ReminderDue(p, StateAfter(p, h[..k]).lastAlert, h[k].sinceAt) <==> PeriodElapsed(p, h, Log(p, h), k)
  {
    hide Log, StateAfter;
    var g, log := h[..k], Log(p, h);
    LogPrefix(p, h, k);
    assert Fails(g, k - 1);
    var j := StampHolder(p, g);
    forall i: nat | i < k ensures Log(p, g)[i] == log[i] {}
    assert LatestAlert(log, j, k);
    forall i: nat | LatestAlert(log, i, k) ensures i == j {
      LatestAlertIsUnique(log, i, j, k);
    }
    ThresholdIsPeriod(p, h[k].sinceAt, h[j].stampAt);
  }

  lemma ThresholdIsPeriod(p: Policy, now: int, stamp: int)
    requires p.Sound()
    ensures ReminderDue(p, Some(stamp), now) <==> p.multiplier > 0 && now - stamp >= p.Period()
  {
    if p.multiplier > 0 {
      assert p.Period() > 0;
    }
  }

  /** The machine's decision in round `k` is the declarative one, given the machine's earlier alerts. */
  lemma DecisionIsExpected(p: Policy, h: seq<Round>, k: nat)
    requires p.Sound() && k < |h|
    ensures Log(p, h)[k] == Expected(p, h, Log(p, h), k)
  {
    hide Log, StateAfter, ReminderDue, PeriodElapsed;
    LogAt(p, h, k);
    StatusIsLatestCheck(p, h[..k]);
    assert k > 0 ==> Fails(h[..k], k - 1) == Fails(h, k - 1);
    if ContinuesOutage(h, k) {
      ReminderDueExactly(p, h, k);
    }
  }

  /** `Expected` looks at earlier alerts only. */
  lemma ExpectedDependsOnThePast(p: Policy, h: seq<Round>, a: seq<Option<AlertKind>>,
      b: seq<Option<AlertKind>>, k: nat)
    requires k < |h| == |a| == |b| && a[..k] == b[..k]
    ensures Expected(p, h, a, k) == Expected(p, h, b, k)
  {
    forall i: nat | i < k ensures a[i] == b[i] {
      assert a[..k][i] == b[..k][i];
    }
    assert forall j: nat :: LatestAlert(a, j, k) <==> LatestAlert(b, j, k);
  }

  lemma {:induction false} ExplanationsAgree(p: Policy, h: seq<Round>, log: seq<Option<AlertKind>>, n: nat)
    requires p.Sound() && Explains(p, h, log) && n <= |h|
    ensures log[..n] == Log(p, h)[..n]
  {
    if n > 0 {
      var k: nat := n - 1;
      ExplanationsAgree(p, h, log, k);
      ExpectedDependsOnThePast(p, h, log, Log(p, h), k);
      DecisionIsExpected(p, h, k);
      assert log[..n] == log[..k] + [log[k]];
      assert Log(p, h)[..n] == Log(p, h)[..k] + [Log(p, h)[k]];
    }
  }

  /**
   Over every history of results and clock readings the incremental machine attempts exactly
   the alerts the declarative account asks for, and no other log satisfies that account.
   */
  lemma MachineRefinesHistory(p: Policy, h: seq<Round>, log: seq<Option<AlertKind>>)
    requires p.Sound()
    ensures Explains(p, h, log) <==> log == Log(p, h)
  {
    forall k: nat | k < |h| ensures Log(p, h)[k] == Expected(p, h, Log(p, h), k) {
      DecisionIsExpected(p, h, k);
    }
    if Explains(p, h, log) {
      ExplanationsAgree(p, h, log, |h|);
      assert log[..|h|] == log && Log(p, h)[..|h|] == Log(p, h);
    }
  }
}
