/**
 Reminders in time and in number of checks, for every run of the timer loop: the clock never
 goes back, a timer never fires early, and the jitter is any value the generator may draw.
 */
module Cadence {
  import opened Domain
  import opened AlertMachine
  import opened Arithmetic
  import opened Outages
  import Int64

  /** The jitter is drawn from [0, spread), a tenth of the interval. */
  function JitterSpread(interval: int): int { interval / 10 }

  predicate IsDraw(interval: int, draw: int) {
    0 <= draw && (JitterSpread(interval) > 0 ==> draw < JitterSpread(interval))
  }

  /** The sleep before the next check. A spread of zero draws nothing. */
  function NextDelay(interval: int, draw: int): int {
    if JitterSpread(interval) <= 0 then interval else Int64.Wrap(interval + draw)
  }

  predicate DelayInRange(interval: int, delay: int) {
    interval <= delay && (delay == interval || delay < interval + JitterSpread(interval))
  }

  /** No sleep is shorter than the interval or longer than the jitter allows, unless adding the jitter overflows. */
  lemma DelayInRangeExactly(interval: int)
    requires 0 < interval <= Int64.MAX
    ensures (forall draw :: IsDraw(interval, draw) ==> DelayInRange(interval, NextDelay(interval, draw)))
       <==> interval + JitterSpread(interval) <= Int64.TWO_63
  {
    var spread := JitterSpread(interval);
    if interval + spread > Int64.TWO_63 {
      assert IsDraw(interval, spread - 1);
      assert NextDelay(interval, spread - 1) < 0;
    }
  }

  /**
   The sleep is the interval plus the draw, and an interval too short for a jitter is slept as it
   is: that is so exactly when the sum is a duration.
   */
  lemma SleepFollowsDrawExactly(interval: int, draw: int)
    requires 0 < interval < 0x8000_0000_0000_0000 && 0 <= draw && (interval >= 10 ==> draw < interval / 10)
    ensures IsDraw(interval, draw)
    ensures NextDelay(interval, draw) == interval + (if interval >= 10 then draw else 0)
       <==> interval < 10 || interval + draw < 0x8000_0000_0000_0000
  {
  }

  /** Different draws keep loops of the same interval apart, whether or not the sum overflows. */
  lemma DrawsKeepLoopsApart(interval: int, a: int, b: int)
    requires 10 <= interval < 0x8000_0000_0000_0000
    requires 0 <= a < interval / 10 && 0 <= b < interval / 10 && a != b
    ensures NextDelay(interval, a) != NextDelay(interval, b)
  {
    assert JitterSpread(interval) > 0;
  }

  ghost predicate Clocked(h: seq<Round>) {
    && (forall i: nat :: i < |h| ==> h[i].startAt <= h[i].sinceAt <= h[i].stampAt <= h[i].doneAt)
    && (forall i: nat :: i + 1 < |h| ==> h[i].doneAt <= h[i + 1].startAt)
  }

  /** Each check starts when the timer set after the previous one has run out, or later. */
  ghost predicate Paced(interval: int, h: seq<Round>) {
    && (forall i: nat :: i < |h| ==> DelayInRange(interval, h[i].delay))
    && (forall i: nat :: i + 1 < |h| ==> h[i].doneAt + h[i].delay <= h[i + 1].startAt)
  }

  ghost predicate FailsThrough(h: seq<Round>, j: nat, k: nat) {
    k < |h| && forall i: nat :: j <= i <= k ==> Fails(h, i)
  }

  // ---------------------------------------------------------------------------
  // Reminders in time.

  /** The reminders after round `j`, up to and including round `k`. */
  function RemindersBetween(log: seq<Option<AlertKind>>, j: nat, k: nat): nat
    requires j <= k < |log|
  {
    Count(log[j + 1..k + 1], Reminder)
  }

  lemma RemindersUpToNext(log: seq<Option<AlertKind>>, j: nat, k: nat)
    requires j < k < |log|
    ensures RemindersBetween(log, j, k) == RemindersBetween(log, j, k - 1) + if log[k] == Some(Reminder) then 1 else 0
  {
    CountOnAppend(log[j + 1..k + 1], Reminder);
    assert log[j + 1..k + 1][..k - j - 1] == log[j + 1..k];
  }

  lemma {:induction false} StampSpacing(p: Policy, h: seq<Round>, j: nat, k: nat)
    requires p.Sound() && p.multiplier > 0 && Clocked(h)
    requires j <= k && FailsThrough(h, j, k) && Log(p, h)[j].Some?
    ensures var s := StateAfter(p, h[..k + 1]);
            && s.status == Unhealthy && s.lastAlert.Some?
            && s.lastAlert.value <= h[k].stampAt
            && s.lastAlert.value - h[j].stampAt >= RemindersBetween(Log(p, h), j, k) * p.Period()
            && (Log(p, h)[k].Some? ==> s.lastAlert.value == h[k].stampAt)
  {
    hide Log, StateAfter, ReminderDue;
    var log := Log(p, h);
    LogAt(p, h, k);
    assert Fails(h, k);
    if j < k {
      StampSpacing(p, h, j, k - 1);
      RemindersUpToNext(log, j, k);
      assert p.Period() > 0;
      assert h[k - 1].stampAt <= h[k].sinceAt;
      DistributeOne(RemindersBetween(log, j, k - 1), p.Period());
      ThresholdIsPeriod(p, h[k].sinceAt, StateAfter(p, h[..k]).lastAlert.value);
    }
  }

  /** Two alerts of one outage, the later a reminder, are at least a period apart. */
  ghost predicate Spaced(p: Policy, h: seq<Round>) {
    forall i: nat, k: nat ::
      i < k && FailsThrough(h, i, k) && Log(p, h)[i].Some? && Log(p, h)[k] == Some(Reminder) ==>
        h[k].stampAt - h[i].stampAt >= p.Period()
  }

  lemma SoundPoliciesSpaceReminders(p: Policy, h: seq<Round>)
    requires p.Sound() && p.multiplier > 0 && Clocked(h)
    ensures Spaced(p, h)
  {
    forall i: nat, k: nat
      | i < k && FailsThrough(h, i, k) && Log(p, h)[i].Some? && Log(p, h)[k] == Some(Reminder)
      ensures h[k].stampAt - h[i].stampAt >= p.Period()
    {
      StampSpacing(p, h, i, k);
      RemindersUpToNext(Log(p, h), i, k);
      AtLeastOne(RemindersBetween(Log(p, h), i, k), p.Period());
    }
  }

  function BareResult(success: bool): CheckResult {
    CheckResult(Target("", "", 0, "", 0, 0, "", "", 0), success, 0, None, 0, 0, 1, None)
  }

  /** A failed check of negligible length at time `at`, followed by a sleep of `delay`. */
  function InstantFailure(at: int, delay: int): Round {
    Round(BareResult(false), at, at, at, at, delay)
  }

  /** Two instant failures: the second as soon as the timer allows and the wrapped-around period has passed. */
  function EarlyReminder(p: Policy): seq<Round> {
    [InstantFailure(0, p.interval),
     InstantFailure(if p.Threshold() > p.interval then p.Threshold() else p.interval, p.interval)]
  }

  lemma OverflowRemindsEarly(p: Policy)
    requires 0 < p.interval <= Int64.MAX && p.multiplier > 0 && !Int64.Fits(p.Period())
    ensures var h := EarlyReminder(p);
            && Clocked(h) && Paced(p.interval, h) && FailsThrough(h, 0, 1)
            && Log(p, h) == [Some(Failure), Some(Reminder)]
            && h[1].sinceAt - h[0].stampAt < p.Period()
  {
    AtLeastOne(p.multiplier, p.interval);
    var h := EarlyReminder(p);
    LogAt(p, h, 0);
    LogAt(p, h, 1);
    assert h[..0] == [] && h[..1] == [h[0]];
  }

  /** A run of the timer loop, as far as its clock goes. */
  ghost predicate Timed(interval: int, h: seq<Round>) { Clocked(h) && Paced(interval, h) }

  /**
   The period is a promise only as long as it is a duration: the multiplication wraps around
   silently, validation does not bound it, and then some run of the timer loop gets a reminder
   too early.
   */
  lemma RemindersSpacedExactly(p: Policy)
    requires 0 < p.interval <= Int64.MAX && p.multiplier > 0
    ensures (forall h: seq<Round> :: Timed(p.interval, h) ==> Spaced(p, h)) <==> Int64.Fits(p.Period())
  {
    if Int64.Fits(p.Period()) {
      forall h: seq<Round> | Timed(p.interval, h) ensures Spaced(p, h) {
        SoundPoliciesSpaceReminders(p, h);
      }
    } else {
      hide Log;
      OverflowRemindsEarly(p);
      assert Timed(p.interval, EarlyReminder(p)) && !Spaced(p, EarlyReminder(p));
    }
  }

  /**
   Likewise the machine agrees with the declarative account on every run of the timer loop, and
   then on every history at all, exactly when the period is a duration or reminders are off.
   */
  lemma RefinementHoldsExactly(p: Policy)
    requires 0 < p.interval <= Int64.MAX
    ensures (forall h: seq<Round> :: Timed(p.interval, h) ==> Explains(p, h, Log(p, h))) <==> p.Sound()
    ensures (forall h: seq<Round> :: Explains(p, h, Log(p, h))) <==> p.Sound()
  {
    if p.Sound() {
      forall h: seq<Round> ensures Explains(p, h, Log(p, h)) {
        MachineRefinesHistory(p, h, Log(p, h));
      }
    } else {
      hide Log;
      OverflowRemindsEarly(p);
      var h := EarlyReminder(p);
      var log := Log(p, h);
      assert forall j: nat :: LatestAlert(log, j, 1) ==> j == 0;
      assert log[1] != Expected(p, h, log, 1);
      assert Timed(p.interval, h) && !Explains(p, h, log);
    }
  }

  /**
   The reminders of an outage fill the time since its failure alert: n of them take at least
   n periods. With reminders off there is none.
   */
  lemma RemindersPerOutage(p: Policy, h: seq<Round>, j: nat, k: nat)
    requires p.Sound() && Clocked(h)
    requires j <= k && StartsOutageAt(h, j) && FailsThrough(h, j, k)
    ensures p.multiplier <= 0 ==> RemindersBetween(Log(p, h), j, k) == 0
    ensures p.multiplier > 0 ==>
              RemindersBetween(Log(p, h), j, k) * p.Period() <= h[k].stampAt - h[j].stampAt
  {
    if p.multiplier > 0 {
      DecisionIsExpected(p, h, j);
      StampSpacing(p, h, j, k);
    } else {
      NoRemindersWhenOff(p, h, j, k);
    }
  }

  ghost predicate StartsOutageAt(h: seq<Round>, j: nat) { j < |h| && StartsOutage(h, j) }

  lemma {:induction false} NoRemindersWhenOff(p: Policy, h: seq<Round>, j: nat, k: nat)
    requires p.multiplier <= 0 && j <= k < |h|
    ensures RemindersBetween(Log(p, h), j, k) == 0
  {
    if j == k {
      assert Log(p, h)[j + 1..k + 1] == [];
    } else {
      var log := Log(p, h);
      NoRemindersWhenOff(p, h, j, k - 1);
      RemindersUpToNext(log, j, k);
      LogAt(p, h, k);
    }
  }

  // ---------------------------------------------------------------------------
  // Reminders in number of checks.

  lemma {:induction false} ChecksAreIntervalsApart(interval: int, h: seq<Round>, k: nat, m: nat)
    requires Clocked(h) && Paced(interval, h) && k + m < |h| && m > 0
    ensures h[k + m].sinceAt - h[k].stampAt >= m * interval
    ensures h[k + m].startAt >= h[k].doneAt
  {
    if m > 1 {
      ChecksAreIntervalsApart(interval, h, k, m - 1);
      DistributeOne(m - 1, interval);
      assert h[k + m - 1].sinceAt <= h[k + m - 1].doneAt;
      assert h[k + m - 1].doneAt + h[k + m - 1].delay <= h[k + m].startAt;
    } else {
      assert h[k].doneAt + h[k].delay <= h[k + 1].startAt;
    }
  }

  /** A failed check after a failed check is silent or a reminder. */
  lemma ContinuingChecksRemindOrStaySilent(p: Policy, h: seq<Round>, k: nat, m: nat)
    requires k < m && FailsThrough(h, k, m)
    ensures Log(p, h)[m] in {None, Some(Reminder)}
  {
    LogAt(p, h, m);
    StatusIsLatestCheck(p, h[..m]);
    assert Fails(h, m - 1) && Fails(h, m);
    assert Fails(h[..m], m - 1);
  }

  /** Silent rounds after an alert leave it the latest one; so the round that ends the period reminds. */
  lemma SilenceEndsAfterPeriod(p: Policy, h: seq<Round>, k: nat, m: nat)
    requires p.Sound() && p.multiplier > 0 && k < m && FailsThrough(h, k, m)
    requires Log(p, h)[k].Some?
    requires forall i: nat :: k < i < m ==> Log(p, h)[i].None?
    ensures Log(p, h)[m] == Some(Reminder) <==> h[m].sinceAt - h[k].stampAt >= p.Period()
  {
    var log := Log(p, h);
    DecisionIsExpected(p, h, m);
    assert LatestAlert(log, k, m);
    forall i: nat | LatestAlert(log, i, m) ensures i == k {
      LatestAlertIsUnique(log, i, k, m);
    }
    assert Fails(h, m - 1);
  }

  /**
   If a check raised an alert and the next N checks fail too, one of them raises a reminder:
   there are at most N - 1 silent failures between two alerts of an outage.
   */
  lemma ReminderWithinMultiplierChecks(p: Policy, h: seq<Round>, k: nat)
    requires p.Sound() && p.multiplier >= 1 && Clocked(h) && Paced(p.interval, h)
    requires FailsThrough(h, k, k + p.multiplier) && Log(p, h)[k].Some?
    ensures exists m: nat :: k < m <= k + p.multiplier && Log(p, h)[m] == Some(Reminder)
  {
    var n: nat := p.multiplier;
    if m: nat :| k < m < k + n && Log(p, h)[m] != None {
      ContinuingChecksRemindOrStaySilent(p, h, k, m);
    } else {
      ChecksAreIntervalsApart(p.interval, h, k, n);
      SilenceEndsAfterPeriod(p, h, k, k + n);
    }
  }

  /** Everything that makes a round longer than the interval, besides the jitter: sending, a late timer, the check itself. */
  function Overhead(a: Round, b: Round): int {
    (a.doneAt - a.stampAt) + (b.startAt - (a.doneAt + a.delay)) + (b.stampAt - b.startAt)
  }

  ghost predicate SlackBounded(interval: int, h: seq<Round>, k: nat, m: nat, jitter: int, latency: int) {
    && k + m < |h|
    && forall i: nat :: k <= i < k + m ==> h[i].delay - interval <= jitter && Overhead(h[i], h[i + 1]) <= latency
  }

  lemma {:induction false} ChecksAreNotTooFarApart(interval: int, h: seq<Round>, k: nat, m: nat, jitter: int,
      latency: int)
    requires SlackBounded(interval, h, k, m, jitter, latency)
    ensures h[k + m].stampAt - h[k].stampAt <= m * (interval + jitter + latency)
  {
    if m > 0 {
      ChecksAreNotTooFarApart(interval, h, k, m - 1, jitter, latency);
      DistributeOne(m - 1, interval + jitter + latency);
      var i: nat := k + m - 1;
      assert h[i].delay - interval <= jitter && Overhead(h[i], h[i + 1]) <= latency;
    }
  }

  lemma SlackBelowOneInterval(n: int, interval: int, slack: int)
    requires n >= 1 && (n - 1) * slack < interval
    ensures (n - 1) * (interval + slack) < interval * n
  {
    assert (n - 1) * (interval + slack) == (n - 1) * interval + (n - 1) * slack;
    assert interval * n == (n - 1) * interval + interval;
  }

  /**
   If in addition N - 1 rounds' worth of jitter and latency is less than an interval, the
   reminder comes at exactly the N-th check after the alert.
   */
  lemma {:induction false} ReminderAtExactlyMultiplierChecks(p: Policy, h: seq<Round>, k: nat, jitter: int,
      latency: int)
    requires p.Sound() && p.multiplier >= 1 && Clocked(h) && Paced(p.interval, h)
    requires FailsThrough(h, k, k + p.multiplier) && Log(p, h)[k].Some?
    requires (p.multiplier - 1) * (jitter + latency) < p.interval
    requires SlackBounded(p.interval, h, k, p.multiplier, jitter, latency)
    ensures forall m: nat :: k < m < k + p.multiplier ==> Log(p, h)[m].None?
    ensures Log(p, h)[k + p.multiplier] == Some(Reminder)
  {
    hide Log;
    var n: nat := p.multiplier;
    SlackIsPositive(p.interval, h, k, n, jitter, latency);
    SilentBeforeNth(p, h, k, n, jitter, latency);
    ChecksAreIntervalsApart(p.interval, h, k, n);
    assert p.Period() == n * p.interval;
    SilenceEndsAfterPeriod(p, h, k, k + n);
  }

  lemma SlackIsPositive(interval: int, h: seq<Round>, k: nat, m: nat, jitter: int, latency: int)
    requires Clocked(h) && Paced(interval, h) && m >= 1 && SlackBounded(interval, h, k, m, jitter, latency)
    ensures jitter >= 0 && latency >= 0
  {
    assert h[k].delay - interval <= jitter && Overhead(h[k], h[k + 1]) <= latency;
  }

  lemma {:induction false} SilentBeforeNth(p: Policy, h: seq<Round>, k: nat, n: nat, jitter: int, latency: int)
    requires p.Sound() && 1 <= n <= p.multiplier && Clocked(h)
    requires FailsThrough(h, k, k + p.multiplier) && Log(p, h)[k].Some?
    requires jitter + latency >= 0 && (p.multiplier - 1) * (jitter + latency) < p.interval
    requires SlackBounded(p.interval, h, k, p.multiplier, jitter, latency)
    ensures forall m: nat :: k < m < k + n ==> Log(p, h)[m].None?
  {
    if n > 1 {
      SilentBeforeNth(p, h, k, n - 1, jitter, latency);
      var m: nat := k + n - 1;
      ChecksAreNotTooFarApart(p.interval, h, k, n - 1, jitter, latency);
      SlackBelowOneInterval(p.multiplier, p.interval, jitter + latency);
      TimesMonotone(n - 1, p.multiplier - 1, p.interval + jitter + latency);
      ContinuingChecksRemindOrStaySilent(p, h, k, m);
      SilenceEndsAfterPeriod(p, h, k, m);
    }
  }
}
