/**
 How long a failure can go unreported, and when a failure is reported that is none: the retry
 loop, the timer loop and the alert machine taken together.
 */
module Detection {
  import opened Domain
  import opened AlertMachine
  import opened Backoff
  import opened Cadence
  import opened Checker
  import Float64

  const FANOUT_TIMEOUT := 30 * SECOND

  /**
   The bounds everything outside the program is supposed to keep: probes their timeout, a
   fan-out its deadline, and the runtime a slack for waking up and for bookkeeping. Any accepted
   retry configuration and any floating-point arithmetic will do.
   */
  datatype Bounds = Bounds(retry: RetryConfig, platform: Float64.Platform, timeout: int, interval: int, slack: int) {
    ghost predicate Valid() {
      Accepted(retry) && timeout >= 0 && interval > 0 && slack >= 0
    }

    /** The longest check: `DurationBounded` says what the backoff part is, and bounds it by maximal waits. */
    function CheckBound(): int
      requires retry.maxAttempts >= 1
    {
      retry.maxAttempts * timeout + Total(platform, retry, retry.maxAttempts - 1) + slack
    }

    /** The longest sleep, from setting the timer to the start of the next check. */
    function SleepBound(): int {
      interval + JitterSpread(interval) + slack
    }
  }

  /** Round `i` ran job `jobs[i]` and took no longer than its probes and waits, plus slack. */
  ghost predicate RunsJobs(b: Bounds, h: seq<Round>, jobs: seq<Job>) {
    && |jobs| == |h|
    && forall i: nat :: i < |h| ==>
         && jobs[i].maxAttempts == b.retry.maxAttempts && jobs[i].env.platform == b.platform
         && (forall k: nat :: jobs[i].env.Answer(k).response.latency <= b.timeout)
         && h[i].result == jobs[i].Result()
         && (jobs[i].Result().attempts >= 1 ==>
             h[i].stampAt - h[i].startAt <= Duration(jobs[i], b.retry, jobs[i].Result().attempts) + b.slack)
  }

  /** Sends end within the fan-out timeout and the next check starts soon after the timer fires. */
  ghost predicate KeepsBounds(b: Bounds, h: seq<Round>) {
    && (forall i: nat :: i < |h| ==> h[i].doneAt - h[i].stampAt <= 30_000_000_000)
    && (forall i: nat :: i + 1 < |h| ==> h[i + 1].startAt <= h[i].doneAt + h[i].delay + b.slack)
  }

  /** The two bounds, spelled out for any floating-point arithmetic. */
  lemma BoundsSpelledOut(b: Bounds)
    requires b.Valid()
    ensures 0 <= b.CheckBound() - b.slack - b.retry.maxAttempts * b.timeout <= (b.retry.maxAttempts - 1) * b.retry.maxWait
    ensures b.SleepBound() == b.interval + b.interval / 10 + b.slack
  {
    TotalBounded(b.platform, b.retry, b.retry.maxAttempts - 1);
  }

  lemma CheckIsBounded(b: Bounds, h: seq<Round>, jobs: seq<Job>, i: nat)
    requires b.Valid() && RunsJobs(b, h, jobs) && i < |h|
    ensures h[i].stampAt - h[i].startAt <= b.CheckBound()
  {
    DurationBounded(jobs[i], b.retry, b.timeout);
  }

  lemma NextCheckIsBounded(b: Bounds, h: seq<Round>, i: nat)
    requires b.Valid() && Paced(b.interval, h) && KeepsBounds(b, h) && i + 1 < |h|
    ensures h[i + 1].startAt - h[i].stampAt <= FANOUT_TIMEOUT + b.SleepBound()
  {
    assert DelayInRange(b.interval, h[i].delay);
    assert JitterSpread(b.interval) >= 0;
  }

  /** The first failed check after a passed one raises a failure, within the bound of the previous decision. */
  lemma FailureFollowsPreviousDecision(b: Bounds, p: Policy, h: seq<Round>, jobs: seq<Job>, k: nat)
    requires b.Valid() && b.interval == p.interval && RunsJobs(b, h, jobs)
    requires Paced(b.interval, h) && KeepsBounds(b, h)
    requires k + 1 < |h| && StartsOutage(h, k + 1)
    ensures Log(p, h)[k + 1] == Some(Failure)
    ensures h[k + 1].stampAt - h[k].stampAt <= FANOUT_TIMEOUT + b.SleepBound() + b.CheckBound()
  {
    hide RunsJobs, KeepsBounds, Bounds.CheckBound, Bounds.SleepBound, Bounds.Valid, Log;
    OutageStartRaisesFailure(p, h, k + 1);
    NextCheckIsBounded(b, h, k);
    CheckIsBounded(b, h, jobs, k + 1);
  }

  /**
   A target that breaks at time `t` for good, so that every check started from then on fails:
   after the first such check its outage has been reported, by an alert attempted no later
   than two checks, one fan-out and one sleep after `t`.
   */
  lemma {:induction false} OutageIsReportedInTime(b: Bounds, p: Policy, h: seq<Round>, jobs: seq<Job>, t: int, k: nat)
    requires b.Valid() && b.interval == p.interval && RunsJobs(b, h, jobs)
    requires Clocked(h) && Paced(b.interval, h) && KeepsBounds(b, h)
    requires k + 1 < |h| && h[k].startAt < t <= h[k + 1].startAt
    requires forall i: nat :: i < |h| && t <= h[i].startAt ==> Fails(h, i)
    ensures exists j: nat ::
              && j <= k + 1 && Log(p, h)[j] == Some(Failure) && FailsThrough(h, j, k + 1)
              && h[j].stampAt <= t + 2 * b.CheckBound() + FANOUT_TIMEOUT + b.SleepBound()
  {
    hide RunsJobs, KeepsBounds, Bounds.CheckBound, Bounds.SleepBound, Bounds.Valid, Log, Clocked, Paced;
    assert Fails(h, k + 1);
    CheckIsBounded(b, h, jobs, k);
    NextCheckIsBounded(b, h, k);
    CheckIsBounded(b, h, jobs, k + 1);
    var j := OutageStart(h, k + 1);
    OutageStartRaisesFailure(p, h, j);
    StampsAreOrdered(h, j, k + 1);
  }

  lemma {:induction false} OutageStartRaisesFailure(p: Policy, h: seq<Round>, j: nat)
    requires j < |h| && StartsOutage(h, j)
    ensures Log(p, h)[j] == Some(Failure)
  {
    hide Log, StateAfter;
    LogAt(p, h, j);
    StatusIsLatestCheck(p, h[..j]);
    assert j > 0 ==> Fails(h[..j], j - 1) == Fails(h, j - 1);
  }

  lemma {:induction false} OutageStart(h: seq<Round>, k: nat) returns (j: nat)
    requires k < |h| && Fails(h, k)
    ensures j <= k && StartsOutage(h, j) && FailsThrough(h, j, k)
  {
    if k == 0 || !Fails(h, k - 1) {
      j := k;
    } else {
      j := OutageStart(h, k - 1);
    }
  }

  lemma {:induction false} StampsAreOrdered(h: seq<Round>, j: nat, k: nat)
    requires Clocked(h) && j <= k < |h|
    ensures h[j].stampAt <= h[k].stampAt
  {
    if j < k {
      StampsAreOrdered(h, j, k - 1);
      assert h[k - 1].doneAt <= h[k - 1 + 1].startAt;
    }
  }

  // ---------------------------------------------------------------------------
  // False alarms.

  /**
   A target that was not unhealthy and whose full check would pass raises a failure alert exactly
   when the context is found done at one of the points that check passes through: at the start of
   an attempt, in a probe, or in a wait.
   */
  lemma FalseAlarmExactly(p: Policy, s: State, job: Job, full: Job, round: Round)
    requires job.maxAttempts >= 1 && job.env.Coherent() && Full(job, full) && full.Result().success
    requires round.result == job.Result() && s.status != Unhealthy
    ensures var n := full.Result().attempts;
            Decide(p, s, round) == Some(Failure)
            <==> || (exists k: nat :: 1 <= k <= n && job.env.doneAtTop(k))
                 || (exists k: nat :: 1 <= k <= n && job.env.aborted(k).Some?)
                 || (exists k: nat :: 1 <= k < n && job.env.doneInWait(k))
  {
    hide Job.Result;
    CancellationFailsPassingCheckExactly(job, full);
  }

  /** Cancellation never makes a false all-clear: a recovery means the full check passes. */
  lemma RecoveryIsGenuine(p: Policy, s: State, job: Job, full: Job, round: Round)
    requires job.maxAttempts >= 1 && job.env.Coherent() && Full(job, full) && round.result == job.Result()
    requires Decide(p, s, round) == Some(Recovery)
    ensures full.Result().success && round.result == full.Result()
  {
    hide Job.Result;
    CancelledPassIsGenuine(job, full);
  }

  /**
   The extreme case, a failure alert with no failed probe at all: exactly when the context is
   done before the first probe.
   */
  lemma AlarmWithoutFailedProbeExactly(p: Policy, s: State, job: Job, round: Round)
    requires job.maxAttempts >= 1 && round.result == job.Result() && s.status != Unhealthy
    ensures (&& Decide(p, s, round) == Some(Failure)
             && forall j: nat :: 1 <= j <= job.ProbesAt(round.result.attempts) ==> job.Passes(j))
            <==> job.env.doneAtTop(1)
  {
    EveryExitIsCoherent(job);
    FailureWithoutFailedProbeExactly(job);
  }
}
