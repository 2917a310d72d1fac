/**
 One health check: up to `maxAttempts` probes with backoff between them, cut short by a
 pass, by an expiring certificate, or by cancellation, which the loop looks for before each
 probe and in each wait, and which aborts a probe in flight.
 */
module Checker {
  import opened Domain
  import opened Arithmetic
  import opened Backoff
  import Float64
  import Int64

  const DEFAULT_CONCURRENCY := 10
  const DEFAULT_RETRY := RetryConfig(3, SECOND, 10 * SECOND, Float64.Finite(2.0))

  datatype Response = Response(statusCode: int, latency: int, certNotAfter: Option<int>)

  /** What the network did in one attempt, and the clock when the certificate is looked at. */
  datatype Exchange = Exchange(response: Response, error: Option<Error>, now: int)

  datatype Outcome = Outcome(response: Response, error: Option<Error>)

  predicate CertInWindow(target: Target, x: Exchange) {
    && target.certExpiryWarning > 0
    && x.response.certNotAfter.Some?
    && Int64.Saturate(x.response.certNotAfter.value - x.now) < target.certExpiryWarning
  }

  /** One attempt. A TCP connect observes nothing but how long it took and whether it worked. */
  function Probe(parse: UrlParser, target: Target, x: Exchange): (o: Outcome)
    ensures o.error.None? <==>
            && x.error.None?
            && (!target.IsTcp(parse) ==> x.response.statusCode == target.expectedStatus && !CertInWindow(target, x))
    ensures x.error.None? ==>
              (o.error.Some? && o.error.value.CertExpiring?
               <==> !target.IsTcp(parse) && x.response.statusCode == target.expectedStatus && CertInWindow(target, x))
    ensures x.error.Some? ==> o.error == x.error
    ensures o.response == if target.IsTcp(parse) then Response(0, x.response.latency, None) else x.response
  {
    if target.IsTcp(parse) then
      Outcome(Response(0, x.response.latency, None), x.error)
    else if x.error.Some? then
      Outcome(x.response, x.error)
    else if x.response.statusCode != target.expectedStatus then
      Outcome(x.response, Some(StatusMismatch(target.expectedStatus, x.response.statusCode)))
    else if CertInWindow(target, x) then
      var u := parse(target.url);
      var host := if u.Some? then u.value.hostname else target.url;
      Outcome(x.response, Some(CertExpiring(host, x.response.certNotAfter.value)))
    else
      Outcome(x.response, None)
  }

  /**
   The whole verdict of one attempt, from the target and the exchange alone. A TCP target passes
   when the connection does. Any other passes when there was an answer with the expected status,
   and no certificate in it that runs out within the warning window of the target.
   */
  lemma ProbeVerdictExactly(parse: UrlParser, t: Target, x: Exchange)
    requires t.certExpiryWarning < 0x8000_0000_0000_0000
    ensures var o, u, r := Probe(parse, t, x), parse(t.url), x.response;
            if u.Some? && u.value.scheme == "tcp" then
              o == Outcome(Response(0, r.latency, None), x.error)
            else
              && o.response == r
              && (x.error.Some? ==> o.error == x.error)
              && (x.error.None? && r.statusCode != t.expectedStatus ==>
                    o.error == Some(StatusMismatch(t.expectedStatus, r.statusCode)))
              && (x.error.None? && r.statusCode == t.expectedStatus ==>
                    if t.certExpiryWarning > 0 && r.certNotAfter.Some? && r.certNotAfter.value - x.now < t.certExpiryWarning
                    then o.error == Some(CertExpiring(if u.Some? then u.value.hostname else t.url, r.certNotAfter.value))
                    else o.error.None?)
  {
  }

  /** A probe ended by its context: the transport reports an error of its own, and whatever it had observed. */
  datatype Abort = Abort(response: Response, reason: string) {
    function AsExchange(): Exchange { Exchange(response, Some(RequestFailed(reason)), 0) }
  }

  /**
   Everything a check does not decide itself: the network by attempt, whether the context
   is done when attempt `k` begins and in the wait after it, which probes it aborts, the clock,
   and the platform's floating-point arithmetic.
   */
  datatype Env = Env(
    exchanges: nat -> Exchange,
    doneAtTop: nat -> bool,
    doneInWait: nat -> bool,
    aborted: nat -> Option<Abort>,
    startedAt: int,
    platform: Float64.Platform)
  {
    /** What attempt `k` gets to see: the network's answer, unless the context ends the probe first. */
    function Answer(k: nat): Exchange {
      if aborted(k).Some? then aborted(k).value.AsExchange() else exchanges(k)
    }

    ghost predicate Uncancelled() {
      && (forall k :: !doneAtTop(k))
      && (forall k :: !doneInWait(k))
      && (forall k :: aborted(k).None?)
    }

    /** A context that is done stays done. */
    ghost predicate Coherent() {
      && (forall j: nat, k: nat :: j < k && doneAtTop(j) ==> doneAtTop(k))
      && (forall j: nat, k: nat :: j < k && doneInWait(j) ==> doneAtTop(k))
      && (forall j: nat, k: nat :: j < k && aborted(j).Some? ==> doneAtTop(k))
    }
  }

  /** One call of `Check`. Attempts are numbered from 1. */
  datatype Job = Job(target: Target, maxAttempts: int, parse: UrlParser, env: Env) {

    function Attempt(k: nat): Outcome { Probe(parse, target, env.Answer(k)) }

    predicate Passes(k: nat) { Attempt(k).error.None? }

    predicate Expires(k: nat) { Attempt(k).error.Some? && Attempt(k).error.value.CertExpiring? }

    /** Attempt `k` runs, fails, and is followed by another one. */
    predicate GoesOn(k: nat) {
      !env.doneAtTop(k) && !Passes(k) && !Expires(k) && k < maxAttempts && !env.doneInWait(k)
    }

    /** The check ends in attempt `k`. */
    ghost predicate StopsAt(k: nat) {
      1 <= k && !GoesOn(k) && forall j: nat :: 1 <= j < k ==> GoesOn(j)
    }

    function Blank(): CheckResult {
      CheckResult(target, false, 0, None, 0, env.startedAt, 0, None)
    }

    /** What attempt `k` alone says. */
    function Seen(k: nat): CheckResult {
      var r := Attempt(k).response;
      CheckResult(target, Passes(k), r.statusCode, Attempt(k).error, r.latency, env.startedAt, k, r.certNotAfter)
    }

    /** The latest observation before attempt `k`. */
    function SeenBefore(k: nat): CheckResult {
      if k <= 1 then Blank() else Seen(k - 1)
    }

    /** Attempt `k` fails and its context is done in the wait after it. */
    predicate EndsInWait(k: nat) {
      !env.doneAtTop(k) && !Passes(k) && !Expires(k) && k < maxAttempts && env.doneInWait(k)
    }

    /** The result of a check that ends in attempt `k`. */
    function ResultAt(k: nat): CheckResult {
      if env.doneAtTop(k) then SeenBefore(k).(error := Some(Cancelled), attempts := k)
      else if EndsInWait(k) then Seen(k).(error := Some(Cancelled))
      else Seen(k)
    }

    function FirstStop(k: nat): (stop: nat)
      ensures k <= stop && !GoesOn(stop) && forall j: nat :: k <= j < stop ==> GoesOn(j)
      decreases maxAttempts - k
    {
      if GoesOn(k) then FirstStop(k + 1) else k
    }

    /** The whole check as a function of its environment. */
    function Result(): CheckResult {
      ResultAt(FirstStop(1))
    }

    /** Probes started by a check that ends in attempt `k`. */
    function ProbesAt(k: nat): int {
      if env.doneAtTop(k) then k - 1 else k
    }

    /** Latencies of attempts 1 to `n`. */
    function LatencyTotal(n: nat): int {
      if n == 0 then 0 else LatencyTotal(n - 1) + env.Answer(n).response.latency
    }

    /**
     The attempt that decides when nothing is cancelled: the first that passes or meets an
     expiring certificate, else the last.
     */
    ghost predicate Decides(k: nat) {
      && 1 <= k <= maxAttempts
      && (Passes(k) || Expires(k) || k == maxAttempts)
      && forall j: nat :: 1 <= j < k ==> !Passes(j) && !Expires(j)
    }
  }

  /** The configured checker. Construction fills in what is not given and repairs a concurrency or an attempt count below one. */
  class Checker {
    const parse: UrlParser
    const retry: RetryConfig
    const concurrency: int

    constructor (parse: UrlParser, retry: Option<RetryConfig>, concurrency: Option<int>)
      ensures this.parse == parse
      ensures this.concurrency >= 1 && this.retry.maxAttempts >= 1
      ensures this.concurrency == if concurrency.Some? && concurrency.value >= 1 then concurrency.value else 10
      ensures retry.None? ==> this.retry == RetryConfig(3, SECOND, 10 * SECOND, Float64.Finite(2.0))
      ensures retry.Some? ==>
                this.retry == if retry.value.maxAttempts >= 1 then retry.value else retry.value.(maxAttempts := 1)
    {
      var r := if retry.Some? then retry.value else DEFAULT_RETRY;
      var n := if concurrency.Some? then concurrency.value else DEFAULT_CONCURRENCY;
      if n < 1 {
        n := DEFAULT_CONCURRENCY;
      }
      if r.maxAttempts < 1 {
        r := r.(maxAttempts := 1);
      }
      this.parse, this.retry, this.concurrency := parse, r, n;
    }

    function JobFor(target: Target, env: Env): Job {
      Job(target, retry.maxAttempts, parse, env)
    }

    /** Besides the result, reports the waits slept through and the number of probes started. */
    method Check(target: Target, env: Env) returns (result: CheckResult, slept: seq<int>, probes: nat)
      requires retry.maxAttempts >= 1
      ensures result.attempts >= 1 && JobFor(target, env).StopsAt(result.attempts)
      ensures result == JobFor(target, env).Result()
      ensures probes == JobFor(target, env).ProbesAt(result.attempts)
      ensures |slept| == result.attempts - 1
      ensures forall j :: 0 <= j < |slept| ==> slept[j] == Wait(env.platform, retry, j)
    {
      hide Next, Probe;
      ghost var job := JobFor(target, env);
      result := CheckResult(target, false, 0, None, 0, env.startedAt, 0, None);
      slept := [];
      probes := 0;
      var wait := retry.initialWait;
      var attempt := 1;
      while attempt <= retry.maxAttempts
        invariant 1 <= attempt <= retry.maxAttempts
        invariant result == job.SeenBefore(attempt) && !result.success
        invariant probes == attempt - 1 == |slept|
        invariant wait == Wait(env.platform, retry, attempt - 1)
        invariant forall j: nat :: 1 <= j < attempt ==> job.GoesOn(j)
        invariant job.FirstStop(1) == job.FirstStop(attempt)
        invariant forall j :: 0 <= j < |slept| ==> slept[j] == Wait(env.platform, retry, j)
      {
        if env.doneAtTop(attempt) {
          result := result.(error := Some(Cancelled), attempts := attempt);
          return;
        }
        var outcome := Probe(parse, target, env.Answer(attempt));
        probes := probes + 1;
        result := result.(attempts := attempt,
                          latency := outcome.response.latency,
                          actualStatus := outcome.response.statusCode,
                          certNotAfter := outcome.response.certNotAfter);
        if outcome.error.None? {
          result := result.(success := true, error := None);
          return;
        }
        result := result.(error := outcome.error);
        if outcome.error.value.CertExpiring? {
          return;
        }
        if attempt < retry.maxAttempts {
          if env.doneInWait(attempt) {
            result := result.(error := Some(Cancelled));
            return;
          }
          slept := slept + [wait];
          wait := Next(env.platform, retry, wait);
        } else {
          return;
        }
        attempt := attempt + 1;
      }
    }
  }

  // ---------------------------------------------------------------------------
  // What the result means.

  lemma StopIsUnique(job: Job, k: nat)
    requires job.StopsAt(k)
    ensures job.FirstStop(1) == k
  {
  }

  /**
   Without cancellation the check reports exactly its deciding attempt: nothing of an
   earlier attempt, its error included, survives.
   */
  lemma UncancelledCheckReportsDecidingAttempt(job: Job, k: nat)
    requires job.maxAttempts >= 1 && job.env.Uncancelled()
    ensures job.Decides(k) <==> k == job.Result().attempts
    ensures var r := job.Result(); var a := job.Attempt(r.attempts);
            && (r.success <==> a.error.None?)
            && r.error == a.error
            && r.timestamp == job.env.startedAt
            && r.actualStatus == a.response.statusCode
            && r.latency == a.response.latency
            && r.certNotAfter == a.response.certNotAfter
            && r.target == job.target
  {
    var f := job.FirstStop(1);
    assert f > 1 ==> job.GoesOn(f - 1);
    forall j: nat | 1 <= j < f ensures !job.Passes(j) && !job.Expires(j) {
      assert job.GoesOn(j);
    }
    assert job.Decides(f);
    if job.Decides(k) {
      assert k < f ==> job.GoesOn(k);
    }
  }

  /**
   On every exit, cancelled ones included: success holds exactly when there is no error, the
   attempts are between 1 and the maximum, and the probes started are the attempts or one less.
   */
  lemma EveryExitIsCoherent(job: Job)
    requires job.maxAttempts >= 1
    ensures var r := job.Result();
            && (r.success <==> r.error.None?)
            && 1 <= r.attempts <= job.maxAttempts
            && job.ProbesAt(r.attempts) in {r.attempts - 1, r.attempts}
            && (job.ProbesAt(r.attempts) == r.attempts - 1 <==> job.env.doneAtTop(r.attempts))
            && (r.success ==> job.ProbesAt(r.attempts) == r.attempts)
  {
    var f := job.FirstStop(1);
    assert f > 1 ==> job.GoesOn(f - 1);
  }

  /**
   A cancelled check says so, and otherwise reports the last attempt that was made, if any: the one
   before, when the context is found done at the start of an attempt, or the one waited after.
   */
  lemma CancelledCheckReportsLastAttempt(job: Job, k: nat)
    requires job.StopsAt(k)
    ensures job.env.doneAtTop(k) || job.EndsInWait(k) ==>
              var r := job.Result();
              var made := if job.env.doneAtTop(k) then k - 1 else k;
              && !r.success && r.error == Some(Cancelled) && r.attempts == k
              && r.target == job.target && r.timestamp == job.env.startedAt
              && if made == 0 then r.actualStatus == 0 && r.latency == 0 && r.certNotAfter.None?
                 else var seen := job.Attempt(made).response;
                      r.actualStatus == seen.statusCode && r.latency == seen.latency && r.certNotAfter == seen.certNotAfter
    ensures job.EndsInWait(k) <==>
              && !job.env.doneAtTop(k) && job.env.doneInWait(k) && k < job.maxAttempts
              && job.Attempt(k).error.Some? && !job.Attempt(k).error.value.CertExpiring?
  {
    StopIsUnique(job, k);
    assert k > 1 ==> job.GoesOn(k - 1);
  }

  /** A probe the context ends fails with the transport's own error, whatever the network would have said. */
  lemma AbortedAttemptFails(job: Job, k: nat)
    requires job.env.aborted(k).Some?
    ensures job.Attempt(k).error == Some(RequestFailed(job.env.aborted(k).value.reason))
    ensures job.Attempt(k).response.latency == job.env.aborted(k).value.response.latency
  {
  }

  /**
   A check that fails although none of its probes did: that is exactly a check whose context
   is done before its first probe.
   */
  lemma FailureWithoutFailedProbeExactly(job: Job)
    requires job.maxAttempts >= 1
    ensures var r := job.Result();
            (!r.success && forall j: nat :: 1 <= j <= job.ProbesAt(r.attempts) ==> job.Passes(j))
            <==> job.env.doneAtTop(1)
  {
    var f := job.FirstStop(1);
    var r := job.Result();
    if job.env.doneAtTop(1) {
      assert f == 1;
    } else if !r.success {
      if job.env.doneAtTop(f) {
        assert job.GoesOn(f - 1);
        assert !job.Passes(f - 1);
      } else {
        assert !job.Passes(f);
      }
    }
  }

  // ---------------------------------------------------------------------------
  // What cancellation does to it.

  /** `full` is the same check, of the same network, with nothing cancelled. */
  ghost predicate Full(job: Job, full: Job) {
    && full.env.Uncancelled()
    && full.target == job.target && full.maxAttempts == job.maxAttempts && full.parse == job.parse
    && full.env.exchanges == job.env.exchanges && full.env.startedAt == job.env.startedAt
  }

  /** A check that passes under cancellation is the full check. */
  lemma CancelledPassIsGenuine(job: Job, full: Job)
    requires job.maxAttempts >= 1 && job.env.Coherent() && Full(job, full)
    requires job.Result().success
    ensures full.Result() == job.Result()
  {
    EveryExitIsCoherent(job);
    var k := job.FirstStop(1);
    assert !job.env.doneAtTop(k) && job.Passes(k);
    forall j: nat | 1 <= j <= k ensures job.Attempt(j) == full.Attempt(j) {
      assert job.env.aborted(j).None?;
    }
    forall j: nat | 1 <= j < k ensures full.GoesOn(j) {
      assert job.GoesOn(j);
    }
    StopIsUnique(full, k);
  }

  /**
   A check that would pass in attempt `n` fails exactly when its context is found done at one of
   the points the full check passes through: at the start of an attempt, in a probe, or in a wait.
   As a done context stays done, that is when it is done by the start of attempt `n` or ends
   that attempt's probe.
   */
  lemma CancellationFailsPassingCheckExactly(job: Job, full: Job)
    requires job.maxAttempts >= 1 && job.env.Coherent() && Full(job, full)
    requires full.Result().success
    ensures var n := full.Result().attempts;
            && 1 <= n
            && (!job.Result().success
                <==> || (exists k: nat :: 1 <= k <= n && job.env.doneAtTop(k))
                     || (exists k: nat :: 1 <= k <= n && job.env.aborted(k).Some?)
                     || (exists k: nat :: 1 <= k < n && job.env.doneInWait(k)))
            && (!job.Result().success <==> job.env.doneAtTop(n) || job.env.aborted(n).Some?)
  {
    EveryExitIsCoherent(full);
    var n: nat := full.Result().attempts;
    assert n == full.FirstStop(1) && full.Passes(n);
    if job.Result().success {
      CancelledPassIsGenuine(job, full);
      assert job.FirstStop(1) == n && job.Passes(n) && !job.env.doneAtTop(n);
      forall k: nat | 1 <= k < n ensures !job.env.doneInWait(k) {
        assert job.GoesOn(k);
      }
    } else if !job.env.doneAtTop(n) && job.env.aborted(n).None? {
      forall j: nat | 1 <= j <= n ensures job.Attempt(j) == full.Attempt(j) {
        assert job.env.aborted(j).None?;
      }
      forall j: nat | 1 <= j < n ensures job.GoesOn(j) {
        assert full.GoesOn(j);
        assert !job.env.doneAtTop(j) && !job.env.doneInWait(j);
      }
      StopIsUnique(job, n);
      assert false;
    }
  }

  // ---------------------------------------------------------------------------
  // How long it takes.

  lemma {:induction false} LatencyTotalBounded(job: Job, n: nat, timeout: int)
    requires timeout >= 0
    requires forall k: nat :: job.env.Answer(k).response.latency <= timeout
    ensures job.LatencyTotal(n) <= n * timeout
  {
    if n > 0 {
      LatencyTotalBounded(job, n - 1, timeout);
      DistributeOne(n - 1, timeout);
    }
  }

  /**
   Probing plus backing off, for a check that ends in attempt `k`. A wait that cancellation ends
   early is charged in full, so this is the time the check takes at most.
   */
  function Duration(job: Job, retry: RetryConfig, k: nat): int
    requires k >= 1
  {
    job.LatencyTotal(job.ProbesAt(k)) + Total(job.env.platform, retry, if job.EndsInWait(k) then k else k - 1)
  }

  /** The latencies of the first `n` attempts. */
  function Latencies(job: Job, n: nat): seq<int> {
    seq(n, j requires 0 <= j < n => job.Attempt(j + 1).response.latency)
  }

  lemma {:induction false} LatenciesAddUp(job: Job, n: nat)
    ensures job.LatencyTotal(n) == Sum(Latencies(job, n))
  {
    if n > 0 {
      LatenciesAddUp(job, n - 1);
      assert job.Attempt(n).response.latency == job.env.Answer(n).response.latency;
      assert Latencies(job, n) == Latencies(job, n - 1) + [job.Attempt(n).response.latency];
      SumOnAppend(Latencies(job, n - 1), job.Attempt(n).response.latency);
    }
  }

  /** The duration is the probes that were started and the waits that were begun, one by one. */
  lemma DurationAddsUp(job: Job, retry: RetryConfig, k: nat)
    requires k >= 1
    ensures var probes, waits := if job.env.doneAtTop(k) then k - 1 else k, if job.EndsInWait(k) then k else k - 1;
            Duration(job, retry, k) == Sum(Latencies(job, probes)) + Sum(WaitTimes(job.env.platform, retry, waits))
  {
    LatenciesAddUp(job, job.ProbesAt(k));
    TotalAddsUp(job.env.platform, retry, if job.EndsInWait(k) then k else k - 1);
  }

  /** No check need be faster than that: one whose probes all run into their timeout takes exactly as long. */
  lemma DurationBoundIsAttained(job: Job, retry: RetryConfig, timeout: int)
    requires Accepted(retry) && job.maxAttempts == retry.maxAttempts && job.env.Uncancelled()
    requires forall k: nat :: k >= 1 ==> !job.Passes(k) && !job.Expires(k) && job.env.Answer(k).response.latency == timeout
    ensures job.Result().attempts == retry.maxAttempts
    ensures Duration(job, retry, retry.maxAttempts)
            == retry.maxAttempts * timeout + Total(job.env.platform, retry, retry.maxAttempts - 1)
  {
    hide Total, Job.LatencyTotal, Job.Passes, Job.Expires;
    StopIsUnique(job, retry.maxAttempts);
    EqualLatencies(job, retry.maxAttempts, timeout);
  }

  lemma {:induction false} EqualLatencies(job: Job, n: nat, timeout: int)
    requires forall k: nat :: k >= 1 ==> job.env.Answer(k).response.latency == timeout
    ensures job.LatencyTotal(n) == n * timeout
  {
    if n > 0 {
      EqualLatencies(job, n - 1, timeout);
      DistributeOne(n - 1, timeout);
    }
  }

  /**
   A check whose probes respect their timeout is over when every attempt has used up its
   timeout and every backoff has been slept: with any accepted configuration at most one
   maximal wait between attempts, and without overflow the ideal waits.
   */
  lemma DurationBounded(job: Job, retry: RetryConfig, timeout: int)
    requires Accepted(retry) && job.maxAttempts == retry.maxAttempts
    requires timeout >= 0 && forall k: nat :: job.env.Answer(k).response.latency <= timeout
    ensures var k := job.Result().attempts;
            && k >= 1
            && Duration(job, retry, k) <= retry.maxAttempts * timeout + Total(job.env.platform, retry, retry.maxAttempts - 1)
    ensures Total(job.env.platform, retry, retry.maxAttempts - 1) <= (retry.maxAttempts - 1) * retry.maxWait
    ensures job.env.platform.Rounds() && retry.multiplier.Finite? && Steady(job.env.platform, retry)
            && SleepsWithoutOverflow(job.env.platform, retry) ==>
              Total(job.env.platform, retry, retry.maxAttempts - 1) == IdealTotal(job.env.platform, retry, retry.maxAttempts - 1)
  {
    hide SleepsWithoutOverflow, IdealTotal, Total, Job.LatencyTotal, Steady, Float64.Platform.Rounds;
    var p := job.env.platform;
    EveryExitIsCoherent(job);
    var k: nat := job.Result().attempts;
    LatencyTotalBounded(job, job.ProbesAt(k), timeout);
    TotalGrows(p, retry, if job.EndsInWait(k) then k else k - 1, retry.maxAttempts - 1);
    TimesMonotone(job.ProbesAt(k), retry.maxAttempts, timeout);
    TotalBounded(p, retry, retry.maxAttempts - 1);
    if p.Rounds() && retry.multiplier.Finite? && Steady(p, retry) && SleepsWithoutOverflow(p, retry) {
      TotalIsIdeal(p, retry, retry.maxAttempts - 1);
    }
  }
}
