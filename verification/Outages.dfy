/**
 The shape of a target's alerts over a whole run: outages open with a failure, go on with
 reminders and close with a recovery, and there are as many of them as the checks say.
 */
module Outages {
  import opened Domain
  import opened AlertMachine

  /** The attempted alerts of a log, without the silent rounds. */
  function Attempted(log: seq<Option<AlertKind>>): seq<AlertKind> {
    if log == [] then []
    else
      var last := log[|log| - 1];
      Attempted(log[..|log| - 1]) + if last.Some? then [last.value] else []
  }

  function Reminders(n: nat): seq<AlertKind> {
    if n == 0 then [] else Reminders(n - 1) + [Reminder]
  }

  /** An outage with `n` reminders that is still open. */
  function Open(n: nat): seq<AlertKind> { [Failure] + Reminders(n) }

  /** Closed outages in a row, the i-th with `reminders[i]` reminders. */
  function Closed(reminders: seq<nat>): seq<AlertKind> {
    if reminders == [] then []
    else Closed(reminders[..|reminders| - 1]) + Open(reminders[|reminders| - 1]) + [Recovery]
  }

  ghost predicate IsClosed(a: seq<AlertKind>) {
    exists reminders: seq<nat> :: a == Closed(reminders)
  }

  ghost predicate IsOpen(a: seq<AlertKind>) {
    exists reminders: seq<nat>, n: nat :: a == Closed(reminders) + Open(n)
  }

  /** Every run attempts (Failure Reminder* Recovery)*, cut inside an outage exactly while the target is unhealthy. */
  lemma {:induction false} AlertGrammar(p: Policy, h: seq<Round>)
    ensures var s, a := StateAfter(p, h), Attempted(Log(p, h));
            if s.status == Unhealthy then IsOpen(a) else IsClosed(a)
  {
    if h == [] {
      assert Closed([]) == Attempted(Log(p, h));
    } else {
      var g := h[..|h| - 1];
      AlertGrammar(p, g);
      var a, b := Attempted(Log(p, g)), Attempted(Log(p, h));
      assert Log(p, h)[..|h| - 1] == Log(p, g);
      match Log(p, h)[|h| - 1]
      case None =>
      case Some(Failure) =>
        var reminders :| a == Closed(reminders);
        assert b == Closed(reminders) + Open(0);
      case Some(Reminder) =>
        var reminders, n: nat :| a == Closed(reminders) + Open(n);
        assert b == Closed(reminders) + Open(n + 1);
      case Some(Recovery) =>
        var reminders, n: nat :| a == Closed(reminders) + Open(n);
        var longer := reminders + [n];
        assert longer[..|reminders|] == reminders;
        assert b == Closed(longer);
    }
  }

  // ---------------------------------------------------------------------------
  // Counting.

  function Count(log: seq<Option<AlertKind>>, kind: AlertKind): nat {
    multiset(log)[Some(kind)]
  }

  /** Rounds `i` to `j` fail and cannot be extended on either side. */
  predicate IsFailedRun(h: seq<Round>, i: nat, j: nat) {
    && i <= j < |h|
    && (forall k: nat :: i <= k <= j ==> Fails(h, k))
    && (i > 0 ==> !Fails(h, i - 1))
    && (j + 1 < |h| ==> !Fails(h, j + 1))
  }

  function FailedRuns(h: seq<Round>): set<(nat, nat)> {
    set i: nat, j: nat | i <= j < |h| && IsFailedRun(h, i, j) :: (i, j)
  }

  /** The rounds that pass right after a failed one. */
  function Recoveries(h: seq<Round>): set<nat> {
    set k: nat | k < |h| && EndsOutage(h, k)
  }

  lemma CountOnAppend(log: seq<Option<AlertKind>>, kind: AlertKind)
    requires log != []
    ensures Count(log, kind) == Count(log[..|log| - 1], kind) + if log[|log| - 1] == Some(kind) then 1 else 0
  {
    assert log == log[..|log| - 1] + [log[|log| - 1]];
  }

  lemma {:induction false} RunStart(h: seq<Round>, j: nat) returns (i: nat)
    requires j < |h| && Fails(h, j)
    ensures i <= j && (forall k: nat :: i <= k <= j ==> Fails(h, k)) && (i > 0 ==> !Fails(h, i - 1))
  {
    if j == 0 || !Fails(h, j - 1) {
      i := j;
    } else {
      i := RunStart(h, j - 1);
    }
  }

  lemma StartIsUnique(h: seq<Round>, a: nat, b: nat, j: nat)
    requires a <= j < |h| && b <= j
    requires (forall k: nat :: a <= k <= j ==> Fails(h, k)) && (a > 0 ==> !Fails(h, a - 1))
    requires (forall k: nat :: b <= k <= j ==> Fails(h, k)) && (b > 0 ==> !Fails(h, b - 1))
    ensures a == b
  {
  }

  /** Runs that end before the last round of a prefix are not affected by what follows it. */
  lemma RunOnPrefix(h: seq<Round>, i: nat, j: nat)
    requires i <= j && j + 2 < |h| + 1
    requires j + 1 < |h| - 1 || !Fails(h, |h| - 1)
    ensures IsFailedRun(h[..|h| - 1], i, j) <==> IsFailedRun(h, i, j)
  {
    var g := h[..|h| - 1];
    assert forall k: nat :: k < |g| ==> Fails(g, k) == Fails(h, k);
  }

  lemma PassAddsNoRun(h: seq<Round>)
    requires h != [] && !Fails(h, |h| - 1)
    ensures FailedRuns(h) == FailedRuns(h[..|h| - 1])
  {
    forall i: nat, j: nat | i <= j < |h| ensures (i, j) in FailedRuns(h) <==> (i, j) in FailedRuns(h[..|h| - 1]) {
      if j + 1 < |h| { RunOnPrefix(h, i, j); }
    }
    assert FailedRuns(h) == FailedRuns(h[..|h| - 1]);
  }

  lemma FirstFailAddsRun(h: seq<Round>)
    requires h != [] && StartsOutage(h, |h| - 1)
    ensures FailedRuns(h) == FailedRuns(h[..|h| - 1]) + {(|h| - 1, |h| - 1)}
    ensures (|h| - 1, |h| - 1) !in FailedRuns(h[..|h| - 1])
  {
    var n: nat := |h| - 1;
    var g := h[..n];
    forall i: nat, j: nat | i <= j < |h|
      ensures (i, j) in FailedRuns(h) <==> (i, j) in FailedRuns(g) + {(n, n)}
    {
      assert n > 0 ==> Fails(g, n - 1) == Fails(h, n - 1);
      if j + 1 < n {
        RunOnPrefix(h, i, j);
      } else if j + 1 == n {
        assert !IsFailedRun(h, i, j) && !IsFailedRun(g, i, j);
      } else {
        if IsFailedRun(h, i, n) {
          StartIsUnique(h, i, n, n);
        }
      }
    }
    assert FailedRuns(h) == FailedRuns(g) + {(n, n)};
  }

  lemma NextFailExtendsRun(h: seq<Round>) returns (start: nat)
    requires h != [] && ContinuesOutage(h, |h| - 1)
    ensures (start, |h| - 2) in FailedRuns(h[..|h| - 1])
    ensures (start, |h| - 1) !in FailedRuns(h[..|h| - 1])
    ensures FailedRuns(h) == FailedRuns(h[..|h| - 1]) - {(start, |h| - 2)} + {(start, |h| - 1)}
  {
    var n: nat := |h| - 1;
    var g := h[..n];
    start := RunStart(h, n - 1);
    assert forall k: nat :: k < n ==> Fails(g, k) == Fails(h, k);
    assert IsFailedRun(g, start, n - 1);
    assert IsFailedRun(h, start, n) by {
      forall k: nat | start <= k <= n ensures Fails(h, k) { }
    }
    forall i: nat, j: nat | i <= j < |h|
      ensures (i, j) in FailedRuns(h) <==> (i, j) in FailedRuns(g) - {(start, n - 1)} + {(start, n)}
    {
      if j + 1 < n {
        RunOnPrefix(h, i, j);
      } else {
        if IsFailedRun(h, i, n) {
          StartIsUnique(h, i, start, n);
        }
        if IsFailedRun(g, i, n - 1) {
          StartIsUnique(g, i, start, n - 1);
        }
        assert !IsFailedRun(h, i, n - 1);
      }
    }
    assert FailedRuns(h) == FailedRuns(g) - {(start, n - 1)} + {(start, n)};
  }

  lemma RecoveryCountOnAppend(h: seq<Round>)
    requires h != []
    ensures |Recoveries(h)| == |Recoveries(h[..|h| - 1])| + if EndsOutage(h, |h| - 1) then 1 else 0
  {
    var n: nat := |h| - 1;
    var g := h[..n];
    forall k: nat | k < |g| ensures EndsOutage(g, k) == EndsOutage(h, k) {
      assert k > 0 ==> Fails(g, k - 1) == Fails(h, k - 1);
    }
    assert Recoveries(h) == Recoveries(g) + if EndsOutage(h, n) then {n} else {};
  }

  lemma RunCountOnAppend(h: seq<Round>)
    requires h != []
    ensures |FailedRuns(h)| == |FailedRuns(h[..|h| - 1])| + if StartsOutage(h, |h| - 1) then 1 else 0
  {
    if !Fails(h, |h| - 1) {
      PassAddsNoRun(h);
    } else if StartsOutage(h, |h| - 1) {
      FirstFailAddsRun(h);
    } else {
      var start := NextFailExtendsRun(h);
    }
  }

  /**
   Over every run: one failure per maximal run of failed checks, one recovery per pass after
   a failure, and one more failure than recoveries exactly while the target is unhealthy.
   */
  lemma {:induction false} AlertCounts(p: Policy, h: seq<Round>)
    ensures Count(Log(p, h), Failure) == |FailedRuns(h)|
    ensures Count(Log(p, h), Recovery) == |Recoveries(h)|
    ensures Count(Log(p, h), Failure) - Count(Log(p, h), Recovery)
            == if StateAfter(p, h).status == Unhealthy then 1 else 0
  {
    if h == [] {
      assert FailedRuns(h) == {} && Recoveries(h) == {};
    } else {
      hide FailedRuns, Recoveries, Count, ReminderDue;
      var n: nat := |h| - 1;
      var g, log := h[..n], Log(p, h);
      AlertCounts(p, g);
      assert log[..n] == Log(p, g);
      CountOnAppend(log, Failure);
      CountOnAppend(log, Recovery);
      StatusIsLatestCheck(p, g);
      assert n > 0 ==> Fails(g, n - 1) == Fails(h, n - 1);
      RunCountOnAppend(h);
      RecoveryCountOnAppend(h);
    }
  }
}
