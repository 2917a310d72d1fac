/**
 `CheckAll` as a concurrent system: one goroutine per target, a counting semaphore, and a
 context that may be cancelled at any moment. Every theorem is about every interleaving.
 */
module CheckAll {
  import opened Domain
  import opened Checker

  /** Where one goroutine stands. `seen` is the partial result of the `Check` it is executing. */
  datatype Phase =
    | Waiting
    | AtTop(k: nat, seen: CheckResult)
    | Cleared(k: nat, seen: CheckResult)
    | Probing(k: nat, seen: CheckResult)
    | Sleeping(k: nat, seen: CheckResult)
    | Returned(result: CheckResult)
    | Written
    | Done

  datatype State = State(phases: seq<Phase>, results: seq<Option<CheckResult>>, slots: nat, cancelled: bool)

  datatype Action =
    | Acquire(i: nat)
    | GiveUp(i: nat)
    | Look(i: nat)
    | Start(i: nat)
    | Finish(i: nat)
    | Interrupt(i: nat, abort: Abort)
    | Wake(i: nat)
    | BreakOff(i: nat)
    | Write(i: nat)
    | Release(i: nat)
    | Cancel

  /**
   The jobs fix what the network answers to each attempt of each target that is left to run its
   course. Cancellation is up to the system: from then on a probe in flight may still get that
   answer, or be ended by its context with any error. `gaveUpAt` is the clock of a goroutine that
   never got a slot.
   */
  datatype Setup = Setup(jobs: seq<Job>, maxAttempts: nat, concurrency: nat, gaveUpAt: seq<int>) {
    ghost predicate Valid() {
      && maxAttempts >= 1 && concurrency >= 1 && |gaveUpAt| == |jobs|
      && forall i :: 0 <= i < |jobs| ==> jobs[i].maxAttempts == maxAttempts && jobs[i].env.Uncancelled()
    }

    function Init(): State {
      State(seq(|jobs|, i => Waiting), seq(|jobs|, i => None), 0, false)
    }
  }

  /** The result of a goroutine cancelled before it got a slot. */
  function GivenUp(job: Job, at: int): CheckResult {
    CheckResult(job.target, false, 0, Some(Cancelled), 0, at, 0, None)
  }

  predicate Enabled(c: Setup, s: State, a: Action) {
    if a.Cancel? then !s.cancelled
    else
      && a.i < |s.phases| == |s.results| == |c.jobs| == |c.gaveUpAt|
      && match a
         case Acquire(i) => s.phases[i].Waiting? && s.slots < c.concurrency
         case GiveUp(i) => s.phases[i].Waiting? && s.cancelled
         case Look(i) => s.phases[i].AtTop?
         case Start(i) => s.phases[i].Cleared?
         case Finish(i) => s.phases[i].Probing?
         case Interrupt(i, _) => s.phases[i].Probing? && s.cancelled
         case Wake(i) => s.phases[i].Sleeping?
         case BreakOff(i) => s.phases[i].Sleeping? && s.cancelled
         case Write(i) => s.phases[i].Returned?
         case Release(i) => s.phases[i].Written? && s.slots > 0
  }

  /** What attempt `k` says when the context ends its probe. */
  function SeenAborted(job: Job, k: nat, abort: Abort): CheckResult {
    job.(env := job.env.(aborted := (j: nat) => if j == k then Some(abort) else None)).Seen(k)
  }

  /** The phase goroutine `a.i` moves to. */
  function Move(c: Setup, s: State, a: Action): Phase
    requires !a.Cancel? && Enabled(c, s, a)
  {
    var p, job := s.phases[a.i], c.jobs[a.i];
    match a
    case Acquire(_) => AtTop(1, job.Blank())
    case GiveUp(_) => Done
    case Look(_) => if s.cancelled then Returned(p.seen.(error := Some(Cancelled), attempts := p.k)) else Cleared(p.k, p.seen)
    case Start(_) => Probing(p.k, p.seen)
    case Finish(_) =>
      if job.Passes(p.k) || job.Expires(p.k) || p.k >= c.maxAttempts then Returned(job.Seen(p.k))
      else Sleeping(p.k, job.Seen(p.k))
    case Interrupt(_, abort) =>
      if p.k >= c.maxAttempts then Returned(SeenAborted(job, p.k, abort)) else Sleeping(p.k, SeenAborted(job, p.k, abort))
    case Wake(_) => AtTop(p.k + 1, p.seen)
    case BreakOff(_) => Returned(p.seen.(error := Some(Cancelled)))
    case Write(_) => Written
    case Release(_) => Done
  }

  function Apply(c: Setup, s: State, a: Action): State
    requires Enabled(c, s, a)
  {
    if a.Cancel? then s.(cancelled := true)
    else
      var moved := s.(phases := s.phases[a.i := Move(c, s, a)]);
      match a
      case Acquire(_) => moved.(slots := s.slots + 1)
      case Release(_) => moved.(slots := s.slots - 1)
      case GiveUp(i) => moved.(results := s.results[i := Some(GivenUp(c.jobs[i], c.gaveUpAt[i]))])
      case Write(i) => moved.(results := s.results[i := Some(s.phases[i].result)])
      case _ => moved
  }

  predicate Legal(c: Setup, s: State, run: seq<Action>)
    decreases |run|
  {
    run == [] || (Enabled(c, s, run[0]) && Legal(c, Apply(c, s, run[0]), run[1..]))
  }

  function After(c: Setup, s: State, run: seq<Action>): State
    requires Legal(c, s, run)
    decreases |run|
  {
    if run == [] then s else After(c, Apply(c, s, run[0]), run[1..])
  }

  // ---------------------------------------------------------------------------
  // Sums over goroutines.

  function Sum(f: Phase -> nat, ps: seq<Phase>): nat {
    if ps == [] then 0 else f(ps[0]) + Sum(f, ps[1..])
  }

  lemma {:induction false} SumUpdate(f: Phase -> nat, ps: seq<Phase>, i: nat, p: Phase)
    requires i < |ps|
    ensures Sum(f, ps[i := p]) + f(ps[i]) == Sum(f, ps) + f(p)
  {
    if i == 0 {
      assert ps[0 := p][1..] == ps[1..];
    } else {
      SumUpdate(f, ps[1..], i - 1, p);
      assert ps[i := p][1..] == ps[1..][i - 1 := p];
    }
  }

  lemma {:induction false} SumLeq(f: Phase -> nat, g: Phase -> nat, ps: seq<Phase>)
    requires forall p :: f(p) <= g(p)
    ensures Sum(f, ps) <= Sum(g, ps)
  {
    if ps != [] {
      SumLeq(f, g, ps[1..]);
    }
  }

  lemma {:induction false} SumOfEqual(f: Phase -> nat, ps: seq<Phase>, x: nat)
    requires forall i :: 0 <= i < |ps| ==> f(ps[i]) == x
    ensures Sum(f, ps) == |ps| * x
  {
    if ps != [] {
      SumOfEqual(f, ps[1..], x);
    }
  }

  /** 1 for a goroutine that holds a semaphore slot. */
  function Holding(p: Phase): nat {
    if p.Waiting? || p.Done? then 0 else 1
  }

  /** 1 for a goroutine past the cancellation test of its attempt, with the probe still to come. */
  function AboutToProbe(p: Phase): nat {
    if p.Cleared? then 1 else 0
  }

  /** The steps a goroutine has left at most, with `m` attempts per check. */
  function StepsLeft(m: nat): Phase -> nat {
    (p: Phase) =>
      match p
      case Waiting => 4 * m + 2
      case AtTop(k, _) => 5 + 4 * Remaining(m, k)
      case Cleared(k, _) => 4 + 4 * Remaining(m, k)
      case Probing(k, _) => 3 + 4 * Remaining(m, k)
      case Sleeping(k, _) => 2 + 4 * Remaining(m, k)
      case Returned(_) => 2
      case Written => 1
      case Done => 0
  }

  function Remaining(m: nat, k: nat): nat { if k < m then m - k else 0 }

  function Measure(c: Setup, s: State): nat {
    Sum(StepsLeft(c.maxAttempts), s.phases) + if s.cancelled then 0 else 1
  }

  // ---------------------------------------------------------------------------
  // What holds in every reachable state.

  /**
   How the context of one check may be done: as seen at the start of attempt `top` and later, in
   the wait after attempt `wait` and later, and by the probe of attempt `probe`, if `abort` says so.
   */
  datatype Cut = Cut(top: nat, wait: nat, probe: nat, abort: Option<Abort>) {
    predicate Coherent() {
      top <= wait + 1 && (abort.Some? ==> top <= probe + 1)
    }

    /** The same check with its context done like this. */
    function Of(job: Job): Job {
      job.(env := job.env.(
             doneAtTop := (j: nat) => j >= top,
             doneInWait := (j: nat) => j >= wait,
             aborted := (j: nat) => if j == probe then abort else None))
    }
  }

  /** A result some cancelled execution of `Check` returns. */
  ghost predicate CutShort(job: Job, r: CheckResult) {
    exists cut: Cut :: cut.Coherent() && r == cut.Of(job).Result()
  }

  /** A result `Check` returns, cut short or not. */
  ghost predicate Checked(job: Job, cancelled: bool, r: CheckResult) {
    r == job.Result() || (cancelled && CutShort(job, r))
  }

  ghost predicate Acceptable(c: Setup, i: nat, cancelled: bool, r: CheckResult)
    requires i < |c.jobs| == |c.gaveUpAt|
  {
    Checked(c.jobs[i], cancelled, r) || (cancelled && r == GivenUp(c.jobs[i], c.gaveUpAt[i]))
  }

  ghost predicate FailedBefore(job: Job, k: nat) {
    forall j: nat :: 1 <= j < k ==> job.GoesOn(j)
  }

  /** `r` is what attempt `k`, the first to be aborted, left behind. */
  ghost predicate AbortedIn(job: Job, k: nat, r: CheckResult) {
    1 <= k && FailedBefore(job, k) && exists abort: Abort :: r == SeenAborted(job, k, abort)
  }

  ghost predicate PhaseOk(c: Setup, s: State, i: nat)
    requires i < |c.jobs| == |c.gaveUpAt| == |s.phases| == |s.results|
  {
    var job := c.jobs[i];
    match s.phases[i]
    case Waiting => s.results[i].None?
    case AtTop(k, r) =>
      && s.results[i].None? && 1 <= k <= c.maxAttempts
      && (|| (FailedBefore(job, k) && r == job.SeenBefore(k))
          || (s.cancelled && AbortedIn(job, k - 1, r)))
    case Cleared(k, r) => s.results[i].None? && 1 <= k <= c.maxAttempts && FailedBefore(job, k) && r == job.SeenBefore(k)
    case Probing(k, r) => s.results[i].None? && 1 <= k <= c.maxAttempts && FailedBefore(job, k) && r == job.SeenBefore(k)
    case Sleeping(k, r) =>
      && s.results[i].None? && 1 <= k < c.maxAttempts
      && (|| (FailedBefore(job, k + 1) && r == job.Seen(k))
          || (s.cancelled && AbortedIn(job, k, r)))
    case Returned(r) => s.results[i].None? && Checked(job, s.cancelled, r)
    case Written => s.results[i].Some? && Checked(job, s.cancelled, s.results[i].value)
    case Done => s.results[i].Some? && Acceptable(c, i, s.cancelled, s.results[i].value)
  }

  /** Slots in use are goroutines holding one, never more than the concurrency; every goroutine is where its phase says. */
  ghost predicate Inv(c: Setup, s: State) {
    && |s.phases| == |s.results| == |c.jobs| == |c.gaveUpAt|
    && s.slots == Sum(Holding, s.phases) <= c.concurrency
    && forall i: nat :: i < |c.jobs| ==> PhaseOk(c, s, i)
  }

  lemma InitInv(c: Setup)
    requires c.Valid()
    ensures Inv(c, c.Init())
  {
    SumOfEqual(Holding, c.Init().phases, 0);
  }

  /** A cut before attempt `k` leaves the attempts before it as they were. */
  lemma UntouchedBefore(job: Job, cut: Cut, k: nat)
    requires job.env.Uncancelled() && FailedBefore(job, k)
    requires cut.top >= k && cut.wait >= k && (cut.abort.Some? ==> cut.probe >= k)
    ensures FailedBefore(cut.Of(job), k)
  {
    forall j: nat | 1 <= j < k ensures cut.Of(job).GoesOn(j) {
      assert job.GoesOn(j);
    }
  }

  lemma CutShortAtTop(job: Job, k: nat)
    requires 1 <= k <= job.maxAttempts && FailedBefore(job, k) && job.env.Uncancelled()
    ensures CutShort(job, job.SeenBefore(k).(error := Some(Cancelled), attempts := k))
  {
    var cut := Cut(k, k, k, None);
    UntouchedBefore(job, cut, k);
    StopIsUnique(cut.Of(job), k);
    assert cut.Coherent() && cut.Of(job).Result() == job.SeenBefore(k).(error := Some(Cancelled), attempts := k);
  }

  lemma CutShortInWait(job: Job, k: nat)
    requires 1 <= k < job.maxAttempts && FailedBefore(job, k + 1) && job.env.Uncancelled()
    ensures CutShort(job, job.Seen(k).(error := Some(Cancelled)))
  {
    var cut := Cut(k + 1, k, k, None);
    UntouchedBefore(job, cut, k);
    assert job.GoesOn(k);
    StopIsUnique(cut.Of(job), k);
    assert cut.Coherent() && cut.Of(job).Result() == job.Seen(k).(error := Some(Cancelled));
  }

  /** The probe of attempt `k` is aborted: the check returns at once, in the wait, or at the next test. */
  lemma CutShortInProbe(job: Job, k: nat, r: CheckResult)
    requires k <= job.maxAttempts && AbortedIn(job, k, r) && job.env.Uncancelled()
    ensures k == job.maxAttempts ==> CutShort(job, r)
    ensures k < job.maxAttempts ==> CutShort(job, r.(error := Some(Cancelled)))
    ensures k < job.maxAttempts ==> CutShort(job, r.(error := Some(Cancelled), attempts := k + 1))
  {
    var abort: Abort :| r == SeenAborted(job, k, abort);
    var atOnce, later := Cut(k + 1, k, k, Some(abort)), Cut(k + 1, k + 1, k, Some(abort));
    UntouchedBefore(job, atOnce, k);
    UntouchedBefore(job, later, k);
    assert r == atOnce.Of(job).Seen(k) == later.Of(job).Seen(k);
    StopIsUnique(atOnce.Of(job), k);
    assert atOnce.Coherent() && CutShort(job, atOnce.Of(job).Result());
    if k < job.maxAttempts {
      assert later.Of(job).GoesOn(k);
      StopIsUnique(later.Of(job), k + 1);
      assert later.Coherent() && CutShort(job, later.Of(job).Result());
    }
  }

  lemma FinishedIsResult(job: Job, k: nat)
    requires 1 <= k <= job.maxAttempts && FailedBefore(job, k) && job.env.Uncancelled()
    ensures job.Passes(k) || job.Expires(k) || k >= job.maxAttempts ==> job.Result() == job.Seen(k)
    ensures !(job.Passes(k) || job.Expires(k) || k >= job.maxAttempts) ==> FailedBefore(job, k + 1)
  {
    if job.Passes(k) || job.Expires(k) || k >= job.maxAttempts {
      StopIsUnique(job, k);
    }
  }

  lemma LookOk(job: Job, k: nat, r: CheckResult)
    requires 1 <= k <= job.maxAttempts && job.env.Uncancelled()
    requires (FailedBefore(job, k) && r == job.SeenBefore(k)) || AbortedIn(job, k - 1, r)
    ensures CutShort(job, r.(error := Some(Cancelled), attempts := k))
  {
    hide CutShort, FailedBefore, Job.SeenBefore;
    if AbortedIn(job, k - 1, r) {
      CutShortInProbe(job, k - 1, r);
    } else {
      CutShortAtTop(job, k);
    }
  }

  lemma BreakOffOk(job: Job, k: nat, r: CheckResult)
    requires 1 <= k < job.maxAttempts && job.env.Uncancelled()
    requires (FailedBefore(job, k + 1) && r == job.Seen(k)) || AbortedIn(job, k, r)
    ensures CutShort(job, r.(error := Some(Cancelled)))
  {
    hide CutShort, FailedBefore, Job.Seen;
    if AbortedIn(job, k, r) {
      CutShortInProbe(job, k, r);
    } else {
      CutShortInWait(job, k);
    }
  }

  lemma InterruptOk(job: Job, k: nat, abort: Abort)
    requires 1 <= k <= job.maxAttempts && FailedBefore(job, k) && job.env.Uncancelled()
    ensures AbortedIn(job, k, SeenAborted(job, k, abort))
    ensures k == job.maxAttempts ==> CutShort(job, SeenAborted(job, k, abort))
  {
    hide CutShort, FailedBefore, SeenAborted;
    CutShortInProbe(job, k, SeenAborted(job, k, abort));
  }

  /** The goroutine that moves stays where its phase says. */
  lemma MoverOk(c: Setup, s: State, a: Action)
    requires c.Valid() && Enabled(c, s, a) && !a.Cancel? && PhaseOk(c, s, a.i)
    ensures PhaseOk(c, Apply(c, s, a), a.i)
  {
    hide CutShort, AbortedIn, SeenAborted, Sum, Job.GoesOn, Job.Seen, Job.SeenBefore, Job.Result, Job.Passes, Job.Expires;
    var p, job := s.phases[a.i], c.jobs[a.i];
    match a
    case Acquire(_) => BlankBeforeFirst(job);
    case Look(_) => if s.cancelled { LookOk(job, p.k, p.seen); }
    case Finish(_) => FinishedIsResult(job, p.k);
    case Interrupt(_, abort) => InterruptOk(job, p.k, abort);
    case Wake(_) => SeenBeforeNext(job, p.k);
    case BreakOff(_) => BreakOffOk(job, p.k, p.seen);
    case _ =>
  }

  lemma BlankBeforeFirst(job: Job)
    ensures job.SeenBefore(1) == job.Blank() && FailedBefore(job, 1)
  {
  }

  lemma SeenBeforeNext(job: Job, k: nat)
    requires k >= 1
    ensures job.SeenBefore(k + 1) == job.Seen(k)
  {
  }

  lemma SlotsFollowHolder(c: Setup, s: State, a: Action)
    requires Enabled(c, s, a) && !a.Cancel?
    ensures Apply(c, s, a).slots + Holding(s.phases[a.i]) == s.slots + Holding(Move(c, s, a))
    ensures Apply(c, s, a).slots > s.slots ==> s.slots < c.concurrency
    ensures Apply(c, s, a).slots <= s.slots + 1
  {
    hide Job.Blank, Job.Seen, Job.Passes, Job.Expires;
  }

  lemma StepPreservesInv(c: Setup, s: State, a: Action)
    requires c.Valid() && Inv(c, s) && Enabled(c, s, a)
    ensures Inv(c, Apply(c, s, a))
  {
    hide CutShort, FailedBefore, Job.Seen, Job.SeenBefore, Job.Result, Move, Holding;
    var t := Apply(c, s, a);
    if a.Cancel? {
      forall i: nat | i < |c.jobs| ensures PhaseOk(c, t, i) {
        assert PhaseOk(c, s, i);
      }
    } else {
      forall i: nat | i < |c.jobs| ensures PhaseOk(c, t, i) {
        assert PhaseOk(c, s, i);
        if i == a.i {
          MoverOk(c, s, a);
        }
      }
      SumUpdate(Holding, s.phases, a.i, Move(c, s, a));
      SlotsFollowHolder(c, s, a);
    }
  }

  /** Safety: every state of every run satisfies the invariant, from any state that does. */
  lemma {:induction false} RunPreservesInv(c: Setup, s: State, run: seq<Action>)
    requires c.Valid() && Inv(c, s) && Legal(c, s, run)
    ensures Inv(c, After(c, s, run))
    decreases |run|
  {
    if run != [] {
      StepPreservesInv(c, s, run[0]);
      RunPreservesInv(c, Apply(c, s, run[0]), run[1..]);
    }
  }

  /** Safety from the start: slots in use never exceed the concurrency, in any interleaving. */
  lemma SlotsNeverExceedConcurrency(c: Setup, run: seq<Action>)
    requires c.Valid() && Legal(c, c.Init(), run)
    ensures Inv(c, After(c, c.Init(), run))
    ensures After(c, c.Init(), run).slots == Sum(Holding, After(c, c.Init(), run).phases) <= c.concurrency
  {
    InitInv(c);
    RunPreservesInv(c, c.Init(), run);
  }

  // ---------------------------------------------------------------------------
  // Progress.

  predicate AllDone(s: State) {
    forall i :: 0 <= i < |s.phases| ==> s.phases[i].Done?
  }

  /** No deadlock: until every goroutine is done, some goroutine can step, whether or not the context is cancelled. */
  lemma SomeStepIsEnabled(c: Setup, s: State)
    requires c.Valid() && Inv(c, s) && !AllDone(s)
    ensures exists a: Action :: !a.Cancel? && Enabled(c, s, a)
  {
    if i: nat :| i < |s.phases| && Holding(s.phases[i]) == 1 {
      var a := match s.phases[i]
        case AtTop(_, _) => Look(i)
        case Cleared(_, _) => Start(i)
        case Probing(_, _) => Finish(i)
        case Sleeping(_, _) => Wake(i)
        case Returned(_) => Write(i)
        case _ => Release(i);
      HolderMeansSlot(s.phases, i);
      assert Enabled(c, s, a);
    } else {
      SumOfEqual(Holding, s.phases, 0);
      var i: nat :| i < |s.phases| && !s.phases[i].Done?;
      assert Holding(s.phases[i]) == 0;
      assert Enabled(c, s, Acquire(i));
    }
  }

  lemma {:induction false} HolderMeansSlot(ps: seq<Phase>, i: nat)
    requires i < |ps| && Holding(ps[i]) == 1
    ensures Sum(Holding, ps) >= 1
  {
    if i > 0 {
      HolderMeansSlot(ps[1..], i - 1);
    }
  }

  /** Every step brings the end closer. */
  lemma StepDecreasesMeasure(c: Setup, s: State, a: Action)
    requires c.Valid() && Inv(c, s) && Enabled(c, s, a)
    ensures Measure(c, Apply(c, s, a)) < Measure(c, s)
  {
    hide Job.Blank, Job.Seen, Job.SeenBefore, Job.Passes, Job.Expires, FailedBefore, Acceptable;
    if !a.Cancel? {
      var f := StepsLeft(c.maxAttempts);
      assert PhaseOk(c, s, a.i);
      SumUpdate(f, s.phases, a.i, Move(c, s, a));
      assert f(Move(c, s, a)) < f(s.phases[a.i]);
    }
  }

  lemma {:induction false} RunDecreasesMeasure(c: Setup, s: State, run: seq<Action>)
    requires c.Valid() && Inv(c, s) && Legal(c, s, run)
    ensures |run| + Measure(c, After(c, s, run)) <= Measure(c, s)
    decreases |run|
  {
    if run != [] {
      StepPreservesInv(c, s, run[0]);
      StepDecreasesMeasure(c, s, run[0]);
      RunDecreasesMeasure(c, Apply(c, s, run[0]), run[1..]);
    }
  }

  /** Every run ends: with M attempts per check, n targets take at most n * (4M + 2) steps, plus the cancellation. */
  lemma RunsAreBounded(c: Setup, run: seq<Action>)
    requires c.Valid() && Legal(c, c.Init(), run)
    ensures |run| <= |c.jobs| * (4 * c.maxAttempts + 2) + 1
  {
    InitInv(c);
    SumOfEqual(StepsLeft(c.maxAttempts), c.Init().phases, 4 * c.maxAttempts + 2);
    RunDecreasesMeasure(c, c.Init(), run);
  }

  // ---------------------------------------------------------------------------
  // Results.

  /** The call returns once all goroutines are done; then it has filled every result. */
  function Collected(s: State): seq<CheckResult>
    requires forall i :: 0 <= i < |s.results| ==> s.results[i].Some?
  {
    seq(|s.results|, i requires 0 <= i < |s.results| => s.results[i].value)
  }

  /** What `CheckAll` is for: `Check` of each target, in order. */
  function InOrder(c: Setup): seq<CheckResult> {
    seq(|c.jobs|, i requires 0 <= i < |c.jobs| => c.jobs[i].Result())
  }

  lemma {:induction false} NeverCancelled(c: Setup, s: State, run: seq<Action>)
    requires Legal(c, s, run) && !s.cancelled && Cancel !in run
    ensures !After(c, s, run).cancelled
    decreases |run|
  {
    if run != [] {
      NeverCancelled(c, Apply(c, s, run[0]), run[1..]);
    }
  }

  /** Without cancellation every interleaving yields the checks of the targets in order. */
  lemma ScheduleIndependence(c: Setup, run: seq<Action>)
    requires c.Valid() && Legal(c, c.Init(), run) && Cancel !in run
    requires AllDone(After(c, c.Init(), run))
    ensures var s := After(c, c.Init(), run);
            && (forall i :: 0 <= i < |s.results| ==> s.results[i].Some?)
            && Collected(s) == InOrder(c)
  {
    var s := After(c, c.Init(), run);
    InitInv(c);
    RunPreservesInv(c, c.Init(), run);
    NeverCancelled(c, c.Init(), run);
    forall i: nat | i < |c.jobs| ensures s.results[i] == Some(c.jobs[i].Result()) {
      assert PhaseOk(c, s, i);
    }
  }

  /** With cancellation every result is still filled: by a full check, by one cut short, or by giving up the wait for a slot. */
  lemma CancelledRunsFillEveryResult(c: Setup, run: seq<Action>, i: nat)
    requires c.Valid() && Legal(c, c.Init(), run) && i < |c.jobs|
    requires AllDone(After(c, c.Init(), run))
    ensures var s := After(c, c.Init(), run);
            && |s.results| == |c.jobs|
            && s.results[i].Some?
            && Acceptable(c, i, s.cancelled, s.results[i].value)
  {
    InitInv(c);
    RunPreservesInv(c, c.Init(), run);
    assert PhaseOk(c, After(c, c.Init(), run), i);
  }

  lemma CheckedIsCoherent(job: Job, cancelled: bool, r: CheckResult)
    requires job.maxAttempts >= 1 && Checked(job, cancelled, r)
    ensures (r.success <==> r.error.None?) && 1 <= r.attempts <= job.maxAttempts && r.target == job.target
  {
    EveryExitIsCoherent(job);
    if r != job.Result() {
      var cut: Cut :| cut.Coherent() && r == cut.Of(job).Result();
      EveryExitIsCoherent(cut.Of(job));
    }
  }

  ghost predicate ZeroAttempts(s: State, i: nat) {
    i < |s.results| && s.results[i].Some? && s.results[i].value.attempts == 0
  }

  /** Only giving up makes a result with zero attempts. */
  lemma {:induction false} ZeroAttemptsMeanGivenUp(c: Setup, s: State, run: seq<Action>, i: nat)
    requires c.Valid() && Inv(c, s) && Legal(c, s, run) && i < |c.jobs|
    ensures ZeroAttempts(After(c, s, run), i) <==> ZeroAttempts(s, i) || GiveUp(i) in run
    decreases |run|
  {
    if run != [] {
      hide Checked, Move, Holding, Sum;
      var a := run[0];
      assert PhaseOk(c, s, i);
      if a == Write(i) {
        CheckedIsCoherent(c.jobs[i], s.cancelled, s.phases[i].result);
      }
      StepPreservesInv(c, s, a);
      ZeroAttemptsMeanGivenUp(c, Apply(c, s, a), run[1..], i);
      assert GiveUp(i) in run <==> a == GiveUp(i) || GiveUp(i) in run[1..];
    }
  }

  /**
   Whatever was cancelled when, a result is a success exactly when it carries no error, and
   zero attempts mean exactly that its goroutine gave up waiting for a slot.
   */
  lemma EveryResultIsCoherent(c: Setup, run: seq<Action>, i: nat)
    requires c.Valid() && Legal(c, c.Init(), run) && i < |c.jobs|
    requires AllDone(After(c, c.Init(), run))
    ensures var s := After(c, c.Init(), run);
            && |s.results| == |c.jobs|
            && s.results[i].Some?
            && var r := s.results[i].value;
               && (r.success <==> r.error.None?)
               && (r.attempts == 0 <==> GiveUp(i) in run)
               && r.attempts <= c.maxAttempts
               && r.target == c.jobs[i].target
               && (GiveUp(i) in run ==> r == CheckResult(r.target, false, 0, Some(Cancelled), 0, c.gaveUpAt[i], 0, None))
  {
    hide Checked;
    CancelledRunsFillEveryResult(c, run, i);
    InitInv(c);
    ZeroAttemptsMeanGivenUp(c, c.Init(), run, i);
    var s := After(c, c.Init(), run);
    if Checked(c.jobs[i], s.cancelled, s.results[i].value) {
      CheckedIsCoherent(c.jobs[i], s.cancelled, s.results[i].value);
    }
  }

  /** A step in which the check of target `i` finds its context done, or never begins for it. */
  predicate CutsOff(s: State, a: Action, i: nat) {
    a == GiveUp(i) || a == BreakOff(i) || (a.Interrupt? && a.i == i) || (a == Look(i) && s.cancelled)
  }

  predicate CutOffIn(c: Setup, s: State, run: seq<Action>, i: nat)
    requires Legal(c, s, run)
    decreases |run|
  {
    run != [] && (CutsOff(s, run[0], i) || CutOffIn(c, Apply(c, s, run[0]), run[1..], i))
  }

  /** Goroutine `i` is where it would be had nothing been cancelled. */
  ghost predicate Untouched(c: Setup, s: State, i: nat)
    requires i < |c.jobs| == |c.gaveUpAt| == |s.phases| == |s.results|
  {
    PhaseOk(c, s.(cancelled := false), i)
  }

  /** Goroutine `i` has failed or will: there is no way from here to a pass. */
  predicate Doomed(s: State, i: nat)
    requires i < |s.phases| == |s.results|
  {
    && s.cancelled
    && match s.phases[i]
       case AtTop(_, _) => true
       case Sleeping(_, _) => true
       case Returned(r) => !r.success
       case Written => s.results[i].Some? && !s.results[i].value.success
       case Done => s.results[i].Some? && !s.results[i].value.success
       case _ => false
  }

  lemma UntouchedStep(c: Setup, s: State, a: Action, i: nat)
    requires c.Valid() && Inv(c, s) && Enabled(c, s, a) && i < |c.jobs|
    requires Untouched(c, s, i) && !CutsOff(s, a, i)
    ensures Untouched(c, Apply(c, s, a), i)
  {
    hide Checked, FailedBefore, AbortedIn, SeenAborted, Job.Seen, Job.SeenBefore, Job.Passes, Job.Expires;
    if !a.Cancel? && a.i == i {
      var calm := s.(cancelled := false);
      assert Enabled(c, calm, a);
      MoverOk(c, calm, a);
      assert Apply(c, calm, a) == Apply(c, s, a).(cancelled := false);
    }
  }

  lemma DoomedStep(c: Setup, s: State, a: Action, i: nat)
    requires c.Valid() && Inv(c, s) && Enabled(c, s, a) && i < |c.jobs|
    requires Doomed(s, i) || CutsOff(s, a, i)
    ensures Inv(c, Apply(c, s, a)) && Doomed(Apply(c, s, a), i)
  {
    hide Inv, Checked, FailedBefore, AbortedIn, Job.Seen, Job.SeenBefore, Job.Passes, Job.Expires, SeenAborted, Job.Blank;
    StepPreservesInv(c, s, a);
    SizesFit(c, s);
    SizesFit(c, Apply(c, s, a));
    if a.Interrupt? {
      AbortedFails(c.jobs[a.i], s.phases[a.i].k, a.abort);
    } else if Apply(c, s, a).phases[i].Returned? {
      ReturnsCoherently(c, Apply(c, s, a), i);
    }
  }

  lemma AbortedFails(job: Job, k: nat, abort: Abort)
    ensures !SeenAborted(job, k, abort).success
  {
  }

  lemma SizesFit(c: Setup, s: State)
    requires Inv(c, s)
    ensures |s.phases| == |s.results| == |c.jobs| == |c.gaveUpAt|
  {
  }

  lemma ReturnsCoherently(c: Setup, s: State, i: nat)
    requires c.Valid() && Inv(c, s) && i < |c.jobs| && s.phases[i].Returned?
    ensures s.phases[i].result.success <==> s.phases[i].result.error.None?
  {
    assert PhaseOk(c, s, i);
    CheckedIsCoherent(c.jobs[i], s.cancelled, s.phases[i].result);
  }

  lemma {:induction false} CutOffDecides(c: Setup, s: State, run: seq<Action>, i: nat)
    requires c.Valid() && Inv(c, s) && Legal(c, s, run) && i < |c.jobs|
    ensures Inv(c, After(c, s, run))
    ensures Doomed(s, i) || CutOffIn(c, s, run, i) ==> Doomed(After(c, s, run), i)
    ensures Untouched(c, s, i) && !CutOffIn(c, s, run, i) ==> Untouched(c, After(c, s, run), i)
    decreases |run|
  {
    hide Inv, Untouched, Enabled, Doomed, CutsOff;
    SizesFit(c, s);
    if run != [] {
      var t := Apply(c, s, run[0]);
      StepPreservesInv(c, s, run[0]);
      SizesFit(c, t);
      if Doomed(s, i) || CutsOff(s, run[0], i) {
        DoomedStep(c, s, run[0], i);
      }
      if Untouched(c, s, i) && !CutsOff(s, run[0], i) {
        UntouchedStep(c, s, run[0], i);
      }
      CutOffDecides(c, t, run[1..], i);
    }
  }

  /**
   When cancellation spoils a result: a target's check passes exactly when the full check does and
   no step of the run cut it off. And a check that was not cut off is the full check.
   */
  lemma CutOffExactly(c: Setup, run: seq<Action>, i: nat)
    requires c.Valid() && Legal(c, c.Init(), run) && i < |c.jobs|
    requires AllDone(After(c, c.Init(), run))
    ensures var s := After(c, c.Init(), run);
            && |s.results| == |c.jobs|
            && s.results[i].Some?
            && (s.results[i].value.success <==> c.jobs[i].Result().success && !CutOffIn(c, c.Init(), run, i))
            && (!CutOffIn(c, c.Init(), run, i) ==> s.results[i].value == c.jobs[i].Result())
  {
    InitInv(c);
    CutOffDecides(c, c.Init(), run, i);
    assert AllDone(After(c, c.Init(), run));
  }

  predicate WritesResult(a: Action, i: nat) { a == Write(i) || a == GiveUp(i) }

  /** The writes to `results[i]` in a run. */
  function Writes(run: seq<Action>, i: nat): nat {
    if run == [] then 0 else (if WritesResult(run[0], i) then 1 else 0) + Writes(run[1..], i)
  }

  /** Each result is written at most once, by its own goroutine, and never changes afterwards. */
  lemma {:induction false} ResultsAreWrittenOnce(c: Setup, s: State, run: seq<Action>, i: nat)
    requires c.Valid() && Inv(c, s) && Legal(c, s, run) && i < |c.jobs|
    ensures i < |s.results| == |After(c, s, run).results|
    ensures Writes(run, i) == (if After(c, s, run).results[i].Some? then 1 else 0) - (if s.results[i].Some? then 1 else 0)
    ensures s.results[i].Some? ==> After(c, s, run).results[i] == s.results[i]
    decreases |run|
  {
    if run != [] {
      var a := run[0];
      assert PhaseOk(c, s, i);
      StepPreservesInv(c, s, a);
      ResultsAreWrittenOnce(c, Apply(c, s, a), run[1..], i);
    }
  }

  /** A slot is only given back once its goroutine's result is written. */
  lemma WriteBeforeRelease(c: Setup, run: seq<Action>, i: nat)
    requires c.Valid() && Legal(c, c.Init(), run)
    requires Enabled(c, After(c, c.Init(), run), Release(i))
    ensures Writes(run, i) == 1 && After(c, c.Init(), run).results[i].Some?
  {
    InitInv(c);
    RunPreservesInv(c, c.Init(), run);
    assert PhaseOk(c, After(c, c.Init(), run), i);
    ResultsAreWrittenOnce(c, c.Init(), run, i);
  }

  // ---------------------------------------------------------------------------
  // Cancellation.

  function ProbesStarted(run: seq<Action>): nat {
    if run == [] then 0 else (if run[0].Start? then 1 else 0) + ProbesStarted(run[1..])
  }

  function ProbesStartedBy(run: seq<Action>, i: nat): nat {
    if run == [] then 0 else (if run[0] == Start(i) then 1 else 0) + ProbesStartedBy(run[1..], i)
  }

  lemma {:induction false} FewProbesAfterCancel(c: Setup, s: State, run: seq<Action>)
    requires c.Valid() && Inv(c, s) && s.cancelled && Legal(c, s, run)
    ensures ProbesStarted(run) <= Sum(AboutToProbe, s.phases)
    decreases |run|
  {
    if run != [] {
      var a := run[0];
      StepPreservesInv(c, s, a);
      FewProbesAfterCancel(c, Apply(c, s, a), run[1..]);
      SumUpdate(AboutToProbe, s.phases, a.i, Move(c, s, a));
    }
  }

  lemma {:induction false} ProbesAfterCancelBy(c: Setup, s: State, run: seq<Action>, i: nat)
    requires c.Valid() && Inv(c, s) && s.cancelled && Legal(c, s, run) && i < |c.jobs|
    ensures i < |s.phases| && ProbesStartedBy(run, i) <= AboutToProbe(s.phases[i])
    decreases |run|
  {
    if run != [] {
      StepPreservesInv(c, s, run[0]);
      ProbesAfterCancelBy(c, Apply(c, s, run[0]), run[1..], i);
    }
  }

  /**
   Once the context is cancelled at most one probe per slot then held is still started, so no
   more than the concurrency in total, and none by a goroutine without a slot at that moment:
   one that acquires a slot later never probes.
   */
  lemma CancellationStopsProbes(c: Setup, before: seq<Action>, after: seq<Action>)
    requires c.Valid() && Legal(c, c.Init(), before)
    requires Enabled(c, After(c, c.Init(), before), Cancel)
    requires Legal(c, Apply(c, After(c, c.Init(), before), Cancel), after)
    ensures ProbesStarted(after) <= After(c, c.Init(), before).slots <= c.concurrency
    ensures forall i: nat :: i < |c.jobs| ==>
              i < |After(c, c.Init(), before).phases| && ProbesStartedBy(after, i) <= Holding(After(c, c.Init(), before).phases[i])
  {
    var s := After(c, c.Init(), before);
    InitInv(c);
    RunPreservesInv(c, c.Init(), before);
    StepPreservesInv(c, s, Cancel);
    FewProbesAfterCancel(c, Apply(c, s, Cancel), after);
    SumLeq(AboutToProbe, Holding, s.phases);
    forall i: nat | i < |c.jobs| ensures ProbesStartedBy(after, i) <= Holding(s.phases[i]) {
      ProbesAfterCancelBy(c, Apply(c, s, Cancel), after, i);
    }
  }
}
