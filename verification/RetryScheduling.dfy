/**
 Aligning the queue's delayed retry with the recovery deadline (backend/analysis_job_retry.py).
 Seconds reported by a provider are reals; the queue itself is an input.
 */
module RetryScheduling {
  import opened Numbers
  import opened Wrappers
  import opened StageIdentity
  import opened RetryLedger
  import opened RetryHistory
  import opened StageHistory

  /** What a failure carries: its kind, the two finite waits it may report, and its receipt. */
  datatype Failure = Failure(availability: bool, retryWait: Option<real>, keyCooldown: Option<real>,
      attached: Option<Receipt>)

  /** What a saved job says it would wait by itself: nothing, a number of seconds, or an error. */
  datatype Interval = Unasked | Seconds(seconds: int) | Raises

  /** The queue when the retry is prepared. */
  datatype Queue = Unreachable | OtherJob | CurrentJob(saves: bool, interval: Interval)

  datatype Notice = Notice(retryAfter: int, scheduled: bool, exhausted: bool, retriesLeft: Option<int>, failed: bool)

  datatype Job = Job(retriesLeft: int, intervals: seq<int>, count: int, baseline: Option<seq<int>>, progress: Stored)

  function Ceil(x: real): int {
    -((-x).Floor)
  }

  /** At least a minute, and as long as the provider asks. */
  function ProviderWait(f: Failure): int {
    var wait := match f.retryWait case None => 60.0 case Some(w) => MaxReal(60.0, w);
    Ceil(match f.keyCooldown case None => wait case Some(w) => MaxReal(wait, w))
  }

  function Power2(n: nat): nat { if n == 0 then 1 else 2 * Power2(n - 1) }

  /** `min(1800, 300 * 2 ** min(stage_count - 1, 3))` */
  function Backoff(stageCount: int): int
    requires 1 <= stageCount
  {
    Min(1800, 300 * Power2(Min(stageCount - 1, 3)))
  }

  function Baseline(job: Job): seq<int> {
    match job.baseline
    case Some(intervals) => intervals
    case None => if job.intervals == [] then [60] else job.intervals
  }

  function AtLeast(wait: int, intervals: seq<int>): (r: seq<int>)
    ensures |r| == |intervals|
    ensures forall i | 0 <= i < |r| :: r[i] == Max(wait, intervals[i])
  {
    seq(|intervals|, i requires 0 <= i < |intervals| => Max(wait, intervals[i]))
  }

  function Count(job: Job): int { Max(0, job.count) + 1 }

  /** The job after an availability failure has been charged, before its intervals are renewed. */
  ghost function Charged(d: Digests, job: Job, f: Failure, id: string): (Job, int) {
    var charge := ChargeFailure(d, job.progress, f.attached, id, Count(job));
    (Job(Max(1, job.retriesLeft), job.intervals, Count(job), Some(Baseline(job)), charge.stored), charge.count)
  }

  ghost function Wait(d: Digests, job: Job, f: Failure, id: string, authoritative: bool): int {
    if authoritative && f.availability then
      CountInRange(d, job.progress, f.attached, id, Count(job));
      Max(ProviderWait(f), Backoff(Charged(d, job, f, id).1))
    else ProviderWait(f)
  }

  ghost function Renewed(d: Digests, job: Job, f: Failure, id: string, authoritative: bool): Job {
    var job1 := if authoritative && f.availability then Charged(d, job, f, id).0 else job;
    if job1.retriesLeft > 0 then
      job1.(baseline := Some(Baseline(job1)), intervals := AtLeast(Wait(d, job, f, id, authoritative), Baseline(job1)))
    else job1
  }

  function AtLeastInterval(wait: int, interval: Interval): int {
    if interval.Seconds? then Max(wait, interval.seconds) else wait
  }

  ghost function Prepared(d: Digests, job: Job, f: Failure, id: string, authoritative: bool, queue: Queue)
    : (Job, Notice)
  {
    match queue
    case Unreachable => (job, Notice(ProviderWait(f), false, false, None, true))
    case OtherJob => (job, Notice(ProviderWait(f), false, false, None, false))
    case CurrentJob(saves, interval) =>
      var wait := Wait(d, job, f, id, authoritative);
      var renewed := Renewed(d, job, f, id, authoritative);
      var left := renewed.retriesLeft;
      if left <= 0 then (renewed, Notice(wait, false, left == 0, Some(left), false))
      else if !saves || interval.Raises? then (renewed, Notice(wait, false, false, None, true))
      else (renewed, Notice(AtLeastInterval(wait, interval), true, false, Some(left), false))
  }

  /** The queue's job object, which the preparation edits before saving it. */
  class RqJob {
    var retriesLeft: int
    var intervals: seq<int>
    var count: int
    var baseline: Option<seq<int>>
    const ledger: ProgressMeta

    constructor (initial: Job)
      ensures View() == initial
      ensures fresh(ledger)
    {
      retriesLeft, intervals, count, baseline := initial.retriesLeft, initial.intervals, initial.count,
          initial.baseline;
      ledger := new ProgressMeta(initial.progress);
    }

    ghost function View(): Job
      reads this, ledger
    {
      Job(retriesLeft, intervals, count, baseline, ledger.progress)
    }

    method SetDefaultBaseline() returns (base: seq<int>)
      modifies this`baseline
      ensures base == old(Baseline(View()))
      ensures View() == old(View()).(baseline := Some(base))
    {
      if baseline.None? {
        baseline := Some(if intervals == [] then [60] else intervals);
      }
      base := baseline.value;
    }

    /** Charges the failure to its stage and renews the retry budget. */
    method ChargeAvailability(d: Digests, f: Failure, id: string) returns (stageCount: int)
      modifies this, ledger
      ensures (View(), stageCount) == Charged(d, old(View()), f, id)
    {
      count := Max(0, count) + 1;
      var _ := SetDefaultBaseline();
      stageCount := ledger.AvailabilityStageCount(d, f.attached, id, count);
      retriesLeft := Max(1, retriesLeft);
    }

    method PrepareAnalysisRetry(d: Digests, f: Failure, id: string, authoritative: bool, queue: Queue)
      returns (notice: Notice)
      modifies this, ledger
      ensures (View(), notice) == Prepared(d, old(View()), f, id, authoritative, queue)
    {
      var wait := ProviderWait(f);
      if !queue.CurrentJob? {
        return Notice(wait, false, false, None, queue.Unreachable?);
      }
      if authoritative && f.availability {
        CountInRange(d, ledger.progress, f.attached, id, Count(View()));
        var stageCount := ChargeAvailability(d, f, id);
        wait := Max(wait, Backoff(stageCount));
      }
      var remaining := retriesLeft;
      if remaining > 0 {
        var base := SetDefaultBaseline();
        intervals := AtLeast(wait, base);
        if !queue.saves {
          return Notice(wait, false, false, None, true);
        }
        match queue.interval {
          case Unasked =>
          case Seconds(seconds) => wait := Max(wait, seconds);
          case Raises => return Notice(wait, false, false, None, true);
        }
        return Notice(wait, true, false, Some(remaining), false);
      }
      return Notice(wait, false, remaining == 0, Some(remaining), false);
    }
  }

  // ----- one preparation

  lemma BackoffBounds(a: int, b: int)
    requires 1 <= a <= b
    ensures 300 <= Backoff(a) <= Backoff(b) <= 1800
    ensures Backoff(b) == if b == 1 then 300 else if b == 2 then 600 else if b == 3 then 1200 else 1800
  {
    assert Power2(0) == 1 && Power2(1) == 2;
    assert Power2(2) == 4 && Power2(3) == 8;
  }

  /** A retry never comes before the provider's own deadline, and never within a minute. */
  lemma WaitCoversProvider(d: Digests, job: Job, f: Failure, id: string, authoritative: bool, queue: Queue)
    ensures var notice := Prepared(d, job, f, id, authoritative, queue).1;
            && notice.retryAfter >= 60
            && (f.retryWait.Some? ==> notice.retryAfter as real >= f.retryWait.value)
            && (f.keyCooldown.Some? ==> notice.retryAfter as real >= f.keyCooldown.value)
            && (notice.scheduled && authoritative && f.availability ==> notice.retryAfter >= 300)
            && (notice.scheduled ==> queue.CurrentJob? && queue.saves && !queue.interval.Raises?
                                     && notice.retriesLeft.Some? && notice.retriesLeft.value > 0)
  {
    if authoritative && f.availability {
      CountInRange(d, job.progress, f.attached, id, Count(job));
      BackoffBounds(Charged(d, job, f, id).1, Charged(d, job, f, id).1);
    }
  }

  /** The provider wait is the least whole number of seconds that covers a minute and both reported waits. */
  lemma ProviderWaitIsLeast(f: Failure, seconds: int)
    ensures seconds >= ProviderWait(f) <==>
            && seconds >= 60
            && (f.retryWait.Some? ==> seconds as real >= f.retryWait.value)
            && (f.keyCooldown.Some? ==> seconds as real >= f.keyCooldown.value)
  {
    CeilIsLeast(match f.keyCooldown
                case None => (match f.retryWait case None => 60.0 case Some(w) => MaxReal(60.0, w))
                case Some(k) => MaxReal(match f.retryWait case None => 60.0 case Some(w) => MaxReal(60.0, w), k),
                    seconds);
  }

  lemma CeilIsLeast(x: real, n: int)
    ensures n >= Ceil(x) <==> n as real >= x
  {
    var y := -x;
    assert y.Floor as real <= y < (y.Floor + 1) as real;
  }

  /**
   The notice decided by its inputs: with the retries left once an availability failure has at
   least one, it is scheduled if the queue confirms, exhausted if none are left, failed if the
   queue cannot be read or the edit not be confirmed; and it waits for no more than it must.
   */
  lemma NoticeIff(d: Digests, job: Job, f: Failure, id: string, authoritative: bool, queue: Queue)
    ensures var (after, notice) := Prepared(d, job, f, id, authoritative, queue);
            var left := if authoritative && f.availability && job.retriesLeft < 1 then 1 else job.retriesLeft;
            && (notice.scheduled <==> queue.CurrentJob? && left > 0 && queue.saves && !queue.interval.Raises?)
            && (notice.exhausted <==> queue.CurrentJob? && left == 0)
            && (notice.failed <==>
                  || queue.Unreachable?
                  || (queue.CurrentJob? && left > 0 && !(queue.saves && !queue.interval.Raises?)))
            && (notice.retriesLeft == if queue.CurrentJob? && !notice.failed then Some(left) else None)
            && (after.retriesLeft == if queue.CurrentJob? then left else job.retriesLeft)
  {
  }

  /** What is edited: count, ledger and baseline for a charged failure, and nothing of a job that is not current. */
  lemma EditsIff(d: Digests, job: Job, f: Failure, id: string, authoritative: bool, queue: Queue)
    ensures var after := Prepared(d, job, f, id, authoritative, queue).0;
            var charge := ChargeFailure(d, job.progress, f.attached, id, if job.count < 0 then 1 else job.count + 1);
            && (!queue.CurrentJob? ==> after == job)
            && (queue.CurrentJob? && authoritative && f.availability ==>
                  && after.count == (if job.count < 0 then 1 else job.count + 1)
                  && after.progress == charge.stored && after.baseline == Some(Baseline(job)))
            && (queue.CurrentJob? && !(authoritative && f.availability) ==>
                  && after.count == job.count && after.progress == job.progress
                  && (job.retriesLeft <= 0 ==> after == job))
  {
  }

  /** The wait is the least that covers the provider and, for a charged failure, the backoff of its stage. */
  lemma WaitIsLeast(d: Digests, job: Job, f: Failure, id: string, authoritative: bool, queue: Queue, seconds: int)
    ensures var notice := Prepared(d, job, f, id, authoritative, queue).1;
            var charge := ChargeFailure(d, job.progress, f.attached, id, if job.count < 0 then 1 else job.count + 1);
            seconds >= notice.retryAfter <==>
            && seconds >= ProviderWait(f)
            && (queue.CurrentJob? && authoritative && f.availability ==> seconds >= StageWait(charge.count))
            && (notice.scheduled && queue.interval.Seconds? ==> seconds >= queue.interval.seconds)
  {
    NoticeWaits(d, job, f, id, authoritative, queue);
    if queue.CurrentJob? && authoritative && f.availability {
      ChargedWait(d, job, f, id);
    }
  }

  /** Five minutes, doubled for each further failure of the stage up to half an hour. */
  ghost function StageWait(stageCount: int): int {
    if stageCount <= 1 then 300 else if stageCount == 2 then 600 else if stageCount == 3 then 1200 else 1800
  }

  lemma ChargedWait(d: Digests, job: Job, f: Failure, id: string)
    requires f.availability
    ensures var charge := ChargeFailure(d, job.progress, f.attached, id, if job.count < 0 then 1 else job.count + 1);
            Wait(d, job, f, id, true) == Max(ProviderWait(f), StageWait(charge.count))
  {
    CountInRange(d, job.progress, f.attached, id, Count(job));
    BackoffBounds(Charged(d, job, f, id).1, Charged(d, job, f, id).1);
  }

  lemma NoticeWaits(d: Digests, job: Job, f: Failure, id: string, authoritative: bool, queue: Queue)
    ensures var notice := Prepared(d, job, f, id, authoritative, queue).1;
            var wait := if queue.CurrentJob? && authoritative && f.availability then Wait(d, job, f, id, true)
                        else ProviderWait(f);
            notice.retryAfter ==
            if notice.scheduled && queue.interval.Seconds? then Max(wait, queue.interval.seconds) else wait
  {
  }

  // ----- whole runs

  /**
   One failed attempt and what the queue makes of it once the error is raised again. `survives`
   says whether an edit that the preparation could not save reaches the stored job nevertheless,
   `retried` whether the queue retries although the notice could not confirm that.
   */
  datatype Attempt = Attempt(failure: Failure, authoritative: bool, queue: Queue, survives: bool, retried: bool)

  /** The stored job after the first n attempts. */
  ghost function JobAfter(d: Digests, id: string, initial: Job, attempts: seq<Attempt>, n: nat): Job
    requires n <= |attempts|
  {
    if n == 0 then initial else JobStep(d, id, JobAfter(d, id, initial, attempts, n - 1), attempts[n - 1])
  }

  /** The job the queue holds when it handles the error. */
  ghost function Edited(d: Digests, id: string, job: Job, a: Attempt): Job {
    if a.queue.CurrentJob? && (a.queue.saves || a.survives)
        then Prepared(d, job, a.failure, id, a.authoritative, a.queue).0 else job
  }

  ghost predicate Consumes(d: Digests, id: string, job: Job, a: Attempt) {
    || Prepared(d, job, a.failure, id, a.authoritative, a.queue).1.scheduled
    || (a.retried && Edited(d, id, job, a).retriesLeft > 0)
  }

  /** Every retry takes one from the budget. */
  ghost function JobStep(d: Digests, id: string, job: Job, a: Attempt): Job {
    var edited := Edited(d, id, job, a);
    if Consumes(d, id, job, a) then edited.(retriesLeft := edited.retriesLeft - 1) else edited
  }

  ghost function NoticeAt(d: Digests, id: string, initial: Job, attempts: seq<Attempt>, n: nat): Notice
    requires 0 < n <= |attempts|
  {
    var a := attempts[n - 1];
    Prepared(d, JobAfter(d, id, initial, attempts, n - 1), a.failure, id, a.authoritative, a.queue).1
  }

  lemma StepKeepsBaseline(d: Digests, id: string, job: Job, a: Attempt)
    ensures Baseline(JobStep(d, id, job, a)) == Baseline(job)
  {
  }

  lemma {:induction false} BaselineIsKept(d: Digests, id: string, initial: Job, attempts: seq<Attempt>, n: nat)
    requires n <= |attempts|
    ensures Baseline(JobAfter(d, id, initial, attempts, n)) == Baseline(initial)
  {
    if n > 0 {
      BaselineIsKept(d, id, initial, attempts, n - 1);
      StepKeepsBaseline(d, id, JobAfter(d, id, initial, attempts, n - 1), attempts[n - 1]);
    }
  }

  /**
   Waits never compound: after any number of attempts of any kind, a scheduled retry leaves
   every interval at the larger of its current wait and the interval the job started with.
   */
  lemma IntervalsNeverCompound(d: Digests, id: string, initial: Job, attempts: seq<Attempt>, n: nat)
    requires 0 < n <= |attempts|
    requires NoticeAt(d, id, initial, attempts, n).scheduled
    ensures var a := attempts[n - 1];
            var wait := Wait(d, JobAfter(d, id, initial, attempts, n - 1), a.failure, id, a.authoritative);
            && JobAfter(d, id, initial, attempts, n).intervals == AtLeast(wait, Baseline(initial))
            && wait <= NoticeAt(d, id, initial, attempts, n).retryAfter
  {
    BaselineIsKept(d, id, initial, attempts, n - 1);
  }

  /** The intervals a job starts with: the saved baseline, else its own intervals, else one minute. */
  lemma BaselineIsInitial(job: Job)
    ensures job.baseline.Some? ==> Baseline(job) == job.baseline.value
    ensures job.baseline.None? && job.intervals != [] ==> Baseline(job) == job.intervals
    ensures job.baseline.None? && job.intervals == [] ==> Baseline(job) == [60]
  {
  }

  /**
   In the initial job's own fields: after any attempts, a scheduled one leaves each interval at
   the larger of its wait and the initial one.
   */
  lemma IntervalsComeFromTheStart(d: Digests, id: string, initial: Job, attempts: seq<Attempt>, n: nat)
    requires 0 < n <= |attempts| && NoticeAt(d, id, initial, attempts, n).scheduled
    ensures var a := attempts[n - 1];
            var wait := Wait(d, JobAfter(d, id, initial, attempts, n - 1), a.failure, id, a.authoritative);
            var after := JobAfter(d, id, initial, attempts, n);
            var first := if initial.baseline.Some? then initial.baseline.value
                         else if initial.intervals != [] then initial.intervals else [60];
            && |after.intervals| == |first|
            && (forall i | 0 <= i < |first| :: after.intervals[i] == if wait < first[i] then first[i] else wait)
            && after.baseline == Some(first)
  {
    IntervalsNeverCompound(d, id, initial, attempts, n);
    BaselineIsInitial(initial);
    SavedBaseline(d, id, initial, attempts, n);
  }

  lemma SavedBaseline(d: Digests, id: string, initial: Job, attempts: seq<Attempt>, n: nat)
    requires 0 < n <= |attempts| && NoticeAt(d, id, initial, attempts, n).scheduled
    ensures JobAfter(d, id, initial, attempts, n).baseline == Some(Baseline(initial))
  {
    BaselineIsKept(d, id, initial, attempts, n - 1);
    StepSavesBaseline(d, id, JobAfter(d, id, initial, attempts, n - 1), attempts[n - 1]);
  }

  lemma StepSavesBaseline(d: Digests, id: string, job: Job, a: Attempt)
    requires Prepared(d, job, a.failure, id, a.authoritative, a.queue).1.scheduled
    ensures JobStep(d, id, job, a).baseline == Some(Baseline(job))
  {
  }

  // ----- the ledger of a run

  /** The failure is charged to its stage. */
  predicate Charges(a: Attempt) {
    a.authoritative && a.failure.availability && a.queue.CurrentJob?
  }

  /** And the charge is remembered. */
  predicate Kept(a: Attempt) {
    Charges(a) && (a.queue.saves || a.survives)
  }

  /** The receipts of the failures that were charged and remembered. */
  function KeptRun(attempts: seq<Attempt>, n: nat): Run
    requires n <= |attempts|
  {
    if n == 0 then []
    else KeptRun(attempts, n - 1) + (if Kept(attempts[n - 1]) then [attempts[n - 1].failure.attached] else [])
  }

  /** The run as attempt n sees it: the remembered failures and its own. */
  function RunAt(attempts: seq<Attempt>, n: nat): Run
    requires 0 < n <= |attempts|
  {
    KeptRun(attempts, n - 1) + [attempts[n - 1].failure.attached]
  }

  /** The ledger and the number of failures a job already holds. */
  function StartOf(job: Job): Start {
    Start(job.progress, Max(0, job.count))
  }

  lemma {:induction false} AfterPrefix(d: Digests, id: string, s: Start, run: Run, longer: Run, n: nat)
    requires n <= |run| && run <= longer
    ensures After(d, id, s, longer, n) == After(d, id, s, run, n)
  {
    if n > 0 {
      AfterPrefix(d, id, s, run, longer, n - 1);
    }
  }

  /** The job's metadata is what the run leads to from the start. */
  ghost predicate Holds(d: Digests, id: string, s: Start, run: Run, job: Job) {
    Max(0, job.count) == s.failures + |run| && job.progress == After(d, id, s, run, |run|)
  }

  /**
   A job's saved metadata is the ledger of its remembered failures, whatever it started
   with and whatever else happens to it.
   */
  lemma {:induction false} MetadataFollowsRun(d: Digests, id: string, initial: Job, attempts: seq<Attempt>, n: nat)
    requires n <= |attempts|
    ensures Holds(d, id, StartOf(initial), KeptRun(attempts, n), JobAfter(d, id, initial, attempts, n))
  {
    if n > 0 {
      MetadataFollowsRun(d, id, initial, attempts, n - 1);
      var job, a := JobAfter(d, id, initial, attempts, n - 1), attempts[n - 1];
      StepCharges(d, id, job, a);
      ChargedMatchesRun(d, id, StartOf(initial), job, attempts, n);
      assert KeptRun(attempts, n) == if Kept(a) then RunAt(attempts, n) else KeptRun(attempts, n - 1);
    }
  }

  lemma StepCharges(d: Digests, id: string, job: Job, a: Attempt)
    ensures var next := JobStep(d, id, job, a);
            if Kept(a) then
              && next.count == Count(job)
              && next.progress == ChargeFailure(d, job.progress, a.failure.attached, id, Count(job)).stored
            else next.count == job.count && next.progress == job.progress
  {
  }

  lemma ChargedMatchesRun(d: Digests, id: string, s: Start, job: Job, attempts: seq<Attempt>, n: nat)
    requires 0 < n <= |attempts| && Holds(d, id, s, KeptRun(attempts, n - 1), job)
    ensures var run := RunAt(attempts, n);
            var charge := ChargeFailure(d, job.progress, attempts[n - 1].failure.attached, id, Count(job));
            && Count(job) == s.failures + |run|
            && charge.count == CountAt(d, id, s, run, |run|) && charge.stored == After(d, id, s, run, |run|)
  {
    var before, run := KeptRun(attempts, n - 1), RunAt(attempts, n);
    AfterPrefix(d, id, s, before, run, |before|);
    LastOfRun(d, id, s, run, job.progress);
  }

  lemma LastOfRun(d: Digests, id: string, s: Start, run: Run, stored: Stored)
    requires run != [] && stored == After(d, id, s, run, |run| - 1)
    ensures var charge := ChargeFailure(d, stored, run[|run| - 1], id, s.failures + |run|);
            CountAt(d, id, s, run, |run|) == charge.count && After(d, id, s, run, |run|) == charge.stored
  {
  }

  /**
   Availability failures are never exhausted, whatever happened before. If the queue confirms,
   they are rescheduled; and each waits for the larger of the provider's deadline and the
   backoff of its stage count over the remembered run.
   */
  lemma AvailabilityIsRescheduled(d: Digests, id: string, initial: Job, attempts: seq<Attempt>, n: nat)
    requires 0 < n <= |attempts| && Charges(attempts[n - 1])
    ensures var s, run := StartOf(initial), RunAt(attempts, n); 1 <= CountAt(d, id, s, run, |run|) <= s.failures + |run|
    ensures var notice, a, run := NoticeAt(d, id, initial, attempts, n), attempts[n - 1], RunAt(attempts, n);
            var wait := Max(ProviderWait(a.failure), Backoff(CountAt(d, id, StartOf(initial), run, |run|)));
            && !notice.exhausted
            && (notice.scheduled <==> a.queue.saves && !a.queue.interval.Raises?)
            && (notice.failed <==> !notice.scheduled)
            && notice.retryAfter == (if notice.scheduled then AtLeastInterval(wait, a.queue.interval) else wait)
  {
    var job := JobAfter(d, id, initial, attempts, n - 1);
    MetadataFollowsRun(d, id, initial, attempts, n - 1);
    ChargedMatchesRun(d, id, StartOf(initial), job, attempts, n);
    AvailabilityNotice(d, id, job, attempts[n - 1]);
  }

  lemma AvailabilityNotice(d: Digests, id: string, job: Job, a: Attempt)
    requires Charges(a)
    ensures 1 <= Charged(d, job, a.failure, id).1 <= Count(job)
    ensures var notice := Prepared(d, job, a.failure, id, a.authoritative, a.queue).1;
            var wait := Max(ProviderWait(a.failure), Backoff(Charged(d, job, a.failure, id).1));
            && !notice.exhausted
            && (notice.scheduled <==> a.queue.saves && !a.queue.interval.Raises?)
            && (notice.failed <==> !notice.scheduled)
            && (notice.scheduled ==> notice.retriesLeft == Some(Max(1, job.retriesLeft)))
            && notice.retryAfter == (if notice.scheduled then AtLeastInterval(wait, a.queue.interval) else wait)
  {
    CountInRange(d, job.progress, a.failure.attached, id, Count(job));
  }

  /**
   So the wait of each charged failure is decided by what the job started with and the
   history of the receipts alone.
   */
  lemma WaitFollowsHistory(d: Digests, id: string, initial: Job, attempts: seq<Attempt>, n: nat)
    requires WellFormed(d) && Sound(StartOf(initial))
    requires 0 < n <= |attempts| && Charges(attempts[n - 1])
    ensures var s, run := StartOf(initial), RunAt(attempts, n);
            var log := Reference(d, id, s, run, |run|);
            var a, notice := attempts[n - 1], NoticeAt(d, id, initial, attempts, n);
            && (log[|run| - 1].balanced ==> log[|run| - 1].stage.Some?)
            && 1 <= ReferenceCount(BaseOf(s), log, |run|)
            && var wait := Max(ProviderWait(a.failure), Backoff(ReferenceCount(BaseOf(s), log, |run|)));
               notice.retryAfter == if notice.scheduled then AtLeastInterval(wait, a.queue.interval) else wait
  {
    var run := RunAt(attempts, n);
    AvailabilityIsRescheduled(d, id, initial, attempts, n);
    CountIsReference(d, id, StartOf(initial), run, |run|);
  }

  // ----- the retry budget

  ghost function Taken(d: Digests, id: string, job: Job, a: Attempt): nat {
    if Consumes(d, id, job, a) then 1 else 0
  }

  /** What an availability failure adds to a job that has no retry left. */
  function Grant(job: Job, a: Attempt): nat {
    if Kept(a) && job.retriesLeft < 1 then 1 - job.retriesLeft else 0
  }

  /** How many retries the queue has taken from the budget. */
  ghost function Consumed(d: Digests, id: string, initial: Job, attempts: seq<Attempt>, n: nat): nat
    requires n <= |attempts|
  {
    if n == 0 then 0
    else Consumed(d, id, initial, attempts, n - 1) + Taken(d, id, JobAfter(d, id, initial, attempts, n - 1),
        attempts[n - 1])
  }

  /** How many were granted to availability failures that found none left. */
  ghost function Granted(d: Digests, id: string, initial: Job, attempts: seq<Attempt>, n: nat): nat
    requires n <= |attempts|
  {
    if n == 0 then 0
    else Granted(d, id, initial, attempts, n - 1) + Grant(JobAfter(d, id, initial, attempts, n - 1), attempts[n - 1])
  }

  lemma StepRetries(d: Digests, id: string, job: Job, a: Attempt)
    ensures JobStep(d, id, job, a).retriesLeft + Taken(d, id, job, a) == job.retriesLeft + Grant(job, a)
    ensures JobStep(d, id, job, a).retriesLeft >= Min(0, job.retriesLeft)
  {
  }

  /** The state of a job's budget: what is left, what was taken and what was granted. */
  ghost function Budget(d: Digests, id: string, initial: Job, attempts: seq<Attempt>, n: nat): (int, nat, nat)
    requires n <= |attempts|
  {
    (JobAfter(d, id, initial, attempts, n).retriesLeft, Consumed(d, id, initial, attempts, n),
        Granted(d, id, initial, attempts, n))
  }

  lemma BudgetStep(d: Digests, id: string, initial: Job, attempts: seq<Attempt>, n: nat)
    returns (before: (int, nat, nat), after: (int, nat, nat))
    requires 0 < n <= |attempts|
    ensures before == Budget(d, id, initial, attempts, n - 1) && after == Budget(d, id, initial, attempts, n)
    ensures after.0 + after.1 - after.2 == before.0 + before.1 - before.2
    ensures after.0 >= Min(0, before.0)
  {
    before, after := Budget(d, id, initial, attempts, n - 1), Budget(d, id, initial, attempts, n);
    StepRetries(d, id, JobAfter(d, id, initial, attempts, n - 1), attempts[n - 1]);
  }

  ghost predicate Balanced(initial: Job, budget: (int, nat, nat)) {
    budget.0 + budget.1 - budget.2 == initial.retriesLeft && budget.0 >= Min(0, initial.retriesLeft)
  }

  lemma BudgetNext(d: Digests, id: string, initial: Job, attempts: seq<Attempt>, n: nat, budget: (int, nat, nat))
    returns (next: (int, nat, nat))
    requires 0 < n <= |attempts| && budget == Budget(d, id, initial, attempts, n - 1) && Balanced(initial, budget)
    ensures next == Budget(d, id, initial, attempts, n) && Balanced(initial, next)
  {
    var before;
    before, next := BudgetStep(d, id, initial, attempts, n);
  }

  lemma {:induction false} BudgetAfter(d: Digests, id: string, initial: Job, attempts: seq<Attempt>, n: nat)
    returns (budget: (int, nat, nat))
    requires n <= |attempts|
    ensures budget == Budget(d, id, initial, attempts, n) && Balanced(initial, budget)
  {
    if n == 0 {
      budget := BudgetStart(d, id, initial, attempts);
    } else {
      budget := BudgetAfter(d, id, initial, attempts, n - 1);
      budget := BudgetNext(d, id, initial, attempts, n, budget);
    }
  }

  lemma BudgetStart(d: Digests, id: string, initial: Job, attempts: seq<Attempt>) returns (budget: (int, nat, nat))
    ensures budget == Budget(d, id, initial, attempts, 0) == (initial.retriesLeft, 0, 0)
  {
    budget := Budget(d, id, initial, attempts, 0);
  }

  /** Every retry ever taken was in the initial budget or granted to an availability failure that found none left. */
  lemma BudgetIsConserved(d: Digests, id: string, initial: Job, attempts: seq<Attempt>, n: nat)
    requires n <= |attempts|
    ensures JobAfter(d, id, initial, attempts, n).retriesLeft + Consumed(d, id, initial, attempts, n) ==
            initial.retriesLeft + Granted(d, id, initial, attempts, n)
    ensures JobAfter(d, id, initial, attempts, n).retriesLeft >= Min(0, initial.retriesLeft)
  {
    var budget := BudgetAfter(d, id, initial, attempts, n);
  }

  /** The queue answers and saves. */
  predicate Confirmed(a: Attempt) {
    a.queue.CurrentJob? && a.queue.saves && !a.queue.interval.Raises?
  }

  /** Availability failures in a row use up the budget and then live on one granted retry each. */
  lemma {:induction false} AvailabilityOutlivesBudget(d: Digests, id: string, initial: Job, attempts: seq<Attempt>,
                                                      n: nat)
    requires 0 < n <= |attempts| && forall i | 0 <= i < n :: Charges(attempts[i]) && Confirmed(attempts[i])
    ensures JobAfter(d, id, initial, attempts, n).retriesLeft == Max(0, initial.retriesLeft - n)
    ensures var notice := NoticeAt(d, id, initial, attempts, n);
            notice.scheduled && notice.retriesLeft == Some(Max(1, initial.retriesLeft - (n - 1)))
  {
    if n > 1 {
      AvailabilityOutlivesBudget(d, id, initial, attempts, n - 1);
    }
    AvailabilityNotice(d, id, JobAfter(d, id, initial, attempts, n - 1), attempts[n - 1]);
  }

  /** What a budget leaves after n retries have been asked of it. */
  function LeftAfter(budget: int, n: nat): int {
    if n <= budget then budget - n else Min(budget, 0)
  }

  /** Other failures keep their terminal behaviour: exactly as many are rescheduled as the job had retries. */
  lemma {:induction false} OtherFailuresAreBounded(d: Digests, id: string, initial: Job, attempts: seq<Attempt>, n: nat)
    requires 0 < n <= |attempts|
    requires forall i | 0 <= i < n :: Confirmed(attempts[i]) && !Charges(attempts[i])
    ensures JobAfter(d, id, initial, attempts, n).retriesLeft == LeftAfter(initial.retriesLeft, n)
    ensures var notice := NoticeAt(d, id, initial, attempts, n);
            && (notice.scheduled <==> n <= initial.retriesLeft)
            && (notice.exhausted <==> n > initial.retriesLeft >= 0)
            && notice.retriesLeft == Some(LeftAfter(initial.retriesLeft, n - 1))
  {
    if n > 1 {
      OtherFailuresAreBounded(d, id, initial, attempts, n - 1);
    }
  }

  lemma {:induction false} NothingGranted(d: Digests, id: string, initial: Job, attempts: seq<Attempt>, n: nat)
    requires n <= |attempts|
    requires forall i | 0 <= i < n :: !Kept(attempts[i])
    ensures Granted(d, id, initial, attempts, n) == 0
  {
    if n > 0 {
      NothingGranted(d, id, initial, attempts, n - 1);
    }
  }

  /** Even with saves that fail and retries nobody confirmed, no more are ever taken than the job had. */
  lemma OtherFailuresGrantNothing(d: Digests, id: string, initial: Job, attempts: seq<Attempt>, n: nat)
    requires n <= |attempts|
    requires forall i | 0 <= i < n :: !Kept(attempts[i])
    ensures Granted(d, id, initial, attempts, n) == 0
    ensures Consumed(d, id, initial, attempts, n) <= Max(0, initial.retriesLeft)
  {
    NothingGranted(d, id, initial, attempts, n);
    BudgetIsConserved(d, id, initial, attempts, n);
  }
}
