/**
 When a source is crawled next, told from the calls of a run alone (workers/discovery/scheduler.py).
 */
module CrawlHistory {
  import opened Wrappers
  import opened Instants
  import opened CrawlScheduler

  ghost predicate IsKnown(steps: seq<Step>, i: nat) {
    i < |TakeAll(steps).sources|
  }

  /** The failures of source `i` since its last success, or since its registration. */
  ghost function Streak(steps: seq<Step>, i: nat): nat {
    if steps == [] then 0
    else
      var n := |steps| - 1;
      var known := IsKnown(steps[..n], i);
      if known && steps[n].Success? && steps[n].i == i then 0
      else Streak(steps[..n], i) + (if known && steps[n].Failure? && steps[n].i == i then 1 else 0)
  }

  lemma {:induction false} StreakIsCounted(steps: seq<Step>, i: nat)
    ensures IsKnown(steps, i) ==> TakeAll(steps).sources[i].failures == Streak(steps, i)
    ensures !IsKnown(steps, i) ==> Streak(steps, i) == 0
  {
    if steps != [] {
      StreakIsCounted(steps[..|steps| - 1], i);
    }
  }

  /** Step `k` registers source `i`. */
  ghost predicate Registers(steps: seq<Step>, k: nat, i: nat) {
    k < |steps| && steps[k].Register? && |TakeAll(steps[..k]).sources| == i
  }

  /** Step `k` emits a job for source `i`. */
  ghost predicate Crawls(steps: seq<Step>, k: nat, i: nat) {
    k < |steps| && steps[k].Emit? && Enabled(TakeAll(steps[..k]), steps[k]) && i in steps[k].ids
  }

  /** Step `k` records a failure of source `i`. */
  ghost predicate FailsAt(steps: seq<Step>, k: nat, i: nat) {
    k < |steps| && steps[k].Failure? && steps[k].i == i && IsKnown(steps[..k], i)
  }

  /** Step `k` decides when source `i` is crawled next. */
  ghost predicate Schedules(steps: seq<Step>, k: nat, i: nat) {
    Registers(steps, k, i) || Crawls(steps, k, i) || FailsAt(steps, k, i)
  }

  /** An interval doubled so often. */
  function Doubled(hours: int, times: nat): int
    decreases times
  {
    if times == 0 then hours else Doubled(2 * hours, times - 1)
  }

  lemma {:induction false} DoubledIsPower(hours: int, times: nat)
    ensures Doubled(hours, times) == hours * Pow2(times)
    decreases times
  {
    if times > 0 {
      DoubledIsPower(2 * hours, times - 1);
      assert hours * Pow2(times) == 2 * hours * Pow2(times - 1);
    }
  }

  /** One doubling for each failure in a row, up to 30 days; a source without failures keeps its interval. */
  function Wait(hours: int, failures: nat): int {
    if failures == 0 then hours
    else if Doubled(hours, failures) < 720 then Doubled(hours, failures) else 720
  }

  /** When a source is due that was last scheduled at `at`. */
  function DueAfter(at: Instant, hours: int, failures: nat): Instant {
    at + Wait(hours, failures) * HOUR
  }

  lemma EmittedIsDueAfter(src: Source, now: Instant)
    ensures src.Emitted(now).nextCrawlAt == Some(DueAfter(now, src.recrawlHours, src.failures))
  {
    DoubledIsPower(src.recrawlHours, src.failures);
  }

  lemma FailedIsDueAfter(src: Source, now: Instant, error: string)
    ensures src.Failed(now, error).nextCrawlAt == Some(DueAfter(now, src.recrawlHours, src.failures + 1))
  {
    DoubledIsPower(src.recrawlHours, src.failures + 1);
  }

  lemma {:induction false} SettingsStay(steps: seq<Step>, k: nat, i: nat)
    requires Registers(steps, k, i)
    ensures IsKnown(steps, i)
    ensures var src := TakeAll(steps).sources[i];
            && src.target == steps[k].target && src.priority == steps[k].priority
            && src.recrawlHours == steps[k].recrawlHours && src.rateLimit == steps[k].rateLimit
    decreases |steps|
  {
    var n := |steps| - 1;
    if k < n {
      assert steps[..n][..k] == steps[..k];
      SettingsStay(steps[..n], k, i);
    }
  }

  /** What one scheduling step sets. */
  lemma EmissionSchedules(s: State, step: Step, i: nat)
    requires step.Emit? && Enabled(s, step) && i in step.ids
    ensures i < |s.sources| && i < |Take(s, step).sources|
    ensures var src, after := s.sources[i], Take(s, step).sources[i];
            && after.nextCrawlAt == Some(DueAfter(step.at, src.recrawlHours, src.failures))
            && after.recrawlHours == src.recrawlHours && after.failures == src.failures
  {
    EmittedIsDueAfter(s.sources[i], step.at);
  }

  lemma FailureSchedules(s: State, step: Step, i: nat)
    requires step.Failure? && step.i == i < |s.sources|
    ensures i < |Take(s, step).sources|
    ensures var src, after := s.sources[i], Take(s, step).sources[i];
            && after.nextCrawlAt == Some(DueAfter(step.at, src.recrawlHours, src.failures + 1))
            && after.recrawlHours == src.recrawlHours && after.failures == src.failures + 1
  {
    FailedIsDueAfter(s.sources[i], step.at, step.error);
  }

  lemma ScheduledBy(steps: seq<Step>, i: nat)
    requires steps != [] && Schedules(steps, |steps| - 1, i)
    ensures IsKnown(steps, i)
    ensures var src, at := TakeAll(steps).sources[i], steps[|steps| - 1].at;
            src.nextCrawlAt == Some(if steps[|steps| - 1].Register? then at
                                    else DueAfter(at, src.recrawlHours, Streak(steps, i)))
  {
    var s, step := TakeAll(steps[..|steps| - 1]), steps[|steps| - 1];
    StreakIsCounted(steps, i);
    if step.Emit? {
      EmissionSchedules(s, step, i);
    } else if step.Failure? {
      FailureSchedules(s, step, i);
    }
  }

  /** Everything else leaves the due time alone. */
  lemma StepKeepsDueTime(s: State, step: Step, i: nat)
    requires i < |s.sources| && !(step.Failure? && step.i == i)
    requires !(step.Emit? && Enabled(s, step) && i in step.ids)
    ensures i < |Take(s, step).sources|
    ensures Take(s, step).sources[i].nextCrawlAt == s.sources[i].nextCrawlAt
    ensures Take(s, step).sources[i].recrawlHours == s.sources[i].recrawlHours
  {
    match step
    case Failure(_, j, _) => assert j != i;
    case Emit(_, _, _, _) =>
    case _ =>
  }

  /**
   A source is due exactly so long after its last job or failure as its failures in a row by then say,
   whatever successes came since; and at once after its registration.
   */
  lemma {:induction false} DueTimeIsSetByLastScheduling(steps: seq<Step>, k: nat, i: nat)
    requires Schedules(steps, k, i) && forall m :: k < m < |steps| ==> !Schedules(steps, m, i)
    ensures IsKnown(steps, i)
    ensures var src, at := TakeAll(steps).sources[i], steps[k].at;
            src.nextCrawlAt == Some(if steps[k].Register? then at
                                    else DueAfter(at, src.recrawlHours, Streak(steps[..k + 1], i)))
    decreases |steps|
  {
    var n := |steps| - 1;
    if k == n {
      assert steps[..k + 1] == steps;
      ScheduledBy(steps, i);
    } else {
      assert forall m :: 0 <= m < n ==> steps[..n][..m] == steps[..m];
      assert steps[..n][..k + 1] == steps[..k + 1];
      assert forall m :: 0 <= m < n ==> (Schedules(steps[..n], m, i) <==> Schedules(steps, m, i));
      DueTimeIsSetByLastScheduling(steps[..n], k, i);
      assert !Schedules(steps, n, i);
      StepKeepsDueTime(TakeAll(steps[..n]), steps[n], i);
    }
  }

  // ---- a source that works ----------------------------------------------------------------------------

  /** When the jobs of source `i` were emitted. */
  function JobTimes(jobs: seq<Job>, i: nat): seq<Instant> {
    if jobs == [] then []
    else
      var n := |jobs| - 1;
      JobTimes(jobs[..n], i) + (if jobs[n].source == i then [jobs[n].at] else [])
  }

  lemma {:induction false} JobTimesOfAppend(jobs: seq<Job>, more: seq<Job>, i: nat)
    ensures JobTimes(jobs + more, i) == JobTimes(jobs, i) + JobTimes(more, i)
  {
    if more == [] {
      assert jobs + more == jobs;
    } else {
      JobTimesOfAppend(jobs, more[..|more| - 1], i);
      assert (jobs + more)[..|jobs + more| - 1] == jobs + more[..|more| - 1];
    }
  }

  lemma {:induction false} JobTimesOfEmission(sources: seq<Source>, ids: seq<nat>, now: Instant, i: nat)
    requires InRange(ids, |sources|) && forall p, q :: 0 <= p < q < |ids| ==> ids[p] != ids[q]
    ensures JobTimes(JobsFor(sources, ids, now), i) == if i in ids then [now] else []
  {
    if ids != [] {
      var n := |ids| - 1;
      JobTimesOfEmission(sources, ids[..n], now, i);
      assert JobsFor(sources, ids, now)[..n] == JobsFor(sources, ids[..n], now);
      assert ids == ids[..n] + [ids[n]];
    }
  }

  /** Source `i` never fails, and is crawled at the very instants at which it is due. */
  ghost predicate Works(steps: seq<Step>, i: nat) {
    && (forall k :: 0 <= k < |steps| ==> !FailsAt(steps, k, i))
    && (forall k :: 0 <= k < |steps| && Crawls(steps, k, i) ==>
          IsKnown(steps[..k], i) && TakeAll(steps[..k]).sources[i].nextCrawlAt == Some(steps[k].at))
  }

  /** The instant `n` gaps after `start`. */
  function Nth(start: Instant, n: nat, gap: int): Instant {
    if n == 0 then start else Nth(start, n - 1, gap) + gap
  }

  lemma {:induction false} NthIsMultiple(start: Instant, n: nat, gap: int)
    ensures Nth(start, n, gap) == start + n * gap
  {
    if n > 0 {
      NthIsMultiple(start, n - 1, gap);
      assert n * gap == (n - 1) * gap + gap;
    }
  }

  /** Instants at `start` and then every `gap`. */
  ghost predicate EvenTimes(times: seq<Instant>, start: Instant, gap: int) {
    forall j :: 0 <= j < |times| ==> times[j] == Nth(start, j, gap)
  }

  /** A source without failures, with its jobs so far, and the next one due a gap later. */
  ghost predicate EvenlySpaced(src: Source, times: seq<Instant>, start: Instant, gap: int) {
    && src.failures == 0 && DueAfter(0, src.recrawlHours, 0) == gap
    && EvenTimes(times, start, gap) && src.nextCrawlAt == Some(Nth(start, |times|, gap))
  }

  lemma EmittedKeepsSpacing(src: Source, times: seq<Instant>, start: Instant, gap: int, at: Instant)
    requires EvenlySpaced(src, times, start, gap) && src.nextCrawlAt == Some(at)
    ensures EvenlySpaced(src.Emitted(at), times + [at], start, gap)
  {
    EmittedIsDueAfter(src, at);
  }

  lemma CrawlAddsJob(s: State, step: Step, i: nat)
    requires step.Emit? && Enabled(s, step) && i < |s.sources|
    ensures Take(s, step).sources[i] == if i in step.ids then s.sources[i].Emitted(step.at) else s.sources[i]
    ensures JobTimes(Take(s, step).jobs, i) == JobTimes(s.jobs, i) + if i in step.ids then [step.at] else []
  {
    JobTimesOfAppend(s.jobs, JobsFor(s.sources, step.ids, step.at), i);
    JobTimesOfEmission(s.sources, step.ids, step.at, i);
  }

  lemma StepKeepsSpacing(s: State, step: Step, i: nat, start: Instant, gap: int)
    requires i < |s.sources| && EvenlySpaced(s.sources[i], JobTimes(s.jobs, i), start, gap)
    requires !(step.Failure? && step.i == i)
    requires step.Emit? && Enabled(s, step) && i in step.ids ==> s.sources[i].nextCrawlAt == Some(step.at)
    ensures i < |Take(s, step).sources|
    ensures EvenlySpaced(Take(s, step).sources[i], JobTimes(Take(s, step).jobs, i), start, gap)
  {
    if step.Emit? && Enabled(s, step) {
      CrawlAddsJob(s, step, i);
      if i in step.ids {
        EmittedKeepsSpacing(s.sources[i], JobTimes(s.jobs, i), start, gap, step.at);
      }
    }
  }

  lemma {:induction false} NoJobsBefore(steps: seq<Step>, i: nat)
    requires !IsKnown(steps, i)
    ensures JobTimes(TakeAll(steps).jobs, i) == []
  {
    if steps != [] {
      var n := |steps| - 1;
      var s := TakeAll(steps[..n]);
      NoJobsBefore(steps[..n], i);
      if steps[n].Emit? && Enabled(s, steps[n]) {
        JobTimesOfAppend(s.jobs, JobsFor(s.sources, steps[n].ids, steps[n].at), i);
        JobTimesOfEmission(s.sources, steps[n].ids, steps[n].at, i);
      }
    }
  }

  lemma {:induction false} WorkingSourceKeepsSpacing(steps: seq<Step>, k: nat, i: nat, gap: int)
    requires Registers(steps, k, i) && Works(steps, i) && gap == DueAfter(0, steps[k].recrawlHours, 0)
    ensures IsKnown(steps, i)
    ensures EvenlySpaced(TakeAll(steps).sources[i], JobTimes(TakeAll(steps).jobs, i), steps[k].at, gap)
    decreases |steps|
  {
    var n := |steps| - 1;
    var s, step := TakeAll(steps[..n]), steps[n];
    if k == n {
      NoJobsBefore(steps[..n], i);
    } else {
      assert forall m :: 0 <= m < n ==> steps[..n][..m] == steps[..m];
      assert forall m :: 0 <= m < n ==> (Crawls(steps[..n], m, i) <==> Crawls(steps, m, i));
      assert forall m :: 0 <= m < n ==> (FailsAt(steps[..n], m, i) <==> FailsAt(steps, m, i));
      WorkingSourceKeepsSpacing(steps[..n], k, i, gap);
      assert !FailsAt(steps, n, i);
      assert step.Emit? && Enabled(s, step) && i in step.ids ==> Crawls(steps, n, i);
      StepKeepsSpacing(s, step, i, steps[k].at, gap);
    }
  }

  /** A source that works is crawled when it is registered, and then once every interval, to the instant. */
  lemma WorkingSourceIsCrawledEachInterval(steps: seq<Step>, k: nat, i: nat)
    requires Registers(steps, k, i) && Works(steps, i)
    ensures var times := JobTimes(TakeAll(steps).jobs, i);
            forall j :: 0 <= j < |times| ==> times[j] == steps[k].at + j * (steps[k].recrawlHours * HOUR)
  {
    WorkingSourceKeepsSpacing(steps, k, i, steps[k].recrawlHours * HOUR);
    forall j | 0 <= j < |JobTimes(TakeAll(steps).jobs, i)|
      ensures Nth(steps[k].at, j, steps[k].recrawlHours * HOUR) == steps[k].at + j * (steps[k].recrawlHours * HOUR)
    {
      NthIsMultiple(steps[k].at, j, steps[k].recrawlHours * HOUR);
    }
  }
}
