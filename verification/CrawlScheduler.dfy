/** The crawl scheduler: due sources, backoff after failures, and the jobs it emits (workers/discovery/scheduler.py). */
module CrawlScheduler {
  import opened Wrappers
  import opened Instants
  import opened Sorting

  const MAX_BACKOFF_HOURS: int := 720

  /** What a source is, and what is copied into each of its jobs. */
  datatype Target = Target(sourceType: string, url: string, domain: string, pageTypeHint: Option<string>,
                           requiresJs: bool)

  datatype Source = Source(
    target: Target,
    active: bool,
    priority: int,
    recrawlHours: int,
    rateLimit: int,
    nextCrawlAt: Option<Instant>,
    lastCrawledAt: Option<Instant>,
    failures: nat,
    healthScore: real,
    lastError: Option<string>
  ) {
    /** `_next_crawl_time` counts this many hours from now. */
    function DelayHours(): int {
      Delay(recrawlHours, failures)
    }

    predicate Due(now: Instant) {
      active && nextCrawlAt.Some? && nextCrawlAt.value <= now
    }

    function Emitted(now: Instant): Source {
      this.(nextCrawlAt := Some(now + DelayHours() * HOUR))
    }

    function Succeeded(now: Instant): Source {
      this.(lastCrawledAt := Some(now), failures := 0, lastError := None,
            healthScore := if healthScore + 0.1 < 1.0 then healthScore + 0.1 else 1.0)
    }

    function Failed(now: Instant, error: string): Source {
      var s := this.(failures := failures + 1, lastError := Some(if |error| <= 2000 then error else error[..2000]),
                     healthScore := if healthScore - 0.2 > 0.0 then healthScore - 0.2 else 0.0);
      s.(nextCrawlAt := Some(now + s.DelayHours() * HOUR))
    }

    /** The least time between two crawls, in hours. */
    function GapHours(): int {
      Min(recrawlHours, MAX_BACKOFF_HOURS)
    }
  }

  function Delay(recrawlHours: int, failures: nat): int {
    if failures > 0 then Min(recrawlHours * Pow2(failures), MAX_BACKOFF_HOURS) else recrawlHours
  }

  function Min(x: int, y: int): int {
    if x <= y then x else y
  }

  function Pow2(n: nat): (p: int)
    ensures p >= 1
  {
    if n == 0 then 1 else 2 * Pow2(n - 1)
  }

  function Registered(target: Target, priority: int, recrawlHours: int, rateLimit: int, now: Instant): Source {
    Source(target, true, priority, recrawlHours, rateLimit, Some(now), None, 0, 1.0, None)
  }

  /** A crawl job for a source, and when it was emitted. */
  datatype Job = Job(source: nat, target: Target, priority: int, at: Instant)

  /** The registry, by position, and every job emitted so far. */
  datatype State = State(sources: seq<Source>, jobs: seq<Job>)

  const EMPTY := State([], [])

  function Keys(sources: seq<Source>): (keys: seq<Key>)
    ensures |keys| == |sources|
    ensures forall i :: 0 <= i < |sources| && sources[i].nextCrawlAt.Some? ==>
                          keys[i] == Key(-(sources[i].priority as real), sources[i].nextCrawlAt.value as real)
  {
    seq(|sources|, i requires 0 <= i < |sources| =>
      Key(-(sources[i].priority as real),
          if sources[i].nextCrawlAt.Some? then sources[i].nextCrawlAt.value as real else 0.0))
  }

  /** The sources the query may return: active, due, and not locked by another scheduler. */
  function Eligible(sources: seq<Source>, now: Instant, locked: set<nat>): set<nat> {
    set i: nat | i < |sources| && sources[i].Due(now) && i !in locked
  }

  /** What the query may return: the first `n` eligible sources by priority, then by due time. */
  ghost predicate IsBatch(sources: seq<Source>, now: Instant, locked: set<nat>, n: nat, ids: seq<nat>) {
    IsFirst(Keys(sources), Eligible(sources, now, locked), n, ids)
  }

  ghost predicate InRange(ids: seq<nat>, n: nat) {
    forall p :: 0 <= p < |ids| ==> ids[p] < n
  }

  function JobFor(sources: seq<Source>, i: nat, now: Instant): Job
    requires i < |sources|
  {
    Job(i, sources[i].target, sources[i].priority, now)
  }

  function JobsFor(sources: seq<Source>, ids: seq<nat>, now: Instant): (jobs: seq<Job>)
    requires InRange(ids, |sources|)
    ensures |jobs| == |ids| && forall p :: 0 <= p < |ids| ==> jobs[p] == JobFor(sources, ids[p], now)
  {
    seq(|ids|, p requires 0 <= p < |ids| => JobFor(sources, ids[p], now))
  }

  function EmitAll(sources: seq<Source>, ids: seq<nat>, now: Instant): (r: seq<Source>)
    ensures |r| == |sources|
  {
    seq(|sources|, i requires 0 <= i < |sources| => if i in ids then sources[i].Emitted(now) else sources[i])
  }

  lemma EmitOneMore(sources: seq<Source>, ids: seq<nat>, k: nat, now: Instant)
    requires k < |ids| && InRange(ids, |sources|) && forall p :: 0 <= p < k ==> ids[p] != ids[k]
    ensures EmitAll(sources, ids[..k], now)[ids[k]] == sources[ids[k]]
    ensures EmitAll(sources, ids[..k + 1], now) ==
            EmitAll(sources, ids[..k], now)[ids[k] := sources[ids[k]].Emitted(now)]
    ensures JobsFor(sources, ids[..k + 1], now) == JobsFor(sources, ids[..k], now) + [JobFor(sources, ids[k], now)]
  {
    assert ids[..k + 1] == ids[..k] + [ids[k]];
  }

  datatype Step =
    | Register(at: Instant, target: Target, priority: int, recrawlHours: int, rateLimit: int)
    | Emit(at: Instant, locked: set<nat>, n: nat, ids: seq<nat>)
    | Success(at: Instant, i: nat)
    | Failure(at: Instant, i: nat, error: string)
    | Activate(at: Instant, i: nat, active: bool)

  ghost predicate Enabled(s: State, step: Step) {
    match step
    case Register(_, _, _, _, _) => true
    case Emit(at, locked, n, ids) => IsBatch(s.sources, at, locked, n, ids)
    case Success(_, i) => i < |s.sources|
    case Failure(_, i, _) => i < |s.sources|
    case Activate(_, i, _) => i < |s.sources|
  }

  /** One step; an unknown source is ignored, and so is a batch the query cannot return. */
  ghost function Take(s: State, step: Step): State {
    if !Enabled(s, step) then s else
      match step
      case Register(at, target, priority, hours, rate) =>
        s.(sources := s.sources + [Registered(target, priority, hours, rate, at)])
      case Emit(at, _, _, ids) => State(EmitAll(s.sources, ids, at), s.jobs + JobsFor(s.sources, ids, at))
      case Success(at, i) => s.(sources := s.sources[i := s.sources[i].Succeeded(at)])
      case Failure(at, i, error) => s.(sources := s.sources[i := s.sources[i].Failed(at, error)])
      case Activate(_, i, active) => s.(sources := s.sources[i := s.sources[i].(active := active)])
  }

  ghost function TakeAll(steps: seq<Step>): State {
    if steps == [] then EMPTY else Take(TakeAll(steps[..|steps| - 1]), steps[|steps| - 1])
  }

  ghost predicate Timely(steps: seq<Step>) {
    forall i, j :: 0 <= i < j < |steps| ==> steps[i].at <= steps[j].at
  }

  // ---- the gap between two crawls --------------------------------------------------------------------

  lemma DelayIsAtLeastGap(recrawlHours: int, failures: nat)
    requires recrawlHours > 0
    ensures Delay(recrawlHours, failures) >= Min(recrawlHours, MAX_BACKOFF_HOURS)
  {
    var p := Pow2(failures);
    assert recrawlHours * p >= recrawlHours by {
      assert recrawlHours * (p - 1) >= 0;
      assert recrawlHours * p == recrawlHours * (p - 1) + recrawlHours;
    }
  }

  /** A source waits out the gap after each of its jobs. */
  ghost predicate Waits(s: State, a: nat)
    requires a < |s.jobs|
  {
    s.jobs[a].source < |s.sources| &&
    var src := s.sources[s.jobs[a].source];
    src.recrawlHours > 0 ==>
      src.nextCrawlAt.Some? && src.nextCrawlAt.value >= s.jobs[a].at + src.GapHours() * HOUR
  }

  ghost predicate Spaced(s: State, a: nat, b: nat)
    requires a < |s.jobs| && b < |s.jobs|
  {
    s.jobs[a].at <= s.jobs[b].at &&
    (s.jobs[a].source == s.jobs[b].source && s.jobs[b].source < |s.sources| ==>
       s.jobs[b].at - s.jobs[a].at >= s.sources[s.jobs[b].source].GapHours() * HOUR)
  }

  ghost predicate Inv(s: State, now: Instant) {
    && (forall a: nat :: a < |s.jobs| ==> s.jobs[a].at <= now && Waits(s, a))
    && (forall a: nat, b: nat :: a < b < |s.jobs| ==> Spaced(s, a, b))
  }

  /** What an emission leaves of the earlier jobs, and what it adds. */
  lemma JobsAfterEmit(s: State, step: Step, a: nat)
    requires step.Emit? && Enabled(s, step) && a < |Take(s, step).jobs|
    ensures a < |s.jobs| ==> Take(s, step).jobs[a] == s.jobs[a]
    ensures a >= |s.jobs| ==>
              && a - |s.jobs| < |step.ids| && step.ids[a - |s.jobs|] < |s.sources|
              && Take(s, step).jobs[a] == JobFor(s.sources, step.ids[a - |s.jobs|], step.at)
  {
  }

  lemma EmitKeepsWaits(s: State, step: Step, before: Instant, a: nat)
    requires Inv(s, before) && before <= step.at && step.Emit? && Enabled(s, step) && a < |Take(s, step).jobs|
    ensures Take(s, step).jobs[a].at <= step.at && Waits(Take(s, step), a)
  {
    JobsAfterEmit(s, step, a);
    if a < |s.jobs| {
      assert Waits(s, a);
    }
    var src := s.sources[Take(s, step).jobs[a].source];
    if src.recrawlHours > 0 {
      DelayIsAtLeastGap(src.recrawlHours, src.failures);
    }
  }

  lemma EmitKeepsSpaced(s: State, step: Step, before: Instant, a: nat, b: nat)
    requires Inv(s, before) && before <= step.at && step.Emit? && Enabled(s, step) && a < b < |Take(s, step).jobs|
    ensures Spaced(Take(s, step), a, b)
  {
    JobsAfterEmit(s, step, a);
    JobsAfterEmit(s, step, b);
    if b < |s.jobs| {
      assert Spaced(s, a, b);
    } else if a < |s.jobs| {
      assert Waits(s, a) && s.sources[step.ids[b - |s.jobs|]].Due(step.at);
    } else {
      assert step.ids[a - |s.jobs|] != step.ids[b - |s.jobs|];
    }
  }

  lemma EmitKeepsInv(s: State, step: Step, before: Instant)
    requires Inv(s, before) && before <= step.at && step.Emit? && Enabled(s, step)
    ensures Inv(Take(s, step), step.at)
  {
    forall a: nat | a < |Take(s, step).jobs|
      ensures Take(s, step).jobs[a].at <= step.at && Waits(Take(s, step), a)
    {
      EmitKeepsWaits(s, step, before, a);
    }
    forall a: nat, b: nat | a < b < |Take(s, step).jobs|
      ensures Spaced(Take(s, step), a, b)
    {
      EmitKeepsSpaced(s, step, before, a, b);
    }
  }

  lemma OtherStepsKeepInv(s: State, step: Step, before: Instant)
    requires Inv(s, before) && before <= step.at && !step.Emit?
    ensures Inv(Take(s, step), step.at)
  {
    var t := Take(s, step);
    forall a: nat | a < |t.jobs|
      ensures t.jobs[a].at <= step.at && Waits(t, a)
    {
      assert Waits(s, a);
      if step.Failure? && step.i == s.jobs[a].source && t.sources[step.i].recrawlHours > 0 {
        DelayIsAtLeastGap(t.sources[step.i].recrawlHours, t.sources[step.i].failures);
      }
    }
    forall a: nat, b: nat | a < b < |t.jobs|
      ensures Spaced(t, a, b)
    {
      assert Spaced(s, a, b) && Waits(s, b);
    }
  }

  lemma {:induction false} EveryRunIsSpaced(steps: seq<Step>)
    requires Timely(steps)
    ensures steps == [] ==> Inv(TakeAll(steps), 0)
    ensures steps != [] ==> Inv(TakeAll(steps), steps[|steps| - 1].at)
  {
    if steps != [] {
      var n := |steps| - 1;
      var s, step := TakeAll(steps[..n]), steps[n];
      EveryRunIsSpaced(steps[..n]);
      var before := if n == 0 then step.at else steps[n - 1].at;
      assert n > 0 ==> steps[..n][n - 1] == steps[n - 1];
      if step.Emit? && Enabled(s, step) {
        EmitKeepsInv(s, step, before);
      } else if step.Emit? {
        assert forall a: nat, b: nat :: a < b < |s.jobs| ==> Spaced(s, a, b);
      } else {
        OtherStepsKeepInv(s, step, before);
      }
    }
  }

  /** Two jobs for one source are at least min(recrawl_hours, 720) hours apart, whatever happens in between. */
  lemma JobsOfOneSourceAreSpaced(steps: seq<Step>, a: nat, b: nat)
    requires Timely(steps) && a < b < |TakeAll(steps).jobs|
    requires TakeAll(steps).jobs[a].source == TakeAll(steps).jobs[b].source
    ensures var s := TakeAll(steps);
            && s.jobs[b].source < |s.sources|
            && s.jobs[b].at - s.jobs[a].at >= s.sources[s.jobs[b].source].GapHours() * HOUR
  {
    EveryRunIsSpaced(steps);
    var s := TakeAll(steps);
    assert Waits(s, b) && Spaced(s, a, b);
  }

  /** No number of failures makes the delay shorter than the regular interval exactly when that is within the cap. */
  lemma BackoffLengthensIffWithinCap(recrawlHours: int)
    requires recrawlHours > 0
    ensures (forall failures: nat :: Delay(recrawlHours, failures) >= recrawlHours) <==>
            recrawlHours <= MAX_BACKOFF_HOURS
  {
    forall failures: nat
      ensures recrawlHours <= MAX_BACKOFF_HOURS ==> Delay(recrawlHours, failures) >= recrawlHours
    {
      DelayIsAtLeastGap(recrawlHours, failures);
    }
    assert Delay(recrawlHours, 1) <= MAX_BACKOFF_HOURS;
  }

  // ---- when a failure brings a crawl forward ---------------------------------------------------------

  /** Step `k` of the run does not lower the due time of a source that is crawled every `r` hours, by failing. */
  ghost predicate KeepsDueTime(steps: seq<Step>, r: int, k: nat)
    requires k < |steps|
  {
    var s, step := TakeAll(steps[..k]), steps[k];
    step.Failure? && step.i < |s.sources| && s.sources[step.i].recrawlHours == r
        && s.sources[step.i].nextCrawlAt.Some? ==>
      s.sources[step.i].Failed(step.at, step.error).nextCrawlAt.value >= s.sources[step.i].nextCrawlAt.value
  }

  /** In no timely run a failure brings the crawl of such a source forward. */
  ghost predicate FailuresNeverHasten(r: int) {
    forall steps, k: nat :: Timely(steps) && k < |steps| ==> KeepsDueTime(steps, r, k)
  }

  /** Sources that are crawled every `r` hours are due within the cap. */
  ghost predicate DueWithinCap(s: State, r: int, now: Instant) {
    forall i :: 0 <= i < |s.sources| && s.sources[i].recrawlHours == r ==>
      s.sources[i].nextCrawlAt.Some? && s.sources[i].nextCrawlAt.value <= now + MAX_BACKOFF_HOURS * HOUR
  }

  lemma DelayWithinCap(r: int, failures: nat)
    requires 0 < r <= MAX_BACKOFF_HOURS
    ensures Delay(r, failures) <= MAX_BACKOFF_HOURS
    ensures 2 * r >= MAX_BACKOFF_HOURS && failures > 0 ==> Delay(r, failures) == MAX_BACKOFF_HOURS
  {
    if failures > 0 {
      var p := Pow2(failures - 1);
      assert r * Pow2(failures) == 2 * r * p;
      assert 2 * r * p >= 2 * r by {
        assert 2 * r * (p - 1) >= 0;
      }
    }
  }

  lemma StepKeepsDueWithinCap(s: State, r: int, before: Instant, step: Step)
    requires 0 < r <= MAX_BACKOFF_HOURS && DueWithinCap(s, r, before) && before <= step.at
    ensures DueWithinCap(Take(s, step), r, step.at)
  {
    forall failures: nat
      ensures Delay(r, failures) <= MAX_BACKOFF_HOURS
    {
      DelayWithinCap(r, failures);
    }
  }

  lemma {:induction false} RunKeepsDueWithinCap(steps: seq<Step>, r: int, now: Instant)
    requires 0 < r <= MAX_BACKOFF_HOURS && Timely(steps) && (steps != [] ==> steps[|steps| - 1].at <= now)
    ensures DueWithinCap(TakeAll(steps), r, now)
  {
    if steps != [] {
      var n := |steps| - 1;
      assert n > 0 ==> steps[..n][n - 1] == steps[n - 1];
      RunKeepsDueWithinCap(steps[..n], r, steps[n].at);
      StepKeepsDueWithinCap(TakeAll(steps[..n]), r, steps[n].at, steps[n]);
    }
  }

  lemma MiddleIntervalsAreNeverHastened(r: int, steps: seq<Step>, k: nat)
    requires MAX_BACKOFF_HOURS <= 2 * r && r <= MAX_BACKOFF_HOURS && Timely(steps) && k < |steps|
    ensures KeepsDueTime(steps, r, k)
  {
    var s, step := TakeAll(steps[..k]), steps[k];
    assert k > 0 ==> steps[..k][k - 1] == steps[k - 1];
    RunKeepsDueWithinCap(steps[..k], r, step.at);
    if step.Failure? && step.i < |s.sources| && s.sources[step.i].recrawlHours == r {
      DelayWithinCap(r, s.sources[step.i].failures + 1);
    }
  }

  const ANY_TARGET := Target("", "", "", None, false)

  function AtOnce(r: int): Step {
    Register(0, ANY_TARGET, 5, r, 10)
  }

  lemma TakeAllOfAppend(steps: seq<Step>, step: Step)
    ensures TakeAll(steps + [step]) == Take(TakeAll(steps), step)
  {
    assert (steps + [step])[..|steps|] == steps;
  }

  /** One more result for the only source of a run. */
  lemma ResultOfOnlySource(steps: seq<Step>, src: Source)
    requires TakeAll(steps) == State([src], [])
    ensures TakeAll(steps + [Failure(0, 0, "")]) == State([src.Failed(0, "")], [])
    ensures TakeAll(steps + [Success(0, 0)]) == State([src.Succeeded(0)], [])
  {
    TakeAllOfAppend(steps, Failure(0, 0, ""));
    TakeAllOfAppend(steps, Success(0, 0));
  }

  lemma RegisteredAtOnce(r: int)
    ensures TakeAll([AtOnce(r)]) == State([Registered(ANY_TARGET, 5, r, 10, 0)], [])
  {
    assert [] + [AtOnce(r)] == [AtOnce(r)];
    TakeAllOfAppend([], AtOnce(r));
  }

  /** Two failures, a late success that clears their count and leaves the due time, and another failure. */
  lemma ShortIntervalIsHastened(r: int) returns (steps: seq<Step>)
    requires 0 < 2 * r < MAX_BACKOFF_HOURS
    ensures Timely(steps) && |steps| == 5 && !KeepsDueTime(steps, r, 4)
    ensures steps[4].Failure? && steps[4].at == 0 && steps[4].i == 0 && |TakeAll(steps[..4]).sources| == 1
    ensures var src := TakeAll(steps[..4]).sources[0];
            && src.recrawlHours == r && src.nextCrawlAt == Some(Min(4 * r, MAX_BACKOFF_HOURS) * HOUR)
            && src.Failed(0, steps[4].error).nextCrawlAt == Some(2 * r * HOUR)
  {
    var fail, first := Failure(0, 0, ""), [AtOnce(r)];
    var src := Registered(ANY_TARGET, 5, r, 10, 0);
    RegisteredAtOnce(r);
    ResultOfOnlySource(first, src);
    ResultOfOnlySource(first + [fail], src.Failed(0, ""));
    ResultOfOnlySource(first + [fail] + [fail], src.Failed(0, "").Failed(0, ""));
    assert Pow2(1) == 2 && Pow2(2) == 4;
    var fourth := first + [fail] + [fail] + [Success(0, 0)];
    steps := fourth + [fail];
    assert steps[..4] == fourth;
  }

  /** The cap is shorter than the interval after which the source was due. */
  lemma LongIntervalIsHastened(r: int) returns (steps: seq<Step>)
    requires r > MAX_BACKOFF_HOURS
    ensures Timely(steps) && |steps| == 3 && !KeepsDueTime(steps, r, 2)
  {
    var emit, fail := Emit(0, {}, 1, [0]), Failure(0, 0, "");
    var first := [AtOnce(r)];
    assert first + [emit] == [AtOnce(r), emit];
    RegisteredAtOnce(r);
    TakeAllOfAppend(first, emit);
    assert Enabled(TakeAll(first), emit);
    assert 0 in emit.ids;
    steps := [AtOnce(r), emit, fail];
    assert steps[..2] == [AtOnce(r), emit];
  }

  /**
   Over every timely run, failures never bring a crawl forward exactly for intervals from half the
   cap up to the cap.
   */
  lemma FailuresNeverHastenIffBetweenHalfAndCap(r: int)
    requires r > 0
    ensures FailuresNeverHasten(r) <==> MAX_BACKOFF_HOURS <= 2 * r && r <= MAX_BACKOFF_HOURS
  {
    if r > MAX_BACKOFF_HOURS {
      var steps := LongIntervalIsHastened(r);
    } else if 2 * r < MAX_BACKOFF_HOURS {
      var steps := ShortIntervalIsHastened(r);
    } else {
      forall steps, k: nat | Timely(steps) && k < |steps|
        ensures KeepsDueTime(steps, r, k)
      {
        MiddleIntervalsAreNeverHastened(r, steps, k);
      }
    }
  }

  /** With the default interval of a week such a failure moves the next crawl from 672 hours ahead to 336. */
  lemma DefaultIntervalIsHastened() returns (steps: seq<Step>)
    ensures Timely(steps) && |steps| == 5 && |TakeAll(steps[..4]).sources| == 1 && steps[4].Failure?
    ensures TakeAll(steps[..4]).sources[0].recrawlHours == 168
    ensures TakeAll(steps[..4]).sources[0].nextCrawlAt == Some(672 * HOUR)
    ensures TakeAll(steps[..4]).sources[0].Failed(0, steps[4].error).nextCrawlAt == Some(336 * HOUR)
  {
    steps := ShortIntervalIsHastened(168);
  }

  /** A source is passed over only by a full batch of sources that sort no later. */
  lemma NoUrgentSourceIsPassedOver(sources: seq<Source>, now: Instant, locked: set<nat>, n: nat, ids: seq<nat>,
                                   i: nat, p: nat)
    requires IsBatch(sources, now, locked, n, ids) && i in Eligible(sources, now, locked) && i !in ids && p < |ids|
    ensures |ids| == n && ids[p] < |sources| && sources[ids[p]].nextCrawlAt.Some?
    ensures var chosen, skipped := sources[ids[p]], sources[i];
            chosen.priority > skipped.priority
            || (chosen.priority == skipped.priority && chosen.nextCrawlAt.value <= skipped.nextCrawlAt.value)
  {
    assert !Less(Keys(sources)[i], Keys(sources)[ids[p]]);
  }

  /** Source `i` sorts strictly ahead of source `j`. */
  ghost predicate MoreUrgent(sources: seq<Source>, i: nat, j: nat) {
    && i < |sources| && j < |sources| && sources[i].nextCrawlAt.Some? && sources[j].nextCrawlAt.Some?
    && (sources[i].priority > sources[j].priority
        || (sources[i].priority == sources[j].priority && sources[i].nextCrawlAt.value < sources[j].nextCrawlAt.value))
  }

  lemma BatchTakesMoreUrgent(sources: seq<Source>, now: Instant, locked: set<nat>, n: nat, ids: seq<nat>, i: nat,
                             p: nat)
    requires IsBatch(sources, now, locked, n, ids) && i in Eligible(sources, now, locked)
    requires p < |ids| && MoreUrgent(sources, i, ids[p])
    ensures i in ids
  {
    if i !in ids {
      NoUrgentSourceIsPassedOver(sources, now, locked, n, ids, i, p);
    }
  }

  /** An emission from `s` that includes `job`. */
  ghost predicate Emits(s: State, step: Step, job: Job) {
    step.Emit? && Enabled(s, step) && job in JobsFor(s.sources, step.ids, step.at)
  }

  /** Every active, due, unlocked source that is more urgent than source `j` has a job of that moment among these. */
  ghost predicate MoreUrgentAreServed(s: State, step: Step, j: nat, jobs: seq<Job>) {
    step.Emit? ==>
      forall i: nat :: i in Eligible(s.sources, step.at, step.locked) && MoreUrgent(s.sources, i, j) ==>
                         JobFor(s.sources, i, step.at) in jobs
  }

  lemma EmissionServesMoreUrgent(s: State, step: Step, p: nat)
    requires step.Emit? && Enabled(s, step) && p < |step.ids|
    ensures Emits(s, step, JobFor(s.sources, step.ids[p], step.at))
    ensures MoreUrgentAreServed(s, step, step.ids[p], JobsFor(s.sources, step.ids, step.at))
  {
    var jobs := JobsFor(s.sources, step.ids, step.at);
    assert jobs[p] in jobs;
    forall i: nat | i in Eligible(s.sources, step.at, step.locked) && MoreUrgent(s.sources, i, step.ids[p])
      ensures JobFor(s.sources, i, step.at) in jobs
    {
      BatchTakesMoreUrgent(s.sources, step.at, step.locked, step.n, step.ids, i, p);
      var q :| 0 <= q < |step.ids| && step.ids[q] == i;
      assert jobs[q] in jobs;
    }
  }

  lemma JobsGrow(s: State, step: Step, job: Job)
    requires job in s.jobs
    ensures job in Take(s, step).jobs
  {
  }

  lemma ServedStaysServed(s: State, step: Step, j: nat, now: State, next: Step)
    requires MoreUrgentAreServed(s, step, j, now.jobs)
    ensures MoreUrgentAreServed(s, step, j, Take(now, next).jobs)
  {
    if step.Emit? {
      forall i: nat | i in Eligible(s.sources, step.at, step.locked) && MoreUrgent(s.sources, i, j)
        ensures JobFor(s.sources, i, step.at) in Take(now, next).jobs
      {
        JobsGrow(now, next, JobFor(s.sources, i, step.at));
      }
    }
  }

  lemma NewJobServesMoreUrgent(s: State, step: Step, b: nat)
    requires |s.jobs| <= b < |Take(s, step).jobs|
    ensures var job := Take(s, step).jobs[b];
            Emits(s, step, job) && MoreUrgentAreServed(s, step, job.source, Take(s, step).jobs)
  {
    JobsAfterEmit(s, step, b);
    EmissionServesMoreUrgent(s, step, b - |s.jobs|);
  }

  /**
   Over any run: each job came out of an emission that also emitted a job for every active, due,
   unlocked source which was more urgent at that moment.
   */
  lemma {:induction false} JobsComeWithMoreUrgentOnes(steps: seq<Step>, b: nat) returns (k: nat)
    requires b < |TakeAll(steps).jobs|
    ensures k < |steps| && Emits(TakeAll(steps[..k]), steps[k], TakeAll(steps).jobs[b])
    ensures MoreUrgentAreServed(TakeAll(steps[..k]), steps[k], TakeAll(steps).jobs[b].source, TakeAll(steps).jobs)
  {
    var n := |steps| - 1;
    var s, step := TakeAll(steps[..n]), steps[n];
    if b < |s.jobs| {
      k := JobsComeWithMoreUrgentOnes(steps[..n], b);
      assert steps[..n][..k] == steps[..k];
      ServedStaysServed(TakeAll(steps[..k]), steps[k], s.jobs[b].source, s, step);
      assert Take(s, step).jobs[b] == s.jobs[b];
    } else {
      k := n;
      NewJobServesMoreUrgent(s, step, b);
    }
  }

  /** Active and due, and not locked by another scheduler. */
  ghost predicate MayBeCrawled(sources: seq<Source>, now: Instant, locked: set<nat>, i: nat) {
    && i < |sources| && i !in locked && sources[i].active
    && sources[i].nextCrawlAt != None && sources[i].nextCrawlAt.value <= now
  }

  /** Of higher priority, or of the same and due no later. */
  ghost predicate NoLessUrgent(a: Source, b: Source) {
    a.nextCrawlAt.Some? && b.nextCrawlAt.Some? &&
    (a.priority > b.priority || (a.priority == b.priority && a.nextCrawlAt.value <= b.nextCrawlAt.value))
  }

  /** Sources that may be crawled, each once and the more urgent first; none is left out unless the batch is full. */
  ghost predicate TakesMostUrgent(sources: seq<Source>, now: Instant, locked: set<nat>, n: nat, ids: seq<nat>) {
    && |ids| <= n
    && (forall p :: 0 <= p < |ids| ==> MayBeCrawled(sources, now, locked, ids[p]))
    && (forall p, q :: 0 <= p < q < |ids| ==> ids[p] != ids[q] && NoLessUrgent(sources[ids[p]], sources[ids[q]]))
    && (forall j: nat :: MayBeCrawled(sources, now, locked, j) && j !in ids ==>
          |ids| == n && forall p :: 0 <= p < |ids| ==> NoLessUrgent(sources[ids[p]], sources[j]))
  }

  /** The query takes the most urgent sources. */
  lemma BatchTakesMostUrgent(sources: seq<Source>, now: Instant, locked: set<nat>, n: nat, ids: seq<nat>)
    requires IsBatch(sources, now, locked, n, ids)
    ensures TakesMostUrgent(sources, now, locked, n, ids)
  {
    forall p, q | 0 <= p < q < |ids|
      ensures ids[p] != ids[q] && NoLessUrgent(sources[ids[p]], sources[ids[q]])
    {
      assert !Less(Keys(sources)[ids[q]], Keys(sources)[ids[p]]);
    }
    forall j: nat | MayBeCrawled(sources, now, locked, j) && j !in ids
      ensures |ids| == n && forall p :: 0 <= p < |ids| ==> NoLessUrgent(sources[ids[p]], sources[j])
    {
      assert j in Eligible(sources, now, locked);
      assert NoLater(Keys(sources), n, ids, j);
    }
  }

  /** An emission sets the next crawl, backed off after failures, and nothing else. */
  ghost predicate IsRescheduled(was: Source, next: Source, now: Instant) {
    var doubled := was.recrawlHours * Pow2(was.failures);
    var hours := if was.failures == 0 then was.recrawlHours else if doubled < 720 then doubled else 720;
    next == was.(nextCrawlAt := Some(now + hours * HOUR))
  }

  lemma EmissionReschedules(sources: seq<Source>, ids: seq<nat>, now: Instant)
    ensures forall i: nat :: i < |sources| && i in ids ==> IsRescheduled(sources[i], EmitAll(sources, ids, now)[i], now)
  {
  }

  // ---- the scheduler -----------------------------------------------------------------------------------

  class Scheduler {
    var sources: seq<Source>
    var jobs: seq<Job>

    ghost function Model(): State
      reads this
    {
      State(sources, jobs)
    }

    constructor ()
      ensures Model() == EMPTY
    {
      sources, jobs := [], [];
    }

    method RegisterSource(now: Instant, target: Target, priority: int, recrawlHours: int, rateLimit: int)
      returns (i: nat)
      modifies this`sources
      ensures i == |old(sources)| && |sources| == i + 1 && sources[..i] == old(sources)
      ensures sources[i].target == target && sources[i].priority == priority && sources[i].rateLimit == rateLimit
      ensures sources[i].recrawlHours == recrawlHours && sources[i].active && sources[i].nextCrawlAt == Some(now)
      ensures sources[i].failures == 0 && sources[i].healthScore == 1.0 && sources[i].lastError == None
      ensures Model() == Take(old(Model()), Register(now, target, priority, recrawlHours, rateLimit))
    {
      i := |sources|;
      sources := sources + [Registered(target, priority, recrawlHours, rateLimit, now)];
    }

    method EmitDueJobs(now: Instant, locked: set<nat>, batchSize: nat) returns (emitted: seq<Job>)
      modifies this
      ensures exists ids :: TakesMostUrgent(old(sources), now, locked, batchSize, ids)
                            && IsBatch(old(sources), now, locked, batchSize, ids)
                            && emitted == JobsFor(old(sources), ids, now)
                            && Model() == Take(old(Model()), Emit(now, locked, batchSize, ids))
    {
      var ids := SelectFirst(Keys(sources), Eligible(sources, now, locked), batchSize);
      SelectFirstIsFirst(Keys(sources), Eligible(sources, now, locked), batchSize);
      BatchTakesMostUrgent(sources, now, locked, batchSize, ids);
      emitted := EmitFor(ids, now);
      assert IsBatch(old(sources), now, locked, batchSize, ids);
    }

    /** The loop of `emit_due_jobs` over the selected sources. */
    method EmitFor(ids: seq<nat>, now: Instant) returns (emitted: seq<Job>)
      requires InRange(ids, |sources|)
      requires forall p, q :: 0 <= p < q < |ids| ==> ids[p] != ids[q]
      modifies this
      ensures |emitted| == |ids| && jobs == old(jobs) + emitted && |sources| == |old(sources)|
      ensures forall p :: 0 <= p < |ids| ==>
                emitted[p] == Job(ids[p], old(sources)[ids[p]].target, old(sources)[ids[p]].priority, now)
      ensures forall i: nat :: i < |sources| && i !in ids ==> sources[i] == old(sources)[i]
      ensures forall i: nat :: i < |sources| && i in ids ==> IsRescheduled(old(sources)[i], sources[i], now)
      ensures emitted == JobsFor(old(sources), ids, now)
      ensures sources == EmitAll(old(sources), ids, now) && jobs == old(jobs) + emitted
    {
      emitted := [];
      for k := 0 to |ids|
        invariant sources == EmitAll(old(sources), ids[..k], now)
        invariant emitted == JobsFor(old(sources), ids[..k], now) && jobs == old(jobs) + emitted
      {
        EmitOneMore(old(sources), ids, k, now);
        var src := sources[ids[k]];
        var job := Job(ids[k], src.target, src.priority, now);
        jobs := jobs + [job];
        src := src.(nextCrawlAt := Some(now + src.DelayHours() * HOUR));
        sources := sources[ids[k] := src];
        emitted := emitted + [job];
      }
      assert ids[..|ids|] == ids;
      EmissionReschedules(old(sources), ids, now);
    }

    method RecordSuccess(i: nat, now: Instant)
      modifies this`sources
      ensures i >= |old(sources)| ==> sources == old(sources)
      ensures i < |old(sources)| ==>
                var was := old(sources)[i];
                && |sources| == |old(sources)|
                && (forall j :: 0 <= j < |sources| && j != i ==> sources[j] == old(sources)[j])
                && sources[i] == was.(lastCrawledAt := Some(now), failures := 0, lastError := None,
                                      healthScore := if was.healthScore < 0.9 then was.healthScore + 0.1 else 1.0)
      ensures Model() == Take(old(Model()), Success(now, i))
    {
      if i >= |sources| {
        return;
      }
      var src := sources[i];
      src := src.(lastCrawledAt := Some(now));
      src := src.(failures := 0);
      src := src.(healthScore := if src.healthScore + 0.1 < 1.0 then src.healthScore + 0.1 else 1.0);
      src := src.(lastError := None);
      sources := sources[i := src];
    }

    method RecordFailure(i: nat, error: string, now: Instant)
      modifies this`sources
      ensures i >= |old(sources)| ==> sources == old(sources)
      ensures i < |old(sources)| ==>
                var was := old(sources)[i];
                var hours := was.recrawlHours * Pow2(was.failures + 1);
                && |sources| == |old(sources)|
                && (forall j :: 0 <= j < |sources| && j != i ==> sources[j] == old(sources)[j])
                && sources[i] == was.(failures := was.failures + 1,
                                      lastError := Some(if |error| > 2000 then error[..2000] else error),
                                      healthScore := if was.healthScore > 0.2 then was.healthScore - 0.2 else 0.0,
                                      nextCrawlAt := Some(now + (if hours < 720 then hours else 720) * HOUR))
      ensures Model() == Take(old(Model()), Failure(now, i, error))
    {
      if i >= |sources| {
        return;
      }
      var src := sources[i];
      src := src.(failures := src.failures + 1);
      src := src.(healthScore := if src.healthScore - 0.2 > 0.0 then src.healthScore - 0.2 else 0.0);
      src := src.(lastError := Some(if |error| <= 2000 then error else error[..2000]));
      src := src.(nextCrawlAt := Some(now + src.DelayHours() * HOUR));
      sources := sources[i := src];
    }
  }
}
