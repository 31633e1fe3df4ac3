/** Nudges to workspaces, at most one a week each (workers/retention/retention_agent.py). */
module Retention {
  import opened Wrappers
  import opened Instants

  const WEEK: int := 604_800_000_000

  datatype RetentionState = RetentionState(
    lastNudgeAt: Option<Instant>,
    nudgeCount: nat,
    suppressedUntil: Option<Instant>,
    maxNudgesPerMonth: int,
    active: bool
  ) {
    predicate CanNudge(now: Instant) {
      && active
      && !(suppressedUntil.Some? && now < suppressedUntil.value)
      && !(lastNudgeAt.Some? && now - lastNudgeAt.value < WEEK)
    }
  }

  const NEW_STATE := RetentionState(None, 0, None, 4, true)

  type WorkspaceId = string

  datatype Nudge = Nudge(workspace: WorkspaceId, at: Instant, suppressed: bool)

  datatype Agent = Agent(states: map<WorkspaceId, RetentionState>, nudges: seq<Nudge>) {
    /** `get_or_create_state` */
    function StateOf(ws: WorkspaceId): RetentionState {
      if ws in states then states[ws] else NEW_STATE
    }
  }

  datatype Step =
    | Schedule(at: Instant, workspace: WorkspaceId)
    | Suppress(at: Instant, workspace: WorkspaceId, days: int)
    | Deactivate(at: Instant, workspace: WorkspaceId)

  /** What a step does to the record of its workspace. */
  function Advance(s: RetentionState, step: Step): RetentionState {
    match step
    case Schedule(at, _) => if s.CanNudge(at) then s.(lastNudgeAt := Some(at), nudgeCount := s.nudgeCount + 1) else s
    case Suppress(at, _, days) => s.(suppressedUntil := Some(at + days * DAY))
    case Deactivate(_, _) => s.(active := false)
  }

  /** Every scheduled nudge is logged, sent or suppressed. */
  function Logged(s: RetentionState, step: Step): seq<Nudge> {
    if step.Schedule? then [Nudge(step.workspace, step.at, !s.CanNudge(step.at))] else []
  }

  function Take(a: Agent, step: Step): Agent {
    var s := a.StateOf(step.workspace);
    Agent(a.states[step.workspace := Advance(s, step)], a.nudges + Logged(s, step))
  }

  function TakeAll(steps: seq<Step>): Agent {
    if steps == [] then Agent(map[], []) else Take(TakeAll(steps[..|steps| - 1]), steps[|steps| - 1])
  }

  /** When nudges were really sent to a workspace. */
  function SentAt(nudges: seq<Nudge>, ws: WorkspaceId): seq<Instant> {
    if nudges == [] then []
    else
      var last := nudges[|nudges| - 1];
      SentAt(nudges[..|nudges| - 1], ws) + (if last.workspace == ws && !last.suppressed then [last.at] else [])
  }

  function Within(times: seq<Instant>, lo: Instant, hi: Instant): nat {
    if times == [] then 0
    else Within(times[..|times| - 1], lo, hi) + (if lo <= times[|times| - 1] < hi then 1 else 0)
  }

  ghost predicate WeeksApart(times: seq<Instant>) {
    forall i, j :: 0 <= i < j < |times| ==> times[j] - times[i] >= WEEK
  }

  /** A step concerns its own workspace only, and sends at most one nudge there. */
  lemma StepOnWorkspace(a: Agent, step: Step, ws: WorkspaceId)
    ensures var s, t := a.StateOf(ws), Take(a, step);
            && t.StateOf(ws) == (if step.workspace == ws then Advance(s, step) else s)
            && SentAt(t.nudges, ws) == SentAt(a.nudges, ws) +
               (if step.Schedule? && step.workspace == ws && s.CanNudge(step.at) then [step.at] else [])
  {
    var logged := Logged(a.StateOf(step.workspace), step);
    if logged == [] {
      assert a.nudges + logged == a.nudges;
    } else {
      assert (a.nudges + logged)[..|a.nudges|] == a.nudges;
    }
  }

  /** The counters of a workspace agree with the nudges logged for it, which are a week apart. */
  lemma {:induction false} CountersAgreeWithLog(steps: seq<Step>, ws: WorkspaceId)
    ensures var a := TakeAll(steps);
            var times := SentAt(a.nudges, ws);
            && a.StateOf(ws).nudgeCount == |times|
            && a.StateOf(ws).lastNudgeAt == (if times == [] then None else Some(times[|times| - 1]))
            && WeeksApart(times)
  {
    if steps != [] {
      var n := |steps| - 1;
      CountersAgreeWithLog(steps[..n], ws);
      StepOnWorkspace(TakeAll(steps[..n]), steps[n], ws);
      var a, step := TakeAll(steps[..n]), steps[n];
      if step.Schedule? && step.workspace == ws && a.StateOf(ws).CanNudge(step.at) {
        AnotherWeek(SentAt(a.nudges, ws), step.at);
      }
    }
  }

  lemma AnotherWeek(times: seq<Instant>, t: Instant)
    requires WeeksApart(times) && (times != [] ==> t - times[|times| - 1] >= WEEK)
    ensures WeeksApart(times + [t])
  {
    assert forall i :: 0 <= i < |times| ==> i == |times| - 1 || times[|times| - 1] - times[i] >= WEEK;
  }

  lemma {:induction false} WeeksApartBoundsWindow(times: seq<Instant>, lo: Instant, k: nat)
    requires WeeksApart(times)
    ensures Within(times, lo, lo + k * WEEK) <= k
    decreases |times|, k
  {
    if times != [] {
      var n := |times| - 1;
      var last := times[n];
      WeeksApartBoundsWindow(times[..n], lo, k);
      if lo <= last < lo + k * WEEK {
        WeeksApartBoundsWindow(times[..n], lo, k - 1);
        SameWithin(times[..n], lo, lo + (k - 1) * WEEK, lo + k * WEEK);
      }
    }
  }

  lemma {:induction false} SameWithin(times: seq<Instant>, lo: Instant, mid: Instant, hi: Instant)
    requires mid <= hi && forall i :: 0 <= i < |times| ==> times[i] < mid
    ensures Within(times, lo, hi) == Within(times, lo, mid)
  {
    if times != [] {
      SameWithin(times[..|times| - 1], lo, mid, hi);
    }
  }

  /** However the window of k weeks is placed, at most k nudges reach a workspace in it. */
  lemma NudgesArePaced(steps: seq<Step>, ws: WorkspaceId, lo: Instant, k: nat)
    ensures Within(SentAt(TakeAll(steps).nudges, ws), lo, lo + k * WEEK) <= k
  {
    CountersAgreeWithLog(steps, ws);
    WeeksApartBoundsWindow(SentAt(TakeAll(steps).nudges, ws), lo, k);
  }

  lemma {:induction false} WithinGrows(times: seq<Instant>, lo: Instant, mid: Instant, hi: Instant)
    requires mid <= hi
    ensures Within(times, lo, mid) <= Within(times, lo, hi)
  {
    if times != [] {
      WithinGrows(times[..|times| - 1], lo, mid, hi);
    }
  }

  /** So a window of 30 days sees at most five nudges ... */
  lemma FiveNudgesAMonthAtMost(steps: seq<Step>, ws: WorkspaceId, lo: Instant)
    ensures Within(SentAt(TakeAll(steps).nudges, ws), lo, lo + 30 * DAY) <= 5
  {
    NudgesArePaced(steps, ws, lo, 5);
    WithinGrows(SentAt(TakeAll(steps).nudges, ws), lo, lo + 30 * DAY, lo + 5 * WEEK);
  }

  /** A nudge a week, from the epoch on. */
  ghost predicate IsWeekly(steps: seq<Step>, ws: WorkspaceId) {
    forall k :: 0 <= k < |steps| ==> steps[k] == Schedule(k * WEEK, ws)
  }

  /** A state that has sent `n` weekly nudges and was never suppressed or deactivated. */
  ghost function SentWeekly(n: nat): RetentionState {
    RetentionState(if n == 0 then None else Some((n - 1) * WEEK), n, None, 4, true)
  }

  function Weeks(n: nat): (times: seq<Instant>)
    ensures |times| == n && forall i :: 0 <= i < n ==> times[i] == i * WEEK
  {
    if n == 0 then [] else Weeks(n - 1) + [(n - 1) * WEEK]
  }

  lemma {:induction false} WeeklyNudgesAreAllSent(steps: seq<Step>, ws: WorkspaceId)
    requires IsWeekly(steps, ws)
    ensures TakeAll(steps).StateOf(ws) == SentWeekly(|steps|) && SentAt(TakeAll(steps).nudges, ws) == Weeks(|steps|)
  {
    if steps != [] {
      var n := |steps| - 1;
      WeeklyNudgesAreAllSent(steps[..n], ws);
      StepOnWorkspace(TakeAll(steps[..n]), steps[n], ws);
      assert SentWeekly(n).CanNudge(n * WEEK);
    }
  }

  lemma {:induction false} AllWithin(times: seq<Instant>, lo: Instant, hi: Instant)
    requires forall i :: 0 <= i < |times| ==> lo <= times[i] < hi
    ensures Within(times, lo, hi) == |times|
  {
    if times != [] {
      AllWithin(times[..|times| - 1], lo, hi);
    }
  }

  /** No workspace ever gets more nudges in a window no longer than `w` than `max_nudges_per_month` says. */
  ghost predicate MonthlyLimitHolds(w: int) {
    forall steps: seq<Step>, ws: WorkspaceId, lo: Instant, hi: Instant ::
      hi - lo <= w ==> Within(SentAt(TakeAll(steps).nudges, ws), lo, hi) <= NEW_STATE.maxNudgesPerMonth
  }

  function WeeklySteps(ws: WorkspaceId): (steps: seq<Step>)
    ensures IsWeekly(steps, ws) && |steps| == 5
  {
    seq(5, k requires 0 <= k < 5 => Schedule(k * WEEK, ws))
  }

  lemma FiveWeeklyNudges(steps: seq<Step>, ws: WorkspaceId, w: int)
    requires IsWeekly(steps, ws) && |steps| == 5 && w > 4 * WEEK
    ensures Within(SentAt(TakeAll(steps).nudges, ws), 0, w) == 5
  {
    WeeklyNudgesAreAllSent(steps, ws);
    AllWithin(SentAt(TakeAll(steps).nudges, ws), 0, w);
  }

  lemma FourInFourWeeks(times: seq<Instant>, lo: Instant, hi: Instant)
    requires WeeksApart(times) && hi <= lo + 4 * WEEK
    ensures Within(times, lo, hi) <= 4
  {
    WeeksApartBoundsWindow(times, lo, 4);
    WithinGrows(times, lo, hi, lo + 4 * WEEK);
  }

  lemma FourWeeksKeepLimit(w: int)
    requires w <= 4 * WEEK
    ensures MonthlyLimitHolds(w)
  {
    forall steps: seq<Step>, ws: WorkspaceId, lo: Instant, hi: Instant | hi - lo <= w
      ensures Within(SentAt(TakeAll(steps).nudges, ws), lo, hi) <= 4
    {
      CountersAgreeWithLog(steps, ws);
      FourInFourWeeks(SentAt(TakeAll(steps).nudges, ws), lo, hi);
    }
  }

  /**
   ... and five it can be: nothing enforces `max_nudges_per_month`, which is four.  The weekly
   cooldown alone keeps it, for windows of up to four weeks and no longer ones.
   */
  lemma MonthlyLimitHoldsIffFourWeeks(w: int)
    ensures MonthlyLimitHolds(w) <==> w <= 4 * WEEK
  {
    if w <= 4 * WEEK {
      FourWeeksKeepLimit(w);
    } else {
      FiveWeeklyNudges(WeeklySteps("ws"), "ws", w);
    }
  }

  /** Inactive, with these nudges sent so far. */
  ghost predicate SilentSince(a: Agent, ws: WorkspaceId, times: seq<Instant>) {
    !a.StateOf(ws).active && SentAt(a.nudges, ws) == times
  }

  lemma StepKeepsSilent(a: Agent, step: Step, ws: WorkspaceId, times: seq<Instant>)
    requires SentAt(a.nudges, ws) == times
    requires !a.StateOf(ws).active || (step.Deactivate? && step.workspace == ws)
    ensures SilentSince(Take(a, step), ws, times)
  {
    StepOnWorkspace(a, step, ws);
  }

  lemma {:induction false} InactiveStaysSilent(steps: seq<Step>, k: nat, n: nat, ws: WorkspaceId)
    requires k < n <= |steps| && steps[k].Deactivate? && steps[k].workspace == ws
    ensures SilentSince(TakeAll(steps[..n]), ws, SentAt(TakeAll(steps[..k]).nudges, ws))
    decreases n
  {
    assert steps[..n][..n - 1] == steps[..n - 1];
    if k < n - 1 {
      InactiveStaysSilent(steps, k, n - 1, ws);
    }
    StepKeepsSilent(TakeAll(steps[..n - 1]), steps[n - 1], ws, SentAt(TakeAll(steps[..k]).nudges, ws));
  }

  /** Once deactivated, a workspace gets no more nudges. */
  lemma NoNudgesAfterDeactivation(steps: seq<Step>, k: nat, ws: WorkspaceId)
    requires k < |steps| && steps[k].Deactivate? && steps[k].workspace == ws
    ensures !TakeAll(steps).StateOf(ws).active
    ensures SentAt(TakeAll(steps).nudges, ws) == SentAt(TakeAll(steps[..k]).nudges, ws)
  {
    InactiveStaysSilent(steps, k, |steps|, ws);
    assert steps[..|steps|] == steps;
  }

  // ---- exactly which nudges are sent ----------------------------------------------------------------

  ghost predicate Deactivated(steps: seq<Step>, ws: WorkspaceId) {
    exists k :: 0 <= k < |steps| && steps[k].Deactivate? && steps[k].workspace == ws
  }

  ghost predicate SuppressesAt(steps: seq<Step>, ws: WorkspaceId, k: nat) {
    k < |steps| && steps[k].Suppress? && steps[k].workspace == ws
  }

  /** The last suppression of the workspace. */
  ghost predicate LastSuppression(steps: seq<Step>, ws: WorkspaceId, k: nat) {
    SuppressesAt(steps, ws, k) && forall m: nat :: k < m ==> !SuppressesAt(steps, ws, m)
  }

  /** That suppression has not run out. */
  ghost predicate SuppressedAt(steps: seq<Step>, ws: WorkspaceId, now: Instant) {
    exists k: nat :: LastSuppression(steps, ws, k) && now < steps[k].at + steps[k].days * DAY
  }

  /** The record of a workspace knows whether it was deactivated, and the end of its last suppression. */
  ghost predicate Remembers(s: RetentionState, steps: seq<Step>, ws: WorkspaceId) {
    && (s.active <==> !Deactivated(steps, ws))
    && (s.suppressedUntil.None? ==> forall k: nat :: !SuppressesAt(steps, ws, k))
    && (s.suppressedUntil.Some? ==>
          exists k: nat :: LastSuppression(steps, ws, k)
                           && s.suppressedUntil.value == steps[k].at + steps[k].days * DAY)
  }

  lemma StepIsRemembered(s: RetentionState, steps: seq<Step>, step: Step, ws: WorkspaceId)
    requires Remembers(s, steps, ws)
    ensures Remembers(if step.workspace == ws then Advance(s, step) else s, steps + [step], ws)
  {
    var all, n := steps + [step], |steps|;
    assert forall k: nat :: SuppressesAt(all, ws, k) <==>
                            SuppressesAt(steps, ws, k) || (k == n && step.Suppress? && step.workspace == ws);
    assert Deactivated(all, ws) <==> Deactivated(steps, ws) || (step.Deactivate? && step.workspace == ws) by {
      assert all[n] == step;
      if k :| 0 <= k < n && steps[k].Deactivate? && steps[k].workspace == ws {
        assert all[k] == steps[k];
      }
    }
    if step.Suppress? && step.workspace == ws {
      assert LastSuppression(all, ws, n) && all[n] == step;
    } else if s.suppressedUntil.Some? {
      var k: nat :| LastSuppression(steps, ws, k) && s.suppressedUntil.value == steps[k].at + steps[k].days * DAY;
      assert LastSuppression(all, ws, k) && all[k] == steps[k];
    }
  }

  lemma {:induction false} RecordRemembers(steps: seq<Step>, ws: WorkspaceId)
    ensures Remembers(TakeAll(steps).StateOf(ws), steps, ws)
  {
    if steps != [] {
      var n := |steps| - 1;
      RecordRemembers(steps[..n], ws);
      StepOnWorkspace(TakeAll(steps[..n]), steps[n], ws);
      StepIsRemembered(TakeAll(steps[..n]).StateOf(ws), steps[..n], steps[n], ws);
      assert steps == steps[..n] + [steps[n]];
    }
  }

  lemma CanNudgeIff(steps: seq<Step>, ws: WorkspaceId, now: Instant)
    ensures var times := SentAt(TakeAll(steps).nudges, ws);
            TakeAll(steps).StateOf(ws).CanNudge(now) <==>
            && !Deactivated(steps, ws) && !SuppressedAt(steps, ws, now)
            && (times == [] || now >= times[|times| - 1] + 7 * DAY)
  {
    RecordRemembers(steps, ws);
    CountersAgreeWithLog(steps, ws);
    var s := TakeAll(steps).StateOf(ws);
    if s.suppressedUntil.Some? {
      var k: nat :| LastSuppression(steps, ws, k) && s.suppressedUntil.value == steps[k].at + steps[k].days * DAY;
      assert forall j: nat :: LastSuppression(steps, ws, j) ==> j == k;
    }
  }

  /**
   After any run a nudge is sent exactly when the workspace was never deactivated, its last suppression
   has run out, and its last nudge that was sent is at least seven days old.
   */
  lemma NudgeIsSentIff(steps: seq<Step>, ws: WorkspaceId, now: Instant)
    ensures var before, after := TakeAll(steps), TakeAll(steps + [Schedule(now, ws)]);
            var times := SentAt(before.nudges, ws);
            && after.nudges == before.nudges + [Nudge(ws, now, after.nudges[|after.nudges| - 1].suppressed)]
            && (!after.nudges[|after.nudges| - 1].suppressed <==>
                && !Deactivated(steps, ws) && !SuppressedAt(steps, ws, now)
                && (times == [] || now >= times[|times| - 1] + 7 * DAY))
  {
    assert (steps + [Schedule(now, ws)])[..|steps|] == steps;
    CanNudgeIff(steps, ws, now);
  }

  class RetentionAgent {
    var states: map<WorkspaceId, RetentionState>
    var nudges: seq<Nudge>

    ghost function Model(): Agent
      reads this
    {
      Agent(states, nudges)
    }

    constructor ()
      ensures Model() == TakeAll([])
    {
      states, nudges := map[], [];
    }

    method GetOrCreateState(ws: WorkspaceId) returns (s: RetentionState)
      modifies this`states
      ensures s == old(Model()).StateOf(ws) && states == old(states)[ws := s]
    {
      if ws !in states {
        states := states[ws := NEW_STATE];
      }
      s := states[ws];
    }

    method ScheduleNudge(ws: WorkspaceId, now: Instant) returns (nudge: Nudge)
      modifies this
      ensures Model() == Take(old(Model()), Schedule(now, ws))
      ensures nudge == Nudge(ws, now, !old(Model()).StateOf(ws).CanNudge(now))
      ensures nudges == old(nudges) + [nudge] && ws in states
      ensures ws in old(states) ==>
                var s := old(states)[ws];
                && (!nudge.suppressed <==>
                    && s.active && (s.suppressedUntil.Some? ==> now >= s.suppressedUntil.value)
                    && (s.lastNudgeAt.Some? ==> now - s.lastNudgeAt.value >= 7 * DAY))
                && states[ws] == (if nudge.suppressed then s
                                  else s.(lastNudgeAt := Some(now), nudgeCount := s.nudgeCount + 1))
      ensures ws !in old(states) ==> !nudge.suppressed && states[ws] == RetentionState(Some(now), 1, None, 4, true)
    {
      var state := GetOrCreateState(ws);
      nudge := Nudge(ws, now, false);
      if !state.CanNudge(now) {
        nudge := nudge.(suppressed := true);
      }
      if !nudge.suppressed {
        state := state.(lastNudgeAt := Some(now));
        state := state.(nudgeCount := state.nudgeCount + 1);
        states := states[ws := state];
      }
      nudges := nudges + [nudge];
    }

    method SuppressWorkspace(ws: WorkspaceId, days: int, now: Instant)
      modifies this`states
      ensures ws in states && states[ws].suppressedUntil == Some(now + days * DAY)
      ensures ws in old(states) ==>
                states == old(states)[ws := old(states)[ws].(suppressedUntil := Some(now + days * DAY))]
      ensures Model() == Take(old(Model()), Suppress(now, ws, days))
    {
      var state := GetOrCreateState(ws);
      states := states[ws := state.(suppressedUntil := Some(now + days * DAY))];
    }

    method DeactivateWorkspace(ws: WorkspaceId, now: Instant)
      modifies this`states
      ensures ws in states && !states[ws].active
      ensures ws in old(states) ==> states == old(states)[ws := old(states)[ws].(active := false)]
      ensures Model() == Take(old(Model()), Deactivate(now, ws))
    {
      var state := GetOrCreateState(ws);
      states := states[ws := state.(active := false)];
    }
  }
}
