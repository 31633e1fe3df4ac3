/**
 The budget row of one lane: two fixed-window counters with lazy resets (services/lanes.py).
 The lemmas bound what any run can consume in a window that slides freely.
 */
module LaneBudgets {
  import opened Wrappers
  import opened Instants

  datatype Kind = PausedKind | DailyKind | HourlyKind

  datatype Budget = Budget(
    dailyLimit: int,
    hourlyLimit: int,
    usedToday: int,
    usedThisHour: int,
    dailyResetAt: Instant,
    hourlyResetAt: Instant,
    hardPause: bool
  ) {
    /** `_maybe_reset` */
    function Reset(now: Instant): Budget {
      var b := if Date(dailyResetAt) < Date(now) then this.(usedToday := 0, dailyResetAt := now) else this;
      if now - hourlyResetAt >= HOUR then b.(usedThisHour := 0, hourlyResetAt := now) else b
    }

    /** The row after `check_budget`; a paused lane returns before the reset. */
    function AfterCheck(now: Instant): Budget {
      if hardPause then this else Reset(now)
    }

    /** What `check_budget` answers. */
    predicate Passes(now: Instant) {
      !hardPause && Reset(now).usedToday < dailyLimit && Reset(now).usedThisHour < hourlyLimit
    }

    /** The exception that `consume` raises, if any. */
    function Refusal(now: Instant, count: int): Option<Kind> {
      if hardPause then Some(PausedKind)
      else if Reset(now).usedToday + count > dailyLimit then Some(DailyKind)
      else if Reset(now).usedThisHour + count > hourlyLimit then Some(HourlyKind)
      else None
    }

    /** The row after `consume`, raised or not: the reset has been flushed either way. */
    function AfterConsume(now: Instant, count: int): Budget {
      var b := AfterCheck(now);
      if Refusal(now, count).Some? then b
      else b.(usedToday := b.usedToday + count, usedThisHour := b.usedThisHour + count)
    }
  }

  datatype Op = Check | Consume(count: nat) | SetPause(paused: bool)

  datatype Event = Event(at: Instant, op: Op)

  /** Units taken from the budget at an instant. */
  datatype Charge = Charge(at: Instant, units: nat)

  function Apply(b: Budget, e: Event): Budget {
    match e.op
    case Check => b.AfterCheck(e.at)
    case Consume(count) => b.AfterConsume(e.at, count)
    case SetPause(paused) => b.(hardPause := paused)
  }

  function ChargeOf(b: Budget, e: Event): seq<Charge> {
    if e.op.Consume? && b.Refusal(e.at, e.op.count).None? then [Charge(e.at, e.op.count)] else []
  }

  function Run(start: Budget, events: seq<Event>): Budget {
    if events == [] then start else Apply(Run(start, events[..|events| - 1]), events[|events| - 1])
  }

  /** Everything consumed in a run. */
  function Charges(start: Budget, events: seq<Event>): seq<Charge> {
    if events == [] then []
    else
      var n := |events| - 1;
      Charges(start, events[..n]) + ChargeOf(Run(start, events[..n]), events[n])
  }

  /** Units consumed in the half-open window from `lo` to `hi`. */
  function Consumed(log: seq<Charge>, lo: Instant, hi: Instant): nat {
    if log == [] then 0
    else
      var last := log[|log| - 1];
      Consumed(log[..|log| - 1], lo, hi) + (if lo <= last.at < hi then last.units else 0)
  }

  /** Counters never run below zero, as long as no negative counts are consumed. */
  ghost predicate Counting(b: Budget) {
    b.usedToday >= 0 && b.usedThisHour >= 0
  }

  /** The clock never runs backwards, and starts no earlier than the row was reset. */
  ghost predicate Timely(start: Budget, events: seq<Event>) {
    && (forall i :: 0 <= i < |events| ==> start.dailyResetAt <= events[i].at && start.hourlyResetAt <= events[i].at)
    && (forall i, j :: 0 <= i < j < |events| ==> events[i].at <= events[j].at)
  }

  // ---- sums ---------------------------------------------------------------------------------

  function Since(log: seq<Charge>, t: Instant): nat {
    if log == [] then 0
    else Since(log[..|log| - 1], t) + (if t <= log[|log| - 1].at then log[|log| - 1].units else 0)
  }

  lemma {:induction false} ConsumedIsDifference(log: seq<Charge>, lo: Instant, hi: Instant)
    requires lo <= hi
    ensures Consumed(log, lo, hi) == Since(log, lo) - Since(log, hi)
  {
    if log != [] {
      ConsumedIsDifference(log[..|log| - 1], lo, hi);
    }
  }

  lemma {:induction false} SinceIsAntitone(log: seq<Charge>, s: Instant, t: Instant)
    requires s <= t
    ensures Since(log, t) <= Since(log, s)
  {
    if log != [] {
      SinceIsAntitone(log[..|log| - 1], s, t);
    }
  }

  lemma {:induction false} SinceAfterAll(log: seq<Charge>, t: Instant)
    requires forall i :: 0 <= i < |log| ==> log[i].at < t
    ensures Since(log, t) == 0
  {
    if log != [] {
      SinceAfterAll(log[..|log| - 1], t);
    }
  }

  lemma SinceOfAppend(log: seq<Charge>, c: Charge, t: Instant)
    ensures Since(log + [c], t) == Since(log, t) + (if t <= c.at then c.units else 0)
  {
    assert (log + [c])[..|log|] == log;
  }

  // ---- the hourly counter ---------------------------------------------------------------------

  function Cap(limit: int): nat {
    if limit < 0 then 0 else limit
  }

  /**
   What the hourly counter knows about the past: all charges before the last reset `r` that still
   matter within the hour belong to one period, and older windows have been bounded already.
   */
  ghost predicate HourlyAccount(r: Instant, used: int, limit: nat, log: seq<Charge>) {
    && Since(log, r) <= used && Since(log, r) <= limit
    && (forall i :: 0 <= i < |log| ==> log[i].at < r + HOUR)
    && (forall x :: x + HOUR > r ==> Since(log, x) - Since(log, r) <= limit)
    && (forall x :: x + HOUR <= r ==> HourTotal(log, x) <= 2 * limit)
  }

  ghost function HourTotal(log: seq<Charge>, x: Instant): int {
    Since(log, x) - Since(log, x + HOUR)
  }

  lemma HourlyAccountAfterReset(r: Instant, used: int, limit: nat, log: seq<Charge>, now: Instant)
    requires HourlyAccount(r, used, limit, log) && now - r >= HOUR
    ensures HourlyAccount(now, 0, limit, log)
  {
    SinceAfterAll(log, now);
    forall x | x + HOUR > now
      ensures Since(log, x) <= limit
    {
      SinceIsAntitone(log, r, x);
    }
    forall x | x + HOUR <= now
      ensures HourTotal(log, x) <= 2 * limit
    {
      assert x + HOUR > r ==> Since(log, x) - Since(log, r) <= limit;
    }
  }

  lemma HourlyAccountAfterCharge(r: Instant, used: int, limit: nat, log: seq<Charge>, c: Charge)
    requires HourlyAccount(r, used, limit, log)
    requires r <= c.at < r + HOUR && used + c.units <= limit
    ensures HourlyAccount(r, used + c.units, limit, log + [c])
  {
    SinceOfAppend(log, c, r);
    forall x
      ensures x + HOUR > r ==> Since(log + [c], x) - Since(log + [c], r) <= limit
      ensures x + HOUR <= r ==> HourTotal(log + [c], x) <= 2 * limit
    {
      SinceOfAppend(log, c, x);
      SinceOfAppend(log, c, x + HOUR);
      assert x + HOUR > r ==> Since(log, x) - Since(log, r) <= limit;
      assert x + HOUR <= r ==> HourTotal(log, x) <= 2 * limit;
    }
  }

  // ---- the daily counter ----------------------------------------------------------------------

  /** What the daily counter knows: the total of the current date `d`, and a bound for each earlier one. */
  ghost predicate DailyAccount(d: int, used: int, limit: nat, log: seq<Charge>) {
    && Since(log, Midnight(d)) <= used && Since(log, Midnight(d)) <= limit
    && (forall i :: 0 <= i < |log| ==> log[i].at < Midnight(d + 1))
    && (forall e :: e < d ==> DayTotal(log, e) <= limit)
  }

  ghost function DayTotal(log: seq<Charge>, d: int): int {
    Since(log, Midnight(d)) - Since(log, Midnight(d + 1))
  }

  lemma DailyAccountAfterReset(d: int, used: int, limit: nat, log: seq<Charge>, now: Instant)
    requires DailyAccount(d, used, limit, log) && d < Date(now)
    ensures DailyAccount(Date(now), 0, limit, log)
  {
    forall e | d < e
      ensures Since(log, Midnight(e)) == 0
    {
      SinceAfterAll(log, Midnight(e));
    }
    assert Midnight(Date(now)) <= Midnight(Date(now) + 1);
  }

  lemma DailyAccountAfterCharge(d: int, used: int, limit: nat, log: seq<Charge>, c: Charge)
    requires DailyAccount(d, used, limit, log) && Date(c.at) == d && used + c.units <= limit
    ensures DailyAccount(d, used + c.units, limit, log + [c])
  {
    SinceOfAppend(log, c, Midnight(d));
    forall e | e < d
      ensures DayTotal(log + [c], e) <= limit
    {
      SinceOfAppend(log, c, Midnight(e));
      SinceOfAppend(log, c, Midnight(e + 1));
      assert DayTotal(log, e) <= limit;
    }
  }

  // ---- every run ------------------------------------------------------------------------------

  ghost function LastAt(start: Budget, events: seq<Event>): Instant {
    if events != [] then events[|events| - 1].at
    else if start.dailyResetAt <= start.hourlyResetAt then start.hourlyResetAt else start.dailyResetAt
  }

  ghost predicate Accounts(b: Budget, log: seq<Charge>) {
    && HourlyAccount(b.hourlyResetAt, b.usedThisHour, Cap(b.hourlyLimit), log)
    && DailyAccount(Date(b.dailyResetAt), b.usedToday, Cap(b.dailyLimit), log)
  }

  lemma AccountsAfterReset(b: Budget, log: seq<Charge>, now: Instant)
    requires Accounts(b, log) && b.hourlyResetAt <= now && b.dailyResetAt <= now
    ensures Accounts(b.Reset(now), log)
    ensures b.Reset(now).hourlyResetAt <= now < b.Reset(now).hourlyResetAt + HOUR
    ensures b.Reset(now).dailyResetAt <= now && Date(b.Reset(now).dailyResetAt) == Date(now)
  {
    if now - b.hourlyResetAt >= HOUR {
      HourlyAccountAfterReset(b.hourlyResetAt, b.usedThisHour, Cap(b.hourlyLimit), log, now);
    }
    if Date(b.dailyResetAt) < Date(now) {
      DailyAccountAfterReset(Date(b.dailyResetAt), b.usedToday, Cap(b.dailyLimit), log, now);
    }
  }

  lemma AccountsAfterConsume(b: Budget, log: seq<Charge>, now: Instant, count: nat)
    requires Accounts(b, log) && b.hourlyResetAt <= now && b.dailyResetAt <= now && b.Refusal(now, count).None?
    ensures Accounts(b.AfterConsume(now, count), log + [Charge(now, count)])
  {
    AccountsAfterReset(b, log, now);
    var r := b.Reset(now);
    assert b.AfterConsume(now, count) == r.(usedToday := r.usedToday + count, usedThisHour := r.usedThisHour + count);
    HourlyAccountAfterCharge(r.hourlyResetAt, r.usedThisHour, Cap(r.hourlyLimit), log, Charge(now, count));
    DailyAccountAfterCharge(Date(r.dailyResetAt), r.usedToday, Cap(r.dailyLimit), log, Charge(now, count));
  }

  lemma StepKeepsAccounts(b: Budget, log: seq<Charge>, e: Event)
    requires Accounts(b, log) && b.hourlyResetAt <= e.at && b.dailyResetAt <= e.at
    ensures Accounts(Apply(b, e), log + ChargeOf(b, e))
  {
    if ChargeOf(b, e) != [] {
      AccountsAfterConsume(b, log, e.at, e.op.count);
    } else {
      assert log + ChargeOf(b, e) == log;
      if !b.hardPause && !e.op.SetPause? {
        AccountsAfterReset(b, log, e.at);
        assert Apply(b, e) == b.Reset(e.at);
      }
    }
  }

  lemma {:induction false} RunKeepsLimitsAndResets(start: Budget, events: seq<Event>)
    requires Timely(start, events)
    ensures var b := Run(start, events);
            && b.dailyLimit == start.dailyLimit && b.hourlyLimit == start.hourlyLimit
            && b.dailyResetAt <= LastAt(start, events) && b.hourlyResetAt <= LastAt(start, events)
  {
    if events != [] {
      var n := |events| - 1;
      RunKeepsLimitsAndResets(start, events[..n]);
      assert LastAt(start, events[..n]) <= events[n].at;
    }
  }

  lemma {:induction false} RunKeepsAccounts(start: Budget, events: seq<Event>)
    requires Timely(start, events) && Counting(start)
    ensures Accounts(Run(start, events), Charges(start, events))
  {
    if events != [] {
      var n := |events| - 1;
      RunKeepsAccounts(start, events[..n]);
      RunKeepsLimitsAndResets(start, events[..n]);
      assert LastAt(start, events[..n]) <= events[n].at;
      StepKeepsAccounts(Run(start, events[..n]), Charges(start, events[..n]), events[n]);
    }
  }

  /** However an hour is placed, at most two hourly limits are consumed in it. */
  lemma SlidingHourBound(start: Budget, events: seq<Event>, x: Instant)
    requires Timely(start, events) && Counting(start)
    ensures Consumed(Charges(start, events), x, x + HOUR) <= 2 * Cap(start.hourlyLimit)
  {
    RunKeepsAccounts(start, events);
    RunKeepsLimitsAndResets(start, events);
    var b, log := Run(start, events), Charges(start, events);
    ConsumedIsDifference(log, x, x + HOUR);
    if x + HOUR > b.hourlyResetAt {
      assert Since(log, x) - Since(log, b.hourlyResetAt) <= Cap(b.hourlyLimit);
    } else {
      assert HourTotal(log, x) <= 2 * Cap(b.hourlyLimit);
    }
  }

  /** No UTC date sees more than the daily limit. */
  lemma CalendarDayBound(start: Budget, events: seq<Event>, d: int)
    requires Timely(start, events) && Counting(start)
    ensures Consumed(Charges(start, events), Midnight(d), Midnight(d + 1)) <= Cap(start.dailyLimit)
  {
    RunKeepsAccounts(start, events);
    RunKeepsLimitsAndResets(start, events);
    var b, log := Run(start, events), Charges(start, events);
    ConsumedIsDifference(log, Midnight(d), Midnight(d + 1));
    if d > Date(b.dailyResetAt) {
      SinceAfterAll(log, Midnight(d));
    } else {
      assert d < Date(b.dailyResetAt) ==> DayTotal(log, d) <= Cap(b.dailyLimit);
    }
  }

  /** Any 24 hours touch two dates, and so see at most two daily limits. */
  lemma SlidingDayBound(start: Budget, events: seq<Event>, x: Instant)
    requires Timely(start, events) && Counting(start)
    ensures Consumed(Charges(start, events), x, x + DAY) <= 2 * Cap(start.dailyLimit)
  {
    var d, log := Date(x), Charges(start, events);
    CalendarDayBound(start, events, d);
    CalendarDayBound(start, events, d + 1);
    ConsumedIsDifference(log, Midnight(d), Midnight(d + 1));
    ConsumedIsDifference(log, Midnight(d + 1), Midnight(d + 2));
    ConsumedIsDifference(log, x, x + DAY);
    SinceIsAntitone(log, Midnight(d), x);
    SinceIsAntitone(log, x + DAY, Midnight(d + 2));
  }

  // ---- exactly what is refused -----------------------------------------------------------------

  /** Each counter is what has been consumed since its window began. */
  ghost predicate Exact(b: Budget, log: seq<Charge>) {
    b.usedThisHour == Since(log, b.hourlyResetAt) && b.usedToday == Since(log, Midnight(Date(b.dailyResetAt)))
  }

  lemma ResetKeepsExact(b: Budget, log: seq<Charge>, now: Instant)
    requires Accounts(b, log) && Exact(b, log)
    ensures Exact(b.Reset(now), log)
  {
    if now - b.hourlyResetAt >= HOUR {
      SinceAfterAll(log, now);
    }
    if Date(b.dailyResetAt) < Date(now) {
      SinceAfterAll(log, Midnight(Date(now)));
    }
  }

  lemma StepKeepsExact(b: Budget, log: seq<Charge>, e: Event)
    requires Accounts(b, log) && Exact(b, log) && b.hourlyResetAt <= e.at && b.dailyResetAt <= e.at
    ensures Exact(Apply(b, e), log + ChargeOf(b, e))
  {
    ResetKeepsExact(b, log, e.at);
    if ChargeOf(b, e) != [] {
      var r, c := b.Reset(e.at), Charge(e.at, e.op.count);
      SinceOfAppend(log, c, r.hourlyResetAt);
      SinceOfAppend(log, c, Midnight(Date(r.dailyResetAt)));
      AccountsAfterReset(b, log, e.at);
    } else {
      assert log + ChargeOf(b, e) == log;
    }
  }

  lemma {:induction false} RunKeepsExact(start: Budget, events: seq<Event>)
    requires Timely(start, events) && start.usedToday == start.usedThisHour == 0
    ensures Exact(Run(start, events), Charges(start, events))
  {
    if events != [] {
      var n := |events| - 1;
      RunKeepsExact(start, events[..n]);
      RunKeepsAccounts(start, events[..n]);
      RunKeepsLimitsAndResets(start, events[..n]);
      assert LastAt(start, events[..n]) <= events[n].at;
      StepKeepsExact(Run(start, events[..n]), Charges(start, events[..n]), events[n]);
    }
  }

  lemma CountersAreWindows(b: Budget, log: seq<Charge>, now: Instant)
    requires Accounts(b, log) && Exact(b, log) && b.hourlyResetAt <= now && b.dailyResetAt <= now
    requires forall i :: 0 <= i < |log| ==> log[i].at <= now
    ensures b.Reset(now).usedToday == Consumed(log, Midnight(Date(now)), Midnight(Date(now) + 1))
    ensures var begun := if now - b.hourlyResetAt >= HOUR then now else b.hourlyResetAt;
            b.Reset(now).usedThisHour == Consumed(log, begun, now + 1)
  {
    AccountsAfterReset(b, log, now);
    ResetKeepsExact(b, log, now);
    SinceAfterAll(log, Midnight(Date(now) + 1));
    SinceAfterAll(log, now + 1);
    ConsumedIsDifference(log, Midnight(Date(now)), Midnight(Date(now) + 1));
    ConsumedIsDifference(log, b.Reset(now).hourlyResetAt, now + 1);
  }

  /**
   What `consume` refuses after any run of a fresh row, and in which words: whatever the pause is, what
   the UTC date could no longer bear, and what the current hour could no longer bear.  That hour began
   at the last reset, or begins now when 3600 seconds have passed since.
   */
  lemma RefusalsAreExact(start: Budget, events: seq<Event>, now: Instant, count: int)
    requires Timely(start, events) && start.usedToday == start.usedThisHour == 0 && LastAt(start, events) <= now
    ensures var b, log := Run(start, events), Charges(start, events);
            var today := Consumed(log, Midnight(Date(now)), Midnight(Date(now) + 1));
            var begun := if now - b.hourlyResetAt >= 3_600_000_000 then now else b.hourlyResetAt;
            b.Refusal(now, count) == if b.hardPause then Some(PausedKind)
                                     else if today + count > start.dailyLimit then Some(DailyKind)
                                     else if Consumed(log, begun, now + 1) + count > start.hourlyLimit
                                     then Some(HourlyKind) else None
  {
    RunKeepsExact(start, events);
    RunKeepsAccounts(start, events);
    RunKeepsLimitsAndResets(start, events);
    ChargesAreNoLater(start, events);
    CountersAreWindows(Run(start, events), Charges(start, events), now);
  }

  /** `check_budget` answers no exactly when not even one unit could be consumed. */
  lemma PassesIffOneUnitIsLeft(b: Budget, now: Instant)
    ensures b.Passes(now) <==> b.Refusal(now, 1) == None
  {
  }

  lemma {:induction false} ChargesAreNoLater(start: Budget, events: seq<Event>)
    requires Timely(start, events)
    ensures forall i :: 0 <= i < |Charges(start, events)| ==> Charges(start, events)[i].at <= LastAt(start, events)
  {
    if events != [] {
      ChargesAreNoLater(start, events[..|events| - 1]);
    }
  }

  /** A row is paused as the last pause call said. */
  lemma {:induction false} LastPauseCounts(start: Budget, events: seq<Event>, k: nat)
    requires k < |events| && events[k].op.SetPause?
    requires forall j :: k < j < |events| ==> !events[j].op.SetPause?
    ensures Run(start, events).hardPause == events[k].op.paused
  {
    if k < |events| - 1 {
      LastPauseCounts(start, events[..|events| - 1], k);
    }
  }

  /** Both factors of two are reached: a full budget on each side of a reset, one microsecond apart. */
  lemma BoundsAreTight(limit: nat)
    ensures var start := Budget(limit, limit, 0, 0, 0, DAY - HOUR, false);
            var events := [Event(DAY - 1, Consume(limit)), Event(DAY, Consume(limit))];
            && Timely(start, events)
            && Consumed(Charges(start, events), DAY - 1, DAY + 1) == 2 * limit
  {
    var start := Budget(limit, limit, 0, 0, 0, DAY - HOUR, false);
    var events := [Event(DAY - 1, Consume(limit)), Event(DAY, Consume(limit))];
    assert events[..1] == [events[0]] && events[..1][..0] == [];
    assert Date(0) == 0 && Date(DAY - 1) == 0 && Date(DAY) == 1;
    assert Run(start, events[..1]) == Budget(limit, limit, limit, limit, 0, DAY - HOUR, false);
    var log := [Charge(DAY - 1, limit), Charge(DAY, limit)];
    assert Charges(start, events[..1]) == [log[0]];
    assert Charges(start, events) == log;
    assert log[..1] == [log[0]] && log[..1][..0] == [];
    assert Consumed(log[..1], DAY - 1, DAY + 1) == limit;
  }

  /** A true `check_budget` is a promise: one unit can be consumed at any later instant. */
  lemma CheckPromisesConsume(b: Budget, t1: Instant, t2: Instant)
    requires Counting(b) && b.Passes(t1)
    ensures b.AfterCheck(t1).Refusal(t2, 1).None?
  {
  }
}
