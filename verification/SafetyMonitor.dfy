/** Pauses with optional expiry, deleted lazily, and health checks that pause (workers/send/safety.py). */
module SafetyMonitor {
  import opened Wrappers
  import opened Instants

  datatype Scope = SystemScope | LaneScope | CampaignScope | MailboxScope | DomainScope

  datatype Reason = BounceSpike | ComplaintSpike | MailboxUnhealthy | PolicyDenySurge | Manual | AutoResumeExpired

  type PauseKey = (Scope, string)

  datatype Entry = Entry(key: PauseKey, reason: Reason, pausedAt: Instant, autoResumeAt: Option<Instant>) {
    predicate Active(now: Instant) {
      !(autoResumeAt.Some? && now >= autoResumeAt.value)
    }
  }

  datatype Metrics = Metrics(sent: nat, bounced: nat, complaints: nat, denies: nat) {
    function BounceRate(): real {
      bounced as real / Max(sent, 1) as real
    }

    function ComplaintRate(): real {
      complaints as real / Max(sent, 1) as real
    }

    function DenyRate(): real {
      denies as real / Max(sent + denies, 1) as real
    }
  }

  function Max(x: nat, y: nat): nat {
    if x < y then y else x
  }

  datatype Thresholds = Thresholds(maxBounceRate: real, maxComplaintRate: real, maxDenyRate: real, minSends: int)

  const DEFAULT_THRESHOLDS := Thresholds(0.05, 0.003, 0.20, 10)

  /** The breaches that `check_health` finds, in the order of its tests. */
  function Breaches(th: Thresholds, m: Metrics): seq<Reason> {
    if m.sent < th.minSends then []
    else
      (if m.BounceRate() > th.maxBounceRate then [BounceSpike] else [])
      + (if m.ComplaintRate() > th.maxComplaintRate then [ComplaintSpike] else [])
      + (if m.DenyRate() > th.maxDenyRate then [PolicyDenySurge] else [])
  }

  /** A share of at least one exceeds a limit exactly when the count exceeds the limit times the whole. */
  lemma RateExceedsIff(count: nat, whole: nat, limit: real)
    requires whole > 0
    ensures count as real / whole as real > limit <==> count as real > limit * whole as real
  {
    var rate := count as real / whole as real;
    assert rate * whole as real == count as real;
    if rate > limit {
      assert (rate - limit) * whole as real > 0.0;
    } else {
      assert (limit - rate) * whole as real >= 0.0;
    }
  }

  /** A breach is found exactly when its count passes the limit, in a sample that is large enough. */
  lemma BreachesIff(th: Thresholds, m: Metrics)
    ensures var r := Breaches(th, m);
            var whole := if m.sent == 0 then 1 else m.sent;
            var attempts := if m.sent + m.denies == 0 then 1 else m.sent + m.denies;
            && (BounceSpike in r <==> m.sent >= th.minSends && m.bounced as real > th.maxBounceRate * whole as real)
            && (ComplaintSpike in r <==>
                m.sent >= th.minSends && m.complaints as real > th.maxComplaintRate * whole as real)
            && (PolicyDenySurge in r <==>
                m.sent >= th.minSends && m.denies as real > th.maxDenyRate * attempts as real)
            && (forall x :: x in r ==> x in {BounceSpike, ComplaintSpike, PolicyDenySurge})
            && (forall i, j :: 0 <= i < j < |r| ==> r[i] != r[j] && r[i] != PolicyDenySurge && r[j] != BounceSpike)
  {
    RateExceedsIff(m.bounced, Max(m.sent, 1), th.maxBounceRate);
    RateExceedsIff(m.complaints, Max(m.sent, 1), th.maxComplaintRate);
    RateExceedsIff(m.denies, Max(m.sent + m.denies, 1), th.maxDenyRate);
  }

  type Table = map<PauseKey, Entry>

  datatype Step =
    | Query(at: Instant, key: PauseKey)
    | Pause(at: Instant, key: PauseKey, reason: Reason, autoResumeAt: Option<Instant>)
    | Resume(at: Instant, key: PauseKey)
    | CheckHealth(at: Instant, key: PauseKey, metrics: Metrics)

  /** The active entry for a key, if any: what `is_paused` answers. */
  function Answer(t: Table, key: PauseKey, now: Instant): Option<Entry> {
    if key in t && t[key].Active(now) then Some(t[key]) else None
  }

  /** What `active_pauses` lists, as a set. */
  function ActivePauses(t: Table, now: Instant): set<Entry> {
    set k | k in t && t[k].Active(now) :: t[k]
  }

  /** A step on the pause table; `lazy` says whether a query deletes the expired entry it finds. */
  function Apply(th: Thresholds, t: Table, s: Step, lazy: bool): Table {
    match s
    case Query(at, key) => if lazy && key in t && !t[key].Active(at) then t - {key} else t
    case Pause(at, key, reason, auto) => t[key := Entry(key, reason, at, auto)]
    case Resume(_, key) => t - {key}
    case CheckHealth(at, key, metrics) =>
      var reasons := Breaches(th, metrics);
      if reasons == [] then t else t[key := Entry(key, reasons[|reasons| - 1], at, None)]
  }

  function Run(th: Thresholds, steps: seq<Step>, lazy: bool): Table {
    if steps == [] then map[]
    else Apply(th, Run(th, steps[..|steps| - 1], lazy), steps[|steps| - 1], lazy)
  }

  ghost predicate Timely(steps: seq<Step>) {
    forall i, j :: 0 <= i < j < |steps| ==> steps[i].at <= steps[j].at
  }

  /** Deletion only ever removes what has expired. */
  ghost predicate Simulates(lazy: Table, eager: Table, now: Instant) {
    && (forall k :: k in lazy ==> k in eager && lazy[k] == eager[k])
    && (forall k :: k in eager && k !in lazy ==> !eager[k].Active(now))
  }

  lemma {:induction false} LazyDeletionOnlyDropsExpired(th: Thresholds, steps: seq<Step>, now: Instant)
    requires Timely(steps) && (steps != [] ==> steps[|steps| - 1].at <= now)
    ensures Simulates(Run(th, steps, true), Run(th, steps, false), now)
  {
    if steps != [] {
      var n := |steps| - 1;
      assert n > 0 ==> steps[..n][n - 1] == steps[n - 1];
      LazyDeletionOnlyDropsExpired(th, steps[..n], steps[n].at);
    }
  }

  /** No run can tell the lazy table from one that keeps expired entries, by either kind of question. */
  lemma LazyDeletionIsInvisible(th: Thresholds, steps: seq<Step>, now: Instant)
    requires Timely(steps) && (steps != [] ==> steps[|steps| - 1].at <= now)
    ensures forall k :: Answer(Run(th, steps, true), k, now) == Answer(Run(th, steps, false), k, now)
    ensures ActivePauses(Run(th, steps, true), now) == ActivePauses(Run(th, steps, false), now)
  {
    LazyDeletionOnlyDropsExpired(th, steps, now);
    var lazy, eager := Run(th, steps, true), Run(th, steps, false);
    forall e
      ensures e in ActivePauses(lazy, now) <==> e in ActivePauses(eager, now)
    {
      if k :| k in lazy && lazy[k].Active(now) && lazy[k] == e {
        assert k in eager && eager[k] == e;
      }
      if k :| k in eager && eager[k].Active(now) && eager[k] == e {
        assert k in lazy && lazy[k] == e;
      }
    }
  }

  // ---- what `resume` can see -----------------------------------------------------------------------

  /** The steps that change the entry of a key, other than by expiry. */
  predicate Writes(th: Thresholds, s: Step, key: PauseKey) {
    s.key == key && (s.Pause? || s.Resume? || (s.CheckHealth? && Breaches(th, s.metrics) != []))
  }

  ghost predicate LastWrite(th: Thresholds, steps: seq<Step>, key: PauseKey, w: nat) {
    && w < |steps| && Writes(th, steps[w], key)
    && forall j :: w < j < |steps| ==> !Writes(th, steps[j], key)
  }

  /** The last that happened to the key, at `w`, was a pause which had run out when a query at `q` asked for it. */
  ghost predicate FoundExpired(th: Thresholds, steps: seq<Step>, key: PauseKey, w: nat, q: nat) {
    && LastWrite(th, steps, key, w) && steps[w].Pause?
    && w < q < |steps| && steps[q].Query? && steps[q].key == key
    && steps[w].autoResumeAt.Some? && steps[q].at >= steps[w].autoResumeAt.value
  }

  lemma {:induction false} LazyIsPartOfEager(th: Thresholds, steps: seq<Step>, key: PauseKey)
    requires key in Run(th, steps, true)
    ensures key in Run(th, steps, false) && Run(th, steps, false)[key] == Run(th, steps, true)[key]
  {
    var n := |steps| - 1;
    if key in Run(th, steps[..n], true) {
      LazyIsPartOfEager(th, steps[..n], key);
    }
  }

  lemma {:induction false} LastPauseIsKept(th: Thresholds, steps: seq<Step>, key: PauseKey, w: nat)
    requires LastWrite(th, steps, key, w) && steps[w].Pause?
    ensures key in Run(th, steps, false)
    ensures Run(th, steps, false)[key] == Entry(key, steps[w].reason, steps[w].at, steps[w].autoResumeAt)
  {
    var n := |steps| - 1;
    if w < n {
      assert LastWrite(th, steps[..n], key, w);
      LastPauseIsKept(th, steps[..n], key, w);
      assert !Writes(th, steps[n], key);
    }
  }

  /** An entry that can expire was written by a pause. */
  lemma {:induction false} EntryHasPause(th: Thresholds, steps: seq<Step>, key: PauseKey) returns (w: nat)
    requires key in Run(th, steps, false) && Run(th, steps, false)[key].autoResumeAt.Some?
    ensures LastWrite(th, steps, key, w) && steps[w].Pause?
    ensures steps[w].autoResumeAt == Run(th, steps, false)[key].autoResumeAt
  {
    var n := |steps| - 1;
    if Writes(th, steps[n], key) {
      w := n;
    } else {
      w := EntryHasPause(th, steps[..n], key);
    }
  }

  lemma {:induction false} MissingWasFoundExpired(th: Thresholds, steps: seq<Step>, key: PauseKey)
    returns (w: nat, q: nat)
    requires key in Run(th, steps, false) && key !in Run(th, steps, true)
    ensures FoundExpired(th, steps, key, w, q)
  {
    var n := |steps| - 1;
    assert !Writes(th, steps[n], key);
    if key in Run(th, steps[..n], true) {
      LazyIsPartOfEager(th, steps[..n], key);
      w := EntryHasPause(th, steps[..n], key);
      q := n;
    } else {
      w, q := MissingWasFoundExpired(th, steps[..n], key);
    }
  }

  lemma {:induction false} FoundExpiredIsMissing(th: Thresholds, steps: seq<Step>, key: PauseKey, w: nat, q: nat)
    requires FoundExpired(th, steps, key, w, q)
    ensures key !in Run(th, steps, true)
  {
    var n := |steps| - 1;
    assert !Writes(th, steps[n], key);
    if q < n {
      assert FoundExpired(th, steps[..n], key, w, q);
      FoundExpiredIsMissing(th, steps[..n], key, w, q);
    } else if key in Run(th, steps[..n], true) {
      assert LastWrite(th, steps[..n], key, w);
      LastPauseIsKept(th, steps[..n], key, w);
      LazyIsPartOfEager(th, steps[..n], key);
    }
  }

  /**
   Only `resume` can see the deletion.  In any run it misses an entry that a table without deletion
   would still hold exactly when a query has found that entry expired.
   */
  lemma ResumeSeesDeletionIffFoundExpired(th: Thresholds, steps: seq<Step>, key: PauseKey)
    ensures key in Run(th, steps, false) && key !in Run(th, steps, true) <==>
            exists w: nat, q: nat :: FoundExpired(th, steps, key, w, q)
    ensures key in Run(th, steps, true) ==> key in Run(th, steps, false)
  {
    if key in Run(th, steps, true) {
      LazyIsPartOfEager(th, steps, key);
    }
    if key in Run(th, steps, false) && key !in Run(th, steps, true) {
      var w, q := MissingWasFoundExpired(th, steps, key);
    }
    if w: nat, q: nat :| FoundExpired(th, steps, key, w, q) {
      FoundExpiredIsMissing(th, steps, key, w, q);
      LastPauseIsKept(th, steps, key, w);
    }
  }

  /** The shortest such run. */
  lemma ResumeSeesDeletion(th: Thresholds, key: PauseKey)
    ensures var steps := [Pause(0, key, Manual, Some(1)), Query(1, key)];
            key !in Run(th, steps, true) && key in Run(th, steps, false)
  {
    var steps := [Pause(0, key, Manual, Some(1)), Query(1, key)];
    assert FoundExpired(th, steps, key, 0, 1);
    ResumeSeesDeletionIffFoundExpired(th, steps, key);
  }

  // ---- a breach lasts ------------------------------------------------------------------------------

  /** The steps that can end an open-ended pause on a key. */
  predicate Overrides(s: Step, key: PauseKey) {
    s.key == key && (s.Resume? || s.Pause?)
  }

  /** After a breach the key stays paused, however much later, until somebody resumes it or pauses it anew. */
  lemma {:induction false} BreachStaysPaused(th: Thresholds, steps: seq<Step>, breach: Step, more: seq<Step>,
                                             now: Instant)
    requires breach.CheckHealth? && Breaches(th, breach.metrics) != []
    requires forall i :: 0 <= i < |more| ==> !Overrides(more[i], breach.key)
    ensures var t := Run(th, steps + [breach] + more, true);
            && breach.key in t && t[breach.key].autoResumeAt == None
            && Answer(t, breach.key, now) == Some(t[breach.key])
  {
    if more == [] {
      assert (steps + [breach] + [])[..|steps|] == steps;
      assert steps + [breach] + [] == steps + [breach];
    } else {
      var n := |more| - 1;
      BreachStaysPaused(th, steps, breach, more[..n], now);
      var all := steps + [breach] + more;
      assert all[..|all| - 1] == steps + [breach] + more[..n];
    }
  }

  // ---- the monitor -----------------------------------------------------------------------------------

  datatype AuditRow = PauseRow(key: PauseKey, reason: Reason, at: Instant) | ResumeRow(key: PauseKey, at: Instant)

  /** The entries and the audit rows of the pauses for some reasons, in order. */
  function EntriesFor(key: PauseKey, reasons: seq<Reason>, now: Instant): seq<Entry> {
    seq(|reasons|, i requires 0 <= i < |reasons| => Entry(key, reasons[i], now, None))
  }

  function RowsFor(key: PauseKey, reasons: seq<Reason>, now: Instant): seq<AuditRow> {
    seq(|reasons|, i requires 0 <= i < |reasons| => PauseRow(key, reasons[i], now))
  }

  /** After pauses for some reasons the last one stands. */
  ghost predicate IsPausedFor(key: PauseKey, reasons: seq<Reason>, now: Instant, before: Table, after: Table) {
    after == if reasons == [] then before else before[key := Entry(key, reasons[|reasons| - 1], now, None)]
  }

  class Monitor {
    const thresholds: Thresholds
    var pauses: Table
    var audit: seq<AuditRow>

    constructor (given: Option<Thresholds>)
      ensures thresholds == (if given.Some? then given.value else DEFAULT_THRESHOLDS)
      ensures pauses == map[] && audit == []
    {
      thresholds := if given.Some? then given.value else DEFAULT_THRESHOLDS;
      pauses, audit := map[], [];
    }

    method IsPaused(key: PauseKey, now: Instant) returns (entry: Option<Entry>)
      modifies this`pauses
      ensures var expired := key in old(pauses) && old(pauses)[key].autoResumeAt.Some?
                             && now >= old(pauses)[key].autoResumeAt.value;
              && entry == (if key in old(pauses) && !expired then Some(old(pauses)[key]) else None)
              && pauses == (if expired then old(pauses) - {key} else old(pauses))
      ensures entry == Answer(old(pauses), key, now)
      ensures pauses == Apply(thresholds, old(pauses), Query(now, key), true)
    {
      if key in pauses && pauses[key].Active(now) {
        return Some(pauses[key]);
      }
      if key in pauses && !pauses[key].Active(now) {
        pauses := pauses - {key};
      }
      return None;
    }

    method PauseSends(key: PauseKey, reason: Reason, autoResumeAt: Option<Instant>, now: Instant) returns (entry: Entry)
      modifies this`pauses, this`audit
      ensures entry == Entry(key, reason, now, autoResumeAt) && pauses == old(pauses)[key := entry]
      ensures pauses == Apply(thresholds, old(pauses), Pause(now, key, reason, autoResumeAt), true)
      ensures audit == old(audit) + [PauseRow(key, reason, now)]
    {
      entry := Entry(key, reason, now, autoResumeAt);
      pauses := pauses[key := entry];
      audit := audit + [PauseRow(key, reason, now)];
    }

    method ResumeSends(key: PauseKey, now: Instant) returns (resumed: bool)
      modifies this`pauses, this`audit
      ensures (resumed <==> key in old(pauses)) && pauses == old(pauses) - {key}
      ensures pauses == Apply(thresholds, old(pauses), Resume(now, key), true)
      ensures audit == old(audit) + (if resumed then [ResumeRow(key, now)] else [])
    {
      if key in pauses {
        pauses := pauses - {key};
        audit := audit + [ResumeRow(key, now)];
        return true;
      }
      return false;
    }

    method CheckMetrics(metrics: Metrics, key: PauseKey, now: Instant) returns (entries: seq<Entry>)
      modifies this`pauses, this`audit
      ensures IsPausedFor(key, Breaches(thresholds, metrics), now, old(pauses), pauses)
      ensures pauses == Apply(thresholds, old(pauses), CheckHealth(now, key, metrics), true)
      ensures entries == EntriesFor(key, Breaches(thresholds, metrics), now)
      ensures audit == old(audit) + RowsFor(key, Breaches(thresholds, metrics), now)
    {
      entries := [];
      if metrics.sent < thresholds.minSends {
        return;
      }
      ghost var reasons: seq<Reason> := [];
      if metrics.BounceRate() > thresholds.maxBounceRate {
        var entry := PauseSends(key, BounceSpike, None, now);
        entries, reasons := entries + [entry], reasons + [BounceSpike];
      }
      assert IsPausedFor(key, reasons, now, old(pauses), pauses) && entries == EntriesFor(key, reasons, now);
      assert audit == old(audit) + RowsFor(key, reasons, now);
      if metrics.ComplaintRate() > thresholds.maxComplaintRate {
        var entry := PauseSends(key, ComplaintSpike, None, now);
        entries, reasons := entries + [entry], reasons + [ComplaintSpike];
      }
      assert IsPausedFor(key, reasons, now, old(pauses), pauses) && entries == EntriesFor(key, reasons, now);
      assert audit == old(audit) + RowsFor(key, reasons, now);
      if metrics.DenyRate() > thresholds.maxDenyRate {
        var entry := PauseSends(key, PolicyDenySurge, None, now);
        entries, reasons := entries + [entry], reasons + [PolicyDenySurge];
      }
      assert IsPausedFor(key, reasons, now, old(pauses), pauses) && entries == EntriesFor(key, reasons, now);
      assert audit == old(audit) + RowsFor(key, reasons, now);
      assert reasons == Breaches(thresholds, metrics);
    }
  }
}
