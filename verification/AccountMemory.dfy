/**
 What is remembered about earlier contacts with an account, and when it may be contacted again
 (workers/qualification/account_memory.py).
 */
module AccountMemory {
  import opened Wrappers
  import opened Instants

  const HARD_TAGS: set<string> := {"not_interested", "competitor_locked", "do_not_contact", "unsubscribed"}

  const REACTIVATION_SIGNALS: set<string> := {
    "soc2_announced", "funding_round", "upmarket_expansion", "compliance_hiring",
    "security_hiring", "trust_center_launched", "certification_milestone"
  }

  const COOLDOWN: int := 90 * DAY

  /** SNOOZE_DURATIONS, in days. */
  function SnoozeDays(reason: string): Option<int> {
    if reason == "no_reply" then Some(30)
    else if reason == "soft_no" then Some(60)
    else if reason == "timing_bad" then Some(90)
    else if reason == "budget_issue" then Some(90)
    else if reason == "evaluating_others" then Some(45)
    else None
  }

  datatype Memory = Memory(
    lastContacted: Option<Instant>,
    lastOutcome: Option<string>,
    contactCount: nat,
    snoozeUntil: Option<Instant>,
    objectionTags: seq<string>,
    reactivationTriggers: seq<string>,
    lastTriggerAt: Option<Instant>
  ) {
    predicate IsSnoozed(now: Instant) {
      snoozeUntil.Some? && now < snoozeUntil.value
    }

    predicate HardObjection() {
      exists tag :: tag in objectionTags && tag in HARD_TAGS
    }

    predicate HasNewTrigger() {
      if lastTriggerAt.None? || lastContacted.None? then reactivationTriggers != []
      else lastTriggerAt.value > lastContacted.value
    }

    /** The verdict of `should_recontact`, in the order of its branches. */
    predicate ShouldRecontact(now: Instant) {
      && !IsSnoozed(now)
      && !(HardObjection() && !HasNewTrigger())
      && !(contactCount >= 3 && lastOutcome == Some("no_reply") && !HasNewTrigger())
    }
  }

  const NEW_MEMORY := Memory(None, None, 0, None, [], [], None)

  /** Appends the tags that are not yet there. */
  function AddTags(tags: seq<string>, more: seq<string>): (r: seq<string>)
    ensures forall t :: t in r <==> t in tags || t in more
    decreases |more|
  {
    if more == [] then tags
    else
      assert forall t :: t in more <==> t == more[0] || t in more[1..];
      AddTags(if more[0] in tags then tags else tags + [more[0]], more[1..])
  }

  function Matching(signals: seq<string>): (r: seq<string>)
    ensures forall s :: s in r <==> s in signals && s in REACTIVATION_SIGNALS
  {
    if signals == [] then []
    else (if signals[0] in REACTIVATION_SIGNALS then [signals[0]] else []) + Matching(signals[1..])
  }

  datatype Event =
    | Outcome(at: Instant, outcome: string, objections: seq<string>, snoozeReason: string)
    | Signals(at: Instant, types: seq<string>)

  /** `check_reactivation` records a trigger only after a hard objection, and only once it has cooled down. */
  predicate Records(m: Memory, at: Instant, types: seq<string>) {
    && Matching(types) != []
    && m.HardObjection()
    && (m.lastContacted.Some? ==> at - m.lastContacted.value >= COOLDOWN)
  }

  function Apply(m: Memory, e: Event): Memory {
    match e
    case Outcome(at, outcome, objections, reason) =>
      m.(lastContacted := Some(at),
         lastOutcome := Some(outcome),
         contactCount := m.contactCount + 1,
         objectionTags := AddTags(m.objectionTags, objections),
         snoozeUntil := if SnoozeDays(reason).Some? then Some(at + SnoozeDays(reason).value * DAY) else m.snoozeUntil)
    case Signals(at, types) =>
      if Records(m, at, types) then m.(reactivationTriggers := Matching(types), lastTriggerAt := Some(at)) else m
  }

  function Recall(history: seq<Event>): Memory {
    if history == [] then NEW_MEMORY else Apply(Recall(history[..|history| - 1]), history[|history| - 1])
  }

  // ---- what a history says, without the memory -------------------------------------------------

  ghost predicate Timely(history: seq<Event>) {
    forall i, j :: 0 <= i < j < |history| ==> history[i].at <= history[j].at
  }

  ghost predicate Contact(history: seq<Event>, i: nat) {
    i < |history| && history[i].Outcome?
  }

  /** `i` is the most recent contact. */
  ghost predicate LatestContact(history: seq<Event>, i: nat) {
    Contact(history, i) && forall j: nat :: i < j ==> !Contact(history, j)
  }

  /** Some contact brought a hard objection. */
  ghost predicate Objected(history: seq<Event>) {
    exists i: nat, tag :: Contact(history, i) && tag in history[i].objections && tag in HARD_TAGS
  }

  /**
   At `i`, after the last contact and 90 days or more later, a reactivation signal came in for an
   objecting account.
   */
  ghost predicate ReactivatesAt(history: seq<Event>, i: nat) {
    && i < |history| && history[i].Signals?
    && (exists s :: s in history[i].types && s in REACTIVATION_SIGNALS)
    && Objected(history[..i])
    && (exists c: nat :: LatestContact(history, c) && c < i && history[i].at - history[c].at >= COOLDOWN)
  }

  ghost predicate Reactivated(history: seq<Event>) {
    exists i: nat :: ReactivatesAt(history, i)
  }

  /** A contact that gave a reason with a known snooze duration. */
  ghost predicate Snoozes(history: seq<Event>, i: nat) {
    Contact(history, i) && SnoozeDays(history[i].snoozeReason).Some?
  }

  /** The last contact that gave a reason with a known snooze duration. */
  ghost predicate LastSnooze(history: seq<Event>, i: nat) {
    Snoozes(history, i) && forall j: nat :: i < j ==> !Snoozes(history, j)
  }

  function SnoozeEnd(e: Event): Instant
    requires e.Outcome? && SnoozeDays(e.snoozeReason).Some?
  {
    e.at + SnoozeDays(e.snoozeReason).value * DAY
  }

  /** At `now` the snooze of the last contact that gave such a reason has not ended. */
  ghost predicate AsleepAt(history: seq<Event>, now: Instant) {
    exists i: nat :: LastSnooze(history, i) && now < SnoozeEnd(history[i])
  }

  function Contacts(history: seq<Event>): nat {
    if history == [] then 0
    else Contacts(history[..|history| - 1]) + (if history[|history| - 1].Outcome? then 1 else 0)
  }

  // ---- the memory agrees with the history --------------------------------------------------------

  ghost predicate Agrees(m: Memory, history: seq<Event>) {
    && m.contactCount == Contacts(history)
    && (m.lastContacted.None? ==> forall i: nat :: !Contact(history, i))
    && (m.lastContacted.Some? ==> exists c: nat :: LatestContact(history, c) && m.lastContacted == Some(history[c].at)
                                                   && m.lastOutcome == Some(history[c].outcome))
    && (m.HardObjection() <==> Objected(history))
    && (m.lastTriggerAt.Some? <==> m.reactivationTriggers != [])
    && (m.lastTriggerAt.Some? ==>
          m.HardObjection() && exists i: nat :: i < |history| && history[i].at == m.lastTriggerAt.value)
    && (m.HasNewTrigger() <==> Reactivated(history))
  }

  lemma ObjectedGrows(history: seq<Event>, e: Event)
    ensures Objected(history + [e]) <==>
            Objected(history) || (e.Outcome? && exists tag :: tag in e.objections && tag in HARD_TAGS)
  {
    var h := history + [e];
    if Objected(history) {
      var i: nat, tag :| Contact(history, i) && tag in history[i].objections && tag in HARD_TAGS;
      assert Contact(h, i) && tag in h[i].objections;
    }
    if e.Outcome? && exists tag :: tag in e.objections && tag in HARD_TAGS {
      var tag :| tag in e.objections && tag in HARD_TAGS;
      assert Contact(h, |history|) && tag in h[|history|].objections;
    }
    if Objected(h) {
      var i: nat, tag :| Contact(h, i) && tag in h[i].objections && tag in HARD_TAGS;
      if i < |history| {
        assert Contact(history, i) && tag in history[i].objections;
      }
    }
  }

  /** A contact wipes out every earlier reactivation. */
  lemma ContactEndsReactivation(history: seq<Event>, e: Event)
    requires e.Outcome?
    ensures !Reactivated(history + [e])
    ensures LatestContact(history + [e], |history|)
  {
    var h := history + [e];
    forall i: nat
      ensures !ReactivatesAt(h, i)
    {
      if c: nat :| LatestContact(h, c) && c < i < |h| {
        assert Contact(h, |history|);
      }
    }
  }

  lemma SignalsKeepLatestContact(history: seq<Event>, e: Event, c: nat)
    requires e.Signals?
    ensures LatestContact(history + [e], c) <==> LatestContact(history, c)
  {
    var h := history + [e];
    assert forall j: nat :: Contact(h, j) <==> Contact(history, j);
  }

  lemma SignalsExtendReactivation(history: seq<Event>, e: Event)
    requires e.Signals?
    ensures Reactivated(history + [e]) <==> Reactivated(history) || ReactivatesAt(history + [e], |history|)
  {
    var h := history + [e];
    forall i: nat | i < |history|
      ensures ReactivatesAt(h, i) <==> ReactivatesAt(history, i)
    {
      assert h[..i] == history[..i] && h[i] == history[i];
      forall c: nat
        ensures LatestContact(h, c) <==> LatestContact(history, c)
      {
        SignalsKeepLatestContact(history, e, c);
      }
    }
  }

  lemma OutcomeAgrees(m: Memory, history: seq<Event>, e: Event)
    requires Agrees(m, history) && Timely(history + [e]) && e.Outcome?
    ensures Agrees(Apply(m, e), history + [e])
  {
    var h := history + [e];
    assert h[..|history|] == history;
    ObjectedGrows(history, e);
    ContactEndsReactivation(history, e);
    var n := Apply(m, e);
    if n.lastTriggerAt.Some? {
      var i: nat :| i < |history| && history[i].at == m.lastTriggerAt.value;
      assert h[i].at == n.lastTriggerAt.value && h[i].at <= h[|history|].at;
    }
  }

  /** New signals are recorded exactly when the history says that they reactivate. */
  lemma RecordsIffReactivates(m: Memory, history: seq<Event>, e: Event)
    requires Agrees(m, history) && e.Signals? && m.lastContacted.Some?
    ensures Records(m, e.at, e.types) <==> ReactivatesAt(history + [e], |history|)
  {
    var h, k := history + [e], |history|;
    assert h[..k] == history && h[k] == e;
    var c: nat :| LatestContact(history, c) && m.lastContacted == Some(history[c].at)
        && m.lastOutcome == Some(history[c].outcome);
    SignalsKeepLatestContact(history, e, c);
    assert LatestContact(h, c) && h[c] == history[c];
    if Records(m, e.at, e.types) {
      assert Matching(e.types)[0] in Matching(e.types);
    }
    if ReactivatesAt(h, k) {
      var d: nat :| LatestContact(h, d) && d < k && h[k].at - h[d].at >= COOLDOWN;
      assert Contact(h, c) && Contact(h, d);
      assert c == d;
    }
  }

  lemma SignalsAgree(m: Memory, history: seq<Event>, e: Event)
    requires Agrees(m, history) && Timely(history + [e]) && e.Signals?
    ensures Agrees(Apply(m, e), history + [e])
  {
    var h, k := history + [e], |history|;
    assert h[..k] == history && h[k] == e;
    ObjectedGrows(history, e);
    SignalsExtendReactivation(history, e);
    assert forall j: nat :: Contact(h, j) <==> Contact(history, j);
    if m.lastContacted.Some? {
      RecordsIffReactivates(m, history, e);
      var c: nat :| LatestContact(history, c) && m.lastContacted == Some(history[c].at)
          && m.lastOutcome == Some(history[c].outcome);
      SignalsKeepLatestContact(history, e, c);
      assert LatestContact(h, c) && h[c] == history[c];
    } else {
      assert !Objected(history);
    }
    if m.lastTriggerAt.Some? {
      var i: nat :| i < k && history[i].at == m.lastTriggerAt.value;
      assert h[i].at == m.lastTriggerAt.value;
    }
  }

  lemma SnoozesOfPrefix(history: seq<Event>, e: Event, i: nat)
    ensures Snoozes(history + [e], i) <==>
            Snoozes(history, i) || (i == |history| && e.Outcome? && SnoozeDays(e.snoozeReason).Some?)
  {
  }

  /** The end of the snooze is that of the last such contact. */
  ghost predicate SnoozeAgrees(m: Memory, history: seq<Event>) {
    && (m.snoozeUntil.None? ==> forall i: nat :: !Snoozes(history, i))
    && (m.snoozeUntil.Some? ==> exists i: nat :: LastSnooze(history, i) && m.snoozeUntil.value == SnoozeEnd(history[i]))
  }

  lemma EventKeepsSnooze(m: Memory, history: seq<Event>, e: Event)
    requires SnoozeAgrees(m, history)
    ensures SnoozeAgrees(Apply(m, e), history + [e])
  {
    var h := history + [e];
    forall i: nat
      ensures Snoozes(h, i) <==>
              Snoozes(history, i) || (i == |history| && e.Outcome? && SnoozeDays(e.snoozeReason).Some?)
    {
      SnoozesOfPrefix(history, e, i);
    }
    if e.Outcome? && SnoozeDays(e.snoozeReason).Some? {
      assert LastSnooze(h, |history|) && h[|history|] == e;
    } else if m.snoozeUntil.Some? {
      var i: nat :| LastSnooze(history, i) && m.snoozeUntil.value == SnoozeEnd(history[i]);
      assert LastSnooze(h, i) && h[i] == history[i];
    }
  }

  lemma {:induction false} SnoozeAgreesWithHistory(history: seq<Event>)
    ensures SnoozeAgrees(Recall(history), history)
  {
    if history != [] {
      var n := |history| - 1;
      SnoozeAgreesWithHistory(history[..n]);
      EventKeepsSnooze(Recall(history[..n]), history[..n], history[n]);
      assert history == history[..n] + [history[n]];
    }
  }

  lemma SnoozedIffAsleep(history: seq<Event>, now: Instant)
    ensures Recall(history).IsSnoozed(now) <==> AsleepAt(history, now)
  {
    SnoozeAgreesWithHistory(history);
    var m := Recall(history);
    if m.snoozeUntil.Some? {
      var i: nat :| LastSnooze(history, i) && m.snoozeUntil.value == SnoozeEnd(history[i]);
      forall k: nat | LastSnooze(history, k)
        ensures k == i
      {
        assert Snoozes(history, i) && Snoozes(history, k);
      }
    }
  }

  lemma {:induction false} MemoryAgreesWithHistory(history: seq<Event>)
    requires Timely(history)
    ensures Agrees(Recall(history), history) && SnoozeAgrees(Recall(history), history)
  {
    SnoozeAgreesWithHistory(history);
    if history != [] {
      var n := |history| - 1;
      MemoryAgreesWithHistory(history[..n]);
      assert history == history[..n] + [history[n]];
      if history[n].Outcome? {
        OutcomeAgrees(Recall(history[..n]), history[..n], history[n]);
      } else {
        SignalsAgree(Recall(history[..n]), history[..n], history[n]);
      }
    }
  }

  /** Why an account may be contacted again, or may not. */
  datatype Grounds =
    | SnoozedUntil(until: Instant) | ObjectionStands(tags: seq<string>) | MaxAttemptsNoReply
    | ReactivatedBy(triggers: seq<string>) | FirstContact | Eligible

  // ---- the cooldown -----------------------------------------------------------------------------------

  /** After a hard objection an account is approved exactly when it is awake and has been reactivated. */
  lemma ObjectingAccountNeedsReactivation(history: seq<Event>, now: Instant)
    requires Timely(history) && Objected(history)
    ensures Recall(history).ShouldRecontact(now) <==> !AsleepAt(history, now) && Reactivated(history)
  {
    MemoryAgreesWithHistory(history);
    SnoozedIffAsleep(history, now);
  }

  /** In particular 90 days have passed between the most recent contact and a signal that came later. */
  lemma ApprovalAfterObjectionMeansCooldown(history: seq<Event>, now: Instant) returns (c: nat, i: nat)
    requires Timely(history) && Objected(history) && Recall(history).ShouldRecontact(now)
    ensures LatestContact(history, c) && c < i < |history| && history[i].Signals?
    ensures history[i].at >= history[c].at + COOLDOWN
    ensures exists s :: s in history[i].types && s in REACTIVATION_SIGNALS
  {
    ObjectingAccountNeedsReactivation(history, now);
    i :| ReactivatesAt(history, i);
    c :| LatestContact(history, c) && c < i && history[i].at - history[c].at >= COOLDOWN;
  }

  /**
   An account that never objected is not reactivated by any signal: it stays blocked after three
   contacts whose last one got no reply, although `check_reactivation` reports a match.
   */
  lemma OtherAccountsAreNeverReactivated(history: seq<Event>, now: Instant)
    requires Timely(history) && !Objected(history)
    ensures !Recall(history).HasNewTrigger()
    ensures Recall(history).ShouldRecontact(now) <==>
            !AsleepAt(history, now) &&
            !(Contacts(history) >= 3 && exists c: nat :: LatestContact(history, c) && history[c].outcome == "no_reply")
  {
    MemoryAgreesWithHistory(history);
    SnoozedIffAsleep(history, now);
    var m := Recall(history);
    if m.lastContacted.Some? {
      var d: nat :| LatestContact(history, d) && m.lastContacted == Some(history[d].at)
          && m.lastOutcome == Some(history[d].outcome);
      forall c: nat | LatestContact(history, c)
        ensures c == d
      {
        assert Contact(history, c) && Contact(history, d);
      }
    } else {
      NoOutcomeWithoutContact(history);
    }
  }

  lemma {:induction false} NoOutcomeWithoutContact(history: seq<Event>)
    ensures Recall(history).lastContacted.None? ==> Recall(history).lastOutcome.None?
  {
    if history != [] {
      NoOutcomeWithoutContact(history[..|history| - 1]);
    }
  }

  lemma RecallOfAppend(history: seq<Event>, e: Event)
    ensures Recall(history + [e]) == Apply(Recall(history), e)
  {
    assert (history + [e])[..|history|] == history;
  }

  /** Without an objection no signal changes anything; the next outcome that is no silence does. */
  lemma OnlyOutcomesUnblock(history: seq<Event>, at: Instant, types: seq<string>, outcome: string, now: Instant)
    requires Timely(history) && !Objected(history) && outcome != "no_reply"
    ensures Recall(history + [Signals(at, types)]) == Recall(history)
    ensures Recall(history + [Outcome(at, outcome, [], "")]).ShouldRecontact(now) <==> !Recall(history).IsSnoozed(now)
  {
    MemoryAgreesWithHistory(history);
    RecallOfAppend(history, Signals(at, types));
    RecallOfAppend(history, Outcome(at, outcome, [], ""));
  }

  function Silence(at: Instant): Event {
    Outcome(at, "no_reply", [], "")
  }

  /** For instance: three contacts without a reply and then a funding round leave the account blocked. */
  lemma UnansweredAccountStaysBlocked(now: Instant)
    ensures "funding_round" in REACTIVATION_SIGNALS
    ensures var history := [Silence(0), Silence(DAY), Silence(2 * DAY), Signals(9 * DAY, ["funding_round"])];
            !Recall(history).ShouldRecontact(now)
  {
    var signals := Signals(9 * DAY, ["funding_round"]);
    var one, two := [Silence(0)], [Silence(0)] + [Silence(DAY)];
    RecallOfAppend([], Silence(0));
    assert [] + [Silence(0)] == one;
    RecallOfAppend(one, Silence(DAY));
    RecallOfAppend(two, Silence(2 * DAY));
    RecallOfAppend(two + [Silence(2 * DAY)], signals);
    assert two + [Silence(2 * DAY)] + [signals] == [Silence(0), Silence(DAY), Silence(2 * DAY), signals];
  }

  // ---- the tables ------------------------------------------------------------------------------------------

  /** The snooze that each reason brings, in days; any other reason brings none. */
  lemma SnoozeTable(reason: string)
    ensures SnoozeDays(reason) ==
            var table := map["no_reply" := 30, "soft_no" := 60, "timing_bad" := 90, "budget_issue" := 90,
                             "evaluating_others" := 45];
            if reason in table then Some(table[reason]) else None
  {
  }

  ghost predicate IsHardTag(tag: string) {
    tag == "not_interested" || tag == "competitor_locked" || tag == "do_not_contact" || tag == "unsubscribed"
  }

  ghost predicate IsReactivationSignal(signal: string) {
    || signal == "soc2_announced" || signal == "funding_round" || signal == "upmarket_expansion"
    || signal == "compliance_hiring" || signal == "security_hiring" || signal == "trust_center_launched"
    || signal == "certification_milestone"
  }

  lemma HardObjectionIff(m: Memory)
    ensures m.HardObjection() <==> exists tag :: tag in m.objectionTags && IsHardTag(tag)
  {
    if m.HardObjection() {
      var tag :| tag in m.objectionTags && tag in HARD_TAGS;
      assert IsHardTag(tag);
    }
    if tag :| tag in m.objectionTags && IsHardTag(tag) {
      assert tag in HARD_TAGS;
    }
  }

  /** `r` keeps the elements of `s` that belong, in their order and as often as they come. */
  ghost predicate IsFilter(s: seq<string>, r: seq<string>)
    decreases |s|
  {
    if s == [] then r == []
    else if IsReactivationSignal(s[0]) then r != [] && r[0] == s[0] && IsFilter(s[1..], r[1..])
    else IsFilter(s[1..], r)
  }

  lemma {:induction false} MatchingIsFilter(signals: seq<string>)
    ensures IsFilter(signals, Matching(signals))
    decreases |signals|
  {
    if signals != [] {
      MatchingIsFilter(signals[1..]);
      assert IsReactivationSignal(signals[0]) <==> signals[0] in REACTIVATION_SIGNALS;
      if IsReactivationSignal(signals[0]) {
        assert Matching(signals)[1..] == Matching(signals[1..]);
      } else {
        assert Matching(signals) == Matching(signals[1..]);
      }
    }
  }

  /** No tag is listed twice, old tags keep their places, and new ones are all there. */
  ghost predicate TagsAdded(tags: seq<string>, more: seq<string>, r: seq<string>) {
    && tags <= r
    && (forall t :: t in r <==> t in tags || t in more)
    && (forall i, j :: |tags| <= j < |r| && 0 <= i < j ==> r[i] != r[j])
  }

  lemma {:induction false} AddTagsAdds(tags: seq<string>, more: seq<string>)
    ensures TagsAdded(tags, more, AddTags(tags, more))
    decreases |more|
  {
    if more != [] {
      var next := if more[0] in tags then tags else tags + [more[0]];
      AddTagsAdds(next, more[1..]);
      assert forall t :: t in more <==> t == more[0] || t in more[1..];
      var r := AddTags(tags, more);
      forall i, j | |tags| <= j < |r| && 0 <= i < j
        ensures r[i] != r[j]
      {
        if j == |tags| && more[0] !in tags {
          assert r[j] == next[j] == more[0] && r[i] == next[i] == tags[i];
        }
      }
    }
  }

  // ---- the record that is updated in place --------------------------------------------------------------

  class Account {
    var lastContacted: Option<Instant>
    var lastOutcome: Option<string>
    var contactCount: nat
    var snoozeUntil: Option<Instant>
    var objectionTags: seq<string>
    var reactivationTriggers: seq<string>
    var lastTriggerAt: Option<Instant>

    function Model(): Memory
      reads this
    {
      Memory(lastContacted, lastOutcome, contactCount, snoozeUntil, objectionTags, reactivationTriggers, lastTriggerAt)
    }

    constructor ()
      ensures Model() == NEW_MEMORY
    {
      lastContacted, lastOutcome, contactCount, snoozeUntil := None, None, 0, None;
      objectionTags, reactivationTriggers, lastTriggerAt := [], [], None;
    }

    method RecordOutcome(now: Instant, outcome: string, objections: seq<string>, snoozeReason: string)
      modifies this
      ensures lastContacted == Some(now) && lastOutcome == Some(outcome) && contactCount == old(contactCount) + 1
      ensures TagsAdded(old(objectionTags), objections, objectionTags)
      ensures snoozeReason == "no_reply" ==> snoozeUntil == Some(now + 30 * DAY)
      ensures snoozeReason == "evaluating_others" ==> snoozeUntil == Some(now + 45 * DAY)
      ensures snoozeReason == "soft_no" ==> snoozeUntil == Some(now + 60 * DAY)
      ensures snoozeReason == "timing_bad" || snoozeReason == "budget_issue" ==> snoozeUntil == Some(now + 90 * DAY)
      ensures snoozeReason !in {"no_reply", "soft_no", "timing_bad", "budget_issue", "evaluating_others"} ==>
                snoozeUntil == old(snoozeUntil)
      ensures reactivationTriggers == old(reactivationTriggers) && lastTriggerAt == old(lastTriggerAt)
      ensures Model() == Apply(old(Model()), Outcome(now, outcome, objections, snoozeReason))
    {
      AddTagsAdds(objectionTags, objections);
      lastContacted := Some(now);
      lastOutcome := Some(outcome);
      contactCount := contactCount + 1;
      for k := 0 to |objections|
        invariant AddTags(objectionTags, objections[k..]) == AddTags(old(objectionTags), objections)
        modifies this`objectionTags
      {
        var tag := objections[k];
        assert objections[k..][1..] == objections[k + 1..];
        if tag !in objectionTags {
          objectionTags := objectionTags + [tag];
        }
      }
      var days := SnoozeDays(snoozeReason);
      if days.Some? {
        snoozeUntil := Some(now + days.value * DAY);
      }
    }

    /** Whether the signals reactivate the account, and which of them matched. */
    method CheckReactivation(now: Instant, types: seq<string>) returns (reactivated: bool, matching: seq<string>)
      modifies this`reactivationTriggers, this`lastTriggerAt
      ensures IsFilter(types, matching)
      ensures var objected, cooled := exists tag :: tag in objectionTags && IsHardTag(tag),
                                      lastContacted == None || now >= lastContacted.value + 90 * DAY;
              && (reactivated <==> matching != [] && (!objected || cooled))
              && reactivationTriggers == (if reactivated && objected then matching else old(reactivationTriggers))
              && lastTriggerAt == (if reactivated && objected then Some(now) else old(lastTriggerAt))
      ensures Model() == Apply(old(Model()), Signals(now, types))
      ensures matching == Matching(types)
      ensures reactivated <==> matching != [] && (old(Model()).HardObjection() ==> Records(old(Model()), now, types))
    {
      MatchingIsFilter(types);
      HardObjectionIff(Model());
      matching := Matching(types);
      if |matching| == 0 {
        return false, matching;
      }
      if !Model().HardObjection() {
        return true, matching;
      }
      if lastContacted.Some? {
        if now - lastContacted.value < COOLDOWN {
          return false, matching;
        }
      }
      reactivationTriggers := matching;
      lastTriggerAt := Some(now);
      return true, matching;
    }

    /** `should_recontact`, with its grounds. */
    method ShouldRecontact(now: Instant) returns (ok: bool, grounds: Grounds)
      ensures ok <==> Model().ShouldRecontact(now)
      ensures var snoozed := snoozeUntil.Some? && now < snoozeUntil.value;
              var objected := exists tag :: tag in objectionTags && IsHardTag(tag);
              var triggered := if lastTriggerAt.Some? && lastContacted.Some?
                               then lastTriggerAt.value > lastContacted.value else reactivationTriggers != [];
              var unanswered := contactCount >= 3 && lastOutcome == Some("no_reply");
              && (ok <==> !snoozed && (triggered || (!objected && !unanswered)))
              && (grounds.SnoozedUntil? <==> snoozed)
              && (grounds.SnoozedUntil? ==> grounds.until == snoozeUntil.value)
              && (grounds.ObjectionStands? <==> !snoozed && !triggered && objected)
              && (grounds.ObjectionStands? ==> grounds.tags == objectionTags)
              && (grounds.MaxAttemptsNoReply? <==> !snoozed && !triggered && !objected && unanswered)
              && (grounds.ReactivatedBy? <==> !snoozed && triggered)
              && (grounds.ReactivatedBy? ==> grounds.triggers == reactivationTriggers)
              && (grounds.FirstContact? <==> ok && !triggered && contactCount == 0)
    {
      HardObjectionIff(Model());
      if Model().IsSnoozed(now) {
        return false, SnoozedUntil(snoozeUntil.value);
      }
      if Model().HardObjection() && !Model().HasNewTrigger() {
        return false, ObjectionStands(objectionTags);
      }
      if contactCount >= 3 && lastOutcome == Some("no_reply") {
        if !Model().HasNewTrigger() {
          return false, MaxAttemptsNoReply;
        }
      }
      if Model().HasNewTrigger() {
        return true, ReactivatedBy(reactivationTriggers);
      }
      if contactCount == 0 {
        return true, FirstContact;
      }
      return true, Eligible;
    }
  }
}
