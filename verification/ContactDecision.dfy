/**
 The final contact decision and the pipeline in front of it
 (workers/qualification/contact_decision.py, composed with icp_scoring.py and urgency.py).
 */
module ContactDecision {
  import opened Wrappers
  import opened Instants
  import opened Scoring
  import ContactPlan
  import AccountMemory

  datatype Effect = Block | Soften | Reposition

  datatype CompetitorHit = CompetitorHit(effect: Effect, confidence: real)

  datatype Verdict = Contact | NoContact | Defer

  datatype Window = Immediate | NextWeek | NextMonth | NoWindow

  datatype Reason =
    | HardNegativeSignal | BlockingCompetitor | OutOfIcpBounds | NoContactCandidates
    | Snoozed | PriorHardObjection | ReactivatedByNewTrigger | CompetitorSoftening | MarginalIcp
    | Tier1HighComposite | Tier2GoodComposite | Tier3Moderate | Tier4Low | Tier5Minimal

  datatype Decision = Decision(
    verdict: Verdict,
    tier: nat,
    targetRole: string,
    window: Window,
    reasons: seq<Reason>,
    expectedValue: int
  )

  predicate HasBlockingCompetitor(hits: seq<CompetitorHit>) {
    exists i :: 0 <= i < |hits| && hits[i].effect == Block && hits[i].confidence >= 0.7
  }

  predicate HasSofteningCompetitor(hits: seq<CompetitorHit>) {
    exists i :: 0 <= i < |hits| && hits[i].effect in {Soften, Reposition}
  }

  /** Why the account is not contacted, if it is not: the first gate that closes. */
  function Gate(icp: IcpScore, slots: seq<ContactPlan.Slot>, hits: seq<CompetitorHit>, hardNegatives: bool,
                memory: Option<AccountMemory.Memory>, now: Instant): Option<(Verdict, seq<Reason>)> {
    if hardNegatives then Some((NoContact, [HardNegativeSignal]))
    else if HasBlockingCompetitor(hits) then Some((NoContact, [BlockingCompetitor]))
    else if icp.bucket == OutOfBounds then Some((NoContact, [OutOfIcpBounds]))
    else if slots == [] then Some((NoContact, [NoContactCandidates]))
    else if memory.Some? && memory.value.IsSnoozed(now) then Some((Defer, [Snoozed]))
    else if memory.Some? && memory.value.HardObjection() && !memory.value.HasNewTrigger() then
      Some((NoContact, [PriorHardObjection]))
    else None
  }

  function Composite(icp: IcpScore, urgency: UrgencyScore, confidence: real, softened: bool): real {
    (icp.score * 0.25 + urgency.urgency * 0.30 + urgency.monetization * 0.25 + confidence * 0.20)
    * (if softened then 0.85 else 1.0)
    * (if icp.bucket == Marginal then 0.80 else 1.0)
  }

  function TierOf(composite: real): nat {
    if composite >= 0.70 then 1
    else if composite >= 0.55 then 2
    else if composite >= 0.40 then 3
    else if composite >= 0.25 then 4
    else 5
  }

  function WindowOf(tier: nat): Window {
    if tier <= 2 then Immediate else if tier == 3 then NextWeek else NextMonth
  }

  function TierReason(tier: nat): Reason {
    if tier == 1 then Tier1HighComposite
    else if tier == 2 then Tier2GoodComposite
    else if tier == 3 then Tier3Moderate
    else if tier == 4 then Tier4Low
    else Tier5Minimal
  }

  function Reasons(icp: IcpScore, hits: seq<CompetitorHit>, memory: Option<AccountMemory.Memory>,
                   tier: nat): seq<Reason> {
    (if memory.Some? && memory.value.HardObjection() then [PriorHardObjection, ReactivatedByNewTrigger] else [])
    + (if HasSofteningCompetitor(hits) then [CompetitorSoftening] else [])
    + (if icp.bucket == Marginal then [MarginalIcp] else [])
    + [TierReason(tier)]
  }

  function Decide(icp: IcpScore, urgency: UrgencyScore, expectedValue: int, slots: seq<ContactPlan.Slot>,
                  hits: seq<CompetitorHit>, hardNegatives: bool, memory: Option<AccountMemory.Memory>,
                      now: Instant): Decision {
    var gate := Gate(icp, slots, hits, hardNegatives, memory, now);
    if gate.Some? then Decision(gate.value.0, 0, "", NoWindow, gate.value.1, 0)
    else if slots == [] then Decision(NoContact, 0, "", NoWindow, [], 0)
    else
      var tier := TierOf(Composite(icp, urgency, slots[0].confidence, HasSofteningCompetitor(hits)));
      Decision(Contact, tier, slots[0].normalizedRole, WindowOf(tier), Reasons(icp, hits, memory, tier), expectedValue)
  }

  method MakeContactDecision(icp: IcpScore, urgency: UrgencyScore, expectedValue: int, slots: seq<ContactPlan.Slot>,
                             hits: seq<CompetitorHit>, hardNegatives: bool, memory: Option<AccountMemory.Memory>,
                                 now: Instant)
    returns (r: Decision)
    ensures r == Decide(icp, urgency, expectedValue, slots, hits, hardNegatives, memory, now)
  {
    var reasons: seq<Reason> := [];
    if hardNegatives {
      reasons := reasons + [HardNegativeSignal];
      return Decision(NoContact, 0, "", NoWindow, reasons, 0);
    }
    if HasBlockingCompetitor(hits) {
      reasons := reasons + [BlockingCompetitor];
      return Decision(NoContact, 0, "", NoWindow, reasons, 0);
    }
    if icp.bucket == OutOfBounds {
      reasons := reasons + [OutOfIcpBounds];
      return Decision(NoContact, 0, "", NoWindow, reasons, 0);
    }
    if |slots| == 0 {
      reasons := reasons + [NoContactCandidates];
      return Decision(NoContact, 0, "", NoWindow, reasons, 0);
    }
    if memory.Some? {
      if memory.value.IsSnoozed(now) {
        reasons := reasons + [Snoozed];
        return Decision(Defer, 0, "", NoWindow, reasons, 0);
      }
      if memory.value.HardObjection() {
        reasons := reasons + [PriorHardObjection];
        if !memory.value.HasNewTrigger() {
          return Decision(NoContact, 0, "", NoWindow, reasons, 0);
        }
        reasons := reasons + [ReactivatedByNewTrigger];
      }
    }

    assert Gate(icp, slots, hits, hardNegatives, memory, now).None?;
    var composite := icp.score * 0.25 + urgency.urgency * 0.30 + urgency.monetization * 0.25
        + slots[0].confidence * 0.20;
    if HasSofteningCompetitor(hits) {
      composite := composite * 0.85;
      reasons := reasons + [CompetitorSoftening];
    }
    if icp.bucket == Marginal {
      composite := composite * 0.80;
      reasons := reasons + [MarginalIcp];
    }
    assert composite == Composite(icp, urgency, slots[0].confidence, HasSofteningCompetitor(hits));
    assert reasons + [TierReason(TierOf(composite))] == Reasons(icp, hits, memory, TierOf(composite));
    var tier, window := 5, NextMonth;
    if composite >= 0.70 {
      tier, window := 1, Immediate;
      reasons := reasons + [Tier1HighComposite];
    } else if composite >= 0.55 {
      tier, window := 2, Immediate;
      reasons := reasons + [Tier2GoodComposite];
    } else if composite >= 0.40 {
      tier, window := 3, NextWeek;
      reasons := reasons + [Tier3Moderate];
    } else if composite >= 0.25 {
      tier, window := 4, NextMonth;
      reasons := reasons + [Tier4Low];
    } else {
      reasons := reasons + [Tier5Minimal];
    }
    return Decision(Contact, tier, slots[0].normalizedRole, window, reasons, expectedValue);
  }

  // ---- which accounts are refused, from the raw fields ----------------------------------------------

  ghost predicate HasBlockingHit(hits: seq<CompetitorHit>) {
    exists i :: 0 <= i < |hits| && hits[i].effect == Block && hits[i].confidence >= 0.7
  }

  ghost predicate SnoozeRuns(memory: Option<AccountMemory.Memory>, now: Instant) {
    memory.Some? && memory.value.snoozeUntil.Some? && now < memory.value.snoozeUntil.value
  }

  ghost predicate ObjectionIsKnown(memory: Option<AccountMemory.Memory>) {
    memory.Some? && exists tag :: tag in memory.value.objectionTags && AccountMemory.IsHardTag(tag)
  }

  /** A trigger came in after the last contact; when one of the two times is missing, any trigger counts. */
  ghost predicate TriggerIsNewer(memory: Option<AccountMemory.Memory>) {
    memory.Some? &&
    var m := memory.value;
    if m.lastTriggerAt.Some? && m.lastContacted.Some? then m.lastTriggerAt.value > m.lastContacted.value
    else m.reactivationTriggers != []
  }

  lemma GateIsFirstObstacle(icp: IcpScore, slots: seq<ContactPlan.Slot>, hits: seq<CompetitorHit>,
                            hardNegatives: bool, memory: Option<AccountMemory.Memory>, now: Instant)
    ensures var gate := Gate(icp, slots, hits, hardNegatives, memory, now);
            if hardNegatives then gate == Some((NoContact, [HardNegativeSignal]))
            else if HasBlockingHit(hits) then gate == Some((NoContact, [BlockingCompetitor]))
            else if icp.bucket == OutOfBounds then gate == Some((NoContact, [OutOfIcpBounds]))
            else if slots == [] then gate == Some((NoContact, [NoContactCandidates]))
            else if SnoozeRuns(memory, now) then gate == Some((Defer, [Snoozed]))
            else if ObjectionIsKnown(memory) && !TriggerIsNewer(memory) then
              gate == Some((NoContact, [PriorHardObjection]))
            else gate == None
  {
    if memory.Some? {
      AccountMemory.HardObjectionIff(memory.value);
    }
  }

  /**
   An account is contacted exactly when nothing stands in the way, and deferred exactly when its snooze
   is the first obstacle; otherwise the first obstacle is the only reason.
   */
  lemma VerdictIsFirstObstacle(icp: IcpScore, urgency: UrgencyScore, expectedValue: int,
                               slots: seq<ContactPlan.Slot>, hits: seq<CompetitorHit>, hardNegatives: bool,
                               memory: Option<AccountMemory.Memory>, now: Instant)
    ensures var d := Decide(icp, urgency, expectedValue, slots, hits, hardNegatives, memory, now);
            var reachable := !hardNegatives && !HasBlockingHit(hits) && icp.bucket != OutOfBounds && slots != [];
            var refused := ObjectionIsKnown(memory) && !TriggerIsNewer(memory);
            && (d.verdict == Contact <==> reachable && !SnoozeRuns(memory, now) && !refused)
            && (d.verdict == Defer <==> reachable && SnoozeRuns(memory, now))
            && (d.reasons == [HardNegativeSignal] <==> hardNegatives)
            && (d.reasons == [BlockingCompetitor] <==> !hardNegatives && HasBlockingHit(hits))
            && (d.reasons == [OutOfIcpBounds] <==>
                !hardNegatives && !HasBlockingHit(hits) && icp.bucket == OutOfBounds)
            && (d.reasons == [NoContactCandidates] <==>
                !hardNegatives && !HasBlockingHit(hits) && icp.bucket != OutOfBounds && slots == [])
            && (d.reasons == [Snoozed] <==> reachable && SnoozeRuns(memory, now))
            && (d.reasons == [PriorHardObjection] <==> reachable && !SnoozeRuns(memory, now) && refused)
            && (d.verdict != Contact ==> d == Decision(d.verdict, 0, "", NoWindow, d.reasons, 0))
  {
    GateIsFirstObstacle(icp, slots, hits, hardNegatives, memory, now);
    var d := Decide(icp, urgency, expectedValue, slots, hits, hardNegatives, memory, now);
    if d.verdict == Contact {
      assert d.reasons[|d.reasons| - 1] == TierReason(d.tier);
    }
  }

  /** What the weighted evidence comes to, with the penalties for softening competitors and marginal accounts. */
  ghost function Evidence(icp: IcpScore, urgency: UrgencyScore, confidence: real, hits: seq<CompetitorHit>): real {
    var sum := 0.25 * icp.score + 0.30 * urgency.urgency + 0.25 * urgency.monetization + 0.20 * confidence;
    var softened := exists i :: 0 <= i < |hits| && (hits[i].effect == Soften || hits[i].effect == Reposition);
    if softened && icp.bucket == Marginal then sum * 0.68
    else if softened then sum * 0.85
    else if icp.bucket == Marginal then sum * 0.80
    else sum
  }

  /** A contacted account goes by its evidence to one of five tiers, each with its window and its reason. */
  lemma TierIsByEvidence(icp: IcpScore, urgency: UrgencyScore, expectedValue: int, slots: seq<ContactPlan.Slot>,
                         hits: seq<CompetitorHit>, hardNegatives: bool, memory: Option<AccountMemory.Memory>,
                         now: Instant)
    requires Decide(icp, urgency, expectedValue, slots, hits, hardNegatives, memory, now).verdict == Contact
    ensures slots != []
    ensures var d := Decide(icp, urgency, expectedValue, slots, hits, hardNegatives, memory, now);
            var x := Evidence(icp, urgency, slots[0].confidence, hits);
            && d.targetRole == slots[0].normalizedRole && d.expectedValue == expectedValue
            && d.reasons != []
            && var last := d.reasons[|d.reasons| - 1];
               && (x >= 0.70 ==> d.tier == 1 && d.window == Immediate && last == Tier1HighComposite)
               && (0.55 <= x < 0.70 ==> d.tier == 2 && d.window == Immediate && last == Tier2GoodComposite)
               && (0.40 <= x < 0.55 ==> d.tier == 3 && d.window == NextWeek && last == Tier3Moderate)
               && (0.25 <= x < 0.40 ==> d.tier == 4 && d.window == NextMonth && last == Tier4Low)
               && (x < 0.25 ==> d.tier == 5 && d.window == NextMonth && last == Tier5Minimal)
  {
    EvidenceIsComposite(icp, urgency, slots[0].confidence, hits);
  }

  lemma EvidenceIsComposite(icp: IcpScore, urgency: UrgencyScore, confidence: real, hits: seq<CompetitorHit>)
    ensures Evidence(icp, urgency, confidence, hits)
            == Composite(icp, urgency, confidence, HasSofteningCompetitor(hits))
  {
    assert HasSofteningCompetitor(hits) <==>
           exists i :: 0 <= i < |hits| && (hits[i].effect == Soften || hits[i].effect == Reposition);
  }

  /** The other reasons of a contact say what was overcome and what lowered the evidence. */
  lemma ContactReasonsIff(icp: IcpScore, urgency: UrgencyScore, expectedValue: int, slots: seq<ContactPlan.Slot>,
                          hits: seq<CompetitorHit>, hardNegatives: bool, memory: Option<AccountMemory.Memory>,
                          now: Instant)
    requires Decide(icp, urgency, expectedValue, slots, hits, hardNegatives, memory, now).verdict == Contact
    ensures var reasons := Decide(icp, urgency, expectedValue, slots, hits, hardNegatives, memory, now).reasons;
            && (PriorHardObjection in reasons <==> ObjectionIsKnown(memory))
            && (ReactivatedByNewTrigger in reasons <==> ObjectionIsKnown(memory))
            && (CompetitorSoftening in reasons <==>
                exists i :: 0 <= i < |hits| && (hits[i].effect == Soften || hits[i].effect == Reposition))
            && (MarginalIcp in reasons <==> icp.bucket == Marginal)
  {
    if memory.Some? {
      AccountMemory.HardObjectionIff(memory.value);
    }
    var d := Decide(icp, urgency, expectedValue, slots, hits, hardNegatives, memory, now);
    assert d.reasons == Reasons(icp, hits, memory, d.tier);
    ReasonsListed(icp, hits, memory, d.tier);
  }

  lemma ReasonsListed(icp: IcpScore, hits: seq<CompetitorHit>, memory: Option<AccountMemory.Memory>, tier: nat)
    ensures forall r :: r in Reasons(icp, hits, memory, tier) <==>
                        || (memory.Some? && memory.value.HardObjection()
                            && (r == PriorHardObjection || r == ReactivatedByNewTrigger))
                        || (HasSofteningCompetitor(hits) && r == CompetitorSoftening)
                        || (icp.bucket == Marginal && r == MarginalIcp)
                        || r == TierReason(tier)
  {
  }

  // ---- the whole pipeline -----------------------------------------------------------------------

  /** Everything that goes into a decision about an account. */
  datatype Dossier = Dossier(
    firm: Firmographics,
    pains: seq<Pain>,
    hasNegatives: bool,
    negativeWeight: real,
    whyNow: real,
    slots: seq<ContactPlan.Slot>,
    hits: seq<CompetitorHit>,
    hardNegatives: bool,
    memory: Option<AccountMemory.Memory>,
    expectedValue: int
  ) {
    function IcpOf(): IcpScore {
      Icp(firm, pains, hasNegatives, negativeWeight)
    }

    function UrgencyOf(): UrgencyScore {
      Urgency(pains, IcpOf(), whyNow, negativeWeight)
    }

    function DecisionAt(now: Instant): Decision {
      Decide(IcpOf(), UrgencyOf(), expectedValue, slots, hits, hardNegatives, memory, now)
    }
  }

  /** Better outcomes rank lower: the tiers from 1 to 5, then deferral, then no contact. */
  function Rank(d: Decision): nat {
    match d.verdict
    case Contact => d.tier
    case Defer => 6
    case NoContact => 7
  }

  /**
   `d` looks at least as promising as `e`: the same categories, and every number moved, if at all, in
   the favourable direction.
   */
  ghost predicate NoLessPromising(d: Dossier, e: Dossier) {
    && FirmNoWorse(d.firm, e.firm)
    && PainsNoWeaker(d.pains, e.pains)
    && d.hasNegatives == e.hasNegatives
    && d.negativeWeight <= e.negativeWeight
    && d.whyNow >= e.whyNow
    && (d.slots == [] <==> e.slots == [])
    && (e.slots != [] ==> d.slots[0].confidence >= e.slots[0].confidence)
    && d.hits == e.hits && d.hardNegatives == e.hardNegatives && d.memory == e.memory
  }

  /** The penalties keep the order of the tiers, whatever the sign of the sum they scale. */
  lemma TiersAreMonotone(icp: IcpScore, jcp: IcpScore, u: UrgencyScore, v: UrgencyScore, x: real, y: real,
                         softened: bool)
    requires icp.score >= jcp.score && BucketRank(icp.bucket) >= BucketRank(jcp.bucket) > 0
    requires u.urgency >= v.urgency && u.monetization >= v.monetization && x >= y
    ensures TierOf(Composite(icp, u, x, softened)) <= TierOf(Composite(jcp, v, y, softened))
  {
    var a := icp.score * 0.25 + u.urgency * 0.30 + u.monetization * 0.25 + x * 0.20;
    var b := jcp.score * 0.25 + v.urgency * 0.30 + v.monetization * 0.25 + y * 0.20;
    assert a >= b;
  }

  /** A better ICP bucket opens gates, and never closes one. */
  lemma GatesAreMonotone(icp: IcpScore, jcp: IcpScore, slots: seq<ContactPlan.Slot>, slotz: seq<ContactPlan.Slot>,
                         hits: seq<CompetitorHit>, hardNegatives: bool, memory: Option<AccountMemory.Memory>,
                             now: Instant)
    requires BucketRank(icp.bucket) >= BucketRank(jcp.bucket) && (slots == [] <==> slotz == [])
    ensures var g, h := Gate(icp, slots, hits, hardNegatives, memory, now),
            Gate(jcp, slotz, hits, hardNegatives, memory, now);
            && (h.None? ==> g.None? && jcp.bucket != OutOfBounds && slotz != [])
            && (g.Some? ==> h.Some? && g.value.0 != Contact && (h.value.0 == Defer ==> g.value.0 == Defer))
            && (h.Some? ==> h.value.0 != Contact)
  {
  }

  lemma RankOfDecision(d: Dossier, now: Instant)
    ensures var gate := Gate(d.IcpOf(), d.slots, d.hits, d.hardNegatives, d.memory, now);
            && (gate.None? ==> d.slots != [])
            && Rank(d.DecisionAt(now)) ==
               if gate.Some? then (if gate.value.0 == Defer then 6 else 7)
               else TierOf(Composite(d.IcpOf(), d.UrgencyOf(), d.slots[0].confidence, HasSofteningCompetitor(d.hits)))
  {
  }

  /**
   From the raw inputs to the tier, across every clamp, rounding, penalty and threshold: a more
   promising account never gets a worse outcome.
   */
  lemma PipelineIsMonotone(d: Dossier, e: Dossier, now: Instant)
    requires NoLessPromising(d, e)
    ensures Rank(d.DecisionAt(now)) <= Rank(e.DecisionAt(now))
  {
    IcpIsMonotone(d.firm, e.firm, d.pains, e.pains, d.hasNegatives, d.negativeWeight, e.negativeWeight);
    UrgencyIsMonotone(d.pains, e.pains, d.IcpOf(), e.IcpOf(), d.whyNow, e.whyNow, d.negativeWeight, e.negativeWeight);
    GatesAreMonotone(d.IcpOf(), e.IcpOf(), d.slots, e.slots, d.hits, d.hardNegatives, d.memory, now);
    RankOfDecision(d, now);
    RankOfDecision(e, now);
    if Gate(e.IcpOf(), e.slots, e.hits, e.hardNegatives, e.memory, now).None? {
      TiersAreMonotone(d.IcpOf(), e.IcpOf(), d.UrgencyOf(), e.UrgencyOf(),
                       d.slots[0].confidence, e.slots[0].confidence, HasSofteningCompetitor(d.hits));
    }
  }

  /** The two readings of the promise: better timing helps, more negative signals hurt. */
  lemma TimingHelpsAndNegativesHurt(d: Dossier, now: Instant, whyNow: real, negativeWeight: real)
    ensures whyNow >= d.whyNow ==> Rank(d.(whyNow := whyNow).DecisionAt(now)) <= Rank(d.DecisionAt(now))
    ensures negativeWeight >= d.negativeWeight ==>
              Rank(d.(negativeWeight := negativeWeight).DecisionAt(now)) >= Rank(d.DecisionAt(now))
  {
    if whyNow >= d.whyNow {
      PipelineIsMonotone(d.(whyNow := whyNow), d, now);
    }
    if negativeWeight >= d.negativeWeight {
      PipelineIsMonotone(d, d.(negativeWeight := negativeWeight), now);
    }
  }

  /**
   With buyer confidences in [0, 1] and the slots of their contact plan, the composite of the decision
   stays in [0, 1], whatever the other raw inputs are.
   */
  lemma CompositeInUnitInterval(d: Dossier, candidates: seq<ContactPlan.Candidate>, order: seq<nat>,
                                priority: ContactPlan.BuyerPriority)
    requires forall p :: 0 <= p < |order| ==> order[p] < |candidates|
    requires forall i :: 0 <= i < |candidates| ==> 0.0 <= candidates[i].confidence <= 1.0
    requires ContactPlan.AreSlots(d.slots, candidates, order, priority) && d.slots != []
    ensures 0.0 <= Composite(d.IcpOf(), d.UrgencyOf(), d.slots[0].confidence, HasSofteningCompetitor(d.hits)) <= 1.0
  {
    IcpInUnitInterval(d.firm, d.pains, d.hasNegatives, d.negativeWeight);
    UrgencyInUnitInterval(d.pains, d.IcpOf(), d.whyNow, d.negativeWeight);
    ContactPlan.CombinedInUnitInterval(candidates[order[0]], priority);
    WeightsSumToOne(d.IcpOf(), d.UrgencyOf(), d.slots[0].confidence, HasSofteningCompetitor(d.hits));
  }

  lemma WeightsSumToOne(icp: IcpScore, u: UrgencyScore, confidence: real, softened: bool)
    requires 0.0 <= icp.score <= 1.0 && 0.0 <= u.urgency <= 1.0 && 0.0 <= u.monetization <= 1.0
             && 0.0 <= confidence <= 1.0
    ensures 0.0 <= Composite(icp, u, confidence, softened) <= 1.0
  {
    var x := icp.score * 0.25 + u.urgency * 0.30 + u.monetization * 0.25 + confidence * 0.20;
    assert 0.0 <= x <= 1.0;
  }

  // ---- the memory gate --------------------------------------------------------------------------------

  /** No decision contacts an account that objected, unless it was reactivated after the cooldown. */
  lemma ContactAfterObjectionMeansCooldown(d: Dossier, history: seq<AccountMemory.Event>, now: Instant)
    returns (c: nat, i: nat)
    requires AccountMemory.Timely(history) && AccountMemory.Objected(history)
    requires d.memory == Some(AccountMemory.Recall(history)) && d.DecisionAt(now).verdict == Contact
    ensures AccountMemory.LatestContact(history, c) && c < i < |history| && history[i].Signals?
    ensures history[i].at >= history[c].at + AccountMemory.COOLDOWN
    ensures exists s :: s in history[i].types && s in AccountMemory.REACTIVATION_SIGNALS
  {
    AccountMemory.MemoryAgreesWithHistory(history);
    AccountMemory.ObjectingAccountNeedsReactivation(history, now);
    c, i := AccountMemory.ApprovalAfterObjectionMeansCooldown(history, now);
  }

  /**
   The decision and `should_recontact` disagree on one rule: the decision contacts an account that
   has used up its attempts, exactly when that rule alone is what holds `should_recontact` back.
   */
  lemma DecisionIgnoresAttemptLimit(d: Dossier, now: Instant)
    requires d.memory.Some? && !d.hardNegatives && !HasBlockingCompetitor(d.hits)
    requires d.IcpOf().bucket != OutOfBounds && d.slots != []
    ensures var m := d.memory.value;
            && (m.ShouldRecontact(now) ==> d.DecisionAt(now).verdict == Contact)
            && (d.DecisionAt(now).verdict == Contact && !m.ShouldRecontact(now) <==>
                !m.IsSnoozed(now) && !m.HardObjection() && !m.HasNewTrigger()
                && m.contactCount >= 3 && m.lastOutcome == Some("no_reply"))
  {
  }
}
