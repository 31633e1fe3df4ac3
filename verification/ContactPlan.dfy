/** Whom to contact, in which order, and where to stop (workers/qualification/contact_plan.py). */
module ContactPlan {
  import opened Sorting
  import opened Rounding

  const MIN_CONFIDENCE_THRESHOLD: real := 0.25
  const MAX_FALLBACK_DEPTH: nat := 4

  datatype Candidate = Candidate(name: string, role: string, normalizedRole: string, confidence: real,
                                 evidenceUrl: string)

  datatype BuyerPriority = BuyerPriority(primaryRole: string, secondaryRoles: seq<string>)

  datatype Slot = Slot(
    rank: nat,
    name: string,
    role: string,
    normalizedRole: string,
    roleFit: real,
    confidence: real,
    evidenceUrl: string,
    stopIfNoResponse: bool
  )

  datatype Plan = Plan(slots: seq<Slot>, maxAttempts: int, stopReason: string)

  /** `roles.index(role)` */
  function IndexOf(roles: seq<string>, role: string): (i: nat)
    requires role in roles
    ensures i < |roles| && roles[i] == role && role !in roles[..i]
  {
    if roles[0] == role then 0 else
      var i := IndexOf(roles[1..], role);
      assert roles[..i + 1] == [roles[0]] + roles[1..][..i];
      i + 1
  }

  /** How well a role matches the buyer priority. */
  function RoleFit(role: string, priority: BuyerPriority): real {
    if role == priority.primaryRole then 1.0
    else if role in priority.secondaryRoles then
      var i := IndexOf(priority.secondaryRoles, role);
      if i == 0 then 0.7 else if i == 1 then 0.5 else 0.3
    else 0.1
  }

  predicate Unmatched(role: string, priority: BuyerPriority) {
    role != priority.primaryRole && role !in priority.secondaryRoles
  }

  /** The sort weight of a candidate; the list is sorted by its negation. */
  function Weight(c: Candidate, priority: BuyerPriority): real {
    RoleFit(c.normalizedRole, priority) * 0.6 + c.confidence * 0.4
  }

  function Combined(c: Candidate, priority: BuyerPriority): real {
    Round3(RoleFit(c.normalizedRole, priority) * 0.5 + c.confidence * 0.5)
  }

  function Keys(candidates: seq<Candidate>, priority: BuyerPriority): (keys: seq<Key>)
    ensures |keys| == |candidates|
  {
    seq(|candidates|, i requires 0 <= i < |candidates| => Key(-Weight(candidates[i], priority), 0.0))
  }

  function SlotOf(i: nat, c: Candidate, priority: BuyerPriority): Slot {
    Slot(i + 1, c.name, c.role, c.normalizedRole, Round2(RoleFit(c.normalizedRole, priority)),
         Combined(c, priority), c.evidenceUrl, i >= 2)
  }

  /** The slots are the candidates at the first positions of `order`, up to the first weak fallback. */
  ghost predicate AreSlots(slots: seq<Slot>, candidates: seq<Candidate>, order: seq<nat>, priority: BuyerPriority)
    requires forall p :: 0 <= p < |order| ==> order[p] < |candidates|
  {
    && |slots| <= |order| && |slots| <= MAX_FALLBACK_DEPTH
    && (forall p :: 0 <= p < |slots| ==> slots[p] == SlotOf(p, candidates[order[p]], priority))
    && (forall p :: 0 < p < |slots| ==> slots[p].confidence >= MIN_CONFIDENCE_THRESHOLD)
    && (|slots| < |order| && |slots| < MAX_FALLBACK_DEPTH ==>
          |slots| > 0 && Combined(candidates[order[|slots|]], priority) < MIN_CONFIDENCE_THRESHOLD)
  }

  /** The first loop of `build_contact_plan`: each candidate with its role fit. */
  method ScoreCandidates(candidates: seq<Candidate>, priority: BuyerPriority) returns (scored: seq<(Candidate, real)>)
    ensures |scored| == |candidates|
    ensures forall i :: 0 <= i < |candidates| ==>
                          scored[i] == (candidates[i], RoleFit(candidates[i].normalizedRole, priority))
  {
    scored := [];
    for k := 0 to |candidates|
      invariant |scored| == k
      invariant forall i :: 0 <= i < k ==> scored[i] == (candidates[i], RoleFit(candidates[i].normalizedRole, priority))
    {
      var c := candidates[k];
      var fit := 0.1;
      if c.normalizedRole == priority.primaryRole {
        fit := 1.0;
      } else if c.normalizedRole in priority.secondaryRoles {
        var idx := IndexOf(priority.secondaryRoles, c.normalizedRole);
        fit := if idx == 0 then 0.7 else if idx == 1 then 0.5 else 0.3;
      }
      scored := scored + [(c, fit)];
    }
  }

  /** The second loop of `build_contact_plan`: slots in order, up to the depth limit or the first weak fallback. */
  method FillSlots(candidates: seq<Candidate>, scored: seq<(Candidate, real)>, order: seq<nat>, priority: BuyerPriority)
    returns (slots: seq<Slot>)
    requires |scored| == |candidates| && forall p :: 0 <= p < |order| ==> order[p] < |candidates|
    requires forall i :: 0 <= i < |candidates| ==>
                           scored[i] == (candidates[i], RoleFit(candidates[i].normalizedRole, priority))
    ensures AreSlots(slots, candidates, order, priority)
    ensures order != [] ==> slots != []
  {
    slots := [];
    for i := 0 to if |order| <= MAX_FALLBACK_DEPTH then |order| else MAX_FALLBACK_DEPTH
      invariant |slots| == i
      invariant forall p :: 0 <= p < i ==> slots[p] == SlotOf(p, candidates[order[p]], priority)
      invariant forall p :: 0 < p < i ==> slots[p].confidence >= MIN_CONFIDENCE_THRESHOLD
    {
      var (c, fit) := scored[order[i]];
      assert c == candidates[order[i]] && fit == RoleFit(c.normalizedRole, priority);
      var combined := Round3(fit * 0.5 + c.confidence * 0.5);
      assert combined == Combined(candidates[order[i]], priority);
      if combined < MIN_CONFIDENCE_THRESHOLD && i > 0 {
        break;
      }
      var slot := Slot(i + 1, c.name, c.role, c.normalizedRole, Round2(fit), combined, c.evidenceUrl, i >= 2);
      assert slot == SlotOf(i, candidates[order[i]], priority);
      slots := slots + [slot];
    }
  }

  /** The plan for some candidates: slots along the stable order by weight. */
  ghost predicate IsPlan(plan: Plan, candidates: seq<Candidate>, priority: BuyerPriority, maxAttempts: int) {
    && AreSlots(plan.slots, candidates, StableOrder(Keys(candidates, priority)), priority)
    && 1 <= |plan.slots| <= 4
    && plan.maxAttempts == (if maxAttempts <= |plan.slots| then maxAttempts else |plan.slots|)
    && plan.stopReason == (if |plan.slots| < |candidates| then "remaining_below_threshold" else "")
  }

  method BuildContactPlan(candidates: seq<Candidate>, priority: BuyerPriority, maxAttempts: int) returns (plan: Plan)
    ensures candidates == [] ==> plan == Plan([], 0, "no_candidates_found")
    ensures candidates != [] ==> IsPlan(plan, candidates, priority, maxAttempts)
  {
    if |candidates| == 0 {
      return Plan([], 0, "no_candidates_found");
    }
    var scored := ScoreCandidates(candidates, priority);
    var order := StableOrder(Keys(candidates, priority));
    var slots := FillSlots(candidates, scored, order, priority);
    var stopReason := "";
    if |slots| == 0 {
      stopReason := "all_candidates_below_threshold";
    } else if |slots| < |scored| {
      stopReason := "remaining_below_threshold";
    }
    return Plan(slots, if maxAttempts <= |slots| then maxAttempts else |slots|, stopReason);
  }

  /** The order is by weight, best first and stable, so the first slot is the earliest of the best candidates. */
  lemma FirstSlotIsBest(candidates: seq<Candidate>, priority: BuyerPriority, i: nat)
    requires i < |candidates|
    ensures var order := StableOrder(Keys(candidates, priority));
            && |order| == |candidates|
            && Weight(candidates[i], priority) <= Weight(candidates[order[0]], priority)
            && (Weight(candidates[i], priority) == Weight(candidates[order[0]], priority) ==> order[0] <= i)
    ensures forall p, q :: 0 <= p < q < |candidates| ==>
                             var order := StableOrder(Keys(candidates, priority));
                             Weight(candidates[order[q]], priority) <= Weight(candidates[order[p]], priority)
  {
    var keys := Keys(candidates, priority);
    var order := StableOrder(keys);
    assert i in order;
    var p :| 0 <= p < |order| && order[p] == i;
    assert p > 0 ==> Ahead(keys, order[0], order[p]);
    forall p, q | 0 <= p < q < |order|
      ensures Weight(candidates[order[q]], priority) <= Weight(candidates[order[p]], priority)
    {
      assert Ahead(keys, order[p], order[q]);
    }
  }

  /** Confidence alone lifts an unmatched role above the primary one only by a lead of 1.35 ... */
  lemma UnmatchedLead(u: Candidate, v: Candidate, priority: BuyerPriority)
    requires Unmatched(u.normalizedRole, priority) && v.normalizedRole == priority.primaryRole
    ensures Weight(v, priority) < Weight(u, priority) <==> u.confidence - v.confidence > 1.35
  {
  }

  /** ... so with confidences in [0, 1] no unmatched candidate ever ranks above a primary one. */
  lemma UnmatchedNeverAbovePrimary(candidates: seq<Candidate>, priority: BuyerPriority, p: nat, q: nat)
    requires p < q < |candidates| && forall i :: 0 <= i < |candidates| ==> 0.0 <= candidates[i].confidence <= 1.0
    ensures var order := StableOrder(Keys(candidates, priority));
            !(Unmatched(candidates[order[p]].normalizedRole, priority)
              && candidates[order[q]].normalizedRole == priority.primaryRole)
  {
    var order := StableOrder(Keys(candidates, priority));
    FirstSlotIsBest(candidates, priority, 0);
    UnmatchedLeadOrNot(candidates[order[p]], candidates[order[q]], priority);
  }

  lemma UnmatchedLeadOrNot(u: Candidate, v: Candidate, priority: BuyerPriority)
    requires 0.0 <= u.confidence <= 1.0 && 0.0 <= v.confidence <= 1.0
    ensures Unmatched(u.normalizedRole, priority) && v.normalizedRole == priority.primaryRole ==>
              Weight(u, priority) < Weight(v, priority)
  {
  }

  /** With confidences in [0, 1] every slot has a confidence in [0, 1]. */
  lemma CombinedInUnitInterval(c: Candidate, priority: BuyerPriority)
    requires 0.0 <= c.confidence <= 1.0
    ensures 0.0 <= Combined(c, priority) <= 1.0
  {
    var fit := RoleFit(c.normalizedRole, priority);
    assert 0.1 <= fit <= 1.0;
    Round3KeepsUnitInterval(fit * 0.5 + c.confidence * 0.5);
  }

  lemma LaterSlotsAreStrong(slots: seq<Slot>, candidates: seq<Candidate>, order: seq<nat>, priority: BuyerPriority)
    requires forall p :: 0 <= p < |order| ==> order[p] < |candidates|
    requires AreSlots(slots, candidates, order, priority)
    ensures forall p :: 0 < p < |slots| ==> Combined(candidates[order[p]], priority) >= MIN_CONFIDENCE_THRESHOLD
  {
    assert forall p :: 0 < p < |slots| ==> slots[p] == SlotOf(p, candidates[order[p]], priority);
  }

  /** `AreSlots` leaves no choice: it fixes where the plan stops, and so the whole plan. */
  lemma SlotsAreDetermined(slots: seq<Slot>, others: seq<Slot>, candidates: seq<Candidate>, order: seq<nat>,
                           priority: BuyerPriority)
    requires forall p :: 0 <= p < |order| ==> order[p] < |candidates|
    requires AreSlots(slots, candidates, order, priority) && AreSlots(others, candidates, order, priority)
    ensures slots == others
  {
    LaterSlotsAreStrong(slots, candidates, order, priority);
    LaterSlotsAreStrong(others, candidates, order, priority);
  }

  // ---- the plan from the raw fields -----------------------------------------------------------------

  lemma {:induction false} IndexIsFirst(roles: seq<string>, role: string, i: nat)
    requires i < |roles| && roles[i] == role && role !in roles[..i]
    ensures IndexOf(roles, role) == i
  {
    if i > 0 {
      assert roles[..i][0] == roles[0];
      assert roles[..i] == [roles[0]] + roles[1..][..i - 1];
      IndexIsFirst(roles[1..], role, i - 1);
    }
  }

  /** What each place in the buyer priority is worth. */
  lemma RoleFitTable(role: string, priority: BuyerPriority)
    ensures role == priority.primaryRole ==> RoleFit(role, priority) == 1.0
    ensures role != priority.primaryRole ==>
              && (role !in priority.secondaryRoles ==> RoleFit(role, priority) == 0.1)
              && forall i :: 0 <= i < |priority.secondaryRoles| && priority.secondaryRoles[i] == role
                             && role !in priority.secondaryRoles[..i] ==>
                               RoleFit(role, priority) == if i == 0 then 0.7 else if i == 1 then 0.5 else 0.3
  {
    forall i | 0 <= i < |priority.secondaryRoles| && priority.secondaryRoles[i] == role
               && role !in priority.secondaryRoles[..i]
      ensures IndexOf(priority.secondaryRoles, role) == i
    {
      IndexIsFirst(priority.secondaryRoles, role, i);
    }
  }

  /** Candidates are ordered by three parts of fit and two of evidence, ties as they came. */
  lemma AheadIff(candidates: seq<Candidate>, priority: BuyerPriority, i: nat, j: nat)
    requires i < |candidates| && j < |candidates|
    ensures var x, y := 3.0 * RoleFit(candidates[i].normalizedRole, priority) + 2.0 * candidates[i].confidence,
                        3.0 * RoleFit(candidates[j].normalizedRole, priority) + 2.0 * candidates[j].confidence;
            Ahead(Keys(candidates, priority), i, j) <==> x > y || (x == y && i < j)
  {
  }

  /** Half fit and half evidence, to three places. */
  ghost function Strength(c: Candidate, priority: BuyerPriority): real {
    Round3((RoleFit(c.normalizedRole, priority) + c.confidence) / 2.0)
  }

  lemma StrengthIsCombined(c: Candidate, priority: BuyerPriority)
    ensures Strength(c, priority) == Combined(c, priority)
  {
  }

  /**
   At most four slots, ranked from one, for the candidates in order; the first is always taken and the
   others need a strength of 0.25; only the first two go on when nobody answers.
   */
  lemma SlotsOfPlan(plan: Plan, candidates: seq<Candidate>, priority: BuyerPriority, maxAttempts: int)
    requires candidates != [] && IsPlan(plan, candidates, priority, maxAttempts)
    ensures var order, n := StableOrder(Keys(candidates, priority)), |plan.slots|;
            && 1 <= n <= 4 && n <= |candidates| == |order|
            && (n < 4 && n < |candidates| ==> Strength(candidates[order[n]], priority) < 0.25)
            && plan.maxAttempts == (if n < maxAttempts then n else maxAttempts)
            && forall p :: 0 <= p < n ==>
                 var slot, c := plan.slots[p], candidates[order[p]];
                 && slot.rank == p + 1 && slot.name == c.name && slot.role == c.role
                 && slot.normalizedRole == c.normalizedRole && slot.evidenceUrl == c.evidenceUrl
                 && slot.confidence == Strength(c, priority) && (p > 0 ==> slot.confidence >= 0.25)
                 && slot.roleFit == RoleFit(c.normalizedRole, priority)
                 && (slot.stopIfNoResponse <==> p == 2 || p == 3)
  {
    var order := StableOrder(Keys(candidates, priority));
    forall p | 0 <= p < |plan.slots|
      ensures plan.slots[p] == SlotOf(p, candidates[order[p]], priority)
      ensures Round2(RoleFit(candidates[order[p]].normalizedRole, priority))
              == RoleFit(candidates[order[p]].normalizedRole, priority)
    {
      FitsAreRounded(candidates[order[p]].normalizedRole, priority);
    }
  }

  lemma FitsAreRounded(role: string, priority: BuyerPriority)
    ensures Round2(RoleFit(role, priority)) == RoleFit(role, priority)
  {
    RoundHalfEvenOfInt(100.0, 100);
    RoundHalfEvenOfInt(70.0, 70);
    RoundHalfEvenOfInt(50.0, 50);
    RoundHalfEvenOfInt(30.0, 30);
    RoundHalfEvenOfInt(10.0, 10);
  }

  // ---- when the stop reason is true ------------------------------------------------------------------

  /** The candidate in place `p` of the order is below the threshold. */
  ghost predicate WeakAt(candidates: seq<Candidate>, order: seq<nat>, priority: BuyerPriority, p: nat) {
    p < |order| && order[p] < |candidates| && Combined(candidates[order[p]], priority) < MIN_CONFIDENCE_THRESHOLD
  }

  /** The loop gets as far as place `q`: it is within the depth limit, and nobody weak stands before it. */
  ghost predicate Reaches(candidates: seq<Candidate>, order: seq<nat>, priority: BuyerPriority, q: nat) {
    q < MAX_FALLBACK_DEPTH && forall p: nat :: 1 <= p < q ==> !WeakAt(candidates, order, priority, p)
  }

  /** Every fallback that meets the threshold is reached. */
  ghost predicate StrongAreReached(candidates: seq<Candidate>, order: seq<nat>, priority: BuyerPriority) {
    forall q: nat :: 1 <= q < |order| && !WeakAt(candidates, order, priority, q) ==>
        Reaches(candidates, order, priority, q)
  }

  /** From place `n` on everybody is below the threshold. */
  ghost predicate RestIsWeak(candidates: seq<Candidate>, order: seq<nat>, priority: BuyerPriority, n: nat) {
    forall q: nat :: n <= q < |order| ==> WeakAt(candidates, order, priority, q)
  }

  lemma RestIsWeakIffStrongAreReached(slots: seq<Slot>, candidates: seq<Candidate>, order: seq<nat>,
                                      priority: BuyerPriority)
    requires order != [] && forall p :: 0 <= p < |order| ==> order[p] < |candidates|
    requires AreSlots(slots, candidates, order, priority)
    ensures RestIsWeak(candidates, order, priority, |slots|) <==> StrongAreReached(candidates, order, priority)
  {
    LaterSlotsAreStrong(slots, candidates, order, priority);
    assert forall p: nat :: 1 <= p < |slots| ==> !WeakAt(candidates, order, priority, p);
    assert |slots| < |order| && |slots| < MAX_FALLBACK_DEPTH ==> WeakAt(candidates, order, priority, |slots|);
  }

  /**
   A plan that stops with `remaining_below_threshold` speaks the truth exactly when every strong
   fallback is reached.
   */
  lemma StopReasonIsTrueIffStrongAreReached(plan: Plan, candidates: seq<Candidate>, priority: BuyerPriority,
                                            maxAttempts: int)
    requires candidates != [] && IsPlan(plan, candidates, priority, maxAttempts)
    ensures var order := StableOrder(Keys(candidates, priority));
            (plan.stopReason == "remaining_below_threshold" ==> RestIsWeak(candidates, order, priority, |plan.slots|))
            <==> StrongAreReached(candidates, order, priority)
  {
    RestIsWeakIffStrongAreReached(plan.slots, candidates, StableOrder(Keys(candidates, priority)), priority);
  }

  const CHAIN := BuyerPriority("ciso", ["cto", "ceo", "coo"])

  /** A strong candidate, a weak one in third place of the chain, and an unmatched one with more evidence. */
  const CROWD := [Candidate("a", "", "ciso", 1.0, ""), Candidate("b", "", "coo", 0.15, ""),
      Candidate("c", "", "dev", 0.4, "")]

  lemma CrowdIsSorted()
    ensures StableOrder(Keys(CROWD, CHAIN)) == [0, 1, 2]
    ensures Combined(CROWD[1], CHAIN) < MIN_CONFIDENCE_THRESHOLD <= Combined(CROWD[2], CHAIN)
  {
    assert "coo" == CHAIN.secondaryRoles[2];
    assert IndexOf(CHAIN.secondaryRoles, "coo") == 2;
    assert "dev"[0] != "ciso"[0] && "dev"[0] != "cto"[0] && "dev"[0] != "ceo"[0] && "dev"[0] != "coo"[0];
    assert RoleFit("ciso", CHAIN) == 1.0 && RoleFit("coo", CHAIN) == 0.3 && RoleFit("dev", CHAIN) == 0.1;
    RoundHalfEvenOfInt(225.0, 225);
    RoundHalfEvenOfInt(250.0, 250);
    var keys := Keys(CROWD, CHAIN);
    assert [0, 1, 2][0] == 0 && [0, 1, 2][1] == 1 && [0, 1, 2][2] == 2;
    assert IsStableOrder(keys, 0, [0, 1, 2]);
    StableOrderIsUnique(keys, StableOrder(keys), [0, 1, 2], 2);
  }

  /**
   A weak fallback in front hides a stronger one, since the list is sorted by other weights than the
   threshold tests.
   */
  lemma StrongFallbackCanBeDropped(plan: Plan, maxAttempts: int)
    requires IsPlan(plan, CROWD, CHAIN, maxAttempts)
    ensures |plan.slots| == 1 && plan.stopReason == "remaining_below_threshold"
    ensures !WeakAt(CROWD, StableOrder(Keys(CROWD, CHAIN)), CHAIN, 2)
  {
    CrowdIsSorted();
    assert StableOrder(Keys(CROWD, CHAIN))[1] == 1;
    LaterSlotsAreStrong(plan.slots, CROWD, StableOrder(Keys(CROWD, CHAIN)), CHAIN);
  }

  /** The depth limit drops every candidate after the fourth, and gives the same reason when all of them are strong. */
  lemma DepthLimitDropsStrong(plan: Plan, candidates: seq<Candidate>, priority: BuyerPriority, maxAttempts: int)
    requires |candidates| > 4 && IsPlan(plan, candidates, priority, maxAttempts)
    requires forall i :: 0 <= i < |candidates| ==> Combined(candidates[i], priority) >= MIN_CONFIDENCE_THRESHOLD
    ensures |plan.slots| == 4 && plan.stopReason == "remaining_below_threshold"
    ensures forall q :: 0 <= q < |candidates| ==> !WeakAt(candidates, StableOrder(Keys(candidates, priority)),
            priority, q)
  {
  }
}
