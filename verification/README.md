# A verified model of the Trust Copilot sales pipeline

The pipeline finds companies, decides whether and whom to contact, sends within budgets, and turns
payments into workspaces. Its hard logic sits in small stateful services. This project models those
services in Dafny and proves what they keep over whole runs.

Services that update fields are classes. Each of their methods is proved against a step function on
plain values (`Take`, `Apply`, `Advance`), and the promises are lemmas about runs of such steps. No
promise rests on a step function alone: methods also state their results in the raw fields, and
lemmas tell the state from the calls of a run (`OutboxHistory.dfy`, `CrawlHistory.dfy`).
Loops in the source are loops here, with the invariants they need. Sorting and queries are proved
against a specification that has one answer (`Sorting.StableOrderIsUnique`) or against what any
answer of the database must satisfy (`Sorting.IsFirst`).

- **Outbox** (`Outbox.dfy`, `OutboxHistory.dfy`): interleaved workers that lock, commit, roll back,
  complete and fail rows. The status of a row is exactly the history of its calls. Each row is out with at most one worker, is delivered at most `max_attempts` times, and the
  table can always be drained; the work left is a measure that every claim, completion and failure
  lowers. The source checks neither holder nor status in `complete` and `fail`, so "only the holder
  calls them" is part of the protocol (`Enabled`). Without that rule a claimed row can be delivered
  to a second worker unless it is on its last attempt (`ClaimIsExclusiveIffLastAttempt`), and finished
  rows need not stay finished (`StrayCallKeepsStatusIff`). The bound on deliveries does not depend on
  it (`StrayCallsKeepDeliveryBound`). A limit below one still allows one delivery
  (`Row.Limit`).
- **Send-budget allocation** (`Assignments.dfy`, `AllocationOptimum.dfy`, `MailboxOrchestrator.dfy`):
  first fit as a b-matching with domain exclusion, compared with every other assignment and with the
  optimum, for which there is a closed form.
- **Lane budgets** (`LaneBudgets.dfy`, `LanePromotion.dfy`, `LaneInterleavings.dfy`): two fixed
  windows with lazy resets, bounded over sliding windows; conservation and order of the items that
  sequential promotions move; and, for promotions whose steps interleave on one budget row, exactly
  when no interleaving loses an item: before any has begun, when the queue fits the room.
- **Qualification** (`AccountMemory.dfy`, `ContactPlan.dfy`, `Scoring.dfy`, `ContactDecision.dfy`):
  the cooldown after an objection over any history, the fallback chain, and monotonicity from the raw
  inputs to the tier.
- **Discovery** (`CrawlScheduler.dfy`, `CrawlHistory.dfy`, `Chunker.dfy`): the gap between crawls of
  one source under any mix of successes and failures, and the exact time of the next one; a
  specification of chunking that leaves the splitter no choice.
- **Account states** (`AccountStates.dfy`, `ConcurrentTransitions.dfy`): what every path through the
  table must look like, the agreement of state and version with the audit trail, and exactly when
  concurrent sessions break it.
- **Sending, retention, billing, provisioning** (`SafetyMonitor.dfy`, `Suppression.dfy`,
  `Retention.dfy`, `Billing.dfy`, `Provisioning.dfy`): lazy expiry, suppression until removal,
  pacing, and replay safety from webhook to workspace.

Time is a parameter of every step: whole microseconds, and non-decreasing where a promise needs it.
Floating-point numbers are exact reals, with Python's rounding half to even written out
(`Rounding.dfy`). Identifiers that the source draws at random come in as parameters.

## Where the code and its documentation differ

The model follows the code.

- The repository's README lists `snoozed` as terminal; the table lets it go back to three states, one
  of which is `contactable`. That one alone is why an activated account need not have been qualified
  (`ActivationNeedsQualificationIff`).
- `max_nudges_per_month` is stored and never read. The weekly cooldown happens to keep it for windows
  of up to four weeks, and for no longer ones (`MonthlyLimitHoldsIffFourWeeks`).
- `remaining_below_threshold` is true of the candidates without a slot exactly when the chain reaches
  every strong fallback (`StopReasonIsTrueIffStrongAreReached`). It does not when a weaker candidate
  stands in front (`StrongFallbackCanBeDropped`) or the depth limit is passed (`DepthLimitDropsStrong`).
  `all_candidates_below_threshold` is never reported, because the first candidate is always taken.
- `check_reactivation` records a trigger only for accounts with a hard objection, so three contacts
  that end without a reply block any other account, whatever signals follow, until another outcome is
  recorded (`OnlyOutcomesUnblock`); the contact decision does not look at that rule at all
  (`DecisionIgnoresAttemptLimit`).
- The backoff is meant to put failing sources off. A failure can nevertheless bring the next crawl
  forward: the backoff is capped at 720 hours even for longer intervals, and a late success clears the
  count of failures but not the due time they led to. Over all timely runs neither happens exactly for
  intervals from 360 to 720 hours (`FailuresNeverHastenIffBetweenHalfAndCap`); the default of 168 is
  not among them (`DefaultIntervalIsHastened`).
- The idempotency key of a checkout joins account and plan with a colon. A checkout can return the
  session of another account exactly when one account id in use is another one up to a colon
  (`CheckoutsReturnOwnIffNoneExtends`).

## Model

| member | source | states |
|---|---|---|
| Sorting.StableOrder | workers/send/mailbox_orchestrator.py:69-72 | the order lists each position once, smaller keys first, ties by position |
| Sorting.StableOrderIsUnique | workers/qualification/contact_plan.py:66 | any two stable orders of the same keys are the same list |
| Sorting.SelectFirstIsFirst | workers/discovery/scheduler.py:22-31 | taking the first n eligible positions of the sorted list is a possible answer of ORDER BY ... LIMIT n: distinct, eligible, in order, and nobody is passed over before n are chosen |
| Outbox.CommitDeliversOlderRowsToo | services/outbox.py:43-62 | over any run, whatever a commit delivers: each older row that was pending and unlocked when the worker claimed it is delivered by the same commit |
| Outbox.EveryRunIsSafe | services/outbox.py:43-77 | after any interleaving: batches of open transactions are disjoint, without repetition and all pending; attempts fit the status and never pass the limit; a claimed row has a holder |
| Outbox.DeliveriesAreExclusiveAndBounded | services/outbox.py:43-77 | over any history a row has been delivered exactly `attempts` times, at most its limit, and deliveries exceed completions and failures by one exactly while it is claimed |
| Outbox.HandedOutIsAccountedFor | services/outbox.py:43-62 | over any run, how often `claim_batch` has handed out a row before its commit is how often it was delivered by a commit, plus rolled back, plus one while it is locked |
| Outbox.FinishedIsAbsorbing | services/outbox.py:64-77 | no continuation of any run changes a completed or dead row |
| Outbox.WorkUsesEnergy | services/outbox.py:55-77 | a step that claims, completes or fails something lowers the sum of 2 * (limit - attempts) + (1 if claimed) over unfinished rows; every other step leaves the rows alone |
| Outbox.WorkIsBounded | services/outbox.py:43-77 | from a safe state, a continuation without new events does at most that much work |
| Outbox.UnfinishedRowAllowsWork | services/outbox.py:43-77 | with no transaction open, an unfinished row always lets some worker lower the measure |
| Outbox.EveryStateCanDrain | services/outbox.py:43-77 | from every safe state some continuation leaves each row completed, or dead after exactly its limit of deliveries |
| Outbox.ProtocolStepsAreOpenSteps | services/outbox.py:64-77 | in safe states the protocol is the special case of calls from anybody in which the holder calls |
| Outbox.EveryOpenRunKeepsLimit | services/outbox.py:43-77 | with `complete` and `fail` open to anybody on unlocked rows, every run keeps attempts within the limit, pending rows below it, and batches disjoint and pending |
| Outbox.StrayCallsKeepDeliveryBound | services/outbox.py:43-77 | in every such run a row has been delivered exactly `attempts` times, at most its limit, and below it while pending |
| Outbox.ClaimIsExclusiveIffLastAttempt | services/outbox.py:64-77 | with calls from anybody, no continuation delivers a claimed row again exactly when its attempts have reached `max_attempts` |
| Outbox.StrayCallKeepsStatusIff | services/outbox.py:64-77 | on a finished row `fail` keeps the status exactly when the row is dead at its limit, and `complete` exactly when it is completed |
| Outbox.LateFailReopensCompletedRow | services/outbox.py:69-76 | `fail` on a completed row puts it back to pending exactly when deliveries are left |
| Outbox.OutboxTable.Publish | services/outbox.py:19-33 | appends one pending row with no attempts, the event, payload, limit and creation time given, and the key given or else drawn |
| Outbox.OutboxTable.LockBatch | services/outbox.py:43-62 | takes rows that are pending and in no open batch, each once and the older first, and leaves one out only when the batch is full of rows as old; they join what the transaction has claimed at this instant, and nothing else changes |
| Outbox.AddClaims | services/outbox.py:54-59 | the loop adds exactly the selected rows, at this instant |
| Outbox.OutboxTable.CommitBatch | services/outbox.py:54-62 | exactly the rows of the transaction become claimed by the worker, each at its instant and with one more attempt; all other rows stay, the locks go, and safety is kept |
| Outbox.OutboxTable.RollbackBatch | services/outbox.py:43-62 | abandoning a claim before its commit leaves every row as it was |
| Outbox.OutboxTable.CompleteRow | services/outbox.py:64-67 | the row is completed at this instant whatever its status, and keeps its attempts, holder and all else, as do all other rows; a protocol step when the caller holds the claim |
| Outbox.OutboxTable.FailRow | services/outbox.py:69-77 | the row records the error; at its limit it is dead and keeps its holder, below it is pending without one; attempts and all other rows stay; a protocol step when the caller holds the claim |
| Outbox.OldestBatchTakesOldestFree | services/outbox.py:43-52 | any answer of the query consists of the oldest free rows, in terms of status, creation time and open batches |
| OutboxHistory.StatusIsHistory | services/outbox.py:43-77 | over any run the status is the history: completed exactly after the one completion by its holder, dead exactly after as many failures as deliveries are allowed, claimed exactly while a delivery is unanswered, otherwise pending |
| OutboxHistory.CompletionIsFinal | services/outbox.py:64-67 | once its holder has completed a row, every continuation keeps it completed at that time, with its attempts and holder, and never delivers it again |
| OutboxHistory.LastFailureIsFinal | services/outbox.py:69-77 | a failure at the limit leaves the row dead with that error in every continuation, and never delivered again |
| OutboxHistory.EarlierFailureReleases | services/outbox.py:69-77 | any other failure leaves the row pending, without holder and with that error, until the next commit that delivers it |
| OutboxHistory.DeliveryGivesRow | services/outbox.py:43-62 | a delivered row is claimed by the worker of the commit, at the instant of the claim and with one more attempt, until that worker completes or fails it |
| OutboxHistory.LastErrorIsOfLastFailure | services/outbox.py:69-77 | the error of a row is that of the last failure by a holder, whatever follows |
| OutboxHistory.PublishedDataStays | services/outbox.py:19-33 | no run changes the event, the creation time and the limit with which a row was published |
| Assignments.GreedyIsValidAndMaximal | workers/send/mailbox_orchestrator.py:89-115 | first fit respects capacities and domains, and leaves a recipient out only if each mailbox is full or of its domain |
| Assignments.MaximalServesHalf | workers/send/mailbox_orchestrator.py:89-115 | no valid assignment serves more than twice as many recipients as a maximal one |
| Assignments.GreedyServesHalf | workers/send/mailbox_orchestrator.py:89-115 | first fit serves at least half of what any valid assignment serves |
| Assignments.HalfIsTight | workers/send/mailbox_orchestrator.py:91-100 | for any three different domains there is a pool of two mailboxes and two recipients where it serves exactly half |
| Assignments.SwapServesOneMore | workers/send/mailbox_orchestrator.py:91-100 | moving one served recipient to a spare mailbox of a left-out recipient's domain serves one more, validly |
| Assignments.GreedyOptimalIffNoSwap | workers/send/mailbox_orchestrator.py:89-115 | first fit is optimal among all valid assignments exactly when no such single move exists |
| Assignments.TwoDomainsLeftOutIsOptimal | workers/send/mailbox_orchestrator.py:89-115 | if two recipients of different domains are left out, every mailbox is full and the assignment is optimal |
| Assignments.NoClashServesAllItCan | workers/send/mailbox_orchestrator.py:89-115 | without domain clashes it serves min(recipients, total capacity) |
| AllocationOptimum.NobodyServesMoreThanBest | workers/send/mailbox_orchestrator.py:89-115 | no valid assignment serves more than the least of: all recipients, the total capacity, and for each domain the recipients of other domains plus the capacity of other domains |
| AllocationOptimum.OptimalIffServesBest | workers/send/mailbox_orchestrator.py:89-115 | a valid assignment is optimal exactly when it serves that many |
| AllocationOptimum.BestIsReached | workers/send/mailbox_orchestrator.py:89-115 | some valid assignment does |
| AllocationOptimum.GreedyAgainstBest | workers/send/mailbox_orchestrator.py:89-115 | first fit serves at least half of it, and is optimal exactly when it reaches it |
| Assignments.DryRunServesSuperset | workers/send/mailbox_orchestrator.py:108-110 | a dry run serves exactly the recipients that some mailbox does not share a domain with, hence all that a real run serves |
| MailboxOrchestrator.ByIdKeepsTheLast | workers/send/mailbox_orchestrator.py:66 | a mailbox is kept exactly when it is the last one listed with its id |
| MailboxOrchestrator.ByIdKeepsOrder | workers/send/mailbox_orchestrator.py:66 | the mailboxes kept stand in the order in which their ids first came |
| MailboxOrchestrator.Orchestrator.Available | workers/send/mailbox_orchestrator.py:37-72 | exactly the mailboxes that are active, have a health of at least 0.5, pass all four DNS checks and have both counters below their caps, each once |
| MailboxOrchestrator.Orchestrator.AvailableIsSorted | workers/send/mailbox_orchestrator.py:69-72 | a greater health score comes first, then the smaller count of today, and full ties stay in the order of the dictionary |
| MailboxOrchestrator.Orchestrator.Allocate | workers/send/mailbox_orchestrator.py:74-121 | each recipient in turn goes to the first available mailbox of another domain that is below both caps after what it has been given so far, or is left out when there is none; every allocation names a mailbox that was available; both counters of every mailbox rise by its allocations, or by nothing in a dry run, and nothing else changes; the reason tells the outcome |
| MailboxOrchestrator.AllocateAmong | workers/send/mailbox_orchestrator.py:79-121 | the same, once the available mailboxes are known |
| MailboxOrchestrator.AllocateEach | workers/send/mailbox_orchestrator.py:86-115 | the loop over the recipients carries out the plan for all of them |
| MailboxOrchestrator.AllocateNext | workers/send/mailbox_orchestrator.py:90-115 | one turn of that loop extends the plan carried out by one recipient, allocated or left out |
| MailboxOrchestrator.AllocateOne | workers/send/mailbox_orchestrator.py:91-112 | the loop over the mailboxes gives the recipient to the first one with both caps open and another domain |
| MailboxOrchestrator.CountSend | workers/send/mailbox_orchestrator.py:108-110 | one mailbox counts one more message, or none in a dry run |
| MailboxOrchestrator.OutcomeFollowsOrder | workers/send/mailbox_orchestrator.py:89-115 | the first-fit plan is this turn by turn description: the first mailbox that may take each recipient takes it, and at the end none may take anyone left out |
| MailboxOrchestrator.OnlyAvailableSend | workers/send/mailbox_orchestrator.py:79-115 | mailboxes that were not available send nothing |
| MailboxOrchestrator.RecipientsArePartitioned | workers/send/mailbox_orchestrator.py:89-121 | allocated and left-out recipients together are the recipients, with multiplicity |
| MailboxOrchestrator.AllocationsKeepOrder | workers/send/mailbox_orchestrator.py:102-107 | the allocations serve their recipients in the order of the input |
| MailboxOrchestrator.CapsHoldAndNobodyLeftOutFits | workers/send/mailbox_orchestrator.py:91-115 | after a real run no cap is passed, and each available mailbox is full or of the domain of each left-out recipient |
| MailboxOrchestrator.AllocationServesHalf | workers/send/mailbox_orchestrator.py:74-121 | a real run allocates at least half as many recipients as any assignment within caps and domains |
| LaneBudgets.SlidingHourBound | services/lanes.py:58-80 | in any half-open 3600 seconds of any run at most two hourly limits are consumed |
| LaneBudgets.CalendarDayBound | services/lanes.py:58-80 | on no UTC date is more than the daily limit consumed |
| LaneBudgets.SlidingDayBound | services/lanes.py:58-80 | in any 24 hours at most two daily limits are consumed |
| LaneBudgets.BoundsAreTight | services/lanes.py:73-80 | for every limit there is a run that consumes twice the limit within two microseconds |
| LaneBudgets.CheckPromisesConsume | services/lanes.py:46-71 | after a true check, one unit can be consumed at any instant |
| LaneBudgets.RefusalsAreExact | services/lanes.py:58-80 | after any timely run of a fresh row `consume` refuses exactly: for a pause; else what the UTC date can no longer bear; else what the current hour can no longer bear, which began at the last reset or, after 3600 seconds, begins now |
| LaneBudgets.PassesIffOneUnitIsLeft | services/lanes.py:46-71 | `check_budget` says yes exactly when `consume` would not refuse one unit |
| LaneBudgets.LastPauseCounts | services/lanes.py:82-85 | a row is paused as the last pause call said, through any checks and consumption |
| LanePromotion.RunConservesItems | services/lanes.py:58-102 | in any sequential run, among pushes to both lists, pauses and consumption by others: what is in the source list followed by what promotions moved only grows at the front, by what was pushed there; nothing is lost |
| LanePromotion.MovedItemsArrive | services/lanes.py:87-102 | the target list holds exactly what was there, what was moved and what others pushed to it, with multiplicity |
| LanePromotion.MovedItemsArriveInOrder | services/lanes.py:87-102 | when nobody else pushes to the target list, items arrive there in the order in which they were pushed |
| LanePromotion.UnitsConsumedAreItemsMoved | services/lanes.py:58-102 | the budget sees, in order, exactly one unit for each item moved, at the instant of its consumption, and what others consumed |
| LanePromotion.PromotionRate | services/lanes.py:58-102 | in any hour items moved and units that others consumed are together at most two hourly limits, in any 24 hours two daily limits |
| LaneInterleavings.PromoteIsThreeSteps | services/lanes.py:91-102 | check, pop and consume of one idle worker, with nothing in between, are one sequential promotion |
| LaneInterleavings.PromotingIsSafeIffQueueFits | services/lanes.py:46-102 | with no promotion under way and a check that would pass: no interleaving of the steps of any workers, on a clock that never runs backwards, loses an item exactly when the queue is no longer than the room |
| LaneInterleavings.OpenPromotionsAreSafeIffTheyFit | services/lanes.py:91-102 | the same in the middle of promotions, with or without new ones starting: exactly when the room carries all items they can come to hold; once others may spend or pause in between, exactly when they can hold none |
| LaneInterleavings.OverlappingPromotionsLoseTheExcess | services/lanes.py:91-102 | n workers whose checks all pass and who all pop before any consumes lose exactly the items beyond the room |
| LanePromotion.RotatedKeepsItems | services/lanes.py:87-102 | promoting within one list keeps its items |
| LanePromotion.QueueNameIs | services/lanes.py:11-16 | the list of a queue is queue: and its name, with a colon for the dot exactly for the four queues of the lanes |
| LanePromotion.QueuesShareListIff | services/lanes.py:87-99 | two different names share a list exactly when one is a queue of the lanes and the other is its name with a colon for the dot |
| LanePromotion.LaneQueuesAreDifferentLists | services/lanes.py:11-16 | so the four queues of the lanes are four lists |
| LanePromotion.PromoteMovesTail | services/lanes.py:91-102 | a promotion moves the tail of the source to the head of the target exactly when it is logged as a move, and otherwise touches neither |
| LanePromotion.LaneBudgetService.CheckBudget | services/lanes.py:46-56 | the answer and the stored resets of the budget model; an unknown lane gets a row with limits 10000 and 1000, and passes |
| LanePromotion.LaneBudgetService.ConsumeUnits | services/lanes.py:58-71 | for any count: raises for a pause, the daily or the hourly limit, in that order, keeping only the resets; otherwise adds the units to both counters |
| LanePromotion.LaneBudgetService.PauseLane | services/lanes.py:82-85 | sets the pause of one budget row and nothing else |
| LanePromotion.LaneBudgetService.Enqueue | services/lanes.py:87-89 | pushes the payload at the head of one list and no other: queue: and the name, with a colon for the dot exactly for the four queues of the lanes |
| LanePromotion.LaneBudgetService.PopItem | services/lanes.py:97-99 | takes the item at the tail of the list, if there is one |
| LanePromotion.LaneBudgetService.PayAndEnqueue | services/lanes.py:100-101 | consumes one unit and then pushes the item; when it raises, nothing is pushed |
| LanePromotion.LaneBudgetService.TryPromote | services/lanes.py:91-102 | never raises; true exactly when the budget passes and the source holds an item; between two different queues of the lanes the tail of the source is then at the head of the target, and otherwise both are unchanged; one unit is charged exactly then; all other queues and budgets stay; within one list the items only turn round |
| AccountMemory.MemoryAgreesWithHistory | workers/qualification/account_memory.py:9-97 | the memory after any timely history agrees with what the history itself says: contacts, last outcome, objections, the end of the last snooze, and whether a reactivation followed the last contact |
| AccountMemory.SnoozedIffAsleep | workers/qualification/account_memory.py:21-25 | the account is snoozed exactly until the end given by its last contact with a known snooze reason |
| AccountMemory.ObjectingAccountNeedsReactivation | workers/qualification/account_memory.py:100-117 | after a hard objection contact is approved exactly when the history has no snooze running and a reactivation after the last contact |
| AccountMemory.ApprovalAfterObjectionMeansCooldown | workers/qualification/account_memory.py:78-117 | approval after an objection exhibits the last contact and a later reactivation signal at least 90 days after it |
| AccountMemory.OtherAccountsAreNeverReactivated | workers/qualification/account_memory.py:86-109 | without an objection no trigger is ever recorded, so approval means no snooze running and not three contacts of which the last got no reply |
| AccountMemory.OnlyOutcomesUnblock | workers/qualification/account_memory.py:86-109 | without an objection signals leave the memory as it is, and an outcome other than silence makes the account contactable unless it is snoozed |
| AccountMemory.UnansweredAccountStaysBlocked | workers/qualification/account_memory.py:86-109 | an input: three contacts without a reply and then a funding round |
| AccountMemory.Account.RecordOutcome | workers/qualification/account_memory.py:54-75 | contact time, outcome and count; new objections behind the old ones, none twice; the snooze of the reason: 30, 45, 60 or 90 days by the table, or the earlier one for any other reason; triggers stay |
| AccountMemory.Account.CheckReactivation | workers/qualification/account_memory.py:78-97 | the matches are the signals of the table, in order; it says yes exactly when there are any, and the account has no hard objection or was last contacted 90 days ago or more; it records them exactly when it says yes after an objection |
| AccountMemory.Account.ShouldRecontact | workers/qualification/account_memory.py:100-117 | approved exactly when no snooze is running and there is a newer trigger, or neither a hard objection nor three contacts ending in silence; the grounds name the first rule that decided |
| AccountMemory.MatchingIsFilter | workers/qualification/account_memory.py:82 | the matches are the reactivation signals among the given ones, in order and as often as they come |
| AccountMemory.AddTagsAdds | workers/qualification/account_memory.py:64-67 | old tags keep their places, all new ones are there, and none is added twice |
| ContactPlan.ScoreCandidates | workers/qualification/contact_plan.py:55-64 | each candidate is paired, in order, with the fit of its role |
| ContactPlan.FillSlots | workers/qualification/contact_plan.py:68-83 | slots follow the order, at most four, later ones meet 0.25, and they stop early only at a weak candidate |
| ContactPlan.BuildContactPlan | workers/qualification/contact_plan.py:43-96 | no candidates, or one to four slots along the stable order by weight, with the attempts and the stop reason of the code |
| ContactPlan.SlotsAreDetermined | workers/qualification/contact_plan.py:68-83 | what is said about the slots determines them |
| ContactPlan.SlotsOfPlan | workers/qualification/contact_plan.py:68-96 | one to four slots, ranked from one, for the candidates in order with their data, fit and the rounded mean of fit and confidence; later slots need 0.25, and the chain ends early only before a weaker candidate; only the third and fourth slot stop without a response |
| ContactPlan.RoleFitTable | workers/qualification/contact_plan.py:31-64 | the fit is 1.0 for the primary role, 0.7, 0.5 and 0.3 for the first, second and later places of the secondary roles, 0.1 for any other |
| ContactPlan.AheadIff | workers/qualification/contact_plan.py:66 | a candidate goes ahead exactly with more of three parts fit and two parts confidence, or with as much and an earlier place |
| ContactPlan.FirstSlotIsBest | workers/qualification/contact_plan.py:66 | the first position has the greatest weight, and is the earliest such; weights never rise along the order |
| ContactPlan.UnmatchedLead | workers/qualification/contact_plan.py:31-66 | an unmatched role outweighs the primary one exactly with a lead of more than 1.35 in confidence |
| ContactPlan.UnmatchedNeverAbovePrimary | workers/qualification/contact_plan.py:31-66 | with confidences in [0, 1] no unmatched candidate is ranked above a primary one |
| ContactPlan.CombinedInUnitInterval | workers/qualification/contact_plan.py:70 | with a confidence in [0, 1] the combined confidence is in [0, 1] |
| ContactPlan.StopReasonIsTrueIffStrongAreReached | workers/qualification/contact_plan.py:68-89 | in every plan, if the reason is `remaining_below_threshold` all candidates without a slot are below the threshold, exactly when each fallback that meets it is among the first four and has no weak one before it |
| ContactPlan.StrongFallbackCanBeDropped | workers/qualification/contact_plan.py:66-89 | an input whose plan has one slot and that reason although its last candidate meets the threshold |
| ContactPlan.DepthLimitDropsStrong | workers/qualification/contact_plan.py:69-89 | whenever more than four candidates all meet the threshold, the plan has four slots and that reason |
| Scoring.ScoreIcp | workers/qualification/icp_scoring.py:24-95 | the accumulated score equals the clamped sum of its contributions, rounded; the bucket is that of the unrounded sum; rules and penalties are listed in the order of the tests |
| Scoring.ScoreFirm | workers/qualification/icp_scoring.py:30-63 | the part of these that depends on the firm alone |
| Scoring.ScoreUrgency | workers/qualification/urgency.py:30-99 | both accumulated scores equal their clamped and rounded sums |
| Scoring.IcpIsWhatItsRulesAreWorth | workers/qualification/icp_scoring.py:30-87 | the score explains itself: the rounded and clamped worth of the rules listed with it, plus what counts unlisted, less the deductions; the bucket is that value against 0.75, 0.50 and 0.30 |
| Scoring.RulesAndPenaltiesAreListedIff | workers/qualification/icp_scoring.py:34-76 | each rule and penalty is listed exactly when its test on the inputs holds |
| Scoring.UrgencyIsWeightedSum | workers/qualification/urgency.py:36-92 | both scores from the weight of the kind of the leading pain, with weights that dampen only when positive and up to their limits |
| Rounding.RoundHalfEvenIsNearest | workers/qualification/icp_scoring.py:90 | rounding gives the nearest whole number, of two equally near ones the even one, and nothing else |
| Rounding.ClampIsNearest | workers/qualification/icp_scoring.py:78 | clamping gives the nearest number in [0, 1] |
| Scoring.IcpInUnitInterval | workers/qualification/icp_scoring.py:78-90 | the ICP score is in [0, 1] for any inputs |
| Scoring.UrgencyInUnitInterval | workers/qualification/urgency.py:66-96 | both scores are in [0, 1] for any inputs |
| Scoring.IcpIsMonotone | workers/qualification/icp_scoring.py:34-87 | a better firm, a surer leading pain and less negative weight never lower the score or the bucket |
| Scoring.UrgencyIsMonotone | workers/qualification/urgency.py:36-92 | surer pain, better ICP, better timing and less negative weight never lower either score |
| ContactDecision.MakeContactDecision | workers/qualification/contact_decision.py:25-142 | the decision in steps is the decision as a function, about which the following rows speak |
| ContactDecision.VerdictIsFirstObstacle | workers/qualification/contact_decision.py:36-86 | contact exactly without hard negatives, a block of confidence 0.7 or more, an account out of bounds, an empty plan, a running snooze, and a hard tag without a newer trigger; defer exactly when the snooze is the first obstacle; any refusal has the first obstacle as its only reason |
| ContactDecision.TierIsByEvidence | workers/qualification/contact_decision.py:88-142 | a contacted account is in tier 1 to 5 and its window by the weighted sum, lowered by 0.85 for softening competitors and 0.80 for marginal accounts, against 0.70, 0.55, 0.40 and 0.25; the target is the first slot |
| ContactDecision.ContactReasonsIff | workers/qualification/contact_decision.py:78-104 | the reasons of a contact name an overcome objection, softening competitors and a marginal account exactly when they are there |
| ContactDecision.GatesAreMonotone | workers/qualification/contact_decision.py:36-86 | a better bucket opens gates and never closes one; a closed gate never contacts |
| ContactDecision.TiersAreMonotone | workers/qualification/contact_decision.py:88-126 | better scores never give a worse tier, across both penalties |
| ContactDecision.PipelineIsMonotone | workers/qualification/contact_decision.py:25-142 | from the raw inputs through all scores to the decision, a more promising account never gets a worse outcome |
| ContactDecision.TimingHelpsAndNegativesHurt | workers/qualification/contact_decision.py:25-142 | raising the timing score never worsens the outcome, raising the negative weight never improves it |
| ContactDecision.CompositeInUnitInterval | workers/qualification/contact_decision.py:88-104 | with buyer confidences in [0, 1] and slots from their contact plan, the composite is in [0, 1] whatever the other raw inputs are |
| ContactDecision.ContactAfterObjectionMeansCooldown | workers/qualification/contact_decision.py:69-86 | a decision to contact an account that objected exhibits a reactivation signal at least 90 days after the last contact |
| ContactDecision.DecisionIgnoresAttemptLimit | workers/qualification/contact_decision.py:69-86 | with the other gates open, the decision and `should_recontact` differ exactly on awake, unobjecting, untriggered accounts with three unanswered contacts |
| CrawlScheduler.EveryRunIsSpaced | workers/discovery/scheduler.py:20-81 | after any timely run every source still waits out the gap after each of its jobs, and all jobs so far are spaced |
| CrawlScheduler.JobsOfOneSourceAreSpaced | workers/discovery/scheduler.py:20-81 | two jobs for one source are at least min(recrawl_hours, 720) hours apart, whatever happens in between |
| CrawlScheduler.FailuresNeverHastenIffBetweenHalfAndCap | workers/discovery/scheduler.py:20-81 | in no timely run a failure lowers the due time of a source with a given interval, exactly when the interval is from 360 to 720 hours |
| CrawlScheduler.DefaultIntervalIsHastened | workers/discovery/scheduler.py:53-81 | an input with the default interval: the failure moves the due time from 672 hours ahead to 336 |
| CrawlScheduler.BackoffLengthensIffWithinCap | workers/discovery/scheduler.py:53-60 | the delay after any number of failures is at least the regular interval exactly when that is within the cap |
| CrawlScheduler.JobsComeWithMoreUrgentOnes | workers/discovery/scheduler.py:20-51 | over any run each job came out of an emission that also emitted a job for every active, due, unlocked source of higher priority, or of the same and due earlier |
| CrawlScheduler.Scheduler.RegisterSource | workers/discovery/scheduler.py:83-109 | appends an active source with the given settings, no failures and full health, due at once |
| CrawlScheduler.Scheduler.EmitDueJobs | workers/discovery/scheduler.py:20-51 | one job for each of the most urgent active, due and unlocked sources, none left out unless the batch is full of sources as urgent; each is rescheduled, and nothing else changes |
| CrawlScheduler.Scheduler.EmitFor | workers/discovery/scheduler.py:35-48 | one job a selected source, in order, with its target and priority; without failures it is due after its interval, after k in a row after the interval times 2^k hours, at most 720; other sources stay |
| CrawlScheduler.Scheduler.RecordSuccess | workers/discovery/scheduler.py:62-70 | clears failures and error, sets the time and raises the health by 0.1 up to one; the due time and all else stay; an unknown source changes nothing |
| CrawlScheduler.Scheduler.RecordFailure | workers/discovery/scheduler.py:72-81 | counts the failure, lowers the health by 0.2 down to zero, keeps 2000 characters of the error, and sets the due time by the doubled interval, at most 720 hours; an unknown source changes nothing |
| CrawlHistory.StreakIsCounted | workers/discovery/scheduler.py:62-81 | over any run the failure count of a source is the number of its failures since its last success or its registration |
| CrawlHistory.DueTimeIsSetByLastScheduling | workers/discovery/scheduler.py:35-109 | over any run a source is due exactly: at its registration; after its last job or failure by its interval if it had not failed since its last success, else by the interval doubled once for each failure in a row, at most 720 hours; whatever successes and switches came since |
| CrawlHistory.WorkingSourceIsCrawledEachInterval | workers/discovery/scheduler.py:20-60 | a source that never fails and is crawled whenever it is due has its n-th job exactly n intervals after its registration |
| CrawlHistory.SettingsStay | workers/discovery/scheduler.py:83-109 | no run changes the target, the priority, the interval and the rate limit of a source |
| AccountStates.RunEndsAlongFunnel | db/models/enums.py:22-71 | a run that stands at the k-th funnel state got there through exactly the earlier ones |
| AccountStates.EnteredFrom | db/models/enums.py:22-71 | for each state the exact set of states from which it can be entered |
| AccountStates.RunContinuesUnlessFinished | db/models/enums.py:22-71 | at any point of a run the account can be blocked exactly when it is not activated, suppressed or blocked; a run goes on only from such states |
| AccountStates.SuppressionComesAfterQualification | db/models/enums.py:29-52 | a run is suppressed only from qualified, contactable, contacted or replied |
| AccountStates.ActivatedRunsEndWithFunnel | db/models/enums.py:22-71 | every run that reaches activated ends with exactly the nine states from contactable on, entered from qualified or snoozed |
| AccountStates.RunLengthBound | db/models/enums.py:22-71 | a run that falls asleep k times has at most 10k + 11 transitions |
| AccountStates.RunLengthBoundIsTight | db/models/enums.py:22-71 | for every k some run reaches that length |
| AccountStates.SkippingQualificationMeansWaking | db/models/enums.py:63-68 | an activated run that was never qualified went from snoozed straight to contactable |
| AccountStates.ActivationNeedsQualificationIff | db/models/enums.py:22-71 | for any set of states that accounts may wake into: every activated run has been qualified exactly when `contactable` is not in it |
| AccountStates.QualificationCanBeSkipped | db/models/enums.py:63-68 | such a run exists |
| AccountStates.AppendKeepsExplanation | services/state_machine.py:39-61 | a valid transition and its audit row keep the table equal to the replay of the trail |
| AccountStates.VersionCountsRows | services/state_machine.py:47-60 | replaying a trail raises the version by the number of rows of the account |
| AccountStates.StateMachine.TransitionById | services/state_machine.py:30-79 | not found, invalid, or the new state with one version more and one audit row; errors change nothing, and the trail still explains the table |
| AccountStates.StateMachine.VersionsCountAuditRows | services/state_machine.py:30-63 | at any time the version is the initial one plus the number of audit rows |
| ConcurrentTransitions.VersionCountsRowsIffNoneStale | services/state_machine.py:39-61 | with any number of sessions that load and write the row: the version is the initial one plus the audit rows exactly when no session wrote after another had written since its load; it is never more |
| ConcurrentTransitions.TwoSessionsLoseAVersion | services/state_machine.py:39-61 | an input: two sessions that load the same row leave two audit rows and one version |
| SafetyMonitor.LazyDeletionOnlyDropsExpired | workers/send/safety.py:81-88 | in any timely run the table differs from one that never deletes only by expired entries |
| SafetyMonitor.LazyDeletionIsInvisible | workers/send/safety.py:81-150 | so `is_paused` and, as a set, `active_pauses` answer alike |
| SafetyMonitor.ResumeSeesDeletionIffFoundExpired | workers/send/safety.py:81-127 | in every run `resume` misses an entry that a table without deletion would hold exactly when the last write to the key was a pause which a later query found expired; otherwise both agree |
| SafetyMonitor.ResumeSeesDeletion | workers/send/safety.py:81-127 | the run of one pause and one query in which it does |
| SafetyMonitor.BreachStaysPaused | workers/send/safety.py:129-147 | after a breach the key is paused at any later time, through all steps except a resume or a new pause of that key |
| SafetyMonitor.Monitor.IsPaused | workers/send/safety.py:81-88 | the entry of the key unless its end has come; then, and only then, exactly that entry is deleted |
| SafetyMonitor.Monitor.PauseSends | workers/send/safety.py:97-113 | the entry replaces any other of the key, and is audited |
| SafetyMonitor.Monitor.ResumeSends | workers/send/safety.py:115-127 | deletes and audits an entry of the key, and says whether there was one |
| SafetyMonitor.Monitor.CheckMetrics | workers/send/safety.py:129-147 | one open-ended pause and audit row for each threshold that is exceeded, in order, of which the last stands; none below the minimum of sends |
| SafetyMonitor.BreachesIff | workers/send/safety.py:50-143 | with enough sends, a breach is found exactly when bounces or complaints exceed their limit times the sends, or denials theirs times sends and denials; each at most once, bounces first and denials last |
| Chunker.SplitIntoChunks | workers/discovery/extractor.py:84-135 | the result is the split of the non-blank, non-heading paragraphs: runs of one section under its heading, cut as soon as they are full, numbered and with consecutive offsets |
| Chunker.EnterSection | workers/discovery/extractor.py:116-127 | after a heading the chunks account for all paragraphs before it, the buffer is empty and the next section has begun |
| Chunker.AddParagraph | workers/discovery/extractor.py:128-132 | after a body paragraph chunks and buffer account for it too, and the buffer is not full |
| Chunker.Flush | workers/discovery/extractor.py:93-109 | after a flush the chunks alone account for all paragraphs so far |
| Chunker.ChunkingIsUnique | workers/discovery/extractor.py:111-134 | there is at most one way to cut a body into runs within one section, each cut exactly when full or at a heading |
| Chunker.SplitIsUnique | workers/discovery/extractor.py:84-135 | so there is at most one list of chunks, with titles, texts, indices and offsets |
| Chunker.ChunksCoverBody | workers/discovery/extractor.py:111-134 | the parts of all chunks in order are exactly the body paragraphs |
| Chunker.BodyIsOfPage | workers/discovery/extractor.py:111-129 | the body is every stripped paragraph that is neither blank nor a title, in order, each under the last title before it and with the number of titles before it |
| Chunker.JoinOfConcat | workers/discovery/extractor.py:97 | joined texts stand one after the other with one blank line between any two |
| Chunker.ChunksTile | workers/discovery/extractor.py:97-108 | indices count from zero, offsets are consecutive and span the texts |
| Chunker.OffsetsMeasureBody | workers/discovery/extractor.py:93-109 | the last offset is the total length of the body paragraphs plus two for each separator inside a chunk |
| Billing.ReplaysChangeNothing | workers/fulfillment/billing.py:68-107 | deleting repeated deliveries from any mix of checkouts and webhooks leaves the same state |
| Billing.ActivationsCountEvents | workers/fulfillment/billing.py:68-101 | activations are as many as events whose first delivery completed a session that existed by then |
| Billing.EveryRunHasOnePendingPerKey | workers/fulfillment/billing.py:51-66 | no two pending sessions ever have the same idempotency key |
| Billing.OnePendingPerAccountAndPlan | workers/fulfillment/billing.py:51-66 | so no account has two pending sessions for a plan |
| Billing.AccountsCollideIffOneExtends | workers/fulfillment/billing.py:53 | two accounts can share a key, for some plans, exactly when one id is the other up to a colon |
| Billing.CheckoutsReturnOwnIffNoneExtends | workers/fulfillment/billing.py:51-66 | for any set of accounts, every checkout of every run among them returns a session of its own account and plan exactly when no id in the set is another one up to a colon |
| Billing.CheckoutKeyIsInjective | workers/fulfillment/billing.py:53 | for account ids without colons the key identifies account and plan |
| Billing.CheckoutKeysCanCollide | workers/fulfillment/billing.py:53-56 | an instance of such a pair |
| Billing.BillingService.CreateCheckout | workers/fulfillment/billing.py:51-66 | the first pending session with the key checkout:account:plan, or exactly when there is none a new one with the data given |
| Billing.BillingService.ProcessWebhook | workers/fulfillment/billing.py:68-107 | remembers the event; handled exactly when it is new, of a known kind and its session exists; a completion pays that session at this instant and adds one activation, and a subscription if one is named; an expiry expires it; otherwise nothing changes |
| Billing.LastEventSettles | workers/fulfillment/billing.py:68-105 | over any run a session is as the last first-delivered event for it left it: paid at its time, or expired with the time of an earlier payment |
| Billing.UnsettledIsPending | workers/fulfillment/billing.py:51-105 | a session for which no such event came is pending and unpaid |
| Provisioning.OneWorkspacePerAccount | workers/fulfillment/provisioning.py:42-65 | after any requests there is one workspace and one email for each account that asked, and for nobody else |
| Provisioning.FirstRequestDecides | workers/fulfillment/provisioning.py:45-60 | a workspace carries the data of the first request of its account, its uploads and proofs included |
| Provisioning.PaymentsLeadToOneWorkspace | workers/fulfillment/billing.py:51-107 | replayed webhooks and repeated provisioning together give one workspace and one email for each paying account |
| Provisioning.ProvisioningService.Provision | workers/fulfillment/provisioning.py:42-65 | creates exactly when the account has no workspace: one with the data given, and its email; otherwise the existing one, and nothing changes |
| Suppression.MakeKeyIsInjective | libs/policy/suppression.py:40-41 | two keys coincide exactly for the same scope and normalised text |
| Suppression.ValidIffCompleteAndUnlisted | workers/send/send_worker.py:59-76 | a task passes exactly when it is complete and neither its address, nor its domain, nor its account is listed |
| Suppression.ErrorsIff | workers/send/send_worker.py:59-76 | each omission is reported exactly when it is there, and a suppression exactly when the address, its domain or the account is listed, last and with the reason of the first entry found |
| Suppression.HitInOrder | libs/policy/suppression.py:53-70 | the lookup finds the entry of the email, then the domain, then the account, then the campaign |
| Suppression.LastImportCounts | libs/policy/suppression.py:80-85 | of several imported records that name one entry the last counts |
| Suppression.ImportKeepsOthers | libs/policy/suppression.py:80-85 | an import leaves the entries alone that it does not name |
| Suppression.EntryStaysUntilRemoved | libs/policy/suppression.py:43-85 | an entry of any scope stays through any steps that do not remove it by name |
| Suppression.ListedIsNeverMailed | workers/send/send_worker.py:59-76 | once an address, a domain or an account is listed, no task it concerns passes through any steps that do not remove it |
| Suppression.EverySendWasUnlisted | workers/send/send_worker.py:78-110 | in every run each logged send was made at a moment when its address, its domain and its account were not listed |
| Suppression.NothingIsLoggedWhileListed | workers/send/send_worker.py:78-125 | in every run, from when an entry is listed nothing it concerns is logged until it is removed |
| Text.DomainIsBetweenAts | workers/send/mailbox_orchestrator.py:97-98 | the domain of an address is what stands between its first at-sign and the next one or the end |
| Text.StripIsCore | libs/policy/suppression.py:41 | stripping removes blanks at both ends, all of them, and nothing else |
| Text.LowerCharTable | libs/policy/suppression.py:41 | the 26 capitals become their small letters, and every other character stays |
| Suppression.NormSharedIffVariant | libs/policy/suppression.py:40-41 | two texts share an entry exactly when one is the other stripped, in another case and padded with blanks |
| Suppression.BouncedAddressIsNeverMailed | workers/send/send_worker.py:78-125 | after a hard bounce or complaint, no variant of the address passes validation through any steps that do not remove it |
| Suppression.SuppressionService.AddEntry | libs/policy/suppression.py:43-51 | the record is stored under its scope and normalised key |
| Suppression.SuppressionService.IsSuppressed | libs/policy/suppression.py:53-70 | the entry of the email, else of the domain (given or taken from the email), else of the account, else of the campaign, where blanks are not asked for |
| Suppression.LookUp | libs/policy/suppression.py:67-70 | the first entry found under the keys, in order |
| Suppression.SuppressionService.RemoveEntry | libs/policy/suppression.py:72-78 | deletes exactly that entry, and says whether there was one |
| Suppression.SuppressionService.BulkImport | libs/policy/suppression.py:80-85 | adds all records in order and counts them |
| Suppression.SendWorker.ValidateTask | workers/send/send_worker.py:59-76 | the errors of the validation model, in order |
| Suppression.SendWorker.SendMessage | workers/send/send_worker.py:78-110 | sends and logs exactly when validation passes and the transport delivers; never to a listed recipient |
| Suppression.SendWorker.ProcessBounce | workers/send/send_worker.py:112-118 | a hard bounce lists the normalised address as such, a soft one changes nothing |
| Suppression.SendWorker.ProcessComplaint | workers/send/send_worker.py:120-125 | a complaint lists the normalised address as such |
| Retention.CountersAgreeWithLog | workers/retention/retention_agent.py:39-97 | the counter and the last time agree with the unsuppressed nudges logged, which are a week apart |
| Retention.NudgesArePaced | workers/retention/retention_agent.py:39-97 | any window of k weeks has at most k unsuppressed nudges of a workspace |
| Retention.FiveNudgesAMonthAtMost | workers/retention/retention_agent.py:39-97 | any 30 days have at most five |
| Retention.MonthlyLimitHoldsIffFourWeeks | workers/retention/retention_agent.py:36-49 | at most `max_nudges_per_month` nudges in every window no longer than w, over every run, exactly when w is at most four weeks |
| Retention.NoNudgesAfterDeactivation | workers/retention/retention_agent.py:41-42 | after a deactivation nothing more is sent, whatever follows |
| Retention.NudgeIsSentIff | workers/retention/retention_agent.py:39-105 | after any run a nudge is sent exactly when the workspace was never deactivated, its last suppression has run out, and its last nudge that was sent is at least seven days old |
| Retention.RetentionAgent.GetOrCreateState | workers/retention/retention_agent.py:67-70 | the stored record, or a new one that is stored |
| Retention.RetentionAgent.ScheduleNudge | workers/retention/retention_agent.py:72-97 | logs one nudge, suppressed exactly when the workspace is inactive, its suppression is running or its last nudge is less than seven days old; only a nudge that is sent counts and sets the time |
| Retention.RetentionAgent.SuppressWorkspace | workers/retention/retention_agent.py:99-101 | moves the end of the suppression only |
| Retention.RetentionAgent.DeactivateWorkspace | workers/retention/retention_agent.py:103-105 | clears the active flag only |

## Left out

- SafetyMonitor.LazyDeletionIsInvisible: `active_pauses` is compared as a set, because pausing a key again after its entry was deleted moves it to the end of the list.
- Chunker.SplitIntoChunks: starts from the list of paragraphs that the regular expression yields, and takes `str.isupper` as a parameter.
- Suppression.NormSharedIffVariant: lower-casing covers ASCII letters; other scripts are not part of this model.
- Outbox.OutboxTable.LockBatch: rows created at the same instant come in some order; the rechecks that Postgres makes under READ COMMITTED are not part of this model.
- Outbox.DeliveriesAreExclusiveAndBounded: counts a delivery when its claim is committed; a worker that acts on rows before the commit and then rolls back is counted by Outbox.HandedOutIsAccountedFor only.
- AccountStates.StateMachine.TransitionById: one transition at a time; ConcurrentTransitions covers the version of interleaved ones, not their states.
- LaneInterleavings.OpenPromotionsAreSafeIffTheyFit: all workers read and write one budget row; sessions that hold stale counters, and would overspend instead of raising, are not part of this model.
- LaneBudgets.SlidingHourBound: holds for runs without negative counts in `consume`, which the source does not exclude; the method itself takes any count.
- Billing.BillingService.CreateCheckout: session ids are drawn outside and assumed not to repeat, as are Stripe ids and workspace ids.
- The unique constraints on idempotency keys of outbox and audit rows.
- Fields that are only stored: currency and customer of a session, status and settings of a workspace, notes and authors of entries.
- Recovery of rows whose worker dies after its commit: the source has none.
- Two reads of the clock within one call count as one instant, except in `try_promote`, where they matter.
- Integer widths of database columns, and the rounding errors of floating-point arithmetic.
- Pausing, resuming and preflight checks of mailboxes, `any_pause_active`, and the plain getters.
- Explanation texts, rule lists, messages, payload hashes, tokens and invitation links.
- The regular-expression classifiers, page extraction, decay and fusion of signals: their results come in as parameters.
- The web front end, the routers, configuration, migrations, SQLAlchemy and Redis themselves.
- Policy engine, dashboards, model registry, shadow scoring and source health: single conjunctions and ratios that would only add easy members.
