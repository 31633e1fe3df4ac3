/**
 Moving items between Redis queues against a lane budget (services/lanes.py).  A queue is a
 Redis list with its head first: `lpush` adds at the head, `rpop` takes from the tail.
 */
module LanePromotion {
  import opened Wrappers
  import opened Instants
  import opened LaneBudgets

  // ---- two queues and one budget --------------------------------------------------------------

  /** What takes units from the budget: a promotion that moves an item, or somebody else in the lane. */
  datatype Use = Moved(at: Instant, item: string) | Spent(at: Instant, count: nat)

  /** `lost` holds what a promotion popped and could not pay for. */
  datatype State = State(budget: Budget, source: seq<string>, target: seq<string>, uses: seq<Use>, lost: seq<string>)

  datatype Step =
    | Push(item: string)
    | PushTarget(item: string)
    | Promote(checkAt: Instant, consumeAt: Instant)
    | Spend(at: Instant, count: nat)
    | Pause(at: Instant, paused: bool)

  function Take(s: State, step: Step): State {
    match step
    case Push(item) => s.(source := [item] + s.source)
    case PushTarget(item) => s.(target := [item] + s.target)
    case Pause(_, paused) => s.(budget := s.budget.(hardPause := paused))
    case Spend(t, count) =>
      s.(budget := s.budget.AfterConsume(t, count),
         uses := s.uses + (if s.budget.Refusal(t, count).None? then [Spent(t, count)] else []))
    case Promote(t1, t2) =>
      var checked := s.budget.AfterCheck(t1);
      if !s.budget.Passes(t1) || s.source == [] then s.(budget := checked)
      else
        var n := |s.source| - 1;
        var item := s.source[n];
        var popped := s.(budget := checked.AfterConsume(t2, 1), source := s.source[..n]);
        if checked.Refusal(t2, 1).Some? then popped.(lost := s.lost + [item])
        else popped.(target := [item] + s.target, uses := s.uses + [Moved(t2, item)])
  }

  function TakeAll(start: State, steps: seq<Step>): State {
    if steps == [] then start else Take(TakeAll(start, steps[..|steps| - 1]), steps[|steps| - 1])
  }

  /** The items pushed to the source queue in a run, latest first. */
  function Pushed(steps: seq<Step>): seq<string> {
    if steps == [] then []
    else (if steps[|steps| - 1].Push? then [steps[|steps| - 1].item] else []) + Pushed(steps[..|steps| - 1])
  }

  /** The items pushed to the target queue by others. */
  function PushedToTarget(steps: seq<Step>): seq<string> {
    if steps == [] then []
    else
      var n := |steps| - 1;
      (if steps[n].PushTarget? then [steps[n].item] else []) + PushedToTarget(steps[..n])
  }

  /** The items that promotions moved, latest first. */
  function MovedItems(uses: seq<Use>): seq<string> {
    if uses == [] then []
    else (if uses[|uses| - 1].Moved? then [uses[|uses| - 1].item] else []) + MovedItems(uses[..|uses| - 1])
  }

  lemma MovedItemsOfAppend(uses: seq<Use>, u: Use)
    ensures MovedItems(uses + [u]) == (if u.Moved? then [u.item] else []) + MovedItems(uses)
  {
    assert (uses + [u])[..|uses|] == uses;
  }

  lemma MovingTheLastKeepsAll(source: seq<string>, target: seq<string>)
    requires source != []
    ensures source[..|source| - 1] + ([source[|source| - 1]] + target) == source + target
  {
  }

  lemma SpendMovesNothing(s: State, t: Instant, count: nat)
    requires Counting(s.budget)
    ensures MovedItems(Take(s, Spend(t, count)).uses) == MovedItems(s.uses) && Counting(Take(s, Spend(t, count)).budget)
  {
    if s.budget.Refusal(t, count).None? {
      MovedItemsOfAppend(s.uses, Spent(t, count));
      assert [] + MovedItems(s.uses) == MovedItems(s.uses);
    } else {
      assert s.uses + [] == s.uses;
    }
  }

  /** A promotion moves at most the last item of the source to the head of the target, and loses none. */
  lemma PromoteMovesLast(s: State, t1: Instant, t2: Instant)
    requires Counting(s.budget)
    ensures var t := Take(s, Promote(t1, t2));
            && Counting(t.budget) && t.lost == s.lost
            && if !s.budget.Passes(t1) || s.source == [] then
                 t.source == s.source && t.target == s.target && t.uses == s.uses
               else
                 var n := |s.source| - 1;
                 && t.source == s.source[..n] && t.target == [s.source[n]] + s.target
                 && MovedItems(t.uses) == [s.source[n]] + MovedItems(s.uses)
  {
    if s.budget.Passes(t1) && s.source != [] {
      CheckPromisesConsume(s.budget, t1, t2);
      MovedItemsOfAppend(s.uses, Moved(t2, s.source[|s.source| - 1]));
    }
  }

  /** What is in the source queue or has left it, in order. */
  function Line(s: State): seq<string> {
    s.source + MovedItems(s.uses)
  }

  lemma StepKeepsLine(s: State, step: Step)
    requires Counting(s.budget)
    ensures var t := Take(s, step);
            && Line(t) == (if step.Push? then [step.item] else []) + Line(s)
            && t.lost == s.lost && Counting(t.budget)
  {
    match step {
      case Push(item) =>
        assert [item] + s.source + MovedItems(s.uses) == [item] + Line(s);
      case Promote(t1, t2) =>
        PromoteMovesLast(s, t1, t2);
        assert [] + Line(s) == Line(s);
        if s.source != [] {
          MovingTheLastKeepsAll(s.source, MovedItems(s.uses));
        }
      case Spend(t, count) =>
        SpendMovesNothing(s, t, count);
        assert [] + Line(s) == Line(s);
      case _ =>
        assert [] + Line(s) == Line(s);
    }
  }

  lemma StepKeepsQueues(s: State, step: Step)
    requires Counting(s.budget) && !step.PushTarget?
    ensures Take(s, step).source + Take(s, step).target ==
            (if step.Push? then [step.item] else []) + (s.source + s.target)
  {
    if step.Push? {
      assert [step.item] + s.source + s.target == [step.item] + (s.source + s.target);
    } else {
      assert [] + (s.source + s.target) == s.source + s.target;
      if step.Promote? {
        PromoteMovesLast(s, step.checkAt, step.consumeAt);
        if s.source != [] {
          MovingTheLastKeepsAll(s.source, s.target);
        }
      }
    }
  }

  /** The target queue holds what was moved there and what others pushed. */
  lemma StepKeepsTarget(s: State, step: Step)
    requires Counting(s.budget)
    ensures var t := Take(s, step);
            multiset(t.target) + multiset(MovedItems(s.uses)) ==
            multiset(s.target) + multiset(MovedItems(t.uses)) + multiset(if step.PushTarget? then [step.item] else [])
  {
    match step {
      case Promote(t1, t2) => PromoteMovesLast(s, t1, t2);
      case Spend(t, count) => SpendMovesNothing(s, t, count);
      case _ =>
    }
  }

  /**
   Conservation in order, among pushes, pauses and the spending of others: what is in the source
   queue, followed by what promotions moved, only grows at the front, by what was pushed.  So no item
   is lost, duplicated or overtaken.
   */
  lemma {:induction false} RunConservesItems(start: State, steps: seq<Step>)
    requires Counting(start.budget)
    ensures var s := TakeAll(start, steps);
            && Line(s) == Pushed(steps) + Line(start) && s.lost == start.lost && Counting(s.budget)
  {
    if steps == [] {
      assert [] + Line(start) == Line(start);
    } else {
      var n := |steps| - 1;
      RunConservesItems(start, steps[..n]);
      StepKeepsLine(TakeAll(start, steps[..n]), steps[n]);
      var first := if steps[n].Push? then [steps[n].item] else [];
      assert first + (Pushed(steps[..n]) + Line(start)) == first + Pushed(steps[..n]) + Line(start);
    }
  }

  lemma BalancesAdd(t0: multiset<string>, m0: multiset<string>, t: multiset<string>, m: multiset<string>,
                    t1: multiset<string>, m1: multiset<string>, p: multiset<string>, q: multiset<string>)
    requires t + m0 == t0 + m + p && t1 + m == t + m1 + q
    ensures t1 + m0 == t0 + m1 + (q + p)
  {
    forall x
      ensures (t1 + m0)[x] == (t0 + m1 + (q + p))[x]
    {
      assert (t + m0)[x] == (t0 + m + p)[x] && (t1 + m)[x] == (t + m1 + q)[x];
    }
  }

  /** And what was moved arrives, besides what others push to the target queue. */
  lemma {:induction false} MovedItemsArrive(start: State, steps: seq<Step>)
    requires Counting(start.budget)
    ensures var s := TakeAll(start, steps);
            multiset(s.target) + multiset(MovedItems(start.uses)) ==
            multiset(start.target) + multiset(MovedItems(s.uses)) + multiset(PushedToTarget(steps))
  {
    if steps != [] {
      var n := |steps| - 1;
      MovedItemsArrive(start, steps[..n]);
      RunConservesItems(start, steps[..n]);
      var before, after := TakeAll(start, steps[..n]), TakeAll(start, steps);
      var last := if steps[n].PushTarget? then [steps[n].item] else [];
      StepKeepsTarget(before, steps[n]);
      BalancesAdd(multiset(start.target), multiset(MovedItems(start.uses)),
                  multiset(before.target), multiset(MovedItems(before.uses)),
                  multiset(after.target), multiset(MovedItems(after.uses)),
                  multiset(PushedToTarget(steps[..n])), multiset(last));
      assert PushedToTarget(steps) == last + PushedToTarget(steps[..n]);
    }
  }

  /** When nobody else pushes to the target queue, they arrive in the order in which they were pushed. */
  lemma {:induction false} MovedItemsArriveInOrder(start: State, steps: seq<Step>)
    requires Counting(start.budget) && PushedToTarget(steps) == []
    ensures TakeAll(start, steps).source + TakeAll(start, steps).target == Pushed(steps) + (start.source + start.target)
  {
    if steps == [] {
      assert [] + (start.source + start.target) == start.source + start.target;
    } else {
      var n := |steps| - 1;
      assert !steps[n].PushTarget?;
      MovedItemsArriveInOrder(start, steps[..n]);
      RunConservesItems(start, steps[..n]);
      StepKeepsQueues(TakeAll(start, steps[..n]), steps[n]);
      var first := if steps[n].Push? then [steps[n].item] else [];
      assert first + (Pushed(steps[..n]) + (start.source + start.target))
          == first + Pushed(steps[..n]) + (start.source + start.target);
    }
  }

  // ---- what a run asks of the budget -------------------------------------------------------------

  function BudgetEvents(s: State, step: Step): seq<Event> {
    match step
    case Push(_) => []
    case PushTarget(_) => []
    case Pause(at, paused) => [Event(at, Op.SetPause(paused))]
    case Spend(at, count) => [Event(at, Consume(count))]
    case Promote(t1, t2) =>
      if s.budget.Passes(t1) && s.source != [] then [Event(t1, Check), Event(t2, Consume(1))] else [Event(t1, Check)]
  }

  function AllBudgetEvents(start: State, steps: seq<Step>): seq<Event> {
    if steps == [] then []
    else
      var n := |steps| - 1;
      AllBudgetEvents(start, steps[..n]) + BudgetEvents(TakeAll(start, steps[..n]), steps[n])
  }

  /** One unit for each item moved, and what others spent. */
  function ChargesOf(uses: seq<Use>): (log: seq<Charge>)
    ensures |log| == |uses|
  {
    seq(|uses|, i requires 0 <= i < |uses| =>
      match uses[i]
      case Moved(at, _) => Charge(at, 1)
      case Spent(at, count) => Charge(at, count))
  }

  lemma RunOfAppend(start: Budget, events: seq<Event>, e: Event)
    ensures Run(start, events + [e]) == Apply(Run(start, events), e)
    ensures Charges(start, events + [e]) == Charges(start, events) + ChargeOf(Run(start, events), e)
  {
    assert (events + [e])[..|events|] == events;
  }

  /** A promotion that moves an item checks the budget and consumes one unit. */
  lemma MoveIsBudgeted(start: Budget, events: seq<Event>, s: State, t1: Instant, t2: Instant)
    requires Counting(s.budget) && s.budget == Run(start, events) && Charges(start, events) == ChargesOf(s.uses)
    requires s.budget.Passes(t1) && s.source != []
    ensures Run(start, events + [Event(t1, Check), Event(t2, Consume(1))]) == Take(s, Promote(t1, t2)).budget
    ensures Charges(start, events + [Event(t1, Check), Event(t2, Consume(1))]) ==
            ChargesOf(Take(s, Promote(t1, t2)).uses)
  {
    CheckPromisesConsume(s.budget, t1, t2);
    CheckThenConsume(start, events, t1, t2);
    assert ChargesOf(s.uses + [Moved(t2, s.source[|s.source| - 1])]) == ChargesOf(s.uses) + [Charge(t2, 1)];
  }

  lemma ChargesOfSpend(s: State, t: Instant, count: nat)
    ensures ChargesOf(Take(s, Spend(t, count)).uses) ==
            ChargesOf(s.uses) + ChargeOf(s.budget, Event(t, Consume(count)))
  {
  }

  lemma SpendIsBudgeted(start: Budget, events: seq<Event>, s: State, t: Instant, count: nat)
    requires s.budget == Run(start, events) && Charges(start, events) == ChargesOf(s.uses)
    ensures Run(start, events + [Event(t, Consume(count))]) == Take(s, Spend(t, count)).budget
    ensures Charges(start, events + [Event(t, Consume(count))]) == ChargesOf(Take(s, Spend(t, count)).uses)
  {
    RunOfAppend(start, events, Event(t, Consume(count)));
    ChargesOfSpend(s, t, count);
  }

  /** A step that uses no units: at most one event, which charges nothing. */
  lemma IdleStepIsBudgeted(start: Budget, events: seq<Event>, e: Event, s: State, after: Budget)
    requires s.budget == Run(start, events) && Charges(start, events) == ChargesOf(s.uses)
    requires !e.op.Consume? && after == Apply(s.budget, e)
    ensures Run(start, events + [e]) == after && Charges(start, events + [e]) == ChargesOf(s.uses)
  {
    RunOfAppend(start, events, e);
    assert Charges(start, events) + [] == Charges(start, events);
  }

  lemma StepIsBudgeted(start: Budget, events: seq<Event>, s: State, step: Step)
    requires Counting(s.budget) && s.budget == Run(start, events) && Charges(start, events) == ChargesOf(s.uses)
    ensures Run(start, events + BudgetEvents(s, step)) == Take(s, step).budget
    ensures Charges(start, events + BudgetEvents(s, step)) == ChargesOf(Take(s, step).uses)
  {
    if step.Push? || step.PushTarget? {
      assert events + [] == events;
    } else if step.Pause? {
      IdleStepIsBudgeted(start, events, Event(step.at, Op.SetPause(step.paused)), s, Take(s, step).budget);
    } else if step.Spend? {
      SpendIsBudgeted(start, events, s, step.at, step.count);
    } else if s.budget.Passes(step.checkAt) && s.source != [] {
      MoveIsBudgeted(start, events, s, step.checkAt, step.consumeAt);
    } else {
      IdleStepIsBudgeted(start, events, Event(step.checkAt, Check), s, Take(s, step).budget);
    }
  }

  lemma CheckThenConsume(start: Budget, events: seq<Event>, t1: Instant, t2: Instant)
    ensures var checked := Run(start, events).AfterCheck(t1);
            && Run(start, events + [Event(t1, Check), Event(t2, Consume(1))]) == checked.AfterConsume(t2, 1)
            && Charges(start, events + [Event(t1, Check), Event(t2, Consume(1))])
               == Charges(start, events) + (if checked.Refusal(t2, 1).None? then [Charge(t2, 1)] else [])
  {
    var check, consume := Event(t1, Check), Event(t2, Consume(1));
    RunOfAppend(start, events, check);
    RunOfAppend(start, events + [check], consume);
    assert events + [check, consume] == events + [check] + [consume];
    assert Charges(start, events) + [] == Charges(start, events);
  }

  /** The budget sees exactly one unit for each item moved, at the instant it is consumed, and what others spent. */
  lemma {:induction false} UnitsConsumedAreItemsMoved(start: State, steps: seq<Step>)
    requires Counting(start.budget) && start.uses == []
    ensures TakeAll(start, steps).budget == Run(start.budget, AllBudgetEvents(start, steps))
    ensures Charges(start.budget, AllBudgetEvents(start, steps)) == ChargesOf(TakeAll(start, steps).uses)
  {
    if steps != [] {
      var n := |steps| - 1;
      UnitsConsumedAreItemsMoved(start, steps[..n]);
      RunConservesItems(start, steps[..n]);
      StepIsBudgeted(start.budget, AllBudgetEvents(start, steps[..n]), TakeAll(start, steps[..n]), steps[n]);
    }
  }

  /** Items that move in a window. */
  function MovedWithin(uses: seq<Use>, lo: Instant, hi: Instant): nat {
    if uses == [] then 0
    else
      var last := uses[|uses| - 1];
      MovedWithin(uses[..|uses| - 1], lo, hi) + (if last.Moved? && lo <= last.at < hi then 1 else 0)
  }

  /** Units that others spend in a window. */
  function SpentWithin(uses: seq<Use>, lo: Instant, hi: Instant): nat {
    if uses == [] then 0
    else
      var last := uses[|uses| - 1];
      SpentWithin(uses[..|uses| - 1], lo, hi) + (if last.Spent? && lo <= last.at < hi then last.count else 0)
  }

  lemma {:induction false} UsesAreConsumed(uses: seq<Use>, lo: Instant, hi: Instant)
    ensures MovedWithin(uses, lo, hi) + SpentWithin(uses, lo, hi) == Consumed(ChargesOf(uses), lo, hi)
  {
    if uses != [] {
      UsesAreConsumed(uses[..|uses| - 1], lo, hi);
      assert ChargesOf(uses)[..|uses| - 1] == ChargesOf(uses[..|uses| - 1]);
    }
  }

  /**
   Promotion is rate limited: with the spending of others, two hourly limits in any hour, two daily
   limits in any 24 hours.
   */
  lemma PromotionRate(start: State, steps: seq<Step>, x: Instant)
    requires Counting(start.budget) && start.uses == []
    requires Timely(start.budget, AllBudgetEvents(start, steps))
    ensures var uses := TakeAll(start, steps).uses;
            && MovedWithin(uses, x, x + HOUR) + SpentWithin(uses, x, x + HOUR) <= 2 * Cap(start.budget.hourlyLimit)
            && MovedWithin(uses, x, x + DAY) + SpentWithin(uses, x, x + DAY) <= 2 * Cap(start.budget.dailyLimit)
  {
    UnitsConsumedAreItemsMoved(start, steps);
    UsesAreConsumed(TakeAll(start, steps).uses, x, x + HOUR);
    UsesAreConsumed(TakeAll(start, steps).uses, x, x + DAY);
    SlidingHourBound(start.budget, AllBudgetEvents(start, steps), x);
    SlidingDayBound(start.budget, AllBudgetEvents(start, steps), x);
  }

  // ---- the service ---------------------------------------------------------------------------------

  /** The Redis key of a queue. */
  function QueueName(queue: string): string {
    if queue == "discovery.raw" then "queue:discovery:raw"
    else if queue == "discovery.enriched" then "queue:discovery:enriched"
    else if queue == "contact.ready" then "queue:contact:ready"
    else if queue == "contact.send" then "queue:contact:send"
    else "queue:" + queue
  }

  /** The queues of the lanes. */
  const LANE_QUEUES: set<string> := {"discovery.raw", "discovery.enriched", "contact.ready", "contact.send"}

  /** Every dot becomes a colon. */
  function Colon(queue: string): (r: string)
    ensures |r| == |queue|
    ensures forall i :: 0 <= i < |queue| ==> r[i] == if queue[i] == '.' then ':' else queue[i]
  {
    seq(|queue|, i requires 0 <= i < |queue| => if queue[i] == '.' then ':' else queue[i])
  }

  lemma DiscoveryQueueNames()
    ensures QueueName("discovery.raw") == "queue:" + Colon("discovery.raw")
    ensures QueueName("discovery.enriched") == "queue:" + Colon("discovery.enriched")
  {
    assert "queue:discovery:raw" == "queue:" + Colon("discovery.raw");
    assert "queue:discovery:enriched" == "queue:" + Colon("discovery.enriched");
  }

  lemma ContactQueueNames()
    ensures QueueName("contact.ready") == "queue:" + Colon("contact.ready")
    ensures QueueName("contact.send") == "queue:" + Colon("contact.send")
  {
    assert "queue:contact:ready" == "queue:" + Colon("contact.ready");
    assert "queue:contact:send" == "queue:" + Colon("contact.send");
  }

  /** A queue of the lanes goes by its name with a colon for the dot, any other by its own name. */
  lemma QueueNameIs(queue: string)
    ensures QueueName(queue) == "queue:" + if queue in LANE_QUEUES then Colon(queue) else queue
  {
    DiscoveryQueueNames();
    ContactQueueNames();
  }

  lemma LaneQueuesHaveOneDot(queue: string)
    requires queue in LANE_QUEUES
    ensures exists i :: 0 <= i < |queue| && queue[i] == '.' && ':' !in queue
  {
    assert "discovery.raw"[9] == '.' && "discovery.enriched"[9] == '.';
    assert "contact.ready"[7] == '.' && "contact.send"[7] == '.';
  }

  lemma ColonIsInjective(a: string, b: string)
    requires ':' !in a && ':' !in b && Colon(a) == Colon(b)
    ensures a == b
  {
    assert |a| == |Colon(a)| == |Colon(b)| == |b|;
    forall i | 0 <= i < |a|
      ensures a[i] == b[i]
    {
      assert Colon(a)[i] == Colon(b)[i];
    }
  }

  /** Two names share a list exactly when one is a queue of the lanes and the other its name with a colon. */
  lemma QueuesShareListIff(a: string, b: string)
    requires a != b
    ensures QueueName(a) == QueueName(b) <==>
            (a in LANE_QUEUES && b == Colon(a)) || (b in LANE_QUEUES && a == Colon(b))
  {
    QueueNameIs(a);
    QueueNameIs(b);
    assert QueueName(a)[6..] == if a in LANE_QUEUES then Colon(a) else a;
    assert QueueName(b)[6..] == if b in LANE_QUEUES then Colon(b) else b;
    if a in LANE_QUEUES {
      LaneQueuesHaveOneDot(a);
    }
    if b in LANE_QUEUES {
      LaneQueuesHaveOneDot(b);
    }
    if a in LANE_QUEUES && b in LANE_QUEUES && Colon(a) == Colon(b) {
      ColonIsInjective(a, b);
    }
  }

  /** Different queues of the lanes are different lists. */
  lemma LaneQueuesAreDifferentLists(a: string, b: string)
    ensures a in LANE_QUEUES && b in LANE_QUEUES && a != b ==> QueueName(a) != QueueName(b)
  {
    if a in LANE_QUEUES && b in LANE_QUEUES && a != b {
      QueuesShareListIff(a, b);
      LaneQueuesHaveOneDot(a);
      LaneQueuesHaveOneDot(b);
    }
  }

  /** The last item moves to the front. */
  function Rotated(q: seq<string>): seq<string> {
    if q == [] then q else [q[|q| - 1]] + q[..|q| - 1]
  }

  lemma RotatedKeepsItems(q: seq<string>)
    ensures multiset(Rotated(q)) == multiset(q)
  {
    if q != [] {
      assert q == q[..|q| - 1] + [q[|q| - 1]];
    }
  }

  /** The item at the tail of the source is now at the head of the target; otherwise both are as they were. */
  ghost predicate Promoted(source: seq<string>, source': seq<string>, target: seq<string>, target': seq<string>,
                           moved: bool) {
    if moved then source != [] && source == source' + [source[|source| - 1]]
                  && target' == [source[|source| - 1]] + target
    else source' == source && target' == target
  }

  /** A promotion moves the tail of the source to the head of the target, or touches neither. */
  lemma PromoteMovesTail(s: State, t1: Instant, t2: Instant)
    requires Counting(s.budget)
    ensures var t := Take(s, Promote(t1, t2));
            Promoted(s.source, t.source, s.target, t.target, |t.uses| == |s.uses| + 1)
  {
    if s.budget.Passes(t1) && s.source != [] {
      CheckPromisesConsume(s.budget, t1, t2);
      var n := |s.source| - 1;
      assert s.source == s.source[..n] + [s.source[n]];
    }
  }

  type BudgetKey = (string, string)

  class LaneBudgetService {
    var budgets: map<BudgetKey, Budget>
    var queues: map<string, seq<string>>

    ghost predicate Valid()
      reads this
    {
      forall k :: k in budgets ==> Counting(budgets[k])
    }

    constructor ()
      ensures Valid() && budgets == map[] && queues == map[]
    {
      budgets, queues := map[], map[];
    }

    /** `get_or_create_budget`: the row, or one with the column defaults. */
    function Row(k: BudgetKey, now: Instant): Budget
      reads this
    {
      if k in budgets then budgets[k] else Budget(10000, 1000, 0, 0, now, now, false)
    }

    /** A Redis list that does not exist is empty. */
    function Queue(key: string): seq<string>
      reads this
    {
      if key in queues then queues[key] else []
    }

    method CheckBudget(now: Instant, lane: string, scope: string) returns (ok: bool)
      requires Valid()
      modifies this`budgets
      ensures Valid()
      ensures (lane, scope) !in old(budgets) ==>
                ok && Row((lane, scope), now) == Budget(10000, 1000, 0, 0, now, now, false)
      ensures ok == old(Row((lane, scope), now)).Passes(now)
      ensures budgets == old(budgets)[(lane, scope) := old(Row((lane, scope), now)).AfterCheck(now)]
    {
      var budget := Row((lane, scope), now);
      budgets := budgets[(lane, scope) := budget];
      if budget.hardPause {
        return false;
      }
      budget := budget.Reset(now);
      budgets := budgets[(lane, scope) := budget];
      if budget.usedToday >= budget.dailyLimit {
        return false;
      }
      if budget.usedThisHour >= budget.hourlyLimit {
        return false;
      }
      return true;
    }

    /** Only counts below zero can push the counters below zero. */
    method ConsumeUnits(now: Instant, lane: string, scope: string, count: int) returns (raised: Option<Kind>)
      modifies this`budgets
      ensures old(Valid()) && count >= 0 ==> Valid()
      ensures raised == old(Row((lane, scope), now)).Refusal(now, count)
      ensures budgets == old(budgets)[(lane, scope) := old(Row((lane, scope), now)).AfterConsume(now, count)]
    {
      var budget := Row((lane, scope), now);
      budgets := budgets[(lane, scope) := budget];
      if budget.hardPause {
        return Some(PausedKind);
      }
      budget := budget.Reset(now);
      budgets := budgets[(lane, scope) := budget];
      if budget.usedToday + count > budget.dailyLimit {
        return Some(DailyKind);
      }
      if budget.usedThisHour + count > budget.hourlyLimit {
        return Some(HourlyKind);
      }
      budget := budget.(usedToday := budget.usedToday + count, usedThisHour := budget.usedThisHour + count);
      budgets := budgets[(lane, scope) := budget];
      return None;
    }

    method PauseLane(now: Instant, lane: string, scope: string, paused: bool)
      requires Valid()
      modifies this`budgets
      ensures Valid()
      ensures budgets == old(budgets)[(lane, scope) :=
              Apply(old(Row((lane, scope), now)), Event(now, SetPause(paused)))]
    {
      var budget := Row((lane, scope), now);
      budgets := budgets[(lane, scope) := budget.(hardPause := paused)];
    }

    method Enqueue(queue: string, payload: string)
      modifies this`queues
      ensures queues == old(queues)[QueueName(queue) := [payload] + old(Queue(QueueName(queue)))]
      ensures queue in LANE_QUEUES ==> Queue("queue:" + Colon(queue)) == [payload] + old(Queue("queue:" + Colon(queue)))
      ensures queue !in LANE_QUEUES ==> Queue("queue:" + queue) == [payload] + old(Queue("queue:" + queue))
    {
      QueueNameIs(queue);
      var key := QueueName(queue);
      queues := queues[key := [payload] + Queue(key)];
    }

    /** `rpop`: the item at the tail, if there is one. */
    method PopItem(key: string) returns (item: Option<string>)
      modifies this`queues
      ensures old(Queue(key)) == [] ==> item == None && queues == old(queues)
      ensures old(Queue(key)) != [] ==>
                var n := |old(Queue(key))| - 1;
                item == Some(old(Queue(key))[n]) && queues == old(queues)[key := old(Queue(key))[..n]]
    {
      var q := Queue(key);
      if |q| == 0 {
        return None;
      }
      queues := queues[key := q[..|q| - 1]];
      return Some(q[|q| - 1]);
    }

    /** The end of `try_promote`: one unit for the item, which is pushed unless `consume` raises. */
    method PayAndEnqueue(now: Instant, lane: string, scope: string, queue: string, item: string)
      returns (raised: Option<Kind>)
      modifies this
      ensures old(Valid()) ==> Valid()
      ensures raised == old(Row((lane, scope), now)).Refusal(now, 1)
      ensures budgets == old(budgets)[(lane, scope) := old(Row((lane, scope), now)).AfterConsume(now, 1)]
      ensures queues == if raised.Some? then old(queues)
                        else old(queues)[QueueName(queue) := [item] + old(Queue(QueueName(queue)))]
    {
      raised := ConsumeUnits(now, lane, scope, 1);
      if raised.None? {
        Enqueue(queue, item);
      }
    }

    /**
     `try_promote`, with the instants at which its check and its consumption read the clock.  It
     never raises, and between two different Redis lists it is one Promote step of the run above.
     */
    method TryPromote(fromQueue: string, toQueue: string, lane: string, scope: string, t1: Instant, t2: Instant)
      returns (result: Result<bool, Kind>)
      requires Valid()
      modifies this
      ensures Valid() && result.Ok?
      ensures var from, to := QueueName(fromQueue), QueueName(toQueue);
              var k := (lane, scope);
              var before := State(old(Row(k, t1)), old(Queue(from)), old(Queue(to)), [], []);
              from != to ==>
                var after := Take(before, Promote(t1, t2));
                && k in budgets && budgets[k] == after.budget
                && Queue(from) == after.source && Queue(to) == after.target
                && (result.value <==> |after.uses| == 1)
      ensures result.value <==> old(Row((lane, scope), t1)).Passes(t1) && old(Queue(QueueName(fromQueue))) != []
      ensures var k, before := (lane, scope), old(Row((lane, scope), t1));
              && k in budgets
              && budgets[k] == if result.value then before.AfterCheck(t1).AfterConsume(t2, 1) else before.AfterCheck(t1)
      ensures forall other :: other != QueueName(fromQueue) && other != QueueName(toQueue) ==>
                                Queue(other) == old(Queue(other))
      // Between two queues of the lanes the oldest item of the one becomes the newest of the other.
      ensures fromQueue in LANE_QUEUES && toQueue in LANE_QUEUES && fromQueue != toQueue ==>
                Promoted(old(Queue(QueueName(fromQueue))), Queue(QueueName(fromQueue)),
                         old(Queue(QueueName(toQueue))), Queue(QueueName(toQueue)), result.value)
      // Between two names of one list the items only turn round.
      ensures QueueName(fromQueue) == QueueName(toQueue) ==>
                Queue(QueueName(toQueue)) == (if result.value then Rotated(old(Queue(QueueName(toQueue))))
                    else old(Queue(QueueName(toQueue))))
      ensures forall other :: other != (lane, scope) && other in old(budgets) ==>
                                other in budgets && budgets[other] == old(budgets[other])
    {
      LaneQueuesAreDifferentLists(fromQueue, toQueue);
      PromoteMovesTail(
        State(Row((lane, scope), t1), Queue(QueueName(fromQueue)), Queue(QueueName(toQueue)), [], []), t1, t2);
      var ok := CheckBudget(t1, lane, scope);
      if !ok {
        return Ok(false);
      }
      var popped := PopItem(QueueName(fromQueue));
      var item;
      match popped {
        case None => return Ok(false);
        case Some(i) => item := i;
      }
      CheckPromisesConsume(old(Row((lane, scope), t1)), t1, t2);
      var raised := PayAndEnqueue(t2, lane, scope, toQueue, item);
      match raised {
        case Some(kind) => return Err(kind);
        case None => return Ok(true);
      }
    }
  }
}
