/**
 Promotions of several workers at once (services/lanes.py).  `try_promote` checks, pops, consumes
 and pushes without any lock, so the steps of different workers interleave.  All of them read and
 write one budget row: what one worker has flushed, the next one sees.
 */
module LaneInterleavings {
  import opened Instants
  import opened LaneBudgets
  import LanePromotion

  type Worker = string

  /** Workers whose check passed, workers that hold the item they popped, and the items lost so far. */
  datatype State = State(
    budget: Budget,
    source: seq<string>,
    target: seq<string>,
    lost: seq<string>,
    checked: set<Worker>,
    held: map<Worker, string>
  )

  /** The first three are the parts of a promotion; the others come from outside. */
  datatype Step =
    | CheckStep(at: Instant, w: Worker)
    | PopStep(at: Instant, w: Worker)
    | ConsumeStep(at: Instant, w: Worker)
    | SpendStep(at: Instant, count: nat)
    | PauseStep(at: Instant, paused: bool)

  /** One step; a worker that is not ready for its step does nothing. */
  function Take(s: State, step: Step): State {
    match step
    case CheckStep(t, w) =>
      if w in s.checked || w in s.held then s
      else s.(budget := s.budget.AfterCheck(t), checked := if s.budget.Passes(t) then s.checked + {w} else s.checked)
    case PopStep(_, w) =>
      if w !in s.checked then s
      else if s.source == [] then s.(checked := s.checked - {w})
      else
        var n := |s.source| - 1;
        s.(checked := s.checked - {w}, source := s.source[..n], held := s.held[w := s.source[n]])
    case ConsumeStep(t, w) =>
      if w !in s.held then s
      else
        var after := s.(budget := s.budget.AfterConsume(t, 1), held := s.held - {w});
        if s.budget.Refusal(t, 1).Some? then after.(lost := s.lost + [s.held[w]])
        else after.(target := [s.held[w]] + s.target)
    case SpendStep(t, count) => s.(budget := s.budget.AfterConsume(t, count))
    case PauseStep(_, paused) => s.(budget := s.budget.(hardPause := paused))
  }

  function RunFrom(s: State, steps: seq<Step>): State
    decreases |steps|
  {
    if steps == [] then s else RunFrom(Take(s, steps[0]), steps[1..])
  }

  lemma {:induction false} RunFromAppend(s: State, steps: seq<Step>, more: seq<Step>)
    ensures RunFrom(s, steps + more) == RunFrom(RunFrom(s, steps), more)
    decreases |steps|
  {
    if steps == [] {
      assert steps + more == more;
    } else {
      RunFromAppend(Take(s, steps[0]), steps[1..], more);
      assert (steps + more)[1..] == steps[1..] + more;
    }
  }

  // ---- a promotion on its own ---------------------------------------------------------------------

  /** Without anybody else in between, the three steps are one sequential promotion. */
  lemma PromoteIsThreeSteps(s: State, w: Worker, t1: Instant, t: Instant, t2: Instant)
    requires w !in s.checked && w !in s.held
    ensures var before := LanePromotion.State(s.budget, s.source, s.target, [], s.lost);
            var after := LanePromotion.Take(before, LanePromotion.Promote(t1, t2));
            var end := Take(Take(Take(s, CheckStep(t1, w)), PopStep(t, w)), ConsumeStep(t2, w));
            && end.budget == after.budget && end.source == after.source && end.target == after.target
            && end.lost == after.lost && w !in end.checked && w !in end.held
  {
  }

  // ---- how many open promotions the room carries ----------------------------------------------------

  /** What both counters leave at an instant. */
  function Room(b: Budget, t: Instant): int {
    var day, hour := b.dailyLimit - b.Reset(t).usedToday, b.hourlyLimit - b.Reset(t).usedThisHour;
    if day <= hour then day else hour
  }

  /** How many units can still be consumed at an instant, one by one. */
  function Headroom(b: Budget, t: Instant): nat {
    if b.hardPause || Room(b, t) < 0 then 0 else Room(b, t)
  }

  function Min(x: nat, y: nat): nat {
    if x <= y then x else y
  }

  /** The promotions that hold an item, or have checked and can still pop one. */
  function Open(s: State): nat {
    |s.held| + Min(|s.checked|, |s.source|)
  }

  /** The promotions that can come to hold an item, when new ones may start or not. */
  function Exposed(s: State, starts: bool): nat {
    if starts then |s.held| + |s.source| else Open(s)
  }

  lemma RoomNeverShrinks(b: Budget, t: Instant, later: Instant)
    requires Counting(b) && t <= later
    ensures Room(b, t) <= Room(b, later) && Headroom(b, t) <= Headroom(b, later)
  {
    assert Date(t) <= Date(later);
  }

  lemma ConsumeTakesOne(b: Budget, t: Instant)
    ensures b.Refusal(t, 1).None? <==> Headroom(b, t) > 0
    ensures Headroom(b.AfterConsume(t, 1), t) == (if Headroom(b, t) > 0 then Headroom(b, t) - 1 else 0)
    ensures Counting(b) ==> Counting(b.AfterConsume(t, 1))
  {
  }

  lemma SpendTakesAll(b: Budget, t: Instant)
    ensures Headroom(b.AfterConsume(t, Headroom(b, t)), t) == 0
  {
  }

  /**
   What may happen besides the steps of promotions that have begun: new promotions start, others
   spend units, or somebody pauses or resumes the lane.
   */
  datatype Traffic = Traffic(starts: bool, spends: bool, pauses: bool) {
    predicate Allows(step: Step) {
      || step.PopStep? || step.ConsumeStep?
      || (starts && step.CheckStep?) || (spends && step.SpendStep?) || (pauses && step.PauseStep?)
    }

    /** Nobody but promotions touches the budget. */
    predicate IsCalm() {
      !spends && !pauses
    }
  }

  const ONLY_PROMOTIONS := Traffic(true, false, false)

  /** Steps of the open promotions among such traffic, with a clock that never runs backwards from `t`. */
  ghost predicate Continues(t: Instant, steps: seq<Step>, traffic: Traffic)
    decreases |steps|
  {
    steps != [] ==>
      t <= steps[0].at && traffic.Allows(steps[0]) && Continues(steps[0].at, steps[1..], traffic)
  }

  ghost predicate LosesNothing(s: State, steps: seq<Step>) {
    RunFrom(s, steps).lost == s.lost
  }

  lemma CheckKeepsHeadroom(s: State, w: Worker, t: Instant)
    ensures var after := Take(s, CheckStep(t, w));
            && Headroom(after.budget, t) == Headroom(s.budget, t) && (Counting(s.budget) ==> Counting(after.budget))
            && after.held == s.held && after.source == s.source && after.lost == s.lost
            && (s.checked !! s.held.Keys ==> after.checked !! after.held.Keys)
    ensures s.budget.Passes(t) ==>
              && Take(s, CheckStep(t, w)).budget.Passes(t)
              && (w !in s.held ==> Take(s, CheckStep(t, w)).checked == s.checked + {w})
  {
  }

  lemma PopKeepsOpen(s: State, w: Worker, t: Instant)
    requires s.checked !! s.held.Keys
    ensures var after := Take(s, PopStep(t, w));
            && Open(after) == Open(s) && |after.held| + |after.source| == |s.held| + |s.source|
            && after.checked !! after.held.Keys && after.budget == s.budget && after.lost == s.lost
    ensures w in s.checked ==> |Take(s, PopStep(t, w)).checked| == |s.checked| - 1
  {
    if w in s.checked && s.source != [] {
      var held := s.held[w := s.source[|s.source| - 1]];
      assert held.Keys == s.held.Keys + {w};
    }
  }

  lemma ConsumeClosesOne(s: State, w: Worker, t: Instant)
    requires s.checked !! s.held.Keys && w in s.held
    ensures var after := Take(s, ConsumeStep(t, w));
            && |after.held| == |s.held| - 1 && after.source == s.source && Open(after) == Open(s) - 1
            && after.checked !! after.held.Keys
            && |after.lost| == |s.lost| + (if Headroom(s.budget, t) > 0 then 0 else 1)
            && (Headroom(s.budget, t) > 0 ==> after.lost == s.lost)
  {
    assert (s.held - {w}).Keys == s.held.Keys - {w};
    ConsumeTakesOne(s.budget, t);
  }

  /** Promotions that fit the room all succeed, as long as nobody else touches the budget. */
  lemma {:induction false} FittingPromotionsLoseNothing(s: State, t: Instant, steps: seq<Step>, traffic: Traffic)
    requires Counting(s.budget) && s.checked !! s.held.Keys && traffic.IsCalm()
    requires Exposed(s, traffic.starts) <= Headroom(s.budget, t) && Continues(t, steps, traffic)
    ensures LosesNothing(s, steps)
    decreases |steps|
  {
    if steps != [] {
      var step, after := steps[0], Take(s, steps[0]);
      RoomNeverShrinks(s.budget, t, step.at);
      if step.CheckStep? {
        CheckKeepsHeadroom(s, step.w, step.at);
      } else if step.PopStep? {
        PopKeepsOpen(s, step.w, step.at);
      } else if step.w in s.held {
        ConsumeClosesOne(s, step.w, step.at);
        ConsumeTakesOne(s.budget, step.at);
      }
      FittingPromotionsLoseNothing(after, step.at, steps[1..], traffic);
    }
  }

  /** When no promotion can come to hold an item, nothing can be lost. */
  lemma {:induction false} ClosedPromotionsLoseNothing(s: State, t: Instant, steps: seq<Step>, traffic: Traffic)
    requires s.checked !! s.held.Keys && Exposed(s, traffic.starts) == 0 && Continues(t, steps, traffic)
    ensures LosesNothing(s, steps)
    decreases |steps|
  {
    if steps != [] {
      assert s.held.Keys == {};
      if steps[0].CheckStep? {
        CheckKeepsHeadroom(s, steps[0].w, steps[0].at);
      } else if steps[0].PopStep? {
        PopKeepsOpen(s, steps[0].w, steps[0].at);
      }
      ClosedPromotionsLoseNothing(Take(s, steps[0]), steps[0].at, steps[1..], traffic);
    }
  }

  /** There is always another worker. */
  lemma {:induction false} OtherWorker(busy: set<Worker>) returns (w: Worker)
    ensures forall x :: x in busy ==> |x| < |w|
    decreases |busy|
  {
    w := "w";
    if busy != {} {
      var x :| x in busy;
      var v := OtherWorker(busy - {x});
      w := v + x + "w";
      assert forall y :: y in busy ==> y == x || y in busy - {x};
    }
  }

  /** As many workers check as there are items. */
  lemma {:induction false} StartForAll(s: State, t: Instant) returns (steps: seq<Step>)
    requires s.checked !! s.held.Keys && s.budget.Passes(t)
    ensures forall k :: 0 <= k < |steps| ==> steps[k].at == t && steps[k].CheckStep?
    ensures var after := RunFrom(s, steps);
            && Open(after) == Exposed(s, true) && after.checked !! after.held.Keys
            && Headroom(after.budget, t) == Headroom(s.budget, t) && after.lost == s.lost
    decreases if |s.checked| < |s.source| then |s.source| - |s.checked| else 0
  {
    steps := [];
    if |s.checked| < |s.source| {
      var w := OtherWorker(s.checked + s.held.Keys);
      assert w !in s.checked && w !in s.held;
      CheckKeepsHeadroom(s, w, t);
      var rest := StartForAll(Take(s, CheckStep(t, w)), t);
      steps := [CheckStep(t, w)] + rest;
      assert steps[1..] == rest;
    }
  }

  /** All workers that have checked pop, at once. */
  lemma {:induction false} PopAll(s: State, t: Instant) returns (steps: seq<Step>)
    requires s.checked !! s.held.Keys
    ensures forall k :: 0 <= k < |steps| ==> steps[k].at == t && steps[k].PopStep?
    ensures var after := RunFrom(s, steps);
            && |after.held| == Open(s) && after.checked == {}
            && after.budget == s.budget && after.lost == s.lost
    decreases |s.checked|
  {
    steps := [];
    if s.checked != {} {
      var w :| w in s.checked;
      PopKeepsOpen(s, w, t);
      var rest := PopAll(Take(s, PopStep(t, w)), t);
      steps := [PopStep(t, w)] + rest;
      assert steps[1..] == rest;
    }
  }

  /** More items in hand than room: consuming one after the other loses one of them. */
  lemma {:induction false} ConsumeUntilLost(s: State, t: Instant) returns (steps: seq<Step>)
    requires s.checked == {} && |s.held| > Headroom(s.budget, t)
    ensures forall k :: 0 <= k < |steps| ==> steps[k].at == t && steps[k].ConsumeStep?
    ensures |RunFrom(s, steps).lost| > |s.lost|
    decreases |s.held|
  {
    var w :| w in s.held;
    var after := Take(s, ConsumeStep(t, w));
    ConsumeClosesOne(s, w, t);
    ConsumeTakesOne(s.budget, t);
    var rest := [];
    if Headroom(s.budget, t) > 0 {
      rest := ConsumeUntilLost(after, t);
    }
    steps := [ConsumeStep(t, w)] + rest;
    assert steps[1..] == rest;
  }

  lemma {:induction false} AtOnceContinues(t: Instant, steps: seq<Step>, traffic: Traffic)
    requires forall k :: 0 <= k < |steps| ==> steps[k].at == t && traffic.Allows(steps[k])
    ensures Continues(t, steps, traffic)
    decreases |steps|
  {
    if steps != [] {
      AtOnceContinues(t, steps[1..], traffic);
    }
  }

  lemma ExcessCanBeLost(s: State, t: Instant, traffic: Traffic) returns (steps: seq<Step>)
    requires s.checked !! s.held.Keys && Open(s) > Headroom(s.budget, t)
    ensures forall k :: 0 <= k < |steps| ==> steps[k].at == t && traffic.Allows(steps[k])
    ensures |RunFrom(s, steps).lost| > |s.lost|
  {
    var pops := PopAll(s, t);
    var consumes := ConsumeUntilLost(RunFrom(s, pops), t);
    steps := pops + consumes;
    RunFromAppend(s, pops, consumes);
  }

  lemma TrafficCanLoseAny(s: State, t: Instant, traffic: Traffic) returns (steps: seq<Step>)
    requires s.checked !! s.held.Keys && Open(s) > 0 && !traffic.IsCalm()
    ensures forall k :: 0 <= k < |steps| ==> steps[k].at == t && traffic.Allows(steps[k])
    ensures |RunFrom(s, steps).lost| > |s.lost|
  {
    var first := if traffic.pauses then PauseStep(t, true) else SpendStep(t, Headroom(s.budget, t));
    SpendTakesAll(s.budget, t);
    var rest := ExcessCanBeLost(Take(s, first), t, traffic);
    steps := [first] + rest;
    assert steps[1..] == rest;
  }

  /** How many items the promotions may come to hold without a risk. */
  function Carried(b: Budget, t: Instant, traffic: Traffic): nat {
    if traffic.IsCalm() then Headroom(b, t) else 0
  }

  lemma UnfittingPromotionsCanLose(s: State, t: Instant, traffic: Traffic) returns (steps: seq<Step>)
    requires s.checked !! s.held.Keys && (traffic.starts ==> s.budget.Passes(t))
    requires Exposed(s, traffic.starts) > Carried(s.budget, t, traffic)
    ensures Continues(t, steps, traffic) && !LosesNothing(s, steps)
  {
    var starts := [];
    if traffic.starts {
      starts := StartForAll(s, t);
    }
    var open, rest := RunFrom(s, starts), [];
    if traffic.IsCalm() {
      rest := ExcessCanBeLost(open, t, traffic);
    } else {
      rest := TrafficCanLoseAny(open, t, traffic);
    }
    steps := starts + rest;
    RunFromAppend(s, starts, rest);
    AtOnceContinues(t, steps, traffic);
  }

  /**
   From `t` on no item is lost, in whatever order and at whatever times promotions go on, exactly when
   the room carries every item they can come to hold; once others may spend units or pause the lane in
   between, exactly when they can hold none.
   */
  lemma OpenPromotionsAreSafeIffTheyFit(s: State, t: Instant, traffic: Traffic)
    requires Counting(s.budget) && s.checked !! s.held.Keys && (traffic.starts ==> s.budget.Passes(t))
    ensures (forall steps :: Continues(t, steps, traffic) ==> LosesNothing(s, steps)) <==>
            Exposed(s, traffic.starts) <= Carried(s.budget, t, traffic)
  {
    if Exposed(s, traffic.starts) > Carried(s.budget, t, traffic) {
      var steps := UnfittingPromotionsCanLose(s, t, traffic);
    } else {
      forall steps | Continues(t, steps, traffic)
        ensures LosesNothing(s, steps)
      {
        if traffic.IsCalm() {
          FittingPromotionsLoseNothing(s, t, steps, traffic);
        } else {
          ClosedPromotionsLoseNothing(s, t, steps, traffic);
        }
      }
    }
  }

  /**
   Before any promotion has begun: whichever workers promote, however often and however their steps
   interleave, no item is lost exactly when the queue is no longer than the room.
   */
  lemma PromotingIsSafeIffQueueFits(s: State, t: Instant)
    requires s.checked == {} && s.held == map[] && Counting(s.budget) && s.budget.Passes(t)
    ensures (forall steps :: Continues(t, steps, ONLY_PROMOTIONS) ==> LosesNothing(s, steps)) <==>
            |s.source| <= Headroom(s.budget, t)
  {
    OpenPromotionsAreSafeIffTheyFit(s, t, ONLY_PROMOTIONS);
  }

  // ---- from passed checks to lost items -----------------------------------------------------------------

  function Members(ws: seq<Worker>): set<Worker> {
    if ws == [] then {} else {ws[0]} + Members(ws[1..])
  }

  ghost predicate Distinct(ws: seq<Worker>) {
    ws != [] ==> ws[0] !in Members(ws[1..]) && Distinct(ws[1..])
  }

  function Checks(ws: seq<Worker>, t: Instant): seq<Step> {
    if ws == [] then [] else [CheckStep(t, ws[0])] + Checks(ws[1..], t)
  }

  function Pops(ws: seq<Worker>, t: Instant): seq<Step> {
    if ws == [] then [] else [PopStep(t, ws[0])] + Pops(ws[1..], t)
  }

  function Consumes(ws: seq<Worker>, t: Instant): seq<Step> {
    if ws == [] then [] else [ConsumeStep(t, ws[0])] + Consumes(ws[1..], t)
  }

  /** No check counts for the next one: all of them pass. */
  lemma {:induction false} ChecksPass(s: State, ws: seq<Worker>, t: Instant)
    requires s.budget.Passes(t) && Distinct(ws) && Members(ws) !! s.checked + s.held.Keys
    ensures var after := RunFrom(s, Checks(ws, t));
            && after.checked == s.checked + Members(ws) && Headroom(after.budget, t) == Headroom(s.budget, t)
            && after.held == s.held && after.source == s.source && after.lost == s.lost
    decreases |ws|
  {
    if ws != [] {
      var after := Take(s, CheckStep(t, ws[0]));
      assert Checks(ws, t)[1..] == Checks(ws[1..], t);
      ChecksPass(after, ws[1..], t);
    }
  }

  lemma {:induction false} PopsTake(s: State, ws: seq<Worker>, t: Instant)
    requires Distinct(ws) && Members(ws) <= s.checked && |ws| <= |s.source|
    ensures var after := RunFrom(s, Pops(ws, t));
            && after.held.Keys == s.held.Keys + Members(ws) && after.budget == s.budget && after.lost == s.lost
    decreases |ws|
  {
    if ws != [] {
      assert Pops(ws, t)[1..] == Pops(ws[1..], t);
      PopsTake(Take(s, PopStep(t, ws[0])), ws[1..], t);
    }
  }

  lemma {:induction false} ConsumesLose(s: State, ws: seq<Worker>, t: Instant)
    requires Distinct(ws) && Members(ws) <= s.held.Keys
    ensures |RunFrom(s, Consumes(ws, t)).lost| ==
            |s.lost| + (if |ws| <= Headroom(s.budget, t) then 0 else |ws| - Headroom(s.budget, t))
    decreases |ws|
  {
    if ws != [] {
      assert Consumes(ws, t)[1..] == Consumes(ws[1..], t);
      ConsumeTakesOne(s.budget, t);
      ConsumesLose(Take(s, ConsumeStep(t, ws[0])), ws[1..], t);
    }
  }

  /** Workers that all check and pop before any of them consumes lose exactly the items beyond the room. */
  lemma OverlappingPromotionsLoseTheExcess(s: State, ws: seq<Worker>, t: Instant)
    requires s.checked == {} && s.held == map[] && s.budget.Passes(t) && Distinct(ws) && |ws| <= |s.source|
    ensures |RunFrom(s, Checks(ws, t) + (Pops(ws, t) + Consumes(ws, t))).lost| ==
            |s.lost| + (if |ws| <= Headroom(s.budget, t) then 0 else |ws| - Headroom(s.budget, t))
  {
    ChecksPass(s, ws, t);
    var checked := RunFrom(s, Checks(ws, t));
    PopsTake(checked, ws, t);
    var popped := RunFrom(checked, Pops(ws, t));
    ConsumesLose(popped, ws, t);
    RunFromAppend(s, Checks(ws, t), Pops(ws, t) + Consumes(ws, t));
    RunFromAppend(checked, Pops(ws, t), Consumes(ws, t));
  }
}
