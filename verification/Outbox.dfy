/**
 The outbox table and the workers that claim, complete and fail its rows (services/outbox.py).
 A claim is two steps: SELECT ... FOR UPDATE SKIP LOCKED locks a batch inside a transaction, and
 the commit makes it visible.  Steps of different workers interleave in any order.
 */
module Outbox {
  import opened Wrappers
  import opened Instants
  import opened Sorting

  type Worker = string

  datatype Status = Pending | Claimed | Completed | Dead

  /** What is published; the key is the caller's, or drawn at random. */
  datatype Event = Event(eventType: string, payload: string, key: string)

  datatype Row = Row(
    event: Event,
    createdAt: Instant,
    status: Status,
    claimedBy: Option<Worker>,
    claimedAt: Option<Instant>,
    completedAt: Option<Instant>,
    attempts: int,
    maxAttempts: int,
    lastError: Option<string>
  ) {
    /** The body of the loop in `claim_batch`. */
    function Claim(w: Worker, now: Instant): Row {
      this.(status := Claimed, claimedBy := Some(w), claimedAt := Some(now), attempts := attempts + 1)
    }

    /** `complete` checks neither the holder nor the status. */
    function Complete(now: Instant): Row {
      this.(status := Completed, completedAt := Some(now))
    }

    /** `fail` checks neither the holder nor the status. */
    function Fail(error: string): Row {
      var r := this.(lastError := Some(error));
      if attempts >= maxAttempts then r.(status := Dead)
      else r.(status := Pending, claimedBy := None, claimedAt := None)
    }

    predicate Finished() {
      status == Completed || status == Dead
    }

    predicate HeldBy(w: Worker) {
      status == Claimed && claimedBy == Some(w)
    }

    /** How often the row may be delivered: a limit below one still lets the first delivery through. */
    function Limit(): int {
      if maxAttempts < 1 then 1 else maxAttempts
    }
  }

  function NewRow(event: Event, createdAt: Instant, maxAttempts: int): Row {
    Row(event, createdAt, Pending, None, None, None, 0, maxAttempts, None)
  }

  /** The rows that a transaction has claimed but not committed, and when it claimed them. */
  type Batch = map<nat, Instant>

  /** The committed rows, by their position in the table, and the batch of each open transaction. */
  datatype State = State(rows: seq<Row>, batches: map<Worker, Batch>) {
    function BatchOf(w: Worker): Batch {
      if w in batches then batches[w] else map[]
    }
  }

  const EMPTY := State([], map[])

  /** The rows that open transactions have locked. */
  function Locked(s: State): set<nat> {
    set w, i | w in s.batches && i in s.batches[w] :: i
  }

  /** The rows that the query of `claim_batch` may return: pending, and not locked by anyone. */
  function Eligible(s: State): set<nat> {
    set i: nat | i < |s.rows| && s.rows[i].status == Pending && i !in Locked(s)
  }

  function Keys(rows: seq<Row>): (keys: seq<Key>)
    ensures |keys| == |rows|
    ensures forall i :: 0 <= i < |rows| ==> keys[i] == Key(rows[i].createdAt as real, 0.0)
  {
    seq(|rows|, i requires 0 <= i < |rows| => Key(rows[i].createdAt as real, 0.0))
  }

  /** What the query may return: the first `n` eligible rows by creation time. */
  ghost predicate IsOldestBatch(s: State, n: nat, ids: seq<nat>) {
    IsFirst(Keys(s.rows), Eligible(s), n, ids)
  }

  datatype Step =
    | Publish(event: Event, createdAt: Instant, maxAttempts: int)
    | Lock(w: Worker, n: nat, ids: seq<nat>, now: Instant)
    | Commit(w: Worker)
    | Rollback(w: Worker)
    | Complete(w: Worker, i: nat, now: Instant)
    | Fail(w: Worker, i: nat, error: string)

  /** The protocol: a transaction may claim several times, and only the holder of a claim finishes it. */
  ghost predicate Enabled(s: State, step: Step) {
    match step
    case Publish(_, _, _) => true
    case Lock(_, n, ids, _) => IsOldestBatch(s, n, ids)
    case Commit(w) => w in s.batches
    case Rollback(w) => w in s.batches
    case Complete(w, i, _) => i < |s.rows| && s.rows[i].HeldBy(w)
    case Fail(w, i, _) => i < |s.rows| && s.rows[i].HeldBy(w)
  }

  function Claims(ids: seq<nat>, now: Instant): Batch {
    map i | i in ids :: now
  }

  function ClaimAll(rows: seq<Row>, batch: Batch, w: Worker): (r: seq<Row>)
    ensures |r| == |rows|
  {
    seq(|rows|, i requires 0 <= i < |rows| => if i in batch then rows[i].Claim(w, batch[i]) else rows[i])
  }

  /** One step; a step that is not enabled is not taken. */
  ghost function Take(s: State, step: Step): State {
    if !Enabled(s, step) then s else
      match step
      case Publish(event, createdAt, max) => s.(rows := s.rows + [NewRow(event, createdAt, max)])
      case Lock(w, _, ids, now) => s.(batches := s.batches[w := s.BatchOf(w) + Claims(ids, now)])
      case Commit(w) => State(ClaimAll(s.rows, s.batches[w], w), s.batches - {w})
      case Rollback(w) => s.(batches := s.batches - {w})
      case Complete(_, i, now) => s.(rows := s.rows[i := s.rows[i].Complete(now)])
      case Fail(_, i, error) => s.(rows := s.rows[i := s.rows[i].Fail(error)])
  }

  ghost function TakeAll(steps: seq<Step>): State {
    if steps == [] then EMPTY else Take(TakeAll(steps[..|steps| - 1]), steps[|steps| - 1])
  }

  // ---- safety ----------------------------------------------------------------------------------

  ghost predicate RowOk(r: Row) {
    match r.status
    case Pending => 0 <= r.attempts < r.Limit() && r.claimedBy == None
    case Claimed => 1 <= r.attempts <= r.Limit() && r.claimedBy.Some?
    case Completed => 1 <= r.attempts <= r.Limit()
    case Dead => r.attempts == r.Limit()
  }

  ghost predicate BatchOk(s: State, batch: Batch) {
    forall i :: i in batch ==> i < |s.rows| && s.rows[i].status == Pending
  }

  ghost predicate Disjoint(s: State) {
    forall v, w, i: nat :: v in s.batches && w in s.batches && i in s.batches[v] && i in s.batches[w] ==> v == w
  }

  ghost predicate BatchesOk(s: State) {
    Disjoint(s) && forall w :: w in s.batches ==> BatchOk(s, s.batches[w])
  }

  ghost predicate Inv(s: State) {
    BatchesOk(s) && forall i :: 0 <= i < |s.rows| ==> RowOk(s.rows[i])
  }

  lemma TakeKeepsRows(s: State, step: Step)
    requires Inv(s)
    ensures forall i :: 0 <= i < |Take(s, step).rows| ==> RowOk(Take(s, step).rows[i])
  {
    if Enabled(s, step) && step.Commit? {
      assert BatchOk(s, s.batches[step.w]);
    }
  }

  lemma ClaimedWereFree(s: State, step: Step, v: Worker, i: nat)
    requires step.Lock? && Enabled(s, step) && v in s.batches && i in s.batches[v]
    ensures i !in step.ids
  {
    assert i in Locked(s) && i !in Eligible(s);
  }

  lemma LockKeepsBatches(s: State, step: Step)
    requires BatchesOk(s) && step.Lock? && Enabled(s, step)
    ensures BatchesOk(Take(s, step))
  {
    var t := Take(s, step);
    forall w | w in t.batches
      ensures BatchOk(t, t.batches[w])
    {
      assert w in s.batches ==> BatchOk(s, s.batches[w]);
    }
    forall v, w, i: nat | v in t.batches && w in t.batches && i in t.batches[v] && i in t.batches[w]
      ensures v == w
    {
      if v in s.batches && i in s.batches[v] {
        ClaimedWereFree(s, step, v, i);
      }
      if w in s.batches && i in s.batches[w] {
        ClaimedWereFree(s, step, w, i);
      }
    }
  }

  lemma TakeKeepsBatches(s: State, step: Step)
    requires BatchesOk(s)
    ensures BatchesOk(Take(s, step))
  {
    if step.Lock? && Enabled(s, step) {
      LockKeepsBatches(s, step);
    } else {
      var t := Take(s, step);
      forall w | w in t.batches
        ensures BatchOk(t, t.batches[w])
      {
        assert BatchOk(s, s.batches[w]);
        if step.Commit? && Enabled(s, step) {
          assert forall i: nat :: i in s.batches[w] && i in s.batches[step.w] ==> w == step.w;
        }
      }
    }
  }

  lemma TakeKeepsInv(s: State, step: Step)
    requires Inv(s)
    ensures Inv(Take(s, step))
  {
    TakeKeepsRows(s, step);
    TakeKeepsBatches(s, step);
  }

  /** Every reachable state: attempts within the limit, batches disjoint and pending. */
  lemma {:induction false} EveryRunIsSafe(steps: seq<Step>)
    ensures Inv(TakeAll(steps))
  {
    if steps != [] {
      var s := TakeAll(steps[..|steps| - 1]);
      EveryRunIsSafe(steps[..|steps| - 1]);
      TakeKeepsInv(s, steps[|steps| - 1]);
    }
  }

  // ---- deliveries ---------------------------------------------------------------------------------

  /** How often a committed claim has delivered row `i` in a run. */
  ghost function Delivered(steps: seq<Step>, i: nat): nat {
    if steps == [] then 0
    else
      var s, step := TakeAll(steps[..|steps| - 1]), steps[|steps| - 1];
      Delivered(steps[..|steps| - 1], i) +
      (if step.Commit? && Enabled(s, step) && i in s.batches[step.w] then 1 else 0)
  }

  /** How often row `i` has been completed or failed in a run. */
  ghost function Returned(steps: seq<Step>, i: nat): nat {
    if steps == [] then 0
    else
      var s, step := TakeAll(steps[..|steps| - 1]), steps[|steps| - 1];
      Returned(steps[..|steps| - 1], i) +
      (if (step.Complete? || step.Fail?) && Enabled(s, step) && step.i == i then 1 else 0)
  }

  /**
   Mutual exclusion over the whole history: a row is out with a worker at most once at any time,
   exactly while it is claimed, and it is delivered at most `Limit` times in all.
   */
  lemma {:induction false} DeliveriesAreExclusiveAndBounded(steps: seq<Step>, i: nat)
    requires i < |TakeAll(steps).rows|
    ensures var r := TakeAll(steps).rows[i];
            && Delivered(steps, i) == r.attempts <= r.Limit()
            && Delivered(steps, i) == Returned(steps, i) + (if r.status == Claimed then 1 else 0)
  {
    EveryRunIsSafe(steps);
    var n := |steps| - 1;
    var s, step := TakeAll(steps[..n]), steps[n];
    EveryRunIsSafe(steps[..n]);
    if i < |s.rows| {
      DeliveriesAreExclusiveAndBounded(steps[..n], i);
      if step.Commit? && Enabled(s, step) {
        assert BatchOk(s, s.batches[step.w]);
      }
    } else {
      UnpublishedRowsAreUntouched(steps[..n], i);
    }
  }

  lemma {:induction false} UnpublishedRowsAreUntouched(steps: seq<Step>, i: nat)
    requires i >= |TakeAll(steps).rows|
    ensures Delivered(steps, i) == 0 && Returned(steps, i) == 0
  {
    if steps != [] {
      var n := |steps| - 1;
      EveryRunIsSafe(steps[..n]);
      UnpublishedRowsAreUntouched(steps[..n], i);
      var s := TakeAll(steps[..n]);
      assert forall w :: w in s.batches ==> BatchOk(s, s.batches[w]);
    }
  }

  // ---- what is handed out before the commit ----------------------------------------------------------

  /** `claim_batch` returns the rows before its transaction commits: how often row `i` was handed out so. */
  ghost function HandedOut(steps: seq<Step>, i: nat): nat {
    if steps == [] then 0
    else
      var s, step := TakeAll(steps[..|steps| - 1]), steps[|steps| - 1];
      HandedOut(steps[..|steps| - 1], i) + (if step.Lock? && Enabled(s, step) && i in step.ids then 1 else 0)
  }

  /** How often a rollback has taken it back. */
  ghost function RolledBack(steps: seq<Step>, i: nat): nat {
    if steps == [] then 0
    else
      var s, step := TakeAll(steps[..|steps| - 1]), steps[|steps| - 1];
      RolledBack(steps[..|steps| - 1], i) + (if step.Rollback? && i in s.BatchOf(step.w) then 1 else 0)
  }

  function IsLocked(s: State, i: nat): nat {
    if i in Locked(s) then 1 else 0
  }

  lemma LockedIffInBatch(s: State, i: nat)
    ensures i in Locked(s) <==> exists w :: w in s.batches && i in s.batches[w]
  {
  }

  lemma ClaimLocks(s: State, step: Step, i: nat)
    requires step.Lock? && Enabled(s, step)
    ensures IsLocked(Take(s, step), i) == IsLocked(s, i) + (if i in step.ids then 1 else 0)
  {
    var t := Take(s, step);
    assert i in step.ids ==> i in t.batches[step.w];
    forall w | w in s.batches && i in s.batches[w]
      ensures i in t.batches[w] && i !in step.ids
    {
      ClaimedWereFree(s, step, w, i);
    }
    forall w | w in t.batches && i in t.batches[w]
      ensures i in step.ids || (w in s.batches && i in s.batches[w])
    {
    }
  }

  lemma EndUnlocks(s: State, w: Worker, t: State, i: nat)
    requires Disjoint(s) && t.batches == s.batches - {w}
    ensures IsLocked(t, i) == IsLocked(s, i) - (if i in s.BatchOf(w) then 1 else 0)
  {
    if v :| v in s.batches && i in s.batches[v] {
      assert i in s.BatchOf(w) ==> v == w;
      assert v != w ==> v in t.batches && i in t.batches[v];
    }
  }

  lemma StepHandsOut(s: State, step: Step, i: nat)
    requires Disjoint(s)
    ensures IsLocked(Take(s, step), i) == IsLocked(s, i)
            + (if step.Lock? && Enabled(s, step) && i in step.ids then 1 else 0)
            - (if (step.Commit? || step.Rollback?) && i in s.BatchOf(step.w) then 1 else 0)
  {
    if step.Lock? && Enabled(s, step) {
      ClaimLocks(s, step, i);
    } else if step.Commit? || step.Rollback? {
      EndUnlocks(s, step.w, Take(s, step), i);
    }
  }

  /** Whatever a worker is handed is delivered by its commit, taken back by its rollback, or still locked. */
  lemma {:induction false} HandedOutIsAccountedFor(steps: seq<Step>, i: nat)
    ensures HandedOut(steps, i) == Delivered(steps, i) + RolledBack(steps, i) + IsLocked(TakeAll(steps), i)
  {
    if steps != [] {
      var n := |steps| - 1;
      HandedOutIsAccountedFor(steps[..n], i);
      EveryRunIsSafe(steps[..n]);
      StepHandsOut(TakeAll(steps[..n]), steps[n], i);
    }
  }

  // ---- finished rows ------------------------------------------------------------------------------------

  /** Completed and dead are final: no continuation of a run changes such a row. */
  lemma {:induction false} FinishedIsAbsorbing(steps: seq<Step>, more: seq<Step>, i: nat)
    requires i < |TakeAll(steps).rows| && TakeAll(steps).rows[i].Finished()
    ensures i < |TakeAll(steps + more).rows| && TakeAll(steps + more).rows[i] == TakeAll(steps).rows[i]
  {
    if more == [] {
      assert steps + more == steps;
    } else {
      var n := |more| - 1;
      FinishedIsAbsorbing(steps, more[..n], i);
      assert (steps + more)[..|steps| + n] == steps + more[..n];
      EveryRunIsSafe(steps + more[..n]);
      var s := TakeAll(steps + more[..n]);
      assert forall w :: w in s.batches ==> BatchOk(s, s.batches[w]);
    }
  }

  // ---- termination ----------------------------------------------------------------------------------

  /** The work left in a row: two steps for each delivery still allowed, one for a claim that is out. */
  ghost function Energy(r: Row): int {
    if r.Finished() then 0
    else 2 * (r.Limit() - r.attempts) + (if r.status == Claimed then 1 else 0)
  }

  ghost function TotalEnergy(rows: seq<Row>): int {
    if rows == [] then 0 else TotalEnergy(rows[..|rows| - 1]) + Energy(rows[|rows| - 1])
  }

  /** A step that claims, completes or fails at least one row. */
  ghost predicate Works(s: State, step: Step) {
    && Enabled(s, step)
    && (step.Complete? || step.Fail? || (step.Commit? && s.batches[step.w] != map[]))
  }

  lemma {:induction false} EnergyDrops(rows: seq<Row>, next: seq<Row>, i: nat)
    requires |rows| == |next| && i < |rows|
    requires forall j :: 0 <= j < |rows| ==> Energy(next[j]) <= Energy(rows[j])
    requires Energy(next[i]) < Energy(rows[i])
    ensures TotalEnergy(next) < TotalEnergy(rows)
  {
    var n := |rows| - 1;
    if i < n {
      EnergyDrops(rows[..n], next[..n], i);
    } else {
      EnergyNeverRises(rows[..n], next[..n]);
    }
  }

  lemma {:induction false} EnergyNeverRises(rows: seq<Row>, next: seq<Row>)
    requires |rows| == |next| && forall j :: 0 <= j < |rows| ==> Energy(next[j]) <= Energy(rows[j])
    ensures TotalEnergy(next) <= TotalEnergy(rows)
  {
    if rows != [] {
      EnergyNeverRises(rows[..|rows| - 1], next[..|rows| - 1]);
    }
  }

  lemma {:induction false} EnergyIsNatural(rows: seq<Row>)
    requires forall j :: 0 <= j < |rows| ==> RowOk(rows[j])
    ensures TotalEnergy(rows) >= 0
  {
    if rows != [] {
      EnergyIsNatural(rows[..|rows| - 1]);
    }
  }

  lemma CommitUsesEnergy(s: State, w: Worker, i: nat)
    requires Inv(s) && w in s.batches && i in s.batches[w]
    ensures TotalEnergy(Take(s, Commit(w)).rows) < TotalEnergy(s.rows)
  {
    assert BatchOk(s, s.batches[w]);
    EnergyDrops(s.rows, Take(s, Commit(w)).rows, i);
  }

  lemma ReturnUsesEnergy(s: State, step: Step)
    requires Inv(s) && (step.Complete? || step.Fail?) && Enabled(s, step)
    ensures TotalEnergy(Take(s, step).rows) < TotalEnergy(s.rows)
  {
    assert RowOk(s.rows[step.i]);
    EnergyDrops(s.rows, Take(s, step).rows, step.i);
  }

  /** Each working step uses up energy, so without new events only finitely many can happen. */
  lemma WorkUsesEnergy(s: State, step: Step)
    requires Inv(s) && !step.Publish?
    ensures Works(s, step) ==> TotalEnergy(Take(s, step).rows) < TotalEnergy(s.rows)
    ensures !Works(s, step) ==> Take(s, step).rows == s.rows
  {
    if Works(s, step) {
      if step.Commit? {
        var i :| i in s.batches[step.w];
        CommitUsesEnergy(s, step.w, i);
      } else {
        ReturnUsesEnergy(s, step);
      }
    } else if step.Commit? && Enabled(s, step) {
      assert ClaimAll(s.rows, map[], step.w) == s.rows;
    }
  }

  ghost function TakeFrom(s: State, steps: seq<Step>): State
    decreases |steps|
  {
    if steps == [] then s else TakeFrom(Take(s, steps[0]), steps[1..])
  }

  ghost function StepsOfWork(s: State, steps: seq<Step>): nat
    decreases |steps|
  {
    if steps == [] then 0
    else (if Works(s, steps[0]) then 1 else 0) + StepsOfWork(Take(s, steps[0]), steps[1..])
  }

  /** From a reachable state, any continuation without new events works at most `TotalEnergy` times. */
  lemma {:induction false} WorkIsBounded(s: State, steps: seq<Step>)
    requires Inv(s) && forall k :: 0 <= k < |steps| ==> !steps[k].Publish?
    ensures StepsOfWork(s, steps) <= TotalEnergy(s.rows)
    decreases |steps|
  {
    if steps == [] {
      EnergyIsNatural(s.rows);
    } else {
      var t := Take(s, steps[0]);
      TakeKeepsInv(s, steps[0]);
      WorkUsesEnergy(s, steps[0]);
      WorkIsBounded(t, steps[1..]);
    }
  }

  // ---- progress ----------------------------------------------------------------------------------------

  /** Every row is completed, or dead after exactly `Limit` deliveries. */
  ghost predicate Drained(s: State) {
    forall i :: 0 <= i < |s.rows| ==>
                  s.rows[i].status == Completed || (s.rows[i].status == Dead && s.rows[i].attempts == s.rows[i].Limit())
  }

  lemma {:induction false} TakeFromAppend(s: State, steps: seq<Step>, more: seq<Step>)
    ensures TakeFrom(s, steps + more) == TakeFrom(TakeFrom(s, steps), more)
    decreases |steps|
  {
    if steps == [] {
      assert steps + more == more;
    } else {
      TakeFromAppend(Take(s, steps[0]), steps[1..], more);
      assert (steps + more)[1..] == steps[1..] + more;
    }
  }

  /** Open transactions can always be rolled back. */
  lemma {:induction false} RollbackAll(s: State) returns (steps: seq<Step>)
    ensures TakeFrom(s, steps) == State(s.rows, map[])
    decreases |s.batches|
  {
    steps := [];
    if s.batches != map[] {
      var w :| w in s.batches;
      var t := Take(s, Rollback(w));
      assert t.batches.Keys == s.batches.Keys - {w};
      var rest := RollbackAll(t);
      steps := [Rollback(w)] + rest;
      assert steps[1..] == rest;
    }
  }

  lemma WorkingStepHelps(s: State, step: Step)
    requires Inv(s) && !step.Publish? && Works(s, step)
    ensures Inv(Take(s, step)) && TotalEnergy(Take(s, step).rows) < TotalEnergy(s.rows)
  {
    WorkUsesEnergy(s, step);
    TakeKeepsInv(s, step);
  }

  /** Any worker can lock and commit what is pending. */
  lemma PendingRowCanBeClaimed(s: State, i: nat, w: Worker) returns (lock: Step)
    requires Inv(s) && s.batches == map[] && i < |s.rows| && s.rows[i].status == Pending
    ensures var locked := Take(s, lock);
            && Inv(locked) && locked.rows == s.rows && Works(locked, Commit(w)) && locked.batches.Keys == {w}
  {
    assert i in Eligible(s);
    var ids := SelectFirst(Keys(s.rows), Eligible(s), 1);
    SelectFirstIsFirst(Keys(s.rows), Eligible(s), 1);
    lock := Lock(w, 1, ids, 0);
    TakeKeepsInv(s, lock);
    assert ids != [] && ids[0] in Claims(ids, 0);
    assert ids[0] in Take(s, lock).batches[w];
  }

  /** No deadlock: the holder of a claim can fail it, and a pending row can be claimed. */
  lemma UnfinishedRowAllowsWork(s: State, i: nat, w: Worker) returns (steps: seq<Step>)
    requires Inv(s) && s.batches == map[] && i < |s.rows| && !s.rows[i].Finished()
    ensures var t := TakeFrom(s, steps);
            Inv(t) && t.batches == map[] && TotalEnergy(t.rows) < TotalEnergy(s.rows)
  {
    assert RowOk(s.rows[i]);
    if s.rows[i].status == Claimed {
      var last := Fail(s.rows[i].claimedBy.value, i, "");
      steps := [last];
      WorkingStepHelps(s, last);
      assert steps[1..] == [] && TakeFrom(s, steps) == Take(s, last);
    } else {
      var lock := PendingRowCanBeClaimed(s, i, w);
      var locked := Take(s, lock);
      steps := [lock, Commit(w)];
      WorkingStepHelps(locked, Commit(w));
      assert steps[1..] == [Commit(w)] && [Commit(w)][1..] == [];
      assert TakeFrom(s, steps) == TakeFrom(locked, [Commit(w)]) == Take(locked, Commit(w));
      assert Take(locked, Commit(w)).batches.Keys == {};
    }
  }

  /** From every reachable state some continuation drains the outbox. */
  lemma {:induction false} EveryStateCanDrain(s: State, w: Worker) returns (steps: seq<Step>)
    requires Inv(s)
    ensures Drained(TakeFrom(s, steps))
    decreases s.batches != map[], TotalEnergy(s.rows)
  {
    steps := [];
    EnergyIsNatural(s.rows);
    if s.batches != map[] {
      var undo := RollbackAll(s);
      var rest := EveryStateCanDrain(State(s.rows, map[]), w);
      steps := undo + rest;
      TakeFromAppend(s, undo, rest);
    } else if i :| 0 <= i < |s.rows| && !s.rows[i].Finished() {
      var work := UnfinishedRowAllowsWork(s, i, w);
      var rest := EveryStateCanDrain(TakeFrom(s, work), w);
      steps := work + rest;
      TakeFromAppend(s, work, rest);
    } else {
      assert forall i :: 0 <= i < |s.rows| ==> RowOk(s.rows[i]);
    }
  }

  /** An unlocked pending row is passed over only by a full batch of rows that are no younger. */
  lemma NoOlderRowIsPassedOver(s: State, n: nat, ids: seq<nat>, i: nat, p: nat)
    requires IsOldestBatch(s, n, ids) && i in Eligible(s) && i !in ids && p < |ids|
    ensures |ids| == n && ids[p] < |s.rows| && s.rows[ids[p]].createdAt <= s.rows[i].createdAt
  {
    assert !Less(Keys(s.rows)[i], Keys(s.rows)[ids[p]]);
  }

  /** Row `j` is pending, and no open transaction has locked it. */
  ghost predicate Free(s: State, j: nat) {
    j < |s.rows| && s.rows[j].status == Pending && forall w :: w in s.batches ==> j !in s.batches[w]
  }

  /** Free rows, each once and the older first; if any is left out, then the batch is full of rows as old. */
  ghost predicate TakesOldestFree(s: State, n: nat, ids: seq<nat>) {
    && |ids| <= n
    && (forall p :: 0 <= p < |ids| ==> Free(s, ids[p]))
    && (forall p, q :: 0 <= p < q < |ids| ==> ids[p] != ids[q] && s.rows[ids[p]].createdAt <= s.rows[ids[q]].createdAt)
    && (forall j: nat :: Free(s, j) && j !in ids ==>
          |ids| == n && forall p :: 0 <= p < |ids| ==> s.rows[ids[p]].createdAt <= s.rows[j].createdAt)
  }

  /** The query takes the oldest free rows. */
  lemma OldestBatchTakesOldestFree(s: State, n: nat, ids: seq<nat>)
    requires IsOldestBatch(s, n, ids)
    ensures TakesOldestFree(s, n, ids)
  {
    forall j: nat
      ensures j in Eligible(s) <==> Free(s, j)
    {
      LockedIffInBatch(s, j);
    }
    forall p, q | 0 <= p < q < |ids|
      ensures ids[p] != ids[q] && s.rows[ids[p]].createdAt <= s.rows[ids[q]].createdAt
    {
      assert !Less(Keys(s.rows)[ids[q]], Keys(s.rows)[ids[p]]);
    }
    forall j: nat | Free(s, j) && j !in ids
      ensures |ids| == n && forall p :: 0 <= p < |ids| ==> s.rows[ids[p]].createdAt <= s.rows[j].createdAt
    {
      assert NoLater(Keys(s.rows), n, ids, j);
    }
  }

  ghost predicate Older(rows: seq<Row>, j: nat, i: nat) {
    j < |rows| && i < |rows| && rows[j].createdAt < rows[i].createdAt
  }

  /** At step `k` worker `w` claimed row `i`. */
  ghost predicate ClaimsAt(steps: seq<Step>, k: nat, w: Worker, i: nat) {
    && k < |steps| && steps[k].Lock? && steps[k].w == w && i in steps[k].ids
    && Enabled(TakeAll(steps[..k]), steps[k])
  }

  /** Every row that was older and free when `w` claimed row `i` is in the batch of `w` too. */
  ghost predicate OlderAreTaken(steps: seq<Step>, k: nat, i: nat, batch: Batch)
    requires k < |steps|
  {
    var s := TakeAll(steps[..k]);
    forall j: nat :: j in Eligible(s) && Older(s.rows, j, i) ==> j in batch
  }

  lemma ClaimTakesOlder(s: State, step: Step, i: nat, j: nat)
    requires step.Lock? && Enabled(s, step) && i in step.ids && j in Eligible(s) && Older(s.rows, j, i)
    ensures j in step.ids
  {
    var p :| 0 <= p < |step.ids| && step.ids[p] == i;
    if j !in step.ids {
      NoOlderRowIsPassedOver(s, step.n, step.ids, j, p);
    }
  }

  lemma {:induction false} BatchTookOlder(steps: seq<Step>, w: Worker, i: nat) returns (k: nat)
    requires i in TakeAll(steps).BatchOf(w)
    ensures ClaimsAt(steps, k, w, i) && OlderAreTaken(steps, k, i, TakeAll(steps).BatchOf(w))
  {
    var n := |steps| - 1;
    var s, step := TakeAll(steps[..n]), steps[n];
    if step.Lock? && step.w == w && Enabled(s, step) && i in step.ids {
      k := n;
      forall j: nat | j in Eligible(s) && Older(s.rows, j, i)
        ensures j in TakeAll(steps).BatchOf(w)
      {
        ClaimTakesOlder(s, step, i, j);
      }
    } else {
      k := BatchTookOlder(steps[..n], w, i);
      assert steps[..n][..k] == steps[..k] && steps[..n][k] == steps[k];
    }
  }

  /**
   Over any run: whatever a commit delivers, each older row that was pending and unlocked when the
   worker claimed it is delivered by the same commit, however the steps of others interleave.
   */
  lemma CommitDeliversOlderRowsToo(steps: seq<Step>, w: Worker, i: nat) returns (k: nat)
    requires i in TakeAll(steps).BatchOf(w)
    ensures ClaimsAt(steps, k, w, i)
    ensures var before, after := TakeAll(steps[..k]), Take(TakeAll(steps), Commit(w));
            forall j: nat :: (j in Eligible(before) && Older(before.rows, j, i)) || j == i ==>
                               j < |after.rows| && after.rows[j].HeldBy(w)
  {
    k := BatchTookOlder(steps, w, i);
    EveryRunIsSafe(steps);
    assert BatchOk(TakeAll(steps), TakeAll(steps).batches[w]);
  }

  // ---- calls from anybody -------------------------------------------------------------------------------

  /**
   `complete` and `fail` check neither the holder nor the status.  When anybody may call them, on any
   row that no transaction has locked, they act as follows; the other steps are those of the protocol.
   */
  ghost function TakeOpen(s: State, step: Step): State {
    match step
    case Complete(_, i, now) =>
      if i < |s.rows| && i !in Locked(s) then s.(rows := s.rows[i := s.rows[i].Complete(now)]) else s
    case Fail(_, i, error) =>
      if i < |s.rows| && i !in Locked(s) then s.(rows := s.rows[i := s.rows[i].Fail(error)]) else s
    case _ => Take(s, step)
  }

  ghost function TakeAllOpen(steps: seq<Step>): State {
    if steps == [] then EMPTY else TakeOpen(TakeAllOpen(steps[..|steps| - 1]), steps[|steps| - 1])
  }

  /** What is left of `RowOk`: the limit. */
  ghost predicate WithinLimit(r: Row) {
    0 <= r.attempts <= r.Limit() && (r.status == Pending ==> r.attempts < r.Limit())
  }

  ghost predicate OpenInv(s: State) {
    BatchesOk(s) && forall i :: 0 <= i < |s.rows| ==> WithinLimit(s.rows[i])
  }

  /** In safe states the protocol is the special case in which the holder calls. */
  lemma ProtocolStepsAreOpenSteps(s: State, step: Step)
    requires Inv(s) && Enabled(s, step)
    ensures TakeOpen(s, step) == Take(s, step)
  {
    if step.Complete? || step.Fail? {
      forall w | w in s.batches
        ensures step.i !in s.batches[w]
      {
        assert BatchOk(s, s.batches[w]);
      }
    }
  }

  lemma OpenStepKeepsLimit(s: State, step: Step)
    requires OpenInv(s)
    ensures forall i :: 0 <= i < |TakeOpen(s, step).rows| ==> WithinLimit(TakeOpen(s, step).rows[i])
  {
    if step.Commit? && Enabled(s, step) {
      assert BatchOk(s, s.batches[step.w]);
    }
  }

  lemma OpenStepKeepsBatches(s: State, step: Step)
    requires BatchesOk(s)
    ensures BatchesOk(TakeOpen(s, step))
  {
    if step.Complete? || step.Fail? {
      var t := TakeOpen(s, step);
      forall w | w in s.batches
        ensures BatchOk(t, t.batches[w])
      {
        assert BatchOk(s, s.batches[w]);
        assert forall i :: i in s.batches[w] ==> i in Locked(s);
      }
    } else {
      TakeKeepsBatches(s, step);
    }
  }

  lemma {:induction false} EveryOpenRunKeepsLimit(steps: seq<Step>)
    ensures OpenInv(TakeAllOpen(steps))
  {
    if steps != [] {
      var s := TakeAllOpen(steps[..|steps| - 1]);
      EveryOpenRunKeepsLimit(steps[..|steps| - 1]);
      OpenStepKeepsLimit(s, steps[|steps| - 1]);
      OpenStepKeepsBatches(s, steps[|steps| - 1]);
    }
  }

  /** How often a commit has delivered row `i` in a run with calls from anybody. */
  ghost function DeliveredOpen(steps: seq<Step>, i: nat): nat {
    if steps == [] then 0
    else
      var s, step := TakeAllOpen(steps[..|steps| - 1]), steps[|steps| - 1];
      DeliveredOpen(steps[..|steps| - 1], i) + (if step.Commit? && i in s.BatchOf(step.w) then 1 else 0)
  }

  function Attempts(s: State, i: nat): int {
    if i < |s.rows| then s.rows[i].attempts else 0
  }

  lemma OpenStepCountsAttempt(s: State, step: Step, i: nat)
    requires BatchesOk(s)
    ensures Attempts(TakeOpen(s, step), i) == Attempts(s, i) + (if step.Commit? && i in s.BatchOf(step.w) then 1 else 0)
  {
    if step.Commit? && step.w in s.batches {
      assert BatchOk(s, s.batches[step.w]);
    }
  }

  lemma {:induction false} OpenDeliveriesAreAttempts(steps: seq<Step>, i: nat)
    ensures DeliveredOpen(steps, i) == Attempts(TakeAllOpen(steps), i)
  {
    if steps != [] {
      var n := |steps| - 1;
      OpenDeliveriesAreAttempts(steps[..n], i);
      EveryOpenRunKeepsLimit(steps[..n]);
      OpenStepCountsAttempt(TakeAllOpen(steps[..n]), steps[n], i);
    }
  }

  /** Bounded delivery does not need the holder rule: whoever completes and fails what, the limit holds. */
  lemma StrayCallsKeepDeliveryBound(steps: seq<Step>, i: nat)
    requires i < |TakeAllOpen(steps).rows|
    ensures var r := TakeAllOpen(steps).rows[i];
            && DeliveredOpen(steps, i) == r.attempts <= r.Limit()
            && (r.status == Pending ==> r.attempts < r.Limit())
  {
    OpenDeliveriesAreAttempts(steps, i);
    EveryOpenRunKeepsLimit(steps);
  }

  // ---- what the holder rule is needed for -----------------------------------------------------------------

  ghost function TakeFromOpen(s: State, steps: seq<Step>): State
    decreases |steps|
  {
    if steps == [] then s else TakeFromOpen(TakeOpen(s, steps[0]), steps[1..])
  }

  /** A row that is not pending and has no attempt left for `fail` to give back. */
  ghost predicate Spent(s: State, i: nat) {
    i < |s.rows| && s.rows[i].status != Pending && s.rows[i].attempts >= s.rows[i].maxAttempts
  }

  lemma {:induction false} SpentRowIsNotDelivered(s: State, steps: seq<Step>, i: nat)
    requires BatchesOk(s) && Spent(s, i)
    ensures var t := TakeFromOpen(s, steps);
            i < |t.rows| && t.rows[i].attempts == s.rows[i].attempts
    decreases |steps|
  {
    if steps != [] {
      var step := steps[0];
      OpenStepKeepsBatches(s, step);
      if step.Commit? && step.w in s.batches {
        assert BatchOk(s, s.batches[step.w]);
      }
      SpentRowIsNotDelivered(TakeOpen(s, step), steps[1..], i);
    }
  }

  /** A claim of everything that is free, and its commit, deliver a pending row. */
  lemma ClaimOfAllDelivers(s: State, i: nat, w: Worker) returns (lock: Step)
    requires i < |s.rows| && s.rows[i].status == Pending && i !in Locked(s)
    ensures lock.Lock? && Enabled(s, lock) && i in Take(s, lock).BatchOf(w) && Take(s, lock).rows == s.rows
  {
    var n := |s.rows| + 1;
    var ids := SelectFirst(Keys(s.rows), Eligible(s), n);
    SelectFirstIsFirst(Keys(s.rows), Eligible(s), n);
    SelectFirstIsShort(Keys(s.rows), Eligible(s), n);
    lock := Lock(w, n, ids, 0);
    assert i in Eligible(s) && i in ids;
  }

  /** A stray `fail` on a claimed row with attempts left lets another worker `w` have it too. */
  lemma StrayFailSharesRow(s: State, i: nat, w: Worker) returns (steps: seq<Step>)
    requires BatchesOk(s) && i < |s.rows| && s.rows[i].status == Claimed && s.rows[i].attempts < s.rows[i].maxAttempts
    ensures var t := TakeFromOpen(s, steps);
            i < |t.rows| && t.rows[i].HeldBy(w) && t.rows[i].attempts == s.rows[i].attempts + 1
  {
    ClaimedIsUnlocked(s, i);
    var freed := TakeOpen(s, Fail("", i, ""));
    assert i !in Locked(freed);
    var lock := ClaimOfAllDelivers(freed, i, w);
    var locked := Take(freed, lock);
    steps := [Fail("", i, ""), lock, Commit(w)];
    assert steps[1..] == [lock, Commit(w)] && steps[1..][1..] == [Commit(w)] && steps[1..][1..][1..] == [];
    assert TakeFromOpen(s, steps) == TakeFromOpen(freed, steps[1..]) == TakeFromOpen(locked, [Commit(w)]);
    assert TakeFromOpen(locked, [Commit(w)]) == Take(locked, Commit(w));
  }

  lemma ClaimedIsUnlocked(s: State, i: nat)
    requires BatchesOk(s) && i < |s.rows| && s.rows[i].status == Claimed
    ensures i !in Locked(s)
  {
    forall w | w in s.batches
      ensures i !in s.batches[w]
    {
      assert BatchOk(s, s.batches[w]);
    }
  }

  /**
   Mutual exclusion does need the holder rule: with calls from anybody, a claimed row cannot be
   delivered again while its worker still has it exactly when it is on its last attempt.
   */
  lemma ClaimIsExclusiveIffLastAttempt(s: State, i: nat)
    requires BatchesOk(s) && i < |s.rows| && s.rows[i].status == Claimed
    ensures (forall steps :: i < |TakeFromOpen(s, steps).rows|
                             && TakeFromOpen(s, steps).rows[i].attempts == s.rows[i].attempts) <==>
            s.rows[i].attempts >= s.rows[i].maxAttempts
  {
    if s.rows[i].attempts >= s.rows[i].maxAttempts {
      forall steps
        ensures i < |TakeFromOpen(s, steps).rows| && TakeFromOpen(s, steps).rows[i].attempts == s.rows[i].attempts
      {
        SpentRowIsNotDelivered(s, steps, i);
      }
    } else {
      var steps := StrayFailSharesRow(s, i, "w");
    }
  }

  /** And so does the rest of finished rows: these are the calls that keep their status. */
  lemma StrayCallKeepsStatusIff(r: Row, error: string, now: Instant)
    requires r.Finished()
    ensures r.Fail(error).status == r.status <==> r.status == Dead && r.attempts >= r.maxAttempts
    ensures r.Complete(now).status == r.status <==> r.status == Completed
  {
  }

  // ---- the table and its workers --------------------------------------------------------------------------

  /** The loop of `claim_batch` over the selected rows. */
  method AddClaims(batch: Batch, ids: seq<nat>, now: Instant) returns (r: Batch)
    ensures r == batch + Claims(ids, now)
  {
    r := batch;
    for k := 0 to |ids|
      invariant r == batch + Claims(ids[..k], now)
    {
      assert ids[..k + 1] == ids[..k] + [ids[k]];
      r := r[ids[k] := now];
    }
    assert ids[..|ids|] == ids;
  }

  /** What the commit makes of the rows. */
  method ClaimRows(rows: seq<Row>, batch: Batch, w: Worker) returns (r: seq<Row>)
    ensures r == ClaimAll(rows, batch, w)
  {
    r := rows;
    for k := 0 to |rows|
      invariant |r| == |rows|
      invariant forall j :: 0 <= j < k ==> r[j] == ClaimAll(rows, batch, w)[j]
      invariant forall j :: k <= j < |rows| ==> r[j] == rows[j]
    {
      if k in batch {
        r := r[k := r[k].Claim(w, batch[k])];
      }
    }
  }

  class OutboxTable {
    var rows: seq<Row>
    var batches: map<Worker, Batch>

    function Model(): State
      reads this
    {
      State(rows, batches)
    }

    constructor ()
      ensures Model() == EMPTY
    {
      rows, batches := [], map[];
    }

    /** `publish`, with the key that it draws when the caller gives none. */
    method Publish(eventType: string, payload: string, key: Option<string>, drawn: string, createdAt: Instant,
                   maxAttempts: int)
      returns (i: nat)
      modifies this`rows
      ensures i == |old(rows)| && |rows| == i + 1 && rows[..i] == old(rows)
      ensures rows[i].status == Pending && rows[i].attempts == 0 && rows[i].maxAttempts == maxAttempts
      ensures rows[i].claimedBy == None && rows[i].completedAt == None && rows[i].lastError == None
      ensures rows[i].event.eventType == eventType && rows[i].event.payload == payload
      ensures rows[i].event.key == (if key == None || key.value == "" then drawn else key.value)
      ensures rows[i].createdAt == createdAt
      ensures var event := Event(eventType, payload, if key.Some? && key.value != "" then key.value else drawn);
              Model() == Take(old(Model()), Step.Publish(event, createdAt, maxAttempts))
    {
      var k := drawn;
      if key.Some? && key.value != "" {
        k := key.value;
      }
      i := |rows|;
      rows := rows + [NewRow(Event(eventType, payload, k), createdAt, maxAttempts)];
    }

    /** `claim_batch`: the oldest unlocked pending rows, which the transaction of the worker locks and claims. */
    method LockBatch(w: Worker, batchSize: nat, now: Instant) returns (ids: seq<nat>)
      modifies this`batches
      ensures TakesOldestFree(old(Model()), batchSize, ids)
      ensures batches == old(batches)[w := (if w in old(batches) then old(batches)[w] else map[])
                                            + map i | i in ids :: now]
      ensures IsOldestBatch(old(Model()), batchSize, ids)
      ensures Model() == Take(old(Model()), Lock(w, batchSize, ids, now))
    {
      ids := SelectFirst(Keys(rows), Eligible(Model()), batchSize);
      SelectFirstIsFirst(Keys(rows), Eligible(Model()), batchSize);
      OldestBatchTakesOldestFree(Model(), batchSize, ids);
      var batch := AddClaims(Model().BatchOf(w), ids, now);
      batches := batches[w := batch];
    }

    /** The commit that publishes the claims of a transaction, if it made any. */
    method CommitBatch(w: Worker)
      modifies this
      ensures |rows| == |old(rows)| && batches == old(batches) - {w}
      ensures forall j: nat :: j < |rows| && !(w in old(batches) && j in old(batches)[w]) ==> rows[j] == old(rows)[j]
      ensures forall j: nat :: j < |rows| && w in old(batches) && j in old(batches)[w] ==>
                                 rows[j] == old(rows)[j].(status := Claimed, claimedBy := Some(w),
                                                          claimedAt := Some(old(batches)[w][j]),
                                                          attempts := old(rows)[j].attempts + 1)
      ensures Model() == Take(old(Model()), Commit(w))
      ensures old(Inv(Model())) ==> Inv(Model())
    {
      var claimed := ClaimRows(rows, Model().BatchOf(w), w);
      assert w !in batches ==> claimed == rows;
      rows, batches := claimed, batches - {w};
      if Inv(old(Model())) {
        TakeKeepsInv(old(Model()), Commit(w));
      }
    }

    method RollbackBatch(w: Worker)
      modifies this`batches
      ensures batches == old(batches) - {w}
      ensures Model() == Take(old(Model()), Rollback(w))
    {
      batches := batches - {w};
    }

    /** `complete` trusts its caller; when the caller holds the claim it is a step of the protocol. */
    method CompleteRow(i: nat, now: Instant)
      requires i < |rows|
      modifies this`rows
      ensures rows == old(rows)[i := old(rows)[i].(status := Completed, completedAt := Some(now))]
      ensures rows == old(rows)[i := old(rows)[i].Complete(now)]
      ensures forall w :: old(rows)[i].HeldBy(w) ==> Model() == Take(old(Model()), Step.Complete(w, i, now))
    {
      rows := rows[i := rows[i].(status := Completed)];
      rows := rows[i := rows[i].(completedAt := Some(now))];
    }

    /** `fail` trusts its caller in the same way. */
    method FailRow(i: nat, error: string)
      requires i < |rows|
      modifies this`rows
      ensures |rows| == |old(rows)| && forall j :: 0 <= j < |rows| && j != i ==> rows[j] == old(rows)[j]
      ensures old(rows)[i].attempts >= old(rows)[i].maxAttempts ==>
                rows[i] == old(rows)[i].(status := Dead, lastError := Some(error))
      ensures old(rows)[i].attempts < old(rows)[i].maxAttempts ==>
                rows[i] == old(rows)[i].(status := Pending, claimedBy := None, claimedAt := None,
                                         lastError := Some(error))
      ensures rows == old(rows)[i := old(rows)[i].Fail(error)]
      ensures forall w :: old(rows)[i].HeldBy(w) ==> Model() == Take(old(Model()), Step.Fail(w, i, error))
    {
      rows := rows[i := rows[i].(lastError := Some(error))];
      if rows[i].attempts >= rows[i].maxAttempts {
        rows := rows[i := rows[i].(status := Dead)];
      } else {
        rows := rows[i := rows[i].(status := Pending)];
        rows := rows[i := rows[i].(claimedBy := None, claimedAt := None)];
      }
    }
  }

  /** In particular a late `fail` reopens a completed row for another delivery exactly when deliveries are left. */
  lemma LateFailReopensCompletedRow(r: Row, error: string)
    requires RowOk(r) && r.status == Completed
    ensures r.Fail(error).status == Pending <==> r.attempts < r.Limit()
  {
  }
}
