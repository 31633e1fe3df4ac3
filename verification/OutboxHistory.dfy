/**
 What the rows of the outbox table say about a run: which calls have been made, by whom and when
 (services/outbox.py).
 */
module OutboxHistory {
  import opened Wrappers
  import opened Instants
  import opened Outbox

  /** Worker `w` has row `i` when step `k` is taken. */
  ghost predicate HasRow(steps: seq<Step>, k: nat, w: Worker, i: nat)
    requires k <= |steps|
  {
    var rows := TakeAll(steps[..k]).rows;
    i < |rows| && rows[i].status == Claimed && rows[i].claimedBy == Some(w)
  }

  /** Step `k` is a call of `complete` on row `i` by the worker that has it. */
  ghost predicate Completes(steps: seq<Step>, k: nat, i: nat) {
    k < |steps| && steps[k].Complete? && steps[k].i == i && HasRow(steps, k, steps[k].w, i)
  }

  /** Step `k` is a call of `fail` on row `i` by the worker that has it. */
  ghost predicate Fails(steps: seq<Step>, k: nat, i: nat) {
    k < |steps| && steps[k].Fail? && steps[k].i == i && HasRow(steps, k, steps[k].w, i)
  }

  /** Step `k` commits a claim of row `i`. */
  ghost predicate Delivers(steps: seq<Step>, k: nat, i: nat) {
    k < |steps| && steps[k].Commit? && i in TakeAll(steps[..k]).BatchOf(steps[k].w)
  }

  ghost function Completions(steps: seq<Step>, i: nat): nat {
    if steps == [] then 0
    else Completions(steps[..|steps| - 1], i) + (if Completes(steps, |steps| - 1, i) then 1 else 0)
  }

  ghost function Failures(steps: seq<Step>, i: nat): nat {
    if steps == [] then 0
    else Failures(steps[..|steps| - 1], i) + (if Fails(steps, |steps| - 1, i) then 1 else 0)
  }

  lemma {:induction false} ReturnsAreCompletionsAndFailures(steps: seq<Step>, i: nat)
    ensures Returned(steps, i) == Completions(steps, i) + Failures(steps, i)
  {
    if steps != [] {
      ReturnsAreCompletionsAndFailures(steps[..|steps| - 1], i);
    }
  }

  lemma {:induction false} CompletedIffCompleted(steps: seq<Step>, i: nat)
    ensures Completions(steps, i)
            == if i < |TakeAll(steps).rows| && TakeAll(steps).rows[i].status == Completed then 1 else 0
  {
    if steps != [] {
      var n := |steps| - 1;
      CompletedIffCompleted(steps[..n], i);
      EveryRunIsSafe(steps[..n]);
      var s := TakeAll(steps[..n]);
      assert forall w :: w in s.batches ==> BatchOk(s, s.batches[w]);
    }
  }

  /**
   The status of a row is its history: it is completed when its one completion has occurred, dead when
   it has failed as often as it may be delivered, claimed while one delivery is unanswered, and
   otherwise pending.
   */
  lemma StatusIsHistory(steps: seq<Step>, i: nat)
    requires i < |TakeAll(steps).rows|
    ensures var r := TakeAll(steps).rows[i];
            var limit := if r.maxAttempts < 1 then 1 else r.maxAttempts;
            var delivered, completed, failed := Delivered(steps, i), Completions(steps, i), Failures(steps, i);
            && r.attempts == delivered
            && completed <= 1 && failed <= limit
            && (r.status == Completed <==> completed == 1)
            && (r.status == Dead <==> failed == limit)
            && (r.status == Claimed <==> delivered == completed + failed + 1)
            && (r.status == Pending <==> delivered == failed < limit && completed == 0)
  {
    CompletedIffCompleted(steps, i);
    ReturnsAreCompletionsAndFailures(steps, i);
    DeliveriesAreExclusiveAndBounded(steps, i);
    EveryRunIsSafe(steps);
    assert RowOk(TakeAll(steps).rows[i]);
  }

  // ---- one call ----------------------------------------------------------------------------------------

  lemma PrefixOfPrefix(steps: seq<Step>, k: nat)
    requires k < |steps|
    ensures steps[..k + 1][..k] == steps[..k] && steps[..k + 1][k] == steps[k]
    ensures TakeAll(steps[..k + 1]) == Take(TakeAll(steps[..k]), steps[k])
  {
    assert steps[..k + 1][..k] == steps[..k];
  }

  /** Once its holder has completed a row, it stays completed at that time and is never delivered again. */
  lemma CompletionIsFinal(steps: seq<Step>, k: nat, i: nat)
    requires Completes(steps, k, i)
    ensures var before, after := TakeAll(steps[..k]).rows, TakeAll(steps).rows;
            && i < |after|
            && after[i] == before[i].(status := Completed, completedAt := Some(steps[k].now))
            && Delivered(steps, i) == Delivered(steps[..k], i)
  {
    PrefixOfPrefix(steps, k);
    FinishedIsAbsorbing(steps[..k + 1], steps[k + 1..], i);
    assert steps[..k + 1] + steps[k + 1..] == steps;
    DeliveriesAreExclusiveAndBounded(steps, i);
    DeliveriesAreExclusiveAndBounded(steps[..k], i);
  }

  /** A failure that uses up the last delivery is final too, with its error; the row keeps its last holder. */
  lemma LastFailureIsFinal(steps: seq<Step>, k: nat, i: nat)
    requires Fails(steps, k, i) && TakeAll(steps[..k]).rows[i].attempts >= TakeAll(steps[..k]).rows[i].maxAttempts
    ensures var before, after := TakeAll(steps[..k]).rows, TakeAll(steps).rows;
            && i < |after|
            && after[i] == before[i].(status := Dead, lastError := Some(steps[k].error))
            && Delivered(steps, i) == Delivered(steps[..k], i)
  {
    PrefixOfPrefix(steps, k);
    FinishedIsAbsorbing(steps[..k + 1], steps[k + 1..], i);
    assert steps[..k + 1] + steps[k + 1..] == steps;
    DeliveriesAreExclusiveAndBounded(steps, i);
    DeliveriesAreExclusiveAndBounded(steps[..k], i);
  }

  /** No step from `k` on delivers row `i`. */
  ghost predicate NotDeliveredSince(steps: seq<Step>, k: nat, i: nat) {
    forall m :: k <= m < |steps| ==> !Delivers(steps, m, i)
  }

  /** Any other failure releases the row, which waits so until it is delivered again. */
  lemma {:induction false} EarlierFailureReleases(steps: seq<Step>, k: nat, i: nat)
    requires Fails(steps, k, i) && TakeAll(steps[..k]).rows[i].attempts < TakeAll(steps[..k]).rows[i].maxAttempts
    requires NotDeliveredSince(steps, k, i)
    ensures var before, after := TakeAll(steps[..k]).rows, TakeAll(steps).rows;
            && i < |after|
            && after[i] == before[i].(status := Pending, claimedBy := None, claimedAt := None,
                                      lastError := Some(steps[k].error))
    decreases |steps|
  {
    PrefixOfPrefix(steps, k);
    var n := |steps| - 1;
    if k == n {
      assert steps[..k + 1] == steps;
    } else {
      StepsBefore(steps, n, i);
      EarlierFailureReleases(steps[..n], k, i);
      assert !Delivers(steps, n, i);
    }
  }

  /** Only its holder ends the claim of a row. */
  lemma ClaimIsKept(s: State, step: Step, i: nat)
    requires Inv(s) && i < |s.rows| && s.rows[i].status == Claimed
    requires (step.Complete? || step.Fail?) && step.i == i ==> s.rows[i].claimedBy != Some(step.w)
    ensures i < |Take(s, step).rows| && Take(s, step).rows[i] == s.rows[i]
  {
    if step.Commit? && step.w in s.batches {
      assert BatchOk(s, s.batches[step.w]);
    }
  }

  /** A delivery gives the row to the worker, with the time of its claim and one more attempt. */
  lemma {:induction false} DeliveryGivesRow(steps: seq<Step>, k: nat, i: nat)
    requires Delivers(steps, k, i)
    requires forall m :: k < m < |steps| ==> !Completes(steps, m, i) && !Fails(steps, m, i)
    ensures var before, after := TakeAll(steps[..k]), TakeAll(steps).rows;
            && i < |before.rows| && i < |after|
            && after[i] == before.rows[i].(status := Claimed, claimedBy := Some(steps[k].w),
                                           claimedAt := Some(before.BatchOf(steps[k].w)[i]),
                                           attempts := before.rows[i].attempts + 1)
    decreases |steps|
  {
    var n := |steps| - 1;
    if k == n {
      EveryRunIsSafe(steps[..k]);
      assert BatchOk(TakeAll(steps[..k]), TakeAll(steps[..k]).batches[steps[k].w]);
    } else {
      StepsBefore(steps, n, i);
      DeliveryGivesRow(steps[..n], k, i);
      EveryRunIsSafe(steps[..n]);
      assert !Completes(steps, n, i) && !Fails(steps, n, i);
      ClaimIsKept(TakeAll(steps[..n]), steps[n], i);
    }
  }

  /** The calls of a prefix are those of the run. */
  lemma StepsBefore(steps: seq<Step>, n: nat, i: nat)
    requires n <= |steps|
    ensures forall m :: 0 <= m < n ==> steps[..n][..m] == steps[..m]
    ensures forall m :: 0 <= m < n ==> (Completes(steps[..n], m, i) <==> Completes(steps, m, i))
    ensures forall m :: 0 <= m < n ==> (Fails(steps[..n], m, i) <==> Fails(steps, m, i))
    ensures forall m :: 0 <= m < n ==> (Delivers(steps[..n], m, i) <==> Delivers(steps, m, i))
  {
    assert forall m :: 0 <= m < n ==> steps[..n][..m] == steps[..m];
  }

  /** The error of a row is that of its last failure, whatever happens to the row afterwards. */
  lemma {:induction false} LastErrorIsOfLastFailure(steps: seq<Step>, k: nat, i: nat)
    requires Fails(steps, k, i) && forall m :: k < m < |steps| ==> !Fails(steps, m, i)
    ensures i < |TakeAll(steps).rows| && TakeAll(steps).rows[i].lastError == Some(steps[k].error)
    decreases |steps|
  {
    PrefixOfPrefix(steps, k);
    var n := |steps| - 1;
    if k == n {
      assert steps[..k + 1] == steps;
    } else {
      StepsBefore(steps, n, i);
      LastErrorIsOfLastFailure(steps[..n], k, i);
      assert !Fails(steps, n, i);
    }
  }

  /** A row that has never failed has no error. */
  lemma {:induction false} NoErrorWithoutFailure(steps: seq<Step>, i: nat)
    requires i < |TakeAll(steps).rows| && Failures(steps, i) == 0
    ensures TakeAll(steps).rows[i].lastError == None
  {
    var n := |steps| - 1;
    if i < |TakeAll(steps[..n]).rows| {
      NoErrorWithoutFailure(steps[..n], i);
    }
  }

  /** A row keeps the event, the time and the limit with which it was published. */
  lemma {:induction false} PublishedDataStays(steps: seq<Step>, k: nat, i: nat)
    requires k < |steps| && steps[k].Publish? && |TakeAll(steps[..k]).rows| == i
    ensures var rows := TakeAll(steps).rows;
            && i < |rows| && rows[i].event == steps[k].event && rows[i].createdAt == steps[k].createdAt
            && rows[i].maxAttempts == steps[k].maxAttempts
    decreases |steps|
  {
    PrefixOfPrefix(steps, k);
    var n := |steps| - 1;
    if k == n {
      assert steps[..k + 1] == steps;
    } else {
      assert steps[..n][..k] == steps[..k];
      PublishedDataStays(steps[..n], k, i);
    }
  }
}
