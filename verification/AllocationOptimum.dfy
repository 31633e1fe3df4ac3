/**
 The optimum that any allocation can reach, in closed form: a min-max theorem for assigning
 recipients to mailboxes of other domains (workers/send/mailbox_orchestrator.py).
 */
module AllocationOptimum {
  import opened Wrappers
  import opened Assignments

  /** How many recipients have domain `d`. */
  function Count(recipients: seq<string>, d: string): nat {
    if recipients == [] then 0
    else Count(recipients[..|recipients| - 1], d) + (if recipients[|recipients| - 1] == d then 1 else 0)
  }

  /** Of the first `n` mailboxes, those of other domains than `d`, which alone may serve recipients of domain `d`. */
  ghost function Outside(pool: Pool, d: string, n: nat): (ms: set<nat>)
    requires n <= |pool.domain|
    ensures forall m: nat :: m in ms <==> m < n && pool.domain[m] != d
  {
    if n == 0 then {} else Outside(pool, d, n - 1) + (if pool.domain[n - 1] != d then {n - 1} else {})
  }

  function CapacityOutside(pool: Pool, d: string, n: nat): nat
    requires pool.WellFormed() && n <= |pool.domain|
  {
    if n == 0 then 0
    else CapacityOutside(pool, d, n - 1) + (if pool.domain[n - 1] != d then pool.capacity[n - 1] else 0)
  }

  function Min(x: int, y: int): int {
    if x <= y then x else y
  }

  /** At most everybody of the other domains is served, and of `d` as many as the other mailboxes can take. */
  function Bound(pool: Pool, recipients: seq<string>, d: string): int
    requires pool.WellFormed()
  {
    |recipients| - Count(recipients, d) + CapacityOutside(pool, d, |pool.domain|)
  }

  function LeastBound(pool: Pool, recipients: seq<string>, k: nat): int
    requires pool.WellFormed() && k <= |recipients|
  {
    if k == 0 then Min(|recipients|, TotalCapacity(pool.capacity))
    else Min(LeastBound(pool, recipients, k - 1), Bound(pool, recipients, recipients[k - 1]))
  }

  /** The least of the number of recipients, the total capacity, and the bounds of all domains of recipients. */
  function Best(pool: Pool, recipients: seq<string>): int
    requires pool.WellFormed()
  {
    LeastBound(pool, recipients, |recipients|)
  }

  lemma {:induction false} LeastBoundIsLeast(pool: Pool, recipients: seq<string>, k: nat, x: int)
    requires pool.WellFormed() && k <= |recipients|
    ensures LeastBound(pool, recipients, k) <= |recipients|
            && LeastBound(pool, recipients, k) <= TotalCapacity(pool.capacity)
    ensures forall i :: 0 <= i < k ==> LeastBound(pool, recipients, k) <= Bound(pool, recipients, recipients[i])
    ensures x <= |recipients| && x <= TotalCapacity(pool.capacity)
            && (forall i :: 0 <= i < k ==> x <= Bound(pool, recipients, recipients[i])) ==>
              x <= LeastBound(pool, recipients, k)
  {
    if k > 0 {
      LeastBoundIsLeast(pool, recipients, k - 1, x);
    }
  }

  // ---- nobody serves more ---------------------------------------------------------------------------

  /** How many recipients of domain `d` are served. */
  ghost function ServedOf(a: Assignment, recipients: seq<string>, d: string): nat
    requires |a| == |recipients|
  {
    if a == [] then 0
    else
      var n := |a| - 1;
      ServedOf(a[..n], recipients[..n], d) + (if a[n].Some? && recipients[n] == d then 1 else 0)
  }

  /** Outside `d` at most everybody is served, and exactly that when nobody there is left out. */
  lemma {:induction false} OthersServed(a: Assignment, recipients: seq<string>, d: string)
    requires |a| == |recipients|
    ensures Served(a) <= |recipients| - Count(recipients, d) + ServedOf(a, recipients, d)
    ensures (forall i :: 0 <= i < |a| && recipients[i] != d ==> a[i].Some?) ==>
              Served(a) == |recipients| - Count(recipients, d) + ServedOf(a, recipients, d)
  {
    if a != [] {
      OthersServed(a[..|a| - 1], recipients[..|a| - 1], d);
    }
  }

  /** Mailboxes outside `d` serve all of `d` that is served, and nobody else when that is what they do. */
  lemma {:induction false} ServedOfIsServedOutside(a: Assignment, recipients: seq<string>, d: string, ms: set<nat>)
    requires |a| == |recipients|
    requires forall i :: 0 <= i < |a| && a[i].Some? && recipients[i] == d ==> a[i].value in ms
    ensures ServedOf(a, recipients, d) <= ServedBy(a, ms)
    ensures (forall i :: 0 <= i < |a| && a[i].Some? && a[i].value in ms ==> recipients[i] == d) ==>
              ServedOf(a, recipients, d) == ServedBy(a, ms)
  {
    if a != [] {
      ServedOfIsServedOutside(a[..|a| - 1], recipients[..|a| - 1], d, ms);
    }
  }

  lemma {:induction false} OutsideIsBounded(a: Assignment, pool: Pool, d: string, n: nat)
    requires pool.WellFormed() && n <= |pool.domain|
    requires forall m: nat :: m < |pool.capacity| ==> Load(a, m) <= pool.capacity[m]
    ensures ServedBy(a, Outside(pool, d, n)) <= CapacityOutside(pool, d, n)
    ensures (forall m: nat :: m in Outside(pool, d, n) ==> Full(a, pool, m)) ==>
              ServedBy(a, Outside(pool, d, n)) == CapacityOutside(pool, d, n)
  {
    if n == 0 {
      ServedByNone(a);
    } else {
      OutsideIsBounded(a, pool, d, n - 1);
      if pool.domain[n - 1] != d {
        ServedBySplits(a, Outside(pool, d, n), n - 1);
        assert Outside(pool, d, n) - {n - 1} == Outside(pool, d, n - 1);
        assert n - 1 in Outside(pool, d, n);
      } else {
        assert Outside(pool, d, n) == Outside(pool, d, n - 1);
      }
    }
  }

  lemma ServedWithinBound(b: Assignment, pool: Pool, recipients: seq<string>, d: string)
    requires Valid(b, pool, recipients)
    ensures Served(b) <= Bound(pool, recipients, d)
  {
    var ms := Outside(pool, d, |pool.domain|);
    OthersServed(b, recipients, d);
    ServedOfIsServedOutside(b, recipients, d, ms);
    OutsideIsBounded(b, pool, d, |pool.domain|);
  }

  lemma ServedWithinCapacity(b: Assignment, pool: Pool, recipients: seq<string>)
    requires Valid(b, pool, recipients)
    ensures Served(b) <= TotalCapacity(pool.capacity)
    ensures (forall m: nat :: m < |pool.capacity| ==> Full(b, pool, m)) ==> Served(b) == TotalCapacity(pool.capacity)
  {
    ServedIsServedByAll(b, First(|pool.capacity|));
    CapacityBoundsServed(b, pool.capacity);
    assert forall m: nat :: m < |pool.capacity| && Full(b, pool, m) ==> Load(b, m) == pool.capacity[m];
  }

  lemma NobodyServesMoreThanBest(b: Assignment, pool: Pool, recipients: seq<string>)
    requires Valid(b, pool, recipients)
    ensures Served(b) <= Best(pool, recipients)
  {
    ServedAtMostAll(b);
    ServedWithinCapacity(b, pool, recipients);
    forall i | 0 <= i < |recipients|
      ensures Served(b) <= Bound(pool, recipients, recipients[i])
    {
      ServedWithinBound(b, pool, recipients, recipients[i]);
    }
    LeastBoundIsLeast(pool, recipients, |recipients|, Served(b));
  }

  // ---- and an optimal assignment serves that many -------------------------------------------------------

  /** A left-out recipient that some mailbox can still take is taken. */
  lemma AddServesOneMore(a: Assignment, pool: Pool, recipients: seq<string>, u: nat, m: nat) returns (b: Assignment)
    requires Valid(a, pool, recipients) && u < |a| && a[u].None?
    requires m < |pool.domain| && pool.domain[m] != recipients[u] && !Full(a, pool, m)
    ensures Valid(b, pool, recipients) && Served(b) == Served(a) + 1
  {
    b := a[u := Some(m)];
    forall k: nat | k < |pool.capacity|
      ensures Load(b, k) <= pool.capacity[k]
    {
      LoadOfUpdate(a, u, Some(m), k);
    }
    LoadOfUpdate(a, u, Some(m), 0);
  }

  lemma OptimalIsMaximal(a: Assignment, pool: Pool, recipients: seq<string>)
    requires Valid(a, pool, recipients) && Optimal(a, pool, recipients)
    ensures Maximal(a, pool, recipients)
  {
    forall u, m: nat | 0 <= u < |a| && a[u].None? && m < |pool.domain|
      ensures pool.domain[m] == recipients[u] || Full(a, pool, m)
    {
      if pool.domain[m] != recipients[u] && !Full(a, pool, m) {
        var b := AddServesOneMore(a, pool, recipients, u, m);
      }
    }
  }

  /** With `u` left out and no swap for it, the bound of its domain is reached, or else the total capacity. */
  lemma NoSwapReachesBound(a: Assignment, pool: Pool, recipients: seq<string>, u: nat)
    requires Valid(a, pool, recipients) && Maximal(a, pool, recipients) && u < |a| && a[u].None?
    requires forall r: nat, m: nat :: !Swap(a, pool, recipients, u, r, m)
    ensures Served(a) == TotalCapacity(pool.capacity) || Served(a) == Bound(pool, recipients, recipients[u])
  {
    var d, ms := recipients[u], Outside(pool, recipients[u], |pool.domain|);
    assert forall m: nat :: m in ms ==> Full(a, pool, m);
    if m: nat :| m < |pool.domain| && pool.domain[m] == d && !Full(a, pool, m) {
      forall i: nat | i < |a| && recipients[i] != d
        ensures a[i].Some? && a[i].value !in ms
      {
        assert a[i].Some?;
        assert !Swap(a, pool, recipients, u, i, m);
      }
      OthersServed(a, recipients, d);
      ServedOfIsServedOutside(a, recipients, d, ms);
      OutsideIsBounded(a, pool, d, |pool.domain|);
    } else {
      assert forall m: nat :: m < |pool.capacity| ==> pool.domain[m] == d || m in ms;
      ServedWithinCapacity(a, pool, recipients);
    }
  }

  lemma OptimalServesBest(a: Assignment, pool: Pool, recipients: seq<string>)
    requires Valid(a, pool, recipients) && Optimal(a, pool, recipients)
    ensures Served(a) == Best(pool, recipients)
  {
    NobodyServesMoreThanBest(a, pool, recipients);
    LeastBoundIsLeast(pool, recipients, |recipients|, 0);
    OptimalIsMaximal(a, pool, recipients);
    if u: nat :| u < |a| && a[u].None? {
      forall r: nat, m: nat
        ensures !Swap(a, pool, recipients, u, r, m)
      {
        if Swap(a, pool, recipients, u, r, m) {
          var b := SwapServesOneMore(a, pool, recipients, u, r, m);
        }
      }
      NoSwapReachesBound(a, pool, recipients, u);
    } else {
      AllServedIsOptimal(a, a);
    }
  }

  /** The min-max theorem: a valid assignment is optimal exactly when it serves the least of the bounds. */
  lemma OptimalIffServesBest(a: Assignment, pool: Pool, recipients: seq<string>)
    requires Valid(a, pool, recipients)
    ensures Optimal(a, pool, recipients) <==> Served(a) == Best(pool, recipients)
  {
    if Optimal(a, pool, recipients) {
      OptimalServesBest(a, pool, recipients);
    }
    forall b: Assignment | Valid(b, pool, recipients)
      ensures Served(b) <= Best(pool, recipients)
    {
      NobodyServesMoreThanBest(b, pool, recipients);
    }
  }

  /** Every valid assignment can be improved until it serves that many. */
  lemma {:induction false} Improve(a: Assignment, pool: Pool, recipients: seq<string>) returns (b: Assignment)
    requires Valid(a, pool, recipients)
    ensures Valid(b, pool, recipients) && Served(b) == Best(pool, recipients)
    decreases |recipients| - Served(a)
  {
    OptimalIffServesBest(a, pool, recipients);
    if Served(a) == Best(pool, recipients) {
      b := a;
    } else {
      var better :| Valid(better, pool, recipients) && Served(better) > Served(a);
      ServedAtMostAll(better);
      b := Improve(better, pool, recipients);
    }
  }

  /** Some valid assignment serves that many. */
  lemma BestIsReached(pool: Pool, recipients: seq<string>) returns (b: Assignment)
    requires pool.WellFormed()
    ensures Valid(b, pool, recipients) && Served(b) == Best(pool, recipients)
  {
    GreedyIsValidAndMaximal(pool, recipients);
    b := Improve(Greedy(pool, recipients), pool, recipients);
  }

  /** First fit against the closed form: at least half of it, and optimal exactly when it reaches it. */
  lemma GreedyAgainstBest(pool: Pool, recipients: seq<string>)
    requires pool.WellFormed()
    ensures Served(Greedy(pool, recipients)) <= Best(pool, recipients) <= 2 * Served(Greedy(pool, recipients))
    ensures Optimal(Greedy(pool, recipients), pool, recipients) <==>
            Served(Greedy(pool, recipients)) == Best(pool, recipients)
  {
    GreedyIsValidAndMaximal(pool, recipients);
    OptimalIffServesBest(Greedy(pool, recipients), pool, recipients);
    NobodyServesMoreThanBest(Greedy(pool, recipients), pool, recipients);
    var b := BestIsReached(pool, recipients);
    GreedyServesHalf(pool, recipients, b);
  }
}
