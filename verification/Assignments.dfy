/**
 Assigning recipients to mailboxes with a capacity per mailbox, where no recipient may be
 served by a mailbox of its own domain.  This is the combinatorial core of the send-budget
 allocator: what first-fit achieves against every other assignment.
 */
module Assignments {
  import opened Wrappers

  /** One entry a recipient, in order: the position of its mailbox, or None when it is left out. */
  type Assignment = seq<Option<nat>>

  /** The available mailboxes, in the order in which first-fit tries them. */
  datatype Pool = Pool(capacity: seq<nat>, domain: seq<string>) {
    ghost predicate WellFormed() {
      |capacity| == |domain|
    }
  }

  function Load(a: Assignment, m: nat): nat {
    if a == [] then 0
    else Load(a[..|a| - 1], m) + (if a[|a| - 1] == Some(m) then 1 else 0)
  }

  function Served(a: Assignment): nat {
    if a == [] then 0
    else Served(a[..|a| - 1]) + (if a[|a| - 1].Some? then 1 else 0)
  }

  /** How many recipients are served by one of the mailboxes in `ms`. */
  ghost function ServedBy(a: Assignment, ms: set<nat>): nat {
    if a == [] then 0
    else ServedBy(a[..|a| - 1], ms) + (if a[|a| - 1].Some? && a[|a| - 1].value in ms then 1 else 0)
  }

  /** The first `n` mailbox positions. */
  ghost function First(n: nat): (ms: set<nat>)
    ensures forall m: nat :: m in ms <==> m < n
  {
    if n == 0 then {} else First(n - 1) + {n - 1}
  }

  function TotalCapacity(capacity: seq<nat>): nat {
    if capacity == [] then 0 else TotalCapacity(capacity[..|capacity| - 1]) + capacity[|capacity| - 1]
  }

  // ---- what an assignment must satisfy -------------------------------------------------

  /** Every served recipient has a mailbox of another domain, and no mailbox exceeds its capacity. */
  ghost predicate Valid(a: Assignment, pool: Pool, recipients: seq<string>) {
    && pool.WellFormed()
    && |a| == |recipients|
    && (forall i :: 0 <= i < |a| && a[i].Some? ==>
          a[i].value < |pool.domain| && pool.domain[a[i].value] != recipients[i])
    && (forall m: nat :: m < |pool.capacity| ==> Load(a, m) <= pool.capacity[m])
  }

  ghost predicate Full(a: Assignment, pool: Pool, m: nat) {
    m < |pool.capacity| && Load(a, m) == pool.capacity[m]
  }

  /** Every mailbox is full or shares the domain of each recipient that was left out. */
  ghost predicate Maximal(a: Assignment, pool: Pool, recipients: seq<string>) {
    && pool.WellFormed()
    && |a| == |recipients|
    && (forall i, m: nat {:trigger a[i], Full(a, pool, m)} :: 0 <= i < |a| && a[i].None? && m < |pool.domain| ==>
          pool.domain[m] == recipients[i] || Full(a, pool, m))
  }

  ghost predicate Optimal(a: Assignment, pool: Pool, recipients: seq<string>) {
    forall b: Assignment :: Valid(b, pool, recipients) ==> Served(b) <= Served(a)
  }

  // ---- first fit ------------------------------------------------------------------------

  /** The first mailbox from position `m` on that has capacity left and another domain. */
  function FirstFit(pool: Pool, a: Assignment, recipient: string, m: nat): (r: Option<nat>)
    requires pool.WellFormed() && m <= |pool.domain|
    ensures r.Some? ==>
              && m <= r.value < |pool.domain| && pool.domain[r.value] != recipient
              && Load(a, r.value) < pool.capacity[r.value]
    ensures forall k: nat :: m <= k < (if r.Some? then r.value else |pool.domain|) ==>
                               pool.domain[k] == recipient || Load(a, k) >= pool.capacity[k]
    decreases |pool.domain| - m
  {
    if m == |pool.domain| then None
    else if Load(a, m) < pool.capacity[m] && pool.domain[m] != recipient then Some(m)
    else FirstFit(pool, a, recipient, m + 1)
  }

  function Greedy(pool: Pool, recipients: seq<string>): (a: Assignment)
    requires pool.WellFormed()
    ensures |a| == |recipients|
  {
    if recipients == [] then []
    else
      var a := Greedy(pool, recipients[..|recipients| - 1]);
      a + [FirstFit(pool, a, recipients[|recipients| - 1], 0)]
  }

  lemma LoadOfAppend(a: Assignment, x: Option<nat>, m: nat)
    ensures Load(a + [x], m) == Load(a, m) + (if x == Some(m) then 1 else 0)
    ensures Served(a + [x]) == Served(a) + (if x.Some? then 1 else 0)
  {
    assert (a + [x])[..|a|] == a;
  }

  lemma {:induction false} GreedyIsValidAndMaximal(pool: Pool, recipients: seq<string>)
    requires pool.WellFormed()
    ensures Valid(Greedy(pool, recipients), pool, recipients)
    ensures Maximal(Greedy(pool, recipients), pool, recipients)
  {
    if recipients != [] {
      var n := |recipients| - 1;
      var a := Greedy(pool, recipients[..n]);
      var x := FirstFit(pool, a, recipients[n], 0);
      GreedyIsValidAndMaximal(pool, recipients[..n]);
      forall m: nat | m < |pool.domain|
        ensures Load(a + [x], m) <= pool.capacity[m]
        ensures Full(a, pool, m) ==> Full(a + [x], pool, m)
        ensures x.None? ==> pool.domain[m] == recipients[n] || Full(a + [x], pool, m)
      {
        LoadOfAppend(a, x, m);
      }
      assert Maximal(a + [x], pool, recipients) by {
        forall i, m: nat | 0 <= i < |a + [x]| && (a + [x])[i].None? && m < |pool.domain|
          ensures pool.domain[m] == recipients[i] || Full(a + [x], pool, m)
        {
          if i < n {
            assert a[i].None?;
            assert pool.domain[m] == recipients[..n][i] || Full(a, pool, m);
          }
        }
      }
    }
  }

  // ---- counting -------------------------------------------------------------------------

  lemma {:induction false} ServedBySplits(a: Assignment, ms: set<nat>, m: nat)
    requires m in ms
    ensures ServedBy(a, ms) == Load(a, m) + ServedBy(a, ms - {m})
  {
    if a != [] {
      ServedBySplits(a[..|a| - 1], ms, m);
    }
  }

  lemma {:induction false} ServedByNone(a: Assignment)
    ensures ServedBy(a, {}) == 0
  {
    if a != [] {
      ServedByNone(a[..|a| - 1]);
    }
  }

  /** Pointwise smaller loads serve no more recipients. */
  lemma {:induction false} LoadsBoundServedBy(a: Assignment, b: Assignment, ms: set<nat>)
    requires forall m: nat :: m in ms ==> Load(a, m) <= Load(b, m)
    ensures ServedBy(a, ms) <= ServedBy(b, ms)
  {
    if ms == {} {
      ServedByNone(a);
      ServedByNone(b);
    } else {
      var m :| m in ms;
      ServedBySplits(a, ms, m);
      ServedBySplits(b, ms, m);
      LoadsBoundServedBy(a, b, ms - {m});
    }
  }

  lemma {:induction false} ServedIsServedByAll(a: Assignment, ms: set<nat>)
    requires forall i :: 0 <= i < |a| && a[i].Some? ==> a[i].value in ms
    ensures Served(a) == ServedBy(a, ms)
  {
    if a != [] {
      ServedIsServedByAll(a[..|a| - 1], ms);
    }
  }

  /** A mailbox with a positive load serves some recipient. */
  lemma {:induction false} LoadHasWitness(a: Assignment, m: nat) returns (i: nat)
    requires Load(a, m) > 0
    ensures i < |a| && a[i] == Some(m)
  {
    if a[|a| - 1] == Some(m) {
      i := |a| - 1;
    } else {
      i := LoadHasWitness(a[..|a| - 1], m);
    }
  }

  // ---- half of the optimum --------------------------------------------------------------

  /** `b` on the recipients that `a` leaves out. */
  ghost function Missed(a: Assignment, b: Assignment): (r: Assignment)
    requires |a| == |b|
    ensures |r| == |a|
  {
    seq(|a|, i requires 0 <= i < |a| => if a[i].None? then b[i] else None)
  }

  lemma {:induction false} MissedCounts(a: Assignment, b: Assignment, m: nat)
    requires |a| == |b|
    ensures Served(b) <= Served(a) + Served(Missed(a, b))
    ensures Load(Missed(a, b), m) <= Load(b, m)
  {
    if a != [] {
      var n := |a| - 1;
      MissedCounts(a[..n], b[..n], m);
      assert Missed(a, b)[..n] == Missed(a[..n], b[..n]);
    }
  }

  /** No assignment serves more than twice as many recipients as a maximal one. */
  lemma MaximalServesHalf(a: Assignment, b: Assignment, pool: Pool, recipients: seq<string>)
    requires Valid(a, pool, recipients) && Maximal(a, pool, recipients)
    requires Valid(b, pool, recipients)
    ensures Served(b) <= 2 * Served(a)
  {
    var r := Missed(a, b);
    var ms := First(|pool.capacity|);
    forall m: nat | m in ms
      ensures Load(r, m) <= Load(a, m)
    {
      MissedCounts(a, b, m);
      if Load(r, m) > 0 {
        var i := LoadHasWitness(r, m);
        assert a[i].None? && b[i] == Some(m);
        assert pool.domain[m] == recipients[i] || Full(a, pool, m);
      }
    }
    LoadsBoundServedBy(r, a, ms);
    ServedIsServedByAll(r, ms);
    ServedIsServedByAll(a, ms);
    MissedCounts(a, b, 0);
  }

  /** The promise of the allocator: first fit serves at least half of what any assignment serves. */
  lemma GreedyServesHalf(pool: Pool, recipients: seq<string>, b: Assignment)
    requires Valid(b, pool, recipients)
    ensures Served(b) <= 2 * Served(Greedy(pool, recipients))
  {
    GreedyIsValidAndMaximal(pool, recipients);
    MaximalServesHalf(Greedy(pool, recipients), b, pool, recipients);
  }

  lemma GreedyStep(pool: Pool, recipients: seq<string>, recipient: string)
    requires pool.WellFormed()
    ensures var a := Greedy(pool, recipients);
            Greedy(pool, recipients + [recipient]) == a + [FirstFit(pool, a, recipient, 0)]
  {
    assert (recipients + [recipient])[..|recipients|] == recipients;
  }

  /** The only mailbox of another domain is taken. */
  lemma BothMailboxesClosed(pool: Pool, a: Assignment, recipient: string)
    requires |pool.capacity| == |pool.domain| == 2 && pool.domain[1] == recipient && Load(a, 0) >= pool.capacity[0]
    ensures FirstFit(pool, a, recipient, 0) == None
  {
    assert FirstFit(pool, a, recipient, 2) == None;
    assert FirstFit(pool, a, recipient, 1) == None;
  }

  /** One half is the best factor: the first recipient takes the only mailbox that could serve the second. */
  lemma HalfIsTight(a: string, b: string, c: string)
    requires a != b && a != c && b != c
    ensures var pool := Pool([1, 1], [a, b]);
            && Served(Greedy(pool, [c, b])) == 1
            && Valid([Some(1), Some(0)], pool, [c, b])
            && Served([Some(1), Some(0)]) == 2
  {
    var pool := Pool([1, 1], [a, b]);
    GreedyStep(pool, [], c);
    GreedyStep(pool, [c], b);
    assert [] + [c] == [c] && [c] + [b] == [c, b];
    LoadOfAppend([], Some(0), 0);
    assert [] + [Some(0)] == [Some(0)] == Greedy(pool, [c]);
    BothMailboxesClosed(pool, [Some(0)], b);
    LoadOfAppend([Some(0)], None, 0);
    assert Greedy(pool, [c, b]) == [Some(0)] + [None];
    forall m: nat
      ensures Served([Some(1), Some(0)]) == 2 && Load([Some(1), Some(0)], m) <= 1
    {
      LoadOfPair(1, 0, m);
    }
  }

  lemma LoadOfPair(x: nat, y: nat, m: nat)
    ensures Served([Some(x), Some(y)]) == 2
    ensures Load([Some(x), Some(y)], m) == (if x == m then 1 else 0) + (if y == m then 1 else 0)
  {
    var none: Assignment := [];
    var one: Assignment := [Some(x)];
    assert none + [Some(x)] == one && one + [Some(y)] == [Some(x), Some(y)];
    LoadOfAppend(none, Some(x), m);
    LoadOfAppend(one, Some(y), m);
  }

  // ---- exactly when it is optimal ----------------------------------------------------------

  /** `u` was left out, yet moving `r` to the spare mailbox `m` of `u`'s domain frees a mailbox for `u`. */
  ghost predicate Swap(a: Assignment, pool: Pool, recipients: seq<string>, u: nat, r: nat, m: nat)
    requires Valid(a, pool, recipients)
  {
    && u < |a| && r < |a| && m < |pool.domain|
    && a[u].None? && a[r].Some?
    && recipients[r] != recipients[u]
    && pool.domain[a[r].value] != recipients[u]
    && pool.domain[m] == recipients[u] && Load(a, m) < pool.capacity[m]
  }

  lemma {:induction false} LoadOfUpdate(a: Assignment, i: nat, x: Option<nat>, m: nat)
    requires i < |a|
    ensures Load(a[i := x], m) == Load(a, m) - (if a[i] == Some(m) then 1 else 0) + (if x == Some(m) then 1 else 0)
    ensures Served(a[i := x]) == Served(a) - (if a[i].Some? then 1 else 0) + (if x.Some? then 1 else 0)
  {
    var n := |a| - 1;
    if i < n {
      LoadOfUpdate(a[..n], i, x, m);
      assert a[i := x][..n] == a[..n][i := x];
    } else {
      assert a[i := x][..n] == a[..n];
    }
  }

  lemma SwapServesOneMore(a: Assignment, pool: Pool, recipients: seq<string>, u: nat, r: nat, m: nat)
    returns (b: Assignment)
    requires Valid(a, pool, recipients) && Swap(a, pool, recipients, u, r, m)
    ensures Valid(b, pool, recipients) && Served(b) == Served(a) + 1
  {
    var k := a[r].value;
    var c := a[r := Some(m)];
    b := c[u := Some(k)];
    forall j: nat | j < |pool.capacity|
      ensures Load(b, j) <= pool.capacity[j]
    {
      LoadOfUpdate(a, r, Some(m), j);
      LoadOfUpdate(c, u, Some(k), j);
    }
    LoadOfUpdate(a, r, Some(m), 0);
    LoadOfUpdate(c, u, Some(k), 0);
  }

  /** Serving pointwise on `ms` whenever the other one does serves at least as many there. */
  lemma {:induction false} PointwiseBoundsServedBy(a: Assignment, b: Assignment, ms: set<nat>)
    requires |a| == |b|
    requires forall i :: 0 <= i < |a| && a[i].Some? && a[i].value in ms ==> b[i].Some? && b[i].value in ms
    ensures ServedBy(a, ms) <= ServedBy(b, ms)
  {
    if a != [] {
      var n := |a| - 1;
      PointwiseBoundsServedBy(a[..n], b[..n], ms);
    }
  }

  lemma {:induction false} ServedByUnion(a: Assignment, ms: set<nat>, ns: set<nat>)
    requires ms !! ns
    ensures ServedBy(a, ms + ns) == ServedBy(a, ms) + ServedBy(a, ns)
  {
    if a != [] {
      ServedByUnion(a[..|a| - 1], ms, ns);
    }
  }

  lemma FullIsOptimal(a: Assignment, b: Assignment, pool: Pool, recipients: seq<string>)
    requires Valid(a, pool, recipients) && Valid(b, pool, recipients)
    requires forall m: nat :: m < |pool.capacity| ==> Full(a, pool, m)
    ensures Served(b) <= Served(a)
  {
    var ms := First(|pool.capacity|);
    assert forall m: nat :: m in ms ==> Full(a, pool, m);
    LoadsBoundServedBy(b, a, ms);
    ServedIsServedByAll(a, ms);
    ServedIsServedByAll(b, ms);
  }

  /** Without a swap, the mailboxes of the left-out domain serve everyone they may, and the others are full. */
  lemma NoSwapIsOptimal(a: Assignment, b: Assignment, pool: Pool, recipients: seq<string>, u: nat)
    requires Valid(a, pool, recipients) && Maximal(a, pool, recipients) && Valid(b, pool, recipients)
    requires u < |a| && a[u].None?
    requires forall r: nat, m: nat :: !Swap(a, pool, recipients, u, r, m)
    ensures Served(b) <= Served(a)
  {
    var ms := First(|pool.capacity|);
    var same := set m: nat | m < |pool.domain| && pool.domain[m] == recipients[u];
    assert forall m: nat :: m in ms - same ==> Full(a, pool, m);
    if forall m: nat :: m in same ==> Full(a, pool, m) {
      assert forall m: nat :: m < |pool.capacity| ==> m in same || m in ms - same;
      FullIsOptimal(a, b, pool, recipients);
    } else {
      var m :| m in same && !Full(a, pool, m);
      forall i | 0 <= i < |b| && b[i].Some? && b[i].value in same
        ensures a[i].Some? && a[i].value in same
      {
        assert a[i].Some?;
        assert !Swap(a, pool, recipients, u, i, m);
      }
      PointwiseBoundsServedBy(b, a, same);
      LoadsBoundServedBy(b, a, ms - same);
      ServedByUnion(a, same, ms - same);
      ServedByUnion(b, same, ms - same);
      assert ms == same + (ms - same);
    }
    ServedIsServedByAll(a, ms);
    ServedIsServedByAll(b, ms);
  }

  lemma AllServedIsOptimal(a: Assignment, b: Assignment)
    requires |a| == |b| && forall i :: 0 <= i < |a| ==> a[i].Some?
    ensures Served(b) <= Served(a) && Served(a) == |a|
  {
    if a != [] {
      AllServedIsOptimal(a[..|a| - 1], b[..|b| - 1]);
    }
  }

  /** First fit is optimal exactly when no single swap would serve one more recipient. */
  lemma GreedyOptimalIffNoSwap(pool: Pool, recipients: seq<string>)
    requires pool.WellFormed()
    ensures Valid(Greedy(pool, recipients), pool, recipients)
    ensures Optimal(Greedy(pool, recipients), pool, recipients) <==>
            !exists u: nat, r: nat, m: nat :: Swap(Greedy(pool, recipients), pool, recipients, u, r, m)
  {
    GreedyIsValidAndMaximal(pool, recipients);
    var a := Greedy(pool, recipients);
    if u: nat, r: nat, m: nat :| Swap(a, pool, recipients, u, r, m) {
      var b := SwapServesOneMore(a, pool, recipients, u, r, m);
    } else {
      forall b: Assignment | Valid(b, pool, recipients)
        ensures Served(b) <= Served(a)
      {
        if u: nat :| u < |a| && a[u].None? {
          NoSwapIsOptimal(a, b, pool, recipients, u);
        } else {
          AllServedIsOptimal(a, b);
        }
      }
    }
  }

  /** Two recipients of different domains left out: every mailbox is full, and nobody could do better. */
  lemma TwoDomainsLeftOutIsOptimal(pool: Pool, recipients: seq<string>, u: nat, v: nat)
    requires pool.WellFormed() && u < |recipients| && v < |recipients| && recipients[u] != recipients[v]
    requires Greedy(pool, recipients)[u].None? && Greedy(pool, recipients)[v].None?
    ensures forall m: nat :: m < |pool.capacity| ==> Full(Greedy(pool, recipients), pool, m)
    ensures Optimal(Greedy(pool, recipients), pool, recipients)
  {
    GreedyIsValidAndMaximal(pool, recipients);
    var a := Greedy(pool, recipients);
    forall m: nat | m < |pool.capacity|
      ensures Full(a, pool, m)
    {
      assert a[u].None? && a[v].None?;
      assert pool.domain[m] == recipients[u] || Full(a, pool, m);
      assert pool.domain[m] == recipients[v] || Full(a, pool, m);
    }
    forall b: Assignment | Valid(b, pool, recipients)
      ensures Served(b) <= Served(a)
    {
      FullIsOptimal(a, b, pool, recipients);
    }
  }

  /** Within the capacities, at most the total capacity is served; a full pool serves exactly that. */
  lemma {:induction false} CapacityBoundsServed(a: Assignment, capacity: seq<nat>)
    requires forall m: nat :: m < |capacity| ==> Load(a, m) <= capacity[m]
    ensures ServedBy(a, First(|capacity|)) <= TotalCapacity(capacity)
    ensures (forall m: nat :: m < |capacity| ==> Load(a, m) == capacity[m]) ==>
              ServedBy(a, First(|capacity|)) == TotalCapacity(capacity)
  {
    if capacity == [] {
      ServedByNone(a);
    } else {
      var n := |capacity| - 1;
      CapacityBoundsServed(a, capacity[..n]);
      ServedBySplits(a, First(|capacity|), n);
      assert First(|capacity|) - {n} == First(n);
    }
  }

  lemma {:induction false} ServedAtMostAll(a: Assignment)
    ensures Served(a) <= |a|
  {
    if a != [] {
      ServedAtMostAll(a[..|a| - 1]);
    }
  }

  /** When no recipient shares a domain with a mailbox, first fit fills up: min(recipients, capacity). */
  lemma NoClashServesAllItCan(pool: Pool, recipients: seq<string>)
    requires pool.WellFormed()
    requires forall i, m :: 0 <= i < |recipients| && 0 <= m < |pool.domain| ==> recipients[i] != pool.domain[m]
    ensures Served(Greedy(pool, recipients)) ==
            if |recipients| <= TotalCapacity(pool.capacity) then |recipients| else TotalCapacity(pool.capacity)
  {
    GreedyIsValidAndMaximal(pool, recipients);
    var a := Greedy(pool, recipients);
    ServedIsServedByAll(a, First(|pool.capacity|));
    CapacityBoundsServed(a, pool.capacity);
    ServedAtMostAll(a);
    if u: nat :| u < |a| && a[u].None? {
      assert forall m: nat :: m < |pool.capacity| ==> recipients[u] != pool.domain[m] && Full(a, pool, m);
    } else {
      AllServedIsOptimal(a, a);
    }
  }

  // ---- the dry run ------------------------------------------------------------------------

  function FirstOtherDomain(pool: Pool, recipient: string, m: nat): (r: Option<nat>)
    requires m <= |pool.domain|
    ensures r.Some? ==> m <= r.value < |pool.domain| && pool.domain[r.value] != recipient
    ensures forall k: nat :: m <= k < (if r.Some? then r.value else |pool.domain|) ==> pool.domain[k] == recipient
    decreases |pool.domain| - m
  {
    if m == |pool.domain| then None
    else if pool.domain[m] != recipient then Some(m)
    else FirstOtherDomain(pool, recipient, m + 1)
  }

  /** A dry run never counts what it hands out, so capacities do not bind. */
  function DryRun(pool: Pool, recipients: seq<string>): (a: Assignment)
    ensures |a| == |recipients|
  {
    if recipients == [] then []
    else DryRun(pool, recipients[..|recipients| - 1]) + [FirstOtherDomain(pool, recipients[|recipients| - 1], 0)]
  }

  /** A dry run serves exactly the recipients some mailbox does not share a domain with: a superset. */
  lemma {:induction false} DryRunServesSuperset(pool: Pool, recipients: seq<string>, i: nat)
    requires pool.WellFormed() && i < |recipients|
    ensures DryRun(pool, recipients)[i].Some? <==> exists m :: 0 <= m < |pool.domain| && pool.domain[m] != recipients[i]
    ensures Greedy(pool, recipients)[i].Some? ==> DryRun(pool, recipients)[i].Some?
  {
    var n := |recipients| - 1;
    if i < n {
      DryRunServesSuperset(pool, recipients[..n], i);
    }
  }
}
