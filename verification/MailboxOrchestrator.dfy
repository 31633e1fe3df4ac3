/** Mailboxes with daily and hourly caps, and the allocator that spends them (workers/send/mailbox_orchestrator.py). */
module MailboxOrchestrator {
  import opened Wrappers
  import opened Text
  import opened Sorting
  import opened Assignments

  datatype Status = Active | Paused | Warming | Unhealthy

  /** What `allocate` reads and writes of a mailbox. */
  datatype Counters = Counters(dailyCap: int, hourlyCap: int, sentToday: int, sentThisHour: int) {
    function Use(n: int): Counters {
      this.(sentToday := sentToday + n, sentThisHour := sentThisHour + n)
    }

    /** How many more messages both caps allow. */
    function Room(): nat {
      var day, hour := dailyCap - sentToday, hourlyCap - sentThisHour;
      if day <= 0 || hour <= 0 then 0 else if day <= hour then day else hour
    }
  }

  class Mailbox {
    const id: string
    const email: string
    var status: Status
    var healthScore: real
    var dailyCap: int
    var hourlyCap: int
    var sentToday: int
    var sentThisHour: int
    var spfOk: bool
    var dkimOk: bool
    var dmarcOk: bool
    var tlsOk: bool

    constructor (id: string, email: string)
      ensures this.id == id && this.email == email && CanSend()
      ensures status == Active && healthScore == 1.0 && spfOk && dkimOk && dmarcOk && tlsOk
      ensures dailyCap == 50 && hourlyCap == 10 && sentToday == sentThisHour == 0
    {
      this.id, this.email := id, email;
      status, healthScore := Active, 1.0;
      dailyCap, hourlyCap, sentToday, sentThisHour := 50, 10, 0, 0;
      spfOk, dkimOk, dmarcOk, tlsOk := true, true, true, true;
    }

    predicate DnsReady()
      reads this
    {
      spfOk && dkimOk && dmarcOk && tlsOk
    }

    predicate CanSend()
      reads this
    {
      && status == Active
      && healthScore >= 0.5
      && sentToday < dailyCap
      && sentThisHour < hourlyCap
      && DnsReady()
    }

    /** The sort key of `get_available`: healthiest first, then the least used today. */
    function SortKey(): Key
      reads this
    {
      Key(-healthScore, sentToday as real)
    }

    function Usage(): Counters
      reads this
    {
      Counters(dailyCap, hourlyCap, sentToday, sentThisHour)
    }
  }

  datatype SendAllocation = SendAllocation(mailboxId: string, mailboxEmail: string, recipient: string, dryRun: bool)

  datatype AllocationResult = AllocationResult(allocations: seq<SendAllocation>, unallocated: seq<string>,
                                               reason: string)

  ghost predicate DistinctIds(ms: seq<Mailbox>) {
    forall p, q :: 0 <= p < q < |ms| ==> ms[p].id != ms[q].id
  }

  /** The first position of an id, or the length of the list. */
  function PositionOf(ms: seq<Mailbox>, id: string): (p: nat)
    ensures p <= |ms| && (p < |ms| ==> ms[p].id == id)
    ensures forall q :: 0 <= q < p ==> ms[q].id != id
  {
    if ms == [] || ms[0].id == id then 0 else 1 + PositionOf(ms[1..], id)
  }

  /** Assigning to a dictionary: a known id keeps its place, a new one goes last. */
  function Put(r: seq<Mailbox>, m: Mailbox): (s: seq<Mailbox>) {
    var p := PositionOf(r, m.id);
    if p < |r| then r[p := m] else r + [m]
  }

  lemma PutKeepsDistinct(r: seq<Mailbox>, m: Mailbox)
    requires DistinctIds(r)
    ensures DistinctIds(Put(r, m)) && m in Put(r, m)
    ensures forall x :: x in Put(r, m) <==> x == m || (x in r && x.id != m.id)
  {
    var p := PositionOf(r, m.id);
    if p < |r| {
      assert r[p := m][p] == m;
      forall x | x in r && x.id != m.id
        ensures x in r[p := m]
      {
        var q :| 0 <= q < |r| && r[q] == x;
        assert r[p := m][q] == x;
      }
    }
  }

  /** `{m.id: m for m in ms}` in insertion order. */
  function ById(ms: seq<Mailbox>): seq<Mailbox> {
    if ms == [] then [] else Put(ById(ms[..|ms| - 1]), ms[|ms| - 1])
  }

  lemma {:induction false} ByIdIsDistinct(ms: seq<Mailbox>)
    ensures DistinctIds(ById(ms))
  {
    if ms != [] {
      ByIdIsDistinct(ms[..|ms| - 1]);
      PutKeepsDistinct(ById(ms[..|ms| - 1]), ms[|ms| - 1]);
    }
  }

  /** `m` is listed at `p`, and no later mailbox has its id. */
  ghost predicate LastAt(ms: seq<Mailbox>, m: Mailbox, p: nat) {
    p < |ms| && ms[p] == m && forall q :: p < q < |ms| ==> ms[q].id != m.id
  }

  lemma LastOfOneMore(ms: seq<Mailbox>, m: Mailbox)
    requires ms != []
    ensures var n := |ms| - 1;
            (exists p: nat :: LastAt(ms, m, p)) <==>
            m == ms[n] || (m.id != ms[n].id && exists p: nat :: LastAt(ms[..n], m, p))
  {
    var n := |ms| - 1;
    assert ms[n] == m ==> LastAt(ms, m, n);
    if p: nat :| LastAt(ms[..n], m, p) {
      assert m.id != ms[n].id ==> LastAt(ms, m, p);
    }
    if p: nat :| LastAt(ms, m, p) {
      assert p < n ==> LastAt(ms[..n], m, p);
    }
  }

  /** One mailbox an id is kept: the last one that came with it. */
  lemma {:induction false} ByIdKeepsTheLast(ms: seq<Mailbox>, m: Mailbox)
    ensures m in ById(ms) <==> exists p: nat :: LastAt(ms, m, p)
  {
    if ms != [] {
      var n := |ms| - 1;
      ByIdKeepsTheLast(ms[..n], m);
      ByIdIsDistinct(ms[..n]);
      PutKeepsDistinct(ById(ms[..n]), ms[n]);
      LastOfOneMore(ms, m);
    }
  }

  lemma {:induction false} PositionOfPrefix(ms: seq<Mailbox>, m: Mailbox, id: string)
    ensures PositionOf(ms + [m], id) == if PositionOf(ms, id) < |ms| || m.id == id then PositionOf(ms, id)
                                        else |ms| + 1
  {
    if ms != [] {
      assert (ms + [m])[1..] == ms[1..] + [m];
      PositionOfPrefix(ms[1..], m, id);
    }
  }

  /** Positions in one list come in the order of those in another, where all of them are. */
  ghost predicate KeepsPlaces(r: seq<Mailbox>, ms: seq<Mailbox>) {
    && (forall p :: 0 <= p < |r| ==> PositionOf(ms, r[p].id) < |ms|)
    && (forall p, q :: 0 <= p < q < |r| ==> PositionOf(ms, r[p].id) < PositionOf(ms, r[q].id))
  }

  lemma PutKeepsPlaces(r: seq<Mailbox>, ms: seq<Mailbox>, m: Mailbox)
    requires KeepsPlaces(r, ms)
    requires PositionOf(r, m.id) < |r| <==> PositionOf(ms, m.id) < |ms|
    ensures KeepsPlaces(Put(r, m), ms + [m])
  {
    var s := Put(r, m);
    forall p | 0 <= p < |s|
      ensures PositionOf(ms + [m], s[p].id) == if p < |r| then PositionOf(ms, r[p].id) else |ms|
    {
      PositionOfPrefix(ms, m, s[p].id);
    }
  }

  /** The mailboxes of the dictionary stand in the order in which their ids first came. */
  lemma {:induction false} ByIdKeepsOrder(ms: seq<Mailbox>)
    ensures KeepsPlaces(ById(ms), ms)
    ensures forall id :: PositionOf(ById(ms), id) < |ById(ms)| <==> PositionOf(ms, id) < |ms|
  {
    if ms != [] {
      var n := |ms| - 1;
      ByIdKeepsOrder(ms[..n]);
      assert ms == ms[..n] + [ms[n]];
      PutKeepsPlaces(ById(ms[..n]), ms[..n], ms[n]);
      forall id
        ensures PositionOf(ById(ms), id) < |ById(ms)| <==> PositionOf(ms, id) < |ms|
      {
        PositionOfPrefix(ms[..n], ms[n], id);
        KnownAfterPut(ById(ms[..n]), ms[n], id);
      }
    }
  }

  lemma KnownAfterPut(r: seq<Mailbox>, m: Mailbox, id: string)
    ensures PositionOf(Put(r, m), id) < |Put(r, m)| <==> PositionOf(r, id) < |r| || m.id == id
  {
    var p, s := PositionOf(r, m.id), Put(r, m);
    PositionOfPrefix(r, m, id);
    if p < |r| {
      assert forall q :: 0 <= q < |r| ==> s[q].id == r[q].id;
    }
  }

  function Ready(ms: seq<Mailbox>): (r: seq<Mailbox>)
    reads ms
    ensures forall m :: m in r ==> m in ms && m.CanSend()
    ensures forall m :: m in ms && m.CanSend() ==> m in r
    ensures DistinctIds(ms) ==> DistinctIds(r)
  {
    if ms == [] then []
    else
      var n := |ms| - 1;
      assert ms == ms[..n] + [ms[n]];
      var r := Ready(ms[..n]);
      if ms[n].CanSend() then
        assert forall p :: 0 <= p < |r| ==> r[p] in r;
        r + [ms[n]]
      else r
  }

  function Keys(ms: seq<Mailbox>): (r: seq<Key>)
    reads ms
    ensures |r| == |ms|
    ensures forall p :: 0 <= p < |ms| ==> r[p] == ms[p].SortKey()
  {
    if ms == [] then [] else Keys(ms[..|ms| - 1]) + [ms[|ms| - 1].SortKey()]
  }

  function AllCounters(ms: seq<Mailbox>): (r: seq<Counters>)
    reads ms
    ensures |r| == |ms|
    ensures forall p :: 0 <= p < |ms| ==> r[p] == ms[p].Usage()
  {
    if ms == [] then [] else AllCounters(ms[..|ms| - 1]) + [ms[|ms| - 1].Usage()]
  }

  /** The pool that mailboxes form when their counters stand at `counters`. */
  function PoolWith(ms: seq<Mailbox>, counters: seq<Counters>): (pool: Pool)
    requires |counters| == |ms|
    ensures pool.WellFormed() && |pool.domain| == |ms|
  {
    Pool(seq(|ms|, p requires 0 <= p < |ms| => counters[p].Room()),
         seq(|ms|, p requires 0 <= p < |ms| => DomainOf(ms[p].email)))
  }

  function Domains(recipients: seq<string>): (r: seq<string>)
    ensures |r| == |recipients|
  {
    seq(|recipients|, i requires 0 <= i < |recipients| => DomainOf(recipients[i]))
  }

  /** The assignment that `allocate` carries out. */
  function Plan(pool: Pool, recipients: seq<string>, dryRun: bool): (a: Assignment)
    requires pool.WellFormed()
    ensures |a| == |recipients|
  {
    if dryRun then DryRun(pool, Domains(recipients)) else Greedy(pool, Domains(recipients))
  }

  ghost predicate Uses(a: Assignment, n: nat) {
    forall i :: 0 <= i < |a| && a[i].Some? ==> a[i].value < n
  }

  function Allocations(available: seq<Mailbox>, recipients: seq<string>, a: Assignment,
                       dryRun: bool): seq<SendAllocation>
    requires |a| == |recipients| && Uses(a, |available|)
  {
    if a == [] then []
    else
      var n := |a| - 1;
      var rest := Allocations(available, recipients[..n], a[..n], dryRun);
      if a[n].None? then rest
      else rest + [SendAllocation(available[a[n].value].id, available[a[n].value].email, recipients[n], dryRun)]
  }

  function LeftOut(recipients: seq<string>, a: Assignment): seq<string>
    requires |a| == |recipients|
  {
    if a == [] then []
    else
      var n := |a| - 1;
      LeftOut(recipients[..n], a[..n]) + (if a[n].None? then [recipients[n]] else [])
  }

  function RecipientsOf(allocations: seq<SendAllocation>): seq<string> {
    if allocations == [] then []
    else RecipientsOf(allocations[..|allocations| - 1]) + [allocations[|allocations| - 1].recipient]
  }

  lemma {:induction false} AllocationsAreServed(available: seq<Mailbox>, recipients: seq<string>, a: Assignment,
                                                dryRun: bool)
    requires |a| == |recipients| && Uses(a, |available|)
    ensures |Allocations(available, recipients, a, dryRun)| == Served(a)
  {
    if a != [] {
      AllocationsAreServed(available, recipients[..|a| - 1], a[..|a| - 1], dryRun);
    }
  }

  lemma {:induction false} LeftOutHasPosition(recipients: seq<string>, a: Assignment, u: string) returns (i: nat)
    requires |a| == |recipients| && u in LeftOut(recipients, a)
    ensures i < |a| && a[i].None? && recipients[i] == u
  {
    var n := |a| - 1;
    if a[n].None? && recipients[n] == u {
      i := n;
    } else {
      i := LeftOutHasPosition(recipients[..n], a[..n], u);
    }
  }

  /** Where the inner loop of `allocate` stops when it tries the mailboxes from position `m` on. */
  ghost function Choice(pool: Pool, a: Assignment, domain: string, m: nat, dryRun: bool): Option<nat>
    requires pool.WellFormed() && m <= |pool.domain|
  {
    if dryRun then FirstOtherDomain(pool, domain, m) else FirstFit(pool, a, domain, m)
  }

  ghost function Outcome(available: seq<Mailbox>, recipients: seq<string>, a: Assignment,
                         dryRun: bool): AllocationResult
    requires |a| == |recipients| && Uses(a, |available|)
  {
    AllocationResult(
      Allocations(available, recipients, a, dryRun),
      LeftOut(recipients, a),
      if available == [] then "no_mailboxes_available"
      else if LeftOut(recipients, a) == [] then "" else "some_recipients_unallocated")
  }

  lemma OutcomeStep(available: seq<Mailbox>, recipients: seq<string>, i: nat, a: Assignment, next: Option<nat>,
                    dryRun: bool)
    requires i < |recipients| && |a| == i && Uses(a + [next], |available|) && (next.Some? ==> next.value < |available|)
    ensures Uses(a, |available|)
    ensures Allocations(available, recipients[..i + 1], a + [next], dryRun) ==
            Allocations(available, recipients[..i], a, dryRun) +
            (if next.None? then []
             else [SendAllocation(available[next.value].id, available[next.value].email, recipients[i], dryRun)])
    ensures LeftOut(recipients[..i + 1], a + [next]) ==
            LeftOut(recipients[..i], a) + (if next.None? then [recipients[i]] else [])
  {
    assert forall k :: 0 <= k < i ==> (a + [next])[k] == a[k];
    assert recipients[..i + 1][..i] == recipients[..i];
    assert (a + [next])[..i] == a;
  }

  lemma RecipientsOfAppend(allocations: seq<SendAllocation>, x: SendAllocation)
    ensures RecipientsOf(allocations + [x]) == RecipientsOf(allocations) + [x.recipient]
  {
    assert (allocations + [x])[..|allocations|] == allocations;
  }

  lemma OneMoreRecipient(served: seq<string>, out: seq<string>, recipients: seq<string>, r: string)
    requires multiset(served) + multiset(out) == multiset(recipients)
    ensures multiset(served + [r]) + multiset(out) == multiset(recipients + [r])
    ensures multiset(served) + multiset(out + [r]) == multiset(recipients + [r])
  {
  }

  /** The recipients that an assignment serves, in order. */
  function ServedOnes(recipients: seq<string>, a: Assignment): seq<string>
    requires |a| == |recipients|
  {
    if a == [] then []
    else
      var n := |a| - 1;
      ServedOnes(recipients[..n], a[..n]) + (if a[n].Some? then [recipients[n]] else [])
  }

  /** The allocations serve their recipients in the order of the input. */
  lemma {:induction false} AllocationsKeepOrder(available: seq<Mailbox>, recipients: seq<string>, a: Assignment,
                                                dryRun: bool)
    requires |a| == |recipients| && Uses(a, |available|)
    ensures RecipientsOf(Allocations(available, recipients, a, dryRun)) == ServedOnes(recipients, a)
  {
    if a != [] {
      var n := |a| - 1;
      AllocationsKeepOrder(available, recipients[..n], a[..n], dryRun);
      if a[n].Some? {
        RecipientsOfAppend(Allocations(available, recipients[..n], a[..n], dryRun),
                           SendAllocation(available[a[n].value].id, available[a[n].value].email, recipients[n],
                               dryRun));
      }
    }
  }

  /** Every recipient ends up in exactly one of the two lists. */
  lemma {:induction false} RecipientsArePartitioned(recipients: seq<string>, a: Assignment)
    requires |a| == |recipients|
    ensures multiset(ServedOnes(recipients, a)) + multiset(LeftOut(recipients, a)) == multiset(recipients)
  {
    if a != [] {
      var n := |a| - 1;
      RecipientsArePartitioned(recipients[..n], a[..n]);
      OneMoreRecipient(ServedOnes(recipients[..n], a[..n]), LeftOut(recipients[..n], a[..n]), recipients[..n],
          recipients[n]);
      assert recipients == recipients[..n] + [recipients[n]];
    }
  }

  lemma PlanStep(pool: Pool, recipients: seq<string>, i: nat, dryRun: bool)
    requires pool.WellFormed() && i < |recipients|
    ensures var a := Plan(pool, recipients[..i], dryRun);
            Plan(pool, recipients[..i + 1], dryRun) == a + [Choice(pool, a, DomainOf(recipients[i]), 0, dryRun)]
  {
    assert Domains(recipients[..i + 1])[..i] == Domains(recipients[..i]);
  }

  lemma {:induction false} PlanUses(pool: Pool, recipients: seq<string>, dryRun: bool)
    requires pool.WellFormed()
    ensures Uses(Plan(pool, recipients, dryRun), |pool.domain|)
  {
    if recipients != [] {
      var n := |recipients| - 1;
      PlanUses(pool, recipients[..n], dryRun);
      PlanStep(pool, recipients, n, dryRun);
      assert recipients[..n + 1] == recipients;
    }
  }

  /** What the plan for one more recipient adds. */
  lemma NextRecipient(available: seq<Mailbox>, pool: Pool, recipients: seq<string>, i: nat, dryRun: bool)
    requires pool.WellFormed() && |pool.domain| == |available| && i < |recipients|
    ensures var a, b := Plan(pool, recipients[..i], dryRun), Plan(pool, recipients[..i + 1], dryRun);
            var next := Choice(pool, a, DomainOf(recipients[i]), 0, dryRun);
            && b == a + [next] && Uses(a, |available|) && Uses(b, |available|)
            && (next.Some? ==> next.value < |available|)
            && Allocations(available, recipients[..i + 1], b, dryRun) ==
               Allocations(available, recipients[..i], a, dryRun) +
               (if next.None? then []
                else [SendAllocation(available[next.value].id, available[next.value].email, recipients[i], dryRun)])
            && LeftOut(recipients[..i + 1], b) == LeftOut(recipients[..i], a)
                + (if next.None? then [recipients[i]] else [])
  {
    var a := Plan(pool, recipients[..i], dryRun);
    PlanStep(pool, recipients, i, dryRun);
    PlanUses(pool, recipients[..i + 1], dryRun);
    OutcomeStep(available, recipients, i, a, Choice(pool, a, DomainOf(recipients[i]), 0, dryRun), dryRun);
  }

  lemma {:induction false} EverybodyLeftOut(recipients: seq<string>, a: Assignment)
    requires |a| == |recipients| && Uses(a, 0)
    ensures forall i :: 0 <= i < |a| ==> a[i].None?
    ensures LeftOut(recipients, a) == recipients
  {
    if a != [] {
      EverybodyLeftOut(recipients[..|a| - 1], a[..|a| - 1]);
    }
  }

  lemma NobodyAvailable(pool: Pool, recipients: seq<string>, dryRun: bool)
    requires pool.WellFormed() && pool.domain == []
    ensures forall i :: 0 <= i < |recipients| ==> Plan(pool, recipients, dryRun)[i].None?
    ensures LeftOut(recipients, Plan(pool, recipients, dryRun)) == recipients
  {
    PlanUses(pool, recipients, dryRun);
    EverybodyLeftOut(recipients, Plan(pool, recipients, dryRun));
  }

  lemma {:induction false} NothingAllocated(available: seq<Mailbox>, recipients: seq<string>, a: Assignment,
                                            dryRun: bool)
    requires |a| == |recipients| && forall i :: 0 <= i < |a| ==> a[i].None?
    ensures Uses(a, |available|) && Allocations(available, recipients, a, dryRun) == []
    ensures forall m :: Load(a, m) == 0
  {
    if a != [] {
      NothingAllocated(available, recipients[..|a| - 1], a[..|a| - 1], dryRun);
    }
  }

  /** Reordering mailboxes by a list of distinct positions. */
  function Arrange(ms: seq<Mailbox>, order: seq<nat>): (r: seq<Mailbox>)
    requires DistinctIds(ms)
    requires forall p :: 0 <= p < |order| ==> order[p] < |ms|
    requires forall p, q :: 0 <= p < q < |order| ==> order[p] != order[q]
    ensures |r| == |order| && DistinctIds(r)
    ensures forall p :: 0 <= p < |order| ==> r[p] == ms[order[p]]
  {
    seq(|order|, p requires 0 <= p < |order| => ms[order[p]])
  }

  lemma ArrangeKeepsAll(ms: seq<Mailbox>, order: seq<nat>)
    requires DistinctIds(ms)
    requires forall p :: 0 <= p < |order| ==> order[p] < |ms|
    requires forall p, q :: 0 <= p < q < |order| ==> order[p] != order[q]
    requires forall i :: 0 <= i < |ms| ==> i in order
    ensures forall m :: m in Arrange(ms, order) <==> m in ms
  {
    forall m | m in ms
      ensures m in Arrange(ms, order)
    {
      var i :| 0 <= i < |ms| && ms[i] == m;
      assert i in order;
      var p :| 0 <= p < |order| && order[p] == i;
      assert Arrange(ms, order)[p] == m;
    }
  }

  /** `sorted(ms, key=...)` */
  function InUsageOrder(ms: seq<Mailbox>): (r: seq<Mailbox>)
    requires DistinctIds(ms)
    reads ms
    ensures DistinctIds(r) && (forall m :: m in r ==> m in ms) && (forall m :: m in ms ==> m in r)
  {
    assert forall p :: 0 <= p < |ms| ==> ms[p] in ms;
    var order := StableOrder(Keys(ms));
    assert forall p, q :: 0 <= p < q < |order| ==> Ahead(Keys(ms), order[p], order[q]);
    ArrangeKeepsAll(ms, order);
    Arrange(ms, order)
  }

  /** The places from which the `p`-th and the `q`-th mailbox came. */
  lemma InUsageOrderIsSorted(ms: seq<Mailbox>, p: nat, q: nat) returns (i: nat, j: nat)
    requires DistinctIds(ms) && p < q < |InUsageOrder(ms)|
    ensures i < |ms| && j < |ms| && InUsageOrder(ms)[p] == ms[i] && InUsageOrder(ms)[q] == ms[j]
    ensures Less(ms[i].SortKey(), ms[j].SortKey()) || (ms[i].SortKey() == ms[j].SortKey() && i < j)
  {
    var order := StableOrder(Keys(ms));
    assert Ahead(Keys(ms), order[p], order[q]);
    i, j := order[p], order[q];
  }

  lemma PositionIsFirst(ms: seq<Mailbox>, i: nat)
    requires DistinctIds(ms) && i < |ms|
    ensures PositionOf(ms, ms[i].id) == i
  {
  }

  /** Where a ready mailbox stands in the whole list. */
  lemma {:induction false} ReadyHasPlace(ms: seq<Mailbox>, i: nat) returns (k: nat)
    requires i < |Ready(ms)|
    ensures k < |ms| && ms[k] == Ready(ms)[i]
    ensures forall j :: i < j < |Ready(ms)| ==> Ready(ms)[j] in ms[k + 1..]
  {
    var n := |ms| - 1;
    if i < |Ready(ms[..n])| {
      k := ReadyHasPlace(ms[..n], i);
      forall j | i < j < |Ready(ms)|
        ensures Ready(ms)[j] in ms[k + 1..]
      {
        if j < |Ready(ms[..n])| {
          assert Ready(ms)[j] in ms[..n][k + 1..];
        } else {
          assert Ready(ms)[j] == ms[n] == ms[k + 1..][n - k - 1];
        }
      }
    } else {
      k := n;
    }
  }

  lemma ReadyKeepsOrder(ms: seq<Mailbox>, i: nat, j: nat)
    requires DistinctIds(ms) && i < j < |Ready(ms)|
    ensures PositionOf(ms, Ready(ms)[i].id) < PositionOf(ms, Ready(ms)[j].id)
  {
    var k := ReadyHasPlace(ms, i);
    assert Ready(ms)[j] in ms[k + 1..];
    var m :| 0 <= m < |ms[k + 1..]| && ms[k + 1..][m] == Ready(ms)[j];
    PositionIsFirst(ms, k);
    PositionIsFirst(ms, k + 1 + m);
  }

  /** Each mailbox has counted what the assignment gives it; a dry run counts nothing. */
  ghost predicate Spent(available: seq<Mailbox>, before: seq<Counters>, a: Assignment, dryRun: bool)
    requires |before| == |available|
    reads available
  {
    forall p :: 0 <= p < |available| ==>
                  available[p].Usage() == before[p].Use(if dryRun then 0 else Load(a, p))
  }

  /** After a real run no cap is passed, and no mailbox could still take anyone who was left out. */
  lemma CapsHoldAndNobodyLeftOutFits(ms: seq<Mailbox>, before: seq<Counters>, recipients: seq<string>)
    requires |before| == |ms| && forall p :: 0 <= p < |before| ==> before[p].Room() > 0
    ensures var a := Plan(PoolWith(ms, before), recipients, false);
            forall p :: 0 <= p < |ms| ==>
                          var after := before[p].Use(Load(a, p));
                          && after.sentToday <= after.dailyCap && after.sentThisHour <= after.hourlyCap
                          && forall u :: u in LeftOut(recipients, a) ==>
                                           after.Room() == 0 || DomainOf(ms[p].email) == DomainOf(u)
  {
    var pool := PoolWith(ms, before);
    var a := Plan(pool, recipients, false);
    GreedyIsValidAndMaximal(pool, Domains(recipients));
    forall p, u | 0 <= p < |ms| && u in LeftOut(recipients, a)
      ensures before[p].Use(Load(a, p)).Room() == 0 || DomainOf(ms[p].email) == DomainOf(u)
    {
      var i := LeftOutHasPosition(recipients, a, u);
      assert pool.domain[p] == Domains(recipients)[i] || Full(a, pool, p);
    }
  }

  /** The allocation serves at least half as many recipients as any assignment that respects caps and domains. */
  lemma AllocationServesHalf(ms: seq<Mailbox>, before: seq<Counters>, recipients: seq<string>, b: Assignment)
    requires |before| == |ms| && Valid(b, PoolWith(ms, before), Domains(recipients))
    ensures var a := Plan(PoolWith(ms, before), recipients, false);
            Uses(a, |ms|) && Served(b) <= 2 * |Outcome(ms, recipients, a, false).allocations|
  {
    var pool := PoolWith(ms, before);
    PlanUses(pool, recipients, false);
    AllocationsAreServed(ms, recipients, Plan(pool, recipients, false), false);
    GreedyServesHalf(pool, Domains(recipients), b);
  }

  // ---- what a caller sees of an allocation -------------------------------------------------------

  /** How many allocations name a mailbox. */
  function SentFrom(allocations: seq<SendAllocation>, id: string): nat {
    if allocations == [] then 0
    else
      var n := |allocations| - 1;
      SentFrom(allocations[..n], id) + (if allocations[n].mailboxId == id then 1 else 0)
  }

  lemma SentFromAppend(allocations: seq<SendAllocation>, x: SendAllocation, id: string)
    ensures SentFrom(allocations + [x], id) == SentFrom(allocations, id) + (if x.mailboxId == id then 1 else 0)
  {
    assert (allocations + [x])[..|allocations|] == allocations;
  }

  /** `m` had counted `c` before the call; after `sent` more messages it may still take the recipient. */
  predicate MayTake(m: Mailbox, c: Counters, sent: int, recipient: string) {
    && c.sentToday + sent < c.dailyCap
    && c.sentThisHour + sent < c.hourlyCap
    && DomainOf(m.email) != DomainOf(recipient)
  }

  /** Mailbox `p` may take the recipient after these allocations, which a dry run does not count. */
  ghost predicate MayTakeAfter(available: seq<Mailbox>, before: seq<Counters>, earlier: seq<SendAllocation>,
                               recipient: string, dryRun: bool, p: nat)
    requires |before| == |available| && p < |available|
  {
    MayTake(available[p], before[p], if dryRun then 0 else SentFrom(earlier, available[p].id), recipient)
  }

  /** The allocation names the first mailbox that may take its recipient after the earlier ones. */
  ghost predicate TakenByFirst(available: seq<Mailbox>, before: seq<Counters>, earlier: seq<SendAllocation>,
                               x: SendAllocation, dryRun: bool)
    requires |before| == |available|
  {
    && x.dryRun == dryRun
    && exists p: nat :: p < |available| && x.mailboxId == available[p].id && x.mailboxEmail == available[p].email
         && MayTakeAfter(available, before, earlier, x.recipient, dryRun, p)
         && forall q: nat :: q < p ==> !MayTakeAfter(available, before, earlier, x.recipient, dryRun, q)
  }

  ghost predicate FollowsOrder(available: seq<Mailbox>, before: seq<Counters>, allocations: seq<SendAllocation>,
                               dryRun: bool)
    requires |before| == |available|
  {
    forall k :: 0 <= k < |allocations| ==> TakenByFirst(available, before, allocations[..k], allocations[k], dryRun)
  }

  /** No mailbox may take any of those left out once the allocations are made. */
  ghost predicate NobodyTakes(available: seq<Mailbox>, before: seq<Counters>, allocations: seq<SendAllocation>,
                              unallocated: seq<string>, dryRun: bool)
    requires |before| == |available|
  {
    forall u, p: nat :: u in unallocated && p < |available| ==>
                          !MayTakeAfter(available, before, allocations, u, dryRun, p)
  }

  lemma {:induction false} LoadIsSentFrom(available: seq<Mailbox>, recipients: seq<string>, a: Assignment,
                                          dryRun: bool, p: nat)
    requires DistinctIds(available) && |a| == |recipients| && Uses(a, |available|) && p < |available|
    ensures SentFrom(Allocations(available, recipients, a, dryRun), available[p].id) == Load(a, p)
  {
    if a != [] {
      var n := |a| - 1;
      LoadIsSentFrom(available, recipients[..n], a[..n], dryRun, p);
      if a[n].Some? {
        var j := a[n].value;
        SentFromAppend(Allocations(available, recipients[..n], a[..n], dryRun),
            SendAllocation(available[j].id, available[j].email, recipients[n], dryRun), available[p].id);
        assert j != p ==> available[j].id != available[p].id;
      }
    }
  }

  lemma {:induction false} AllocationHasMailbox(available: seq<Mailbox>, recipients: seq<string>, a: Assignment,
                                                dryRun: bool, x: SendAllocation)
    requires |a| == |recipients| && Uses(a, |available|) && x in Allocations(available, recipients, a, dryRun)
    ensures exists m :: m in available && x.mailboxId == m.id && x.mailboxEmail == m.email
  {
    var n := |a| - 1;
    if x in Allocations(available, recipients[..n], a[..n], dryRun) {
      AllocationHasMailbox(available, recipients[..n], a[..n], dryRun, x);
    } else {
      assert available[a[n].value] in available;
    }
  }

  lemma {:induction false} NothingSentFrom(allocations: seq<SendAllocation>, id: string)
    requires forall x :: x in allocations ==> x.mailboxId != id
    ensures SentFrom(allocations, id) == 0
  {
    if allocations != [] {
      NothingSentFrom(allocations[..|allocations| - 1], id);
    }
  }

  /** Each allocation names one of these mailboxes. */
  ghost predicate NamesThese(available: seq<Mailbox>, allocations: seq<SendAllocation>) {
    forall x :: x in allocations ==> exists m :: m in available && x.mailboxId == m.id && x.mailboxEmail == m.email
  }

  lemma OnlyAvailableSend(ms: seq<Mailbox>, available: seq<Mailbox>, allocations: seq<SendAllocation>)
    requires DistinctIds(ms) && NamesThese(available, allocations) && forall x :: x in available ==> x in ms
    ensures forall m :: m in ms && m !in available ==> SentFrom(allocations, m.id) == 0
  {
    forall m | m in ms && m !in available
      ensures SentFrom(allocations, m.id) == 0
    {
      forall x | x in allocations
        ensures x.mailboxId != m.id
      {
        var y :| y in available && x.mailboxId == y.id;
        assert y in ms && y != m;
      }
      NothingSentFrom(allocations, m.id);
    }
  }

  lemma RoomMeansBelowCaps(c: Counters, n: nat)
    ensures n < c.Room() <==> c.sentToday + n < c.dailyCap && c.sentThisHour + n < c.hourlyCap
  {
  }

  /** Mailbox `p` is of another domain and has capacity left, which a dry run takes for granted. */
  ghost predicate Fits(pool: Pool, a: Assignment, domain: string, dryRun: bool, p: nat)
    requires pool.WellFormed() && p < |pool.domain|
  {
    pool.domain[p] != domain && (dryRun || Load(a, p) < pool.capacity[p])
  }

  lemma MayTakeIffFits(available: seq<Mailbox>, before: seq<Counters>, recipients: seq<string>, a: Assignment,
                       recipient: string, dryRun: bool, p: nat)
    requires DistinctIds(available) && |before| == |available| && p < |available|
    requires |a| == |recipients| && Uses(a, |available|) && before[p].Room() > 0
    ensures MayTakeAfter(available, before, Allocations(available, recipients, a, dryRun), recipient, dryRun, p) <==>
            Fits(PoolWith(available, before), a, DomainOf(recipient), dryRun, p)
  {
    LoadIsSentFrom(available, recipients, a, dryRun, p);
    RoomMeansBelowCaps(before[p], if dryRun then 0 else Load(a, p));
  }

  lemma ChoiceFits(pool: Pool, a: Assignment, domain: string, dryRun: bool)
    requires pool.WellFormed()
    ensures var next := Choice(pool, a, domain, 0, dryRun);
            && (next.Some? ==> next.value < |pool.domain| && Fits(pool, a, domain, dryRun, next.value))
            && forall q: nat :: q < |pool.domain| && (next.Some? ==> q < next.value) ==>
                                  !Fits(pool, a, domain, dryRun, q)
  {
  }

  /** The mailbox that takes the next recipient is the first that may. */
  lemma ChoiceIsFirst(available: seq<Mailbox>, before: seq<Counters>, recipients: seq<string>, i: nat, dryRun: bool)
    requires DistinctIds(available) && |before| == |available| && i < |recipients|
    requires forall p :: 0 <= p < |before| ==> before[p].Room() > 0
    requires Uses(Plan(PoolWith(available, before), recipients[..i], dryRun), |available|)
    ensures var a := Plan(PoolWith(available, before), recipients[..i], dryRun);
            var next := Choice(PoolWith(available, before), a, DomainOf(recipients[i]), 0, dryRun);
            var earlier := Allocations(available, recipients[..i], a, dryRun);
            && (next.Some? ==> next.value < |available|
                               && MayTakeAfter(available, before, earlier, recipients[i], dryRun, next.value))
            && forall q: nat :: q < |available| && (next.Some? ==> q < next.value) ==>
                                  !MayTakeAfter(available, before, earlier, recipients[i], dryRun, q)
  {
    var a := Plan(PoolWith(available, before), recipients[..i], dryRun);
    var next := Choice(PoolWith(available, before), a, DomainOf(recipients[i]), 0, dryRun);
    forall p: nat | p < |available|
      ensures MayTakeAfter(available, before, Allocations(available, recipients[..i], a, dryRun), recipients[i],
                  dryRun, p) <==>
              Fits(PoolWith(available, before), a, DomainOf(recipients[i]), dryRun, p)
    {
      MayTakeIffFits(available, before, recipients[..i], a, recipients[i], dryRun, p);
    }
    ChoiceFits(PoolWith(available, before), a, DomainOf(recipients[i]), dryRun);
  }

  /** Later allocations close mailboxes and open none. */
  lemma AppendKeepsOrder(available: seq<Mailbox>, before: seq<Counters>, allocations: seq<SendAllocation>,
                         out: seq<string>, dryRun: bool, x: SendAllocation)
    requires |before| == |available| && FollowsOrder(available, before, allocations, dryRun)
    requires NobodyTakes(available, before, allocations, out, dryRun)
    requires TakenByFirst(available, before, allocations, x, dryRun)
    ensures FollowsOrder(available, before, allocations + [x], dryRun)
    ensures NobodyTakes(available, before, allocations + [x], out, dryRun)
  {
    forall k | 0 <= k < |allocations + [x]|
      ensures TakenByFirst(available, before, (allocations + [x])[..k], (allocations + [x])[k], dryRun)
    {
      assert (allocations + [x])[..k] == allocations[..k];
    }
    forall u, p: nat | u in out && p < |available|
      ensures !MayTakeAfter(available, before, allocations + [x], u, dryRun, p)
    {
      SentFromAppend(allocations, x, available[p].id);
      assert !MayTakeAfter(available, before, allocations, u, dryRun, p);
    }
  }

  /** What the plan for the first `n` recipients looks like to a caller. */
  ghost predicate IsSeenInOrder(available: seq<Mailbox>, before: seq<Counters>, recipients: seq<string>, n: nat,
                                dryRun: bool)
    requires |before| == |available| && n <= |recipients|
  {
    var a := Plan(PoolWith(available, before), recipients[..n], dryRun);
    && Uses(a, |available|)
    && FollowsOrder(available, before, Allocations(available, recipients[..n], a, dryRun), dryRun)
    && NobodyTakes(available, before, Allocations(available, recipients[..n], a, dryRun), LeftOut(recipients[..n], a),
                   dryRun)
  }

  /** One more recipient, who goes to the first mailbox that may take it, or is left out. */
  lemma NextIsSeenInOrder(available: seq<Mailbox>, before: seq<Counters>, allocations: seq<SendAllocation>,
                          out: seq<string>, recipient: string, next: Option<nat>, dryRun: bool)
    requires |before| == |available| && (next.Some? ==> next.value < |available|)
    requires FollowsOrder(available, before, allocations, dryRun)
    requires NobodyTakes(available, before, allocations, out, dryRun)
    requires next.Some? ==> MayTakeAfter(available, before, allocations, recipient, dryRun, next.value)
    requires forall q: nat :: q < |available| && (next.Some? ==> q < next.value) ==>
                                !MayTakeAfter(available, before, allocations, recipient, dryRun, q)
    ensures next.None? ==> NobodyTakes(available, before, allocations, out + [recipient], dryRun)
    ensures next.Some? ==>
              var x := SendAllocation(available[next.value].id, available[next.value].email, recipient, dryRun);
              && FollowsOrder(available, before, allocations + [x], dryRun)
              && NobodyTakes(available, before, allocations + [x], out, dryRun)
  {
    if next.Some? {
      var x := SendAllocation(available[next.value].id, available[next.value].email, recipient, dryRun);
      assert TakenByFirst(available, before, allocations, x, dryRun);
      AppendKeepsOrder(available, before, allocations, out, dryRun, x);
    }
  }

  lemma OneMoreIsSeenInOrder(available: seq<Mailbox>, before: seq<Counters>, recipients: seq<string>, n: nat,
                             dryRun: bool)
    requires DistinctIds(available) && |before| == |available| && n < |recipients|
    requires forall p :: 0 <= p < |before| ==> before[p].Room() > 0
    requires IsSeenInOrder(available, before, recipients, n, dryRun)
    ensures IsSeenInOrder(available, before, recipients, n + 1, dryRun)
  {
    var a := Plan(PoolWith(available, before), recipients[..n], dryRun);
    var allocations, out := Allocations(available, recipients[..n], a, dryRun), LeftOut(recipients[..n], a);
    var next := Choice(PoolWith(available, before), a, DomainOf(recipients[n]), 0, dryRun);
    NextRecipient(available, PoolWith(available, before), recipients, n, dryRun);
    ChoiceIsFirst(available, before, recipients, n, dryRun);
    NextIsSeenInOrder(available, before, allocations, out, recipients[n], next, dryRun);
    var b := Plan(PoolWith(available, before), recipients[..n + 1], dryRun);
    if next.None? {
      assert Allocations(available, recipients[..n + 1], b, dryRun) == allocations;
      assert LeftOut(recipients[..n + 1], b) == out + [recipients[n]];
    } else {
      assert LeftOut(recipients[..n + 1], b) == out;
    }
  }

  lemma {:induction false} PrefixIsSeenInOrder(available: seq<Mailbox>, before: seq<Counters>,
                                               recipients: seq<string>, n: nat, dryRun: bool)
    requires DistinctIds(available) && |before| == |available| && n <= |recipients|
    requires forall p :: 0 <= p < |before| ==> before[p].Room() > 0
    ensures IsSeenInOrder(available, before, recipients, n, dryRun)
  {
    if n > 0 {
      PrefixIsSeenInOrder(available, before, recipients, n - 1, dryRun);
      OneMoreIsSeenInOrder(available, before, recipients, n - 1, dryRun);
    }
  }

  /** The plan, told without it: each recipient in turn goes to the first mailbox that may take it. */
  lemma OutcomeFollowsOrder(available: seq<Mailbox>, before: seq<Counters>, recipients: seq<string>, dryRun: bool)
    requires DistinctIds(available) && |before| == |available|
    requires forall p :: 0 <= p < |before| ==> before[p].Room() > 0
    ensures var a := Plan(PoolWith(available, before), recipients, dryRun);
            && Uses(a, |available|)
            && FollowsOrder(available, before, Allocations(available, recipients, a, dryRun), dryRun)
            && NobodyTakes(available, before, Allocations(available, recipients, a, dryRun), LeftOut(recipients, a),
                           dryRun)
  {
    PrefixIsSeenInOrder(available, before, recipients, |recipients|, dryRun);
    assert recipients[..|recipients|] == recipients;
  }

  /**
   Each recipient in turn goes to the first of these mailboxes that may still take it, or is left out
   when none may; everyone is in one of the two lists.
   */
  ghost predicate IsAllocation(available: seq<Mailbox>, before: seq<Counters>, recipients: seq<string>, dryRun: bool,
                               result: AllocationResult)
    requires |before| == |available|
  {
    && FollowsOrder(available, before, result.allocations, dryRun)
    && NobodyTakes(available, before, result.allocations, result.unallocated, dryRun)
    && multiset(RecipientsOf(result.allocations)) + multiset(result.unallocated) == multiset(recipients)
    && NamesThese(available, result.allocations)
    && result.reason == (if available == [] then "no_mailboxes_available"
                         else if result.unallocated == [] then "" else "some_recipients_unallocated")
  }

  /** First fit, as the assignment theory states it. */
  ghost predicate FollowsPlan(available: seq<Mailbox>, before: seq<Counters>, recipients: seq<string>, dryRun: bool,
                              result: AllocationResult)
    requires |before| == |available|
  {
    var a := Plan(PoolWith(available, before), recipients, dryRun);
    Uses(a, |available|) && result == Outcome(available, recipients, a, dryRun)
  }

  lemma OutcomeIsAllocation(available: seq<Mailbox>, before: seq<Counters>, recipients: seq<string>, dryRun: bool)
    requires DistinctIds(available) && |before| == |available|
    requires forall p :: 0 <= p < |before| ==> before[p].Room() > 0
    ensures var a := Plan(PoolWith(available, before), recipients, dryRun);
            && Uses(a, |available|)
            && IsAllocation(available, before, recipients, dryRun, Outcome(available, recipients, a, dryRun))
  {
    var a := Plan(PoolWith(available, before), recipients, dryRun);
    OutcomeFollowsOrder(available, before, recipients, dryRun);
    AllocationsKeepOrder(available, recipients, a, dryRun);
    RecipientsArePartitioned(recipients, a);
    forall x | x in Allocations(available, recipients, a, dryRun)
      ensures exists m :: m in available && x.mailboxId == m.id && x.mailboxEmail == m.email
    {
      AllocationHasMailbox(available, recipients, a, dryRun, x);
    }
  }

  class Orchestrator {
    var mailboxes: seq<Mailbox>

    ghost predicate Valid()
      reads this
    {
      DistinctIds(mailboxes)
    }

    constructor (mailboxes: seq<Mailbox>)
      ensures Valid() && this.mailboxes == ById(mailboxes)
    {
      ByIdIsDistinct(mailboxes);
      this.mailboxes := ById(mailboxes);
    }

    function Available(): (r: seq<Mailbox>)
      requires Valid()
      reads this, mailboxes
      ensures DistinctIds(r)
      ensures forall m :: m in r ==> m in mailboxes
      ensures forall m :: m in r ==> m.status == Active && m.healthScore >= 0.5
      ensures forall m :: m in r ==> m.spfOk && m.dkimOk && m.dmarcOk && m.tlsOk
      ensures forall m :: m in r ==> m.sentToday < m.dailyCap && m.sentThisHour < m.hourlyCap
      ensures forall m :: m in mailboxes && m.status == Active && m.healthScore >= 0.5
                          && m.spfOk && m.dkimOk && m.dmarcOk && m.tlsOk
                          && m.sentToday < m.dailyCap && m.sentThisHour < m.hourlyCap
                  ==> m in r
    {
      var ready := Ready(mailboxes);
      assert forall p :: 0 <= p < |ready| ==> ready[p] in ready;
      InUsageOrder(ready)
    }

    /**
     `get_available` lists the healthiest mailboxes first and, among equals, the least used ones;
     full ties stay in the order of the dictionary.
     */
    lemma AvailableIsSorted(p: nat, q: nat)
      requires Valid() && p < q < |Available()|
      ensures var a, b := Available()[p], Available()[q];
              || a.healthScore > b.healthScore
              || (a.healthScore == b.healthScore && a.sentToday < b.sentToday)
              || (a.healthScore == b.healthScore && a.sentToday == b.sentToday
                  && PositionOf(mailboxes, a.id) < PositionOf(mailboxes, b.id))
    {
      var ready := Ready(mailboxes);
      assert forall k :: 0 <= k < |ready| ==> ready[k] in ready;
      var i, j := InUsageOrderIsSorted(ready, p, q);
      if i < j {
        ReadyKeepsOrder(mailboxes, i, j);
      }
    }

    method Allocate(recipients: seq<string>, dryRun: bool) returns (result: AllocationResult)
      requires Valid()
      modifies mailboxes`sentToday, mailboxes`sentThisHour
      ensures IsAllocation(old(Available()), old(AllCounters(Available())), recipients, dryRun, result)
      ensures forall m :: m in mailboxes ==>
                            var sent := if dryRun then 0 else SentFrom(result.allocations, m.id);
                            m.sentToday == old(m.sentToday) + sent && m.sentThisHour == old(m.sentThisHour) + sent
      // What is handed out, and to whom, is the plan of the state before the call.
      ensures FollowsPlan(old(Available()), old(AllCounters(Available())), recipients, dryRun, result)
    {
      var available := Available();
      result := AllocateAmong(available, recipients, dryRun);
      OnlyAvailableSend(mailboxes, available, result.allocations);
    }
  }

  /** `allocate`, once the available mailboxes are known. */
  method AllocateAmong(available: seq<Mailbox>, recipients: seq<string>, dryRun: bool)
    returns (result: AllocationResult)
    requires DistinctIds(available)
    requires forall m :: m in available ==> m.sentToday < m.dailyCap && m.sentThisHour < m.hourlyCap
    modifies available`sentToday, available`sentThisHour
    ensures IsAllocation(available, old(AllCounters(available)), recipients, dryRun, result)
    ensures forall m :: m in available ==>
                          var sent := if dryRun then 0 else SentFrom(result.allocations, m.id);
                          m.sentToday == old(m.sentToday) + sent && m.sentThisHour == old(m.sentThisHour) + sent
    ensures FollowsPlan(available, old(AllCounters(available)), recipients, dryRun, result)
    ensures dryRun ==> unchanged(available)
  {
    ghost var before := AllCounters(available);
    assert forall p :: 0 <= p < |available| ==> available[p] in available;
    if |available| == 0 {
      NobodyAvailable(PoolWith(available, before), recipients, dryRun);
      NothingAllocated(available, recipients, Plan(PoolWith(available, before), recipients, dryRun), dryRun);
      result := AllocationResult([], recipients, "no_mailboxes_available");
    } else {
      var allocations, unallocated := AllocateEach(available, recipients, dryRun, before);
      result := AllocationResult(allocations, unallocated,
                                 if |unallocated| == 0 then "" else "some_recipients_unallocated");
    }
    OutcomeIsAllocation(available, before, recipients, dryRun);
    forall m | m in available
      ensures var sent := if dryRun then 0 else SentFrom(result.allocations, m.id);
              m.sentToday == old(m.sentToday) + sent && m.sentThisHour == old(m.sentThisHour) + sent
    {
      var p :| 0 <= p < |available| && available[p] == m;
      assert before[p] == old(m.Usage());
      LoadIsSentFrom(available, recipients, Plan(PoolWith(available, before), recipients, dryRun), dryRun, p);
    }
  }

  /** What has been handed out so far is the plan for the recipients so far. */
  ghost predicate CarriedOut(available: seq<Mailbox>, before: seq<Counters>, recipients: seq<string>, dryRun: bool,
                             allocations: seq<SendAllocation>, unallocated: seq<string>)
    requires |before| == |available|
    reads available
  {
    var a := Plan(PoolWith(available, before), recipients, dryRun);
    && Uses(a, |available|)
    && allocations == Allocations(available, recipients, a, dryRun)
    && unallocated == LeftOut(recipients, a)
    && Spent(available, before, a, dryRun)
  }

  /** The outer loop of `allocate`, over the recipients. */
  method AllocateEach(available: seq<Mailbox>, recipients: seq<string>, dryRun: bool, ghost before: seq<Counters>)
    returns (allocations: seq<SendAllocation>, unallocated: seq<string>)
    requires DistinctIds(available) && before == AllCounters(available)
    requires forall p :: 0 <= p < |before| ==> before[p].Room() > 0
    modifies available`sentToday, available`sentThisHour
    ensures CarriedOut(available, before, recipients, dryRun, allocations, unallocated)
    ensures dryRun ==> unchanged(available)
  {
    allocations, unallocated := [], [];
    for i := 0 to |recipients|
      invariant CarriedOut(available, before, recipients[..i], dryRun, allocations, unallocated)
      invariant dryRun ==> unchanged(available)
    {
      allocations, unallocated := AllocateNext(available, recipients, i, dryRun, before, allocations, unallocated);
    }
    assert recipients[..|recipients|] == recipients;
  }

  /** One turn of the outer loop. */
  method AllocateNext(available: seq<Mailbox>, recipients: seq<string>, i: nat, dryRun: bool,
                      ghost before: seq<Counters>,
                      allocations: seq<SendAllocation>, unallocated: seq<string>)
    returns (served: seq<SendAllocation>, out: seq<string>)
    requires DistinctIds(available) && |before| == |available| && i < |recipients|
    requires forall p :: 0 <= p < |before| ==> before[p].Room() > 0
    requires CarriedOut(available, before, recipients[..i], dryRun, allocations, unallocated)
    modifies available`sentToday, available`sentThisHour
    ensures CarriedOut(available, before, recipients[..i + 1], dryRun, served, out)
    ensures dryRun ==> unchanged(available)
  {
    NextRecipient(available, PoolWith(available, before), recipients, i, dryRun);
    var allocation := AllocateOne(available, recipients[i], dryRun, before,
        Plan(PoolWith(available, before), recipients[..i], dryRun));
    if allocation.Some? {
      return allocations + [allocation.value], unallocated;
    } else {
      return allocations, unallocated + [recipients[i]];
    }
  }

  /** A mailbox counts the recipient it takes, unless the run is dry. */
  method CountSend(available: seq<Mailbox>, j: nat, dryRun: bool, ghost before: seq<Counters>, ghost a: Assignment)
    requires DistinctIds(available) && j < |available| == |before| && Spent(available, before, a, dryRun)
    modifies available`sentToday, available`sentThisHour
    ensures Spent(available, before, a + [Some(j)], dryRun)
    ensures dryRun ==> unchanged(available)
  {
    if !dryRun {
      available[j].sentToday := available[j].sentToday + 1;
      available[j].sentThisHour := available[j].sentThisHour + 1;
    }
    forall p: nat | p < |available|
      ensures available[p].Usage() == before[p].Use(if dryRun then 0 else Load(a + [Some(j)], p))
    {
      LoadOfAppend(a, Some(j), p);
      assert old(available[p].Usage()) == before[p].Use(if dryRun then 0 else Load(a, p));
    }
  }

  /** The inner loop of `allocate`: the first mailbox with both caps open and another domain takes the recipient. */
  method AllocateOne(available: seq<Mailbox>, recipient: string, dryRun: bool, ghost before: seq<Counters>,
                     ghost a: Assignment)
    returns (allocation: Option<SendAllocation>)
    requires DistinctIds(available) && |before| == |available| && Spent(available, before, a, dryRun)
    requires forall p :: 0 <= p < |before| ==> before[p].Room() > 0
    modifies available`sentToday, available`sentThisHour
    ensures var next := Choice(PoolWith(available, before), a, DomainOf(recipient), 0, dryRun);
            && (next.Some? ==> next.value < |available|)
            && allocation == (if next.None? then None
                              else Some(SendAllocation(available[next.value].id, available[next.value].email,
                                  recipient, dryRun)))
            && Spent(available, before, a + [next], dryRun)
    ensures dryRun ==> unchanged(available)
  {
    ghost var pool, d := PoolWith(available, before), DomainOf(recipient);
    ghost var next := Choice(pool, a, d, 0, dryRun);
    for j := 0 to |available|
      invariant unchanged(available) && next == Choice(pool, a, d, j, dryRun)
    {
      var mailbox := available[j];
      assert mailbox.Usage() == before[j].Use(if dryRun then 0 else Load(a, j));
      if mailbox.sentToday >= mailbox.dailyCap {
        continue;
      }
      if mailbox.sentThisHour >= mailbox.hourlyCap {
        continue;
      }
      if DomainOf(recipient) == DomainOf(mailbox.email) {
        continue;
      }
      assert next == Some(j);
      CountSend(available, j, dryRun, before, a);
      return Some(SendAllocation(mailbox.id, mailbox.email, recipient, dryRun));
    }
    forall p: nat | p < |available|
      ensures available[p].Usage() == before[p].Use(if dryRun then 0 else Load(a + [next], p))
    {
      LoadOfAppend(a, next, p);
    }
    return None;
  }
}
