/**
 Python's `sorted` and SQL's ORDER BY: a stable order of the positions of a list of
 sort keys.  Every order used in the repository is lexicographic on at most two keys.
 */
module Sorting {

  datatype Key = Key(first: real, second: real)

  predicate Less(a: Key, b: Key) {
    a.first < b.first || (a.first == b.first && a.second < b.second)
  }

  /** Position `i` goes before position `j`: a smaller key, or the same key and earlier in the list. */
  predicate Ahead(keys: seq<Key>, i: nat, j: nat)
    requires i < |keys| && j < |keys|
  {
    Less(keys[i], keys[j]) || (keys[i] == keys[j] && i < j)
  }

  /** `order` lists each position of `keys` from `from` on exactly once, and puts them in stable order. */
  ghost predicate IsStableOrder(keys: seq<Key>, from: nat, order: seq<nat>)
    requires from <= |keys|
  {
    && |order| == |keys| - from
    && (forall p :: 0 <= p < |order| ==> from <= order[p] < |keys|)
    && (forall p, q :: 0 <= p < q < |order| ==> Ahead(keys, order[p], order[q]))
    && (forall i :: from <= i < |keys| ==> i in order)
  }

  function Insert(keys: seq<Key>, i: nat, order: seq<nat>): (r: seq<nat>)
    requires i < |keys| && forall p :: 0 <= p < |order| ==> i < order[p] < |keys|
    requires forall p, q :: 0 <= p < q < |order| ==> Ahead(keys, order[p], order[q])
    ensures |r| == |order| + 1
    ensures forall j :: j in r <==> j == i || j in order
    ensures forall p :: 0 <= p < |r| ==> i <= r[p] < |keys|
    ensures forall p, q :: 0 <= p < q < |r| ==> Ahead(keys, r[p], r[q])
  {
    if order == [] then [i]
    else if Less(keys[order[0]], keys[i]) then
      var rest := Insert(keys, i, order[1..]);
      assert forall p :: 0 <= p < |rest| ==> rest[p] in rest;
      [order[0]] + rest
    else
      assert forall q :: 0 <= q < |order| ==> q == 0 || Ahead(keys, order[0], order[q]);
      assert forall q :: 0 <= q < |order| ==> Ahead(keys, i, order[q]);
      [i] + order
  }

  function StableOrderFrom(keys: seq<Key>, from: nat): (order: seq<nat>)
    requires from <= |keys|
    ensures IsStableOrder(keys, from, order)
    decreases |keys| - from
  {
    if from == |keys| then [] else Insert(keys, from, StableOrderFrom(keys, from + 1))
  }

  /** The stable ascending order of the positions of `keys`. */
  function StableOrder(keys: seq<Key>): (order: seq<nat>)
    ensures IsStableOrder(keys, 0, order)
  {
    StableOrderFrom(keys, 0)
  }

  /** Two stable orders that agree before `p`: what `b` puts there, `a` puts there or later. */
  lemma NextComesFirst(keys: seq<Key>, a: seq<nat>, b: seq<nat>, p: nat)
    requires IsStableOrder(keys, 0, a) && IsStableOrder(keys, 0, b) && p < |keys|
    requires forall k :: 0 <= k < p ==> a[k] == b[k]
    ensures a[p] == b[p] || Ahead(keys, a[p], b[p])
  {
    assert forall k :: 0 <= k < p ==> Ahead(keys, b[k], b[p]);
    assert b[p] in a;
    var q :| 0 <= q < |a| && a[q] == b[p];
  }

  /** There is only one stable order. */
  lemma {:induction false} StableOrderIsUnique(keys: seq<Key>, a: seq<nat>, b: seq<nat>, p: nat)
    requires IsStableOrder(keys, 0, a) && IsStableOrder(keys, 0, b) && p < |keys|
    ensures forall k :: 0 <= k <= p ==> a[k] == b[k]
  {
    if p > 0 {
      StableOrderIsUnique(keys, a, b, p - 1);
    }
    NextComesFirst(keys, a, b, p);
    NextComesFirst(keys, b, a, p);
  }

  // ---- ORDER BY ... LIMIT ... over the positions that may be selected -------------------------------

  /** `n` positions have been chosen that sort no later than `i`. */
  ghost predicate NoLater(keys: seq<Key>, n: nat, ids: seq<nat>, i: nat)
    requires i < |keys|
  {
    |ids| == n && forall p :: 0 <= p < |ids| ==> ids[p] < |keys| && !Less(keys[i], keys[ids[p]])
  }

  /**
   `ids` is an answer to a query that orders the eligible positions by key and takes the first `n`,
   whichever way the database breaks ties.
   */
  ghost predicate IsFirst(keys: seq<Key>, eligible: set<nat>, n: nat, ids: seq<nat>) {
    && |ids| <= n
    && (forall p :: 0 <= p < |ids| ==> ids[p] < |keys| && ids[p] in eligible)
    && (forall p, q :: 0 <= p < q < |ids| ==> ids[p] != ids[q] && !Less(keys[ids[q]], keys[ids[p]]))
    && (forall i :: i in eligible && i < |keys| && i !in ids ==> NoLater(keys, n, ids, i))
  }

  /** The first `n` eligible positions of a list. */
  function Pick(eligible: set<nat>, order: seq<nat>, n: nat): (ids: seq<nat>)
    ensures |ids| <= n
    ensures forall i :: i in ids ==> i in order && i in eligible
  {
    if order == [] || n == 0 then []
    else if order[0] in eligible then [order[0]] + Pick(eligible, order[1..], n - 1)
    else Pick(eligible, order[1..], n)
  }

  /** `order` lists some positions of `keys` in stable order. */
  ghost predicate IsOrdered(keys: seq<Key>, order: seq<nat>) {
    && (forall p :: 0 <= p < |order| ==> order[p] < |keys|)
    && (forall p, q :: 0 <= p < q < |order| ==> Ahead(keys, order[p], order[q]))
  }

  lemma {:induction false} PickKeepsOrder(keys: seq<Key>, eligible: set<nat>, order: seq<nat>, n: nat)
    requires IsOrdered(keys, order)
    ensures IsOrdered(keys, Pick(eligible, order, n))
  {
    if order != [] && n > 0 {
      var first, rest := order[0], order[1..];
      assert forall i :: i in rest ==> i < |keys| && Ahead(keys, first, i);
      var ids := Pick(eligible, rest, if first in eligible then n - 1 else n);
      PickKeepsOrder(keys, eligible, rest, if first in eligible then n - 1 else n);
      assert forall p :: 0 <= p < |ids| ==> ids[p] in ids;
    }
  }

  /** An eligible position is passed over only when `n` others that go before it have been picked. */
  lemma {:induction false} PickPassesOver(keys: seq<Key>, eligible: set<nat>, order: seq<nat>, n: nat, i: nat)
    requires IsOrdered(keys, order) && i in order && i in eligible && i !in Pick(eligible, order, n)
    ensures i < |keys| && NoLater(keys, n, Pick(eligible, order, n), i)
  {
    if n > 0 {
      var first, rest := order[0], order[1..];
      assert i == first || i in rest;
      assert i in rest ==> Ahead(keys, first, i);
      PickPassesOver(keys, eligible, rest, if first in eligible then n - 1 else n, i);
    }
  }

  lemma PickIsFirst(keys: seq<Key>, eligible: set<nat>, order: seq<nat>, n: nat)
    requires IsOrdered(keys, order) && forall i :: i in eligible && i < |keys| ==> i in order
    ensures IsFirst(keys, eligible, n, Pick(eligible, order, n))
  {
    var ids := Pick(eligible, order, n);
    PickKeepsOrder(keys, eligible, order, n);
    assert forall p :: 0 <= p < |ids| ==> ids[p] in ids;
    forall i | i in eligible && i < |keys| && i !in ids
      ensures NoLater(keys, n, ids, i)
    {
      PickPassesOver(keys, eligible, order, n, i);
    }
  }

  /** Sorting all positions and picking the eligible ones is such an answer. */
  function SelectFirst(keys: seq<Key>, eligible: set<nat>, n: nat): seq<nat> {
    Pick(eligible, StableOrder(keys), n)
  }

  lemma SelectFirstIsFirst(keys: seq<Key>, eligible: set<nat>, n: nat)
    ensures IsFirst(keys, eligible, n, SelectFirst(keys, eligible, n))
  {
    assert IsOrdered(keys, StableOrder(keys));
    PickIsFirst(keys, eligible, StableOrder(keys), n);
  }

  lemma {:induction false} PickIsShort(eligible: set<nat>, order: seq<nat>, n: nat)
    ensures |Pick(eligible, order, n)| <= |order|
  {
    if order != [] && n > 0 {
      PickIsShort(eligible, order[1..], if order[0] in eligible then n - 1 else n);
    }
  }

  /** No more are selected than there are. */
  lemma SelectFirstIsShort(keys: seq<Key>, eligible: set<nat>, n: nat)
    ensures |SelectFirst(keys, eligible, n)| <= |keys|
  {
    PickIsShort(eligible, StableOrder(keys), n);
  }
}
