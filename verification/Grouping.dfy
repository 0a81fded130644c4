/** Grouping records by device or peer as src/ipc_hooks.cpp does it (device_exports, device_allocs,
    device_rebuilds, peer_requests): push indices into a std::map of vectors in record order, then
    visit the map in key order. */
module Grouping {
  import opened Ordered

  /** The group of each record; Skipped: the record is skipped. */
  datatype Key = Skipped | InGroup(group: nat)

  function Groups(keys: seq<Key>): (gs: set<nat>)
    ensures forall g :: g in gs <==> exists i :: 0 <= i < |keys| && keys[i] == InGroup(g)
  {
    set i | 0 <= i < |keys| && keys[i].InGroup? :: keys[i].group
  }

  /** Indices of group g among the first n records, in record order. */
  function Members(keys: seq<Key>, g: nat, n: nat): (q: seq<nat>)
    requires n <= |keys|
    ensures forall k | 0 <= k < |q| :: q[k] < n && keys[q[k]] == InGroup(g)
    ensures forall i | 0 <= i < n && keys[i] == InGroup(g) :: i in q
    ensures forall a, b | 0 <= a < b < |q| :: q[a] < q[b]
  {
    if n == 0 then [] else
      Members(keys, g, n - 1) + (if keys[n - 1] == InGroup(g) then [n - 1] else [])
  }

  function Visit(keys: seq<Key>, gs: seq<nat>): seq<nat> {
    if gs == [] then [] else Members(keys, gs[0], |keys|) + Visit(keys, gs[1..])
  }

  /** The order in which grouped records are processed. */
  function Grouped(keys: seq<Key>): seq<nat> {
    Visit(keys, Ascending(Groups(keys)))
  }

  /** Index i comes before index j: smaller group first, then record order. */
  ghost predicate Before(keys: seq<Key>, i: nat, j: nat) {
    && i < |keys| && j < |keys| && keys[i].InGroup? && keys[j].InGroup?
    && (keys[i].group < keys[j].group || (keys[i].group == keys[j].group && i < j))
  }

  /** Every listed index is a record of one of the groups. */
  ghost predicate Sound(keys: seq<Key>, q: seq<nat>, gs: seq<nat>) {
    forall k | 0 <= k < |q| :: q[k] < |keys| && keys[q[k]].InGroup? && keys[q[k]].group in gs
  }

  ghost predicate InOrder(keys: seq<Key>, q: seq<nat>) {
    forall a, b | 0 <= a < b < |q| :: Before(keys, q[a], q[b])
  }

  lemma {:induction false} VisitSound(keys: seq<Key>, gs: seq<nat>)
    ensures Sound(keys, Visit(keys, gs), gs)
  {
    if gs != [] {
      VisitSound(keys, gs[1..]);
    }
  }

  lemma {:induction false} VisitComplete(keys: seq<Key>, gs: seq<nat>, i: nat)
    requires i < |keys| && keys[i].InGroup? && keys[i].group in gs
    ensures i in Visit(keys, gs)
  {
    if keys[i].group != gs[0] {
      VisitComplete(keys, gs[1..], i);
    }
  }

  lemma {:induction false} VisitInOrder(keys: seq<Key>, gs: seq<nat>)
    requires StrictlyAscending(gs)
    ensures InOrder(keys, Visit(keys, gs))
  {
    if gs != [] {
      var first, rest := Members(keys, gs[0], |keys|), Visit(keys, gs[1..]);
      VisitInOrder(keys, gs[1..]);
      VisitSound(keys, gs[1..]);
      forall a, b | 0 <= a < b < |first + rest|
        ensures Before(keys, (first + rest)[a], (first + rest)[b])
      {
        if a < |first| <= b {
          assert keys[rest[b - |first|]].group in gs[1..];
        } else if |first| <= a {
          assert Before(keys, rest[a - |first|], rest[b - |first|]);
        }
      }
    }
  }

  /** Grouping visits exactly the records that have a group, each once, by group and then in record
      order. */
  lemma {:induction false} GroupedLists(keys: seq<Key>)
    ensures forall k | 0 <= k < |Grouped(keys)| :: Grouped(keys)[k] < |keys| && keys[Grouped(keys)[k]].InGroup?
    ensures forall i | 0 <= i < |keys| && keys[i].InGroup? :: i in Grouped(keys)
    ensures forall a, b | 0 <= a < b < |Grouped(keys)| :: Before(keys, Grouped(keys)[a], Grouped(keys)[b])
  {
    var gs := Ascending(Groups(keys));
    VisitSound(keys, gs);
    VisitInOrder(keys, gs);
    forall i | 0 <= i < |keys| && keys[i].InGroup?
      ensures i in Grouped(keys)
    {
      VisitComplete(keys, gs, i);
    }
  }

  lemma {:induction false} GroupedDistinct(keys: seq<Key>)
    ensures forall a, b | 0 <= a < b < |Grouped(keys)| :: Grouped(keys)[a] != Grouped(keys)[b]
  {
    GroupedLists(keys);
    forall a, b | 0 <= a < b < |Grouped(keys)|
      ensures Grouped(keys)[a] != Grouped(keys)[b]
    {
      assert Before(keys, Grouped(keys)[a], Grouped(keys)[b]);
    }
  }

  /** Where index i stands in the grouped order. */
  lemma {:induction false} PositionOf(keys: seq<Key>, i: nat) returns (k: nat)
    requires i < |keys| && keys[i].InGroup?
    ensures k < |Grouped(keys)| && Grouped(keys)[k] == i
  {
    GroupedLists(keys);
    k :| k < |Grouped(keys)| && Grouped(keys)[k] == i;
  }

  /** Sum of the first k sizes along an order. */
  function SumAlong(sizes: seq<nat>, order: seq<nat>, k: nat): nat
    requires k <= |order| && forall m | 0 <= m < |order| :: order[m] < |sizes|
  {
    if k == 0 then 0 else SumAlong(sizes, order, k - 1) + sizes[order[k - 1]]
  }

  /** Ranges laid out along an order do not overlap and leave no gaps. */
  lemma {:induction false} SumAlongGrows(sizes: seq<nat>, order: seq<nat>, k: nat, l: nat)
    requires k < l <= |order| && forall m | 0 <= m < |order| :: order[m] < |sizes|
    ensures SumAlong(sizes, order, k) + sizes[order[k]] <= SumAlong(sizes, order, l)
  {
    if l > k + 1 {
      SumAlongGrows(sizes, order, k, l - 1);
    }
  }

  /** Sum of the sizes of a set of records. */
  ghost function SumOf(sizes: seq<nat>, s: set<nat>): nat
    requires forall i | i in s :: i < |sizes|
  {
    if s == {} then 0 else
      MinExists(s);
      var m :| m in s && IsMin(m, s);
      sizes[m] + SumOf(sizes, s - {m})
  }

  lemma {:induction false} SumOfRemove(sizes: seq<nat>, s: set<nat>, x: nat)
    requires x in s && forall i | i in s :: i < |sizes|
    ensures SumOf(sizes, s) == sizes[x] + SumOf(sizes, s - {x})
    decreases |s|
  {
    MinExists(s);
    var m :| m in s && IsMin(m, s);
    if m != x {
      SumOfRemove(sizes, s - {m}, x);
      assert s - {m} - {x} == s - {x} - {m};
      assert IsMin(m, s - {x});
    }
  }

  /** The first k records along an order. */
  ghost function FirstOf(order: seq<nat>, k: nat): (s: set<nat>)
    requires k <= |order|
    ensures forall i :: i in s <==> exists m :: 0 <= m < k && order[m] == i
  {
    if k == 0 then {} else FirstOf(order, k - 1) + {order[k - 1]}
  }

  /** Without repetitions, the order does not matter for the total. */
  lemma {:induction false} SumAlongIsSumOf(sizes: seq<nat>, order: seq<nat>, k: nat)
    requires k <= |order| && forall m | 0 <= m < |order| :: order[m] < |sizes|
    requires forall a, b | 0 <= a < b < |order| :: order[a] != order[b]
    ensures SumAlong(sizes, order, k) == SumOf(sizes, FirstOf(order, k))
  {
    if k > 0 {
      SumAlongIsSumOf(sizes, order, k - 1);
      FirstWithoutLast(order, k);
      SumOfRemove(sizes, FirstOf(order, k), order[k - 1]);
    }
  }

  lemma {:induction false} FirstWithoutLast(order: seq<nat>, k: nat)
    requires 0 < k <= |order| && forall a, b | 0 <= a < b < |order| :: order[a] != order[b]
    ensures order[k - 1] in FirstOf(order, k) && FirstOf(order, k) - {order[k - 1]} == FirstOf(order, k - 1)
  {
  }

  lemma {:induction false} FirstCount(order: seq<nat>, k: nat)
    requires k <= |order| && forall a, b | 0 <= a < b < |order| :: order[a] != order[b]
    ensures |FirstOf(order, k)| == k
  {
    if k > 0 {
      FirstCount(order, k - 1);
      FirstWithoutLast(order, k);
    }
  }
}
