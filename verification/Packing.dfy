/**
  The packing arithmetic behind the scheduler's nested loop (internal/scheduler/scheduler.go:62-77):
  nodes in rank order, each with a cap, are filled one after the other.
 */
module Packing {
  import opened Prelude

  datatype Placement = Placement(nodeId: string, replicaIdx: int)

  ghost predicate Distinct(ids: seq<string>) {
    forall i, j :: 0 <= i < j < |ids| ==> ids[i] != ids[j]
  }

  /** Sum of the first k caps: the first replica that can go to rank k. */
  function Offset(caps: seq<nat>, k: nat): nat
    requires k <= |caps|
  {
    if k == 0 then 0 else Offset(caps, k - 1) + caps[k - 1]
  }

  /** All that fits. */
  function Capacity(caps: seq<nat>): nat {
    Offset(caps, |caps|)
  }

  lemma {:induction false} OffsetsRise(caps: seq<nat>, j: nat, k: nat)
    requires j <= k <= |caps|
    ensures Offset(caps, j) <= Offset(caps, k)
  {
    if j == k {
    } else {
      OffsetsRise(caps, j, k - 1);
    }
  }

  /** Replica i belongs to rank k. */
  predicate InSlot(caps: seq<nat>, i: nat, k: nat) {
    k < |caps| && Offset(caps, k) <= i < Offset(caps, k + 1)
  }

  lemma SlotIsUnique(caps: seq<nat>, i: nat, j: nat, k: nat)
    requires InSlot(caps, i, j) && InSlot(caps, i, k)
    ensures j == k
  {
    if j < k { OffsetsRise(caps, j + 1, k); }
    if k < j { OffsetsRise(caps, k + 1, j); }
  }

  /** Replicas of the first i that rank k holds. */
  function Held(caps: seq<nat>, i: nat, k: nat): nat
    requires k < |caps|
  {
    if i <= Offset(caps, k) then 0 else Min(i - Offset(caps, k), caps[k])
  }

  lemma HeldUpToCapacity(caps: seq<nat>, i: nat, k: nat)
    requires k < |caps|
    ensures Held(caps, Min(i, Capacity(caps)), k) == Held(caps, i, k)
  {
    OffsetsRise(caps, k + 1, |caps|);
  }

  lemma HeldGrows(caps: seq<nat>, i: nat, k: nat, j: nat)
    requires k < |caps| && j < |caps| && InSlot(caps, i, k)
    ensures Held(caps, i + 1, j) == Held(caps, i, j) + (if j == k then 1 else 0)
  {
    if j < k { OffsetsRise(caps, j + 1, k); }
    if k < j { OffsetsRise(caps, k + 1, j); }
  }

  /** Every placement sits in its replica's slot. */
  ghost predicate Packed(ids: seq<string>, caps: seq<nat>, ps: seq<Placement>) {
    && |ids| == |caps|
    && forall i :: 0 <= i < |ps| ==> PackedAtSome(ids, caps, ps[i], i)
  }

  ghost predicate PackedAtSome(ids: seq<string>, caps: seq<nat>, p: Placement, i: nat)
    requires |ids| == |caps|
  {
    p.replicaIdx == i && exists k: nat :: InSlot(caps, i, k) && p.nodeId == ids[k]
  }

  lemma SlotOf(ids: seq<string>, caps: seq<nat>, ps: seq<Placement>, i: nat) returns (k: nat)
    requires Packed(ids, caps, ps) && i < |ps|
    ensures InSlot(caps, i, k) && ps[i] == Placement(ids[k], i)
  {
    assert PackedAtSome(ids, caps, ps[i], i);
    k :| InSlot(caps, i, k) && ps[i].nodeId == ids[k];
  }

  function CountOn(ps: seq<Placement>, id: string): nat {
    if ps == [] then 0
    else CountOn(ps[..|ps| - 1], id) + (if ps[|ps| - 1].nodeId == id then 1 else 0)
  }

  lemma PackedAt(ids: seq<string>, caps: seq<nat>, ps: seq<Placement>, i: nat, k: nat)
    requires Distinct(ids) && Packed(ids, caps, ps) && i < |ps| && k < |ids|
    ensures ps[i].nodeId == ids[k] <==> InSlot(caps, i, k)
  {
    var j := SlotOf(ids, caps, ps, i);
    if InSlot(caps, i, k) { SlotIsUnique(caps, i, j, k); }
  }

  lemma {:induction false} PackedCounts(ids: seq<string>, caps: seq<nat>, ps: seq<Placement>, k: nat)
    requires Distinct(ids) && Packed(ids, caps, ps) && k < |ids|
    ensures CountOn(ps, ids[k]) == Held(caps, |ps|, k)
  {
    if ps == [] {
    } else {
      var i := |ps| - 1;
      PackedCounts(ids, caps, ps[..i], k);
      var j := SlotOf(ids, caps, ps, i);
      HeldGrows(caps, i, j, k);
    }
  }

  lemma PackedInOrder(ids: seq<string>, caps: seq<nat>, ps: seq<Placement>, j: nat, k: nat)
    requires Distinct(ids) && Packed(ids, caps, ps) && j < k < |ids|
    requires CountOn(ps, ids[k]) > 0
    ensures CountOn(ps, ids[j]) == caps[j]
  {
    PackedCounts(ids, caps, ps, j);
    PackedCounts(ids, caps, ps, k);
    OffsetsRise(caps, j + 1, k);
  }

  /** Of two packings of the same nodes the shorter is a prefix of the longer. */
  lemma PackedPrefix(ids: seq<string>, caps: seq<nat>, a: seq<Placement>, b: seq<Placement>)
    requires Packed(ids, caps, a) && Packed(ids, caps, b) && |a| <= |b|
    ensures a <= b
  {
    forall i | 0 <= i < |a| ensures a[i] == b[i] {
      var j := SlotOf(ids, caps, a, i);
      var k := SlotOf(ids, caps, b, i);
      SlotIsUnique(caps, i, j, k);
    }
  }

  lemma {:induction false} OffsetAtLeast(caps: seq<nat>, k: nat)
    requires k <= |caps| && forall i :: 0 <= i < |caps| ==> caps[i] >= 1
    ensures Offset(caps, k) >= k
  {
    if k == 0 {
    } else {
      OffsetAtLeast(caps, k - 1);
    }
  }

  lemma {:induction false} PackAll(ids: seq<string>, caps: seq<nat>, r: nat) returns (ps: seq<Placement>)
    requires |ids| == |caps| && r <= Capacity(caps)
    ensures |ps| == r && Packed(ids, caps, ps)
    decreases r
  {
    if r == 0 {
      ps := [];
    } else {
      var init := PackAll(ids, caps, r - 1);
      var k := FindSlot(caps, r - 1, |caps|);
      ps := init + [Placement(ids[k], r - 1)];
    }
  }

  lemma {:induction false} FindSlot(caps: seq<nat>, i: nat, n: nat) returns (k: nat)
    requires n <= |caps| && i < Offset(caps, n)
    ensures InSlot(caps, i, k)
    decreases n
  {
    if i >= Offset(caps, n - 1) {
      k := n - 1;
    } else {
      k := FindSlot(caps, i, n - 1);
    }
  }

  // ---------- the loop ----------

  function PerNode(m: map<string, nat>, id: string): nat {
    if id in m then m[id] else 0
  }

  /** The first node in rank order that is not full, or -1. */
  method Choose(ids: seq<string>, caps: seq<nat>, perNode: map<string, nat>, ghost i: nat)
    returns (chosen: int)
    requires |ids| == |caps|
    requires forall k :: 0 <= k < |ids| ==> PerNode(perNode, ids[k]) == Held(caps, i, k)
    ensures chosen < 0 <==> Capacity(caps) <= i
    ensures chosen >= 0 ==> InSlot(caps, i, chosen)
  {
    chosen := -1;
    for idx := 0 to |ids|
      invariant chosen == -1 && Offset(caps, idx) <= i
    {
      if PerNode(perNode, ids[idx]) >= caps[idx] { continue; }
      chosen := idx;
      OffsetsRise(caps, idx + 1, |caps|);
      break;
    }
  }

  /** The nested loop; a node's cap does not change while it runs. */
  method Pack(ids: seq<string>, caps: seq<nat>, replicas: nat)
    returns (placements: seq<Placement>, complete: bool)
    requires |ids| == |caps| && Distinct(ids)
    ensures Packed(ids, caps, placements)
    ensures |placements| == Min(replicas, Capacity(caps)) && complete == (replicas <= Capacity(caps))
  {
    var perNode: map<string, nat> := map[];
    placements := [];
    for i := 0 to replicas
      invariant |placements| == i <= Capacity(caps) && Packed(ids, caps, placements)
      invariant forall k :: 0 <= k < |ids| ==> PerNode(perNode, ids[k]) == Held(caps, i, k)
    {
      var chosen := Choose(ids, caps, perNode, i);
      if chosen < 0 { return placements, false; }
      OffsetsRise(caps, chosen + 1, |caps|);
      placements := placements + [Placement(ids[chosen], i)];
      perNode := perNode[ids[chosen] := PerNode(perNode, ids[chosen]) + 1];
      forall k | 0 <= k < |ids| ensures PerNode(perNode, ids[k]) == Held(caps, i + 1, k) {
        HeldGrows(caps, i, chosen, k);
      }
    }
    return placements, true;
  }
}
