/**
  The filter/score/pack scheduler (internal/scheduler/scheduler.go).

  The node list comes from the state store, which keys nodes by ID, so IDs are distinct.
  Scores are exact reals; integers are unbounded.
 */
module Scheduler {
  import opened Prelude
  import opened Ordering
  import opened Packing

  datatype Taint = Taint(key: string, value: string, effect: string)

  datatype Node = Node(
    id: string, unschedulable: bool, drain: bool, cordoned: bool, status: string,
    cpuAllocatable: int, cpuAllocated: int, memAllocatable: int, memAllocated: int, gpus: int,
    labels: map<string, string>, taints: seq<Taint>)

  datatype Workload = Workload(
    id: string, name: string, cpu: int, mem: int, gpus: int, replicas: int,
    nodeSelector: map<string, string>, tolerations: seq<string>, antiAffinity: seq<string>)

  datatype Decision = Decision(workloadId: string, placements: seq<Placement>, unscheduled: string)

  const NO_NODE := "no node satisfies filters"
  const NO_ROOM := "not enough capacity for all replicas"

  /** ValidateWorkload accepts the workload. */
  predicate Valid(w: Workload) {
    w.id != "" && w.cpu >= 0 && w.mem >= 0 && w.replicas >= 0
  }

  ghost predicate DistinctIds(nodes: seq<Node>) {
    forall i, j :: 0 <= i < j < |nodes| ==> nodes[i].id != nodes[j].id
  }

  // ---------- filter ----------

  function FreeCpu(n: Node): int { n.cpuAllocatable - n.cpuAllocated }

  function FreeMem(n: Node): int { n.memAllocatable - n.memAllocated }

  /** A missing label reads as the empty string. */
  predicate MatchSelector(sel: map<string, string>, labels: map<string, string>) {
    forall k :: k in sel ==> (if k in labels then labels[k] else "") == sel[k]
  }

  function FirstEquals(s: string): (i: nat)
    ensures i <= |s| && '=' !in s[..i]
    ensures i < |s| ==> s[i] == '='
  {
    if s == [] || s[0] == '=' then 0
    else
      var i := 1 + FirstEquals(s[1..]);
      assert s[..i] == [s[0]] + s[1..][..i - 1];
      i
  }

  /** One toleration, split at its first '=', matches a taint. */
  predicate Matches(toleration: string, t: Taint) {
    var i := FirstEquals(toleration);
    i < |toleration| && toleration[..i] == t.key &&
    (toleration[i + 1..] == "*" || toleration[i + 1..] == t.value)
  }

  predicate HasToleration(tol: seq<string>, t: Taint) {
    exists i :: 0 <= i < |tol| && Matches(tol[i], t)
  }

  predicate Tolerates(tol: seq<string>, taints: seq<Taint>) {
    forall i :: 0 <= i < |taints| ==> taints[i].effect == "NoSchedule" ==> HasToleration(tol, taints[i])
  }

  predicate Feasible(n: Node, w: Workload) {
    && !n.unschedulable && !n.drain && !n.cordoned && n.status == "Ready"
    && FreeCpu(n) >= w.cpu && FreeMem(n) >= w.mem && n.gpus >= w.gpus
    && MatchSelector(w.nodeSelector, n.labels) && Tolerates(w.tolerations, n.taints)
  }

  lemma FirstEqualsUnique(s: string, key: string, rest: string)
    requires s == key + "=" + rest && '=' !in key
    ensures FirstEquals(s) == |key|
  {
    assert s[|key|] == '=';
    assert forall j :: 0 <= j < |key| ==> s[j] == key[j];
    assert forall j :: 0 <= j < FirstEquals(s) ==> s[j] in s[..FirstEquals(s)];
  }

  lemma MatchesIff(toleration: string, t: Taint)
    ensures Matches(toleration, t) <==>
      '=' !in t.key && (toleration == t.key + "=*" || toleration == t.key + "=" + t.value)
  {
    var i := FirstEquals(toleration);
    if Matches(toleration, t) {
      assert toleration == toleration[..i] + "=" + toleration[i + 1..];
    }
    if '=' !in t.key && toleration == t.key + "=*" {
      FirstEqualsUnique(toleration, t.key, "*");
      assert toleration[|t.key| + 1..] == "*";
    }
    if '=' !in t.key && toleration == t.key + "=" + t.value {
      FirstEqualsUnique(toleration, t.key, t.value);
      assert toleration[|t.key| + 1..] == t.value;
    }
  }

  /**
    A taint is tolerated exactly by "key=*" or "key=value"; one whose key contains '=' never is,
    since tolerations are split at their first '='.
   */
  lemma TolerationIff(tol: seq<string>, t: Taint)
    ensures HasToleration(tol, t) <==>
      '=' !in t.key && (t.key + "=*" in tol || t.key + "=" + t.value in tol)
  {
    forall i | 0 <= i < |tol|
      ensures Matches(tol[i], t) <==>
        '=' !in t.key && (tol[i] == t.key + "=*" || tol[i] == t.key + "=" + t.value)
    {
      MatchesIff(tol[i], t);
    }
  }

  /** What a node needs to be given replicas, in its own fields. */
  ghost predicate Admits(n: Node, w: Workload) {
    && !n.unschedulable && !n.drain && !n.cordoned && n.status == "Ready"
    && n.cpuAllocated + w.cpu <= n.cpuAllocatable
    && n.memAllocated + w.mem <= n.memAllocatable
    && w.gpus <= n.gpus
    && (forall k, v :: (k, v) in w.nodeSelector.Items && v != "" ==> (k, v) in n.labels.Items)
    && (forall k :: k in w.nodeSelector && w.nodeSelector[k] == "" && k in n.labels ==> n.labels[k] == "")
    && (forall t :: t in n.taints && t.effect == "NoSchedule" ==>
          '=' !in t.key && (t.key + "=*" in w.tolerations || t.key + "=" + t.value in w.tolerations))
  }

  lemma SelectorIff(sel: map<string, string>, labels: map<string, string>)
    ensures MatchSelector(sel, labels) <==>
      && (forall k, v :: (k, v) in sel.Items && v != "" ==> (k, v) in labels.Items)
      && (forall k :: k in sel && sel[k] == "" && k in labels ==> labels[k] == "")
  {
    if MatchSelector(sel, labels) {
      forall k, v | (k, v) in sel.Items && v != "" ensures (k, v) in labels.Items {
        assert k in labels && labels[k] == v;
      }
    }
    if (forall k, v :: (k, v) in sel.Items && v != "" ==> (k, v) in labels.Items) &&
       (forall k :: k in sel && sel[k] == "" && k in labels ==> labels[k] == "") {
      forall k | k in sel ensures (if k in labels then labels[k] else "") == sel[k] {
        assert (k, sel[k]) in sel.Items;
        if sel[k] != "" { assert (k, sel[k]) in labels.Items; }
      }
    }
  }

  lemma ToleratesIff(tol: seq<string>, taints: seq<Taint>)
    ensures Tolerates(tol, taints) <==>
      forall t :: t in taints && t.effect == "NoSchedule" ==>
        '=' !in t.key && (t.key + "=*" in tol || t.key + "=" + t.value in tol)
  {
    forall t ensures HasToleration(tol, t) <==>
      '=' !in t.key && (t.key + "=*" in tol || t.key + "=" + t.value in tol)
    {
      TolerationIff(tol, t);
    }
    if Tolerates(tol, taints) {
      forall t | t in taints && t.effect == "NoSchedule" ensures HasToleration(tol, t) {
        var i :| 0 <= i < |taints| && taints[i] == t;
      }
    }
  }

  lemma FeasibleIff(n: Node, w: Workload)
    ensures Feasible(n, w) <==> Admits(n, w)
  {
    SelectorIff(w.nodeSelector, n.labels);
    ToleratesIff(w.tolerations, n.taints);
  }

  function Filtered(nodes: seq<Node>, w: Workload): seq<Node> {
    if nodes == [] then []
    else
      var rest := Filtered(nodes[..|nodes| - 1], w);
      if Feasible(nodes[|nodes| - 1], w) then rest + [nodes[|nodes| - 1]] else rest
  }

  method Filter(nodes: seq<Node>, w: Workload) returns (out: seq<Node>)
    ensures out == Filtered(nodes, w)
  {
    out := [];
    for i := 0 to |nodes|
      invariant out == Filtered(nodes[..i], w)
    {
      var n := nodes[i];
      assert nodes[..i + 1][..i] == nodes[..i];
      if n.unschedulable || n.drain || n.cordoned { continue; }
      if n.status != "Ready" { continue; }
      if n.cpuAllocatable - n.cpuAllocated < w.cpu { continue; }
      if n.memAllocatable - n.memAllocated < w.mem { continue; }
      if n.gpus < w.gpus { continue; }
      if !MatchSelector(w.nodeSelector, n.labels) { continue; }
      if !Tolerates(w.tolerations, n.taints) { continue; }
      out := out + [n];
    }
    assert nodes[..|nodes|] == nodes;
  }

  /** Filtering keeps exactly the feasible nodes, each once, and IDs stay distinct. */
  lemma {:induction false} FilteredExactly(nodes: seq<Node>, w: Workload)
    requires DistinctIds(nodes)
    ensures DistinctIds(Filtered(nodes, w))
    ensures forall n :: n in Filtered(nodes, w) <==> n in nodes && Feasible(n, w)
  {
    if nodes == [] {
    } else {
      var init, last := nodes[..|nodes| - 1], nodes[|nodes| - 1];
      FilteredExactly(init, w);
      assert nodes == init + [last];
      forall i | 0 <= i < |Filtered(init, w)| ensures Filtered(init, w)[i].id != last.id {
        assert Filtered(init, w)[i] in init;
      }
    }
  }

  // ---------- score ----------

  /** Share of the node's resources that is free. */
  function Score(n: Node): real {
    var total := (n.cpuAllocatable + n.memAllocatable) as real;
    if total == 0.0 then 0.0
    else ((FreeCpu(n) as real) + (FreeMem(n) as real)) / total
  }

  /** On a node with sane counters the score runs from 0, all allocated, to 1, nothing allocated. */
  lemma ScoreIsFreeShare(n: Node)
    requires 0 <= n.cpuAllocated <= n.cpuAllocatable && 0 <= n.memAllocated <= n.memAllocatable
    requires n.cpuAllocatable + n.memAllocatable > 0
    ensures 0.0 <= Score(n) <= 1.0
    ensures Score(n) == 1.0 <==> n.cpuAllocated == 0 && n.memAllocated == 0
    ensures Score(n) == 0.0 <==> FreeCpu(n) == 0 && FreeMem(n) == 0
  {
    var total := (n.cpuAllocatable + n.memAllocatable) as real;
    var avail := (FreeCpu(n) as real) + (FreeMem(n) as real);
    ShareBounds(avail, total);
  }

  /** Nodes compare by free over total, cross-multiplied; a node without resources counts as full. */
  lemma ScoreComparesIff(a: Node, b: Node)
    requires a.cpuAllocatable + a.memAllocatable > 0 && b.cpuAllocatable + b.memAllocatable > 0
    ensures var freeA := a.cpuAllocatable - a.cpuAllocated + (a.memAllocatable - a.memAllocated);
      var freeB := b.cpuAllocatable - b.cpuAllocated + (b.memAllocatable - b.memAllocated);
      Score(a) > Score(b) <==>
      freeA * (b.cpuAllocatable + b.memAllocatable) > freeB * (a.cpuAllocatable + a.memAllocatable)
  {
    var freeA := a.cpuAllocatable - a.cpuAllocated + (a.memAllocatable - a.memAllocated);
    var freeB := b.cpuAllocatable - b.cpuAllocated + (b.memAllocatable - b.memAllocated);
    var totalA, totalB := a.cpuAllocatable + a.memAllocatable, b.cpuAllocatable + b.memAllocatable;
    SharesCompare(freeA as real, totalA as real, freeB as real, totalB as real);
    RealTimes(freeA, totalB);
    RealTimes(freeB, totalA);
  }

  lemma RealTimes(x: int, y: int)
    ensures (x as real) * (y as real) == (x * y) as real
  {
  }

  lemma SharesCompare(p: real, whole: real, q: real, whole': real)
    requires whole > 0.0 && whole' > 0.0
    ensures p / whole > q / whole' <==> p * whole' > q * whole
  {
    var a, b := p / whole, q / whole';
    assert a * whole == p && b * whole' == q;
    assert p * whole' - q * whole == (a - b) * (whole * whole');
    assert whole * whole' > 0.0;
  }

  lemma ShareBounds(part: real, whole: real)
    requires 0.0 <= part <= whole && whole > 0.0
    ensures 0.0 <= part / whole <= 1.0
    ensures part / whole == 1.0 <==> part == whole
    ensures part / whole == 0.0 <==> part == 0.0
  {
    var q := part / whole;
    assert q * whole == part;
    assert (1.0 - q) * whole == whole - part;
  }

  /** Insertion after everything that scores at least as high. */
  function InsertRanked(n: Node, ranked: seq<Node>): seq<Node> {
    if ranked == [] || Score(ranked[|ranked| - 1]) >= Score(n) then ranked + [n]
    else InsertRanked(n, ranked[..|ranked| - 1]) + [ranked[|ranked| - 1]]
  }

  function Ranked(nodes: seq<Node>): seq<Node> {
    if nodes == [] then [] else InsertRanked(nodes[|nodes| - 1], Ranked(nodes[..|nodes| - 1]))
  }

  function IndexOf(nodes: seq<Node>, id: string): (i: nat)
    ensures i <= |nodes| && (i < |nodes| ==> nodes[i].id == id)
    ensures forall j :: 0 <= j < i ==> nodes[j].id != id
  {
    if nodes == [] || nodes[0].id == id then 0 else 1 + IndexOf(nodes[1..], id)
  }

  /** The order a stable descending sort of `nodes` establishes. */
  predicate Before(nodes: seq<Node>, a: Node, b: Node) {
    Score(a) > Score(b) || (Score(a) == Score(b) && IndexOf(nodes, a.id) < IndexOf(nodes, b.id))
  }

  ghost predicate StableDescending(nodes: seq<Node>, r: seq<Node>) {
    && multiset(r) == multiset(nodes)
    && forall i, j :: 0 <= i < j < |r| ==> Before(nodes, r[i], r[j])
  }

  lemma {:induction false} InsertRankedKeepsElements(n: Node, ranked: seq<Node>)
    ensures multiset(InsertRanked(n, ranked)) == multiset(ranked) + multiset{n}
  {
    if ranked == [] {
    } else {
      assert ranked == ranked[..|ranked| - 1] + [ranked[|ranked| - 1]];
      InsertRankedKeepsElements(n, ranked[..|ranked| - 1]);
    }
  }

  ghost predicate InOrder(nodes: seq<Node>, r: seq<Node>) {
    forall i, j :: 0 <= i < j < |r| ==> Before(nodes, r[i], r[j])
  }

  ghost predicate AllBefore(nodes: seq<Node>, r: seq<Node>, n: Node) {
    forall i :: 0 <= i < |r| ==> Before(nodes, r[i], n)
  }

  lemma OrderAppend(nodes: seq<Node>, r: seq<Node>, n: Node)
    requires InOrder(nodes, r) && AllBefore(nodes, r, n)
    ensures InOrder(nodes, r + [n])
  {
  }

  lemma InsertedBefore(nodes: seq<Node>, n: Node, init: seq<Node>, last: Node)
    requires Before(nodes, n, last) && AllBefore(nodes, init, last)
    ensures AllBefore(nodes, InsertRanked(n, init), last)
  {
    var part := InsertRanked(n, init);
    InsertRankedKeepsElements(n, init);
    forall i | 0 <= i < |part| ensures Before(nodes, part[i], last) {
      assert part[i] in multiset(part);
      if part[i] != n { assert part[i] in init; }
    }
  }

  lemma {:induction false} InsertRankedOrders(nodes: seq<Node>, n: Node, ranked: seq<Node>)
    requires InOrder(nodes, ranked)
    requires forall i :: 0 <= i < |ranked| ==> IndexOf(nodes, ranked[i].id) < IndexOf(nodes, n.id)
    ensures InOrder(nodes, InsertRanked(n, ranked))
  {
    if ranked == [] {
    } else {
      var init, last := ranked[..|ranked| - 1], ranked[|ranked| - 1];
      if Score(last) >= Score(n) {
        forall i | 0 <= i < |ranked| ensures Before(nodes, ranked[i], n) {
          if i < |ranked| - 1 { assert Before(nodes, ranked[i], last); }
        }
        OrderAppend(nodes, ranked, n);
      } else {
        InsertRankedOrders(nodes, n, init);
        forall i | 0 <= i < |init| ensures Before(nodes, init[i], last) { assert Before(nodes, ranked[i], last); }
        InsertedBefore(nodes, n, init, last);
        OrderAppend(nodes, InsertRanked(n, init), last);
      }
    }
  }

  lemma BeforeExtends(nodes: seq<Node>, more: Node, r: seq<Node>)
    requires forall i :: 0 <= i < |r| ==> r[i] in nodes
    requires forall i, j :: 0 <= i < j < |r| ==> Before(nodes, r[i], r[j])
    ensures forall i, j :: 0 <= i < j < |r| ==> Before(nodes + [more], r[i], r[j])
  {
    forall i, j | 0 <= i < j < |r| ensures Before(nodes + [more], r[i], r[j]) {
      IndexInPrefix(nodes, more, r[i]);
      IndexInPrefix(nodes, more, r[j]);
      assert Before(nodes, r[i], r[j]);
    }
  }

  lemma {:induction false} IndexInPrefix(nodes: seq<Node>, more: Node, n: Node)
    requires n in nodes
    ensures IndexOf(nodes, n.id) == IndexOf(nodes + [more], n.id) < |nodes|
  {
    var j :| 0 <= j < |nodes| && nodes[j] == n;
    var a, b := IndexOf(nodes, n.id), IndexOf(nodes + [more], n.id);
    assert a <= j && nodes[a] == (nodes + [more])[a];
    assert b <= a;
    assert (nodes + [more])[b] == nodes[b];
  }

  lemma IndexIs(nodes: seq<Node>, k: nat)
    requires DistinctIds(nodes) && k < |nodes|
    ensures IndexOf(nodes, nodes[k].id) == k
  {
  }

  /** The ranking is a permutation, descending by score, ties in list order. */
  lemma {:induction false} RankedIsStableDescending(nodes: seq<Node>)
    requires DistinctIds(nodes)
    ensures StableDescending(nodes, Ranked(nodes))
  {
    if nodes == [] {
    } else {
      var init, last := nodes[..|nodes| - 1], nodes[|nodes| - 1];
      assert nodes == init + [last];
      RankedIsStableDescending(init);
      var r := Ranked(init);
      InsertRankedKeepsElements(last, r);
      forall i | 0 <= i < |r| ensures r[i] in init { assert r[i] in multiset(r); }
      BeforeExtends(init, last, r);
      IndexIs(nodes, |init|);
      forall i | 0 <= i < |r| ensures IndexOf(nodes, r[i].id) < IndexOf(nodes, last.id) {
        IndexInPrefix(init, last, r[i]);
      }
      InsertRankedOrders(nodes, last, r);
    }
  }

  lemma NeverBothBefore(nodes: seq<Node>, a: Node, b: Node)
    ensures !(Before(nodes, a, b) && Before(nodes, b, a)) && !Before(nodes, a, a)
  {
  }

  lemma HeadIsBest(nodes: seq<Node>, a: seq<Node>, b: seq<Node>)
    requires multiset(a) == multiset(b) && a != [] && b != []
    requires forall i, j :: 0 <= i < j < |a| ==> Before(nodes, a[i], a[j])
    requires forall i, j :: 0 <= i < j < |b| ==> Before(nodes, b[i], b[j])
    ensures a[0] == b[0]
  {
    assert a[0] in multiset(b) && b[0] in multiset(a);
    var j :| 0 <= j < |b| && b[j] == a[0];
    var i :| 0 <= i < |a| && a[i] == b[0];
    NeverBothBefore(nodes, a[0], b[0]);
    if i > 0 { assert false; }
  }

  /** Any stable descending sort gives this ranking, whatever its algorithm. */
  lemma {:induction false} RankingIsUnique(nodes: seq<Node>, a: seq<Node>, b: seq<Node>)
    requires multiset(a) == multiset(b)
    requires forall i, j :: 0 <= i < j < |a| ==> Before(nodes, a[i], a[j])
    requires forall i, j :: 0 <= i < j < |b| ==> Before(nodes, b[i], b[j])
    ensures a == b
    decreases |a|
  {
    assert |a| == |multiset(a)| == |b|;
    if a == [] {
    } else {
      HeadIsBest(nodes, a, b);
      assert a == [a[0]] + a[1..] && b == [b[0]] + b[1..];
      assert multiset(a[1..]) == multiset(a) - multiset{a[0]};
      assert multiset(b[1..]) == multiset(b) - multiset{b[0]};
      RankingIsUnique(nodes, a[1..], b[1..]);
    }
  }

  /** Ranks by score.  The original calls the library's stable sort; by RankingIsUnique any gives this. */
  method ScoreNodes(nodes: seq<Node>) returns (out: seq<Node>)
    requires DistinctIds(nodes)
    ensures out == Ranked(nodes) && StableDescending(nodes, out)
  {
    out := [];
    for i := 0 to |nodes|
      invariant out == Ranked(nodes[..i])
    {
      assert nodes[..i + 1][..i] == nodes[..i];
      out := InsertRanked(nodes[i], out);
    }
    assert nodes[..|nodes|] == nodes;
    RankedIsStableDescending(nodes);
  }

  // ---------- capacity ----------

  predicate Contains(s: string, sub: string) {
    exists i :: 0 <= i <= |s| && HasPrefix(s[i..], sub)
  }

  /** The workload names itself in an anti-affinity rule; an unnamed one does so in any rule. */
  predicate AvoidsItself(w: Workload) {
    exists i :: 0 <= i < |w.antiAffinity| && Contains(w.antiAffinity[i], w.name)
  }

  /** The rule holds the workload's name somewhere in it. */
  lemma AvoidsItselfIff(w: Workload)
    ensures AvoidsItself(w) <==>
      exists i, left, right :: 0 <= i < |w.antiAffinity| && w.antiAffinity[i] == left + w.name + right
  {
    if i :| 0 <= i < |w.antiAffinity| && Contains(w.antiAffinity[i], w.name) {
      var a := w.antiAffinity[i];
      var k :| 0 <= k <= |a| && HasPrefix(a[k..], w.name);
      assert a == a[..k] + w.name + a[k + |w.name|..];
    }
    if i, left, right :| 0 <= i < |w.antiAffinity| && w.antiAffinity[i] == left + w.name + right {
      var a := w.antiAffinity[i];
      assert HasPrefix(a[|left|..], w.name);
      assert Contains(a, w.name);
    }
  }

  /** Go's division truncates toward zero. */
  function TruncDiv(a: int, b: int): int
    requires b != 0
  {
    if a >= 0 then a / b else -((-a) / b)
  }

  function MaxPerNode(w: Workload, n: Node): nat {
    if AvoidsItself(w) then 1
    else if w.cpu == 0 then 4
    else
      var c := TruncDiv(FreeCpu(n), w.cpu);
      if c > 4 then 4 else if c <= 0 then 0 else c
  }

  function Caps(w: Workload, ranked: seq<Node>): seq<nat> {
    seq(|ranked|, i requires 0 <= i < |ranked| => MaxPerNode(w, ranked[i]))
  }

  // ---------- the plan ----------

  function Ids(nodes: seq<Node>): seq<string> {
    seq(|nodes|, i requires 0 <= i < |nodes| => nodes[i].id)
  }

  /** What Plan decides, stated without running its loops. */
  ghost predicate IsPlan(nodes: seq<Node>, w: Workload, d: Decision) {
    var feasible := Filtered(nodes, w);
    var ranked := Ranked(feasible);
    var caps := Caps(w, ranked);
    && d.workloadId == w.id
    && |d.placements| == Min(w.replicas, Capacity(caps))
    && Packed(Ids(ranked), caps, d.placements)
    && d.unscheduled == (if feasible == [] then NO_NODE else if w.replicas > Capacity(caps) then NO_ROOM else "")
  }

  /** A negative replica count makes the original panic when it sizes its result. */
  method Plan(nodes: seq<Node>, w: Workload) returns (d: Decision)
    requires DistinctIds(nodes) && w.replicas >= 0
    ensures IsPlan(nodes, w, d)
  {
    var filtered := Filter(nodes, w);
    if |filtered| == 0 {
      return Decision(w.id, [], NO_NODE);
    }
    FilteredExactly(nodes, w);
    var scored := ScoreNodes(filtered);
    RankedDistinct(filtered);
    var placements, complete := Pack(Ids(scored), Caps(w, scored), w.replicas);
    return Decision(w.id, placements, if complete then "" else NO_ROOM);
  }

  lemma RankedDistinct(nodes: seq<Node>)
    requires DistinctIds(nodes)
    ensures DistinctIds(Ranked(nodes)) && |Ranked(nodes)| == |nodes|
    ensures forall n :: n in Ranked(nodes) <==> n in nodes
  {
    RankedIsStableDescending(nodes);
    var r := Ranked(nodes);
    assert |multiset(r)| == |r| && |multiset(nodes)| == |nodes|;
    forall n ensures n in r <==> n in nodes { assert n in multiset(r) <==> n in multiset(nodes); }
    forall i, j | 0 <= i < j < |r| ensures r[i].id != r[j].id {
      assert Before(nodes, r[i], r[j]);
      assert r[i] in nodes && r[j] in nodes;
    }
  }

  // ---------- what a plan promises ----------

  /** The ranked feasible nodes of a plan: distinct, and exactly the feasible ones. */
  lemma {:induction false} PlanRanking(nodes: seq<Node>, w: Workload)
    requires DistinctIds(nodes)
    ensures var ranked := Ranked(Filtered(nodes, w));
      && DistinctIds(ranked) && Distinct(Ids(ranked)) && |ranked| == |Filtered(nodes, w)|
      && StableDescending(Filtered(nodes, w), ranked)
      && forall n :: n in ranked <==> n in nodes && Feasible(n, w)
  {
    FilteredExactly(nodes, w);
    RankedDistinct(Filtered(nodes, w));
    RankedIsStableDescending(Filtered(nodes, w));
  }

  /** Replica i goes to the k-th ranked node exactly when i lies between the cap sums around k. */
  lemma {:induction false} ReplicaGoesToItsSlot(nodes: seq<Node>, w: Workload, d: Decision, i: nat, k: nat)
    requires DistinctIds(nodes) && IsPlan(nodes, w, d) && i < |d.placements|
    requires k < |Ranked(Filtered(nodes, w))|
    ensures var ranked := Ranked(Filtered(nodes, w)); var caps := Caps(w, ranked);
      d.placements[i].nodeId == ranked[k].id <==> Offset(caps, k) <= i < Offset(caps, k + 1)
  {
    PlanRanking(nodes, w);
    var ranked := Ranked(Filtered(nodes, w));
    PackedAt(Ids(ranked), Caps(w, ranked), d.placements, i, k);
  }

  /** A node gets a replica only when every better ranked node is full. */
  lemma {:induction false} BetterNodesAreFull(nodes: seq<Node>, w: Workload, d: Decision, j: nat, k: nat)
    requires DistinctIds(nodes) && IsPlan(nodes, w, d) && j < k < |Ranked(Filtered(nodes, w))|
    requires CountOn(d.placements, Ranked(Filtered(nodes, w))[k].id) > 0
    ensures var better := Ranked(Filtered(nodes, w))[j];
      CountOn(d.placements, better.id) == MaxPerNode(w, better)
  {
    PlanRanking(nodes, w);
    var ranked := Ranked(Filtered(nodes, w));
    PackedInOrder(Ids(ranked), Caps(w, ranked), d.placements, j, k);
  }

  /** Replicas only go to feasible nodes, and to none beyond its cap. */
  lemma PlacedOnFeasibleNodes(nodes: seq<Node>, w: Workload, d: Decision, i: nat)
    requires DistinctIds(nodes) && IsPlan(nodes, w, d) && i < |d.placements|
    ensures exists n :: n in nodes && Feasible(n, w) && n.id == d.placements[i].nodeId
  {
    PlanRanking(nodes, w);
    var ranked := Ranked(Filtered(nodes, w));
    var k := SlotOf(Ids(ranked), Caps(w, ranked), d.placements, i);
    assert ranked[k] in ranked;
  }

  /**
    In the nodes' own fields: every replica is on a node that is up, has the free CPU, memory and GPUs,
    carries the selected labels and whose taints are tolerated; and the plan says that no node will do
    exactly when every node fails one of these.
   */
  lemma {:induction false} PlanHonoursRequirements(nodes: seq<Node>, w: Workload, d: Decision)
    requires DistinctIds(nodes) && IsPlan(nodes, w, d)
    ensures forall i :: 0 <= i < |d.placements| ==> d.placements[i].replicaIdx == i
    ensures forall i :: 0 <= i < |d.placements| ==>
      exists n :: n in nodes && n.id == d.placements[i].nodeId && Admits(n, w)
    ensures d.unscheduled == "no node satisfies filters" <==> forall n :: n in nodes ==> !Admits(n, w)
    ensures (exists n :: n in nodes && Admits(n, w)) ==>
      d.unscheduled == if |d.placements| == w.replicas then "" else "not enough capacity for all replicas"
  {
    forall i | 0 <= i < |d.placements|
      ensures exists n :: n in nodes && n.id == d.placements[i].nodeId && Admits(n, w)
    {
      PlacedOnFeasibleNodes(nodes, w, d, i);
      var n :| n in nodes && Feasible(n, w) && n.id == d.placements[i].nodeId;
      FeasibleIff(n, w);
    }
    FilteredExactly(nodes, w);
    forall n ensures Feasible(n, w) <==> Admits(n, w) { FeasibleIff(n, w); }
    MessagesDiffer();
    if Filtered(nodes, w) != [] { assert Filtered(nodes, w)[0] in Filtered(nodes, w); }
  }

  lemma MessagesDiffer()
    ensures NO_ROOM != NO_NODE && NO_NODE != ""
  {
    assert NO_ROOM[2] != NO_NODE[2];
  }

  /** The ranked IDs, caps and placements behind a plan. */
  lemma PlanParts(nodes: seq<Node>, w: Workload, d: Decision)
    returns (ranked: seq<Node>, ids: seq<string>, caps: seq<nat>)
    requires DistinctIds(nodes) && IsPlan(nodes, w, d)
    ensures Distinct(ids) && Packed(ids, caps, d.placements) && |d.placements| == Min(w.replicas, Capacity(caps))
    ensures |ranked| == |ids| == |caps| == |Filtered(nodes, w)|
    ensures forall n :: n in ranked <==> n in nodes && Feasible(n, w)
    ensures forall k :: 0 <= k < |ranked| ==> ids[k] == ranked[k].id && caps[k] == MaxPerNode(w, ranked[k])
  {
    PlanRanking(nodes, w);
    ranked := Ranked(Filtered(nodes, w));
    ids, caps := Ids(ranked), Caps(w, ranked);
  }

  lemma {:induction false} CountWithinCap(nodes: seq<Node>, w: Workload, d: Decision, n: Node)
    requires DistinctIds(nodes) && IsPlan(nodes, w, d) && n in nodes && Feasible(n, w)
    ensures CountOn(d.placements, n.id) <= MaxPerNode(w, n)
  {
    var ranked, ids, caps := PlanParts(nodes, w, d);
    assert n in ranked;
    var k :| 0 <= k < |ranked| && ranked[k] == n;
    PackedCounts(ids, caps, d.placements, k);
  }

  lemma TimesMonotone(a: int, b: int, c: int)
    requires a <= b && c >= 0
    ensures a * c <= b * c
  {
  }

  lemma DivisionFits(a: int, b: int)
    requires 0 < b <= a
    ensures a / b >= 1 && (a / b) * b <= a < (a / b + 1) * b
  {
  }

  /** The cap is the most replicas, up to four, whose CPU fits: or one, under anti-affinity. */
  lemma CapFitsCpu(w: Workload, n: Node)
    requires w.cpu >= 0 && Feasible(n, w)
    ensures 1 <= MaxPerNode(w, n) <= 4 && MaxPerNode(w, n) * w.cpu <= FreeCpu(n)
    ensures !AvoidsItself(w) ==> MaxPerNode(w, n) == 4 || (MaxPerNode(w, n) + 1) * w.cpu > FreeCpu(n)
  {
    if w.cpu > 0 {
      DivisionFits(FreeCpu(n), w.cpu);
      TimesMonotone(MaxPerNode(w, n), FreeCpu(n) / w.cpu, w.cpu);
    }
  }

  /** All replicas on a node together fit its free CPU. */
  lemma {:induction false} CpuNeverExceeded(nodes: seq<Node>, w: Workload, d: Decision, n: Node)
    requires DistinctIds(nodes) && Valid(w) && IsPlan(nodes, w, d) && n in nodes && Feasible(n, w)
    ensures CountOn(d.placements, n.id) * w.cpu <= FreeCpu(n)
  {
    CountWithinCap(nodes, w, d, n);
    CapFitsCpu(w, n);
    TimesMonotone(CountOn(d.placements, n.id), MaxPerNode(w, n), w.cpu);
  }

  /** Every replica is placed when there are at least as many feasible nodes. */
  lemma {:induction false} AllPlacedWhenEnoughNodes(nodes: seq<Node>, w: Workload, d: Decision)
    requires DistinctIds(nodes) && Valid(w) && IsPlan(nodes, w, d)
    requires w.replicas <= |Filtered(nodes, w)|
    ensures |d.placements| == w.replicas
  {
    var ranked, ids, caps := PlanParts(nodes, w, d);
    forall i | 0 <= i < |caps| ensures caps[i] >= 1 {
      assert ranked[i] in ranked;
      CapFitsCpu(w, ranked[i]);
    }
    OffsetAtLeast(caps, |caps|);
  }

  /** A workload that avoids itself never has two replicas on one node. */
  lemma AntiAffinityIsHonoured(nodes: seq<Node>, w: Workload, d: Decision, i: nat, j: nat)
    requires DistinctIds(nodes) && IsPlan(nodes, w, d) && AvoidsItself(w)
    requires i < j < |d.placements|
    ensures d.placements[i].nodeId != d.placements[j].nodeId
  {
    var ranked, ids, caps := PlanParts(nodes, w, d);
    var k := SlotOf(ids, caps, d.placements, i);
    PackedAt(ids, caps, d.placements, j, k);
    assert caps[k] == 1;
  }

  /** Raising the replica count only appends: no replica that was placed moves. */
  lemma ScalingKeepsPlacements(nodes: seq<Node>, w: Workload, replicas: int, d: Decision, d': Decision)
    requires DistinctIds(nodes) && w.replicas <= replicas
    requires IsPlan(nodes, w, d) && IsPlan(nodes, w.(replicas := replicas), d')
    ensures d.placements <= d'.placements
  {
    var w' := w.(replicas := replicas);
    SameCandidates(nodes, w, replicas);
    PlanRanking(nodes, w);
    var ranked := Ranked(Filtered(nodes, w));
    var caps := Caps(w, ranked);
    SameCaps(w, replicas, ranked);
    PackedPrefix(Ids(ranked), caps, d.placements, d'.placements);
  }

  lemma {:induction false} SameCandidates(nodes: seq<Node>, w: Workload, replicas: int)
    ensures Filtered(nodes, w.(replicas := replicas)) == Filtered(nodes, w)
  {
    if nodes == [] {
    } else {
      SameCandidates(nodes[..|nodes| - 1], w, replicas);
    }
  }

  lemma SameCaps(w: Workload, replicas: int, ranked: seq<Node>)
    ensures Caps(w.(replicas := replicas), ranked) == Caps(w, ranked)
  {
  }

  /** A plan is determined by the nodes and the workload. */
  lemma PlanIsUnique(nodes: seq<Node>, w: Workload, d: Decision, d': Decision)
    requires DistinctIds(nodes) && IsPlan(nodes, w, d) && IsPlan(nodes, w, d')
    ensures d == d'
  {
    ScalingKeepsPlacements(nodes, w, w.replicas, d, d');
    ScalingKeepsPlacements(nodes, w, w.replicas, d', d);
  }

  // ---------- memory is checked for one replica only ----------

  ghost predicate MemoryFits(nodes: seq<Node>, w: Workload, d: Decision) {
    forall n :: n in nodes && Feasible(n, w) ==> CountOn(d.placements, n.id) * w.mem <= FreeMem(n)
  }

  /** Node k in rank order gets no more memory than it has. */
  predicate RankFits(w: Workload, ranked: seq<Node>, caps: seq<nat>, k: nat)
    requires k < |ranked| == |caps| && w.replicas >= 0
  {
    Held(caps, w.replicas, k) * w.mem <= FreeMem(ranked[k])
  }

  lemma {:induction false} PlanHolds(nodes: seq<Node>, w: Workload, d: Decision, k: nat)
    requires DistinctIds(nodes) && w.replicas >= 0 && IsPlan(nodes, w, d) && k < |Ranked(Filtered(nodes, w))|
    ensures var ranked := Ranked(Filtered(nodes, w));
      CountOn(d.placements, ranked[k].id) == Held(Caps(w, ranked), w.replicas, k)
  {
    PlanRanking(nodes, w);
    var ranked := Ranked(Filtered(nodes, w));
    PackedCounts(Ids(ranked), Caps(w, ranked), d.placements, k);
    HeldUpToCapacity(Caps(w, ranked), w.replicas, k);
  }

  /**
    A workload's plan keeps within free memory exactly when, the nodes taken in rank order and filled
    up to their caps, the memory of what each then holds is free: all of it known before placing.
   */
  lemma {:induction false} MemoryFitsIff(nodes: seq<Node>, w: Workload, d: Decision)
    requires DistinctIds(nodes) && w.replicas >= 0 && IsPlan(nodes, w, d)
    ensures var ranked := Ranked(Filtered(nodes, w));
      MemoryFits(nodes, w, d) <==> forall k :: 0 <= k < |ranked| ==> RankFits(w, ranked, Caps(w, ranked), k)
  {
    PlanRanking(nodes, w);
    var ranked := Ranked(Filtered(nodes, w));
    var caps := Caps(w, ranked);
    forall k | 0 <= k < |ranked| ensures CountOn(d.placements, ranked[k].id) == Held(caps, w.replicas, k) {
      PlanHolds(nodes, w, d, k);
    }
    if MemoryFits(nodes, w, d) {
      forall k | 0 <= k < |ranked| ensures RankFits(w, ranked, caps, k) { assert ranked[k] in ranked; }
    }
    if forall k :: 0 <= k < |ranked| ==> RankFits(w, ranked, caps, k) {
      forall n | n in nodes && Feasible(n, w) ensures CountOn(d.placements, n.id) * w.mem <= FreeMem(n) {
        var k :| 0 <= k < |ranked| && ranked[k] == n;
        assert RankFits(w, ranked, caps, k);
      }
    }
  }

  /**
    Plans of every size keep within free memory exactly when each feasible node has room for as
    many replicas as its CPU-based cap allows.
   */
  lemma {:induction false} MemorySafeIff(nodes: seq<Node>, w: Workload)
    requires DistinctIds(nodes) && Valid(w)
    ensures (forall r: nat, d :: IsPlan(nodes, w.(replicas := r), d) ==> MemoryFits(nodes, w.(replicas := r), d)) <==>
            (forall n :: n in nodes && Feasible(n, w) ==> MaxPerNode(w, n) * w.mem <= FreeMem(n))
  {
    if forall n :: n in nodes && Feasible(n, w) ==> MaxPerNode(w, n) * w.mem <= FreeMem(n) {
      forall r: nat, d | IsPlan(nodes, w.(replicas := r), d) ensures MemoryFits(nodes, w.(replicas := r), d) {
        var w' := w.(replicas := r);
        forall n | n in nodes && Feasible(n, w') ensures CountOn(d.placements, n.id) * w.mem <= FreeMem(n) {
          CountWithinCap(nodes, w', d, n);
          assert Feasible(n, w) && MaxPerNode(w', n) == MaxPerNode(w, n);
          TimesMonotone(CountOn(d.placements, n.id), MaxPerNode(w, n), w.mem);
        }
      }
    } else {
      var n :| n in nodes && Feasible(n, w) && MaxPerNode(w, n) * w.mem > FreeMem(n);
      var r, d := FullPlan(nodes, w, n);
      assert !MemoryFits(nodes, w.(replicas := r), d);
    }
  }

  /** There is a plan for every replica count. */
  lemma SomePlan(nodes: seq<Node>, w: Workload) returns (d: Decision)
    requires DistinctIds(nodes) && w.replicas >= 0
    ensures IsPlan(nodes, w, d)
  {
    PlanRanking(nodes, w);
    var ranked := Ranked(Filtered(nodes, w));
    var caps := Caps(w, ranked);
    var ps := PackAll(Ids(ranked), caps, Min(w.replicas, Capacity(caps)));
    d := Decision(w.id, ps,
      if Filtered(nodes, w) == [] then NO_NODE else if w.replicas > Capacity(caps) then NO_ROOM else "");
  }

  /** Some plan fills a given node up to its cap. */
  lemma FullPlan(nodes: seq<Node>, w: Workload, n: Node) returns (r: nat, d: Decision)
    requires DistinctIds(nodes) && n in nodes && Feasible(n, w)
    ensures IsPlan(nodes, w.(replicas := r), d)
    ensures CountOn(d.placements, n.id) == MaxPerNode(w, n) && Feasible(n, w.(replicas := r))
  {
    PlanRanking(nodes, w);
    var ranked := Ranked(Filtered(nodes, w));
    var caps := Caps(w, ranked);
    r := Capacity(caps);
    SameCandidates(nodes, w, r);
    SameCaps(w, r, ranked);
    d := SomePlan(nodes, w.(replicas := r));
    var k :| 0 <= k < |ranked| && ranked[k] == n;
    FullSlot(Ids(ranked), caps, d.placements, k);
  }

  lemma FullSlot(ids: seq<string>, caps: seq<nat>, ps: seq<Placement>, k: nat)
    requires Distinct(ids) && Packed(ids, caps, ps) && |ps| == Capacity(caps) && k < |ids|
    ensures CountOn(ps, ids[k]) == caps[k]
  {
    PackedCounts(ids, caps, ps, k);
    OffsetsRise(caps, k + 1, |caps|);
  }
}
