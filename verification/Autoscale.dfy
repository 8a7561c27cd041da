/**
  The autoscaler (internal/autoscale/autoscale.go).  Time and the measured CPU are arguments;
  `now` is when an evaluation checks its cooldown, `done` when it records the change.
 */
module Autoscale {
  import opened Prelude

  datatype Policy = Policy(
    min: int, max: int, targetCpu: real, scaleUpBy: int, scaleDownBy: int, cooldown: int)

  /** A workload as the autoscaler sees it: replicas, and when it last changed them. */
  datatype Workload = Workload(replicas: int, last: Option<int>)

  datatype Sample = Sample(avg: real, now: int, done: int, storeOk: bool)

  /** Go's conversion to a 32-bit integer. */
  function ToInt32(x: int): int {
    (x + 0x8000_0000) % 0x1_0000_0000 - 0x8000_0000
  }

  function Raised(p: Policy, replicas: int, avg: real): int {
    if avg > p.targetCpu && replicas < p.max then Min(replicas + p.scaleUpBy, p.max) else replicas
  }

  function Want(p: Policy, replicas: int, avg: real): int {
    var want := Raised(p, replicas, avg);
    if avg < p.targetCpu / 2.0 && replicas > p.min then Max(want - p.scaleDownBy, p.min) else want
  }

  predicate Cooling(p: Policy, w: Workload, now: int) {
    w.last.Some? && now - w.last.value < p.cooldown
  }

  predicate Changes(p: Policy, w: Workload, s: Sample) {
    !Cooling(p, w, s.now) && Want(p, w.replicas, s.avg) != w.replicas && s.storeOk
  }

  function Evaluate(p: Policy, w: Workload, s: Sample): Workload {
    if Changes(p, w, s) then Workload(ToInt32(Want(p, w.replicas, s.avg)), Some(s.done)) else w
  }

  function Run(p: Policy, w: Workload, samples: seq<Sample>): Workload {
    if samples == [] then w
    else Evaluate(p, Run(p, w, samples[..|samples| - 1]), samples[|samples| - 1])
  }

  predicate Sane(p: Policy) {
    -0x8000_0000 <= p.min <= p.max < 0x8000_0000 && p.scaleUpBy >= 0 && p.scaleDownBy >= 0
  }

  /** From a replica count in range, whatever is measured, every run stays in range. */
  lemma {:induction false} StaysInRange(p: Policy, w: Workload, samples: seq<Sample>)
    requires Sane(p) && p.min <= w.replicas <= p.max
    ensures p.min <= Run(p, w, samples).replicas <= p.max
  {
    if samples == [] {
    } else {
      StaysInRange(p, w, samples[..|samples| - 1]);
    }
  }

  /** Above the maximum, load never brings the count down; below the minimum, idleness never up. */
  lemma {:induction false} OutOfRangeStays(p: Policy, w: Workload, samples: seq<Sample>)
    requires p.targetCpu >= 0.0
    requires (w.replicas >= p.max && forall i :: 0 <= i < |samples| ==> samples[i].avg >= p.targetCpu / 2.0) ||
             (w.replicas <= p.min && forall i :: 0 <= i < |samples| ==> samples[i].avg <= p.targetCpu)
    ensures Run(p, w, samples) == w
  {
    if samples == [] {
    } else {
      OutOfRangeStays(p, w, samples[..|samples| - 1]);
    }
  }

  // ---------- cooldown ----------

  /** When the replica count was changed. */
  function ChangeTimes(p: Policy, w: Workload, samples: seq<Sample>): seq<int> {
    if samples == [] then []
    else
      var init, s := samples[..|samples| - 1], samples[|samples| - 1];
      var before := ChangeTimes(p, w, init);
      if Changes(p, Run(p, w, init), s) then before + [s.now] else before
  }

  /** Under a fixed policy, changes are at least the cooldown apart. */
  lemma {:induction false} ChangesRespectCooldown(p: Policy, w: Workload, samples: seq<Sample>)
    requires forall i :: 0 <= i < |samples| ==> samples[i].now <= samples[i].done
    ensures var ts := ChangeTimes(p, w, samples);
      && (forall i :: 0 <= i < |ts| - 1 ==> ts[i + 1] - ts[i] >= p.cooldown)
      && (ts != [] ==> Run(p, w, samples).last.Some? && Run(p, w, samples).last.value >= ts[|ts| - 1])
      && (ts == [] ==> Run(p, w, samples) == w)
  {
    if samples == [] {
    } else {
      ChangesRespectCooldown(p, w, samples[..|samples| - 1]);
    }
  }

  // ---------- convergence ----------

  /** The evaluation is not held back by the cooldown or the store. */
  ghost predicate AllEffective(p: Policy, w: Workload, samples: seq<Sample>) {
    forall i :: 0 <= i < |samples| ==>
      samples[i].storeOk && Rested(p, Run(p, w, samples[..i]).last, samples[i].now)
  }

  /** The last change, if any, lies at least the cooldown back. */
  predicate Rested(p: Policy, last: Option<int>, now: int) {
    last == None || last.value + p.cooldown <= now
  }

  /** An evaluation changes the count when rested and the store accepts, on load with room above or idleness below. */
  lemma ChangesIff(p: Policy, w: Workload, s: Sample)
    requires Sane(p) && p.scaleUpBy > 0 && p.scaleDownBy > 0 && p.targetCpu >= 0.0
    requires p.min <= w.replicas <= p.max
    ensures Evaluate(p, w, s).replicas != w.replicas <==>
      && Rested(p, w.last, s.now) && s.storeOk
      && ((s.avg > p.targetCpu && w.replicas < p.max) || (s.avg < p.targetCpu / 2.0 && w.replicas > p.min))
    ensures Evaluate(p, w, s).replicas != w.replicas ==> Evaluate(p, w, s).last == Some(s.done)
    ensures Evaluate(p, w, s).replicas == w.replicas ==> Evaluate(p, w, s) == w
  {
    Int32Keeps(Want(p, w.replicas, s.avg));
  }

  /** The stored count always fits 32 bits, whatever the policy; a wanted count beyond wraps around. */
  lemma {:induction false} StoredFitsInt32(p: Policy, w: Workload, samples: seq<Sample>)
    requires -2147483648 <= w.replicas <= 2147483647
    ensures -2147483648 <= Run(p, w, samples).replicas <= 2147483647
    decreases |samples|
  {
    if samples == [] {
    } else {
      var init, s := samples[..|samples| - 1], samples[|samples| - 1];
      StoredFitsInt32(p, w, init);
      Int32Wraps(Want(p, Run(p, w, init).replicas, s.avg));
    }
  }

  /** Below a target of zero a load can count as high and as low: the count is raised and then lowered again. */
  lemma BothApplyBelowZero(p: Policy, w: Workload, s: Sample)
    requires Sane(p) && p.min < w.replicas < p.max && p.targetCpu < s.avg < p.targetCpu / 2.0
    requires s.storeOk && Rested(p, w.last, s.now)
    ensures Evaluate(p, w, s).replicas == Max(Min(w.replicas + p.scaleUpBy, p.max) - p.scaleDownBy, p.min)
  {
    Int32Keeps(Want(p, w.replicas, s.avg));
  }

  /** Between half the target and the target nothing ever changes, whatever the policy and the count. */
  lemma {:induction false} SteadyLoadChangesNothing(p: Policy, w: Workload, samples: seq<Sample>)
    requires forall i :: 0 <= i < |samples| ==> p.targetCpu / 2.0 <= samples[i].avg <= p.targetCpu
    ensures Run(p, w, samples) == w
  {
    if samples == [] {
    } else {
      SteadyLoadChangesNothing(p, w, samples[..|samples| - 1]);
    }
  }

  lemma EffectiveInit(p: Policy, w: Workload, samples: seq<Sample>)
    requires AllEffective(p, w, samples) && samples != []
    ensures AllEffective(p, w, samples[..|samples| - 1])
    ensures Rested(p, Run(p, w, samples[..|samples| - 1]).last, samples[|samples| - 1].now)
  {
    var init := samples[..|samples| - 1];
    forall i | 0 <= i < |init| ensures init[i].storeOk && Rested(p, Run(p, w, init[..i]).last, init[i].now) {
      assert init[..i] == samples[..i];
    }
  }

  /** The stored count is the wanted one up to a multiple of 2^32, and fits 32 bits. */
  lemma Int32Wraps(x: int)
    ensures -2147483648 <= ToInt32(x) <= 2147483647 && (ToInt32(x) - x) % 4294967296 == 0
  {
    var y := x + 0x8000_0000;
    assert ToInt32(x) - x == -(y / 0x1_0000_0000) * 0x1_0000_0000;
  }

  lemma Int32Keeps(x: int)
    requires -0x8000_0000 <= x < 0x8000_0000
    ensures ToInt32(x) == x
  {
  }

  lemma RaisesOnce(p: Policy, w: Workload, s: Sample)
    requires Sane(p) && p.targetCpu >= 0.0 && p.min <= w.replicas <= p.max
    requires s.storeOk && Rested(p, w.last, s.now) && s.avg > p.targetCpu
    ensures Evaluate(p, w, s).replicas ==
      if w.replicas < p.max then Min(w.replicas + p.scaleUpBy, p.max) else w.replicas
  {
    Int32Keeps(Want(p, w.replicas, s.avg));
  }

  lemma LowersOnce(p: Policy, w: Workload, s: Sample)
    requires Sane(p) && p.targetCpu >= 0.0 && p.min <= w.replicas <= p.max
    requires s.storeOk && Rested(p, w.last, s.now) && s.avg < p.targetCpu / 2.0
    ensures Evaluate(p, w, s).replicas ==
      if w.replicas > p.min then Max(w.replicas - p.scaleDownBy, p.min) else w.replicas
  {
    Int32Keeps(Want(p, w.replicas, s.avg));
  }

  lemma ClampStep(r: int, k: nat, d: nat, bound: int)
    requires r <= bound
    ensures Min(r + (k + 1) * d, bound) ==
      (var x := Min(r + k * d, bound); if x < bound then Min(x + d, bound) else x)
  {
    assert (k + 1) * d == k * d + d;
  }

  lemma ClampDown(r: int, k: nat, d: nat, bound: int)
    requires r >= bound
    ensures Max(r - (k + 1) * d, bound) ==
      (var x := Max(r - k * d, bound); if x > bound then Max(x - d, bound) else x)
  {
    assert (k + 1) * d == k * d + d;
  }

  /** k effective evaluations under load give exactly min(R + k * ScaleUpBy, Max). */
  lemma {:induction false} LoadScalesUp(p: Policy, w: Workload, samples: seq<Sample>)
    requires Sane(p) && p.targetCpu >= 0.0 && p.min <= w.replicas <= p.max
    requires AllEffective(p, w, samples)
    requires forall i :: 0 <= i < |samples| ==> samples[i].avg > p.targetCpu
    ensures Run(p, w, samples).replicas == Min(w.replicas + |samples| * p.scaleUpBy, p.max)
  {
    if samples == [] {
    } else {
      var init := samples[..|samples| - 1];
      EffectiveInit(p, w, samples);
      LoadScalesUp(p, w, init);
      StaysInRange(p, w, init);
      RaisesOnce(p, Run(p, w, init), samples[|samples| - 1]);
      ClampStep(w.replicas, |samples| - 1, p.scaleUpBy, p.max);
    }
  }

  /** And k effective idle evaluations give max(R - k * ScaleDownBy, Min). */
  lemma {:induction false} IdleScalesDown(p: Policy, w: Workload, samples: seq<Sample>)
    requires Sane(p) && p.targetCpu >= 0.0 && p.min <= w.replicas <= p.max
    requires AllEffective(p, w, samples)
    requires forall i :: 0 <= i < |samples| ==> samples[i].avg < p.targetCpu / 2.0
    ensures Run(p, w, samples).replicas == Max(w.replicas - |samples| * p.scaleDownBy, p.min)
  {
    if samples == [] {
    } else {
      var init := samples[..|samples| - 1];
      EffectiveInit(p, w, samples);
      IdleScalesDown(p, w, init);
      StaysInRange(p, w, init);
      LowersOnce(p, Run(p, w, init), samples[|samples| - 1]);
      ClampDown(w.replicas, |samples| - 1, p.scaleDownBy, p.min);
    }
  }

  // ---------- the controller ----------

  datatype Id = Id(project: string, workload: string)

  /** The string under which a workload's policy and last change are kept. */
  function Key(id: Id): string {
    id.project + "/" + id.workload
  }

  /** Part of a's workload name can be read as part of b's project name. */
  predicate ReadsAs(a: Id, b: Id, x: string) {
    b.project == a.project + "/" + x && a.workload == x + "/" + b.workload
  }

  lemma ShorterProject(a: Id, b: Id)
    requires Key(a) == Key(b) && |a.project| <= |b.project|
    ensures a == b || exists x :: ReadsAs(a, b, x)
  {
    var k, n := Key(a), |a.project|;
    assert k[..n] == a.project && k[..|b.project|] == b.project;
    assert k[n + 1..] == a.workload && k[|b.project| + 1..] == b.workload;
    if n < |b.project| {
      assert b.project[n] == k[n] == '/';
      var x := b.project[n + 1..];
      assert b.project == a.project + "/" + x;
      assert a.workload == k[n + 1..|b.project|] + k[|b.project|..];
      assert k[|b.project|..] == "/" + b.workload && k[n + 1..|b.project|] == x;
      assert ReadsAs(a, b, x);
    }
  }

  lemma ReadsAsCollides(a: Id, b: Id, x: string)
    requires ReadsAs(a, b, x)
    ensures Key(a) == Key(b)
  {
    assert a.project + "/" + (x + "/" + b.workload) == a.project + "/" + x + "/" + b.workload;
  }

  /** Two workloads share a key exactly when a slash can move between the one's project and the other's name. */
  lemma KeysCollideIff(a: Id, b: Id)
    ensures Key(a) == Key(b) <==> a == b || (exists x :: ReadsAs(a, b, x)) || (exists x :: ReadsAs(b, a, x))
  {
    if Key(a) == Key(b) {
      if |a.project| <= |b.project| { ShorterProject(a, b); } else { ShorterProject(b, a); }
    } else if x :| ReadsAs(a, b, x) {
      ReadsAsCollides(a, b, x);
    } else if x :| ReadsAs(b, a, x) {
      ReadsAsCollides(b, a, x);
    }
  }

  lemma ReadsAsHasSlash(a: Id, b: Id)
    ensures (exists x :: ReadsAs(a, b, x)) ==> '/' in b.project
  {
    if x :| ReadsAs(a, b, x) {
      assert b.project[|a.project|] == '/';
    }
  }

  /** So projects without a slash keep their workloads apart. */
  lemma SlashlessProjectsDoNotCollide(a: Id, b: Id)
    requires '/' !in a.project && '/' !in b.project && a != b
    ensures Key(a) != Key(b)
  {
    KeysCollideIff(a, b);
    ReadsAsHasSlash(a, b);
    ReadsAsHasSlash(b, a);
  }

  datatype Spec = Spec(id: Id, policy: Policy)

  /** Policies and change times under the workload's key, and the replica counts the store holds. */
  class Controller {
    var specs: map<string, Spec>
    var lastAton: map<string, int>
    var stored: map<Id, int>

    constructor (stored: map<Id, int>)
      ensures specs == map[] && lastAton == map[] && this.stored == stored
    {
      specs, lastAton := map[], map[];
      this.stored := stored;
    }

    function View(id: Id): Workload
      requires id in stored
      reads this
    {
      Workload(stored[id], if Key(id) in lastAton then Some(lastAton[Key(id)]) else None)
    }

    /** The policy by which a workload is scaled. */
    function PolicyOf(id: Id): Option<Policy>
      reads this
    {
      if Key(id) in specs && specs[Key(id)].id == id then Some(specs[Key(id)].policy) else None
    }

    /** A workload with a key of its own keeps its policy; one that shares the key loses it. */
    method SetPolicy(id: Id, p: Policy)
      modifies this`specs
      ensures PolicyOf(id) == Some(p)
      ensures forall other :: Key(other) != Key(id) ==> PolicyOf(other) == old(PolicyOf(other))
      ensures forall other :: Key(other) == Key(id) && other != id ==> PolicyOf(other) == None
    {
      specs := specs[Key(id) := Spec(id, p)];
    }

    method RemovePolicy(id: Id)
      modifies this`specs
      ensures forall other :: PolicyOf(other) == if Key(other) == Key(id) then None else old(PolicyOf(other))
    {
      specs := specs - {Key(id)};
    }

    /** Evaluates one workload; a workload the store does not know is passed over. */
    method EvaluateOne(spec: Spec, s: Sample)
      modifies this`lastAton, this`stored
      ensures spec.id !in old(stored) ==> stored == old(stored) && lastAton == old(lastAton)
      ensures spec.id in old(stored) ==>
        spec.id in stored && View(spec.id) == Evaluate(spec.policy, old(View(spec.id)), s)
      ensures stored.Keys == old(stored.Keys)
      ensures forall k :: k in stored && k != spec.id ==> stored[k] == old(stored[k])
      ensures forall k :: k in stored && Key(k) != Key(spec.id) ==> View(k) == old(View(k))
    {
      var p, key := spec.policy, Key(spec.id);
      if spec.id !in stored { return; }
      var replicas := stored[spec.id];
      var want := replicas;
      if s.avg > p.targetCpu && replicas < p.max {
        want := want + p.scaleUpBy;
        if want > p.max { want := p.max; }
      }
      if s.avg < p.targetCpu / 2.0 && replicas > p.min {
        want := want - p.scaleDownBy;
        if want < p.min { want := p.min; }
      }
      if key in lastAton && s.now - lastAton[key] < p.cooldown { return; }
      if want == replicas { return; }
      if !s.storeOk { return; }
      stored := stored[spec.id := ToInt32(want)];
      lastAton := lastAton[key := s.done];
    }
  }
}
