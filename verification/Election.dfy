/**
  Leader election over one shared key (internal/util/leader/leader.go).

  Every node runs `tick` in a loop.  A tick is split at each point where another node can
  get in between, so that a run is an arbitrary interleaving of these steps:

    Begin   become Candidate, raise the own term, stamp the time (lines 98-110)
    Look    read the key; step down, or go on to claim it         (lines 112-128)
    Claim   Put when the key was absent, else CompareAndSwap      (lines 130-140)
    Settle  after a successful write, become Leader               (lines 133-136, 141-144)

  LookFails and ClaimFails are storage errors, after which the tick gives up (lines 113-115).
  The key-value store's CompareAndSwap is atomic, as its interface promises (kv.go:54-56).
 */
module Election {
  import opened Prelude
  import opened Versioning

  datatype Role = Follower | Candidate | Leader

  /** The record stored under the leader key. */
  datatype Record = Record(nodeId: string, term: nat, expiry: int)

  /** The leader key's entry: record and key version. */
  datatype Cell = Cell(record: Record, version: nat)

  /** Where a node is inside its tick; `led` remembers that the tick began as Leader. */
  datatype Phase =
    | Idle
    | Began(now: int, led: bool)
    | Saw(now: int, seen: Option<Cell>)
    | Wrote(now: int)

  datatype Node = Node(role: Role, term: nat, lastSeen: int, ttl: int, phase: Phase)

  datatype System = System(nodes: map<string, Node>, cell: Option<Cell>)

  datatype Step =
    | Begin(id: string, now: int)
    | Look(id: string)
    | LookFails(id: string)
    | Claim(id: string)
    | ClaimFails(id: string)
    | Settle(id: string)

  // ---------- one node's steps ----------

  function BeginNode(n: Node, now: int): Node {
    n.(role := Candidate, term := n.term + 1, phase := Began(now, n.role == Leader))
  }

  /** The test of leader.go:119: a live record whose term is not below the reader's own. */
  predicate MustFollow(record: Record, now: int, term: nat) {
    record.expiry > now && record.term >= term
  }

  function LookNode(n: Node, cell: Option<Cell>): Node
    requires n.phase.Began?
  {
    if cell.Some? && MustFollow(cell.value.record, n.phase.now, n.term) then
      n.(role := Follower, term := cell.value.record.term, lastSeen := n.phase.now, phase := Idle)
    else
      n.(phase := Saw(n.phase.now, cell))
  }

  function VersionOf(cell: Option<Cell>): Option<nat> {
    if cell.None? then None else Some(cell.value.version)
  }

  /** Whether the write that follows a read of `seen` goes through on the key's present cell. */
  predicate WriteLands(seen: Option<Cell>, cell: Option<Cell>) {
    seen.None? || CasMatches(VersionOf(cell), seen.value.version)
  }

  function ClaimCell(id: string, n: Node, cell: Option<Cell>): (r: Option<Cell>)
    requires n.phase.Saw?
  {
    if !WriteLands(n.phase.seen, cell) then cell
    else Some(Cell(Record(id, n.term, n.phase.now + n.ttl), NextVersion(VersionOf(cell))))
  }

  function ClaimNode(n: Node, cell: Option<Cell>): Node
    requires n.phase.Saw?
  {
    if WriteLands(n.phase.seen, cell) then n.(phase := Wrote(n.phase.now)) else n.(phase := Idle)
  }

  function SettleNode(n: Node): Node
    requires n.phase.Wrote?
  {
    n.(role := Leader, lastSeen := n.phase.now, phase := Idle)
  }

  // ---------- runs ----------

  predicate Enabled(s: System, step: Step) {
    step.id in s.nodes &&
    match step
    case Begin(id, _) => s.nodes[id].phase.Idle?
    case Look(id) => s.nodes[id].phase.Began?
    case LookFails(id) => s.nodes[id].phase.Began?
    case Claim(id) => s.nodes[id].phase.Saw?
    case ClaimFails(id) => s.nodes[id].phase.Saw?
    case Settle(id) => s.nodes[id].phase.Wrote?
  }

  /** A step that is not enabled leaves the system alone, so every sequence of steps is a run. */
  function Next(s: System, step: Step): System {
    if !Enabled(s, step) then s else
    var n := s.nodes[step.id];
    match step
    case Begin(id, now) => s.(nodes := s.nodes[id := BeginNode(n, now)])
    case Look(id) => s.(nodes := s.nodes[id := LookNode(n, s.cell)])
    case LookFails(id) => s.(nodes := s.nodes[id := n.(phase := Idle)])
    case Claim(id) => System(s.nodes[id := ClaimNode(n, s.cell)], ClaimCell(id, n, s.cell))
    case ClaimFails(id) => s.(nodes := s.nodes[id := n.(phase := Idle)])
    case Settle(id) => s.(nodes := s.nodes[id := SettleNode(n)])
  }

  function Run(s: System, steps: seq<Step>): System
    decreases |steps|
  {
    if steps == [] then s else Run(Next(s, steps[0]), steps[1..])
  }

  /** The step writes the leader key. */
  predicate Wins(s: System, step: Step) {
    step.Claim? && Enabled(s, step) && WriteLands(s.nodes[step.id].phase.seen, s.cell)
  }

  /** The terms written by the successful claims of a run, in order. */
  function WonTerms(s: System, steps: seq<Step>): seq<int>
    decreases |steps|
  {
    if steps == [] then []
    else
      var rest := WonTerms(Next(s, steps[0]), steps[1..]);
      if Wins(s, steps[0]) then [s.nodes[steps[0].id].term] + rest else rest
  }

  /** Who became Leader, and in which term. */
  datatype Win = Win(id: string, term: nat)

  function Elected(s: System, steps: seq<Step>): seq<Win>
    decreases |steps|
  {
    if steps == [] then []
    else
      var rest := Elected(Next(s, steps[0]), steps[1..]);
      if steps[0].Settle? && Enabled(s, steps[0])
      then [Win(steps[0].id, s.nodes[steps[0].id].term)] + rest
      else rest
  }

  /** A claim that succeeds over an expired record whose term is not below the claimant's. */
  predicate StaleClaim(s: System, step: Step) {
    Wins(s, step) &&
    var n := s.nodes[step.id];
    n.phase.seen.Some? &&
    n.phase.seen.value.record.expiry <= n.phase.now &&
    n.phase.seen.value.record.term >= n.term
  }

  /** A claim decided when the key was absent that lands on a record whose term is not below the claimant's. */
  predicate BlindClaim(s: System, step: Step) {
    Wins(s, step) &&
    s.nodes[step.id].phase.seen.None? &&
    s.cell.Some? && s.cell.value.record.term >= s.nodes[step.id].term
  }

  predicate SafeStep(s: System, step: Step) {
    !StaleClaim(s, step) && !BlindClaim(s, step)
  }

  /** No claim of the run is stale or blind. */
  predicate SafeClaims(s: System, steps: seq<Step>)
    decreases |steps|
  {
    steps == [] || (SafeStep(s, steps[0]) && SafeClaims(Next(s, steps[0]), steps[1..]))
  }

  /** A read that finds the record expired. */
  predicate ExpiredLook(s: System, step: Step) {
    step.Look? && Enabled(s, step) && s.cell.Some? &&
    s.cell.value.record.expiry <= s.nodes[step.id].phase.now
  }

  predicate NoExpiredLook(s: System, steps: seq<Step>)
    decreases |steps|
  {
    steps == [] || (!ExpiredLook(s, steps[0]) && NoExpiredLook(Next(s, steps[0]), steps[1..]))
  }

  predicate Fails(step: Step) {
    step.LookFails? || step.ClaimFails?
  }

  predicate StrictlyRising(s: seq<int>) {
    forall i, j :: 0 <= i < j < |s| ==> s[i] < s[j]
  }

  /** What is known of a node that is Leader: it owns the record exactly while the terms agree. */
  predicate LeaderTracksRecord(id: string, term: nat, record: Record) {
    record.term >= term && (record.nodeId == id <==> record.term == term)
  }

  /** Nobody is inside a tick, and no sitting Leader is out of step with the key, which may be absent. */
  ghost predicate Start(s: System) {
    && (forall id :: id in s.nodes ==> s.nodes[id].phase.Idle?)
    && (forall id :: id in s.nodes && s.nodes[id].role == Leader ==>
          s.cell.Some? && LeaderTracksRecord(id, s.nodes[id].term, s.cell.value.record))
  }

  /** The record's term; below every term while the key is absent. */
  function Height(s: System): int {
    if s.cell.None? then -1 else s.cell.value.record.term
  }

  // ---------- safety per term ----------

  /** What a node that has read the key still knows about it. */
  predicate SawOk(n: Node, cell: Option<Cell>) {
    n.phase.Saw? && n.phase.seen.Some? ==>
      && cell.Some?
      && n.phase.seen.value.version <= cell.value.version
      && (n.phase.seen.value.version == cell.value.version ==> n.phase.seen == cell)
      && !MustFollow(n.phase.seen.value.record, n.phase.now, n.term)
  }

  ghost predicate Reads(s: System) {
    forall id :: id in s.nodes ==> SawOk(s.nodes[id], s.cell)
  }

  lemma ReadsStep(s: System, step: Step)
    requires Reads(s)
    ensures Reads(Next(s, step))
  {
  }

  /** A claim writes its own term, and raises the record's term unless it is stale or blind. */
  lemma ClaimRaisesIff(s: System, step: Step)
    requires Reads(s) && Wins(s, step)
    ensures Next(s, step).cell == Some(Cell(
        Record(step.id, s.nodes[step.id].term, s.nodes[step.id].phase.now + s.nodes[step.id].ttl),
        NextVersion(VersionOf(s.cell))))
    ensures Height(Next(s, step)) > Height(s) <==> SafeStep(s, step)
  {
  }

  lemma RisingCons(a: int, b: int, rest: seq<int>)
    ensures StrictlyRising([a] + ([b] + rest)) <==> a < b && StrictlyRising([b] + rest)
  {
    var s, t := [a] + ([b] + rest), [b] + rest;
    assert forall i :: 0 <= i < |t| ==> t[i] == s[i + 1];
    assert s[0] == a && s[1] == b;
    if a < b && StrictlyRising(t) {
      forall i, j | 0 <= i < j < |s| ensures s[i] < s[j] {
        assert s[j] == t[j - 1];
        if i > 0 { assert s[i] == t[i - 1]; } else if j > 1 { assert t[0] < t[j - 1]; }
      }
    }
    if StrictlyRising(s) {
      forall i, j | 0 <= i < j < |t| ensures t[i] < t[j] { assert s[i + 1] < s[j + 1]; }
    }
  }

  lemma {:induction false} TermsRiseFrom(s: System, steps: seq<Step>)
    requires Reads(s)
    ensures SafeClaims(s, steps) <==> StrictlyRising([Height(s)] + WonTerms(s, steps))
    decreases |steps|
  {
    if steps == [] {
    } else {
      var t := Next(s, steps[0]);
      ReadsStep(s, steps[0]);
      TermsRiseFrom(t, steps[1..]);
      if Wins(s, steps[0]) {
        ClaimRaisesIff(s, steps[0]);
        RisingCons(Height(s), Height(t), WonTerms(t, steps[1..]));
      } else {
        assert t.cell == s.cell;
      }
    }
  }

  /**
    Terms of successive claims rise strictly, starting above the record's term if there is one, in
    exactly the runs in which no claim succeeds over a record of an equal or higher term that it
    read as expired, or did not read at all because the key was absent.
   */
  lemma ClaimTermsRiseIff(s: System, steps: seq<Step>)
    requires Start(s)
    ensures SafeClaims(s, steps) <==> StrictlyRising([Height(s)] + WonTerms(s, steps))
  {
    TermsRiseFrom(s, steps);
  }

  /** Every node about to claim read a record that was then live. */
  ghost predicate SeenLive(s: System) {
    s.cell.Some? && forall id :: id in s.nodes && s.nodes[id].phase.Saw? ==>
      && s.nodes[id].phase.seen.Some?
      && s.nodes[id].phase.seen.value.record.expiry > s.nodes[id].phase.now
  }

  lemma {:induction false} LiveReadsMakeSafeClaims(s: System, steps: seq<Step>)
    requires SeenLive(s) && NoExpiredLook(s, steps)
    ensures SafeClaims(s, steps)
    decreases |steps|
  {
    if steps == [] {
    } else {
      LiveReadsMakeSafeClaims(Next(s, steps[0]), steps[1..]);
    }
  }

  /** So every result below covers all runs on a present key in which no read finds the record expired. */
  lemma LiveRunsHaveSafeClaims(s: System, steps: seq<Step>)
    requires Start(s) && s.cell.Some? && NoExpiredLook(s, steps)
    ensures SafeClaims(s, steps)
    ensures StrictlyRising([s.cell.value.record.term] + WonTerms(s, steps))
  {
    LiveReadsMakeSafeClaims(s, steps);
    ClaimTermsRiseIff(s, steps);
  }

  /**
    Terms in use: each node that wrote but has not yet become Leader holds a term of its own,
    none of them already `used` by an elected Leader, all above `floor` and none above the record's.
   */
  ghost predicate FreshTerms(s: System, floor: int, used: set<nat>) {
    && Reads(s) && floor <= Height(s)
    && (forall t :: t in used ==> t <= Height(s))
    && (forall id :: id in s.nodes && s.nodes[id].phase.Wrote? ==>
          s.nodes[id].term !in used && floor < s.nodes[id].term <= Height(s))
    && (forall a, b :: a in s.nodes && b in s.nodes && a != b ==>
          s.nodes[a].phase.Wrote? && s.nodes[b].phase.Wrote? ==> s.nodes[a].term != s.nodes[b].term)
  }

  lemma FreshTermsClaim(s: System, step: Step, floor: int, used: set<nat>)
    requires FreshTerms(s, floor, used) && SafeStep(s, step) && Wins(s, step)
    ensures FreshTerms(Next(s, step), floor, used)
  {
    ReadsStep(s, step);
    ClaimRaisesIff(s, step);
  }

  lemma FreshTermsStep(s: System, step: Step, floor: int, used: set<nat>)
    requires FreshTerms(s, floor, used) && SafeStep(s, step)
    ensures step.Settle? && Enabled(s, step) ==>
      FreshTerms(Next(s, step), floor, used + {s.nodes[step.id].term})
    ensures !(step.Settle? && Enabled(s, step)) ==> FreshTerms(Next(s, step), floor, used)
  {
    if Wins(s, step) {
      FreshTermsClaim(s, step, floor, used);
    } else {
      ReadsStep(s, step);
    }
  }

  lemma {:induction false} ElectedAreDistinct(s: System, steps: seq<Step>, floor: int, used: set<nat>)
    requires FreshTerms(s, floor, used) && SafeClaims(s, steps)
    ensures forall i :: 0 <= i < |Elected(s, steps)| ==>
      Elected(s, steps)[i].term !in used && Elected(s, steps)[i].term > floor
    ensures forall i, j :: 0 <= i < j < |Elected(s, steps)| ==>
      Elected(s, steps)[i].term != Elected(s, steps)[j].term
    decreases |steps|
  {
    if steps == [] {
    } else {
      FreshTermsStep(s, steps[0], floor, used);
      var t := Next(s, steps[0]);
      if steps[0].Settle? && Enabled(s, steps[0]) {
        ElectedAreDistinct(t, steps[1..], floor, used + {s.nodes[steps[0].id].term});
      } else {
        ElectedAreDistinct(t, steps[1..], floor, used);
      }
    }
  }

  /** Election safety: in any term at most one node ever becomes Leader, and no term is reused. */
  lemma AtMostOneLeaderPerTerm(s: System, steps: seq<Step>)
    requires Start(s) && SafeClaims(s, steps)
    ensures forall i, j :: 0 <= i < j < |Elected(s, steps)| ==>
      Elected(s, steps)[i].term != Elected(s, steps)[j].term
    ensures forall i :: 0 <= i < |Elected(s, steps)| ==>
      Elected(s, steps)[i].term > Height(s)
  {
    ElectedAreDistinct(s, steps, Height(s), {});
  }

  // ---------- each claim raises the term by exactly one ----------

  /** No node's term runs more than one ahead of the record it has read or is about to read. */
  predicate KeepsPace(n: Node, cell: Cell) {
    match n.phase
    case Idle => n.term <= cell.record.term
    case Began(_, _) => n.term <= cell.record.term + 1
    case Saw(_, seen) =>
      && seen.Some? && n.term <= seen.value.record.term + 1
      && (seen.value.version < cell.version ==> seen.value.record.term < cell.record.term)
    case Wrote(_) => n.term <= cell.record.term
  }

  ghost predicate Paced(s: System) {
    Reads(s) && s.cell.Some? && forall id :: id in s.nodes ==> KeepsPace(s.nodes[id], s.cell.value)
  }

  lemma PacedStep(s: System, step: Step)
    requires Paced(s) && SafeStep(s, step) && !Fails(step)
    ensures Paced(Next(s, step))
    ensures Wins(s, step) ==> s.nodes[step.id].term == s.cell.value.record.term + 1
  {
    ReadsStep(s, step);
    if Wins(s, step) { ClaimRaisesIff(s, step); }
  }

  lemma {:induction false} WonTermsCountUp(s: System, steps: seq<Step>)
    requires Paced(s) && SafeClaims(s, steps)
    requires forall i :: 0 <= i < |steps| ==> !Fails(steps[i])
    ensures forall k :: 0 <= k < |WonTerms(s, steps)| ==>
      WonTerms(s, steps)[k] == s.cell.value.record.term + 1 + k
    ensures Run(s, steps).cell.Some?
    ensures Run(s, steps).cell.value.record.term == s.cell.value.record.term + |WonTerms(s, steps)|
    decreases |steps|
  {
    if steps == [] {
    } else {
      PacedStep(s, steps[0]);
      WonTermsCountUp(Next(s, steps[0]), steps[1..]);
      if Wins(s, steps[0]) { ClaimRaisesIff(s, steps[0]); }
    }
  }

  /** Without storage errors, and from terms not above the record's, the k-th claim has term R + k. */
  lemma EachClaimRaisesTermByOne(s: System, steps: seq<Step>)
    requires Start(s) && s.cell.Some? && SafeClaims(s, steps)
    requires forall id :: id in s.nodes ==> s.nodes[id].term <= s.cell.value.record.term
    requires forall i :: 0 <= i < |steps| ==> !Fails(steps[i])
    ensures forall k :: 0 <= k < |WonTerms(s, steps)| ==>
      WonTerms(s, steps)[k] == s.cell.value.record.term + 1 + k
    ensures Run(s, steps).cell.Some?
    ensures Run(s, steps).cell.value.record.term == s.cell.value.record.term + |WonTerms(s, steps)|
  {
    WonTermsCountUp(s, steps);
  }

  // ---------- who leads the record's term ----------

  predicate Tracks(id: string, n: Node, cell: Option<Cell>) {
    && (n.role == Leader || n.phase.Wrote? ==>
          cell.Some? && LeaderTracksRecord(id, n.term, cell.value.record))
    && (n.phase.Began? && n.phase.led ==>
          cell.Some? && n.term > 0 && LeaderTracksRecord(id, n.term - 1, cell.value.record))
    && (!n.phase.Idle? ==> n.role == Candidate)
  }

  ghost predicate Tracked(s: System) {
    Reads(s) && forall id :: id in s.nodes ==> Tracks(id, s.nodes[id], s.cell)
  }

  lemma TrackedStep(s: System, step: Step)
    requires Tracked(s) && SafeStep(s, step)
    ensures Tracked(Next(s, step))
  {
    ReadsStep(s, step);
    if Wins(s, step) { ClaimRaisesIff(s, step); }
  }

  lemma {:induction false} TrackedRun(s: System, steps: seq<Step>)
    requires Tracked(s) && SafeClaims(s, steps)
    ensures Tracked(Run(s, steps))
    decreases |steps|
  {
    if steps == [] {
    } else {
      TrackedStep(s, steps[0]);
      TrackedRun(Next(s, steps[0]), steps[1..]);
    }
  }

  /** At every moment at most one Leader's term is the record's, and that Leader owns the record. */
  lemma OneLeaderInRecordTerm(s: System, steps: seq<Step>, a: string, b: string)
    requires Start(s) && SafeClaims(s, steps)
    ensures var r := Run(s, steps);
      && (a in r.nodes && r.nodes[a].role == Leader ==>
            && r.cell.Some?
            && r.nodes[a].term <= r.cell.value.record.term
            && (r.nodes[a].term == r.cell.value.record.term <==> r.cell.value.record.nodeId == a))
      && (a in r.nodes && b in r.nodes && r.nodes[a].role == r.nodes[b].role == Leader ==>
            r.nodes[a].term == r.nodes[b].term == r.cell.value.record.term ==> a == b)
  {
    TrackedRun(s, steps);
  }

  /** A Leader that ticks again steps down on a live record exactly when another node owns it. */
  lemma LeaderStepsDownIffOverwritten(s: System, steps: seq<Step>, id: string)
    requires Start(s) && SafeClaims(s, steps)
    requires id in Run(s, steps).nodes
    requires Run(s, steps).nodes[id].phase.Began? && Run(s, steps).nodes[id].phase.led
    requires !ExpiredLook(Run(s, steps), Look(id))
    ensures Run(s, steps).cell.Some?
    ensures Next(Run(s, steps), Look(id)).nodes[id].role == Follower <==>
            Run(s, steps).cell.value.record.nodeId != id
  {
    TrackedRun(s, steps);
  }

  // ---------- what holds in every run ----------

  /** Ticks started by a node in a run. */
  function Ticks(s: System, steps: seq<Step>, id: string): nat
    decreases |steps|
  {
    if steps == [] then 0
    else (if steps[0].Begin? && steps[0].id == id && Enabled(s, steps[0]) then 1 else 0)
         + Ticks(Next(s, steps[0]), steps[1..], id)
  }

  /** Every tick raises its node's term, whatever the other nodes, the clock and the store do. */
  lemma {:induction false} TermsGrowWithTicks(s: System, steps: seq<Step>, id: string)
    requires id in s.nodes
    ensures id in Run(s, steps).nodes
    ensures Run(s, steps).nodes[id].term >= s.nodes[id].term + Ticks(s, steps, id)
    decreases |steps|
  {
    if steps == [] {
    } else {
      TermsGrowWithTicks(Next(s, steps[0]), steps[1..], id);
    }
  }

  /** A record a node wrote itself is always below that node's next claim. */
  predicate OwnRecordBelow(n: Node, record: Record) {
    if n.phase.Began? || n.phase.Saw? then record.term < n.term else record.term <= n.term
  }

  ghost predicate OwnRecords(s: System) {
    s.cell.Some? && s.cell.value.record.nodeId in s.nodes ==>
      OwnRecordBelow(s.nodes[s.cell.value.record.nodeId], s.cell.value.record)
  }

  lemma {:induction false} OwnRecordsRun(s: System, steps: seq<Step>)
    requires OwnRecords(s)
    ensures OwnRecords(Run(s, steps))
    decreases |steps|
  {
    if steps == [] {
    } else {
      OwnRecordsRun(Next(s, steps[0]), steps[1..]);
    }
  }

  /** No node ever steps down because of a record it wrote itself: expiry and races included. */
  lemma NeverFollowsItself(s: System, steps: seq<Step>, id: string)
    requires OwnRecords(s)
    requires Enabled(Run(s, steps), Look(id))
    requires Run(s, steps).cell.Some? && Run(s, steps).cell.value.record.nodeId == id
    ensures Next(Run(s, steps), Look(id)).nodes[id].phase.Saw?
    ensures Next(Run(s, steps), Look(id)).nodes[id].term == Run(s, steps).nodes[id].term
  {
    OwnRecordsRun(s, steps);
  }

  // ---------- where the code falls short ----------

  /** An uninterrupted tick, whose read or write the store may fail. */
  function TickSteps(id: string, now: int, readOk: bool := true, writeOk: bool := true): seq<Step> {
    [Begin(id, now),
     if readOk then Look(id) else LookFails(id),
     if writeOk then Claim(id) else ClaimFails(id),
     Settle(id)]
  }

  lemma RunFour(s: System, steps: seq<Step>)
    requires |steps| == 4
    ensures Run(s, steps) == Next(Next(Next(Next(s, steps[0]), steps[1]), steps[2]), steps[3])
  {
    var s2 := Next(Next(s, steps[0]), steps[1]);
    assert steps[1..][1..] == [steps[2], steps[3]];
    assert Run(s, steps) == Run(s2, [steps[2], steps[3]]);
    assert [steps[2], steps[3]][1..] == [steps[3]];
    assert Run(Next(s2, steps[2]), [steps[3]]) == Next(Next(s2, steps[2]), steps[3]);
  }

  /**
    A lease does not hold: while the record is live, however far its expiry lies in the future, a node
    takes the leadership over on its next undisturbed tick exactly when its term has reached the
    record's.  A node further back falls in behind the record and leaves it alone.
   */
  lemma {:induction false} LiveLeaseIsTakenOverIff(s: System, id: string, now: int)
    requires s.cell.Some? && s.cell.value.record.expiry > now
    requires id in s.nodes && s.nodes[id].phase.Idle?
    ensures var r, n := Run(s, TickSteps(id, now)), s.nodes[id];
      && r.nodes.Keys == s.nodes.Keys && r.nodes == s.nodes[id := r.nodes[id]]
      && (r.nodes[id].role == Leader <==> n.term >= s.cell.value.record.term)
      && (n.term >= s.cell.value.record.term ==>
            && r.nodes[id] == Node(Leader, n.term + 1, now, n.ttl, Idle)
            && r.cell == Some(Cell(Record(id, n.term + 1, now + n.ttl), s.cell.value.version + 1)))
      && (n.term < s.cell.value.record.term ==>
            && r.nodes[id] == Node(Follower, s.cell.value.record.term, now, n.ttl, Idle)
            && r.cell == s.cell)
  {
    TickOutcome(s, id, now, true, true);
  }

  /** An expired record is never obeyed, whatever its term: an undisturbed tick claims the next key version. */
  lemma {:induction false} ExpiredLeaseIsTakenOver(s: System, id: string, now: int)
    requires s.cell.Some? && s.cell.value.record.expiry <= now
    requires id in s.nodes && s.nodes[id].phase.Idle?
    ensures var n := s.nodes[id];
      Run(s, TickSteps(id, now)) ==
        System(s.nodes[id := Node(Leader, n.term + 1, now, n.ttl, Idle)],
               Some(Cell(Record(id, n.term + 1, now + n.ttl), s.cell.value.version + 1)))
  {
    TickOutcome(s, id, now, true, true);
  }

  /** An absent key is claimed at version 1. */
  lemma {:induction false} AbsentKeyIsClaimed(s: System, id: string, now: int)
    requires s.cell.None? && id in s.nodes && s.nodes[id].phase.Idle?
    ensures var n := s.nodes[id];
      Run(s, TickSteps(id, now)) ==
        System(s.nodes[id := Node(Leader, n.term + 1, now, n.ttl, Idle)],
               Some(Cell(Record(id, n.term + 1, now + n.ttl), 1)))
  {
    TickOutcome(s, id, now, true, true);
  }

  /** A tick whose read or write fails leaves the key alone and never ends as Leader. */
  lemma {:induction false} FailedTickClaimsNothing(s: System, id: string, now: int, readOk: bool)
    requires id in s.nodes && s.nodes[id].phase.Idle?
    ensures var r, n := Run(s, TickSteps(id, now, readOk, false)), s.nodes[id];
      var follows := readOk && s.cell.Some? && s.cell.value.record.expiry > now && s.cell.value.record.term > n.term;
      && r.cell == s.cell
      && r.nodes == s.nodes[id :=
           if follows then Node(Follower, s.cell.value.record.term, now, n.ttl, Idle)
           else Node(Candidate, n.term + 1, n.lastSeen, n.ttl, Idle)]
  {
    TickOutcome(s, id, now, readOk, false);
  }

  /** A claim on a version that has moved on since the read changes nothing but that it is over. */
  lemma OvertakenClaimIsLost(s: System, id: string)
    requires id in s.nodes && s.nodes[id].phase.Saw? && s.nodes[id].phase.seen.Some? && s.cell.Some?
    requires s.nodes[id].phase.seen.value.version != s.cell.value.version
    ensures Next(s, Claim(id)) == s.(nodes := s.nodes[id := s.nodes[id].(phase := Idle)])
  {
  }

  /**
    So a sitting Leader on a live record gets a second Leader beside it from another node's
    undisturbed tick exactly when that node's term has reached the record's.
   */
  lemma SecondLeaderIff(s: System, a: string, b: string, now: int)
    requires Start(s) && a in s.nodes && b in s.nodes && a != b && s.nodes[a].role == Leader
    requires s.cell.Some? && s.cell.value.record.expiry > now
    ensures var r := Run(s, TickSteps(b, now));
      && a in r.nodes && b in r.nodes && r.nodes[a].role == Leader
      && (r.nodes[b].role == Leader <==> s.nodes[b].term >= s.cell.value.record.term)
      && (r.nodes[b].role == Leader ==> r.nodes[a].term < r.nodes[b].term)
  {
    LiveLeaseIsTakenOverIff(s, b, now);
  }

  function Fresh(ttl: int): Node {
    Node(Follower, 0, 0, ttl, Idle)
  }

  /** Two nodes are Leader at once, in different terms, with every read live. */
  lemma TwoLeadersAtOnce()
    returns (s: System, steps: seq<Step>)
    ensures Start(s) && s.cell.Some? && NoExpiredLook(s, steps)
    ensures var r := Run(s, steps);
      "a" in r.nodes && "b" in r.nodes && r.nodes["a"].role == Leader && r.nodes["b"].role == Leader
  {
    var lead := Node(Leader, 1, 0, 50, Idle);
    s := System(map["a" := lead, "b" := Node(Follower, 1, 0, 50, Idle)],
                Some(Cell(Record("a", 1, 50), 1)));
    steps := TickSteps("b", 10);
    RunFour(s, steps);
    var s1 := Next(s, steps[0]);
    assert steps[1..] == [Look("b"), Claim("b"), Settle("b")];
    assert NoExpiredLook(Next(s1, Look("b")), [Claim("b"), Settle("b")]) by {
      assert [Claim("b"), Settle("b")][1..] == [Settle("b")];
      assert [Settle("b")][1..] == [];
    }
    assert [Look("b"), Claim("b"), Settle("b")][1..] == [Claim("b"), Settle("b")];
  }

  /** A claim over an expired record can reuse a term: two Leaders in the record's own term. */
  lemma ExpiryBreaksTermSafety()
    returns (s: System, steps: seq<Step>)
    ensures Start(s) && s.cell.Some? && !SafeClaims(s, steps)
    ensures var r := Run(s, steps);
      "a" in r.nodes && "b" in r.nodes && r.cell.Some? &&
      r.nodes["a"].role == Leader && r.nodes["b"].role == Leader &&
      r.nodes["a"].term == r.nodes["b"].term == r.cell.value.record.term
  {
    s := System(map["a" := Node(Leader, 1, 0, 5, Idle), "b" := Fresh(5)],
                Some(Cell(Record("a", 1, 5), 1)));
    steps := TickSteps("b", 10);
    RunFour(s, steps);
    ClaimTermsRiseIff(s, steps);
    var s1 := Next(s, steps[0]);
    var s2 := Next(s1, steps[1]);
    assert StaleClaim(s2, steps[2]);
    assert steps[1..][0] == steps[1] && steps[1..][1..][0] == steps[2];
  }

  /** The first claim is an unconditional Put: two nodes that both saw no record both lead term 1. */
  lemma FirstClaimRace()
    returns (s: System, steps: seq<Step>)
    ensures Start(s) && s.cell.None? && !SafeClaims(s, steps)
    ensures var r := Run(s, steps);
      "a" in r.nodes && "b" in r.nodes &&
      r.nodes["a"].role == Leader && r.nodes["b"].role == Leader && r.nodes["a"].term == r.nodes["b"].term
  {
    s := System(map["a" := Fresh(5), "b" := Fresh(5)], None);
    var firstHalf := [Begin("a", 1), Look("a")];
    steps := firstHalf + (TickSteps("b", 1) + [Claim("a"), Settle("a")]);
    var s1 := Next(Next(s, Begin("a", 1)), Look("a"));
    var tail := TickSteps("b", 1) + [Claim("a"), Settle("a")];
    assert steps[1..][1..] == tail;
    assert Run(s, steps) == Run(s1, tail);
    RunConcat(s1, TickSteps("b", 1), [Claim("a"), Settle("a")]);
    RunFour(s1, TickSteps("b", 1));
    var s2 := Run(s1, TickSteps("b", 1));
    assert [Claim("a"), Settle("a")][1..] == [Settle("a")];
    assert Run(Next(s2, Claim("a")), [Settle("a")]) == Next(Next(s2, Claim("a")), Settle("a"));
    assert BlindClaim(s2, Claim("a"));
    SafeConcat(s1, TickSteps("b", 1), [Claim("a"), Settle("a")]);
  }

  lemma FailedTick(s: System, id: string, now: int)
    requires id in s.nodes && s.nodes[id].phase.Idle?
    ensures Run(s, TickSteps(id, now, false)) ==
      s.(nodes := s.nodes[id := s.nodes[id].(role := Candidate, term := s.nodes[id].term + 1)])
  {
    TickOutcome(s, id, now, false, true);
  }

  /** A failed read costs a term: the next claim then raises the record's term by two. */
  lemma FailedReadSkipsATerm()
    returns (s: System, steps: seq<Step>)
    ensures Start(s) && s.cell.Some? && SafeClaims(s, steps)
    ensures forall id :: id in s.nodes ==> s.nodes[id].term <= s.cell.value.record.term
    ensures var r := Run(s, steps);
      r.cell.Some? && r.cell.value.record.term == s.cell.value.record.term + 2
  {
    s := System(map["a" := Node(Follower, 1, 0, 5, Idle)], Some(Cell(Record("b", 1, 50), 1)));
    steps := TickSteps("a", 1, false) + TickSteps("a", 2);
    SkipsATerm(s, "a");
    NeverExpiredFrom(s, steps, 2);
    LiveReadsMakeSafeClaims(s, steps);
  }

  lemma SkipsATerm(s: System, id: string)
    requires s.cell.Some? && id in s.nodes && s.nodes[id].phase.Idle?
    requires s.nodes[id].term == s.cell.value.record.term
    ensures var r := Run(s, TickSteps(id, 1, false) + TickSteps(id, 2));
      r.cell.Some? && r.cell.value.record.term == s.cell.value.record.term + 2
  {
    RunConcat(s, TickSteps(id, 1, false), TickSteps(id, 2));
    FailedTick(s, id, 1);
    TickOutcome(Run(s, TickSteps(id, 1, false)), id, 2, true, true);
  }

  /** Reads within the record's lifetime: every clock reading stays below a bound that every expiry exceeds. */
  ghost predicate Fresher(s: System, bound: int) {
    && (s.cell.Some? ==> s.cell.value.record.expiry > bound)
    && forall id :: id in s.nodes ==> ClockOk(s.nodes[id], bound)
  }

  predicate ClockOk(n: Node, bound: int) {
    n.ttl >= bound &&
    match n.phase
    case Began(now, _) => 0 < now <= bound
    case Saw(now, _) => 0 < now <= bound
    case _ => true
  }

  lemma {:induction false} NeverExpiredFrom(s: System, steps: seq<Step>, bound: int)
    requires Fresher(s, bound)
    requires forall i :: 0 <= i < |steps| && steps[i].Begin? ==> 0 < steps[i].now <= bound
    ensures NoExpiredLook(s, steps)
    decreases |steps|
  {
    if steps == [] {
    } else {
      NeverExpiredFrom(Next(s, steps[0]), steps[1..], bound);
    }
  }

  lemma {:induction false} RunConcat(s: System, a: seq<Step>, b: seq<Step>)
    ensures Run(s, a + b) == Run(Run(s, a), b)
    decreases |a|
  {
    if a == [] {
      assert a + b == b;
    } else {
      assert (a + b)[1..] == a[1..] + b;
      RunConcat(Next(s, a[0]), a[1..], b);
    }
  }

  lemma {:induction false} SafeConcat(s: System, a: seq<Step>, b: seq<Step>)
    ensures SafeClaims(s, a + b) <==> SafeClaims(s, a) && SafeClaims(Run(s, a), b)
    decreases |a|
  {
    if a == [] {
      assert a + b == b;
    } else {
      assert (a + b)[1..] == a[1..] + b;
      SafeConcat(Next(s, a[0]), a[1..], b);
    }
  }

  /** What an uninterrupted tick leaves behind. */
  function Ticked(id: string, n: Node, cell: Option<Cell>, now: int, readOk: bool, writeOk: bool)
    : (Node, Option<Cell>)
  {
    var n1 := n.(role := Candidate, term := n.term + 1);
    if !readOk then (n1, cell)
    else if cell.Some? && MustFollow(cell.value.record, now, n1.term) then
      (n1.(role := Follower, term := cell.value.record.term, lastSeen := now), cell)
    else if !writeOk then (n1, cell)
    else (n1.(role := Leader, lastSeen := now),
          Some(Cell(Record(id, n1.term, now + n.ttl), NextVersion(VersionOf(cell)))))
  }

  /** A step as its own node and the key see it. */
  function Local(n: Node, cell: Option<Cell>, step: Step): (Node, Option<Cell>) {
    match step
    case Begin(_, now) => if n.phase.Idle? then (BeginNode(n, now), cell) else (n, cell)
    case Look(_) => if n.phase.Began? then (LookNode(n, cell), cell) else (n, cell)
    case LookFails(_) => if n.phase.Began? then (n.(phase := Idle), cell) else (n, cell)
    case Claim(id) => if n.phase.Saw? then (ClaimNode(n, cell), ClaimCell(id, n, cell)) else (n, cell)
    case ClaimFails(_) => if n.phase.Saw? then (n.(phase := Idle), cell) else (n, cell)
    case Settle(_) => if n.phase.Wrote? then (SettleNode(n), cell) else (n, cell)
  }

  lemma NextIsLocal(nodes: map<string, Node>, n: Node, cell: Option<Cell>, step: Step)
    ensures var (n', cell') := Local(n, cell, step);
      Next(System(nodes[step.id := n], cell), step) == System(nodes[step.id := n'], cell')
  {
    var s := System(nodes[step.id := n], cell);
    assert nodes[step.id := n][step.id := Local(n, cell, step).0] == nodes[step.id := Local(n, cell, step).0];
    assert s.nodes[step.id] == n;
  }

  /** Four steps of one node. */
  function LocalFour(n: Node, cell: Option<Cell>, steps: seq<Step>): (Node, Option<Cell>)
    requires |steps| == 4
  {
    var (n1, c1) := Local(n, cell, steps[0]);
    var (n2, c2) := Local(n1, c1, steps[1]);
    var (n3, c3) := Local(n2, c2, steps[2]);
    Local(n3, c3, steps[3])
  }

  lemma FourAreLocal(nodes: map<string, Node>, id: string, n: Node, cell: Option<Cell>, steps: seq<Step>)
    requires |steps| == 4 && forall i :: 0 <= i < 4 ==> steps[i].id == id
    ensures var (n', cell') := LocalFour(n, cell, steps);
      Run(System(nodes[id := n], cell), steps) == System(nodes[id := n'], cell')
  {
    RunFour(System(nodes[id := n], cell), steps);
    var (n1, c1) := Local(n, cell, steps[0]);
    var (n2, c2) := Local(n1, c1, steps[1]);
    var (n3, c3) := Local(n2, c2, steps[2]);
    NextIsLocal(nodes, n, cell, steps[0]);
    NextIsLocal(nodes, n1, c1, steps[1]);
    NextIsLocal(nodes, n2, c2, steps[2]);
    NextIsLocal(nodes, n3, c3, steps[3]);
  }

  lemma TickIsLocal(id: string, n: Node, cell: Option<Cell>, now: int, readOk: bool, writeOk: bool)
    requires n.phase.Idle?
    ensures LocalFour(n, cell, TickSteps(id, now, readOk, writeOk)) == Ticked(id, n, cell, now, readOk, writeOk)
  {
  }

  lemma {:induction false} TickOutcome(s: System, id: string, now: int, readOk: bool, writeOk: bool)
    requires id in s.nodes && s.nodes[id].phase.Idle?
    ensures var (n, cell) := Ticked(id, s.nodes[id], s.cell, now, readOk, writeOk);
      Run(s, TickSteps(id, now, readOk, writeOk)) == System(s.nodes[id := n], cell)
  {
    assert s.nodes[id := s.nodes[id]] == s.nodes;
    FourAreLocal(s.nodes, id, s.nodes[id], s.cell, TickSteps(id, now, readOk, writeOk));
    TickIsLocal(id, s.nodes[id], s.cell, now, readOk, writeOk);
  }

  // ---------- the running code ----------

  /** The shared leader key, as the store serves it. */
  class LeaderKey {
    var cell: Option<Cell>

    constructor ()
      ensures cell == None
    {
      cell := None;
    }

    method Put(record: Record)
      modifies this
      ensures cell == Some(Cell(record, NextVersion(VersionOf(old(cell)))))
    {
      cell := Some(Cell(record, NextVersion(VersionOf(cell))));
    }

    method CompareAndSwap(record: Record, expected: nat) returns (ok: bool)
      modifies this
      ensures ok <==> CasMatches(VersionOf(old(cell)), expected)
      ensures cell == if ok then Some(Cell(record, NextVersion(VersionOf(old(cell))))) else old(cell)
    {
      ok := CasMatches(VersionOf(cell), expected);
      if ok {
        cell := Some(Cell(record, NextVersion(VersionOf(cell))));
      }
    }
  }

  /** One node's election loop. */
  class Member {
    const id: string
    const ttl: int
    var state: Role
    var term: nat
    var lastSeen: int

    constructor (id: string, ttl: int)
      ensures this.id == id && this.ttl == (if ttl == 0 then 5_000_000_000 else ttl)
      ensures View() == Fresh(this.ttl)
    {
      this.id := id;
      this.ttl := if ttl == 0 then 5_000_000_000 else ttl;
      state, term, lastSeen := Follower, 0, 0;
    }

    function View(): (n: Node)
      reads this
    {
      Node(state, term, lastSeen, ttl, Idle)
    }

    /** A tick that nobody interrupts is the run Begin, Look, Claim, Settle of this node. */
    method Tick(kv: LeaderKey, now: int, readOk: bool, writeOk: bool, ghost others: map<string, Node>)
      modifies this, kv
      ensures var before := System(others[id := old(View())], old(kv.cell));
              Run(before, TickSteps(id, now, readOk, writeOk)) == System(others[id := View()], kv.cell)
    {
      TickOutcome(System(others[id := View()], kv.cell), id, now, readOk, writeOk);
      state := Candidate;
      term := term + 1;
      var cur := Record(id, term, now + ttl);
      var ent := kv.cell;
      if readOk {
        if ent.Some? && MustFollow(ent.value.record, now, cur.term) {
          state := Follower;
          term := ent.value.record.term;
          lastSeen := now;
        } else if writeOk {
          var ok := true;
          if ent.None? {
            kv.Put(cur);
          } else {
            ok := kv.CompareAndSwap(cur, ent.value.version);
          }
          if ok {
            state := Leader;
            lastSeen := now;
          }
        }
      }
    }
  }
}
