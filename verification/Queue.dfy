/**
  One topic of the message queue (internal/primitives/mq/mq.go).

  Messages sit in an append-only queue that all consumer groups share; each group has a cursor.
  A retry appends the same message object again and rewrites its headers, so its retry counter
  is shared by all groups.  Any number of workers deliver concurrently: claiming the next
  position is one step, the handler's outcome and its bookkeeping another.
 */
module Queue {
  import opened Prelude
  import opened Sums
  import opened Decimal

  type Headers = map<string, string>

  datatype Message = Message(offset: nat, key: string, value: string, headers: Headers)

  /** A delivery under way: a worker holds queue position `pos` for its group. */
  datatype Flight = Flight(group: string, pos: nat)

  /**
    `queue` and `dlq` hold indices into `messages`.  `delivered`, `acked`, `retried` and `granted`
    only serve the statements: how many claims were made, which messages were acknowledged and
    retried, and how many retries each message's headers left it when it was published.
   */
  datatype Topic = Topic(
    nextOff: nat, queue: seq<nat>, messages: seq<Message>, cursors: map<string, nat>,
    dlq: seq<nat>, inflight: map<string, Flight>,
    delivered: nat, acked: seq<nat>, retried: seq<nat>, granted: seq<nat>)

  datatype Step =
    | Publish(key: string, value: string, headers: Headers)
    | Subscribe(group: string)
    | Claim(worker: string, group: string)
    | Finish(worker: string, failed: bool)

  // ---------- what the code does ----------

  const EMPTY := Topic(0, [], [], map[], [], map[], 0, [], [], [])

  function Retries(h: Headers): int {
    if "retries" in h then ParseFrom(0, h["retries"]) else 0
  }

  predicate MayRetry(h: Headers, max: int) {
    Retries(h) < max
  }

  function AfterRetry(h: Headers): Headers {
    map["retries" := Itoa(Retries(h) + 1)]
  }

  /** Retries left at a counter of r. */
  function LeftAt(r: int, max: int): nat {
    if r >= max then 0 else if r < 0 then 1 + Max(0, max) else max - r
  }

  /** Retries left to a message with these headers. */
  function Left(h: Headers, max: int): nat {
    LeftAt(Retries(h), max)
  }

  function DoPublish(t: Topic, key: string, value: string, h: Headers, max: int): Topic {
    t.(nextOff := t.nextOff + 1,
       messages := t.messages + [Message(t.nextOff + 1, key, value, h)],
       queue := t.queue + [|t.messages|],
       granted := t.granted + [Left(h, max)])
  }

  function DoSubscribe(t: Topic, group: string): Topic {
    if group in t.cursors then t else t.(cursors := t.cursors[group := 0])
  }

  predicate CanClaim(t: Topic, worker: string, group: string) {
    worker !in t.inflight && group in t.cursors && t.cursors[group] < |t.queue|
  }

  function DoClaim(t: Topic, worker: string, group: string): Topic
    requires CanClaim(t, worker, group)
  {
    t.(cursors := t.cursors[group := t.cursors[group] + 1],
       inflight := t.inflight[worker := Flight(group, t.cursors[group])],
       delivered := t.delivered + 1)
  }

  predicate CanFinish(t: Topic, worker: string) {
    worker in t.inflight && t.inflight[worker].pos < |t.queue| &&
    t.queue[t.inflight[worker].pos] < |t.messages|
  }

  function DoFinish(t: Topic, worker: string, failed: bool, max: int): Topic
    requires CanFinish(t, worker)
  {
    var m := t.queue[t.inflight[worker].pos];
    var mv := t.messages[m];
    var t' := t.(inflight := t.inflight - {worker});
    if !failed then t'.(acked := t.acked + [m])
    else if !MayRetry(mv.headers, max) then t'.(dlq := t.dlq + [m])
    else t'.(messages := t.messages[m := mv.(headers := AfterRetry(mv.headers))],
             queue := t.queue + [m], retried := t.retried + [m])
  }

  /** Steps that cannot be taken change nothing, so every sequence of steps is a run. */
  function Next(t: Topic, step: Step, max: int): Topic {
    match step
    case Publish(k, v, h) => DoPublish(t, k, v, h, max)
    case Subscribe(g) => DoSubscribe(t, g)
    case Claim(w, g) => if CanClaim(t, w, g) then DoClaim(t, w, g) else t
    case Finish(w, failed) => if CanFinish(t, w) then DoFinish(t, w, failed, max) else t
  }

  function Run(t: Topic, steps: seq<Step>, max: int): Topic
    decreases |steps|
  {
    if steps == [] then t else Run(Next(t, steps[0], max), steps[1..], max)
  }

  lemma RunTwo(t: Topic, a: Step, b: Step, rest: seq<Step>, max: int)
    ensures Run(t, [a, b] + rest, max) == Run(Next(Next(t, a, max), b, max), rest, max)
  {
    var steps := [a, b] + rest;
    assert steps[1..][0] == b && steps[1..][1..] == rest;
    assert Run(t, steps, max) == Run(Next(t, a, max), steps[1..], max);
  }

  // ---------- the retry counter ----------

  /** A retry costs exactly one: the counter written is read back, and nothing overruns its buffer. */
  lemma RetryCostsOne(h: Headers, max: int)
    requires max < LIMIT && MayRetry(h, max)
    ensures Retries(h) + 1 < LIMIT && Left(AfterRetry(h), max) + 1 == Left(h, max)
  {
    ParseUndoesItoa(Retries(h) + 1);
  }

  lemma LeftZeroIff(h: Headers, max: int)
    ensures Left(h, max) == 0 <==> !MayRetry(h, max)
  {
  }

  // ---------- well-formedness ----------

  ghost predicate Shaped(t: Topic) {
    && t.nextOff == |t.messages| == |t.granted|
    && (forall i :: 0 <= i < |t.queue| ==> t.queue[i] < |t.messages|)
    && (forall i :: 0 <= i < |t.messages| ==> t.messages[i].offset == i + 1)
    && (forall g :: g in t.cursors ==> t.cursors[g] <= |t.queue|)
    && (forall w :: w in t.inflight ==>
          t.inflight[w].group in t.cursors && t.inflight[w].pos < t.cursors[t.inflight[w].group])
  }

  lemma ShapedFinish(t: Topic, worker: string, failed: bool, max: int)
    requires Shaped(t) && CanFinish(t, worker)
    ensures Shaped(DoFinish(t, worker, failed, max))
  {
    var m := t.queue[t.inflight[worker].pos];
    var t' := DoFinish(t, worker, failed, max);
    assert m < |t.messages| == |t'.messages| && t.queue <= t'.queue;
    assert forall i :: |t.queue| <= i < |t'.queue| ==> t'.queue[i] == m;
  }

  lemma ShapedClaim(t: Topic, worker: string, group: string)
    requires Shaped(t) && CanClaim(t, worker, group)
    ensures Shaped(DoClaim(t, worker, group))
  {
  }

  lemma ShapedStep(t: Topic, step: Step, max: int)
    requires Shaped(t)
    ensures Shaped(Next(t, step, max))
  {
    match step
    case Publish(_, _, _) =>
    case Subscribe(_) =>
    case Claim(w, g) => if CanClaim(t, w, g) { ShapedClaim(t, w, g); }
    case Finish(w, failed) => if CanFinish(t, w) { ShapedFinish(t, w, failed, max); }
  }

  // ---------- conservation of messages ----------

  function CountTo(queue: seq<nat>, cursor: nat, p: nat -> bool): nat {
    CountIf(if cursor <= |queue| then queue[..cursor] else queue, p)
  }

  function Weight(queue: seq<nat>, f: Flight, p: nat -> bool): nat {
    if f.pos < |queue| && p(queue[f.pos]) then 1 else 0
  }

  /** Claims made by all groups, of messages satisfying p. */
  ghost function Claimed(queue: seq<nat>, cursors: map<string, nat>, p: nat -> bool): nat {
    Sum(map g | g in cursors :: CountTo(queue, cursors[g], p))
  }

  ghost function InFlight(queue: seq<nat>, inflight: map<string, Flight>, p: nat -> bool): nat {
    Sum(map w | w in inflight :: Weight(queue, inflight[w], p))
  }

  /** Each message is queued once, and once more for every retry. */
  ghost predicate QueueBalance(t: Topic, p: nat -> bool) {
    CountIf(t.queue, p) == CountIf(UpTo(|t.messages|), p) + CountIf(t.retried, p)
  }

  /** Every claim is acknowledged, retried, dead-lettered, or still under way. */
  ghost predicate ClaimBalance(t: Topic, p: nat -> bool) {
    Claimed(t.queue, t.cursors, p) ==
    CountIf(t.acked, p) + CountIf(t.retried, p) + CountIf(t.dlq, p) + InFlight(t.queue, t.inflight, p)
  }

  lemma QueueBalanceStep(t: Topic, step: Step, max: int, p: nat -> bool)
    requires Shaped(t) && QueueBalance(t, p)
    ensures QueueBalance(Next(t, step, max), p)
  {
    match step
    case Publish(k, v, h) => PublishQueues(t, DoPublish(t, k, v, h, max), p);
    case Finish(w, failed) =>
      if CanFinish(t, w) {
        var m := t.queue[t.inflight[w].pos];
        if failed && MayRetry(t.messages[m].headers, max) { RetryQueues(t, DoFinish(t, w, failed, max), m, p); }
      }
    case _ =>
  }

  lemma PublishQueues(t: Topic, t': Topic, p: nat -> bool)
    requires QueueBalance(t, p) && t'.queue == t.queue + [|t.messages|]
    requires |t'.messages| == |t.messages| + 1 && t'.retried == t.retried
    ensures QueueBalance(t', p)
  {
    assert UpTo(|t.messages| + 1) == UpTo(|t.messages|) + [|t.messages|];
    CountIfAppend(t.queue, |t.messages|, p);
    CountIfAppend(UpTo(|t.messages|), |t.messages|, p);
  }

  lemma RetryQueues(t: Topic, t': Topic, m: nat, p: nat -> bool)
    requires QueueBalance(t, p) && t'.queue == t.queue + [m] && t'.retried == t.retried + [m]
    requires |t'.messages| == |t.messages|
    ensures QueueBalance(t', p)
  {
    CountIfAppend(t.queue, m, p);
    CountIfAppend(t.retried, m, p);
  }

  /** Appending to the queue changes neither what was claimed nor what is under way. */
  lemma ClaimedAppend(queue: seq<nat>, m: nat, cursors: map<string, nat>, p: nat -> bool)
    requires forall g :: g in cursors ==> cursors[g] <= |queue|
    ensures Claimed(queue + [m], cursors, p) == Claimed(queue, cursors, p)
  {
    forall g | g in cursors ensures (queue + [m])[..cursors[g]] == queue[..cursors[g]] { }
    assert (map g | g in cursors :: CountTo(queue, cursors[g], p))
        == (map g | g in cursors :: CountTo(queue + [m], cursors[g], p));
  }

  lemma InFlightAppend(queue: seq<nat>, m: nat, inflight: map<string, Flight>, p: nat -> bool)
    requires forall w :: w in inflight ==> inflight[w].pos < |queue|
    ensures InFlight(queue + [m], inflight, p) == InFlight(queue, inflight, p)
  {
    assert (map w | w in inflight :: Weight(queue, inflight[w], p))
        == (map w | w in inflight :: Weight(queue + [m], inflight[w], p));
  }

  lemma ClaimedMove(queue: seq<nat>, cursors: map<string, nat>, group: string, c: nat, p: nat -> bool)
    ensures Claimed(queue, cursors[group := c], p) == Claimed(queue, cursors, p)
      - (if group in cursors then CountTo(queue, cursors[group], p) else 0) + CountTo(queue, c, p)
  {
    var a := map g | g in cursors :: CountTo(queue, cursors[g], p);
    var next := cursors[group := c];
    var b := map g | g in next :: CountTo(queue, next[g], p);
    SumUpdate(a, group, CountTo(queue, c, p));
    assert b.Keys == a.Keys + {group};
    assert b == a[group := CountTo(queue, c, p)];
  }

  lemma InFlightStart(queue: seq<nat>, inflight: map<string, Flight>, worker: string, f: Flight, p: nat -> bool)
    requires worker !in inflight
    ensures InFlight(queue, inflight[worker := f], p) == InFlight(queue, inflight, p) + Weight(queue, f, p)
  {
    var b := map w | w in inflight :: Weight(queue, inflight[w], p);
    var next := inflight[worker := f];
    SumUpdate(b, worker, Weight(queue, f, p));
    assert b[worker := Weight(queue, f, p)] == map w | w in next :: Weight(queue, next[w], p);
  }

  lemma InFlightEnd(queue: seq<nat>, inflight: map<string, Flight>, worker: string, p: nat -> bool)
    requires worker in inflight
    ensures InFlight(queue, inflight - {worker}, p) ==
            InFlight(queue, inflight, p) - Weight(queue, inflight[worker], p)
  {
    var b := map w | w in inflight :: Weight(queue, inflight[w], p);
    var next := inflight - {worker};
    SumUpdate(b, worker, 0);
    assert b - {worker} == map w | w in next :: Weight(queue, next[w], p);
  }

  lemma PublishBalance(t: Topic, step: Step, max: int, p: nat -> bool)
    requires Shaped(t) && ClaimBalance(t, p) && step.Publish?
    ensures ClaimBalance(Next(t, step, max), p)
  {
    ClaimedAppend(t.queue, |t.messages|, t.cursors, p);
    InFlightAppend(t.queue, |t.messages|, t.inflight, p);
  }

  lemma ClaimingBalance(t: Topic, worker: string, group: string, p: nat -> bool)
    requires Shaped(t) && ClaimBalance(t, p) && CanClaim(t, worker, group)
    ensures ClaimBalance(DoClaim(t, worker, group), p)
  {
    var c := t.cursors[group];
    assert t.queue[..c + 1] == t.queue[..c] + [t.queue[c]];
    CountIfAppend(t.queue[..c], t.queue[c], p);
    ClaimedMove(t.queue, t.cursors, group, c + 1, p);
    InFlightStart(t.queue, t.inflight, worker, Flight(group, c), p);
  }

  lemma LandingBalance(t: Topic, t': Topic, worker: string, m: nat, p: nat -> bool)
    requires ClaimBalance(t, p) && worker in t.inflight
    requires t.inflight[worker].pos < |t.queue| && m == t.queue[t.inflight[worker].pos]
    requires t'.queue == t.queue && t'.cursors == t.cursors && t'.inflight == t.inflight - {worker}
    requires t'.retried == t.retried
    requires (t'.acked == t.acked + [m] && t'.dlq == t.dlq) || (t'.acked == t.acked && t'.dlq == t.dlq + [m])
    ensures ClaimBalance(t', p)
  {
    InFlightEnd(t.queue, t.inflight, worker, p);
    CountIfAppend(t.acked, m, p);
    CountIfAppend(t.dlq, m, p);
  }

  lemma {:induction false} RetryBalance(t: Topic, t': Topic, worker: string, m: nat, p: nat -> bool)
    requires Shaped(t) && ClaimBalance(t, p) && worker in t.inflight && m == t.queue[t.inflight[worker].pos]
    requires t'.queue == t.queue + [m] && t'.cursors == t.cursors && t'.inflight == t.inflight - {worker}
    requires t'.retried == t.retried + [m] && t'.acked == t.acked && t'.dlq == t.dlq
    ensures ClaimBalance(t', p)
  {
    InFlightEnd(t.queue, t.inflight, worker, p);
    CountIfAppend(t.retried, m, p);
    ClaimedAppend(t.queue, m, t.cursors, p);
    InFlightAppend(t.queue, m, t'.inflight, p);
  }

  lemma FinishBalance(t: Topic, worker: string, failed: bool, max: int, p: nat -> bool)
    requires Shaped(t) && ClaimBalance(t, p) && CanFinish(t, worker)
    ensures ClaimBalance(DoFinish(t, worker, failed, max), p)
  {
    var m := t.queue[t.inflight[worker].pos];
    var t' := DoFinish(t, worker, failed, max);
    if failed && MayRetry(t.messages[m].headers, max) {
      RetryBalance(t, t', worker, m, p);
    } else {
      LandingBalance(t, t', worker, m, p);
    }
  }

  lemma ClaimBalanceStep(t: Topic, step: Step, max: int, p: nat -> bool)
    requires Shaped(t) && ClaimBalance(t, p)
    ensures ClaimBalance(Next(t, step, max), p)
  {
    match step
    case Publish(k, v, h) => PublishBalance(t, step, max, p);
    case Subscribe(g) =>
      if g !in t.cursors {
        assert t.queue[..0] == [];
        ClaimedMove(t.queue, t.cursors, g, 0, p);
      }
    case Claim(w, g) => if CanClaim(t, w, g) { ClaimingBalance(t, w, g, p); }
    case Finish(w, failed) => if CanFinish(t, w) { FinishBalance(t, w, failed, max, p); }
  }

  lemma {:induction false} ConservedFrom(t: Topic, steps: seq<Step>, max: int, p: nat -> bool)
    requires Shaped(t) && QueueBalance(t, p) && ClaimBalance(t, p)
    ensures var r := Run(t, steps, max); Shaped(r) && QueueBalance(r, p) && ClaimBalance(r, p)
    decreases |steps|
  {
    if steps == [] {
    } else {
      ShapedStep(t, steps[0], max);
      QueueBalanceStep(t, steps[0], max, p);
      ClaimBalanceStep(t, steps[0], max, p);
      ConservedFrom(Next(t, steps[0], max), steps[1..], max, p);
    }
  }

  lemma EmptyBalances(p: nat -> bool)
    ensures Shaped(EMPTY) && QueueBalance(EMPTY, p) && ClaimBalance(EMPTY, p)
  {
    assert UpTo(0) == [];
  }

  /**
    In every run, for every set of messages: queue entries = published + retried, and claims =
    acknowledged + retried + dead + under way.
   */
  lemma MessagesAreConserved(steps: seq<Step>, max: int, p: nat -> bool)
    ensures var r := Run(EMPTY, steps, max); Shaped(r) && QueueBalance(r, p) && ClaimBalance(r, p)
  {
    EmptyBalances(p);
    ConservedFrom(EMPTY, steps, max, p);
  }

  /** Nothing is under way and every group has read the whole queue. */
  predicate Quiet(t: Topic) {
    t.inflight == map[] && forall g :: g in t.cursors ==> t.cursors[g] == |t.queue|
  }

  /**
    When a topic falls quiet, each message was acknowledged or dead-lettered once per group, and
    once more for every retry that the other groups saw as a duplicate.
   */
  lemma EveryMessageIsSettled(steps: seq<Step>, max: int, m: nat, p: nat -> bool)
    requires Quiet(Run(EMPTY, steps, max)) && m < |Run(EMPTY, steps, max).messages|
    requires forall x :: p(x) <==> x == m
    ensures var r := Run(EMPTY, steps, max);
      && CountIf(r.queue, p) == 1 + CountIf(r.retried, p)
      && CountIf(r.acked, p) + CountIf(r.dlq, p) + CountIf(r.retried, p) == |r.cursors| * CountIf(r.queue, p)
  {
    MessagesAreConserved(steps, max, p);
    Settled(Run(EMPTY, steps, max), m, p);
  }

  lemma {:induction false} Settled(r: Topic, m: nat, p: nat -> bool)
    requires Shaped(r) && QueueBalance(r, p) && ClaimBalance(r, p) && Quiet(r) && m < |r.messages|
    requires forall x :: p(x) <==> x == m
    ensures CountIf(r.queue, p) == 1 + CountIf(r.retried, p)
    ensures CountIf(r.acked, p) + CountIf(r.dlq, p) + CountIf(r.retried, p) == |r.cursors| * CountIf(r.queue, p)
  {
    CountOneOf(|r.messages|, m, p);
    QuietCounts(r, p);
    assert CountIf(r.queue, p) == 1 + CountIf(r.retried, p);
  }

  lemma QuietCounts(r: Topic, p: nat -> bool)
    requires Quiet(r)
    ensures InFlight(r.queue, r.inflight, p) == 0
    ensures Claimed(r.queue, r.cursors, p) == |r.cursors| * CountIf(r.queue, p)
  {
    assert (map w | w in r.inflight :: Weight(r.queue, r.inflight[w], p)) == map[];
    var a := map g | g in r.cursors :: CountTo(r.queue, r.cursors[g], p);
    assert r.queue[..|r.queue|] == r.queue;
    SumConstant(a, CountIf(r.queue, p));
    assert a.Keys == r.cursors.Keys;
  }

  /** With one group each message is acknowledged exactly once or dead-lettered exactly once. */
  lemma OneGroupSettlesOnce(steps: seq<Step>, max: int, m: nat, p: nat -> bool)
    requires Quiet(Run(EMPTY, steps, max)) && m < |Run(EMPTY, steps, max).messages|
    requires |Run(EMPTY, steps, max).cursors| == 1
    requires forall x :: p(x) <==> x == m
    ensures var r := Run(EMPTY, steps, max);
      CountIf(r.acked, p) + CountIf(r.dlq, p) == 1
  {
    EveryMessageIsSettled(steps, max, m, p);
  }

  /** In particular, published = acknowledged + dead. */
  lemma OneGroupTotals(steps: seq<Step>, max: int)
    requires Quiet(Run(EMPTY, steps, max)) && |Run(EMPTY, steps, max).cursors| == 1
    ensures var r := Run(EMPTY, steps, max); |r.messages| == |r.acked| + |r.dlq|
  {
    var p := (x: nat) => true;
    MessagesAreConserved(steps, max, p);
    QuietTotals(Run(EMPTY, steps, max), p);
  }

  lemma QuietTotals(r: Topic, p: nat -> bool)
    requires QueueBalance(r, p) && ClaimBalance(r, p) && Quiet(r) && |r.cursors| == 1 && forall x :: p(x)
    ensures |r.messages| == |r.acked| + |r.dlq|
  {
    QuietCounts(r, p);
    AllCounts(r, p);
    assert Claimed(r.queue, r.cursors, p) == |r.queue|;
    assert |r.queue| == |r.messages| + |r.retried|;
  }

  /** A topic that is not quiet can always go on: a delivery can be finished, or the next one claimed. */
  lemma GoesOnUntilQuiet(t: Topic, idle: string) returns (step: Step)
    requires Shaped(t) && !Quiet(t) && idle !in t.inflight
    ensures Moves(t, step)
  {
    if w :| w in t.inflight {
      step := Finish(w, false);
    } else {
      var g :| g in t.cursors && t.cursors[g] != |t.queue|;
      step := Claim(idle, g);
    }
  }

  lemma AllCounts(t: Topic, p: nat -> bool)
    requires forall x :: p(x)
    ensures CountIf(t.queue, p) == |t.queue| && CountIf(t.acked, p) == |t.acked|
    ensures CountIf(t.retried, p) == |t.retried| && CountIf(t.dlq, p) == |t.dlq|
    ensures CountIf(UpTo(|t.messages|), p) == |t.messages|
  {
    CountIfAll(t.queue, p);
    CountIfAll(t.acked, p);
    CountIfAll(t.retried, p);
    CountIfAll(t.dlq, p);
    CountIfAll(UpTo(|t.messages|), p);
  }

  // ---------- bounded work ----------

  function Lefts(messages: seq<Message>, max: int): seq<nat> {
    seq(|messages|, i requires 0 <= i < |messages| => Left(messages[i].headers, max))
  }

  /** Dead messages have no retries left. */
  predicate DeadSpent(dlq: seq<nat>, lefts: seq<nat>) {
    forall i :: 0 <= i < |dlq| ==> dlq[i] < |lefts| && lefts[dlq[i]] == 0
  }

  /** Retries done plus retries left are what was granted. */
  ghost predicate Budgeted(t: Topic, max: int) {
    && Shaped(t)
    && |t.queue| == |t.messages| + |t.retried|
    && |t.retried| + Total(Lefts(t.messages, max)) == Total(t.granted)
    && DeadSpent(t.dlq, Lefts(t.messages, max))
  }

  lemma BudgetPublish(t: Topic, t': Topic, max: int, left: nat)
    requires Budgeted(t, max) && Shaped(t')
    requires t'.granted == t.granted + [left] && Lefts(t'.messages, max) == Lefts(t.messages, max) + [left]
    requires |t'.queue| == |t.queue| + 1 && t'.retried == t.retried && t'.dlq == t.dlq
    ensures Budgeted(t', max)
  {
    TotalAppend(t.granted, left);
    TotalAppend(Lefts(t.messages, max), left);
    assert |t'.messages| == |Lefts(t'.messages, max)|;
  }

  lemma BudgetRetry(t: Topic, t': Topic, max: int, m: nat, left: nat)
    requires Budgeted(t, max) && Shaped(t') && m < |t.messages| && Lefts(t.messages, max)[m] == left + 1
    requires t'.granted == t.granted && Lefts(t'.messages, max) == Lefts(t.messages, max)[m := left]
    requires |t'.queue| == |t.queue| + 1 && |t'.retried| == |t.retried| + 1 && t'.dlq == t.dlq
    ensures Budgeted(t', max)
  {
    TotalUpdate(Lefts(t.messages, max), m, left);
    assert |t'.messages| == |Lefts(t'.messages, max)|;
  }

  lemma BudgetSame(t: Topic, t': Topic, max: int)
    requires Budgeted(t, max) && Shaped(t') && t'.queue == t.queue && t'.messages == t.messages
    requires t'.retried == t.retried && t'.granted == t.granted && DeadSpent(t'.dlq, Lefts(t.messages, max))
    ensures Budgeted(t', max)
  {
  }

  lemma LeftsAppend(messages: seq<Message>, mv: Message, max: int)
    ensures Lefts(messages + [mv], max) == Lefts(messages, max) + [Left(mv.headers, max)]
  {
  }

  lemma LeftsUpdate(messages: seq<Message>, m: nat, mv: Message, max: int)
    requires m < |messages|
    ensures Lefts(messages[m := mv], max) == Lefts(messages, max)[m := Left(mv.headers, max)]
  {
  }

  lemma {:induction false} BudgetStep(t: Topic, step: Step, max: int)
    requires Budgeted(t, max) && max < LIMIT
    ensures Budgeted(Next(t, step, max), max)
  {
    ShapedStep(t, step, max);
    var t' := Next(t, step, max);
    match step
    case Publish(k, v, h) =>
      LeftsAppend(t.messages, t'.messages[|t.messages|], max);
      BudgetPublish(t, t', max, Left(h, max));
    case Subscribe(_) => BudgetSame(t, t', max);
    case Claim(_, _) => BudgetSame(t, t', max);
    case Finish(w, failed) =>
      if CanFinish(t, w) { BudgetFinish(t, w, failed, max); }
  }

  lemma {:induction false} BudgetFinish(t: Topic, worker: string, failed: bool, max: int)
    requires Budgeted(t, max) && max < LIMIT && CanFinish(t, worker)
    ensures Budgeted(DoFinish(t, worker, failed, max), max)
  {
    ShapedFinish(t, worker, failed, max);
    var m := t.queue[t.inflight[worker].pos];
    var h := t.messages[m].headers;
    var t' := DoFinish(t, worker, failed, max);
    if failed && MayRetry(h, max) {
      RetryCostsOne(h, max);
      LeftsUpdate(t.messages, m, t'.messages[m], max);
      BudgetRetry(t, t', max, m, Left(AfterRetry(h), max));
    } else {
      LeftZeroIff(h, max);
      BudgetSame(t, t', max);
    }
  }

  lemma {:induction false} BudgetRun(t: Topic, steps: seq<Step>, max: int)
    requires Budgeted(t, max) && max < LIMIT
    ensures Budgeted(Run(t, steps, max), max)
    decreases |steps|
  {
    if steps == [] {
    } else {
      BudgetStep(t, steps[0], max);
      BudgetRun(Next(t, steps[0], max), steps[1..], max);
    }
  }

  /** No publisher presets a counter that buys more than MaxRetries retries. */
  predicate SaneHeaders(steps: seq<Step>, max: int) {
    forall i :: 0 <= i < |steps| && steps[i].Publish? ==> Left(steps[i].headers, max) <= Max(0, max)
  }

  /** It does so exactly by overflowing to a negative number. */
  lemma SaneIff(h: Headers, max: int)
    ensures Left(h, max) <= Max(0, max) <==> Retries(h) >= Min(0, max)
  {
  }

  /** A preset counter of up to 18 characters cannot. */
  lemma ShortHeadersAreSane(h: Headers, max: int)
    requires "retries" in h ==> |h["retries"]| <= 18
    ensures Left(h, max) <= Max(0, max)
  {
    if "retries" in h { ShortHeadersParse(0, h["retries"], 0); }
  }

  /** One of nineteen nines can, and buys one retry more than MaxRetries. */
  lemma LongHeaderBuysARetry(nines: string, max: int)
    requires |nines| == 19 && (forall i :: 0 <= i < 19 ==> nines[i] == '9') && 0 <= max
    ensures Left(map["retries" := nines], max) == 1 + max
  {
    LongHeaderWraps(nines);
  }

  /** A worker's group fails k times over. */
  function Failing(worker: string, group: string, k: nat): seq<Step> {
    if k == 0 then [] else [Claim(worker, group), Finish(worker, true)] + Failing(worker, group, k - 1)
  }

  /** Nothing is under way, there is but one message, and the group has not read all of the queue. */
  predicate OneMessage(t: Topic, group: string) {
    && t.inflight == map[] && |t.messages| == 1 && (forall i :: 0 <= i < |t.queue| ==> t.queue[i] == 0)
    && group in t.cursors && t.cursors[group] < |t.queue|
  }

  /** Fails a message and requeues it. */
  function FailedOnce(t: Topic, worker: string, group: string, max: int): Topic {
    Next(Next(t, Claim(worker, group), max), Finish(worker, true), max)
  }

  lemma FailOnce(t: Topic, worker: string, group: string, max: int)
    requires OneMessage(t, group) && max < LIMIT && Left(t.messages[0].headers, max) > 0
    ensures var next := FailedOnce(t, worker, group, max);
      && OneMessage(next, group) && |next.queue| == |t.queue| + 1
      && Left(next.messages[0].headers, max) + 1 == Left(t.messages[0].headers, max)
  {
    LeftZeroIff(t.messages[0].headers, max);
    RetryCostsOne(t.messages[0].headers, max);
    assert FailedOnce(t, worker, group, max).inflight == map[];
  }

  lemma FailFirst(t: Topic, worker: string, group: string, k: nat, max: int)
    requires k > 0
    ensures Run(t, Failing(worker, group, k), max) ==
            Run(FailedOnce(t, worker, group, max), Failing(worker, group, k - 1), max)
  {
    RunTwo(t, Claim(worker, group), Finish(worker, true), Failing(worker, group, k - 1), max);
  }

  /** A message that always fails is requeued as often as its counter allows. */
  lemma {:induction false} FailingRequeues(t: Topic, worker: string, group: string, k: nat, max: int)
    requires OneMessage(t, group) && max < LIMIT && Left(t.messages[0].headers, max) >= k
    ensures var r := Run(t, Failing(worker, group, k), max);
      |r.queue| == |t.queue| + k && |r.messages| == 1
    decreases k
  {
    if k == 0 {
    } else {
      FailFirst(t, worker, group, k, max);
      FailOnce(t, worker, group, max);
      FailingRequeues(FailedOnce(t, worker, group, max), worker, group, k - 1, max);
    }
  }

  lemma FirstMessage(t: Topic, h: Headers, group: string, max: int) returns (next: Topic)
    requires t == EMPTY
    ensures next == Next(Next(t, Publish("", "", h), max), Subscribe(group), max)
    ensures OneMessage(next, group) && |next.queue| == 1 && next.messages[0].headers == h
  {
    next := Next(Next(t, Publish("", "", h), max), Subscribe(group), max);
    assert next.messages == [Message(1, "", "", h)] && next.queue == [0];
  }

  /** Any such counter breaks the bound: one message and one group that keeps failing it are enough. */
  lemma InsaneHeaderBreaksBound(t: Topic, h: Headers, worker: string, group: string, max: int)
    returns (steps: seq<Step>)
    requires t == EMPTY && max < LIMIT && Left(h, max) > Max(0, max)
    ensures |Run(t, steps, max).queue| > |Run(t, steps, max).messages| * (1 + Max(0, max))
    ensures forall i :: 0 <= i < |steps| && steps[i].Publish? ==> steps[i].headers == h
  {
    var k := Left(h, max);
    var first := FirstMessage(t, h, group, max);
    steps := [Publish("", "", h), Subscribe(group)] + Failing(worker, group, k);
    RunTwo(t, Publish("", "", h), Subscribe(group), Failing(worker, group, k), max);
    FailingRequeues(first, worker, group, k, max);
    NoPublishFailing(worker, group, k);
  }

  lemma {:induction false} NoPublishFailing(worker: string, group: string, k: nat)
    ensures forall i :: 0 <= i < |Failing(worker, group, k)| ==> !Failing(worker, group, k)[i].Publish?
  {
    if k == 0 {
    } else {
      NoPublishFailing(worker, group, k - 1);
    }
  }

  lemma {:induction false} GrantedAtMost(t: Topic, steps: seq<Step>, max: int, bound: nat)
    requires forall i :: 0 <= i < |t.granted| ==> t.granted[i] <= bound
    requires forall i :: 0 <= i < |steps| && steps[i].Publish? ==> Left(steps[i].headers, max) <= bound
    ensures forall i :: 0 <= i < |Run(t, steps, max).granted| ==> Run(t, steps, max).granted[i] <= bound
    decreases |steps|
  {
    if steps == [] {
    } else {
      GrantedAtMost(Next(t, steps[0], max), steps[1..], max, bound);
    }
  }

  /**
    Whatever the groups and handlers do, the queue never holds more than published * (1 +
    MaxRetries) entries; a preset counter that overflows buys its message one retry more.
   */
  lemma QueueIsBounded(steps: seq<Step>, max: int)
    requires max < LIMIT
    ensures var r := Run(EMPTY, steps, max);
      && |r.queue| <= |r.messages| * (2 + Max(0, max))
      && (SaneHeaders(steps, max) ==> |r.queue| <= |r.messages| * (1 + Max(0, max)))
  {
    BudgetRun(EMPTY, steps, max);
    var r := Run(EMPTY, steps, max);
    GrantedAtMost(EMPTY, steps, max, 1 + Max(0, max));
    BudgetBounds(r, max, 2 + Max(0, max));
    if SaneHeaders(steps, max) {
      GrantedAtMost(EMPTY, steps, max, Max(0, max));
      BudgetBounds(r, max, 1 + Max(0, max));
    }
  }

  lemma BudgetBounds(r: Topic, max: int, n: nat)
    requires n > 0 && Budgeted(r, max) && forall i :: 0 <= i < |r.granted| ==> r.granted[i] <= n - 1
    ensures |r.queue| <= |r.messages| * n
  {
    TotalAtMost(r.granted, n - 1);
    assert |r.messages| + |r.messages| * (n - 1) == |r.messages| * n;
  }

  function ClaimsMade(t: Topic, steps: seq<Step>, max: int): nat
    decreases |steps|
  {
    if steps == [] then 0
    else (if steps[0].Claim? && CanClaim(t, steps[0].worker, steps[0].group) then 1 else 0)
         + ClaimsMade(Next(t, steps[0], max), steps[1..], max)
  }

  lemma {:induction false} ClaimsAdvanceCursors(t: Topic, steps: seq<Step>, max: int)
    ensures Sum(Run(t, steps, max).cursors) == Sum(t.cursors) + ClaimsMade(t, steps, max)
    ensures Run(t, steps, max).delivered == t.delivered + ClaimsMade(t, steps, max)
    decreases |steps|
  {
    if steps == [] {
    } else {
      ClaimsAdvanceCursors(Next(t, steps[0], max), steps[1..], max);
      match steps[0]
      case Subscribe(g) => SumUpdate(t.cursors, g, 0);
      case Claim(w, g) => if CanClaim(t, w, g) { SumUpdate(t.cursors, g, t.cursors[g] + 1); }
      case _ =>
    }
  }

  predicate Delivers(step: Step) {
    step.Claim? || step.Finish?
  }

  lemma {:induction false} DeliveryKeeps(t: Topic, steps: seq<Step>, max: int)
    requires forall i :: 0 <= i < |steps| ==> Delivers(steps[i])
    ensures Run(t, steps, max).cursors.Keys == t.cursors.Keys
    ensures Run(t, steps, max).granted == t.granted
    decreases |steps|
  {
    if steps == [] {
    } else {
      DeliveryKeeps(Next(t, steps[0], max), steps[1..], max);
    }
  }

  lemma QueueWithin(t: Topic, r: Topic, max: int)
    requires Budgeted(t, max) && Budgeted(r, max) && r.granted == t.granted
    ensures |r.queue| <= |t.queue| + Total(Lefts(t.messages, max))
  {
  }

  lemma {:induction false} CursorsFit(t: Topic, steps: seq<Step>, max: int, bound: nat)
    requires Budgeted(t, max) && max < LIMIT && bound == |t.queue| + Total(Lefts(t.messages, max))
    requires forall i :: 0 <= i < |steps| ==> Delivers(steps[i])
    ensures var cursors := Run(t, steps, max).cursors;
      |cursors| == |t.cursors| && forall g :: g in cursors ==> cursors[g] <= bound
  {
    BudgetRun(t, steps, max);
    DeliveryKeeps(t, steps, max);
    var r := Run(t, steps, max);
    QueueWithin(t, r, max);
    assert |r.cursors| == |r.cursors.Keys| && |t.cursors| == |t.cursors.Keys|;
  }

  /** Once publishing stops, only so many deliveries can still be made, whatever handlers do. */
  lemma {:induction false} DeliveriesRunOut(t: Topic, steps: seq<Step>, max: int, bound: nat)
    requires Budgeted(t, max) && max < LIMIT && bound == |t.queue| + Total(Lefts(t.messages, max))
    requires forall i :: 0 <= i < |steps| ==> Delivers(steps[i])
    ensures Sum(t.cursors) + ClaimsMade(t, steps, max) <= |t.cursors| * bound
  {
    CursorsFit(t, steps, max, bound);
    SumAtMost(Run(t, steps, max).cursors, |t.cursors|, bound);
    ClaimsAdvanceCursors(t, steps, max);
  }

  function FinishesMade(t: Topic, steps: seq<Step>, max: int): nat
    decreases |steps|
  {
    if steps == [] then 0
    else (if steps[0].Finish? && CanFinish(t, steps[0].worker) then 1 else 0)
         + FinishesMade(Next(t, steps[0], max), steps[1..], max)
  }

  /** A delivery step that can be taken. */
  predicate Moves(t: Topic, step: Step) {
    match step
    case Claim(w, g) => CanClaim(t, w, g)
    case Finish(w, _) => CanFinish(t, w)
    case _ => false
  }

  predicate AllMove(t: Topic, steps: seq<Step>, max: int)
    decreases |steps|
  {
    steps == [] || (Moves(t, steps[0]) && AllMove(Next(t, steps[0], max), steps[1..], max))
  }

  lemma FlightsMove(inflight: map<string, Flight>, worker: string, f: Flight)
    ensures worker !in inflight ==> |inflight[worker := f]| == |inflight| + 1
    ensures worker in inflight ==> |inflight - {worker}| == |inflight| - 1
  {
    assert inflight[worker := f].Keys == inflight.Keys + {worker};
    assert (inflight - {worker}).Keys == inflight.Keys - {worker};
  }

  lemma MoveIsCounted(t: Topic, step: Step, max: int)
    requires Moves(t, step)
    ensures |Next(t, step, max).inflight| == if step.Claim? then |t.inflight| + 1 else |t.inflight| - 1
  {
    if step.Claim? {
      FlightsMove(t.inflight, step.worker, Flight(step.group, t.cursors[step.group]));
    } else {
      FlightsMove(t.inflight, step.worker, t.inflight[step.worker]);
    }
  }

  lemma {:induction false} MovesAreCounted(t: Topic, steps: seq<Step>, max: int)
    requires AllMove(t, steps, max)
    ensures |steps| == ClaimsMade(t, steps, max) + FinishesMade(t, steps, max)
    ensures FinishesMade(t, steps, max) <= |t.inflight| + ClaimsMade(t, steps, max)
    ensures forall i :: 0 <= i < |steps| ==> Delivers(steps[i])
    decreases |steps|
  {
    if steps == [] {
    } else {
      MoveIsCounted(t, steps[0], max);
      MovesAreCounted(Next(t, steps[0], max), steps[1..], max);
    }
  }

  /**
    So once publishing stops, no schedule of workers goes on for ever: its length is bounded, and
    where it cannot go on the topic is quiet.
   */
  lemma {:induction false} DeliveryTerminates(t: Topic, steps: seq<Step>, max: int, bound: nat)
    requires Budgeted(t, max) && max < LIMIT && AllMove(t, steps, max)
    requires bound == |t.queue| + Total(Lefts(t.messages, max))
    ensures |steps| <= |t.inflight| + 2 * (|t.cursors| * bound - Sum(t.cursors))
  {
    MovesAreCounted(t, steps, max);
    DeliveriesRunOut(t, steps, max, bound);
  }

  /** A dead-lettered message has used up every retry it was granted. */
  ghost predicate SpentExactly(t: Topic, max: int, m: nat, p: nat -> bool) {
    m < |t.messages| ==>
      m < |t.granted| && Left(t.messages[m].headers, max) + CountIf(t.retried, p) == t.granted[m]
  }

  lemma SpentStep(t: Topic, step: Step, max: int, m: nat, p: nat -> bool)
    requires Shaped(t) && max < LIMIT && SpentExactly(t, max, m, p)
    requires m >= |t.messages| ==> CountIf(t.retried, p) == 0
    requires forall x :: p(x) <==> x == m
    ensures SpentExactly(Next(t, step, max), max, m, p)
    ensures m >= |Next(t, step, max).messages| ==> CountIf(Next(t, step, max).retried, p) == 0
  {
    if step.Finish? && CanFinish(t, step.worker) {
      var q := t.queue[t.inflight[step.worker].pos];
      CountIfAppend(t.retried, q, p);
      if step.failed && MayRetry(t.messages[q].headers, max) { RetryCostsOne(t.messages[q].headers, max); }
    }
  }

  lemma {:induction false} SpentRun(t: Topic, steps: seq<Step>, max: int, m: nat, p: nat -> bool)
    requires Shaped(t) && max < LIMIT && SpentExactly(t, max, m, p)
    requires m >= |t.messages| ==> CountIf(t.retried, p) == 0
    requires forall x :: p(x) <==> x == m
    ensures SpentExactly(Run(t, steps, max), max, m, p)
    decreases |steps|
  {
    if steps == [] {
    } else {
      ShapedStep(t, steps[0], max);
      SpentStep(t, steps[0], max, m, p);
      SpentRun(Next(t, steps[0], max), steps[1..], max, m, p);
    }
  }

  /** A message reaches the dead-letter queue only after exactly the retries it was granted. */
  lemma DeadAfterAllRetries(steps: seq<Step>, max: int, i: nat, p: nat -> bool)
    requires max < LIMIT && i < |Run(EMPTY, steps, max).dlq|
    requires forall x :: p(x) <==> x == Run(EMPTY, steps, max).dlq[i]
    ensures var r := Run(EMPTY, steps, max);
      r.dlq[i] < |r.messages| && |r.granted| == |r.messages| && CountIf(r.retried, p) == r.granted[r.dlq[i]]
  {
    BudgetRun(EMPTY, steps, max);
    SpentRun(EMPTY, steps, max, Run(EMPTY, steps, max).dlq[i], p);
  }

  // ---------- what is delivered ----------

  /** The Publish steps of a run, in order. */
  function Published(steps: seq<Step>): seq<Step> {
    if steps == [] then []
    else
      var rest := Published(steps[..|steps| - 1]);
      if steps[|steps| - 1].Publish? then rest + [steps[|steps| - 1]] else rest
  }

  /** The message is the one published by this step: key, value and place; headers until the first retry. */
  predicate IsFrom(mv: Message, m: nat, step: Step, retried: bool) {
    && step.Publish? && mv.offset == m + 1 && mv.key == step.key && mv.value == step.value
    && (if retried then mv.headers.Keys == {"retries"} else mv.headers == step.headers)
  }

  /** Messages are what was published, and all references lead to one. */
  predicate Genuine(t: Topic, published: seq<Step>) {
    && t.nextOff == |t.messages| == |published|
    && (forall m :: 0 <= m < |t.messages| ==> IsFrom(t.messages[m], m, published[m], m in t.retried))
    && (forall i :: 0 <= i < |t.queue| ==> t.queue[i] < |t.messages|)
    && (forall i :: 0 <= i < |t.dlq| ==> t.dlq[i] < |t.messages|)
    && (forall i :: 0 <= i < |t.retried| ==> t.retried[i] < |t.messages|)
  }

  lemma GenuinePublish(t: Topic, published: seq<Step>, step: Step, max: int)
    requires Genuine(t, published) && step.Publish?
    ensures Genuine(Next(t, step, max), published + [step])
  {
    assert |t.messages| !in t.retried;
  }

  lemma GenuineRequeue(t: Topic, t': Topic, published: seq<Step>, m: nat, h: Headers)
    requires Genuine(t, published) && m < |t.messages| && h.Keys == {"retries"}
    requires t'.messages == t.messages[m := t.messages[m].(headers := h)] && t'.nextOff == t.nextOff
    requires t'.queue == t.queue + [m] && t'.retried == t.retried + [m] && t'.dlq == t.dlq
    ensures Genuine(t', published)
  {
  }

  lemma GenuineFinish(t: Topic, published: seq<Step>, worker: string, failed: bool, max: int)
    requires Genuine(t, published) && CanFinish(t, worker)
    ensures Genuine(DoFinish(t, worker, failed, max), published)
  {
    var m := t.queue[t.inflight[worker].pos];
    if failed && MayRetry(t.messages[m].headers, max) {
      GenuineRequeue(t, DoFinish(t, worker, failed, max), published, m, AfterRetry(t.messages[m].headers));
    }
  }

  lemma GenuineStep(t: Topic, published: seq<Step>, step: Step, max: int)
    requires Genuine(t, published)
    ensures Genuine(Next(t, step, max), if step.Publish? then published + [step] else published)
  {
    match step
    case Publish(_, _, _) => GenuinePublish(t, published, step, max);
    case Finish(w, failed) => if CanFinish(t, w) { GenuineFinish(t, published, w, failed, max); }
    case _ =>
  }

  lemma {:induction false} RunLast(t: Topic, steps: seq<Step>, max: int)
    requires steps != []
    ensures Run(t, steps, max) == Next(Run(t, steps[..|steps| - 1], max), steps[|steps| - 1], max)
    decreases |steps|
  {
    if |steps| == 1 {
      assert steps[1..] == [] && steps[..0] == [];
    } else {
      RunLast(Next(t, steps[0], max), steps[1..], max);
      assert steps[..|steps| - 1][1..] == steps[1..][..|steps| - 2];
    }
  }

  lemma {:induction false} GenuineRun(t: Topic, steps: seq<Step>, max: int)
    requires t == EMPTY
    ensures Genuine(Run(t, steps, max), Published(steps))
    decreases |steps|
  {
    if steps == [] {
    } else {
      GenuineRun(t, steps[..|steps| - 1], max);
      RunLast(t, steps, max);
      GenuineStep(Run(t, steps[..|steps| - 1], max), Published(steps[..|steps| - 1]), steps[|steps| - 1], max);
    }
  }

  /**
    In every run the m-th message is the m-th one published, key and value, and so is what any worker
    holds and whatever ends in the dead-letter queue.  Its headers are the published ones until it is
    first retried; from then on only the counter is left of them.
   */
  lemma DeliveredAsPublished(t: Topic, steps: seq<Step>, max: int, worker: string, i: nat)
    requires t == EMPTY
    ensures var r := Run(t, steps, max);
      && Genuine(r, Published(steps))
      && (worker in r.inflight ==>
            && CanFinish(r, worker)
            && var m := r.queue[r.inflight[worker].pos];
               IsFrom(r.messages[m], m, Published(steps)[m], m in r.retried))
      && (i < |r.dlq| ==> IsFrom(r.messages[r.dlq[i]], r.dlq[i], Published(steps)[r.dlq[i]], r.dlq[i] in r.retried))
  {
    GenuineRun(t, steps, max);
    ShapedRun(t, steps, max);
  }

  lemma {:induction false} ShapedRun(t: Topic, steps: seq<Step>, max: int)
    requires Shaped(t)
    ensures Shaped(Run(t, steps, max))
    decreases |steps|
  {
    if steps == [] {
    } else {
      ShapedStep(t, steps[0], max);
      ShapedRun(Next(t, steps[0], max), steps[1..], max);
    }
  }

  // ---------- what handlers decide ----------

  /** The messages whose handlers ended a run's deliveries with this outcome, in order. */
  function Handled(t: Topic, steps: seq<Step>, max: int, failed: bool): seq<nat>
    decreases |steps|
  {
    if steps == [] then []
    else
      var rest := Handled(Next(t, steps[0], max), steps[1..], max, failed);
      match steps[0]
      case Finish(w, outcome) =>
        if outcome == failed && CanFinish(t, w) then [t.queue[t.inflight[w].pos]] + rest else rest
      case _ => rest
  }

  /** Exactly the deliveries whose handler succeeded are acknowledged; each failed one is retried or dead-lettered. */
  lemma {:induction false} OutcomesFollowHandlers(t: Topic, steps: seq<Step>, max: int)
    ensures var r := Run(t, steps, max);
      && r.acked == t.acked + Handled(t, steps, max, false)
      && |r.retried| + |r.dlq| == |t.retried| + |t.dlq| + |Handled(t, steps, max, true)|
    decreases |steps|
  {
    if steps == [] {
      assert t.acked + [] == t.acked;
    } else {
      OutcomesFollowHandlers(Next(t, steps[0], max), steps[1..], max);
    }
  }

  // ---------- order ----------

  /** What a group claimed in a run, in order. */
  function History(t: Topic, steps: seq<Step>, max: int, group: string): seq<nat>
    decreases |steps|
  {
    if steps == [] then []
    else
      var rest := History(Next(t, steps[0], max), steps[1..], max, group);
      if steps[0].Claim? && steps[0].group == group && CanClaim(t, steps[0].worker, group)
      then [t.queue[t.cursors[group]]] + rest else rest
  }

  function Cursor(t: Topic, group: string): nat {
    if group in t.cursors then t.cursors[group] else 0
  }

  lemma {:induction false} QueueOnlyGrows(t: Topic, steps: seq<Step>, max: int)
    ensures t.queue <= Run(t, steps, max).queue
    decreases |steps|
  {
    if steps == [] {
    } else {
      QueueOnlyGrows(Next(t, steps[0], max), steps[1..], max);
    }
  }

  /** A group claims every queue position once and in order: its history is the queue up to its cursor. */
  lemma {:induction false} HistoryIsQueueSlice(t: Topic, steps: seq<Step>, max: int, group: string)
    requires Shaped(t)
    ensures var r := Run(t, steps, max);
      && Cursor(t, group) <= Cursor(r, group) <= |r.queue|
      && History(t, steps, max, group) == r.queue[Cursor(t, group)..Cursor(r, group)]
    decreases |steps|
  {
    if steps == [] {
    } else {
      ShapedStep(t, steps[0], max);
      var t' := Next(t, steps[0], max);
      HistoryIsQueueSlice(t', steps[1..], max, group);
      QueueOnlyGrows(t', steps[1..], max);
      HistoryStep(t, steps[0], max, group, Run(t, steps, max).queue, Cursor(Run(t, steps, max), group));
    }
  }

  lemma HistoryStep(t: Topic, step: Step, max: int, group: string, queue: seq<nat>, end: nat)
    requires Next(t, step, max).queue <= queue && Cursor(Next(t, step, max), group) <= end <= |queue|
    ensures Cursor(t, group) <= end
    ensures var t' := Next(t, step, max);
      if step.Claim? && step.group == group && CanClaim(t, step.worker, group)
      then [t.queue[t.cursors[group]]] + queue[Cursor(t', group)..end] == queue[Cursor(t, group)..end]
      else Cursor(t', group) == Cursor(t, group)
  {
    if step.Claim? && step.group == group && CanClaim(t, step.worker, group) {
      var c := Cursor(t, group);
      assert t.queue[c] == queue[c];
      assert [queue[c]] + queue[c + 1..end] == queue[c..end];
    }
  }

  /** So of any two groups one has seen a prefix of what the other has seen. */
  lemma GroupsSeeTheSameOrder(steps: seq<Step>, max: int, a: string, b: string)
    ensures History(EMPTY, steps, max, a) <= History(EMPTY, steps, max, b) ||
            History(EMPTY, steps, max, b) <= History(EMPTY, steps, max, a)
  {
    HistoryIsQueueSlice(EMPTY, steps, max, a);
    HistoryIsQueueSlice(EMPTY, steps, max, b);
    var r := Run(EMPTY, steps, max);
    assert forall i, j :: 0 <= i <= j <= |r.queue| ==> r.queue[0..i] <= r.queue[0..j];
  }
}
