/**
  The topic with its retry counter as the code leaves it: unguarded (internal/primitives/mq/mq.go:242-268).

  A worker whose handler failed reads the message's counter in one step and writes it back, plus
  one, while requeueing the message in another.  Between the two, workers of other groups may do
  the same to the same message.  The results of Queue carry over to all runs in which no worker
  writes back a counter that has changed since it was read, among them all runs with one group.
 */
module SplitQueue {
  import opened Prelude
  import opened Sums
  import opened Decimal
  import opened Queue

  /** `reading` holds the counters that workers have read and not yet written back. */
  datatype State = State(topic: Topic, reading: map<string, int>)

  datatype Move =
    | Plain(step: Step)       // publish, subscribe, claim, acknowledge
    | Fail(worker: string)    // the handler fails: dead-letter the message, or read its counter
    | Requeue(worker: string) // write the counter back and queue the message again

  // ---------- what the code does ----------

  function HeadersOf(t: Topic, worker: string): Headers
    requires CanFinish(t, worker)
  {
    t.messages[t.queue[t.inflight[worker].pos]].headers
  }

  function WriteBack(t: Topic, worker: string, r: int): Topic
    requires CanFinish(t, worker)
  {
    var m := t.queue[t.inflight[worker].pos];
    t.(inflight := t.inflight - {worker},
       messages := t.messages[m := t.messages[m].(headers := map["retries" := Itoa(r + 1)])],
       queue := t.queue + [m], retried := t.retried + [m])
  }

  predicate CanTake(s: State, step: Step) {
    step.Finish? ==> !step.failed && step.worker !in s.reading
  }

  predicate CanFail(s: State, worker: string) {
    CanFinish(s.topic, worker) && worker !in s.reading
  }

  predicate CanRequeue(s: State, worker: string) {
    CanFinish(s.topic, worker) && worker in s.reading
  }

  function Advance(s: State, move: Move, max: int): State {
    match move
    case Plain(step) => if CanTake(s, step) then s.(topic := Next(s.topic, step, max)) else s
    case Fail(w) =>
      if !CanFail(s, w) then s
      else if MayRetry(HeadersOf(s.topic, w), max) then
        s.(reading := s.reading[w := Retries(HeadersOf(s.topic, w))])
      else s.(topic := DoFinish(s.topic, w, true, max))
    case Requeue(w) =>
      if !CanRequeue(s, w) then s else State(WriteBack(s.topic, w, s.reading[w]), s.reading - {w})
  }

  function RunMoves(s: State, moves: seq<Move>, max: int): State
    decreases |moves|
  {
    if moves == [] then s else RunMoves(Advance(s, moves[0], max), moves[1..], max)
  }

  /** The counter has changed since the worker read it. */
  predicate Stale(s: State, move: Move) {
    move.Requeue? && CanRequeue(s, move.worker) && Retries(HeadersOf(s.topic, move.worker)) != s.reading[move.worker]
  }

  predicate NoStale(s: State, moves: seq<Move>, max: int)
    decreases |moves|
  {
    moves == [] || (!Stale(s, moves[0]) && NoStale(Advance(s, moves[0], max), moves[1..], max))
  }

  // ---------- runs without stale writes are runs of Queue ----------

  /** The atomic step a move amounts to, if any: a requeueing worker finishes when it writes. */
  function Atomic(s: State, move: Move, max: int): seq<Step> {
    match move
    case Plain(step) => if CanTake(s, step) then [step] else []
    case Fail(w) => if CanFail(s, w) && !MayRetry(HeadersOf(s.topic, w), max) then [Finish(w, true)] else []
    case Requeue(w) => if CanRequeue(s, w) then [Finish(w, true)] else []
  }

  function AtomicRun(s: State, moves: seq<Move>, max: int): seq<Step>
    decreases |moves|
  {
    if moves == [] then []
    else Atomic(s, moves[0], max) + AtomicRun(Advance(s, moves[0], max), moves[1..], max)
  }

  /** Only workers that may retry are about to. */
  predicate ReadBelow(s: State, max: int) {
    forall w :: w in s.reading ==> s.reading[w] < max
  }

  lemma RunOne(t: Topic, step: Step, max: int)
    ensures Run(t, [step], max) == Next(t, step, max)
  {
    assert [step][1..] == [];
  }

  lemma WriteBackIsFinish(t: Topic, worker: string, r: int, max: int)
    requires CanFinish(t, worker) && r == Retries(HeadersOf(t, worker)) && r < max
    ensures WriteBack(t, worker, r) == Next(t, Finish(worker, true), max)
  {
  }

  lemma MoveIsAtomic(s: State, move: Move, max: int)
    requires ReadBelow(s, max) && !Stale(s, move)
    ensures ReadBelow(Advance(s, move, max), max)
    ensures Advance(s, move, max).topic == Run(s.topic, Atomic(s, move, max), max)
  {
    if Atomic(s, move, max) != [] {
      RunOne(s.topic, Atomic(s, move, max)[0], max);
      if move.Requeue? { WriteBackIsFinish(s.topic, move.worker, s.reading[move.worker], max); }
    }
  }

  lemma {:induction false} RunConcat(t: Topic, a: seq<Step>, b: seq<Step>, max: int)
    ensures Run(t, a + b, max) == Run(Run(t, a, max), b, max)
    decreases |a|
  {
    if a == [] {
      assert a + b == b;
    } else {
      assert (a + b)[1..] == a[1..] + b;
      RunConcat(Next(t, a[0], max), a[1..], b, max);
    }
  }

  /** Without stale writes the split steps come to the same as the atomic ones, in the same order. */
  lemma {:induction false} RunsAreAtomic(s: State, moves: seq<Move>, max: int)
    requires ReadBelow(s, max) && NoStale(s, moves, max)
    ensures RunMoves(s, moves, max).topic == Run(s.topic, AtomicRun(s, moves, max), max)
    decreases |moves|
  {
    if moves == [] {
    } else {
      MoveIsAtomic(s, moves[0], max);
      var s' := Advance(s, moves[0], max);
      RunsAreAtomic(s', moves[1..], max);
      RunConcat(s.topic, Atomic(s, moves[0], max), AtomicRun(s', moves[1..], max), max);
    }
  }

  predicate SaneMove(move: Move, max: int) {
    move.Plain? && move.step.Publish? ==> Left(move.step.headers, max) <= Max(0, max)
  }

  lemma {:induction false} SaneAtomic(s: State, moves: seq<Move>, max: int)
    requires forall i :: 0 <= i < |moves| ==> SaneMove(moves[i], max)
    ensures SaneHeaders(AtomicRun(s, moves, max), max)
    decreases |moves|
  {
    if moves == [] {
    } else {
      SaneAtomic(Advance(s, moves[0], max), moves[1..], max);
    }
  }

  /** So the bound on the queue and the conservation of messages hold in them. */
  lemma BoundedWithoutStale(s: State, moves: seq<Move>, max: int, p: nat -> bool)
    requires s == State(EMPTY, map[]) && max < LIMIT && NoStale(s, moves, max)
    ensures var r := RunMoves(s, moves, max).topic;
      && QueueBalance(r, p) && ClaimBalance(r, p)
      && |r.queue| <= |r.messages| * (2 + Max(0, max))
      && ((forall i :: 0 <= i < |moves| ==> SaneMove(moves[i], max)) ==>
            |r.queue| <= |r.messages| * (1 + Max(0, max)))
  {
    RunsAreAtomic(s, moves, max);
    MessagesAreConserved(AtomicRun(s, moves, max), max, p);
    QueueIsBounded(AtomicRun(s, moves, max), max);
    if forall i :: 0 <= i < |moves| ==> SaneMove(moves[i], max) { SaneAtomic(s, moves, max); }
  }

  // ---------- what is delivered ----------

  /** The Publish steps among the moves of a run, in order. */
  function PublishedBy(moves: seq<Move>): seq<Step> {
    if moves == [] then []
    else
      var rest, last := PublishedBy(moves[..|moves| - 1]), moves[|moves| - 1];
      if last.Plain? && last.step.Publish? then rest + [last.step] else rest
  }

  lemma GenuineMove(s: State, published: seq<Step>, move: Move, max: int)
    requires Genuine(s.topic, published)
    ensures Genuine(Advance(s, move, max).topic,
                    if move.Plain? && move.step.Publish? then published + [move.step] else published)
  {
    match move
    case Plain(step) => if CanTake(s, step) { GenuineStep(s.topic, published, step, max); }
    case Fail(w) =>
      if CanFail(s, w) && !MayRetry(HeadersOf(s.topic, w), max) {
        GenuineFinish(s.topic, published, w, true, max);
      }
    case Requeue(w) =>
      if CanRequeue(s, w) {
        GenuineRequeue(s.topic, WriteBack(s.topic, w, s.reading[w]), published,
                       s.topic.queue[s.topic.inflight[w].pos], map["retries" := Itoa(s.reading[w] + 1)]);
      }
  }

  lemma {:induction false} RunMovesLast(s: State, moves: seq<Move>, max: int)
    requires moves != []
    ensures RunMoves(s, moves, max) == Advance(RunMoves(s, moves[..|moves| - 1], max), moves[|moves| - 1], max)
    decreases |moves|
  {
    if |moves| == 1 {
      assert moves[1..] == [] && moves[..0] == [];
    } else {
      RunMovesLast(Advance(s, moves[0], max), moves[1..], max);
      assert moves[..|moves| - 1][1..] == moves[1..][..|moves| - 2];
    }
  }

  /** In every split run, too, stale writes or not, the m-th message is the m-th one published. */
  lemma {:induction false} SplitDeliversAsPublished(s: State, moves: seq<Move>, max: int)
    requires s == State(EMPTY, map[])
    ensures Genuine(RunMoves(s, moves, max).topic, PublishedBy(moves))
    decreases |moves|
  {
    if moves == [] {
    } else {
      var init := moves[..|moves| - 1];
      SplitDeliversAsPublished(s, init, max);
      RunMovesLast(s, moves, max);
      GenuineMove(RunMoves(s, init, max), PublishedBy(init), moves[|moves| - 1], max);
    }
  }

  // ---------- with one group no write is stale ----------

  function Is(m: nat): nat -> bool {
    x => x == m
  }

  ghost predicate Conserved(t: Topic) {
    Shaped(t) && forall m: nat :: QueueBalance(t, Is(m)) && ClaimBalance(t, Is(m))
  }

  lemma ConservedRun(t: Topic, steps: seq<Step>, max: int)
    requires Conserved(t)
    ensures Conserved(Run(t, steps, max))
  {
    var r := Run(t, steps, max);
    forall m: nat ensures Shaped(r) && QueueBalance(r, Is(m)) && ClaimBalance(r, Is(m)) {
      ConservedFrom(t, steps, max, Is(m));
    }
    ConservedFrom(t, steps, max, Is(0));
  }

  lemma {:induction false} PrefixCountsLess(s: seq<nat>, n: nat, p: nat -> bool)
    requires n <= |s|
    ensures CountIf(s[..n], p) <= CountIf(s, p)
    decreases |s| - n
  {
    if n == |s| {
      assert s[..n] == s;
    } else {
      assert s[..n + 1][..n] == s[..n];
      PrefixCountsLess(s, n + 1, p);
    }
  }

  lemma ClaimedByOne(t: Topic, group: string, p: nat -> bool)
    requires Shaped(t) && t.cursors.Keys == {group}
    ensures Claimed(t.queue, t.cursors, p) <= CountIf(t.queue, p)
  {
    var counts := map g | g in t.cursors :: CountTo(t.queue, t.cursors[g], p);
    var c := CountTo(t.queue, t.cursors[group], p);
    assert counts.Keys == {group} && |counts| == 1;
    SumConstant(counts, c);
    PrefixCountsLess(t.queue, t.cursors[group], p);
  }

  lemma SumOfTwo(m: map<string, nat>, a: string, b: string)
    requires a in m && b in m && a != b
    ensures Sum(m) >= m[a] + m[b]
  {
    SumUpdate(m, a, 0);
    SumUpdate(m - {a}, b, 0);
  }

  lemma TwoHoldersCount(t: Topic, a: string, b: string, m: nat)
    requires CanFinish(t, a) && CanFinish(t, b) && a != b
    requires t.queue[t.inflight[a].pos] == t.queue[t.inflight[b].pos] == m
    ensures InFlight(t.queue, t.inflight, Is(m)) >= 2
  {
    var weights := map w | w in t.inflight :: Weight(t.queue, t.inflight[w], Is(m));
    assert weights[a] == weights[b] == 1;
    SumOfTwo(weights, a, b);
  }

  /** With one group a message is never held by two workers at a time. */
  lemma OneHolder(t: Topic, group: string, a: string, b: string)
    requires Conserved(t) && t.cursors.Keys == {group}
    requires CanFinish(t, a) && CanFinish(t, b) && a != b
    ensures t.queue[t.inflight[a].pos] != t.queue[t.inflight[b].pos]
  {
    var m := t.queue[t.inflight[a].pos];
    if m == t.queue[t.inflight[b].pos] {
      TwoHoldersCount(t, a, b, m);
      AtMostOneHeld(t, group, m);
      assert false;
    }
  }

  lemma AtMostOneHeld(t: Topic, group: string, m: nat)
    requires Conserved(t) && t.cursors.Keys == {group} && m < |t.messages|
    ensures InFlight(t.queue, t.inflight, Is(m)) <= 1
  {
    ClaimedByOne(t, group, Is(m));
    CountOneOf(|t.messages|, m, Is(m));
    assert QueueBalance(t, Is(m)) && ClaimBalance(t, Is(m));
  }

  /** Every counter that was read is still what the message has. */
  ghost predicate FreshReads(s: State, max: int) {
    forall w :: w in s.reading ==>
      CanFinish(s.topic, w) && Retries(HeadersOf(s.topic, w)) == s.reading[w] && s.reading[w] < max
  }

  ghost predicate OneGroup(s: State, group: string, max: int) {
    Conserved(s.topic) && s.topic.cursors.Keys <= {group} && FreshReads(s, max)
  }

  /** The group a move subscribes, if any, is this one. */
  predicate StaysWith(move: Move, group: string) {
    move.Plain? && move.step.Subscribe? ==> move.step.group == group
  }

  lemma KeysOfHolder(t: Topic, group: string, worker: string)
    requires Shaped(t) && t.cursors.Keys <= {group} && worker in t.inflight
    ensures t.cursors.Keys == {group}
  {
    assert t.inflight[worker].group in t.cursors;
  }

  lemma PlainLeavesReader(t: Topic, step: Step, max: int, w: string)
    requires Shaped(t) && CanFinish(t, w) && (step.Finish? ==> !step.failed && step.worker != w)
    ensures CanFinish(Next(t, step, max), w) && HeadersOf(Next(t, step, max), w) == HeadersOf(t, w)
  {
  }

  lemma FinishLeavesReader(t: Topic, other: string, max: int, w: string)
    requires CanFinish(t, w) && CanFinish(t, other) && other != w && !MayRetry(HeadersOf(t, other), max)
    ensures CanFinish(DoFinish(t, other, true, max), w)
    ensures HeadersOf(DoFinish(t, other, true, max), w) == HeadersOf(t, w)
  {
  }

  lemma WriteBackLeavesReader(t: Topic, other: string, r: int, w: string)
    requires CanFinish(t, w) && CanFinish(t, other) && other != w
    requires t.queue[t.inflight[w].pos] != t.queue[t.inflight[other].pos]
    ensures CanFinish(WriteBack(t, other, r), w)
    ensures HeadersOf(WriteBack(t, other, r), w) == HeadersOf(t, w)
  {
  }

  /** A step by another worker leaves a reader's message alone. */
  lemma ReaderUndisturbed(s: State, move: Move, max: int, group: string, w: string)
    requires OneGroup(s, group, max) && w in s.reading
    requires move.Requeue? ==> move.worker != w
    ensures CanFinish(Advance(s, move, max).topic, w)
    ensures HeadersOf(Advance(s, move, max).topic, w) == HeadersOf(s.topic, w)
  {
    match move
    case Plain(step) => if CanTake(s, step) { PlainLeavesReader(s.topic, step, max, w); }
    case Fail(v) =>
      if CanFail(s, v) && !MayRetry(HeadersOf(s.topic, v), max) { FinishLeavesReader(s.topic, v, max, w); }
    case Requeue(v) =>
      if CanRequeue(s, v) {
        KeysOfHolder(s.topic, group, w);
        OneHolder(s.topic, group, w, v);
        WriteBackLeavesReader(s.topic, v, s.reading[v], w);
      }
  }

  lemma {:induction false} OneGroupMove(s: State, move: Move, max: int, group: string)
    requires OneGroup(s, group, max) && StaysWith(move, group)
    ensures !Stale(s, move) && OneGroup(Advance(s, move, max), group, max)
  {
    MoveIsAtomic(s, move, max);
    ConservedRun(s.topic, Atomic(s, move, max), max);
    var s' := Advance(s, move, max);
    forall w | w in s'.reading
      ensures CanFinish(s'.topic, w) && Retries(HeadersOf(s'.topic, w)) == s'.reading[w] && s'.reading[w] < max
    {
      if w in s.reading { ReaderUndisturbed(s, move, max, group, w); }
    }
  }

  lemma {:induction false} OneGroupRun(s: State, moves: seq<Move>, max: int, group: string)
    requires OneGroup(s, group, max) && forall i :: 0 <= i < |moves| ==> StaysWith(moves[i], group)
    ensures NoStale(s, moves, max)
    decreases |moves|
  {
    if moves == [] {
    } else {
      OneGroupMove(s, moves[0], max, group);
      OneGroupRun(Advance(s, moves[0], max), moves[1..], max, group);
    }
  }

  /** While all subscribers are of one group, no counter is ever written back stale, however many workers there are. */
  lemma OneGroupIsNeverStale(s: State, moves: seq<Move>, max: int, group: string)
    requires s == State(EMPTY, map[]) && forall i :: 0 <= i < |moves| ==> StaysWith(moves[i], group)
    ensures NoStale(s, moves, max)
  {
    forall m: nat ensures QueueBalance(s.topic, Is(m)) && ClaimBalance(s.topic, Is(m)) { EmptyBalances(Is(m)); }
    OneGroupRun(s, moves, max, group);
  }

  /** So with one group a topic that falls quiet has acknowledged or dead-lettered each message exactly once. */
  lemma OneGroupSplitSettlesOnce(s: State, moves: seq<Move>, max: int, group: string, m: nat, p: nat -> bool)
    requires s == State(EMPTY, map[]) && forall i :: 0 <= i < |moves| ==> StaysWith(moves[i], group)
    requires var r := RunMoves(s, moves, max).topic; Quiet(r) && |r.cursors| == 1 && m < |r.messages|
    requires forall x :: p(x) <==> x == m
    ensures var r := RunMoves(s, moves, max).topic; CountIf(r.acked, p) + CountIf(r.dlq, p) == 1
  {
    OneGroupIsNeverStale(s, moves, max, group);
    RunsAreAtomic(s, moves, max);
    OneGroupSettlesOnce(AtomicRun(s, moves, max), max, m, p);
  }

  // ---------- with two groups the bound fails ----------

  /** Requeueing uses up what it should exactly when the counter leaves as many retries as it did when read. */
  lemma RequeueKeepsBudgetIff(s: State, worker: string, max: int)
    requires Budgeted(s.topic, max) && max < LIMIT && CanRequeue(s, worker) && s.reading[worker] < max
    ensures var r := Advance(s, Requeue(worker), max).topic;
      |r.retried| + Total(Lefts(r.messages, max)) == Total(r.granted) <==>
      Left(HeadersOf(s.topic, worker), max) == LeftAt(s.reading[worker], max)
  {
    var t, c := s.topic, s.reading[worker];
    var m := t.queue[t.inflight[worker].pos];
    var r := WriteBack(t, worker, c);
    ParseUndoesItoa(c + 1);
    LeftsUpdate(t.messages, m, r.messages[m], max);
    TotalUpdate(Lefts(t.messages, max), m, Left(r.messages[m].headers, max));
  }

  /** Both workers hold the one message, and have read the counter it still has. */
  predicate BothRead(s: State, a: string, b: string, max: int) {
    && a != b && s.topic.inflight.Keys == s.reading.Keys == {a, b}
    && |s.topic.messages| == 1 && (forall i :: 0 <= i < |s.topic.queue| ==> s.topic.queue[i] == 0)
    && CanFinish(s.topic, a) && CanFinish(s.topic, b)
    && s.reading[a] == s.reading[b] == Retries(s.topic.messages[0].headers) && 0 <= s.reading[a] < max
  }

  /** Two requeues for the price of one. */
  lemma DoubleRequeue(s: State, a: string, b: string, group: string, max: int) returns (r: State)
    requires BothRead(s, a, b, max) && max < LIMIT
    requires group in s.topic.cursors && s.topic.cursors[group] <= |s.topic.queue|
    ensures r == Advance(Advance(s, Requeue(a), max), Requeue(b), max)
    ensures OneMessage(r.topic, group) && r.reading == map[] && |r.topic.queue| == |s.topic.queue| + 2
    ensures Left(r.topic.messages[0].headers, max) == max - s.reading[a] - 1
  {
    var one := Advance(s, Requeue(a), max);
    assert one.topic.inflight.Keys == {b} && one.reading.Keys == {b};
    r := Advance(one, Requeue(b), max);
    assert r.topic.inflight == map[] && r.reading == map[];
    ParseUndoesItoa(s.reading[a] + 1);
  }

  function FailingMoves(worker: string, group: string, k: nat): seq<Move> {
    if k == 0 then []
    else [Plain(Claim(worker, group)), Fail(worker), Requeue(worker)] + FailingMoves(worker, group, k - 1)
  }

  lemma FailMoves(s: State, worker: string, group: string, max: int)
    requires OneMessage(s.topic, group) && s.reading == map[] && max < LIMIT
    requires Left(s.topic.messages[0].headers, max) > 0
    ensures Advance(Advance(Advance(s, Plain(Claim(worker, group)), max), Fail(worker), max), Requeue(worker), max) ==
            State(FailedOnce(s.topic, worker, group, max), map[])
  {
    LeftZeroIff(s.topic.messages[0].headers, max);
    var s1 := Advance(s, Plain(Claim(worker, group)), max);
    var s2 := Advance(s1, Fail(worker), max);
    assert s2.topic == s1.topic && s2.reading == map[worker := Retries(s.topic.messages[0].headers)];
    WriteBackIsFinish(s2.topic, worker, s2.reading[worker], max);
    assert s2.reading - {worker} == map[];
  }

  lemma RunThree(s: State, a: Move, b: Move, c: Move, rest: seq<Move>, max: int)
    ensures RunMoves(s, [a, b, c] + rest, max) ==
            RunMoves(Advance(Advance(Advance(s, a, max), b, max), c, max), rest, max)
  {
    var all := [a, b, c] + rest;
    var s1 := Advance(s, a, max);
    assert RunMoves(s, all, max) == RunMoves(s1, all[1..], max);
    assert RunMoves(s1, all[1..], max) == RunMoves(Advance(s1, b, max), all[1..][1..], max);
    assert all[1..][1..][0] == c && all[1..][1..][1..] == rest;
  }

  lemma FailFirstMoves(s: State, worker: string, group: string, k: nat, max: int) returns (next: State)
    requires OneMessage(s.topic, group) && s.reading == map[] && max < LIMIT
    requires Left(s.topic.messages[0].headers, max) >= k > 0
    ensures OneMessage(next.topic, group) && next.reading == map[] && |next.topic.queue| == |s.topic.queue| + 1
    ensures Left(next.topic.messages[0].headers, max) >= k - 1
    ensures RunMoves(s, FailingMoves(worker, group, k), max) == RunMoves(next, FailingMoves(worker, group, k - 1), max)
  {
    next := State(FailedOnce(s.topic, worker, group, max), map[]);
    FailOnce(s.topic, worker, group, max);
    FailMoves(s, worker, group, max);
    RunThree(s, Plain(Claim(worker, group)), Fail(worker), Requeue(worker), FailingMoves(worker, group, k - 1), max);
  }

  lemma {:induction false} FailingMovesRequeue(s: State, worker: string, group: string, k: nat, max: int)
    requires OneMessage(s.topic, group) && s.reading == map[] && max < LIMIT
    requires Left(s.topic.messages[0].headers, max) >= k
    ensures var r := RunMoves(s, FailingMoves(worker, group, k), max).topic;
      |r.queue| == |s.topic.queue| + k && |r.messages| == 1
    decreases k
  {
    if k == 0 {
    } else {
      var next := FailFirstMoves(s, worker, group, k, max);
      FailingMovesRequeue(next, worker, group, k - 1, max);
    }
  }

  lemma RunTwoMoves(s: State, a: Move, b: Move, rest: seq<Move>, max: int)
    ensures RunMoves(s, [a, b] + rest, max) == RunMoves(Advance(Advance(s, a, max), b, max), rest, max)
  {
    var all := [a, b] + rest;
    assert all[1..][0] == b && all[1..][1..] == rest;
    assert RunMoves(s, all, max) == RunMoves(Advance(s, a, max), all[1..], max);
  }

  /** From there the queue of the one message grows past its bound. */
  lemma BothReadBreaksBound(s: State, a: string, b: string, group: string, max: int) returns (moves: seq<Move>)
    requires BothRead(s, a, b, max) && max < LIMIT && group in s.topic.cursors
    requires s.topic.cursors[group] <= |s.topic.queue| == 1 + s.reading[a]
    ensures var r := RunMoves(s, moves, max).topic; |r.messages| == 1 && |r.queue| == 2 + max
    ensures forall i :: 0 <= i < |moves| ==> SaneMove(moves[i], max)
  {
    var r := DoubleRequeue(s, a, b, group, max);
    var k := max - s.reading[a] - 1;
    moves := [Requeue(a), Requeue(b)] + FailingMoves(a, group, k);
    RunTwoMoves(s, Requeue(a), Requeue(b), FailingMoves(a, group, k), max);
    FailingMovesRequeue(r, a, group, k, max);
    NoPublishMoves(a, group, k);
  }

  lemma {:induction false} NoPublishMoves(worker: string, group: string, k: nat)
    ensures forall i :: 0 <= i < |FailingMoves(worker, group, k)| ==>
      !(FailingMoves(worker, group, k)[i].Plain? && FailingMoves(worker, group, k)[i].step.Publish?)
  {
    if k == 0 {
    } else {
      NoPublishMoves(worker, group, k - 1);
    }
  }

  function Subscribed(s: State, g: string, h: string, max: int): State {
    Advance(Advance(s, Plain(Subscribe(g)), max), Plain(Subscribe(h)), max)
  }

  lemma PublishOnce(s: State, g: string, h: string, max: int) returns (t: State)
    requires s == State(EMPTY, map[]) && g != h
    ensures t == Subscribed(Advance(s, Plain(Publish("", "", map[])), max), g, h, max)
    ensures t.reading == map[] && t.topic.inflight == map[] && t.topic.cursors == map[g := 0, h := 0]
    ensures |t.topic.messages| == 1 && t.topic.queue == [0] && t.topic.messages[0].headers == map[]
  {
    t := Subscribed(Advance(s, Plain(Publish("", "", map[])), max), g, h, max);
  }

  lemma BothClaim(s: State, a: string, b: string, g: string, h: string, max: int) returns (t: State)
    requires s.reading == map[] && s.topic.inflight == map[] && s.topic.cursors == map[g := 0, h := 0]
    requires g != h && a != b && s.topic.queue == [0]
    ensures t == Advance(Advance(s, Plain(Claim(a, g)), max), Plain(Claim(b, h)), max)
    ensures t.reading == map[] && t.topic.inflight == map[a := Flight(g, 0), b := Flight(h, 0)]
    ensures t.topic.messages == s.topic.messages && t.topic.queue == [0] && t.topic.cursors == map[g := 1, h := 1]
  {
    t := Advance(Advance(s, Plain(Claim(a, g)), max), Plain(Claim(b, h)), max);
    assert t.topic.cursors == map[g := 1, h := 1];
  }

  lemma BothFail(s: State, a: string, b: string, g: string, h: string, max: int) returns (t: State)
    requires s.reading == map[] && s.topic.inflight == map[a := Flight(g, 0), b := Flight(h, 0)] && a != b
    requires |s.topic.messages| == 1 && s.topic.queue == [0] && s.topic.messages[0].headers == map[] && max > 0
    ensures t == Advance(Advance(s, Fail(a), max), Fail(b), max)
    ensures t.topic == s.topic && BothRead(t, a, b, max) && t.reading[a] == 0
  {
    t := Advance(Advance(s, Fail(a), max), Fail(b), max);
    assert t.reading == map[a := 0, b := 0];
  }

  /**
    With two groups, for every positive MaxRetries, one message without a preset counter can fill
    the queue past published * (1 + MaxRetries): two workers requeue it on the same counter.
   */
  lemma TwoGroupsBreakBound(s: State, a: string, b: string, g: string, h: string, max: int) returns (moves: seq<Move>)
    requires s == State(EMPTY, map[]) && a != b && g != h && 0 < max < LIMIT
    ensures var r := RunMoves(s, moves, max).topic; |r.queue| > |r.messages| * (1 + max)
    ensures forall i :: 0 <= i < |moves| ==> SaneMove(moves[i], max)
  {
    var s1 := PublishOnce(s, g, h, max);
    var s2 := BothClaim(s1, a, b, g, h, max);
    var s3 := BothFail(s2, a, b, g, h, max);
    var rest := BothReadBreaksBound(s3, a, b, g, max);
    var r2, r1 := [Fail(a), Fail(b)] + rest, [Plain(Claim(a, g)), Plain(Claim(b, h))] + ([Fail(a), Fail(b)] + rest);
    moves := [Plain(Publish("", "", map[])), Plain(Subscribe(g)), Plain(Subscribe(h))] + r1;
    RunThree(s, Plain(Publish("", "", map[])), Plain(Subscribe(g)), Plain(Subscribe(h)), r1, max);
    RunTwoMoves(s1, Plain(Claim(a, g)), Plain(Claim(b, h)), r2, max);
    RunTwoMoves(s2, Fail(a), Fail(b), rest, max);
  }
}
