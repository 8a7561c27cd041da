/**
  Deliveries end even though the retry counter is unguarded (internal/primitives/mq/mq.go:232-272).

  A stale write-back can set a message's counter back, so retries left do not measure progress.  What
  does is how many deliveries are at, or may yet be read at, each level of the counter, compared from
  the lowest level up: a worker that read level k writes level k + 1, and takes one away at k.
 */
module SplitTermination {
  import opened Prelude
  import opened Sums
  import opened Decimal
  import opened Queue
  import opened SplitQueue

  // ---------- descending sequences ----------

  /** Smaller at some place, and nowhere larger before it. */
  predicate Below(a: seq<nat>, b: seq<nat>) {
    |a| == |b| && exists j :: 0 <= j < |a| && a[j] < b[j] && forall i :: 0 <= i < j ==> a[i] <= b[i]
  }

  /** From n on the first k components do not change. */
  ghost predicate Steady(m: nat -> seq<nat>, n: nat, k: nat) {
    forall i: nat, j: nat :: i >= n && j < k && k <= |m(i)| && k <= |m(n)| ==> m(i)[j] == m(n)[j]
  }

  lemma {:induction false} NeverRises(m: nat -> seq<nat>, size: nat, n: nat, k: nat, t: nat)
    requires (forall i: nat :: |m(i)| == size) && k < size && n <= t && Steady(m, n, k)
    requires forall i: nat :: n <= i < t ==> Below(m(i + 1), m(i))
    ensures m(t)[k] <= m(n)[k]
    decreases t
  {
    if t == n {
    } else {
      NeverRises(m, size, n, k, t - 1);
      assert Below(m(t - 1 + 1), m(t - 1));
      assert forall j: nat :: j < k ==> m(t)[j] == m(n)[j];
      assert forall j: nat :: j < k ==> m(t - 1)[j] == m(n)[j];
      var j :| 0 <= j < size && m(t)[j] < m(t - 1)[j] && forall i :: 0 <= i < j ==> m(t)[i] <= m(t - 1)[i];
    }
  }

  lemma SteadyNext(m: nat -> seq<nat>, size: nat, n: nat, k: nat)
    requires (forall i: nat :: |m(i)| == size) && k < size && Steady(m, n, k)
    requires forall i: nat :: i >= n ==> m(i)[k] == m(n)[k]
    ensures Steady(m, n, k + 1)
  {
  }

  lemma SteadyLater(m: nat -> seq<nat>, size: nat, n: nat, k: nat, t: nat)
    requires (forall i: nat :: |m(i)| == size) && k <= size && n <= t && Steady(m, n, k)
    ensures Steady(m, t, k)
  {
    forall i: nat, j: nat | i >= t && j < k ensures m(i)[j] == m(t)[j] {
      assert m(i)[j] == m(n)[j] && m(t)[j] == m(n)[j];
    }
  }

  /** Nothing descends for ever. */
  lemma {:induction false} DescentEnds(m: nat -> seq<nat>, size: nat, n: nat, k: nat) returns (i: nat)
    requires (forall i: nat :: |m(i)| == size) && k <= size && Steady(m, n, k)
    ensures i >= n && !Below(m(i + 1), m(i))
    decreases size - k, if k < size then m(n)[k] else 0
  {
    if k == size {
      assert m(n + 1) == m(n);
      i := n;
    } else if t: nat :| t >= n && m(t)[k] != m(n)[k] {
      if early: nat :| n <= early < t && !Below(m(early + 1), m(early)) {
        i := early;
      } else {
        NeverRises(m, size, n, k, t);
        SteadyLater(m, size, n, k, t);
        i := DescentEnds(m, size, t, k);
      }
    } else {
      SteadyNext(m, size, n, k);
      i := DescentEnds(m, size, n, k + 1);
    }
  }

  /** So whatever descends with every move comes to a place where it does not move. */
  lemma MovesEnd(m: nat -> seq<nat>, moves: nat -> bool, size: nat) returns (i: nat)
    requires forall i: nat :: |m(i)| == size
    requires forall i: nat :: moves(i) ==> Below(m(i + 1), m(i))
    ensures !moves(i)
  {
    i := DescentEnds(m, size, 0, 0);
  }

  // ---------- the measure ----------

  /** Counters in the order in which retries pass through them; all overflowed ones come first. */
  function Level(r: int): nat {
    if r < 0 then 0 else r + 1
  }

  predicate AtLevel(messages: seq<Message>, m: nat, level: nat) {
    m < |messages| && Level(Retries(messages[m].headers)) == level
  }

  function LevelTest(messages: seq<Message>, level: nat): nat -> bool {
    (m: nat) => AtLevel(messages, m, level)
  }

  /** Queue entries that groups have yet to claim, of messages satisfying p. */
  ghost function Unread(queue: seq<nat>, cursors: map<string, nat>, p: nat -> bool): nat {
    Sum(map g | g in cursors :: CountFrom(queue, cursors[g], p))
  }

  function CountFrom(queue: seq<nat>, cursor: nat, p: nat -> bool): nat {
    CountIf(if cursor <= |queue| then queue[cursor..] else [], p)
  }

  /** A worker counts at the level it has read, or if it has not read any, where its message counts. */
  function Hand(s: State, worker: string, level: nat, p: nat -> bool): nat {
    if worker in s.reading then (if Level(s.reading[worker]) == level then 1 else 0)
    else if CanFinish(s.topic, worker) && p(s.topic.queue[s.topic.inflight[worker].pos]) then 1
    else 0
  }

  function HandUnread(s: State, worker: string): nat {
    if worker in s.reading then 0 else 1
  }

  ghost function Hands(workers: set<string>, weight: string -> nat): nat {
    Sum(map w | w in workers :: weight(w))
  }

  ghost function PendingBy(s: State, level: nat, p: nat -> bool): nat {
    Unread(s.topic.queue, s.topic.cursors, p) + Hands(s.topic.inflight.Keys, w => Hand(s, w, level, p))
  }

  /** Deliveries at a level, and those that may yet be read there. */
  ghost function Pending(s: State, level: nat): nat {
    PendingBy(s, level, LevelTest(s.topic.messages, level))
  }

  function All(): nat -> bool {
    (m: nat) => true
  }

  ghost function Unclaimed(s: State): nat {
    Unread(s.topic.queue, s.topic.cursors, All())
  }

  ghost function Untried(s: State): nat {
    Unclaimed(s) + Hands(s.topic.inflight.Keys, w => HandUnread(s, w))
  }

  function Levels(max: int): nat {
    1 + Max(0, max)
  }

  ghost function Measure(s: State, max: int): seq<nat> {
    seq(Levels(max), level requires 0 <= level => Pending(s, level)) + [Untried(s), Unclaimed(s)]
  }

  // ---------- sums ----------

  lemma {:induction false} SumMonotone(a: map<string, nat>, b: map<string, nat>)
    requires a.Keys == b.Keys && forall k :: k in a ==> a[k] <= b[k]
    ensures Sum(a) <= Sum(b)
    decreases |a|
  {
    if a == map[] {
      assert b == map[];
    } else {
      var k :| k in a;
      SumWithout(a, k);
      SumWithout(b, k);
      SumMonotone(a - {k}, b - {k});
    }
  }

  lemma HandsMonotone(workers: set<string>, f: string -> nat, g: string -> nat)
    requires forall w :: w in workers ==> f(w) <= g(w)
    ensures Hands(workers, f) <= Hands(workers, g)
  {
    SumMonotone(map w | w in workers :: f(w), map w | w in workers :: g(w));
  }

  lemma HandsWithout(workers: set<string>, worker: string, f: string -> nat)
    requires worker in workers
    ensures Hands(workers, f) == f(worker) + Hands(workers - {worker}, f)
  {
    var m := map w | w in workers :: f(w);
    SumWithout(m, worker);
    assert m - {worker} == map w | w in workers - {worker} :: f(w);
  }

  lemma {:induction false} CountMonotone(s: seq<nat>, p: nat -> bool, q: nat -> bool)
    requires forall x :: p(x) ==> q(x)
    ensures CountIf(s, p) <= CountIf(s, q)
    decreases |s|
  {
    if s == [] {
    } else {
      CountMonotone(s[..|s| - 1], p, q);
    }
  }

  lemma UnreadMonotone(queue: seq<nat>, cursors: map<string, nat>, p: nat -> bool, q: nat -> bool)
    requires forall x :: p(x) ==> q(x)
    ensures Unread(queue, cursors, p) <= Unread(queue, cursors, q)
  {
    var a := map g | g in cursors :: CountFrom(queue, cursors[g], p);
    var b := map g | g in cursors :: CountFrom(queue, cursors[g], q);
    forall g | g in cursors ensures a[g] <= b[g] {
      CountMonotone(if cursors[g] <= |queue| then queue[cursors[g]..] else [], p, q);
    }
    SumMonotone(a, b);
  }

  /** Appending a message that does not satisfy p changes nothing. */
  lemma UnreadAppend(queue: seq<nat>, m: nat, cursors: map<string, nat>, p: nat -> bool)
    requires !p(m) && forall g :: g in cursors ==> cursors[g] <= |queue|
    ensures Unread(queue + [m], cursors, p) == Unread(queue, cursors, p)
  {
    forall g | g in cursors ensures CountFrom(queue + [m], cursors[g], p) == CountFrom(queue, cursors[g], p) {
      assert (queue + [m])[cursors[g]..] == queue[cursors[g]..] + [m];
      CountIfAppend(queue[cursors[g]..], m, p);
    }
    assert (map g | g in cursors :: CountFrom(queue + [m], cursors[g], p))
        == (map g | g in cursors :: CountFrom(queue, cursors[g], p));
  }

  lemma {:induction false} CountFirst(s: seq<nat>, p: nat -> bool)
    requires s != []
    ensures CountIf(s, p) == (if p(s[0]) then 1 else 0) + CountIf(s[1..], p)
    decreases |s|
  {
    if |s| == 1 {
      assert s[..0] == [] && s[1..] == [];
    } else {
      CountFirst(s[..|s| - 1], p);
      assert s[..|s| - 1][1..] == s[1..][..|s| - 2];
    }
  }

  lemma UnreadClaim(queue: seq<nat>, cursors: map<string, nat>, group: string, p: nat -> bool)
    requires group in cursors && cursors[group] < |queue|
    ensures Unread(queue, cursors, p) ==
      Unread(queue, cursors[group := cursors[group] + 1], p) + (if p(queue[cursors[group]]) then 1 else 0)
  {
    var c := cursors[group];
    var next := cursors[group := c + 1];
    var a := map g | g in cursors :: CountFrom(queue, cursors[g], p);
    var b := map g | g in next :: CountFrom(queue, next[g], p);
    SumUpdate(a, group, CountFrom(queue, c + 1, p));
    assert b == a[group := CountFrom(queue, c + 1, p)];
    CountFirst(queue[c..], p);
    assert queue[c..][1..] == queue[c + 1..];
  }

  // ---------- every delivery step descends ----------

  /** Well-formed, and only workers that may retry are about to. */
  ghost predicate Sound(s: State, max: int) {
    Shaped(s.topic) && forall w :: w in s.reading ==> w in s.topic.inflight && s.reading[w] < max
  }

  lemma ShapedWriteBack(t: Topic, worker: string, r: int)
    requires Shaped(t) && CanFinish(t, worker)
    ensures Shaped(WriteBack(t, worker, r))
  {
    var m := t.queue[t.inflight[worker].pos];
    var t' := WriteBack(t, worker, r);
    assert m < |t.messages| == |t'.messages| && t.queue <= t'.queue;
    assert forall i :: |t.queue| <= i < |t'.queue| ==> t'.queue[i] == m;
  }

  lemma SoundStep(s: State, move: Move, max: int)
    requires Sound(s, max)
    ensures Sound(Advance(s, move, max), max)
  {
    match move
    case Plain(step) => if CanTake(s, step) { ShapedStep(s.topic, step, max); }
    case Fail(w) =>
      if CanFail(s, w) && !MayRetry(HeadersOf(s.topic, w), max) { ShapedFinish(s.topic, w, true, max); }
    case Requeue(w) => if CanRequeue(s, w) { ShapedWriteBack(s.topic, w, s.reading[w]); }
  }

  /** A delivery step that can be taken. */
  predicate CanMove(s: State, move: Move) {
    match move
    case Plain(Claim(w, g)) => CanClaim(s.topic, w, g)
    case Plain(Finish(w, failed)) => CanFinish(s.topic, w) && w !in s.reading && !failed
    case Plain(_) => false
    case Fail(w) => CanFail(s, w)
    case Requeue(w) => CanRequeue(s, w)
  }

  lemma HandsMove(s: State, s': State, worker: string, level: nat, p: nat -> bool)
    requires worker !in s.topic.inflight && s'.topic.inflight.Keys == s.topic.inflight.Keys + {worker}
    requires forall w :: w in s.topic.inflight ==> Hand(s', w, level, p) == Hand(s, w, level, p)
    ensures Hands(s'.topic.inflight.Keys, w => Hand(s', w, level, p)) ==
            Hand(s', worker, level, p) + Hands(s.topic.inflight.Keys, w => Hand(s, w, level, p))
  {
    var f, g := w => Hand(s', w, level, p), w => Hand(s, w, level, p);
    HandsWithout(s'.topic.inflight.Keys, worker, f);
    assert s'.topic.inflight.Keys - {worker} == s.topic.inflight.Keys;
    HandsMonotone(s.topic.inflight.Keys, f, g);
    HandsMonotone(s.topic.inflight.Keys, g, f);
  }

  /** The worker has claimed the next entry for its group. */
  predicate Claimed(s: State, s': State, worker: string, group: string) {
    && CanClaim(s.topic, worker, group)
    && s'.topic.queue == s.topic.queue && s'.topic.messages == s.topic.messages && s'.reading == s.reading
    && s'.topic.cursors == s.topic.cursors[group := s.topic.cursors[group] + 1]
    && s'.topic.inflight == s.topic.inflight[worker := Flight(group, s.topic.cursors[group])]
  }

  lemma ClaimKeepsHand(s: State, s': State, worker: string, group: string, level: nat, p: nat -> bool, w: string)
    requires Claimed(s, s', worker, group) && w in s.topic.inflight
    ensures Hand(s', w, level, p) == Hand(s, w, level, p)
  {
    assert s'.topic.inflight[w] == s.topic.inflight[w];
  }

  lemma ClaimedHand(s: State, s': State, worker: string, group: string, level: nat, p: nat -> bool)
    requires Claimed(s, s', worker, group) && worker !in s.reading && Shaped(s.topic)
    ensures Hand(s', worker, level, p) == if p(s.topic.queue[s.topic.cursors[group]]) then 1 else 0
  {
  }

  lemma ClaimKeepsPending(s: State, s': State, worker: string, group: string, level: nat, p: nat -> bool)
    requires Claimed(s, s', worker, group) && worker !in s.reading && Shaped(s.topic)
    ensures PendingBy(s', level, p) == PendingBy(s, level, p)
  {
    UnreadClaim(s.topic.queue, s.topic.cursors, group, p);
    forall w | w in s.topic.inflight ensures Hand(s', w, level, p) == Hand(s, w, level, p) {
      ClaimKeepsHand(s, s', worker, group, level, p, w);
    }
    ClaimedHand(s, s', worker, group, level, p);
    HandsMove(s, s', worker, level, p);
  }

  /** A worker that leaves without requeueing takes at most itself away. */
  lemma LeavingLowersPending(s: State, s': State, worker: string, level: nat, p: nat -> bool)
    requires worker in s.topic.inflight && s'.topic.inflight == s.topic.inflight - {worker}
    requires s'.topic.queue == s.topic.queue && s'.topic.messages == s.topic.messages
    requires s'.topic.cursors == s.topic.cursors && s'.reading == s.reading
    ensures PendingBy(s', level, p) <= PendingBy(s, level, p)
  {
    var f, g := w => Hand(s', w, level, p), w => Hand(s, w, level, p);
    HandsWithout(s.topic.inflight.Keys, worker, g);
    assert s'.topic.inflight.Keys == s.topic.inflight.Keys - {worker};
    HandsMonotone(s'.topic.inflight.Keys, f, g);
  }

  lemma ReadingKeepsPending(s: State, worker: string, max: int, level: nat, p: nat -> bool)
    requires CanFail(s, worker) && MayRetry(HeadersOf(s.topic, worker), max)
    requires p(s.topic.queue[s.topic.inflight[worker].pos]) <==> Level(Retries(HeadersOf(s.topic, worker))) == level
    ensures PendingBy(Advance(s, Fail(worker), max), level, p) == PendingBy(s, level, p)
  {
    var s' := Advance(s, Fail(worker), max);
    var f, g := w => Hand(s', w, level, p), w => Hand(s, w, level, p);
    HandsMonotone(s.topic.inflight.Keys, f, g);
    HandsMonotone(s.topic.inflight.Keys, g, f);
  }

  lemma WrittenLevel(r: int)
    requires r + 1 < LIMIT
    ensures Level(Retries(map["retries" := Itoa(r + 1)])) == Level(r) + 1
  {
    ParseUndoesItoa(r + 1);
  }

  /** At and below the level read, a write-back takes the message away from where it counted. */
  lemma WriteBackClears(t: Topic, worker: string, r: int, level: nat)
    requires CanFinish(t, worker) && r + 1 < LIMIT && level <= Level(r)
    ensures var (m, t') := (t.queue[t.inflight[worker].pos], WriteBack(t, worker, r));
      && !LevelTest(t'.messages, level)(m)
      && forall x :: LevelTest(t'.messages, level)(x) ==> LevelTest(t.messages, level)(x)
  {
    WrittenLevel(r);
  }

  lemma WriteBackLowersUnread(t: Topic, t': Topic, m: nat, p: nat -> bool, q: nat -> bool)
    requires Shaped(t) && t'.queue == t.queue + [m] && t'.cursors == t.cursors
    requires !q(m) && forall x :: q(x) ==> p(x)
    ensures Unread(t'.queue, t'.cursors, q) <= Unread(t.queue, t.cursors, p)
  {
    UnreadAppend(t.queue, m, t.cursors, q);
    UnreadMonotone(t.queue, t.cursors, q, p);
  }

  lemma WriteBackLowersHands(s: State, s': State, worker: string, level: nat, p: nat -> bool, q: nat -> bool)
    requires CanRequeue(s, worker) && s' == State(WriteBack(s.topic, worker, s.reading[worker]), s.reading - {worker})
    requires Shaped(s.topic) && forall x :: q(x) ==> p(x)
    ensures Hands(s'.topic.inflight.Keys, w => Hand(s', w, level, q)) +
              (if level == Level(s.reading[worker]) then 1 else 0) <=
            Hands(s.topic.inflight.Keys, w => Hand(s, w, level, p))
  {
    var f, g := w => Hand(s', w, level, q), w => Hand(s, w, level, p);
    HandsWithout(s.topic.inflight.Keys, worker, g);
    assert s'.topic.inflight.Keys == s.topic.inflight.Keys - {worker};
    HandsMonotone(s'.topic.inflight.Keys, f, g);
  }

  lemma RequeueLowersPending(s: State, worker: string, max: int, level: nat)
    requires Sound(s, max) && max < LIMIT && CanRequeue(s, worker) && level <= Level(s.reading[worker])
    ensures Pending(Advance(s, Requeue(worker), max), level) + (if level == Level(s.reading[worker]) then 1 else 0) <=
            Pending(s, level)
  {
    var t, s' := s.topic, Advance(s, Requeue(worker), max);
    var p, q := LevelTest(t.messages, level), LevelTest(s'.topic.messages, level);
    WriteBackClears(t, worker, s.reading[worker], level);
    WriteBackLowersUnread(t, s'.topic, t.queue[t.inflight[worker].pos], p, q);
    WriteBackLowersHands(s, s', worker, level, p, q);
  }

  lemma UntriedFalls(s: State, s': State, worker: string)
    requires worker in s.topic.inflight && worker !in s.reading
    requires s'.topic.queue == s.topic.queue && s'.topic.cursors == s.topic.cursors
    requires || (s'.topic.inflight == s.topic.inflight - {worker} && s'.reading == s.reading)
             || (s'.topic.inflight == s.topic.inflight && s'.reading.Keys == s.reading.Keys + {worker})
    ensures Untried(s') < Untried(s)
  {
    var f, g := w => HandUnread(s', w), w => HandUnread(s, w);
    var workers := s.topic.inflight.Keys;
    HandsWithout(workers, worker, g);
    if s'.topic.inflight == s.topic.inflight {
      HandsWithout(workers, worker, f);
    } else {
      assert s'.topic.inflight.Keys == workers - {worker};
    }
    HandsMonotone(workers - {worker}, f, g);
  }

  lemma ClaimKeepsUntried(s: State, s': State, worker: string)
    requires worker !in s.topic.inflight && worker !in s.reading && s'.reading == s.reading
    requires s'.topic.inflight.Keys == s.topic.inflight.Keys + {worker}
    ensures Hands(s'.topic.inflight.Keys, w => HandUnread(s', w)) ==
            1 + Hands(s.topic.inflight.Keys, w => HandUnread(s, w))
  {
    var f, g := w => HandUnread(s', w), w => HandUnread(s, w);
    HandsWithout(s'.topic.inflight.Keys, worker, f);
    assert s'.topic.inflight.Keys - {worker} == s.topic.inflight.Keys;
    HandsMonotone(s.topic.inflight.Keys, f, g);
    HandsMonotone(s.topic.inflight.Keys, g, f);
  }

  lemma ClaimLowersUnclaimed(s: State, s': State, worker: string, group: string)
    requires Claimed(s, s', worker, group) && worker !in s.reading
    ensures Unclaimed(s') < Unclaimed(s) && Untried(s') == Untried(s)
  {
    UnreadClaim(s.topic.queue, s.topic.cursors, group, All());
    ClaimKeepsUntried(s, s', worker);
  }

  lemma MeasureParts(s: State, max: int)
    ensures |Measure(s, max)| == Levels(max) + 2
    ensures forall i :: 0 <= i < Levels(max) ==> Measure(s, max)[i] == Pending(s, i)
    ensures Measure(s, max)[Levels(max)] == Untried(s) && Measure(s, max)[Levels(max) + 1] == Unclaimed(s)
  {
  }

  /** If no level rises and a later component falls, the measure falls. */
  lemma FallsAfterLevels(s: State, s': State, max: int)
    requires forall i: nat :: i < Levels(max) ==> Pending(s', i) <= Pending(s, i)
    requires Untried(s') < Untried(s) || (Untried(s') == Untried(s) && Unclaimed(s') < Unclaimed(s))
    ensures Below(Measure(s', max), Measure(s, max))
  {
    MeasureParts(s, max);
    MeasureParts(s', max);
    var a, b, n := Measure(s', max), Measure(s, max), Levels(max);
    var j := if a[n] < b[n] then n else n + 1;
    assert a[j] < b[j] && forall i :: 0 <= i < j ==> a[i] <= b[i];
  }

  lemma FallsAtLevel(s: State, s': State, max: int, level: nat)
    requires level < Levels(max) && Pending(s', level) < Pending(s, level)
    requires forall i: nat :: i < level ==> Pending(s', i) <= Pending(s, i)
    ensures Below(Measure(s', max), Measure(s, max))
  {
    MeasureParts(s, max);
    MeasureParts(s', max);
    var a, b := Measure(s', max), Measure(s, max);
    assert a[level] < b[level] && forall i :: 0 <= i < level ==> a[i] <= b[i];
  }

  lemma RequeueDescends(s: State, worker: string, max: int)
    requires Sound(s, max) && max < LIMIT && CanRequeue(s, worker)
    ensures Below(Measure(Advance(s, Requeue(worker), max), max), Measure(s, max))
  {
    var s', level := Advance(s, Requeue(worker), max), Level(s.reading[worker]);
    forall i: nat | i <= level ensures Pending(s', i) + (if i == level then 1 else 0) <= Pending(s, i) {
      RequeueLowersPending(s, worker, max, i);
    }
    FallsAtLevel(s, s', max, level);
  }

  lemma ClaimDescends(s: State, worker: string, group: string, max: int)
    requires Sound(s, max) && CanClaim(s.topic, worker, group)
    ensures Below(Measure(Advance(s, Plain(Claim(worker, group)), max), max), Measure(s, max))
  {
    var s' := Advance(s, Plain(Claim(worker, group)), max);
    assert Claimed(s, s', worker, group) && worker !in s.reading;
    forall i: nat ensures Pending(s', i) <= Pending(s, i) {
      ClaimKeepsPending(s, s', worker, group, i, LevelTest(s.topic.messages, i));
    }
    ClaimLowersUnclaimed(s, s', worker, group);
    FallsAfterLevels(s, s', max);
  }

  lemma AcknowledgeDescends(s: State, worker: string, max: int)
    requires CanFinish(s.topic, worker) && worker !in s.reading
    ensures Below(Measure(Advance(s, Plain(Finish(worker, false)), max), max), Measure(s, max))
  {
    var s' := Advance(s, Plain(Finish(worker, false)), max);
    forall i: nat ensures Pending(s', i) <= Pending(s, i) {
      LeavingLowersPending(s, s', worker, i, LevelTest(s.topic.messages, i));
    }
    UntriedFalls(s, s', worker);
    FallsAfterLevels(s, s', max);
  }

  lemma FailDescends(s: State, worker: string, max: int)
    requires CanFail(s, worker)
    ensures Below(Measure(Advance(s, Fail(worker), max), max), Measure(s, max))
  {
    var s' := Advance(s, Fail(worker), max);
    forall i: nat ensures Pending(s', i) <= Pending(s, i) {
      if MayRetry(HeadersOf(s.topic, worker), max) {
        ReadingKeepsPending(s, worker, max, i, LevelTest(s.topic.messages, i));
      } else {
        LeavingLowersPending(s, s', worker, i, LevelTest(s.topic.messages, i));
      }
    }
    UntriedFalls(s, s', worker);
    FallsAfterLevels(s, s', max);
  }

  lemma MoveDescends(s: State, move: Move, max: int)
    requires Sound(s, max) && max < LIMIT && CanMove(s, move)
    ensures Below(Measure(Advance(s, move, max), max), Measure(s, max))
  {
    match move
    case Plain(Claim(w, g)) => ClaimDescends(s, w, g, max);
    case Plain(Finish(w, _)) => AcknowledgeDescends(s, w, max);
    case Fail(w) => FailDescends(s, w, max);
    case Requeue(w) => RequeueDescends(s, w, max);
  }

  // ---------- no schedule goes on for ever ----------

  /** Where an unending schedule of moves stands after n of them. */
  function StateAt(s: State, schedule: nat -> Move, max: int, n: nat): State {
    if n == 0 then s else Advance(StateAt(s, schedule, max, n - 1), schedule(n - 1), max)
  }

  lemma {:induction false} SoundAt(s: State, schedule: nat -> Move, max: int, n: nat)
    requires Sound(s, max)
    ensures Sound(StateAt(s, schedule, max, n), max)
    decreases n
  {
    if n == 0 {
    } else {
      SoundAt(s, schedule, max, n - 1);
      SoundStep(StateAt(s, schedule, max, n - 1), schedule(n - 1), max);
    }
  }

  lemma {:induction false} SoundRun(s: State, moves: seq<Move>, max: int)
    requires Sound(s, max)
    ensures Sound(RunMoves(s, moves, max), max)
    decreases |moves|
  {
    if moves == [] {
    } else {
      SoundStep(s, moves[0], max);
      SoundRun(Advance(s, moves[0], max), moves[1..], max);
    }
  }

  ghost function MeasureAt(s: State, schedule: nat -> Move, max: int, n: nat): (m: seq<nat>)
    ensures |m| == Levels(max) + 2
  {
    MeasureParts(StateAt(s, schedule, max, n), max);
    Measure(StateAt(s, schedule, max, n), max)
  }

  /** The schedule's next move can be taken. */
  predicate MovesAt(s: State, schedule: nat -> Move, max: int, n: nat) {
    CanMove(StateAt(s, schedule, max, n), schedule(n))
  }

  lemma {:induction false} DescendsAt(s: State, schedule: nat -> Move, max: int, n: nat)
    requires Sound(s, max) && max < LIMIT && MovesAt(s, schedule, max, n)
    ensures Below(MeasureAt(s, schedule, max, n + 1), MeasureAt(s, schedule, max, n))
  {
    SoundAt(s, schedule, max, n);
    MoveDescends(StateAt(s, schedule, max, n), schedule(n), max);
  }

  lemma {:induction false} EndsFrom(s: State, schedule: nat -> Move, max: int) returns (n: nat)
    requires Sound(s, max) && max < LIMIT
    ensures !MovesAt(s, schedule, max, n)
  {
    var m, moves := (n: nat) => MeasureAt(s, schedule, max, n), (n: nat) => MovesAt(s, schedule, max, n);
    forall n: nat | moves(n) ensures Below(m(n + 1), m(n)) { DescendsAt(s, schedule, max, n); }
    n := MovesEnd(m, moves, Levels(max) + 2);
  }

  /**
    From whatever state a topic has got into, with any groups, workers, preset counters and stale
    write-backs: once publishing stops, no schedule of delivery steps goes on for ever.
   */
  lemma {:induction false} SplitDeliveryTerminates(start: State, moves: seq<Move>, schedule: nat -> Move, max: int)
    returns (n: nat)
    requires start == State(EMPTY, map[]) && max < LIMIT
    ensures !MovesAt(RunMoves(start, moves, max), schedule, max, n)
  {
    SoundRun(start, moves, max);
    n := EndsFrom(RunMoves(start, moves, max), schedule, max);
  }

  /** And one that cannot go on has left the topic quiet. */
  lemma SplitGoesOnUntilQuiet(s: State, max: int, idle: string) returns (move: Move)
    requires Sound(s, max) && !Quiet(s.topic) && idle !in s.topic.inflight
    ensures CanMove(s, move)
  {
    if w :| w in s.topic.inflight {
      move := if w in s.reading then Requeue(w) else Fail(w);
    } else {
      var g :| g in s.topic.cursors && s.topic.cursors[g] != |s.topic.queue|;
      move := Plain(Claim(idle, g));
    }
  }
}
