/**
  The broker (internal/primitives/mq/mq.go): topics by name and the live counters.  Its methods
  take the steps of the Queue model on one topic and keep the counters equal to what the topics
  hold.
 */
module Broker {
  import opened Decimal
  import opened Queue

  datatype Stats = Stats(
    published: nat, delivered: nat, acked: nat, nacked: nat, retried: nat, dead: nat)

  /** What one topic contributes, with the deliveries under way and the length of its queue. */
  datatype Tally = Tally(
    published: nat, delivered: nat, acked: nat, retried: nat, dead: nat, flying: nat, queued: nat)

  const ZERO := Tally(0, 0, 0, 0, 0, 0, 0)

  function Plus(a: Tally, b: Tally): Tally {
    Tally(a.published + b.published, a.delivered + b.delivered, a.acked + b.acked,
          a.retried + b.retried, a.dead + b.dead, a.flying + b.flying, a.queued + b.queued)
  }

  /** Queue entries and deliveries are all accounted for. */
  predicate Balanced(y: Tally) {
    y.queued == y.published + y.retried && y.delivered == y.acked + y.retried + y.dead + y.flying
  }

  function TallyOf(t: Topic): Tally {
    Tally(|t.messages|, t.delivered, |t.acked|, |t.retried|, |t.dlq|, |t.inflight|, |t.queue|)
  }

  /** Sum over the first n topics. */
  function Upto(objects: seq<Topic>, n: nat): Tally
    requires n <= |objects|
  {
    if n == 0 then ZERO else Plus(TallyOf(objects[n - 1]), Upto(objects, n - 1))
  }

  function All(objects: seq<Topic>): Tally {
    Upto(objects, |objects|)
  }

  lemma {:induction false} UptoAppend(objects: seq<Topic>, t: Topic, n: nat)
    requires n <= |objects|
    ensures Upto(objects + [t], n) == Upto(objects, n)
  {
    if n == 0 {
    } else {
      UptoAppend(objects, t, n - 1);
    }
  }

  lemma {:induction false} UptoUpdate(objects: seq<Topic>, i: nat, t: Topic, n: nat)
    requires i < |objects| && n <= |objects|
    ensures i >= n ==> Upto(objects[i := t], n) == Upto(objects, n)
    ensures i < n ==> Plus(Upto(objects[i := t], n), TallyOf(objects[i])) == Plus(Upto(objects, n), TallyOf(t))
  {
    if n == 0 {
    } else {
      UptoUpdate(objects, i, t, n - 1);
      var last := TallyOf(objects[i := t][n - 1]);
      PlusMoves(last, Upto(objects[i := t], n - 1), TallyOf(objects[i]));
      PlusMoves(TallyOf(objects[n - 1]), Upto(objects, n - 1), TallyOf(t));
    }
  }

  lemma PlusMoves(a: Tally, b: Tally, c: Tally)
    ensures Plus(Plus(a, b), c) == Plus(a, Plus(b, c)) && Plus(Plus(a, b), c) == Plus(Plus(c, b), a)
  {
  }

  lemma MapSizes(m: map<string, Flight>, k: string, v: Flight)
    ensures k !in m ==> |m[k := v]| == |m| + 1
    ensures k in m ==> |m - {k}| == |m| - 1
  {
    assert m[k := v].Keys == m.Keys + {k};
    assert (m - {k}).Keys == m.Keys - {k};
  }

  /** What a step adds to the counters. */
  function Effect(t: Topic, step: Step, max: int): Stats {
    match step
    case Publish(_, _, _) => Stats(1, 0, 0, 0, 0, 0)
    case Subscribe(_) => Stats(0, 0, 0, 0, 0, 0)
    case Claim(w, g) => Stats(0, if CanClaim(t, w, g) then 1 else 0, 0, 0, 0, 0)
    case Finish(w, failed) =>
      if !CanFinish(t, w) then Stats(0, 0, 0, 0, 0, 0)
      else if !failed then Stats(0, 0, 1, 0, 0, 0)
      else if MayRetry(t.messages[t.queue[t.inflight[w].pos]].headers, max) then Stats(0, 0, 0, 0, 1, 0)
      else Stats(0, 0, 0, 0, 0, 1)
  }

  function Bump(st: Stats, e: Stats): Stats {
    Stats(st.published + e.published, st.delivered + e.delivered, st.acked + e.acked,
          st.nacked + e.nacked, st.retried + e.retried, st.dead + e.dead)
  }

  /** One step's effect on a tally. */
  function Add(a: Tally, e: Stats): Tally
    requires a.flying + e.delivered >= e.acked + e.retried + e.dead
  {
    Tally(a.published + e.published, a.delivered + e.delivered, a.acked + e.acked,
          a.retried + e.retried, a.dead + e.dead,
          a.flying + e.delivered - e.acked - e.retried - e.dead,
          a.queued + e.published + e.retried)
  }

  lemma TallyClaim(t: Topic, worker: string, group: string)
    requires CanClaim(t, worker, group)
    ensures TallyOf(DoClaim(t, worker, group)) == Add(TallyOf(t), Stats(0, 1, 0, 0, 0, 0))
  {
    MapSizes(t.inflight, worker, Flight(group, t.cursors[group]));
  }

  lemma TallyFinish(t: Topic, worker: string, failed: bool, max: int)
    requires CanFinish(t, worker)
    ensures |t.inflight| > 0
    ensures TallyOf(DoFinish(t, worker, failed, max)) ==
            Add(TallyOf(t), Effect(t, Finish(worker, failed), max))
  {
    MapSizes(t.inflight, worker, t.inflight[worker]);
  }

  lemma TallyStep(t: Topic, step: Step, max: int)
    ensures var e := Effect(t, step, max);
      && e.nacked == 0 && |t.inflight| + e.delivered >= e.acked + e.retried + e.dead
      && TallyOf(Next(t, step, max)) == Add(TallyOf(t), e)
  {
    match step
    case Publish(_, _, _) =>
    case Subscribe(g) =>
    case Claim(w, g) => if CanClaim(t, w, g) { TallyClaim(t, w, g); }
    case Finish(w, failed) => if CanFinish(t, w) { TallyFinish(t, w, failed, max); }
  }

  predicate Shows(y: Tally, st: Stats) {
    Balanced(y) && st == Stats(y.published, y.delivered, y.acked, 0, y.retried, y.dead)
  }

  /** The counters are what the topics add up to; nothing ever counts as nacked. */
  ghost predicate Counts(objects: seq<Topic>, st: Stats) {
    Shows(All(objects), st)
  }

  lemma ShowsStep(whole: Tally, was: Tally, next: Tally, whole': Tally, st: Stats, e: Stats)
    requires Shows(whole, st) && e.nacked == 0 && was.flying + e.delivered >= e.acked + e.retried + e.dead
    requires next == Add(was, e) && Plus(whole', was) == Plus(whole, next)
    ensures Shows(whole', Bump(st, e))
  {
  }

  /** The counters stay right, whichever topic takes whichever step. */
  lemma CountsStep(objects: seq<Topic>, st: Stats, i: nat, step: Step, max: int)
    requires Counts(objects, st) && i < |objects|
    ensures Counts(objects[i := Next(objects[i], step, max)], Bump(st, Effect(objects[i], step, max)))
  {
    var t, next := objects[i], Next(objects[i], step, max);
    TallyStep(t, step, max);
    UptoUpdate(objects, i, next, |objects|);
    ShowsStep(All(objects), TallyOf(t), TallyOf(next), All(objects[i := next]), st, Effect(t, step, max));
  }

  lemma EmptyTally(t: Topic)
    requires t == EMPTY
    ensures TallyOf(t) == ZERO && Shaped(t)
  {
  }

  lemma CountsCreate(objects: seq<Topic>, t: Topic, st: Stats)
    requires Counts(objects, st) && TallyOf(t) == ZERO
    ensures Counts(objects + [t], st)
  {
    UptoAppend(objects, t, |objects|);
  }

  // ---------- runs of the whole broker ----------

  /** A topic comes into being, or topic i takes a step. */
  datatype Action = Create | On(i: nat, step: Step)

  datatype World = World(objects: seq<Topic>, st: Stats)

  function NextWorld(w: World, a: Action, max: int): World {
    match a
    case Create => World(w.objects + [EMPTY], w.st)
    case On(i, step) =>
      if i >= |w.objects| then w
      else World(w.objects[i := Next(w.objects[i], step, max)], Bump(w.st, Effect(w.objects[i], step, max)))
  }

  function RunWorld(w: World, actions: seq<Action>, max: int): World
    decreases |actions|
  {
    if actions == [] then w else RunWorld(NextWorld(w, actions[0], max), actions[1..], max)
  }

  /** A broker without topics, all counters at zero. */
  predicate IsNew(w: World) {
    && |w.objects| == 0
    && w.st.published == w.st.delivered == w.st.acked == w.st.nacked == w.st.retried == w.st.dead == 0
  }

  lemma {:induction false} CountsRun(w: World, actions: seq<Action>, max: int)
    requires Counts(w.objects, w.st)
    ensures Counts(RunWorld(w, actions, max).objects, RunWorld(w, actions, max).st)
    decreases |actions|
  {
    if actions == [] {
    } else {
      if actions[0].Create? {
        EmptyTally(EMPTY);
        CountsCreate(w.objects, EMPTY, w.st);
      } else if actions[0].i < |w.objects| {
        CountsStep(w.objects, w.st, actions[0].i, actions[0].step, max);
      }
      CountsRun(NextWorld(w, actions[0], max), actions[1..], max);
    }
  }

  lemma NewCounts(w: World)
    requires IsNew(w)
    ensures Counts(w.objects, w.st)
  {
  }

  /** Deliveries and queue entries are all accounted for by the counters. */
  ghost predicate Accounted(w: World) {
    && w.st.delivered == w.st.acked + w.st.retried + w.st.dead + All(w.objects).flying
    && All(w.objects).queued == w.st.published + w.st.retried
    && w.st.nacked == 0
  }

  lemma CountsBalance(w: World)
    requires Counts(w.objects, w.st)
    ensures Accounted(w)
  {
  }

  /**
    In every run of the broker the counters balance: deliveries are acknowledged, retried,
    dead-lettered or under way, the queues together hold published + retried entries, and nothing
    is ever counted as nacked.
   */
  lemma {:induction false} StatsBalance(start: World, actions: seq<Action>, max: int)
    requires IsNew(start)
    ensures Accounted(RunWorld(start, actions, max))
  {
    NewCounts(start);
    CountsRun(start, actions, max);
    CountsBalance(RunWorld(start, actions, max));
  }

  /** The steps a run of a broker of n topics takes on topic i. */
  function StepsOn(n: nat, actions: seq<Action>, i: nat): seq<Step>
    decreases |actions|
  {
    if actions == [] then []
    else match actions[0]
      case Create => StepsOn(n + 1, actions[1..], i)
      case On(j, step) =>
        if j == i && i < n then [step] + StepsOn(n, actions[1..], i) else StepsOn(n, actions[1..], i)
  }

  function TopicAt(objects: seq<Topic>, i: nat): Topic {
    if i < |objects| then objects[i] else EMPTY
  }

  /** Topics do not disturb each other: each ends where its own steps alone would have taken it. */
  lemma {:induction false} TopicsRunAlone(w: World, actions: seq<Action>, max: int, i: nat)
    ensures TopicAt(RunWorld(w, actions, max).objects, i) ==
            Run(TopicAt(w.objects, i), StepsOn(|w.objects|, actions, i), max)
    decreases |actions|
  {
    if actions == [] {
    } else {
      TopicsRunAlone(NextWorld(w, actions[0], max), actions[1..], max, i);
      if actions[0].On? && actions[0].i == i && i < |w.objects| {
        var steps := StepsOn(|w.objects|, actions, i);
        assert steps[0] == actions[0].step && steps[1..] == StepsOn(|w.objects|, actions[1..], i);
      }
    }
  }

  ghost predicate Good(objects: seq<Topic>, st: Stats) {
    (forall i :: 0 <= i < |objects| ==> Shaped(objects[i])) && Counts(objects, st)
  }

  lemma {:induction false} GoodCreate(objects: seq<Topic>, t: Topic, st: Stats)
    requires Good(objects, st) && t == EMPTY
    ensures Good(objects + [t], st)
  {
    EmptyTally(t);
    CountsCreate(objects, t, st);
  }

  lemma GoodStep(objects: seq<Topic>, st: Stats, i: nat, step: Step, max: int)
    requires Good(objects, st) && i < |objects|
    ensures Good(objects[i := Next(objects[i], step, max)], Bump(st, Effect(objects[i], step, max)))
  {
    ShapedStep(objects[i], step, max);
    CountsStep(objects, st, i, step, max);
  }

  /** What becomes of a claimed message: acknowledged, retried or dead-lettered. */
  method Settle(t: Topic, st: Stats, worker: string, failed: bool, max: int) returns (next: Topic, st': Stats)
    requires CanFinish(t, worker) && max < LIMIT
    ensures next == Next(t, Finish(worker, failed), max)
    ensures st' == Bump(st, Effect(t, Finish(worker, failed), max))
  {
    var m := t.queue[t.inflight[worker].pos];
    var mv := t.messages[m];
    next := t.(inflight := t.inflight - {worker});
    if failed {
      var retries := 0;
      if "retries" in mv.headers { retries := ParseInt(mv.headers["retries"]); }
      if retries >= max {
        next := next.(dlq := t.dlq + [m]);
        st' := st.(dead := st.dead + 1);
      } else {
        var counter := FormatInt(retries + 1);
        next := next.(messages := t.messages[m := mv.(headers := map["retries" := counter])],
                      queue := t.queue + [m], retried := t.retried + [m]);
        st' := st.(retried := st.retried + 1);
      }
    } else {
      next := next.(acked := t.acked + [m]);
      st' := st.(acked := st.acked + 1);
    }
  }

  /** Each name leads to the object of that name, so different names to different objects. */
  predicate IndexOk(index: map<string, nat>, names: seq<string>) {
    forall a :: a in index ==> index[a] < |names| && names[index[a]] == a
  }

  class Broker {
    const maxRetries: int
    var index: map<string, nat>
    var names: seq<string>
    var objects: seq<Topic>
    var st: Stats

    /** Topics by name are distinct objects; the decimal retry counter has to fit its buffer. */
    ghost predicate Valid()
      reads this
    {
      maxRetries < LIMIT && Good(objects, st) && |names| == |objects| && IndexOk(index, names)
    }

    constructor (maxRetries: int)
      requires maxRetries < LIMIT
      ensures Valid() && index == map[] && objects == []
      ensures this.maxRetries == if maxRetries == 0 then 5 else maxRetries
    {
      this.maxRetries := if maxRetries == 0 then 5 else maxRetries;
      index, names, objects := map[], [], [];
      st := Stats(0, 0, 0, 0, 0, 0);
    }

    method GetOrCreateTopic(name: string) returns (i: nat)
      requires Valid()
      modifies this
      ensures Valid() && st == old(st) && name in index && index[name] == i
      ensures if name in old(index) then index == old(index) && objects == old(objects)
              else index == old(index)[name := i] && objects == old(objects) + [EMPTY]
    {
      if name in index { return index[name]; }
      GoodCreate(objects, EMPTY, st);
      i := |objects|;
      objects, names := objects + [EMPTY], names + [name];
      index := index[name := i];
    }

    /** The topic takes the step, the counters follow, all else stays. */
    twostate predicate Took(i: nat, step: Step)
      reads this
    {
      && Valid() && index == old(index) && i < |old(objects)|
      && objects == old(objects)[i := Next(old(objects)[i], step, maxRetries)]
      && st == Bump(old(st), Effect(old(objects)[i], step, maxRetries))
    }

    method PublishTo(i: nat, key: string, value: string, headers: Headers)
      requires Valid() && i < |objects|
      modifies this
      ensures Took(i, Publish(key, value, headers))
    {
      var t := objects[i];
      GoodStep(objects, st, i, Publish(key, value, headers), maxRetries);
      var off := t.nextOff + 1;
      var mv := Message(off, key, value, headers);
      var next := t.(nextOff := off, messages := t.messages + [mv], queue := t.queue + [|t.messages|],
                     granted := t.granted + [Left(headers, maxRetries)]);
      objects := objects[i := next];
      st := st.(published := st.published + 1);
    }

    method SubscribeTo(i: nat, group: string)
      requires Valid() && i < |objects|
      modifies this
      ensures Took(i, Subscribe(group))
    {
      var t := objects[i];
      GoodStep(objects, st, i, Subscribe(group), maxRetries);
      if group !in t.cursors {
        t := t.(cursors := t.cursors[group := 0]);
      }
      objects := objects[i := t];
    }

    /** First half of deliverOnce: take the position under the group's cursor. */
    method ClaimNext(i: nat, group: string, worker: string) returns (ok: bool)
      requires Valid() && i < |objects| && group in objects[i].cursors && worker !in objects[i].inflight
      modifies this
      ensures Took(i, Claim(worker, group))
      ensures ok <==> CanClaim(old(objects[i]), worker, group)
    {
      var t := objects[i];
      GoodStep(objects, st, i, Claim(worker, group), maxRetries);
      var cursor := t.cursors[group];
      if cursor >= |t.queue| {
        return false;
      }
      var next := t.(cursors := t.cursors[group := cursor + 1],
                     inflight := t.inflight[worker := Flight(group, cursor)],
                     delivered := t.delivered + 1);
      assert next == DoClaim(t, worker, group);
      objects := objects[i := next];
      st := st.(delivered := st.delivered + 1);
      return true;
    }

    /** Second half: acknowledge, retry or dead-letter, as the handler and the counter say. */
    method FinishDelivery(i: nat, worker: string, failed: bool)
      requires Valid() && i < |objects| && worker in objects[i].inflight
      modifies this
      ensures Took(i, Finish(worker, failed))
    {
      assert Shaped(objects[i]);
      GoodStep(objects, st, i, Finish(worker, failed), maxRetries);
      var next, stats := Settle(objects[i], st, worker, failed, maxRetries);
      objects, st := objects[i := next], stats;
    }
  }
}
