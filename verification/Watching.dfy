/**
  Watch streams (internal/primitives/db/raft.go:306-341, 430-486).

  Applied changes are queued and later fanned out to every watcher whose prefix matches, unless
  the watcher's channel is full.  A new watcher is registered first; then a List is taken and
  replayed into the same channel by a goroutine of its own.  The steps below interleave freely;
  only the draining of the queue is taken as atomic.
 */
module Watching {
  import opened Prelude
  import opened Ordering
  import opened Store

  const CAPACITY: nat := 256

  datatype Item = Listed(entry: Entry) | Change(entry: Entry)

  /**
    `sent` is all that was ever put into the channel, of which the client has taken `taken`.
    `since` and `listedAt` only serve the statements: how many changes had been fanned out when
    the watcher was registered, and how many applied when its List was taken.
   */
  datatype Watcher = Watcher(
    prefix: string, sent: seq<Item>, taken: nat, missed: bool,
    listing: Option<seq<Entry>>, replayed: nat,
    since: nat, listedAt: nat)

  datatype System = System(db: Db, delivered: seq<Entry>, watchers: seq<Watcher>)

  datatype Step =
    | Do(command: Command)
    | Register(prefix: string)
    | TakeList(i: nat)
    | Replay(i: nat)
    | Receive(i: nat)

  // ---------- what the code does ----------

  predicate HasRoom(w: Watcher) {
    |w.sent| - w.taken < CAPACITY
  }

  function FanOne(w: Watcher, ev: Entry): Watcher {
    if !HasPrefix(ev.key, w.prefix) then w
    else if HasRoom(w) then w.(sent := w.sent + [Change(ev)])
    else w.(missed := true)
  }

  function FanAll(w: Watcher, evs: seq<Entry>): Watcher {
    if evs == [] then w else FanOne(FanAll(w, evs[..|evs| - 1]), evs[|evs| - 1])
  }

  /** The entries under a prefix, sorted by key. */
  ghost function ListOf(m: map<string, Entry>, prefix: string): seq<Entry> {
    var keys := Sorted(set k | k in m && HasPrefix(k, prefix));
    seq(|keys|, i requires 0 <= i < |keys| =>
      assert keys[i] in Elements(keys); m[keys[i]])
  }

  function NewWatcher(prefix: string, since: nat): Watcher {
    Watcher(prefix, [], 0, false, None, 0, since, 0)
  }

  ghost function Next(s: System, step: Step): System {
    match step
    case Do(c) =>
      if c.Restart? then s
      else if c.Drain? then
        System(Exec(s.db, Drain), s.delivered + s.db.queue,
          seq(|s.watchers|, i requires 0 <= i < |s.watchers| => FanAll(s.watchers[i], s.db.queue)))
      else s.(db := Exec(s.db, c))
    case Register(p) => s.(watchers := s.watchers + [NewWatcher(p, |s.delivered|)])
    case TakeList(i) =>
      if i >= |s.watchers| || s.watchers[i].listing.Some? then s
      else
        var w := s.watchers[i];
        s.(watchers := s.watchers[i := w.(listing := Some(ListOf(s.db.entries, w.prefix)),
                                          listedAt := |s.db.log|)])
    case Replay(i) =>
      if i >= |s.watchers| then s
      else
        var w := s.watchers[i];
        if w.listing.None? || w.replayed >= |w.listing.value| || !HasRoom(w) then s
        else s.(watchers := s.watchers[i := w.(sent := w.sent + [Listed(w.listing.value[w.replayed])],
                                               replayed := w.replayed + 1)])
    case Receive(i) =>
      if i >= |s.watchers| || s.watchers[i].taken >= |s.watchers[i].sent| then s
      else s.(watchers := s.watchers[i := s.watchers[i].(taken := s.watchers[i].taken + 1)])
  }

  ghost function Steps(s: System, steps: seq<Step>): System
    decreases |steps|
  {
    if steps == [] then s else Steps(Next(s, steps[0]), steps[1..])
  }

  // ---------- reading a stream ----------

  function Changes(items: seq<Item>): seq<Entry> {
    if items == [] then []
    else
      var rest := Changes(items[..|items| - 1]);
      match items[|items| - 1] case Change(e) => rest + [e] case Listed(_) => rest
  }

  function Listings(items: seq<Item>): seq<Entry> {
    if items == [] then []
    else
      var rest := Listings(items[..|items| - 1]);
      match items[|items| - 1] case Change(_) => rest case Listed(e) => rest + [e]
  }

  function Entries(items: seq<Item>): seq<Entry> {
    seq(|items|, i requires 0 <= i < |items| => items[i].entry)
  }

  function Relevant(evs: seq<Entry>, prefix: string): seq<Entry> {
    if evs == [] then []
    else
      var rest := Relevant(evs[..|evs| - 1], prefix);
      if HasPrefix(evs[|evs| - 1].key, prefix) then rest + [evs[|evs| - 1]] else rest
  }

  predicate IsSubsequence<T(==)>(a: seq<T>, b: seq<T>) {
    a == [] ||
    (b != [] && (IsSubsequence(a, b[..|b| - 1]) ||
                 (a[|a| - 1] == b[|b| - 1] && IsSubsequence(a[..|a| - 1], b[..|b| - 1]))))
  }

  function Fold(m: map<string, Entry>, evs: seq<Entry>): map<string, Entry> {
    if evs == [] then m else ApplyEvent(Fold(m, evs[..|evs| - 1]), evs[|evs| - 1])
  }

  /** The latest entry about a key. */
  function LastFor(evs: seq<Entry>, key: string): Option<Entry> {
    if evs == [] then None
    else if evs[|evs| - 1].key == key then Some(evs[|evs| - 1])
    else LastFor(evs[..|evs| - 1], key)
  }

  function Present(e: Entry): Option<Entry> {
    if e.deleted then None else Some(e)
  }

  function Under(m: map<string, Entry>, prefix: string): map<string, Entry> {
    map k | k in m && HasPrefix(k, prefix) :: m[k]
  }

  // ---------- lemmas on sequences of changes ----------

  lemma Snoc<T>(a: seq<T>, x: T)
    ensures (a + [x])[..|a + [x]| - 1] == a && (a + [x])[|a + [x]| - 1] == x
  {
  }

  lemma {:induction false} FoldAt(m: map<string, Entry>, evs: seq<Entry>, key: string)
    ensures Lookup(Fold(m, evs), key) ==
      match LastFor(evs, key) case None => Lookup(m, key) case Some(e) => Present(e)
  {
    if evs == [] {
    } else {
      FoldAt(m, evs[..|evs| - 1], key);
    }
  }

  lemma {:induction false} LastForSplit(a: seq<Entry>, b: seq<Entry>, key: string)
    ensures LastFor(a + b, key) == if LastFor(b, key).Some? then LastFor(b, key) else LastFor(a, key)
  {
    if b == [] {
      assert a + b == a;
    } else {
      assert (a + b)[..|a + b| - 1] == a + b[..|b| - 1];
      LastForSplit(a, b[..|b| - 1], key);
    }
  }

  lemma {:induction false} LastForRelevant(evs: seq<Entry>, prefix: string, key: string)
    ensures LastFor(Relevant(evs, prefix), key) ==
      if HasPrefix(key, prefix) then LastFor(evs, key) else None
  {
    if evs == [] {
    } else {
      var init := evs[..|evs| - 1];
      LastForRelevant(init, prefix, key);
      if HasPrefix(evs[|evs| - 1].key, prefix) { Snoc(Relevant(init, prefix), evs[|evs| - 1]); }
    }
  }

  lemma {:induction false} StateIsFold(log: seq<LogEntry>)
    ensures StateOf(log) == Fold(map[], Events(log))
  {
    if log == [] {
    } else {
      assert Events(log)[..|log| - 1] == Events(log[..|log| - 1]);
      StateIsFold(log[..|log| - 1]);
    }
  }

  /** Stored entries sit under their own key and are not tombstones. */
  lemma {:induction false} StateWellKeyed(log: seq<LogEntry>, key: string)
    requires key in StateOf(log)
    ensures StateOf(log)[key].key == key && !StateOf(log)[key].deleted
  {
    if key !in StateOf(log[..|log| - 1]) {
    } else {
      StateWellKeyed(log[..|log| - 1], key);
    }
  }

  // ---------- List ----------

  ghost predicate WellKeyed(m: map<string, Entry>) {
    forall k :: k in m ==> m[k].key == k && !m[k].deleted
  }

  /** A list holds the entries of exactly the keys under the prefix, keys ascending. */
  lemma ListHoldsExactly(m: map<string, Entry>, prefix: string)
    requires WellKeyed(m)
    ensures var es := ListOf(m, prefix);
      && (forall e :: e in es <==> e.key in m && m[e.key] == e && exists rest :: e.key == prefix + rest)
      && (forall i, j :: 0 <= i < j < |es| ==> Less(es[i].key, es[j].key))
  {
    var keys := Sorted(set k | k in m && HasPrefix(k, prefix));
    var es := ListOf(m, prefix);
    forall i | 0 <= i < |es| ensures keys[i] in m && HasPrefix(keys[i], prefix) && es[i] == m[keys[i]] {
      assert keys[i] in Elements(keys);
    }
    forall e ensures e in es <==> e.key in m && m[e.key] == e && exists rest :: e.key == prefix + rest {
      HasPrefixIff(e.key, prefix);
      if e.key in m && m[e.key] == e && HasPrefix(e.key, prefix) {
        assert e.key in Elements(keys);
        var i :| 0 <= i < |keys| && keys[i] == e.key;
        assert es[i] == e;
      }
    }
  }

  /** A list's entry about a key is the map's. */
  lemma ListLookup(m: map<string, Entry>, prefix: string, key: string)
    requires WellKeyed(m)
    ensures LastFor(ListOf(m, prefix), key) == if HasPrefix(key, prefix) then Lookup(m, key) else None
    ensures forall i :: 0 <= i < |ListOf(m, prefix)| ==>
      HasPrefix(ListOf(m, prefix)[i].key, prefix) && !ListOf(m, prefix)[i].deleted
  {
    var keys := Sorted(set k | k in m && HasPrefix(k, prefix));
    var es := ListOf(m, prefix);
    forall i | 0 <= i < |es|
      ensures keys[i] in m && es[i].key == keys[i] && es[i] == m[keys[i]] && HasPrefix(keys[i], prefix)
    {
      assert keys[i] in Elements(keys);
    }
    if HasPrefix(key, prefix) && key in m {
      assert key in Elements(keys);
      var i :| 0 <= i < |keys| && keys[i] == key;
      LastForFound(es, i);
    } else {
      LastForAbsent(es, key);
    }
  }

  lemma {:induction false} LastForAbsent(es: seq<Entry>, key: string)
    requires forall i :: 0 <= i < |es| ==> es[i].key != key
    ensures LastFor(es, key).None?
  {
    if es == [] {
    } else {
      LastForAbsent(es[..|es| - 1], key);
    }
  }

  lemma {:induction false} LastForFound(es: seq<Entry>, i: nat)
    requires i < |es|
    requires forall j, k :: 0 <= j < k < |es| ==> Less(es[j].key, es[k].key)
    ensures LastFor(es, es[i].key) == Some(es[i])
  {
    if i == |es| - 1 {
    } else {
      LessAsymmetric(es[i].key, es[|es| - 1].key);
      LastForFound(es[..|es| - 1], i);
    }
  }

  // ---------- the invariant ----------

  predicate StreamOk(w: Watcher, delivered: seq<Entry>) {
    && w.since <= |delivered| && w.taken <= |w.sent| && |w.sent| - w.taken <= CAPACITY
    && IsSubsequence(Changes(w.sent), Relevant(delivered[w.since..], w.prefix))
    && (!w.missed ==> Changes(w.sent) == Relevant(delivered[w.since..], w.prefix))
  }

  ghost predicate ListingOk(w: Watcher, replayed: seq<Entry>, log: seq<LogEntry>) {
    match w.listing
    case None => w.replayed == 0 && replayed == []
    case Some(es) =>
      && w.replayed <= |es| && replayed == es[..w.replayed]
      && w.since <= w.listedAt <= |log| && es == ListOf(StateOf(log[..w.listedAt]), w.prefix)
  }

  ghost predicate WatcherOk(w: Watcher, delivered: seq<Entry>, log: seq<LogEntry>) {
    StreamOk(w, delivered) && ListingOk(w, Listings(w.sent), log)
  }

  ghost predicate Ok(s: System) {
    && Live(s.db)
    && s.delivered + s.db.queue == Events(s.db.log)
    && forall i :: 0 <= i < |s.watchers| ==> WatcherOk(s.watchers[i], s.delivered, s.db.log)
  }

  lemma SubsequenceExtend<T>(a: seq<T>, b: seq<T>, x: T)
    requires IsSubsequence(a, b)
    ensures IsSubsequence(a, b + [x]) && IsSubsequence(a + [x], b + [x])
  {
    Snoc(a, x);
    Snoc(b, x);
  }

  lemma RelevantSnoc(evs: seq<Entry>, ev: Entry, prefix: string)
    ensures Relevant(evs + [ev], prefix) ==
      if HasPrefix(ev.key, prefix) then Relevant(evs, prefix) + [ev] else Relevant(evs, prefix)
  {
    Snoc(evs, ev);
  }

  lemma ItemsSnoc(items: seq<Item>, item: Item)
    ensures Changes(items + [item]) == if item.Change? then Changes(items) + [item.entry] else Changes(items)
    ensures Listings(items + [item]) == if item.Listed? then Listings(items) + [item.entry] else Listings(items)
  {
    Snoc(items, item);
  }

  lemma StreamSkips(w: Watcher, delivered: seq<Entry>, ev: Entry)
    requires StreamOk(w, delivered) && !HasPrefix(ev.key, w.prefix)
    ensures StreamOk(w, delivered + [ev])
  {
    assert (delivered + [ev])[w.since..] == delivered[w.since..] + [ev];
    RelevantSnoc(delivered[w.since..], ev, w.prefix);
  }

  lemma StreamTakes(w: Watcher, delivered: seq<Entry>, ev: Entry)
    requires StreamOk(w, delivered) && HasPrefix(ev.key, w.prefix) && HasRoom(w)
    ensures StreamOk(w.(sent := w.sent + [Change(ev)]), delivered + [ev])
  {
    assert (delivered + [ev])[w.since..] == delivered[w.since..] + [ev];
    RelevantSnoc(delivered[w.since..], ev, w.prefix);
    ItemsSnoc(w.sent, Change(ev));
    SubsequenceExtend(Changes(w.sent), Relevant(delivered[w.since..], w.prefix), ev);
  }

  lemma StreamMisses(w: Watcher, delivered: seq<Entry>, ev: Entry)
    requires StreamOk(w, delivered) && HasPrefix(ev.key, w.prefix)
    ensures StreamOk(w.(missed := true), delivered + [ev])
  {
    assert (delivered + [ev])[w.since..] == delivered[w.since..] + [ev];
    RelevantSnoc(delivered[w.since..], ev, w.prefix);
    SubsequenceExtend(Changes(w.sent), Relevant(delivered[w.since..], w.prefix), ev);
  }

  lemma FanOneStream(w: Watcher, ev: Entry, delivered: seq<Entry>)
    requires StreamOk(w, delivered)
    ensures StreamOk(FanOne(w, ev), delivered + [ev]) && Listings(FanOne(w, ev).sent) == Listings(w.sent)
  {
    ItemsSnoc(w.sent, Change(ev));
    if !HasPrefix(ev.key, w.prefix) {
      StreamSkips(w, delivered, ev);
    } else if HasRoom(w) {
      StreamTakes(w, delivered, ev);
    } else {
      StreamMisses(w, delivered, ev);
    }
  }

  lemma ListingKept(w: Watcher, w': Watcher, replayed: seq<Entry>, log: seq<LogEntry>)
    requires ListingOk(w, replayed, log)
    requires w'.listing == w.listing && w'.replayed == w.replayed && w'.prefix == w.prefix
    requires w'.since == w.since && w'.listedAt == w.listedAt
    ensures ListingOk(w', replayed, log)
  {
  }

  lemma FanOneOk(w: Watcher, ev: Entry, delivered: seq<Entry>, log: seq<LogEntry>)
    requires WatcherOk(w, delivered, log)
    ensures WatcherOk(FanOne(w, ev), delivered + [ev], log)
  {
    FanOneStream(w, ev, delivered);
    ListingKept(w, FanOne(w, ev), Listings(w.sent), log);
  }

  lemma {:induction false} FanAllOk(w: Watcher, evs: seq<Entry>, delivered: seq<Entry>, log: seq<LogEntry>)
    requires WatcherOk(w, delivered, log)
    ensures WatcherOk(FanAll(w, evs), delivered + evs, log)
  {
    if evs == [] {
      assert delivered + evs == delivered;
    } else {
      var init, ev := evs[..|evs| - 1], evs[|evs| - 1];
      FanAllOk(w, init, delivered, log);
      assert delivered + evs == (delivered + init) + [ev];
      FanOneOk(FanAll(w, init), ev, delivered + init, log);
    }
  }

  lemma LogGrowsOk(w: Watcher, delivered: seq<Entry>, log: seq<LogEntry>, e: LogEntry)
    requires WatcherOk(w, delivered, log)
    ensures WatcherOk(w, delivered, log + [e])
  {
    if w.listing.Some? { assert (log + [e])[..w.listedAt] == log[..w.listedAt]; }
  }

  lemma CommitOk(s: System, t: System, e: LogEntry)
    requires Ok(s) && Live(t.db) && t.delivered == s.delivered && t.watchers == s.watchers
    requires t.db.log == s.db.log + [e] && t.db.queue == s.db.queue + [EventOf(e)]
    ensures Ok(t)
  {
    assert Events(t.db.log) == Events(s.db.log) + [EventOf(e)];
    assert s.delivered + t.db.queue == s.delivered + s.db.queue + [EventOf(e)];
    forall i | 0 <= i < |t.watchers| ensures WatcherOk(t.watchers[i], t.delivered, t.db.log) {
      LogGrowsOk(s.watchers[i], s.delivered, s.db.log, e);
    }
  }

  lemma DoOk(s: System, c: Command)
    requires Ok(s) && !c.Restart? && !c.Drain?
    ensures Ok(Next(s, Do(c)))
  {
    ExecKeepsLive(s.db, c);
    var t := Next(s, Do(c));
    assert t == s.(db := Exec(s.db, c));
    if Intent(s.db, c).Some? {
      CommitSpelledOut(s.db, Intent(s.db, c).value);
      CommitOk(s, t, Stamp(s.db, Intent(s.db, c).value));
    } else {
      assert t.db.log == s.db.log && t.db.queue == s.db.queue;
    }
  }

  lemma DrainOk(s: System)
    requires Ok(s)
    ensures Ok(Next(s, Do(Drain)))
  {
    var t := Next(s, Do(Drain));
    ExecKeepsLive(s.db, Drain);
    assert t.delivered + [] == t.delivered;
    forall i | 0 <= i < |t.watchers| ensures WatcherOk(t.watchers[i], t.delivered, t.db.log) {
      FanAllOk(s.watchers[i], s.db.queue, s.delivered, s.db.log);
    }
  }

  lemma RegisterOk(prefix: string, delivered: seq<Entry>, log: seq<LogEntry>)
    ensures WatcherOk(NewWatcher(prefix, |delivered|), delivered, log)
  {
    assert delivered[|delivered|..] == [];
  }

  lemma {:induction false} TakeListOk(w: Watcher, delivered: seq<Entry>, log: seq<LogEntry>)
    requires WatcherOk(w, delivered, log) && w.listing.None? && |delivered| <= |log|
    ensures WatcherOk(w.(listing := Some(ListOf(StateOf(log), w.prefix)), listedAt := |log|), delivered, log)
  {
    var es := ListOf(StateOf(log), w.prefix);
    assert es[..0] == [];
    assert log[..|log|] == log;
  }

  lemma ListingAdvances(w: Watcher, w': Watcher, es: seq<Entry>, replayed: seq<Entry>, log: seq<LogEntry>)
    requires ListingOk(w, replayed, log) && w.listing == Some(es) && w.replayed < |es|
    requires w'.listing == w.listing && w'.replayed == w.replayed + 1 && w'.prefix == w.prefix
    requires w'.since == w.since && w'.listedAt == w.listedAt
    ensures ListingOk(w', replayed + [es[w.replayed]], log)
  {
    assert es[..w.replayed + 1] == es[..w.replayed] + [es[w.replayed]];
  }

  lemma ReplayOk(w: Watcher, delivered: seq<Entry>, log: seq<LogEntry>)
    requires WatcherOk(w, delivered, log)
    requires w.listing.Some? && w.replayed < |w.listing.value| && HasRoom(w)
    ensures WatcherOk(w.(sent := w.sent + [Listed(w.listing.value[w.replayed])], replayed := w.replayed + 1),
                      delivered, log)
  {
    var item := Listed(w.listing.value[w.replayed]);
    var w' := w.(sent := w.sent + [item], replayed := w.replayed + 1);
    ItemsSnoc(w.sent, item);
    ListingAdvances(w, w', w.listing.value, Listings(w.sent), log);
    assert StreamOk(w', delivered);
  }

  lemma ReceiveOk(w: Watcher, delivered: seq<Entry>, log: seq<LogEntry>)
    requires WatcherOk(w, delivered, log) && w.taken < |w.sent|
    ensures WatcherOk(w.(taken := w.taken + 1), delivered, log)
  {
    ListingKept(w, w.(taken := w.taken + 1), Listings(w.sent), log);
  }

  /** A step that touches one watcher, and touches it well. */
  lemma ReplaceOk(s: System, i: nat, w: Watcher)
    requires Ok(s) && i < |s.watchers| && WatcherOk(w, s.delivered, s.db.log)
    ensures Ok(s.(watchers := s.watchers[i := w]))
  {
  }

  lemma RegisterStepOk(s: System, prefix: string)
    requires Ok(s)
    ensures Ok(Next(s, Register(prefix)))
  {
    RegisterOk(prefix, s.delivered, s.db.log);
  }

  lemma TakeListStepOk(s: System, i: nat)
    requires Ok(s)
    ensures Ok(Next(s, TakeList(i)))
  {
    if i < |s.watchers| && s.watchers[i].listing.None? {
      assert |s.delivered| <= |Events(s.db.log)|;
      TakeListOk(s.watchers[i], s.delivered, s.db.log);
      ReplaceOk(s, i, Next(s, TakeList(i)).watchers[i]);
    }
  }

  lemma ReplayStepOk(s: System, i: nat)
    requires Ok(s)
    ensures Ok(Next(s, Replay(i)))
  {
    if Next(s, Replay(i)) != s {
      ReplayOk(s.watchers[i], s.delivered, s.db.log);
      ReplaceOk(s, i, Next(s, Replay(i)).watchers[i]);
    }
  }

  lemma ReceiveStepOk(s: System, i: nat)
    requires Ok(s)
    ensures Ok(Next(s, Receive(i)))
  {
    if i < |s.watchers| && s.watchers[i].taken < |s.watchers[i].sent| {
      ReceiveOk(s.watchers[i], s.delivered, s.db.log);
      ReplaceOk(s, i, Next(s, Receive(i)).watchers[i]);
    }
  }

  lemma {:induction false} StepsOk(s: System, steps: seq<Step>)
    requires Ok(s)
    ensures Ok(Steps(s, steps))
    decreases |steps|
  {
    if steps == [] {
    } else {
      match steps[0] {
        case Do(c) =>
          if c.Drain? { DrainOk(s); } else if !c.Restart? { DoOk(s, c); }
        case Register(p) => RegisterStepOk(s, p);
        case TakeList(i) => TakeListStepOk(s, i);
        case Replay(i) => ReplayStepOk(s, i);
        case Receive(i) => ReceiveStepOk(s, i);
      }
      StepsOk(Next(s, steps[0]), steps[1..]);
    }
  }

  // ---------- the promises ----------

  /** A freshly opened store: everything recovered is queued, nobody watches yet. */
  ghost predicate Opened(s: System) {
    Live(s.db) && s.db.queue == Events(s.db.log) && s.delivered == [] && s.watchers == []
  }

  /** Changes fanned out, then those still queued, are always the applied operations in order. */
  lemma ChangesComeInOrder(s: System, steps: seq<Step>)
    requires Opened(s)
    ensures var r := Steps(s, steps); r.delivered + r.db.queue == Events(r.db.log)
  {
    StepsOk(s, steps);
  }

  /** Each watcher's changes are an in-order selection of those under its prefix since it registered. */
  lemma {:induction false} WatcherSeesSubsequence(s: System, steps: seq<Step>, i: nat)
    requires Opened(s) && i < |Steps(s, steps).watchers|
    ensures var r := Steps(s, steps); var w := r.watchers[i];
      && w.since <= |r.delivered| <= |r.db.log|
      && IsSubsequence(Changes(w.sent), Relevant(Events(r.db.log)[w.since..|r.delivered|], w.prefix))
      && (!w.missed ==> Changes(w.sent) == Relevant(Events(r.db.log)[w.since..|r.delivered|], w.prefix))
  {
    StepsOk(s, steps);
    var r := Steps(s, steps);
    assert Events(r.db.log)[r.watchers[i].since..|r.delivered|] == r.delivered[r.watchers[i].since..];
  }

  /**
    Changes that the List already contains may be delivered again, from any point before it:
    applying them a second time makes no difference.
   */
  lemma ReplayIsHarmless(evs: seq<Entry>, since: nat, at: nat, key: string)
    requires since <= at <= |evs|
    ensures LastFor(evs, key) ==
      if LastFor(evs[since..], key).Some? then LastFor(evs[since..], key) else LastFor(evs[..at], key)
  {
    assert evs == evs[..since] + evs[since..] && evs == evs[..at] + evs[at..];
    LastForSplit(evs[..since], evs[since..], key);
    LastForSplit(evs[..at], evs[at..], key);
    assert evs[since..] == evs[since..at] + evs[at..];
    LastForSplit(evs[since..at], evs[at..], key);
  }

  lemma StateAt(log: seq<LogEntry>, at: nat, key: string)
    requires at <= |log|
    ensures Lookup(StateOf(log[..at]), key) ==
      match LastFor(Events(log)[..at], key) case None => None case Some(e) => Present(e)
  {
    StateIsFold(log[..at]);
    assert Events(log[..at]) == Events(log)[..at];
    FoldAt(map[], Events(log)[..at], key);
  }

  lemma PrefixWellKeyed(log: seq<LogEntry>)
    ensures WellKeyed(StateOf(log))
  {
    forall k | k in StateOf(log) ensures StateOf(log)[k].key == k && !StateOf(log)[k].deleted {
      StateWellKeyed(log, k);
    }
  }

  /** What the right view says of a key: its last change if there was one, else the List. */
  lemma IdealAt(r: System, w: Watcher, key: string)
    requires Ok(r) && r.db.queue == [] && w in r.watchers && !w.missed && w.listing.Some?
    ensures Lookup(Under(r.db.entries, w.prefix), key) ==
      match LastFor(Changes(w.sent), key)
      case Some(e) => Present(e)
      case None => LastFor(w.listing.value, key)
  {
    var evs := Events(r.db.log);
    assert r.delivered == evs;
    assert r.db.log[..|r.db.log|] == r.db.log && evs[..|evs|] == evs;
    StateAt(r.db.log, |r.db.log|, key);
    StateAt(r.db.log, w.listedAt, key);
    PrefixWellKeyed(r.db.log[..w.listedAt]);
    ListLookup(StateOf(r.db.log[..w.listedAt]), w.prefix, key);
    LastForRelevant(evs[w.since..], w.prefix, key);
    ReplayIsHarmless(evs, w.since, w.listedAt, key);
  }

  /**
    A watcher that never overflowed, once the queue is drained: folding its changes over the List
    it was given is exactly the current state under its prefix, whatever happened between
    registering it, listing and draining.
   */
  lemma {:induction false} WatcherConverges(s: System, steps: seq<Step>, i: nat)
    requires Opened(s) && i < |Steps(s, steps).watchers| && Steps(s, steps).db.queue == []
    requires !Steps(s, steps).watchers[i].missed && Steps(s, steps).watchers[i].listing.Some?
    ensures var r := Steps(s, steps); var w := r.watchers[i];
      var view := Fold(map[], w.listing.value + Changes(w.sent));
      view == Under(r.db.entries, w.prefix) && ListOf(view, w.prefix) == ListOf(r.db.entries, w.prefix)
  {
    StepsOk(s, steps);
    var r := Steps(s, steps);
    var w := r.watchers[i];
    var view, want := Fold(map[], w.listing.value + Changes(w.sent)), Under(r.db.entries, w.prefix);
    forall key ensures Lookup(view, key) == Lookup(want, key) {
      IdealAt(r, w, key);
      FoldAt(map[], w.listing.value + Changes(w.sent), key);
      LastForSplit(w.listing.value, Changes(w.sent), key);
      ListedArePresent(r, w, key);
    }
    MapsAgree(view, want);
    ListOfUnder(r.db.entries, w.prefix);
  }

  lemma ListedArePresent(r: System, w: Watcher, key: string)
    requires Ok(r) && w in r.watchers && w.listing.Some?
    ensures LastFor(w.listing.value, key).Some? ==> !LastFor(w.listing.value, key).value.deleted
  {
    PrefixWellKeyed(r.db.log[..w.listedAt]);
    ListLookup(StateOf(r.db.log[..w.listedAt]), w.prefix, key);
  }

  lemma MapsAgree(a: map<string, Entry>, b: map<string, Entry>)
    requires forall k :: Lookup(a, k) == Lookup(b, k)
    ensures a == b
  {
    forall k ensures (k in a <==> k in b) && (k in a ==> a[k] == b[k]) { assert Lookup(a, k) == Lookup(b, k); }
  }

  lemma ListOfUnder(m: map<string, Entry>, prefix: string)
    ensures ListOf(Under(m, prefix), prefix) == ListOf(m, prefix)
  {
    var a, b := set k | k in m && HasPrefix(k, prefix), set k | k in Under(m, prefix) && HasPrefix(k, prefix);
    assert a == b;
  }

  // ---------- when a watcher misses something ----------

  /** Items in the channel that the client has not taken. */
  function Unread(w: Watcher): int {
    |w.sent| - w.taken
  }

  function AsChanges(evs: seq<Entry>): seq<Item> {
    seq(|evs|, i requires 0 <= i < |evs| => Change(evs[i]))
  }

  /** How many of n further changes the channel still takes. */
  function Taken(w: Watcher, n: nat): nat
    requires Unread(w) <= 256
  {
    Min(256 - Unread(w), n)
  }

  lemma FanOneExactly(w: Watcher, ev: Entry)
    requires 0 <= Unread(w) <= 256
    ensures FanOne(w, ev) ==
      if !HasPrefix(ev.key, w.prefix) then w
      else if Unread(w) < 256 then w.(sent := w.sent + [Change(ev)])
      else w.(missed := true)
  {
  }

  /**
    A drain adds to a channel exactly as many of the changes under its prefix, from the first on, as
    there is room for among 256 unread items, and the watcher misses something exactly when they do
    not all fit.
   */
  lemma {:induction false} FanAllExactly(w: Watcher, evs: seq<Entry>)
    requires 0 <= Unread(w) <= 256
    ensures var mine := Relevant(evs, w.prefix);
      FanAll(w, evs) == w.(sent := w.sent + AsChanges(mine[..Taken(w, |mine|)]),
                           missed := w.missed || Unread(w) + |mine| > 256)
    decreases |evs|
  {
    var mine := Relevant(evs, w.prefix);
    if evs == [] {
      assert w.sent + AsChanges([]) == w.sent;
    } else {
      var init, ev := evs[..|evs| - 1], evs[|evs| - 1];
      var before := Relevant(init, w.prefix);
      FanAllExactly(w, init);
      var k := Taken(w, |before|);
      var part := FanAll(w, init);
      FanOneExactly(part, ev);
      if !HasPrefix(ev.key, w.prefix) {
      } else if |before| < 256 - Unread(w) {
        assert AsChanges(mine[..Taken(w, |mine|)]) == AsChanges(before[..k]) + [Change(ev)];
      } else {
        assert mine[..Taken(w, |mine|)] == before[..k];
      }
    }
  }

  /** A drain that finds more for the watcher than its channel has room for. */
  predicate Overflows(s: System, step: Step, i: nat) {
    step == Do(Drain) && i < |s.watchers| &&
    Unread(s.watchers[i]) + |Relevant(s.db.queue, s.watchers[i].prefix)| > 256
  }

  ghost predicate EverOverflows(s: System, steps: seq<Step>, i: nat)
    decreases |steps|
  {
    steps != [] && (Overflows(s, steps[0], i) || EverOverflows(Next(s, steps[0]), steps[1..], i))
  }

  predicate Missed(s: System, i: nat) {
    i < |s.watchers| && s.watchers[i].missed
  }

  lemma MissedStep(s: System, step: Step, i: nat)
    requires Ok(s)
    ensures Missed(Next(s, step), i) <==> Missed(s, i) || Overflows(s, step, i)
    ensures |Next(s, step).watchers| >= |s.watchers|
  {
    if step == Do(Drain) && i < |s.watchers| { FanAllExactly(s.watchers[i], s.db.queue); }
  }

  lemma {:induction false} MissedFrom(s: System, steps: seq<Step>, i: nat)
    requires Ok(s)
    ensures Missed(Steps(s, steps), i) <==> Missed(s, i) || EverOverflows(s, steps, i)
    decreases |steps|
  {
    if steps == [] {
    } else {
      MissedStep(s, steps[0], i);
      assert Steps(s, [steps[0]]) == Next(s, steps[0]) by { assert [steps[0]][1..] == []; }
      StepsOk(s, [steps[0]]);
      MissedFrom(Next(s, steps[0]), steps[1..], i);
    }
  }

  /**
    Over every run, a watcher has missed something if and only if some drain found more changes for it
    than fit beside what its client had left unread among 256 items.
   */
  lemma MissesIffOverflow(s: System, steps: seq<Step>, i: nat)
    requires Opened(s) && i < |Steps(s, steps).watchers|
    ensures Steps(s, steps).watchers[i].missed <==> EverOverflows(s, steps, i)
  {
    MissedFrom(s, steps, i);
  }

  /** A client takes one item at a time. */
  lemma ReceiveTakesOne(s: System, i: nat)
    requires i < |s.watchers|
    ensures var (w, r) := (s.watchers[i], Next(s, Receive(i)));
      && |r.watchers| == |s.watchers| && r == s.(watchers := s.watchers[i := r.watchers[i]])
      && r.watchers[i] == w.(taken := if Unread(w) > 0 then w.taken + 1 else w.taken)
  {
    assert s.watchers[i := s.watchers[i]] == s.watchers;
  }

  /** The replay goroutine sends the next listed entry whenever fewer than 256 items are unread, and else waits. */
  lemma ReplaySendsIff(s: System, i: nat)
    requires i < |s.watchers| && s.watchers[i].listing.Some?
    ensures var w := s.watchers[i];
      Next(s, Replay(i)) ==
        if w.replayed < |w.listing.value| && Unread(w) < 256 then
          s.(watchers := s.watchers[i := w.(sent := w.sent + [Listed(w.listing.value[w.replayed])],
                                            replayed := w.replayed + 1)])
        else s
  {
  }

  // ---------- a client that folds the stream as it comes ----------

  /** The last item about a key was a replayed one. */
  predicate EndsListed(items: seq<Item>, key: string) {
    items != [] &&
    (if items[|items| - 1].entry.key == key then items[|items| - 1].Listed?
     else EndsListed(items[..|items| - 1], key))
  }

  lemma {:induction false} LastItem(items: seq<Item>, key: string)
    ensures LastFor(Entries(items), key) ==
      if EndsListed(items, key) then LastFor(Listings(items), key) else LastFor(Changes(items), key)
    ensures EndsListed(items, key) ==> LastFor(Listings(items), key).Some?
  {
    if items == [] {
    } else {
      var init := items[..|items| - 1];
      LastItem(init, key);
      assert Entries(items)[..|items| - 1] == Entries(init);
    }
  }

  /** The replay goroutine delivered a listed entry after a change that replaced it. */
  predicate Overtaken(items: seq<Item>, key: string) {
    EndsListed(items, key) && LastFor(Changes(items), key).Some? &&
    Present(LastFor(Changes(items), key).value) != LastFor(Listings(items), key)
  }

  /**
    A client that just folds the channel holds the current state if and only if the replay
    goroutine did not overtake a change: the code does nothing to rule that out.
   */
  lemma StreamViewCurrentIff(s: System, steps: seq<Step>, i: nat)
    requires Opened(s) && AtRest(Steps(s, steps), i)
    ensures var r := Steps(s, steps); var w := r.watchers[i];
      Fold(map[], Entries(w.sent)) == Under(r.db.entries, w.prefix) <==>
      forall key :: !Overtaken(w.sent, key)
  {
    StepsOk(s, steps);
    var r := Steps(s, steps);
    var w := r.watchers[i];
    assert w.listing.value[..w.replayed] == w.listing.value;
    var view, want := Fold(map[], Entries(w.sent)), Under(r.db.entries, w.prefix);
    forall key ensures Lookup(view, key) == Lookup(want, key) <==> !Overtaken(w.sent, key) {
      IdealAt(r, w, key);
      ListedArePresent(r, w, key);
      FoldAt(map[], Entries(w.sent), key);
      LastItem(w.sent, key);
      if LastFor(Changes(w.sent), key).None? && !EndsListed(w.sent, key) { NotListed(w.sent, key); }
    }
    if forall key :: !Overtaken(w.sent, key) { MapsAgree(view, want); }
  }

  lemma {:induction false} NotListed(items: seq<Item>, key: string)
    requires !EndsListed(items, key) && LastFor(Changes(items), key).None?
    ensures LastFor(Listings(items), key).None?
  {
    if items == [] {
    } else {
      NotListed(items[..|items| - 1], key);
    }
  }

  lemma ListOfOne(m: map<string, Entry>, key: string)
    requires m.Keys == {key}
    ensures ListOf(m, "") == [m[key]]
  {
    var keys := set k | k in m && HasPrefix(k, "");
    assert keys == {key} by {
      forall k | k in m ensures HasPrefix(k, "") { assert k[..0] == []; }
    }
    AscendingIsUnique(Sorted(keys), [key]);
  }

  lemma FanTwo(w: Watcher, a: Entry, b: Entry)
    requires w.prefix == "" && w.sent == [] && w.taken == 0
    ensures FanAll(w, [a, b]) == w.(sent := [Change(a), Change(b)])
  {
    assert a.key[..0] == [] && b.key[..0] == [];
    assert [a, b][..1] == [a] && [a][..0] == [];
    assert FanAll(w, [a]) == w.(sent := [Change(a)]);
  }

  lemma OvertakenItems(a: Entry, b: Entry)
    requires a.key == b.key && !a.deleted && a != b
    ensures Overtaken([Change(a), Change(b), Listed(a)], a.key)
  {
    var items := [Change(a), Change(b), Listed(a)];
    assert items[..2] == [Change(a), Change(b)] && items[..2][..1] == [Change(a)];
    assert Changes([Change(a)]) == [a] && Changes(items[..2]) == [a, b];
    assert Listings([Change(a)]) == [] && Listings(items[..2]) == [];
    assert Changes(items) == [a, b] && Listings(items) == [a];
  }

  lemma StoreWithOneKey() returns (db: Db, one: Entry)
    ensures Live(db) && db.queue == Events(db.log) == [one]
    ensures db.entries == map["k" := one] && one == Entry("k", "1", 1, false)
  {
    FirstPut("k", "1");
    db := Exec(Blank([], None), Put("k", "1"));
    one := db.entries["k"];
  }

  lemma OverwriteOneKey(db: Db, one: Entry) returns (two: Entry)
    requires Live(db) && db.queue == [one] && db.entries == map["k" := one] && one.version == 1
    ensures Exec(db, Put("k", "2")).queue == [one, two] && two == Entry("k", "2", 2, false)
  {
    CommitSpelledOut(db, WriteEntry("k", "2", 2));
    two := Entry("k", "2", 2, false);
  }

  /** The channel is at rest: nothing is queued, nothing was missed, the List is fully replayed. */
  ghost predicate AtRest(r: System, i: nat) {
    && i < |r.watchers| && r.db.queue == []
    && !r.watchers[i].missed && r.watchers[i].listing.Some?
    && r.watchers[i].replayed == |r.watchers[i].listing.value|
  }

  /** A listed watcher, an overwrite, the draining of the queue, and only then the replay. */
  lemma DrainBeforeReplay(s: System, one: Entry, two: Entry)
    requires |s.watchers| == 1 && Exec(s.db, Put("k", "2")).queue == [one, two]
    requires one == Entry("k", "1", 1, false) && two == Entry("k", "2", 2, false)
    requires var w := s.watchers[0];
      w.prefix == "" && w.sent == [] && w.taken == 0 && !w.missed && w.listing == Some([one]) && w.replayed == 0
    ensures var r := Next(Next(Next(s, Do(Put("k", "2"))), Do(Drain)), Replay(0));
      AtRest(r, 0) && Overtaken(r.watchers[0].sent, "k")
  {
    var s3 := Next(s, Do(Put("k", "2")));
    FanTwo(s3.watchers[0], one, two);
    var s5 := Next(Next(s3, Do(Drain)), Replay(0));
    assert s5.watchers[0].sent == [Change(one), Change(two), Listed(one)];
    assert one.value[0] == '1' && two.value[0] == '2';
    OvertakenItems(one, two);
  }

  lemma OvertakingRun() returns (s: System, steps: seq<Step>)
    ensures Opened(s) && AtRest(Steps(s, steps), 0)
    ensures Overtaken(Steps(s, steps).watchers[0].sent, "k")
  {
    var db, one := StoreWithOneKey();
    var two := OverwriteOneKey(db, one);
    s := System(db, [], []);
    ListOfOne(db.entries, "k");
    var s1 := Next(s, Register(""));
    var s2 := Next(s1, TakeList(0));
    var s3 := Next(s2, Do(Put("k", "2")));
    DrainBeforeReplay(s2, one, two);
    steps := Prepend(Next(s3, Do(Drain)), Replay(0), []);
    steps := Prepend(s3, Do(Drain), steps);
    steps := Prepend(s2, Do(Put("k", "2")), steps);
    steps := Prepend(s1, TakeList(0), steps);
    steps := Prepend(s, Register(""), steps);
  }

  /** It does happen: told of "2", the client is then handed "1" again and, all at rest, keeps it. */
  lemma ReplayCanOvertake() returns (s: System, steps: seq<Step>)
    ensures Opened(s) && AtRest(Steps(s, steps), 0)
    ensures var r := Steps(s, steps); var w := r.watchers[0];
      Overtaken(w.sent, "k") && Fold(map[], Entries(w.sent)) != Under(r.db.entries, w.prefix)
  {
    s, steps := OvertakingRun();
    StreamViewCurrentIff(s, steps, 0);
  }

  lemma Prepend(s: System, step: Step, rest: seq<Step>) returns (all: seq<Step>)
    ensures Steps(s, all) == Steps(Next(s, step), rest)
  {
    all := [step] + rest;
    assert all[1..] == rest;
  }
}
