/**
  The store as it runs (internal/primitives/db/raft.go): one object whose methods update the log,
  the journal, the entries, the queue of changes and the watchers.  Every method is proved to
  take the steps of the Store and Watching models, so their results hold of it.
 */
module Raft {
  import opened Prelude
  import opened Ordering
  import opened Store
  import opened Watching

  class Raft {
    var log: seq<LogEntry>
    var currentTerm: nat
    var commitIndex: nat
    var lastApplied: nat
    var entries: map<string, Entry>
    var version: nat
    var applyQueue: seq<Entry>
    var watchers: seq<Watcher>
    var journal: seq<LogEntry>
    var snapFile: Option<Snap>
    var delivered: seq<Entry>  // history; Watch stamps its length on the new watcher

    function View(): (db: Db)
      reads this
    {
      Db(log, currentTerm, commitIndex, lastApplied, entries, version, applyQueue, journal, snapFile)
    }

    ghost function Sys(): (s: System)
      reads this
    {
      System(View(), delivered, watchers)
    }

    /** openRaft and recover: replay the journal, then let a snapshot file replace the state. */
    constructor Open(journal: seq<LogEntry>, snap: Option<Snap>)
      ensures View() == Recover(journal, snap) && delivered == [] && watchers == []
    {
      log, currentTerm, commitIndex, lastApplied := [], 0, 0, 0;
      entries, version, applyQueue := map[], 0, [];
      watchers, delivered := [], [];
      this.journal, snapFile := journal, snap;
      new;
      for i := 0 to |journal|
        invariant View() == Rebuild(Blank(journal, snap), journal[..i])
        invariant delivered == [] && watchers == [] && fresh(this)
      {
        assert journal[..i + 1][..i] == journal[..i];
        ReplayEntry(journal[i]);
      }
      assert journal[..|journal|] == journal;
      if snap.Some? {
        entries := snap.value.state;
        version := snap.value.index;
        commitIndex := snap.value.index;
        lastApplied := snap.value.index;
      }
    }

    /** With one peer, a journaled entry counts as committed. */
    method ReplayEntry(e: LogEntry)
      modifies this
      ensures View() == ReplayOne(old(View()), e)
      ensures delivered == old(delivered) && watchers == old(watchers)
    {
      log := log + [e];
      if e.term > currentTerm { currentTerm := e.term; }
      if e.index > commitIndex { commitIndex := e.index; }
      ApplyLocked(e);
    }

    method AppendEntry(e: LogEntry) returns (stamped: LogEntry)
      modifies this
      ensures stamped == Stamp(old(View()), e) && View() == Append(old(View()), e)
      ensures delivered == old(delivered) && watchers == old(watchers)
    {
      if currentTerm == 0 { currentTerm := 1; }
      stamped := e.(index := |log| + 1, term := currentTerm);
      log := log + [stamped];
      journal := journal + [stamped];
    }

    method ApplyLocked(e: LogEntry)
      modifies this
      ensures View() == Apply(old(View()), e)
      ensures delivered == old(delivered) && watchers == old(watchers)
    {
      if e.index <= lastApplied { return; }
      lastApplied := e.index;
      var ev;
      match e.kind {
        case PutKind =>
          entries := entries[e.key := Entry(e.key, e.value, e.version, false)];
          ev := entries[e.key];
        case DelKind =>
          entries := entries - {e.key};
          ev := Entry(e.key, [], e.version, true);
      }
      version := version + 1;
      applyQueue := applyQueue + [ev];
    }

    /** Offers a change to every watcher, dropping it where the channel is full. */
    method Fanout(ev: Entry)
      modifies this`watchers
      ensures |watchers| == |old(watchers)|
      ensures forall i :: 0 <= i < |watchers| ==> watchers[i] == FanOne(old(watchers)[i], ev)
    {
      for i := 0 to |watchers|
        invariant |watchers| == |old(watchers)|
        invariant forall j :: 0 <= j < i ==> watchers[j] == FanOne(old(watchers)[j], ev)
        invariant forall j :: i <= j < |watchers| ==> watchers[j] == old(watchers)[j]
      {
        var w := watchers[i];
        if HasPrefix(ev.key, w.prefix) {
          if |w.sent| - w.taken < CAPACITY {
            watchers := watchers[i := w.(sent := w.sent + [Change(ev)])];
          } else {
            watchers := watchers[i := w.(missed := true)];
          }
        }
      }
    }

    method ApplyFromQueue()
      modifies this
      ensures Sys() == Next(old(Sys()), Do(Drain))
    {
      var evs := applyQueue;
      applyQueue := [];
      for i := 0 to |evs|
        invariant |watchers| == |old(watchers)|
        invariant forall j :: 0 <= j < |watchers| ==> watchers[j] == FanAll(old(watchers)[j], evs[..i])
        invariant View() == old(View()).(queue := []) && delivered == old(delivered)
      {
        assert evs[..i + 1][..i] == evs[..i];
        Fanout(evs[i]);
      }
      assert evs[..|evs|] == evs;
      delivered := delivered + evs;
    }

    /** With one peer: commit, apply, fan out. */
    method Replicate(e: LogEntry)
      modifies this
      ensures Sys() == Next(old(Sys()).(db := Apply(old(View()).(commitIndex := e.index), e)), Do(Drain))
    {
      commitIndex := e.index;
      ApplyLocked(e);
      ApplyFromQueue();
    }

    method Get(key: string) returns (r: Option<Entry>)
      ensures r == Lookup(entries, key)
    {
      if key in entries { return Some(entries[key]); }
      return None;
    }

    method PutKey(key: string, value: Bytes) returns (r: Reply)
      modifies this
      ensures Sys() == Next(Next(old(Sys()), Do(Put(key, value))), Do(Drain))
      ensures r == Answer(old(View()), Put(key, value))
      ensures Live(old(View())) ==>
        var e := Entry(key, value, Current(old(entries), key) + 1, false);
        r == Stored(Some(e)) && entries == old(entries)[key := e]
    {
      if Live(View()) { PutReplies(View(), key, value); }
      var v := 1;
      if key in entries { v := entries[key].version + 1; }
      var e := AppendEntry(WriteEntry(key, value, v));
      Replicate(e);
      var got := Get(key);
      r := Stored(got);
    }

    method DeleteKey(key: string)
      modifies this
      ensures Sys() == Next(Next(old(Sys()), Do(Delete(key))), Do(Drain))
      ensures Live(old(View())) ==> entries == old(entries) - {key}
    {
      if Live(View()) { DeleteRemoves(View(), key); }
      var e := AppendEntry(EraseEntry(key));
      Replicate(e);
    }

    method CompareAndSwap(key: string, value: Bytes, expected: nat) returns (r: Reply)
      modifies this
      ensures r == Answer(old(View()), Cas(key, value, expected))
      ensures r.Mismatch? ==> Sys() == old(Sys())
      ensures !r.Mismatch? ==> Sys() == Next(Next(old(Sys()), Do(Cas(key, value, expected))), Do(Drain))
      ensures Live(old(View())) && Counted(old(View()), key) ==>
        var e := Entry(key, value, expected + 1, false);
        if Current(old(entries), key) == expected then r == Stored(Some(e)) && entries == old(entries)[key := e]
        else r == Mismatch
    {
      if Live(View()) && Counted(View(), key) { SwapReplies(View(), key, value, expected); }
      var ok := key in entries;
      if ok && entries[key].version != expected { return Mismatch; }
      if !ok && expected != 0 { return Mismatch; }
      var v := expected + 1;
      if !ok { v := 1; }
      var e := AppendEntry(WriteEntry(key, value, v));
      Replicate(e);
      var got := Get(key);
      r := Stored(got);
    }

    method List(prefix: string) returns (es: seq<Entry>)
      ensures es == ListOf(entries, prefix)
    {
      var all := WalkKeys(entries);
      var keys := SelectKeys(all, prefix);
      assert Elements(keys) == set k | k in entries && HasPrefix(k, prefix) by {
        assert forall k :: k in Elements(all) <==> k in entries;
      }
      var sorted := SortKeys(keys);
      assert forall i :: 0 <= i < |sorted| ==> sorted[i] in Elements(sorted);
      assert |ListOf(entries, prefix)| == |sorted|;
      es := [];
      for i := 0 to |sorted|
        invariant es == ListOf(entries, prefix)[..i]
      {
        es := es + [entries[sorted[i]]];
      }
    }

    /** Registers a watcher and takes the List it will be sent. */
    method Watch(prefix: string) returns (id: nat)
      modifies this
      ensures id == |old(watchers)|
      ensures Sys() == Next(Next(old(Sys()), Register(prefix)), TakeList(id))
    {
      id := |watchers|;
      var w := NewWatcher(prefix, |delivered|);
      var es := List(prefix);
      watchers := watchers + [w.(listing := Some(es), listedAt := |log|)];
    }

    /** Writes snap.json and empties the journal. */
    method Snapshot()
      modifies this
      ensures Sys() == Next(old(Sys()), Do(TakeSnapshot))
    {
      snapFile := Some(Snap(currentTerm, version, entries));
      journal := [];
    }
  }
}
