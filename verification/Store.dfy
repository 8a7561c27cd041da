/**
  The journaled, versioned key-value store (internal/primitives/db/raft.go) with one peer.

  A call of Put, Delete or CompareAndSwap is one atomic step whose journal write succeeds.
  `Db` holds the memory image and the two files on disk; `Exec` is one command.
 */
module Store {
  import opened Prelude
  import opened Versioning

  type Bytes = string

  datatype Entry = Entry(key: string, value: Bytes, version: nat, deleted: bool)

  datatype Kind = PutKind | DelKind

  datatype LogEntry =
    LogEntry(index: nat, term: nat, kind: Kind, key: string, value: Bytes, version: nat)

  datatype Snap = Snap(term: nat, index: nat, state: map<string, Entry>)

  datatype Db = Db(
    log: seq<LogEntry>, currentTerm: nat, commitIndex: nat, lastApplied: nat,
    entries: map<string, Entry>, version: nat,
    queue: seq<Entry>,                                  // applied, not yet fanned out
    journal: seq<LogEntry>, snap: Option<Snap>)         // on disk

  datatype Command =
    | Put(key: string, value: Bytes)
    | Delete(key: string)
    | Cas(key: string, value: Bytes, expected: nat)
    | Campaign      // the election timer fires
    | TakeSnapshot
    | Drain         // queued changes are fanned out
    | Restart       // close, then open from disk

  datatype Reply = Stored(entry: Option<Entry>) | Deleted | Mismatch | Nothing

  // ---------- state machine ----------

  function Lookup(entries: map<string, Entry>, key: string): Option<Entry> {
    if key in entries then Some(entries[key]) else None
  }

  function VersionAt(entries: map<string, Entry>, key: string): Option<nat> {
    if key in entries then Some(entries[key].version) else None
  }

  /** The change a log entry makes, as watchers see it. */
  function EventOf(e: LogEntry): Entry {
    match e.kind
    case PutKind => Entry(e.key, e.value, e.version, false)
    case DelKind => Entry(e.key, [], e.version, true)
  }

  function ApplyEvent(m: map<string, Entry>, ev: Entry): map<string, Entry> {
    if ev.deleted then m - {ev.key} else m[ev.key := ev]
  }

  /** What a log amounts to. */
  function StateOf(log: seq<LogEntry>): map<string, Entry> {
    if log == [] then map[]
    else ApplyEvent(StateOf(log[..|log| - 1]), EventOf(log[|log| - 1]))
  }

  function Events(log: seq<LogEntry>): seq<Entry> {
    seq(|log|, i requires 0 <= i < |log| => EventOf(log[i]))
  }

  function Stamp(db: Db, e: LogEntry): LogEntry {
    e.(index := |db.log| + 1, term := if db.currentTerm == 0 then 1 else db.currentTerm)
  }

  function Append(db: Db, e: LogEntry): Db {
    var e' := Stamp(db, e);
    db.(currentTerm := e'.term, log := db.log + [e'], journal := db.journal + [e'])
  }

  /** An entry at or below the last applied index is skipped. */
  function Apply(db: Db, e: LogEntry): Db {
    if e.index <= db.lastApplied then db
    else
      var entries := match e.kind
        case PutKind => db.entries[e.key := Entry(e.key, e.value, e.version, false)]
        case DelKind => db.entries - {e.key};
      var ev := match e.kind
        case PutKind => entries[e.key]
        case DelKind => Entry(e.key, [], e.version, true);
      db.(lastApplied := e.index, entries := entries, version := db.version + 1,
          queue := db.queue + [ev])
  }

  function Commit(db: Db, e: LogEntry): Db {
    var e' := Stamp(db, e);
    Apply(Append(db, e).(commitIndex := e'.index), e')
  }

  function WriteEntry(key: string, value: Bytes, version: nat): LogEntry {
    LogEntry(0, 0, PutKind, key, value, version)
  }

  function EraseEntry(key: string): LogEntry {
    LogEntry(0, 0, DelKind, key, [], 0)
  }

  // ---------- recovery ----------

  function Blank(journal: seq<LogEntry>, snap: Option<Snap>): Db {
    Db([], 0, 0, 0, map[], 0, [], journal, snap)
  }

  function ReplayOne(db: Db, e: LogEntry): Db {
    Apply(db.(log := db.log + [e],
              currentTerm := if e.term > db.currentTerm then e.term else db.currentTerm,
              commitIndex := if e.index > db.commitIndex then e.index else db.commitIndex), e)
  }

  function Rebuild(db: Db, journal: seq<LogEntry>): Db {
    if journal == [] then db
    else ReplayOne(Rebuild(db, journal[..|journal| - 1]), journal[|journal| - 1])
  }

  /** The journal is replayed first; a snapshot file, if there is one, then replaces the state. */
  function Recover(journal: seq<LogEntry>, snap: Option<Snap>): Db {
    var db := Rebuild(Blank(journal, snap), journal);
    match snap
    case None => db
    case Some(sn) => db.(entries := sn.state, version := sn.index,
                         commitIndex := sn.index, lastApplied := sn.index)
  }

  // ---------- commands ----------

  /** The log entry a command appends, if it appends one. */
  function Intent(db: Db, c: Command): Option<LogEntry> {
    match c
    case Put(k, v) => Some(WriteEntry(k, v, NextVersion(VersionAt(db.entries, k))))
    case Delete(k) => Some(EraseEntry(k))
    case Cas(k, v, expected) =>
      if CasMatches(VersionAt(db.entries, k), expected) then Some(WriteEntry(k, v, expected + 1)) else None
    case _ => None
  }

  function Exec(db: Db, c: Command): Db {
    match c
    case Campaign => db.(currentTerm := db.currentTerm + 1)
    case TakeSnapshot =>
      db.(snap := Some(Snap(db.currentTerm, db.version, db.entries)), journal := [])
    case Drain => db.(queue := [])
    case Restart => Recover(db.journal, db.snap)
    case _ =>
      var e := Intent(db, c);
      if e.Some? then Commit(db, e.value) else db
  }

  function Answer(db: Db, c: Command): Reply {
    match c
    case Put(k, _) => Stored(Lookup(Exec(db, c).entries, k))
    case Delete(_) => Deleted
    case Cas(k, _, _) => if Intent(db, c).Some? then Stored(Lookup(Exec(db, c).entries, k)) else Mismatch
    case _ => Nothing
  }

  function Run(db: Db, cs: seq<Command>): Db
    decreases |cs|
  {
    if cs == [] then db else Run(Exec(db, cs[0]), cs[1..])
  }

  /** Replies to the clients' commands of a run, in order. */
  function Replies(db: Db, cs: seq<Command>): seq<Reply>
    decreases |cs|
  {
    if cs == [] then []
    else if cs[0].Restart? then Replies(Exec(db, cs[0]), cs[1..])
    else [Answer(db, cs[0])] + Replies(Exec(db, cs[0]), cs[1..])
  }

  // ---------- the invariant of every run ----------

  predicate WellIndexed(log: seq<LogEntry>) {
    && (forall i :: 0 <= i < |log| ==> log[i].index == i + 1)
    && (forall i, j :: 0 <= i < j < |log| ==> log[i].term <= log[j].term)
  }

  function LastTerm(log: seq<LogEntry>): nat {
    if log == [] then 0 else log[|log| - 1].term
  }

  /** The disk holds the whole log: as a journal, or as a snapshot and the journal after it. */
  predicate OnDisk(db: Db) {
    match db.snap
    case None => db.journal == db.log
    case Some(sn) =>
      && sn.index <= |db.log|
      && db.journal == db.log[sn.index..]
      && sn.state == StateOf(db.log[..sn.index])
  }

  predicate Live(db: Db) {
    && |db.log| == db.lastApplied == db.commitIndex == db.version
    && WellIndexed(db.log) && LastTerm(db.log) <= db.currentTerm
    && db.entries == StateOf(db.log)
    && OnDisk(db)
  }

  /** A commit, spelled out: the guard lets it through unless the log is too short. */
  lemma CommitSpelledOut(db: Db, e: LogEntry)
    ensures var (c, e') := (Commit(db, e), Stamp(db, e));
      && c.log == db.log + [e'] && c.journal == db.journal + [e']
      && c.commitIndex == |db.log| + 1 && c.currentTerm == e'.term && c.snap == db.snap
      && (|db.log| < db.lastApplied ==>
            c.entries == db.entries && c.version == db.version &&
            c.lastApplied == db.lastApplied && c.queue == db.queue)
      && (|db.log| >= db.lastApplied ==>
            && c.entries == ApplyEvent(db.entries, EventOf(e')) && c.version == db.version + 1
            && c.lastApplied == |db.log| + 1 && c.queue == db.queue + [EventOf(e')])
  {
  }

  /** An appended entry gets the next index and the present term, which a first write raises to 1. */
  lemma AppendStamps(db: Db, e: LogEntry)
    ensures Append(db, e).log ==
      db.log + [LogEntry(|db.log| + 1, Max(1, db.currentTerm), e.kind, e.key, e.value, e.version)]
    ensures Append(db, e).currentTerm == Max(1, db.currentTerm)
  {
  }

  lemma AppendToIndexed(log: seq<LogEntry>, e: LogEntry)
    requires WellIndexed(log) && e.index == |log| + 1 && LastTerm(log) <= e.term
    ensures WellIndexed(log + [e])
  {
    forall i | 0 <= i < |log| ensures log[i].term <= e.term {
      if i < |log| - 1 { assert log[i].term <= log[|log| - 1].term; }
    }
  }

  lemma AppendToLog(log: seq<LogEntry>, e: LogEntry)
    requires WellIndexed(log) && e.index == |log| + 1 && LastTerm(log) <= e.term
    ensures WellIndexed(log + [e])
    ensures StateOf(log + [e]) == ApplyEvent(StateOf(log), EventOf(e))
  {
    AppendToIndexed(log, e);
    assert (log + [e])[..|log|] == log;
  }

  lemma AppendToDisk(db: Db, next: Db, e: LogEntry)
    requires OnDisk(db)
    requires next.log == db.log + [e] && next.journal == db.journal + [e] && next.snap == db.snap
    ensures OnDisk(next)
  {
    if db.snap.Some? {
      assert next.log[..db.snap.value.index] == db.log[..db.snap.value.index];
      assert next.log[db.snap.value.index..] == db.log[db.snap.value.index..] + [e];
    }
  }

  lemma CommitKeepsLive(db: Db, e: LogEntry)
    requires Live(db)
    ensures Live(Commit(db, e))
  {
    CommitSpelledOut(db, e);
    AppendToLog(db.log, Stamp(db, e));
    AppendToDisk(db, Commit(db, e), Stamp(db, e));
  }

  // ---------- recovery rebuilds the store ----------

  lemma ReplayNext(db: Db, e: LogEntry)
    requires |db.log| == db.commitIndex == db.lastApplied && e.index == |db.log| + 1
    requires db.currentTerm <= e.term
    ensures ReplayOne(db, e) ==
      Db(db.log + [e], e.term, e.index, e.index, ApplyEvent(db.entries, EventOf(e)), db.version + 1,
         db.queue + [EventOf(e)], db.journal, db.snap)
  {
  }

  predicate Rebuilt(db: Db, journal: seq<LogEntry>, snap: Option<Snap>, log: seq<LogEntry>) {
    && db.log == log && db.currentTerm == LastTerm(log)
    && db.commitIndex == db.lastApplied == db.version == |log|
    && db.entries == StateOf(log) && db.queue == Events(log)
    && db.journal == journal && db.snap == snap
  }

  lemma RebuiltNext(db: Db, journal: seq<LogEntry>, snap: Option<Snap>, log: seq<LogEntry>)
    requires log != [] && WellIndexed(log) && Rebuilt(db, journal, snap, log[..|log| - 1])
    ensures Rebuilt(ReplayOne(db, log[|log| - 1]), journal, snap, log)
  {
    var init, e := log[..|log| - 1], log[|log| - 1];
    assert |init| > 0 ==> init[|init| - 1] == log[|log| - 2];
    ReplayNext(db, e);
    assert log == init + [e];
    assert Events(log) == Events(init) + [EventOf(e)];
  }

  lemma {:induction false} RebuildLog(journal: seq<LogEntry>, snap: Option<Snap>, log: seq<LogEntry>)
    requires WellIndexed(log)
    ensures Rebuilt(Rebuild(Blank(journal, snap), log), journal, snap, log)
  {
    if log == [] {
      assert Events(log) == [];
    } else {
      RebuildLog(journal, snap, log[..|log| - 1]);
      RebuiltNext(Rebuild(Blank(journal, snap), log[..|log| - 1]), journal, snap, log);
    }
  }

  /**
    Closing and reopening a store that never took a snapshot gives back its entries, log,
    revision, last applied and commit index, and its journal; only the election timer's
    increments of the term since the last write are forgotten, and all changes queue up again.
   */
  lemma RecoveryRebuilds(db: Db)
    requires Live(db) && db.snap.None?
    ensures Recover(db.journal, db.snap) ==
      db.(currentTerm := LastTerm(db.log), queue := Events(db.log))
  {
    RebuildLog(db.journal, db.snap, db.log);
  }

  /**
    log length = last applied = commit index = revision, and the disk holds the whole log, after
    every command; a restart must not meet a snapshot file.
   */
  lemma ExecKeepsLive(db: Db, c: Command)
    requires Live(db) && (c.Restart? ==> db.snap.None?)
    ensures Live(Exec(db, c))
    ensures db.snap.None? && !c.TakeSnapshot? ==> Exec(db, c).snap.None?
  {
    if Intent(db, c).Some? {
      CommitKeepsLive(db, Intent(db, c).value);
    } else if c.TakeSnapshot? {
      assert db.log[..|db.log|] == db.log;
    } else if c.Restart? {
      RecoveryRebuilds(db);
    }
  }

  /** No restart of the run meets a snapshot file: it has no restarts, or no snapshots. */
  predicate Durable(db: Db, cs: seq<Command>) {
    || (forall i :: 0 <= i < |cs| ==> !cs[i].Restart?)
    || (db.snap.None? && forall i :: 0 <= i < |cs| ==> !cs[i].TakeSnapshot?)
  }

  lemma DurableStep(db: Db, cs: seq<Command>)
    requires Live(db) && Durable(db, cs) && cs != []
    ensures cs[0].Restart? ==> db.snap.None?
    ensures Live(Exec(db, cs[0])) && Durable(Exec(db, cs[0]), cs[1..])
  {
    ExecKeepsLive(db, cs[0]);
  }

  lemma {:induction false} RunKeepsLive(db: Db, cs: seq<Command>)
    requires Live(db) && Durable(db, cs)
    ensures Live(Run(db, cs))
    decreases |cs|
  {
    if cs == [] {
    } else {
      DurableStep(db, cs);
      RunKeepsLive(Exec(db, cs[0]), cs[1..]);
    }
  }

  lemma {:induction false} DurableSplit(db: Db, a: seq<Command>, b: seq<Command>)
    requires Live(db) && Durable(db, a + b)
    ensures Durable(db, a) && Live(Run(db, a)) && Durable(Run(db, a), b)
    decreases |a|
  {
    assert forall i :: 0 <= i < |a| ==> (a + b)[i] == a[i];
    if a == [] {
      assert a + b == b;
    } else {
      assert (a + b)[1..] == a[1..] + b;
      DurableStep(db, a + b);
      DurableSplit(Exec(db, a[0]), a[1..], b);
    }
  }

  function Untermed(log: seq<LogEntry>): seq<LogEntry> {
    seq(|log|, i requires 0 <= i < |log| => log[i].(term := 0))
  }

  /** Equal but for terms and for what is queued. */
  predicate Alike(a: Db, b: Db) {
    Live(a) && Live(b) && a.snap.None? && b.snap.None? && Untermed(a.log) == Untermed(b.log)
    && a.entries == b.entries
  }

  lemma AlikeCommit(a: Db, b: Db, e: LogEntry)
    requires Alike(a, b)
    ensures Alike(Commit(a, e), Commit(b, e))
  {
    CommitKeepsLive(a, e);
    CommitKeepsLive(b, e);
    CommitSpelledOut(a, e);
    CommitSpelledOut(b, e);
    assert |a.log| == |Untermed(a.log)| == |Untermed(b.log)| == |b.log|;
    assert Untermed(a.log + [Stamp(a, e)]) == Untermed(a.log) + [Stamp(a, e).(term := 0)];
    assert Untermed(b.log + [Stamp(b, e)]) == Untermed(b.log) + [Stamp(b, e).(term := 0)];
  }

  lemma AlikeStep(a: Db, b: Db, c: Command)
    requires Alike(a, b) && !c.TakeSnapshot? && !c.Restart?
    ensures Alike(Exec(a, c), Exec(b, c)) && Answer(a, c) == Answer(b, c)
  {
    assert Intent(a, c) == Intent(b, c);
    if Intent(a, c).Some? {
      AlikeCommit(a, b, Intent(a, c).value);
    } else {
      ExecKeepsLive(a, c);
      ExecKeepsLive(b, c);
    }
  }

  function WithoutRestarts(cs: seq<Command>): seq<Command> {
    if cs == [] then []
    else if cs[0].Restart? then WithoutRestarts(cs[1..])
    else [cs[0]] + WithoutRestarts(cs[1..])
  }

  lemma {:induction false} AlikeRun(a: Db, b: Db, cs: seq<Command>)
    requires Alike(a, b)
    requires forall i :: 0 <= i < |cs| ==> !cs[i].TakeSnapshot?
    ensures Replies(a, cs) == Replies(b, WithoutRestarts(cs))
    ensures Alike(Run(a, cs), Run(b, WithoutRestarts(cs)))
    decreases |cs|
  {
    if cs == [] {
    } else {
      if cs[0].Restart? {
        RecoveryRebuilds(a);
        AlikeRun(Exec(a, cs[0]), b, cs[1..]);
      } else {
        AlikeStep(a, b, cs[0]);
        AlikeRun(Exec(a, cs[0]), Exec(b, cs[0]), cs[1..]);
        var rest := WithoutRestarts(cs[1..]);
        assert WithoutRestarts(cs)[0] == cs[0] && WithoutRestarts(cs)[1..] == rest;
      }
    }
  }

  /**
    Restarts cannot be observed: put any number of them anywhere into any run without snapshots,
    and every client gets the same replies, no write is skipped, and the entries, revision and
    log (but for terms) end up the same.
   */
  lemma {:induction false} RestartsAreInvisible(db: Db, cs: seq<Command>)
    requires Live(db) && db.snap.None?
    requires forall i :: 0 <= i < |cs| ==> !cs[i].TakeSnapshot?
    ensures Replies(db, cs) == Replies(db, WithoutRestarts(cs))
    ensures var a, b := Run(db, cs), Run(db, WithoutRestarts(cs));
      && a.entries == b.entries && a.version == b.version && Untermed(a.log) == Untermed(b.log)
      && a.lastApplied == b.lastApplied == a.commitIndex == b.commitIndex == |a.log|
  {
    AlikeRun(db, db, cs);
    var a, b := Run(db, cs), Run(db, WithoutRestarts(cs));
    assert |a.log| == |Untermed(a.log)| == |Untermed(b.log)| == |b.log|;
  }

  // ---------- recovery with a snapshot file ----------

  /**
    With a snapshot file the store comes back exactly when nothing was journaled after it;
    otherwise the state as of the snapshot comes back and all later writes are gone.
   */
  lemma RecoveryExactIff(db: Db)
    requires Live(db)
    ensures var r := Recover(db.journal, db.snap);
      && (r.entries == db.entries && r.version == db.version <==> db.snap.None? || db.journal == [])
      && (db.snap.Some? ==> r.entries == StateOf(db.log[..db.snap.value.index]) &&
                            r.version == r.lastApplied == r.commitIndex == db.snap.value.index &&
                            r.log == db.journal)
  {
    if db.snap.None? {
      RecoveryRebuilds(db);
    } else {
      assert db.journal == [] ==> db.log[..db.snap.value.index] == db.log;
      RebuildKeepsLog(Blank(db.journal, db.snap), db.journal);
    }
  }

  lemma {:induction false} RebuildKeepsLog(db: Db, journal: seq<LogEntry>)
    ensures Rebuild(db, journal).log == db.log + journal
  {
    if journal == [] {
    } else {
      var init, e := journal[..|journal| - 1], journal[|journal| - 1];
      RebuildKeepsLog(db, init);
      assert journal == init + [e];
    }
  }

  lemma OneWriteTakesEffect(db: Db, c: Command)
    requires !c.Restart?
    ensures var r := Exec(db, c);
      if Intent(db, c).None? then
        |r.log| == |db.log| && r.version == db.version && r.lastApplied == db.lastApplied && r.entries == db.entries
      else if |db.log| < db.lastApplied then
        |r.log| == |db.log| + 1 && r.version == db.version && r.lastApplied == db.lastApplied && r.entries == db.entries
      else
        |r.log| == r.lastApplied == |db.log| + 1 && r.version == db.version + 1
  {
    if Intent(db, c).Some? { CommitSpelledOut(db, Intent(db, c).value); }
  }

  /**
    The index guard: counting from any state, of the writes a run accepts, exactly those that
    bring the log past the last applied index take effect; the ones before are dropped unseen.
    A store restored from a snapshot starts out with its log that much too short.
   */
  lemma {:induction false} WritesTakeEffectPastLastApplied(db: Db, cs: seq<Command>)
    requires forall i :: 0 <= i < |cs| ==> !cs[i].Restart?
    ensures var r := Run(db, cs);
      && |r.log| >= |db.log|
      && r.version == db.version + Max(0, |r.log| - Max(db.lastApplied, |db.log|))
      && (|r.log| <= db.lastApplied ==> r.entries == db.entries && r.lastApplied == db.lastApplied)
      && (|r.log| > db.lastApplied && |r.log| > |db.log| ==> r.lastApplied == |r.log|)
      && (|r.log| == |db.log| ==> r.lastApplied == db.lastApplied && r.entries == db.entries)
    decreases |cs|
  {
    if cs == [] {
    } else {
      OneWriteTakesEffect(db, cs[0]);
      WritesTakeEffectPastLastApplied(Exec(db, cs[0]), cs[1..]);
    }
  }

  /**
    After a restart from a snapshot a write is answered as stored, yet takes effect exactly when the
    journal was already as long as the snapshot's revision; until then writes are lost.
   */
  lemma RestoredStoreAppliesIff(db: Db, key: string, value: Bytes)
    requires Live(db) && db.snap.Some?
    ensures var r := Exec(db, Restart); var next := Exec(r, Put(key, value));
      && Answer(r, Put(key, value)).Stored?
      && (next.version == r.version + 1 <==> |db.journal| >= db.snap.value.index)
      && (|db.journal| < db.snap.value.index ==> next.entries == r.entries && next.version == r.version)
  {
    var r := Exec(db, Restart);
    RecoveryExactIff(db);
    CommitSpelledOut(r, Intent(r, Put(key, value)).value);
  }

  lemma BlankIsLive()
    ensures Live(Blank([], None))
  {
  }

  /** A new store's first write. */
  lemma FirstPut(key: string, value: Bytes)
    ensures var db, e := Exec(Blank([], None), Put(key, value)), Entry(key, value, 1, false);
      Live(db) && db.entries == map[key := e] && db.queue == [e] && Events(db.log) == [e]
  {
    var d0 := Blank([], None);
    BlankIsLive();
    CommitSpelledOut(d0, WriteEntry(key, value, 1));
    ExecKeepsLive(d0, Put(key, value));
    var db := Exec(d0, Put(key, value));
    assert db.log == [Stamp(d0, WriteEntry(key, value, 1))];
  }

  // ---------- versions ----------

  /** Writes to a key since it was last deleted. */
  function WritesSinceDelete(log: seq<LogEntry>, key: string): nat {
    if log == [] then 0
    else
      var init, e := log[..|log| - 1], log[|log| - 1];
      if e.key != key then WritesSinceDelete(init, key)
      else if e.kind.DelKind? then 0
      else WritesSinceDelete(init, key) + 1
  }

  function Current(entries: map<string, Entry>, key: string): nat {
    if key in entries then entries[key].version else 0
  }

  /** Versions are counts: what `Live` adds up to for one key. */
  predicate Counted(db: Db, key: string) {
    && (key in db.entries <==> WritesSinceDelete(db.log, key) > 0)
    && Current(db.entries, key) == WritesSinceDelete(db.log, key)
    && (key in db.entries ==> db.entries[key].key == key && !db.entries[key].deleted)
  }

  lemma CountedCommit(db: Db, e: LogEntry, key: string)
    requires Live(db) && Counted(db, key)
    requires e.kind.PutKind? && e.key == key ==> e.version == Current(db.entries, key) + 1
    ensures Counted(Commit(db, e), key)
  {
    CommitSpelledOut(db, e);
    var r := Commit(db, e);
    assert r.log[..|r.log| - 1] == db.log;
  }

  lemma CountedStep(db: Db, c: Command, key: string)
    requires Live(db) && Counted(db, key) && (c.Restart? ==> db.snap.None?)
    ensures Counted(Exec(db, c), key)
  {
    if Intent(db, c).Some? {
      CountedCommit(db, Intent(db, c).value, key);
    } else if c.Restart? {
      RecoveryRebuilds(db);
    }
  }

  lemma {:induction false} CountedRun(db: Db, cs: seq<Command>, key: string)
    requires Live(db) && Counted(db, key) && Durable(db, cs)
    ensures Counted(Run(db, cs), key)
    decreases |cs|
  {
    if cs == [] {
    } else {
      DurableStep(db, cs);
      CountedStep(db, cs[0], key);
      CountedRun(Exec(db, cs[0]), cs[1..], key);
    }
  }

  /** A present key's version is the number of writes to it since its last delete. */
  lemma VersionCountsWrites(cs: seq<Command>, key: string)
    requires Durable(Blank([], None), cs)
    ensures var r := Run(Blank([], None), cs);
      && Live(r) && Counted(r, key)
      && (key in r.entries <==> WritesSinceDelete(r.log, key) > 0)
      && (key in r.entries ==> r.entries[key].version == WritesSinceDelete(r.log, key))
  {
    CountedRun(Blank([], None), cs, key);
    RunKeepsLive(Blank([], None), cs);
  }

  /** The command writes the key. */
  predicate Writes(db: Db, c: Command, key: string) {
    (c.Put? && c.key == key) ||
    (c.Cas? && c.key == key && CasMatches(VersionAt(db.entries, key), c.expected))
  }

  /** What a run did to a key: whether it deleted it, and the writes since the last delete, or else since the start. */
  datatype Since = Since(deleted: bool, writes: nat)

  function SinceDelete(db: Db, cs: seq<Command>, key: string): Since
    decreases |cs|
  {
    if cs == [] then Since(false, 0)
    else
      var rest := SinceDelete(Exec(db, cs[0]), cs[1..], key);
      if rest.deleted then rest
      else if cs[0] == Delete(key) then Since(true, rest.writes)
      else if Writes(db, cs[0], key) then Since(false, rest.writes + 1)
      else rest
  }

  lemma WriteMovesVersion(db: Db, c: Command, key: string)
    requires Live(db) && (c.Restart? ==> db.snap.None?) && c != Delete(key)
    ensures Current(Exec(db, c).entries, key) ==
            Current(db.entries, key) + (if Writes(db, c, key) then 1 else 0)
    ensures !Writes(db, c, key) ==> Lookup(Exec(db, c).entries, key) == Lookup(db.entries, key)
  {
    if Intent(db, c).Some? {
      CommitSpelledOut(db, Intent(db, c).value);
    } else if c.Restart? {
      RecoveryRebuilds(db);
    }
  }

  lemma DeleteClearsVersion(db: Db, key: string)
    requires Live(db)
    ensures Current(Exec(db, Delete(key)).entries, key) == 0
  {
    CommitSpelledOut(db, EraseEntry(key));
  }

  /**
    A key's version moves by exactly the writes to it, from 0 if it was deleted; and without either
    its entry stays.
   */
  lemma {:induction false} VersionMovesByWrites(db: Db, cs: seq<Command>, key: string)
    requires Live(db) && Durable(db, cs)
    ensures var since := SinceDelete(db, cs, key);
      && Current(Run(db, cs).entries, key) ==
         (if since.deleted then 0 else Current(db.entries, key)) + since.writes
      && (since == Since(false, 0) ==> Lookup(Run(db, cs).entries, key) == Lookup(db.entries, key))
      && (since.deleted <==> exists i :: 0 <= i < |cs| && cs[i] == Delete(key))
    decreases |cs|
  {
    if cs == [] {
    } else {
      DurableStep(db, cs);
      VersionMovesByWrites(Exec(db, cs[0]), cs[1..], key);
      DeletedIff(cs, Delete(key));
      if cs[0] == Delete(key) {
        DeleteClearsVersion(db, key);
      } else {
        WriteMovesVersion(db, cs[0], key);
      }
    }
  }

  lemma DeletedIff(cs: seq<Command>, c: Command)
    requires cs != []
    ensures (exists i :: 0 <= i < |cs| && cs[i] == c) <==>
            cs[0] == c || exists i :: 0 <= i < |cs[1..]| && cs[1..][i] == c
  {
    if i :| 0 <= i < |cs| && cs[i] == c {
      assert i > 0 ==> cs[1..][i - 1] == c;
    }
  }

  /** A Put replies with the entry it stored, whose version is one above the key's old one. */
  lemma PutReplies(db: Db, key: string, value: Bytes)
    requires Live(db)
    ensures var e := Entry(key, value, Current(db.entries, key) + 1, false);
      && Answer(db, Put(key, value)) == Stored(Some(e))
      && Exec(db, Put(key, value)).entries == db.entries[key := e]
      && Exec(db, Put(key, value)).queue == db.queue + [e]
  {
    CommitSpelledOut(db, WriteEntry(key, value, Current(db.entries, key) + 1));
  }

  /** A swap on the present version, 0 for an absent key, replies with what it stored; any other changes nothing. */
  lemma SwapReplies(db: Db, key: string, value: Bytes, expected: nat)
    requires Live(db) && Counted(db, key)
    ensures var (e, c) := (Entry(key, value, expected + 1, false), Cas(key, value, expected));
      if Current(db.entries, key) == expected then
        && Answer(db, c) == Stored(Some(e)) && Exec(db, c).entries == db.entries[key := e]
        && Exec(db, c).queue == db.queue + [e]
      else
        Answer(db, c) == Mismatch && Exec(db, c) == db
  {
    CommitSpelledOut(db, WriteEntry(key, value, expected + 1));
  }

  /** A delete takes the key away, present or not, and tells watchers so under version 0. */
  lemma DeleteRemoves(db: Db, key: string)
    requires Live(db)
    ensures Exec(db, Delete(key)).entries == db.entries - {key} && Answer(db, Delete(key)) == Deleted
    ensures Exec(db, Delete(key)).queue == db.queue + [Entry(key, [], 0, true)]
  {
    CommitSpelledOut(db, EraseEntry(key));
  }

  /** The election timer and a snapshot touch neither entries nor log; the snapshot keeps what a restart needs. */
  lemma TimerAndSnapshotKeepState(db: Db)
    requires Live(db)
    ensures var (c, t) := (Exec(db, Campaign), Exec(db, TakeSnapshot));
      && c == db.(currentTerm := c.currentTerm) && c.currentTerm == db.currentTerm + 1
      && t == db.(snap := t.snap, journal := []) && t.snap == Some(Snap(db.currentTerm, |db.log|, db.entries))
  {
  }

  /** A swap is accepted exactly on the present version, 0 for an absent key. */
  lemma SwapAccepted(db: Db, key: string, value: Bytes, expected: nat)
    requires Counted(db, key)
    ensures Answer(db, Cas(key, value, expected)).Stored? <==> Current(db.entries, key) == expected
  {
  }

  /**
    A swap on a version read earlier, whatever came between, deletes and restarts included, succeeds
    exactly when nothing touched the key since, or when it was deleted and then written again as
    often as that version says.  In the first case it finds the very entry that was read.
   */
  lemma {:induction false} SwapOnReadVersionIff(db: Db, cs: seq<Command>, key: string, value: Bytes)
    requires Live(db) && Counted(db, key) && Durable(db, cs)
    ensures var since := SinceDelete(db, cs, key);
      && (Answer(Run(db, cs), Cas(key, value, Current(db.entries, key))).Stored? <==>
          since.writes == if since.deleted then Current(db.entries, key) else 0)
      && (since == Since(false, 0) ==> Lookup(Run(db, cs).entries, key) == Lookup(db.entries, key))
  {
    VersionMovesByWrites(db, cs, key);
    CountedRun(db, cs, key);
    SwapAccepted(Run(db, cs), key, value, Current(db.entries, key));
  }

  lemma {:induction false} RunSplit(db: Db, a: seq<Command>, b: seq<Command>)
    ensures Run(db, a + b) == Run(Run(db, a), b)
    decreases |a|
  {
    if a == [] {
      assert a + b == b;
    } else {
      assert (a + b)[1..] == a[1..] + b;
      RunSplit(Exec(db, a[0]), a[1..], b);
    }
  }

  lemma {:induction false} SecondSwapFails(db: Db, first: Command, between: seq<Command>, second: Command)
    requires Live(db) && first.Cas? && second.Cas?
    requires first.key == second.key && first.expected == second.expected
    requires Durable(Exec(db, first), between)
    requires forall m :: 0 <= m < |between| ==> between[m] != Delete(first.key)
    requires Answer(db, first).Stored?
    ensures !Answer(Run(Exec(db, first), between), second).Stored?
  {
    ExecKeepsLive(db, first);
    WriteMovesVersion(db, first, first.key);
    VersionMovesByWrites(Exec(db, first), between, first.key);
  }

  lemma RunAround(db: Db, cs: seq<Command>, i: nat, j: nat)
    requires i < j <= |cs|
    ensures Run(db, cs[..j]) == Run(Exec(Run(db, cs[..i]), cs[i]), cs[i + 1..j])
  {
    assert cs[..j] == cs[..i] + cs[i..j];
    RunSplit(db, cs[..i], cs[i..j]);
    assert cs[i..j][1..] == cs[i + 1..j];
  }

  lemma {:induction false} DurableAround(db: Db, before: seq<Command>, c: Command, between: seq<Command>,
                                         after: seq<Command>)
    requires Live(db) && Durable(db, before + ([c] + (between + after)))
    ensures Live(Run(db, before)) && Durable(Exec(Run(db, before), c), between)
  {
    var rest := [c] + (between + after);
    DurableSplit(db, before, rest);
    DurableStep(Run(db, before), rest);
    assert rest[1..] == between + after;
    DurableSplit(Exec(Run(db, before), c), between, after);
  }

  lemma {:induction false} SwapFailsWithoutDelete(db: Db, cs: seq<Command>, i: nat, j: nat)
    requires Live(db) && i < j < |cs| && Durable(db, cs)
    requires cs[i].Cas? && cs[j].Cas? && cs[i].key == cs[j].key && cs[i].expected == cs[j].expected
    requires Answer(Run(db, cs[..i]), cs[i]).Stored?
    requires forall m :: i < m < j ==> cs[m] != Delete(cs[i].key)
    ensures !Answer(Run(db, cs[..j]), cs[j]).Stored?
  {
    var before, between := cs[..i], cs[i + 1..j];
    assert cs == before + ([cs[i]] + (between + cs[j..]));
    DurableAround(db, before, cs[i], between, cs[j..]);
    RunAround(db, cs, i, j);
    forall m | 0 <= m < |between| ensures between[m] != Delete(cs[i].key) {
      assert between[m] == cs[i + 1 + m];
    }
    SecondSwapFails(Run(db, before), cs[i], between, cs[j]);
  }

  /** Two swaps of one key with the same expected version both succeed only around a delete. */
  lemma SwapSucceedsOncePerVersion(db: Db, cs: seq<Command>, i: nat, j: nat)
    requires Live(db) && i < j < |cs| && Durable(db, cs)
    requires cs[i].Cas? && cs[j].Cas? && cs[i].key == cs[j].key && cs[i].expected == cs[j].expected
    requires Answer(Run(db, cs[..i]), cs[i]).Stored? && Answer(Run(db, cs[..j]), cs[j]).Stored?
    ensures exists m :: i < m < j && cs[m] == Delete(cs[i].key)
  {
    if forall m :: i < m < j ==> cs[m] != Delete(cs[i].key) {
      SwapFailsWithoutDelete(db, cs, i, j);
      assert false;
    }
  }

  // ---------- the lock is dropped inside a swap ----------

  /** What a swap does once its version test has passed (raft.go:414-427). */
  function FinishSwap(db: Db, key: string, value: Bytes, expected: nat): Db {
    Commit(db, WriteEntry(key, value, expected + 1))
  }

  lemma FinishSwapSpelledOut(db: Db, key: string, value: Bytes, expected: nat)
    requires Live(db)
    ensures var r := FinishSwap(db, key, value, expected);
      && Live(r) && r.version == db.version + 1 && r.snap == db.snap
      && r.entries == db.entries[key := Entry(key, value, expected + 1, false)]
  {
    CommitKeepsLive(db, WriteEntry(key, value, expected + 1));
    CommitSpelledOut(db, WriteEntry(key, value, expected + 1));
  }

  lemma FinishSwapIsCas(db: Db, key: string, value: Bytes, expected: nat)
    requires CasMatches(VersionAt(db.entries, key), expected)
    ensures FinishSwap(db, key, value, expected) == Exec(db, Cas(key, value, expected))
  {
  }

  lemma SplitSwapAt(db: Db, key: string, value: Bytes, expected: nat)
    requires Live(db) && Counted(db, key)
    ensures FinishSwap(db, key, value, expected) == Exec(db, Cas(key, value, expected)) <==>
            Current(db.entries, key) == expected
    ensures Current(db.entries, key) != expected ==> Exec(db, Cas(key, value, expected)) == db
    ensures Lookup(FinishSwap(db, key, value, expected).entries, key) == Some(Entry(key, value, expected + 1, false))
  {
    FinishSwapSpelledOut(db, key, value, expected);
    if Current(db.entries, key) == expected { FinishSwapIsCas(db, key, value, expected); }
  }

  /**
    The code tests the version under one lock and writes under others.  If the test passes and the
    commands `between` get in before the write, then test and write act like the atomic swap exactly
    when none of `between` touched the key, or when they deleted it and wrote it again up to the
    version tested.  Otherwise the write goes through where the atomic swap changes nothing: over
    what they wrote, or bringing a deleted key back.
   */
  lemma {:induction false} SplitSwapIsAtomicIff(tested: Db, between: seq<Command>, key: string, value: Bytes,
                                                expected: nat)
    requires Live(tested) && Counted(tested, key) && Durable(tested, between)
    requires CasMatches(VersionAt(tested.entries, key), expected)
    ensures var (db, since) := (Run(tested, between), SinceDelete(tested, between, key));
      var atomic := since.writes == if since.deleted then expected else 0;
      && (FinishSwap(db, key, value, expected) == Exec(db, Cas(key, value, expected)) <==> atomic)
      && (!atomic ==> Exec(db, Cas(key, value, expected)) == db)
      && Lookup(FinishSwap(db, key, value, expected).entries, key) == Some(Entry(key, value, expected + 1, false))
      && (since.deleted && since.writes == 0 ==> key !in db.entries)
  {
    CountedRun(tested, between, key);
    RunKeepsLive(tested, between);
    VersionMovesByWrites(tested, between, key);
    SplitSwapAt(Run(tested, between), key, value, expected);
  }

  /**
    An update is lost: in every state two clients whose tests have passed on the same version both
    write, the second over the first and under the same version; atomic, the second swap fails.
   */
  lemma {:induction false} TwoSplitSwapsBothWrite(db: Db, key: string, a: Bytes, b: Bytes, expected: nat)
    requires Live(db) && CasMatches(VersionAt(db.entries, key), expected)
    ensures var one := FinishSwap(db, key, a, expected); var two := FinishSwap(one, key, b, expected);
      && Lookup(one.entries, key) == Some(Entry(key, a, expected + 1, false))
      && Lookup(two.entries, key) == Some(Entry(key, b, expected + 1, false))
      && Live(two) && two.version == db.version + 2
      && one == Exec(db, Cas(key, a, expected)) && Answer(one, Cas(key, b, expected)) == Mismatch
  {
    FinishSwapSpelledOut(db, key, a, expected);
    FinishSwapIsCas(db, key, a, expected);
    FinishSwapSpelledOut(FinishSwap(db, key, a, expected), key, b, expected);
  }
}
