/**
  The election's shared key is a key of the journaled store: election runs on the store, with
  other clients and restarts in between, are runs of the election model.  `enc` and `dec` stand
  for the JSON codec.
 */
module ElectionStore {
  import opened Prelude
  import Election
  import Store

  type Enc = Election.Record -> string
  type Dec = string -> Election.Record

  /** The leader key's cell, read from the store. */
  function CellAt(entries: map<string, Store.Entry>, key: string, dec: Dec): Option<Election.Cell> {
    if key in entries then Some(Election.Cell(dec(entries[key].value), entries[key].version)) else None
  }

  /** The command a claim sends: Put if it saw no record, else CompareAndSwap on the version it saw. */
  function ClaimCommand(id: string, n: Election.Node, key: string, enc: Enc): Store.Command
    requires n.phase.Saw?
  {
    var value := enc(Election.Record(id, n.term, n.phase.now + n.ttl));
    if n.phase.seen.None? then Store.Put(key, value) else Store.Cas(key, value, n.phase.seen.value.version)
  }

  /** A claim sent to a live store changes the leader key as in the model, and succeeds when it does. */
  lemma ClaimOnStore(db: Store.Db, id: string, n: Election.Node, key: string, enc: Enc, dec: Dec)
    requires Store.Live(db) && n.phase.Saw? && forall r :: dec(enc(r)) == r
    ensures var c := ClaimCommand(id, n, key, enc);
      && CellAt(Store.Exec(db, c).entries, key, dec) == Election.ClaimCell(id, n, CellAt(db.entries, key, dec))
      && (Store.Answer(db, c).Stored? <==> Election.WriteLands(n.phase.seen, CellAt(db.entries, key, dec)))
      && forall k :: k != key ==> Store.Lookup(Store.Exec(db, c).entries, k) == Store.Lookup(db.entries, k)
  {
    var c := ClaimCommand(id, n, key, enc);
    var e := Store.Intent(db, c);
    if e.Some? { Store.CommitSpelledOut(db, e.value); }
  }

  /** Restarting the store, snapshots aside, does not change what the election sees. */
  lemma RestartKeepsCell(db: Store.Db, key: string, dec: Dec)
    requires Store.Live(db) && db.snap.None?
    ensures CellAt(Store.Exec(db, Store.Restart).entries, key, dec) == CellAt(db.entries, key, dec)
  {
    Store.RecoveryRebuilds(db);
  }

  // ---------- whole runs ----------

  /** The nodes and the store that holds their key. */
  datatype World = World(nodes: map<string, Election.Node>, db: Store.Db)

  /** A step of the election, or anything else that happens to the store. */
  datatype Action = Elect(step: Election.Step) | Other(command: Store.Command)

  /** What the election model sees. */
  function Seen(w: World, key: string, dec: Dec): Election.System {
    Election.System(w.nodes, CellAt(w.db.entries, key, dec))
  }

  /** Only a claim touches the store; the node goes on if the store says the write was stored. */
  function Act(w: World, a: Action, key: string, enc: Enc, dec: Dec): World {
    match a
    case Other(c) => w.(db := Store.Exec(w.db, c))
    case Elect(step) =>
      if step.Claim? && Election.Enabled(Seen(w, key, dec), step) then
        var n := w.nodes[step.id];
        var c := ClaimCommand(step.id, n, key, enc);
        var n' := n.(phase := if Store.Answer(w.db, c).Stored? then Election.Wrote(n.phase.now) else Election.Idle);
        World(w.nodes[step.id := n'], Store.Exec(w.db, c))
      else w.(nodes := Election.Next(Seen(w, key, dec), step).nodes)
  }

  function Acts(w: World, actions: seq<Action>, key: string, enc: Enc, dec: Dec): World
    decreases |actions|
  {
    if actions == [] then w else Acts(Act(w, actions[0], key, enc, dec), actions[1..], key, enc, dec)
  }

  /** The election's part of a run. */
  function ElectionPart(actions: seq<Action>): seq<Election.Step> {
    if actions == [] then []
    else if actions[0].Elect? then [actions[0].step] + ElectionPart(actions[1..])
    else ElectionPart(actions[1..])
  }

  /** The other clients stay off the leader key, and nobody takes snapshots. */
  predicate Apart(a: Action, key: string) {
    a.Other? ==>
      match a.command
      case Put(k, _) => k != key
      case Delete(k) => k != key
      case Cas(k, _, _) => k != key
      case TakeSnapshot => false
      case _ => true
  }

  predicate Healthy(w: World) {
    Store.Live(w.db) && w.db.snap.None?
  }

  lemma {:induction false} OtherIsUnseen(w: World, c: Store.Command, key: string, dec: Dec)
    requires Healthy(w) && Apart(Other(c), key)
    ensures Store.Live(Store.Exec(w.db, c)) && Store.Exec(w.db, c).snap.None?
    ensures CellAt(Store.Exec(w.db, c).entries, key, dec) == CellAt(w.db.entries, key, dec)
  {
    Store.ExecKeepsLive(w.db, c);
    if c.Restart? {
      RestartKeepsCell(w.db, key, dec);
    } else if Store.Intent(w.db, c).Some? {
      Store.CommitSpelledOut(w.db, Store.Intent(w.db, c).value);
    }
  }

  lemma {:induction false} ClaimIsSeen(w: World, id: string, key: string, enc: Enc, dec: Dec)
    requires Healthy(w) && (forall r :: dec(enc(r)) == r) && Election.Enabled(Seen(w, key, dec), Election.Claim(id))
    ensures var w' := Act(w, Elect(Election.Claim(id)), key, enc, dec);
      Healthy(w') && Seen(w', key, dec) == Election.Next(Seen(w, key, dec), Election.Claim(id))
  {
    ClaimOnStore(w.db, id, w.nodes[id], key, enc, dec);
    Store.ExecKeepsLive(w.db, ClaimCommand(id, w.nodes[id], key, enc));
  }

  lemma ActIsSeen(w: World, a: Action, key: string, enc: Enc, dec: Dec)
    requires Healthy(w) && Apart(a, key) && forall r :: dec(enc(r)) == r
    ensures Healthy(Act(w, a, key, enc, dec))
    ensures Seen(Act(w, a, key, enc, dec), key, dec) ==
      if a.Elect? then Election.Next(Seen(w, key, dec), a.step) else Seen(w, key, dec)
  {
    if a.Other? {
      OtherIsUnseen(w, a.command, key, dec);
    } else if a.step.Claim? && Election.Enabled(Seen(w, key, dec), a.step) {
      ClaimIsSeen(w, a.step.id, key, enc, dec);
    }
  }

  /**
    Every run on the store, whatever other clients do to other keys and however often the store is
    restarted, is the run of the election model that its own steps make.
   */
  lemma {:induction false} RunsAreElectionRuns(w: World, actions: seq<Action>, key: string, enc: Enc, dec: Dec)
    requires Healthy(w) && forall r :: dec(enc(r)) == r
    requires forall i :: 0 <= i < |actions| ==> Apart(actions[i], key)
    ensures Healthy(Acts(w, actions, key, enc, dec))
    ensures Seen(Acts(w, actions, key, enc, dec), key, dec) ==
            Election.Run(Seen(w, key, dec), ElectionPart(actions))
    decreases |actions|
  {
    if actions == [] {
    } else {
      ActIsSeen(w, actions[0], key, enc, dec);
      RunsAreElectionRuns(Act(w, actions[0], key, enc, dec), actions[1..], key, enc, dec);
      if actions[0].Elect? {
        assert ElectionPart(actions)[1..] == ElectionPart(actions[1..]);
      }
    }
  }

  /** So on the store, too, at most one Leader at any moment has the stored record's term, and it owns the record. */
  lemma {:induction false} OneLeaderOnStore(w: World, actions: seq<Action>, key: string, enc: Enc, dec: Dec,
                                            a: string, b: string)
    requires Healthy(w) && forall r :: dec(enc(r)) == r
    requires forall i :: 0 <= i < |actions| ==> Apart(actions[i], key)
    requires Election.Start(Seen(w, key, dec)) && Election.SafeClaims(Seen(w, key, dec), ElectionPart(actions))
    ensures var r := Acts(w, actions, key, enc, dec);
      && (a in r.nodes && r.nodes[a].role.Leader? ==>
            && key in r.db.entries
            && r.nodes[a].term <= dec(r.db.entries[key].value).term
            && (r.nodes[a].term == dec(r.db.entries[key].value).term <==> dec(r.db.entries[key].value).nodeId == a))
      && (a in r.nodes && b in r.nodes && r.nodes[a].role.Leader? && r.nodes[b].role.Leader? && a != b ==>
            || r.nodes[a].term != dec(r.db.entries[key].value).term
            || r.nodes[b].term != dec(r.db.entries[key].value).term)
  {
    RunsAreElectionRuns(w, actions, key, enc, dec);
    Election.OneLeaderInRecordTerm(Seen(w, key, dec), ElectionPart(actions), a, b);
  }

  // ---------- with the swap the code really has ----------

  /** A claim whose version test has passed finishes its swap. */
  function FinishClaim(w: World, id: string, key: string, enc: Enc): World
    requires id in w.nodes && w.nodes[id].phase.Saw? && w.nodes[id].phase.seen.Some?
  {
    var n := w.nodes[id];
    var value := enc(Election.Record(id, n.term, n.phase.now + n.ttl));
    World(w.nodes[id := n.(phase := Election.Wrote(n.phase.now))],
          Store.FinishSwap(w.db, key, value, n.phase.seen.value.version))
  }

  function Lead(w: World, id: string): World
    requires id in w.nodes && w.nodes[id].phase.Wrote?
  {
    w.(nodes := w.nodes[id := Election.SettleNode(w.nodes[id])])
  }

  /** The node has read the stored record and is about to swap it for one of the given term. */
  predicate ReadyToSwap(w: World, id: string, key: string, dec: Dec, term: nat) {
    && id in w.nodes && w.nodes[id].phase.Saw? && w.nodes[id].term == term
    && key in w.db.entries && w.nodes[id].phase.seen == CellAt(w.db.entries, key, dec)
  }

  /** A node begins a tick and reads the key. */
  function BeginAndLook(w: World, id: string, now: int, key: string, enc: Enc, dec: Dec): World {
    Act(Act(w, Elect(Election.Begin(id, now)), key, enc, dec), Elect(Election.Look(id)), key, enc, dec)
  }

  lemma OneIsReady(w: World, id: string, now: int, key: string, enc: Enc, dec: Dec)
    requires id in w.nodes && w.nodes[id].phase.Idle? && key in w.db.entries
    requires w.nodes[id].term >= dec(w.db.entries[key].value).term
    ensures var r := BeginAndLook(w, id, now, key, enc, dec);
      && r.db == w.db && id in r.nodes && r.nodes == w.nodes[id := r.nodes[id]]
      && ReadyToSwap(r, id, key, dec, w.nodes[id].term + 1)
  {
  }

  /** Two idle nodes of one term not below the record's get there by beginning a tick and reading. */
  lemma TwoGetReady(w: World, a: string, b: string, now: int, key: string, enc: Enc, dec: Dec)
    requires a in w.nodes && b in w.nodes && a != b && w.nodes[a].phase.Idle? && w.nodes[b].phase.Idle?
    requires key in w.db.entries && w.nodes[a].term == w.nodes[b].term >= dec(w.db.entries[key].value).term
    ensures var r := BeginAndLook(BeginAndLook(w, a, now, key, enc, dec), b, now, key, enc, dec);
      && r.db == w.db
      && ReadyToSwap(r, a, key, dec, w.nodes[a].term + 1) && ReadyToSwap(r, b, key, dec, w.nodes[a].term + 1)
  {
    OneIsReady(w, a, now, key, enc, dec);
    OneIsReady(BeginAndLook(w, a, now, key, enc, dec), b, now, key, enc, dec);
  }

  /**
    The code's swap drops its lock between test and write, and that alone breaks election safety:
    from every state in which two nodes have read the live record and stand in the same term, the
    writes of both go through and both lead that term, the record being the second one's.
   */
  lemma SplitSwapElectsTwo(w: World, a: string, b: string, key: string, enc: Enc, dec: Dec, term: nat)
    requires Healthy(w) && (forall r :: dec(enc(r)) == r) && a != b
    requires ReadyToSwap(w, a, key, dec, term) && ReadyToSwap(w, b, key, dec, term)
    ensures var r := Lead(FinishClaim(Lead(FinishClaim(w, a, key, enc), a), b, key, enc), b);
      && Healthy(r) && key in r.db.entries
      && r.nodes[a].role.Leader? && r.nodes[b].role.Leader?
      && r.nodes[a].term == r.nodes[b].term == dec(r.db.entries[key].value).term == term
      && dec(r.db.entries[key].value).nodeId == b
      && r.db.entries[key].version == w.db.entries[key].version + 1
  {
    var version := w.db.entries[key].version;
    var na, nb := w.nodes[a], w.nodes[b];
    var one := enc(Election.Record(a, na.term, na.phase.now + na.ttl));
    var two := enc(Election.Record(b, nb.term, nb.phase.now + nb.ttl));
    Store.FinishSwapSpelledOut(w.db, key, one, version);
    Store.FinishSwapSpelledOut(Store.FinishSwap(w.db, key, one, version), key, two, version);
  }
}
