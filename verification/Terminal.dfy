/** The terminal manager and its sessions, updated in place. */
module Terminal {
  import opened Wrappers
  import opened TerminalFields

  /** `t.closeOnce.Do` aside, the mutable record that the goroutines share. */
  class Session {
    const id: string
    var pc: Option<nat>
    var dc: Option<nat>
    var pty: Option<nat>
    var closed: bool
    var recovery: Option<nat>
    var answerSent: bool
    var localCandidates: seq<nat>

    ghost function State(): Fields
      reads this
    {
      Fields(pc, dc, pty, closed, recovery, answerSent, localCandidates)
    }

    constructor (id: string)
      ensures this.id == id && State() == ZERO_VALUE
    {
      this.id := id;
      pc, dc, pty, closed := None, None, None, false;
      recovery, answerSent, localCandidates := None, false, [];
    }

    method StorePeer(peer: nat)
      modifies this`pc
      ensures pc == Some(peer) && State() == old(State()).StorePeer(peer)
    {
      pc := Some(peer);
    }

    method BeginOffer()
      modifies this`answerSent, this`localCandidates
      ensures !answerSent && localCandidates == []
      ensures State() == old(State()).BeginOffer()
    {
      answerSent := false;
      localCandidates := [];
    }

    method FinishOffer() returns (candidates: seq<nat>)
      modifies this`answerSent, this`localCandidates
      ensures answerSent && localCandidates == [] && candidates == old(localCandidates)
      ensures (State(), candidates) == old(State()).FinishOffer()
    {
      answerSent := true;
      candidates := localCandidates;
      localCandidates := [];
    }

    method AcceptCandidate(candidate: nat) returns (sendNow: bool)
      modifies this`localCandidates
      ensures sendNow == answerSent
      ensures localCandidates == old(localCandidates) + if sendNow then [] else [candidate]
      ensures (State(), sendNow) == old(State()).AcceptCandidate(candidate)
    {
      if !answerSent {
        localCandidates := localCandidates + [candidate];
        return false;
      }
      return true;
    }

    method SetDataChannel(channel: nat) returns (ok: bool)
      modifies this`dc
      ensures ok <==> old(dc).None? && !closed
      ensures dc == if ok then Some(channel) else old(dc)
      ensures (State(), ok) == old(State()).SetDataChannel(channel)
    {
      if dc != None || closed {
        return false;
      }
      dc := Some(channel);
      return true;
    }

    method StartPty(spawned: Option<nat>) returns (outcome: PtyStart)
      modifies this`pty
      ensures outcome.Unavailable? <==> closed || old(pty).Some?
      ensures outcome.Started? <==> spawned.Some? && !closed && old(pty).None?
      ensures pty == if outcome.Started? then spawned else old(pty)
      ensures (State(), outcome) == old(State()).StartPty(spawned)
    {
      if closed || pty != None {
        return Unavailable;
      }
      if spawned == None {
        return SpawnFailed;
      }
      pty := spawned;
      return Started;
    }

    method ArmRecovery(timer: nat) returns (armed: bool)
      modifies this`recovery
      ensures armed <==> old(recovery).None? && !closed
      ensures recovery == if armed then Some(timer) else old(recovery)
      ensures (State(), armed) == old(State()).ArmRecovery(timer)
    {
      armed := recovery == None && !closed;
      if armed {
        recovery := Some(timer);
      }
    }

    method CancelRecovery() returns (stopped: Option<nat>)
      modifies this`recovery
      ensures recovery.None? && stopped == old(recovery)
      ensures (State(), stopped) == old(State()).CancelRecovery()
    {
      stopped := recovery;
      if recovery != None {
        recovery := None;
      }
    }

    method MarkClosed() returns (snapshot: Snapshot, stopped: Option<nat>)
      modifies this`closed
      ensures closed && snapshot == Snapshot(pty, dc, pc) && stopped == recovery
      ensures (State(), snapshot) == old(State()).MarkClosed()
    {
      closed := true;
      stopped := recovery;
      snapshot := Snapshot(pty, dc, pc);
    }
  }

  class Manager {
    var terminals: map<string, Session>

    constructor ()
      ensures terminals == map[]
    {
      terminals := map[];
    }

    method Open(id: string) returns (ok: bool)
      modifies this
      ensures ok <==> id != "" && id !in old(terminals)
      ensures !ok ==> terminals == old(terminals)
      ensures ok ==>
        && id in terminals && terminals == old(terminals)[id := terminals[id]]
        && fresh(terminals[id]) && terminals[id].id == id && terminals[id].State() == ZERO_VALUE
    {
      if id == "" || id in terminals {
        return false;
      }
      var session := new Session(id);
      terminals := terminals[id := session];
      return true;
    }

    method Lookup(id: string) returns (session: Option<Session>)
      ensures session == if id in terminals then Some(terminals[id]) else None
    {
      return if id in terminals then Some(terminals[id]) else None;
    }

    method Delete(id: string)
      modifies this
      ensures terminals == old(terminals) - {id}
    {
      terminals := terminals - {id};
    }

    /** Every id of the map once, in any order. */
    method ActiveIDs() returns (ids: seq<string>)
      ensures |ids| == |terminals| && (set id | id in ids) == terminals.Keys
    {
      ids := [];
      var rest := terminals.Keys;
      while rest != {}
        invariant rest <= terminals.Keys
        invariant forall id :: id in ids <==> id in terminals.Keys - rest
        invariant |ids| + |rest| == |terminals.Keys|
        decreases rest
      {
        var id :| id in rest;
        ids, rest := ids + [id], rest - {id};
      }
    }

    /** The sessions that `CloseAll` goes on to close: every session of the map, each
      * under its id exactly once. */
    method Snapshot() returns (all: seq<Session>)
      ensures |all| == |terminals|
      ensures forall session :: session in all <==> session in terminals.Values
    {
      var ids := ActiveIDs();
      all := [];
      for i := 0 to |ids|
        invariant |all| == i
        invariant forall j | 0 <= j < i :: ids[j] in terminals && all[j] == terminals[ids[j]]
      {
        assert ids[i] in (set id | id in ids);
        all := all + [terminals[ids[i]]];
      }
      forall session | session in terminals.Values
        ensures session in all
      {
        var id :| id in terminals && terminals[id] == session;
        assert id in (set x | x in ids);
        var j :| 0 <= j < |ids| && ids[j] == id;
        assert all[j] == session;
      }
    }
  }
}
