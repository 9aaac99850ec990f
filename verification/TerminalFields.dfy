/** The fields of one terminal session and the critical sections that change them.
  *
  * Every critical section of `session.mu` is one function from the fields before
  * to the fields after. The class `Terminal.Session` runs the same sections in
  * place; the module `Lifecycle` lets them interleave.
  */
module TerminalFields {
  import opened Wrappers

  /** What `close` reads before it lets go of the mutex. */
  datatype Snapshot = Snapshot(pty: Option<nat>, dc: Option<nat>, pc: Option<nat>)

  datatype PtyStart = Unavailable | SpawnFailed | Started

  /** Peer connections, data channels, PTYs, timers and local candidates are
    * numbered in the order in which they come into being. */
  datatype Fields = Fields(
    pc: Option<nat>,
    dc: Option<nat>,
    pty: Option<nat>,
    closed: bool,
    recovery: Option<nat>,
    answerSent: bool,
    localCandidates: seq<nat>)
  {
    function StorePeer(peer: nat): Fields {
      this.(pc := Some(peer))
    }

    function BeginOffer(): Fields {
      this.(answerSent := false, localCandidates := [])
    }

    /** The fields after the answer went out, and the candidates to send now. */
    function FinishOffer(): (Fields, seq<nat>) {
      (this.(answerSent := true, localCandidates := []), localCandidates)
    }

    /** True in the second component: the callback sends the candidate itself. */
    function AcceptCandidate(candidate: nat): (Fields, bool) {
      if !answerSent
      then (this.(localCandidates := localCandidates + [candidate]), false)
      else (this, true)
    }

    function SetDataChannel(channel: nat): (Fields, bool) {
      if dc.Some? || closed then (this, false) else (this.(dc := Some(channel)), true)
    }

    /** `spawned` is the PTY that `pty.Start` yields, if it is reached and succeeds. */
    function StartPty(spawned: Option<nat>): (Fields, PtyStart) {
      if closed || pty.Some? then (this, Unavailable)
      else if spawned.None? then (this, SpawnFailed)
      else (this.(pty := spawned), Started)
    }

    /** Disconnected or Failed: `timer` is the one to arm, if one is armed. */
    function ArmRecovery(timer: nat): (Fields, bool) {
      if recovery.None? && !closed then (this.(recovery := Some(timer)), true) else (this, false)
    }

    /** Connected: the timer to stop, if there is one. */
    function CancelRecovery(): (Fields, Option<nat>) {
      (this.(recovery := None), recovery)
    }

    /** The critical section of `close`; `recovery` keeps naming the stopped timer. */
    function MarkClosed(): (Fields, Snapshot) {
      (this.(closed := true), Snapshot(pty, dc, pc))
    }
  }

  const ZERO_VALUE := Fields(None, None, None, false, None, false, [])
}
