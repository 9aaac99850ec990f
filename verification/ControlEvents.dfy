/** What the daemon does with the events of the control connection. */
module ControlEvents {
  import opened Wrappers
  import opened TerminalFields
  import opened CloseCauses
  import opened Lifecycle
  import opened World
  import ControlSession
  import TerminalTheorems

  // ---------------------------------------------------------------- dispatch

  /** The payload of a terminal event, as far as it matters. `reason` is the one inside
    * its data; a field that the payload does not have decodes to the empty string. */
  datatype Payload = Payload(id: string, kind: string, reason: Option<string>)

  datatype Action =
    | Ignore
    | Verified            // the pairing was verified
    | Paired              // and the agent is paired
    | ToTerminals(step: WorldStep)

  function KindOf(kind: string, reason: Option<string>): SignalKind {
    if kind == "offer" || kind == "ice_restart" then OfferSignal
    else if kind == "candidate" then CandidateSignal
    else if kind == "close" then CloseSignal(reason)
    else OtherSignal
  }

  /** `decoded` is `None` for a payload that does not decode. */
  function Handle(typ: string, decoded: Option<Payload>): Action {
    if typ == "agent.pairing_verified" then Verified
    else if typ == "agent.paired" then Paired
    else if decoded.None? then Ignore
    else if typ == "terminal.open" then ToTerminals(Open(decoded.value.id))
    else if typ == "terminal.signal" || typ == "terminal.close" then
      ToTerminals(Signal(decoded.value.id, KindOf(decoded.value.kind, decoded.value.reason)))
    else Ignore
  }

  /** The reader sends to the daemon exactly the types that the daemon acts on. */
  lemma RoutedIffActedOn(e: ControlSession.Envelope)
    ensures ControlSession.IsEvent(e) <==> exists decoded: Option<Payload> :: Handle(e.typ, decoded) != Ignore
  {
    var some := Some(Payload("", "", None));
    assert Handle(e.typ, some) != Ignore <==> ControlSession.IsEvent(e);
  }

  // ---------------------------------------------------------------- the daemon's state

  /** The flags of `stateMu` that events change, and the terminals. */
  datatype Daemon = Daemon(paired: bool, pairingVerified: bool, world: World)

  function Apply(d: Daemon, action: Action): Daemon
    requires action.ToTerminals? ==> CanWorld(d.world, action.step)
  {
    match action
    case Ignore => d
    case Verified => d.(pairingVerified := true)
    case Paired => d.(pairingVerified := true, paired := true)
    case ToTerminals(step) => d.(world := DoWorld(d.world, step))
  }

  /** Events never unpair the agent; only `agent.paired` pairs it, which verifies the
    * pairing too; and only the two pairing events verify it. No pairing event touches a
    * terminal. */
  lemma PairingExactlyIf(d: Daemon, typ: string, decoded: Option<Payload>)
    requires Handle(typ, decoded).ToTerminals? ==> CanWorld(d.world, Handle(typ, decoded).step)
    ensures
      var after := Apply(d, Handle(typ, decoded));
      && (after.paired <==> d.paired || typ == "agent.paired")
      && (after.pairingVerified <==> d.pairingVerified || typ == "agent.paired" || typ == "agent.pairing_verified")
      && (typ == "agent.paired" || typ == "agent.pairing_verified" ==> after.world == d.world)
  {
  }

  // ---------------------------------------------------------------- terminal events

  /** A new terminal is open under `id`, with nothing in it; all else is as before. */
  predicate OpenedAnew(w: World, after: World, id: string) {
    && after.sessions == w.sessions + [Terminal(id, OPENED)]
    && after.terminals == w.terminals[id := |w.sessions|]
    && after.control == w.control && after.sweeps == w.sweeps
  }

  /** `terminal.open` opens a terminal exactly for an id that is not empty and not in use,
    * and otherwise changes nothing. */
  lemma OpensExactlyIf(w: World, payload: Payload)
    requires w.control.Free?
    ensures
      var action := Handle("terminal.open", Some(payload));
      && action.ToTerminals? && CanWorld(w, action.step)
      && var after := DoWorld(w, action.step);
         if payload.id != "" && payload.id !in w.terminals then OpenedAnew(w, after, payload.id) else after == w
  {
  }

  /** The control loop is inside `offer` of the terminal, which it has just looked up. */
  predicate OfferBegun(w: World, after: World, id: string) {
    && id in w.terminals && w.terminals[id] < |w.sessions| == |after.sessions|
    && after.control == InOffer(w.terminals[id])
    && after.sessions == w.sessions[w.terminals[id] := w.sessions[w.terminals[id]].(
         life := w.sessions[w.terminals[id]].life.(negotiation := w.sessions[w.terminals[id]].life.negotiation.(offer := LookedUp)))]
    && after.terminals == w.terminals && after.sweeps == w.sweeps
  }

  /** The control loop waits for a call of `close` with this reason. */
  predicate CloseBegun(w: World, after: World, id: string, reason: string) {
    && id in w.terminals && w.terminals[id] < |w.sessions| == |after.sessions|
    && after.terminals == w.terminals && after.sweeps == w.sweeps
    && var i := w.terminals[id];
       var before, callers := w.sessions[i].life, after.sessions[i].life.callers;
       && |callers| == |before.callers| + 1 && callers[..|before.callers|] == before.callers
       && !callers[|before.callers|].returned && Reason(callers[|before.callers|].cause) == reason
       && after.control == InClose(i, |before.callers|)
       && after.sessions == w.sessions[i := w.sessions[i].(life := before.(callers := callers))]
  }

  /** The reason that is passed on for a close signal. */
  function PassedOn(reason: Option<string>): string {
    if reason.Some? && 1 <= |reason.value| <= 64 then reason.value else "browser_closed"
  }

  /** Signals and close events alike, by their kind: an offer or a restart reaches `offer`
    * of exactly the known terminal, a close calls `close` with its reason, and all else,
    * or an unknown id, changes nothing. The payload that the protocol document gives for
    * `terminal.close` has no kind: such an event closes nothing. */
  lemma ActsByKind(w: World, typ: string, payload: Payload)
    requires TerminalTheorems.Reachable(w) && (typ == "terminal.signal" || typ == "terminal.close")
    requires w.control.Free?
    ensures
      var action := Handle(typ, Some(payload));
      && action.ToTerminals? && CanWorld(w, action.step)
      && var after := DoWorld(w, action.step);
         if payload.id !in w.terminals then after == w
         else if payload.kind == "offer" || payload.kind == "ice_restart" then OfferBegun(w, after, payload.id)
         else if payload.kind == "close" then CloseBegun(w, after, payload.id, PassedOn(payload.reason))
         else after == w
  {
    TerminalTheorems.ReachableMap(w);
    DistinctKinds(payload.kind);
  }

  lemma DistinctKinds(kind: string)
    ensures kind == "close" ==> kind != "offer" && kind != "ice_restart" && kind != "candidate" && kind != ""
    ensures kind == "offer" || kind == "ice_restart" ==> kind != "candidate"
  {
    assert "close"[1] != "candidate"[1];
    assert "offer"[0] != "candidate"[0];
    assert "ice_restart"[0] != "candidate"[0];
  }
}
