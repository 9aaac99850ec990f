/** One incarnation of a terminal: every goroutine that touches it, interleaved.
  *
  * A step is one critical section of `session.mu`, one external call with its
  * outcome, or one library callback. Any enabled step may come next.
  */
module Lifecycle {
  import opened Wrappers
  import opened TerminalFields
  import opened CloseCauses
  import Frames

  /** `recoveryWindow`, in seconds. */
  const RECOVERY_WINDOW := 10

  // ---------------------------------------------------------------- state

  /** Where the control loop stands inside `offer`. */
  datatype Offer =
    | Idle
    | LookedUp              // past the map lookup, before reading t.pc
    | NeedPeer              // read t.pc == nil
    | HavePeer(peer: nat)   // the new peer connection is not in t.pc yet
    | Ready                 // about to reset answerSent and localCandidates
    | Negotiating
    | Answering             // the answer is about to be sent
    | Answered              // the answer was sent, answerSent is still false
    | Flushing(queue: seq<nat>)

  /** What the session hands to `manager.send`, in order. An answer is recorded when
    * its send succeeds; the outcome of the other sends is ignored by the source. */
  datatype Signal =
    | Answer(generation: nat)
    | Candidate(call: nat)
    | Active
    | Closed(reason: string)

  /** The offer goroutine and the candidate callbacks. `generation` counts the resets
    * of `answerSent`; call number `c` of `localCandidate` ran its critical section in
    * generation `acceptedIn[c]`; `held` are the calls that had to wait in
    * `localCandidates`; `direct` are the calls between unlock and send. */
  datatype Negotiation = Negotiation(
    offer: Offer,
    generation: nat,
    acceptedIn: seq<nat>,
    held: set<nat>,
    direct: set<nat>)

  /** Objects of the libraries: how many were created, which were closed. A channel
    * that arrives is `undecided` until `OnDataChannel` has accepted or rejected it, and
    * `rejected` until the callback has closed it. */
  datatype Resources = Resources(
    peers: nat, closedPeers: set<nat>,
    channels: nat, undecided: set<nat>, rejected: set<nat>, closedChannels: set<nat>,
    ptys: nat, closedPtys: set<nat>,
    openings: nat)  // OnOpen callbacks past startPTY, before the active signal

  datatype Caller = Caller(cause: Cause, returned: bool)

  datatype Stage = Entered | ClosingPty | ClosingChannel | ClosingPeer | Deleting | Reporting | Ending

  /** `closeOnce`: the function runs in caller `first`, all other callers wait for it. */
  datatype Once =
    | NotRun
    | Running(first: nat, cause: Cause, stage: Stage, snapshot: Snapshot)
    | Finished(first: nat, cause: Cause, snapshot: Snapshot)

  datatype TimerStatus = Pending | Fired(at: nat, note: nat) | Stopped

  /** `note`: the index in `notes` of the timer's arming. */
  datatype Timer = Timer(armedAt: nat, note: nat, status: TimerStatus)

  /** The connection-state history: what was processed, and when timers were armed or fired. */
  datatype Note = Lost | Connected | Armed(timer: nat, at: nat) | Expired(timer: nat, at: nat)

  datatype Recovery = Recovery(now: nat, timers: seq<Timer>, notes: seq<Note>)

  datatype Life = Life(
    fields: Fields,
    negotiation: Negotiation,
    resources: Resources,
    callers: seq<Caller>,
    once: Once,
    deleted: bool,          // removed from the manager's map
    recovery: Recovery,
    out: seq<Signal>)

  const NO_SNAPSHOT := Snapshot(None, None, None)

  const OPENED := Life(
    ZERO_VALUE,
    Negotiation(Idle, 0, [], {}, {}),
    Resources(0, {}, 0, {}, {}, {}, 0, {}, 0),
    [],
    NotRun,
    false,
    Recovery(0, [], []),
    [])

  // ---------------------------------------------------------------- steps

  datatype OfferStep =
    | Find                      // Manager.Signal found the session for an offer
    | Malformed                 // the offer does not decode
    | ReadPeer
    | NewPeer(ok: bool)
    | StorePeer
    | Begin
    | Negotiate(ok: bool)       // remote description, answer, local description
    | SendAnswer(ok: bool)
    | Finish
    | Flush
    | Return

  datatype CandidateStep =
    | EndOfCandidates           // localCandidate(nil)
    | Gathered
    | SendDirect(call: nat)

  datatype ChannelStep =
    | Arrive                    // OnDataChannel is called
    | Decide(channel: nat, labelOk: bool)
    | CloseRejected(channel: nat)
    | OpenChannel(spawned: bool)  // OnOpen: startPTY
    | SendActive
    | ShellExits
    | Message(isText: bool, data: seq<Frames.byte>, ioOk: bool)

  datatype LinkStep =
    | LinkDisconnected
    | LinkFailed
    | LinkConnected
    | LinkClosed
    | Fire(timer: nat)
    | Tick(seconds: nat)

  datatype CloseStep =
    | Call(cause: Cause)        // a goroutine is about to call closeOnce.Do
    | Enter(caller: nat)
    | Mark
    | ClosePty
    | CloseChannel
    | ClosePeer
    | Delete
    | Report                    // the close signal is sent
    | EndOnce
    | Leave(caller: nat)

  datatype Step =
    | Offering(offer: OfferStep)
    | Gathering(candidate: CandidateStep)
    | Channeling(channel: ChannelStep)
    | Linking(link: LinkStep)
    | Closing(close: CloseStep)

  // ---------------------------------------------------------------- offer

  predicate CanOffer(l: Life, s: OfferStep) {
    var offer := l.negotiation.offer;
    match s
    case Find => offer.Idle?
    case Malformed => offer.LookedUp?
    case ReadPeer => offer.LookedUp?
    case NewPeer(_) => offer.NeedPeer?
    case StorePeer => offer.HavePeer?
    case Begin => offer.Ready?
    case Negotiate(_) => offer.Negotiating?
    case SendAnswer(_) => offer.Answering?
    case Finish => offer.Answered?
    case Flush => offer.Flushing? && |offer.queue| > 0
    case Return => offer.Flushing? && |offer.queue| == 0
  }

  function At(l: Life, offer: Offer): Life {
    l.(negotiation := l.negotiation.(offer := offer))
  }

  function DoOffer(l: Life, s: OfferStep): Life
    requires CanOffer(l, s)
  {
    match s
    case Find => At(l, LookedUp)
    case Malformed => At(l, Idle)
    case ReadPeer => if l.fields.pc.None? then At(l, NeedPeer) else At(l, Ready)
    case NewPeer(ok) =>
      if !ok then At(l, Idle)
      else At(l.(resources := l.resources.(peers := l.resources.peers + 1)), HavePeer(l.resources.peers))
    case StorePeer =>
      At(l.(fields := l.fields.StorePeer(l.negotiation.offer.peer)), Ready)
    case Begin =>
      var l := At(l.(fields := l.fields.BeginOffer()), Negotiating);
      l.(negotiation := l.negotiation.(generation := l.negotiation.generation + 1))
    case Negotiate(ok) => At(l, if ok then Answering else Idle)
    case SendAnswer(ok) =>
      if !ok then At(l, Idle)
      else At(l.(out := l.out + [Answer(l.negotiation.generation)]), Answered)
    case Finish =>
      var (fields, candidates) := l.fields.FinishOffer();
      At(l.(fields := fields), Flushing(candidates))
    case Flush =>
      var queue := l.negotiation.offer.queue;
      At(l.(out := l.out + [Candidate(queue[0])]), Flushing(queue[1..]))
    case Return => At(l, Idle)
  }

  // ---------------------------------------------------------------- local candidates

  predicate CanCandidate(l: Life, s: CandidateStep) {
    match s
    case EndOfCandidates => l.resources.peers > 0
    case Gathered => l.resources.peers > 0
    case SendDirect(call) => call in l.negotiation.direct
  }

  function DoCandidate(l: Life, s: CandidateStep): Life
    requires CanCandidate(l, s)
  {
    var n := l.negotiation;
    match s
    case EndOfCandidates => l
    case Gathered =>
      var call := |n.acceptedIn|;
      var (fields, sendNow) := l.fields.AcceptCandidate(call);
      l.(fields := fields,
         negotiation := n.(acceptedIn := n.acceptedIn + [n.generation],
                           held := if sendNow then n.held else n.held + {call},
                           direct := if sendNow then n.direct + {call} else n.direct))
    case SendDirect(call) =>
      l.(negotiation := n.(direct := n.direct - {call}), out := l.out + [Candidate(call)])
  }

  // ---------------------------------------------------------------- data channel and shell

  predicate CanChannel(l: Life, s: ChannelStep) {
    match s
    case Arrive => l.resources.peers > 0
    case Decide(channel, _) => channel in l.resources.undecided
    case CloseRejected(channel) => channel in l.resources.rejected
    case OpenChannel(_) => l.fields.dc.Some?
    case SendActive => l.resources.openings > 0
    case ShellExits => l.fields.pty.Some?
    case Message(_, _, _) => l.fields.dc.Some?
  }

  /** A goroutine appears that will call `close`. */
  function WithCaller(l: Life, cause: Cause): Life {
    l.(callers := l.callers + [Caller(cause, false)])
  }

  function DoChannel(l: Life, s: ChannelStep): Life
    requires CanChannel(l, s)
  {
    var r := l.resources;
    match s
    case Arrive =>
      l.(resources := r.(channels := r.channels + 1, undecided := r.undecided + {r.channels}))
    case Decide(channel, labelOk) =>
      var (fields, ok) := if labelOk then l.fields.SetDataChannel(channel) else (l.fields, false);
      l.(fields := fields,
         resources := r.(undecided := r.undecided - {channel},
                         rejected := if ok then r.rejected else r.rejected + {channel}))
    case CloseRejected(channel) =>
      l.(resources := r.(rejected := r.rejected - {channel}, closedChannels := r.closedChannels + {channel}))
    case OpenChannel(spawned) =>
      var (fields, outcome) := l.fields.StartPty(if spawned then Some(r.ptys) else None);
      if outcome.Started?
      then l.(fields := fields, resources := r.(ptys := r.ptys + 1, openings := r.openings + 1))
      else WithCaller(l, PtyStartFailed)
    case SendActive =>
      l.(resources := r.(openings := r.openings - 1), out := l.out + [Active])
    case ShellExits => WithCaller(l, ShellExit)
    case Message(isText, data, ioOk) =>
      match Frames.Verdict(isText, data, l.fields.pty.Some? && !l.fields.closed, ioOk)
      case None => l
      case Some(cause) => WithCaller(l, cause)
  }

  // ---------------------------------------------------------------- connection state and timer

  predicate CanLink(l: Life, s: LinkStep) {
    match s
    case LinkDisconnected => l.resources.peers > 0
    case LinkFailed => l.resources.peers > 0
    case LinkConnected => l.resources.peers > 0
    case LinkClosed => l.resources.peers > 0
    case Fire(timer) =>
      && timer < |l.recovery.timers|
      && l.recovery.timers[timer].status.Pending?
      && l.recovery.now >= l.recovery.timers[timer].armedAt + RECOVERY_WINDOW
    case Tick(_) => true
  }

  /** `timer.Stop()`: without effect on a timer that fired. */
  function Stop(timers: seq<Timer>, timer: Option<nat>): (r: seq<Timer>)
    ensures |r| == |timers|
  {
    if timer.Some? && timer.value < |timers| && timers[timer.value].status.Pending?
    then timers[timer.value := timers[timer.value].(status := Stopped)]
    else timers
  }

  /** The one branch of `connectionState` for Disconnected and Failed. */
  function LoseLink(l: Life): Life {
    var r := l.recovery;
    var timer := |r.timers|;
    var (fields, armed) := l.fields.ArmRecovery(timer);
    if armed
    then l.(fields := fields,
            recovery := r.(timers := r.timers + [Timer(r.now, |r.notes|, Pending)],
                           notes := r.notes + [Armed(timer, r.now)]))
    else l.(recovery := r.(notes := r.notes + [Lost]))
  }

  function DoLink(l: Life, s: LinkStep): Life
    requires CanLink(l, s)
  {
    var r := l.recovery;
    match s
    case LinkDisconnected => LoseLink(l)
    case LinkFailed => LoseLink(l)
    case LinkConnected =>
      var (fields, stopped) := l.fields.CancelRecovery();
      l.(fields := fields,
         recovery := r.(timers := Stop(r.timers, stopped), notes := r.notes + [Connected]))
    case LinkClosed => WithCaller(l, ChannelClosed)
    case Fire(timer) =>
      var t := r.timers[timer].(status := Fired(r.now, |r.notes|));
      WithCaller(
        l.(recovery := r.(timers := r.timers[timer := t], notes := r.notes + [Expired(timer, r.now)])),
        RecoveryTimeout(timer))
    case Tick(seconds) => l.(recovery := r.(now := r.now + seconds))
  }

  // ---------------------------------------------------------------- close

  predicate CanClose(l: Life, s: CloseStep) {
    match s
    case Call(cause) => cause.Browser? || cause.AgentShutdown?
    case Enter(caller) => l.once.NotRun? && caller < |l.callers|
    case Mark => l.once.Running? && l.once.stage.Entered?
    case ClosePty => l.once.Running? && l.once.stage.ClosingPty?
    case CloseChannel => l.once.Running? && l.once.stage.ClosingChannel?
    case ClosePeer => l.once.Running? && l.once.stage.ClosingPeer?
    case Delete => l.once.Running? && l.once.stage.Deleting?
    case Report => l.once.Running? && l.once.stage.Reporting?
    case EndOnce => l.once.Running? && l.once.stage.Ending?
    case Leave(caller) => l.once.Finished? && caller < |l.callers| && !l.callers[caller].returned
  }

  function AsSet(handle: Option<nat>): set<nat> {
    if handle.Some? then {handle.value} else {}
  }

  function DoClose(l: Life, s: CloseStep): Life
    requires CanClose(l, s)
  {
    var r := l.resources;
    match s
    case Call(cause) => WithCaller(l, cause)
    case Enter(caller) => l.(once := Running(caller, l.callers[caller].cause, Entered, NO_SNAPSHOT))
    case Mark =>
      var (fields, snapshot) := l.fields.MarkClosed();
      l.(fields := fields,
         recovery := l.recovery.(timers := Stop(l.recovery.timers, fields.recovery)),
         once := l.once.(stage := ClosingPty, snapshot := snapshot))
    case ClosePty =>
      l.(resources := r.(closedPtys := r.closedPtys + AsSet(l.once.snapshot.pty)),
         once := l.once.(stage := ClosingChannel))
    case CloseChannel =>
      l.(resources := r.(closedChannels := r.closedChannels + AsSet(l.once.snapshot.dc)),
         once := l.once.(stage := ClosingPeer))
    case ClosePeer =>
      l.(resources := r.(closedPeers := r.closedPeers + AsSet(l.once.snapshot.pc)),
         once := l.once.(stage := Deleting))
    case Delete => l.(deleted := true, once := l.once.(stage := Reporting))
    case Report =>
      l.(out := l.out + [Closed(Reason(l.once.cause))], once := l.once.(stage := Ending))
    case EndOnce => l.(once := Finished(l.once.first, l.once.cause, l.once.snapshot))
    case Leave(caller) =>
      l.(callers := l.callers[caller := l.callers[caller].(returned := true)])
  }

  // ---------------------------------------------------------------- one step, and runs

  predicate Can(l: Life, s: Step) {
    match s
    case Offering(o) => CanOffer(l, o)
    case Gathering(c) => CanCandidate(l, c)
    case Channeling(c) => CanChannel(l, c)
    case Linking(k) => CanLink(l, k)
    case Closing(c) => CanClose(l, c)
  }

  function Do(l: Life, s: Step): Life
    requires Can(l, s)
  {
    match s
    case Offering(o) => DoOffer(l, o)
    case Gathering(c) => DoCandidate(l, c)
    case Channeling(c) => DoChannel(l, c)
    case Linking(k) => DoLink(l, k)
    case Closing(c) => DoClose(l, c)
  }

  /** The incarnation after a sequence of steps, if every one of them is enabled. */
  function Steps(l: Life, steps: seq<Step>): Option<Life>
    decreases steps
  {
    if steps == [] then Some(l)
    else if !Can(l, steps[0]) then None
    else Steps(Do(l, steps[0]), steps[1..])
  }

  /** A run can be prolonged by any step enabled at its end. */
  lemma {:induction false} Extend(l: Life, steps: seq<Step>, end: Life, s: Step) returns (longer: seq<Step>)
    requires Steps(l, steps) == Some(end) && Can(end, s)
    ensures longer == steps + [s] && Steps(l, longer) == Some(Do(end, s))
    decreases steps
  {
    longer := steps + [s];
    if steps == [] {
      assert longer[1..] == [];
    } else {
      var rest := Extend(Do(l, steps[0]), steps[1..], end, s);
      assert longer[1..] == rest;
    }
  }

  lemma Prepend(l: Life, s: Step, rest: seq<Step>)
    requires Can(l, s)
    ensures Steps(l, [s] + rest) == Steps(Do(l, s), rest)
  {
    assert ([s] + rest)[1..] == rest;
  }

  /** Two runs, one after the other. */
  lemma {:induction false} Join(l: Life, a: seq<Step>, middle: Life, b: seq<Step>) returns (both: seq<Step>)
    requires Steps(l, a) == Some(middle)
    ensures both == a + b && Steps(l, both) == Steps(middle, b)
    decreases a
  {
    both := a + b;
    if a == [] {
      assert both == b;
    } else {
      var rest := Join(Do(l, a[0]), a[1..], middle, b);
      Prepend(l, a[0], rest);
      assert both == [a[0]] + rest;
    }
  }
}
