/** What each event at a session brings about: shells that start, channels that are
  * accepted, and calls of `close` with their reason texts. */
module StepEffects {
  import opened Wrappers
  import opened TerminalFields
  import opened CloseCauses
  import opened Lifecycle
  import Frames

  // ---------------------------------------------------------------- shells

  /** One new shell, which the session names; the active signal is yet to be sent. */
  predicate ShellStarted(l: Life, l': Life) {
    var p := l.resources.ptys;
    l' == l.(fields := l.fields.(pty := Some(p)),
             resources := l.resources.(ptys := p + 1, openings := l.resources.openings + 1))
  }

  predicate OnlyCalled(l: Life, l': Life, cause: Cause) {
    l' == l.(callers := l.callers + [Caller(cause, false)])
  }

  /** When the channel opens, a shell starts exactly if starting it succeeds on a session
    * that is open and has none. Otherwise `close` is called, and nothing else changes. */
  lemma ShellStartsExactlyIf(l: Life, spawned: bool)
    requires l.fields.dc.Some?
    ensures CanChannel(l, OpenChannel(spawned))
    ensures
      var l' := DoChannel(l, OpenChannel(spawned));
      if spawned && !l.fields.closed && l.fields.pty.None?
      then ShellStarted(l, l')
      else OnlyCalled(l, l', PtyStartFailed)
  {
  }

  // ---------------------------------------------------------------- channels

  /** A channel arrives, and is neither accepted nor rejected yet. */
  lemma ArrivesUndecided(l: Life)
    requires l.resources.peers > 0
    ensures CanChannel(l, Arrive)
    ensures
      var r := l.resources;
      DoChannel(l, Arrive) == l.(resources := r.(channels := r.channels + 1, undecided := r.undecided + {r.channels}))
  {
  }

  /** A channel is accepted exactly if it has the right label and is the first one of a
    * session that is open. Otherwise it is rejected; nothing else changes. */
  lemma AcceptedExactlyIf(l: Life, d: nat, labelOk: bool)
    requires d in l.resources.undecided
    ensures CanChannel(l, Decide(d, labelOk))
    ensures
      var l', r := DoChannel(l, Decide(d, labelOk)), l.resources;
      if labelOk && !l.fields.closed && l.fields.dc.None?
      then l' == l.(fields := l.fields.(dc := Some(d)), resources := r.(undecided := r.undecided - {d}))
      else l' == l.(resources := r.(undecided := r.undecided - {d}, rejected := r.rejected + {d}))
  {
  }

  /** A rejected channel gets closed by its callback. */
  lemma RejectedIsClosed(l: Life, d: nat)
    requires d in l.resources.rejected
    ensures CanChannel(l, CloseRejected(d))
    ensures
      var r := l.resources;
      DoChannel(l, CloseRejected(d)) ==
        l.(resources := r.(rejected := r.rejected - {d}, closedChannels := r.closedChannels + {d}))
  {
  }

  // ---------------------------------------------------------------- candidates

  /** A candidate whose callback is past the unlock can leave; nothing else changes. */
  lemma DirectSendLeaves(l: Life, call: nat)
    requires call in l.negotiation.direct
    ensures CanCandidate(l, SendDirect(call))
    ensures DoCandidate(l, SendDirect(call)) ==
      l.(negotiation := l.negotiation.(direct := l.negotiation.direct - {call}), out := l.out + [Candidate(call)])
  {
  }

  // ---------------------------------------------------------------- calls of close

  /** The reason for which a message makes its session close, if it does. */
  function MessageReason(isText: bool, data: seq<Frames.byte>, ready: bool, ioOk: bool): seq<string> {
    if isText || !(1 <= |data| <= 65536) then ["invalid_frame"]
    else if !ready then ["terminal_unavailable"]
    else if data[0] == 1 then (if ioOk then [] else ["pty_write_failed"])
    else if data[0] == 2 then (if Frames.DecodeFrame(data, true).Ok? && ioOk then [] else ["invalid_resize"])
    else ["invalid_frame"]
  }

  /** The reasons with which an event makes somebody call `close`. */
  function Calls(l: Life, s: Step): seq<string> {
    match s
    case Channeling(OpenChannel(spawned)) =>
      if spawned && !l.fields.closed && l.fields.pty.None? then [] else ["pty_start_failed"]
    case Channeling(ShellExits) => ["shell_exit"]
    case Channeling(Message(isText, data, ioOk)) =>
      MessageReason(isText, data, l.fields.pty.Some? && !l.fields.closed, ioOk)
    case Linking(LinkClosed) => ["channel_closed"]
    case Linking(Fire(_)) => ["recovery_timeout"]
    case Closing(Call(Browser(decoded))) =>
      [if decoded.Some? && 1 <= |decoded.value| <= 64 then decoded.value else "browser_closed"]
    case Closing(Call(AgentShutdown)) => ["agent_shutdown"]
    case _ => []
  }

  /** The callers stay, but for the returns, and exactly one more comes with every reason. */
  predicate CallersGrow(l: Life, l': Life, reasons: seq<string>) {
    && |l'.callers| == |l.callers| + |reasons|
    && (forall c: nat | c < |l.callers| :: l'.callers[c].cause == l.callers[c].cause)
    && (forall k: nat | k < |reasons| ::
          Reason(l'.callers[|l.callers| + k].cause) == reasons[k] && !l'.callers[|l.callers| + k].returned)
  }

  lemma MessageCalls(l: Life, isText: bool, data: seq<Frames.byte>, ioOk: bool)
    requires l.fields.dc.Some?
    ensures CanChannel(l, Message(isText, data, ioOk))
    ensures
      var l' := DoChannel(l, Message(isText, data, ioOk));
      CallersGrow(l, l', MessageReason(isText, data, l.fields.pty.Some? && !l.fields.closed, ioOk))
      && l' == l.(callers := l'.callers)
  {
    Frames.VerdictExactly(isText, data, l.fields.pty.Some? && !l.fields.closed, ioOk, true);
    Frames.DecodesExactly(data, true);
  }

  lemma ChannelCalls(l: Life, s: ChannelStep)
    requires CanChannel(l, s)
    ensures CallersGrow(l, DoChannel(l, s), Calls(l, Channeling(s)))
  {
    if s.Message? {
      MessageCalls(l, s.isText, s.data, s.ioOk);
    }
  }

  lemma LinkCalls(l: Life, s: LinkStep)
    requires CanLink(l, s)
    ensures CallersGrow(l, DoLink(l, s), Calls(l, Linking(s)))
  {
  }

  lemma CloseCalls(l: Life, s: CloseStep)
    requires CanClose(l, s)
    ensures CallersGrow(l, DoClose(l, s), Calls(l, Closing(s)))
  {
  }

  lemma OfferCalls(l: Life, s: OfferStep)
    requires CanOffer(l, s)
    ensures DoOffer(l, s).callers == l.callers
  {
  }

  /** Every step of a session adds exactly these callers of `close`. */
  lemma CallersExactly(l: Life, s: Step)
    requires Can(l, s)
    ensures CallersGrow(l, Do(l, s), Calls(l, s))
  {
    match s
    case Offering(o) => OfferCalls(l, o);
    case Gathering(c) =>
    case Channeling(c) => ChannelCalls(l, c);
    case Linking(k) => LinkCalls(l, k);
    case Closing(c) => CloseCalls(l, c);
  }

  // ---------------------------------------------------------------- always possible

  /** The library may call back at any time once there is a peer connection, the shell may
    * exit at any time once there is one, and somebody may always call `close`. */
  lemma CallbacksAreAlwaysTaken(l: Life, cause: Cause)
    ensures l.resources.peers > 0 ==>
      && Can(l, Gathering(Gathered)) && Can(l, Gathering(EndOfCandidates))
      && Can(l, Linking(LinkDisconnected)) && Can(l, Linking(LinkFailed))
      && Can(l, Linking(LinkConnected)) && Can(l, Linking(LinkClosed))
    ensures l.fields.pty.Some? ==> Can(l, Channeling(ShellExits))
    ensures cause.Browser? || cause.AgentShutdown? ==> Can(l, Closing(Call(cause)))
  {
  }

  // ---------------------------------------------------------------- offers that fail

  /** An offer that fails ends there; what it has done so far stays. */
  lemma FailedOfferEnds(l: Life, s: OfferStep)
    requires CanOffer(l, s)
    requires s == Malformed || s == NewPeer(false) || s == Negotiate(false) || s == SendAnswer(false)
    ensures DoOffer(l, s) == l.(negotiation := l.negotiation.(offer := Idle))
  {
  }
}
