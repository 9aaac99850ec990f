/** What a session owns, and what `close` leaves behind. */
module Teardown {
  import opened Wrappers
  import opened TerminalFields
  import opened Lifecycle

  // ---------------------------------------------------------------- stages of close

  predicate Marked(once: Once) {
    once.Finished? || (once.Running? && !once.stage.Entered?)
  }

  predicate PtyDone(once: Once) {
    Marked(once) && (once.Running? ==> !once.stage.ClosingPty?)
  }

  predicate ChannelDone(once: Once) {
    PtyDone(once) && (once.Running? ==> !once.stage.ClosingChannel?)
  }

  predicate PeerDone(once: Once) {
    ChannelDone(once) && (once.Running? ==> !once.stage.ClosingPeer?)
  }

  // ---------------------------------------------------------------- invariant

  /** The offer may still find `t.pc` empty and create a peer connection. */
  predicate PastLookup(offer: Offer) {
    offer.LookedUp? || offer.NeedPeer? || offer.HavePeer?
  }

  /** The offers create at most one peer connection, number 0. */
  predicate OnePeer(l: Life) {
    var offer, peers := l.negotiation.offer, l.resources.peers;
    && peers <= 1
    && (l.fields.pc.Some? ==> l.fields.pc.value == 0 && peers == 1)
    && (offer.NeedPeer? ==> peers == 0)
    && (offer.HavePeer? ==> offer.peer == 0 && peers == 1 && l.fields.pc.None?)
    && (peers == 1 ==> l.fields.pc.Some? || offer.HavePeer?)
    && (l.fields.pc.None? ==> offer.Idle? || PastLookup(offer))
  }

  /** At most one PTY ever starts, and only behind an accepted channel. */
  predicate OnePty(l: Life) {
    && l.resources.ptys <= 1
    && l.fields.pty == (if l.resources.ptys == 1 then Some(0) else None)
    && (l.fields.pty.Some? ==> l.fields.dc.Some?)
  }

  /** The channel's `OnDataChannel` callback is under way: not decided yet, or about to
    * close the channel. */
  predicate InCallback(l: Life, d: nat) {
    d in l.resources.undecided || d in l.resources.rejected
  }

  /** Every channel is in its callback, accepted, or closed by its callback; at most one
    * is accepted. */
  ghost predicate OneChannel(l: Life) {
    var r := l.resources;
    && (l.fields.dc.Some? ==> l.fields.dc.value < r.channels && !InCallback(l, l.fields.dc.value))
    && (forall d | d in r.closedChannels || d in r.undecided || d in r.rejected :: d < r.channels)
    && r.undecided !! r.rejected && r.closedChannels !! r.undecided && r.closedChannels !! r.rejected
    && (forall d: nat | d < r.channels :: InCallback(l, d) || d in r.closedChannels || l.fields.dc == Some(d))
  }

  ghost predicate Snapshots(l: Life) {
    && (l.fields.closed <==> Marked(l.once))
    && (Marked(l.once) ==>
          && l.once.snapshot.pty == l.fields.pty
          && l.once.snapshot.dc == l.fields.dc
          && (l.once.snapshot.pc.Some? ==> l.once.snapshot.pc == l.fields.pc))
    && l.resources.closedPtys == (if PtyDone(l.once) then AsSet(l.once.snapshot.pty) else {})
    && (l.fields.dc.Some? ==> (l.fields.dc.value in l.resources.closedChannels <==> ChannelDone(l.once)))
    && l.resources.closedPeers == (if PeerDone(l.once) then AsSet(l.once.snapshot.pc) else {})
  }

  ghost predicate Invariant(l: Life) {
    OnePeer(l) && OnePty(l) && OneChannel(l) && Snapshots(l)
  }

  lemma OnePeerKept(l: Life, s: OfferStep)
    requires OnePeer(l) && CanOffer(l, s)
    ensures OnePeer(DoOffer(l, s))
  {
  }

  lemma StoredPeerStays(l: Life, s: OfferStep)
    requires OnePeer(l) && CanOffer(l, s)
    ensures l.fields.pc.Some? ==> DoOffer(l, s).fields.pc == l.fields.pc
  {
  }

  /** What offers leave alone. */
  lemma OfferFrame(l: Life, s: OfferStep)
    requires CanOffer(l, s)
    ensures DoOffer(l, s).fields.closed == l.fields.closed
    ensures DoOffer(l, s).fields.pty == l.fields.pty && DoOffer(l, s).fields.dc == l.fields.dc
    ensures DoOffer(l, s).resources ==
      l.resources.(peers := l.resources.peers + if s == NewPeer(true) then 1 else 0)
    ensures DoOffer(l, s).once == l.once
  {
  }

  lemma OfferKept(l: Life, s: OfferStep)
    requires Invariant(l) && CanOffer(l, s)
    ensures Invariant(DoOffer(l, s))
  {
    OnePeerKept(l, s);
    StoredPeerStays(l, s);
    OfferFrame(l, s);
  }

  lemma CandidateKept(l: Life, s: CandidateStep)
    requires Invariant(l) && CanCandidate(l, s)
    ensures Invariant(DoCandidate(l, s))
  {
  }

  lemma OneChannelKept(l: Life, s: ChannelStep)
    requires OneChannel(l) && CanChannel(l, s)
    ensures OneChannel(DoChannel(l, s))
  {
  }

  /** What the channel callbacks leave alone: all but the shell and the channels. */
  lemma ChannelFrame(l: Life, s: ChannelStep)
    requires CanChannel(l, s)
    ensures DoChannel(l, s).once == l.once && DoChannel(l, s).negotiation == l.negotiation
    ensures DoChannel(l, s).fields.pc == l.fields.pc && DoChannel(l, s).fields.closed == l.fields.closed
    ensures DoChannel(l, s).resources.peers == l.resources.peers
    ensures DoChannel(l, s).resources.closedPeers == l.resources.closedPeers
    ensures DoChannel(l, s).resources.closedPtys == l.resources.closedPtys
  {
  }

  lemma ChannelSnapshotsKept(l: Life, s: ChannelStep)
    requires OneChannel(l) && Snapshots(l) && CanChannel(l, s)
    ensures Snapshots(DoChannel(l, s))
  {
    ChannelFrame(l, s);
  }

  lemma ChannelKept(l: Life, s: ChannelStep)
    requires Invariant(l) && CanChannel(l, s)
    ensures Invariant(DoChannel(l, s))
  {
    ChannelFrame(l, s);
    OneChannelKept(l, s);
    ChannelSnapshotsKept(l, s);
  }

  lemma LinkKept(l: Life, s: LinkStep)
    requires Invariant(l) && CanLink(l, s)
    ensures Invariant(DoLink(l, s))
  {
  }

  lemma CloseKept(l: Life, s: CloseStep)
    requires Invariant(l) && CanClose(l, s)
    ensures Invariant(DoClose(l, s))
  {
  }

  lemma StepKept(l: Life, s: Step)
    requires Invariant(l) && Can(l, s)
    ensures Invariant(Do(l, s))
  {
    match s
    case Offering(o) => OfferKept(l, o);
    case Gathering(c) => CandidateKept(l, c);
    case Channeling(c) => ChannelKept(l, c);
    case Linking(k) => LinkKept(l, k);
    case Closing(c) => CloseKept(l, c);
  }

  // ---------------------------------------------------------------- consequences

  predicate OpenPty(l: Life, p: nat) {
    p < l.resources.ptys && p !in l.resources.closedPtys
  }

  predicate OpenChannel(l: Life, d: nat) {
    d < l.resources.channels && d !in l.resources.closedChannels
  }

  predicate OpenPeer(l: Life, p: nat) {
    p < l.resources.peers && p !in l.resources.closedPeers
  }

  /** The open objects are exactly: the shell that the fields name until `close` is past
    * it; the channel that they name, likewise, and the channels in their callbacks; the
    * peer connection that the offer has not stored, and the stored one until `close` is
    * past it, or for good if its snapshot missed it. */
  lemma OpenObjects(l: Life)
    requires Invariant(l)
    ensures forall p: nat :: OpenPty(l, p) <==> l.fields.pty == Some(p) && !PtyDone(l.once)
    ensures forall d: nat :: OpenChannel(l, d) <==>
      InCallback(l, d) || (l.fields.dc == Some(d) && !ChannelDone(l.once))
    ensures forall p: nat :: OpenPeer(l, p) <==>
      || l.negotiation.offer == HavePeer(p)
      || (l.fields.pc == Some(p) && !(PeerDone(l.once) && l.once.snapshot.pc.Some?))
  {
  }

  lemma ClosedChannelStep(l: Life, s: ChannelStep)
    requires Invariant(l) && l.fields.closed && CanChannel(l, s)
    ensures DoChannel(l, s).fields == l.fields && DoChannel(l, s).resources.ptys == l.resources.ptys
    ensures DoChannel(l, s).resources.channels >= l.resources.channels
  {
  }

  predicate SameShell(l: Life, end: Life) {
    && end.fields.closed
    && end.fields.pty == l.fields.pty && end.resources.ptys == l.resources.ptys
    && end.fields.dc == l.fields.dc && end.resources.channels >= l.resources.channels
  }

  lemma ClosedStep(l: Life, s: Step)
    requires Invariant(l) && l.fields.closed && Can(l, s)
    ensures SameShell(l, Do(l, s))
  {
    match s
    case Offering(o) => OfferFrame(l, o);
    case Gathering(c) =>
    case Channeling(c) => ClosedChannelStep(l, c);
    case Linking(k) =>
    case Closing(c) => CloseFrame(l, c);
  }

  /** What `close` leaves alone. */
  lemma CloseFrame(l: Life, s: CloseStep)
    requires CanClose(l, s)
    ensures l.fields.closed ==> DoClose(l, s).fields.closed
    ensures DoClose(l, s).fields.pty == l.fields.pty && DoClose(l, s).fields.dc == l.fields.dc
    ensures DoClose(l, s).resources.ptys == l.resources.ptys
    ensures DoClose(l, s).resources.channels == l.resources.channels
    ensures DoClose(l, s).resources.peers == l.resources.peers
    ensures Marked(l.once) ==> Marked(DoClose(l, s).once) && DoClose(l, s).once.snapshot == l.once.snapshot
  {
  }

  lemma StepsKept(l: Life, steps: seq<Step>)
    requires Invariant(l) && Steps(l, steps).Some?
    ensures Invariant(Steps(l, steps).value)
    decreases steps
  {
    if steps == [] {
    } else {
      StepKept(l, steps[0]);
      StepsKept(Do(l, steps[0]), steps[1..]);
    }
  }

  /** Once the session is marked closed, no shell starts and no channel is accepted. A
    * channel that arrives later is open exactly as long as it is in its callback. */
  lemma {:induction false} NothingStartsAfterClosed(l: Life, steps: seq<Step>)
    requires Invariant(l) && l.fields.closed && Steps(l, steps).Some?
    ensures SameShell(l, Steps(l, steps).value)
    ensures
      var end := Steps(l, steps).value;
      forall d: nat | l.resources.channels <= d :: OpenChannel(end, d) <==> InCallback(end, d)
    decreases steps
  {
    if steps == [] {
    } else {
      var next := Do(l, steps[0]);
      StepKept(l, steps[0]);
      ClosedStep(l, steps[0]);
      NothingStartsAfterClosed(next, steps[1..]);
      StepsKept(next, steps[1..]);
      OpenObjects(Steps(l, steps).value);
    }
  }

  /** When `close` has finished, the shell and the accepted channel are closed: exactly
    * the channels in their callbacks are open. The peer connection is still open exactly
    * if one exists that `close` did not see. */
  lemma FinishedIsTornDown(l: Life)
    requires Invariant(l) && l.once.Finished?
    ensures forall p: nat :: !OpenPty(l, p)
    ensures forall d: nat :: OpenChannel(l, d) <==> InCallback(l, d)
    ensures (exists p: nat :: OpenPeer(l, p)) <==> l.once.snapshot.pc.None? && l.resources.peers > 0
    ensures l.negotiation.offer.Idle? ==>
      ((exists p: nat :: OpenPeer(l, p)) <==> l.once.snapshot.pc != l.fields.pc)
  {
    if l.once.snapshot.pc.None? && l.resources.peers > 0 {
      assert OpenPeer(l, 0);
    }
  }

  // ---------------------------------------------------------------- the peer that outlives its session

  const CREATE := Offering(NewPeer(true))
  const FIND := Offering(Find)

  lemma PeerStep(l: Life, s: Step)
    requires Invariant(l) && Marked(l.once) && Can(l, s)
    ensures Marked(Do(l, s).once) && Do(l, s).once.snapshot == l.once.snapshot
    ensures Do(l, s).resources.peers == l.resources.peers + if s == CREATE then 1 else 0
  {
    match s
    case Offering(o) => OfferFrame(l, o);
    case Gathering(c) =>
    case Channeling(c) => ChannelFrame(l, c);
    case Linking(k) =>
    case Closing(c) => CloseFrame(l, c);
  }

  lemma {:induction false} PeersCreated(l: Life, steps: seq<Step>)
    requires Invariant(l) && Marked(l.once) && Steps(l, steps).Some?
    ensures Marked(Steps(l, steps).value.once) && Steps(l, steps).value.once.snapshot == l.once.snapshot
    ensures Steps(l, steps).value.resources.peers > 0 <==> l.resources.peers > 0 || CREATE in steps
    decreases steps
  {
    if steps == [] {
    } else {
      StepKept(l, steps[0]);
      PeerStep(l, steps[0]);
      PeersCreated(Do(l, steps[0]), steps[1..]);
      assert steps == [steps[0]] + steps[1..];
    }
  }

  /** From the moment `close` has taken its snapshot: a peer connection outlives the
    * session exactly if the offer then held one it had not stored yet, or creates
    * one afterwards. */
  lemma PeerOutlivesExactlyIf(l: Life, steps: seq<Step>)
    requires Invariant(l) && l.once.Running? && l.once.stage.ClosingPty? && l.once.snapshot.pc == l.fields.pc
    requires Steps(l, steps).Some? && Steps(l, steps).value.once.Finished?
    ensures (exists p: nat :: OpenPeer(Steps(l, steps).value, p)) <==>
      l.negotiation.offer.HavePeer? || CREATE in steps
  {
    PeersCreated(l, steps);
    StepsKept(l, steps);
    FinishedIsTornDown(Steps(l, steps).value);
    if l.fields.pc.Some? {
      NoSecondPeer(l, steps);
    }
  }

  lemma {:induction false} NoSecondPeer(l: Life, steps: seq<Step>)
    requires Invariant(l) && l.resources.peers > 0 && Steps(l, steps).Some?
    ensures CREATE !in steps
    decreases steps
  {
    if steps == [] {
    } else {
      StepKept(l, steps[0]);
      assert steps[0] != CREATE;
      PeersOnlyGrow(l, steps[0]);
      NoSecondPeer(Do(l, steps[0]), steps[1..]);
      assert steps == [steps[0]] + steps[1..];
    }
  }

  lemma PeersOnlyGrow(l: Life, s: Step)
    requires Can(l, s)
    ensures Do(l, s).resources.peers >= l.resources.peers
  {
  }

  /** No peer connection outlives the session if, when `close` took its snapshot, no
    * offer stood between its map lookup and storing `t.pc`, and no offer looks the
    * session up afterwards. */
  lemma {:induction false} NoLateOfferNoPeer(l: Life, steps: seq<Step>)
    requires Invariant(l) && Marked(l.once) && !PastLookup(l.negotiation.offer)
    requires FIND !in steps && Steps(l, steps).Some?
    ensures CREATE !in steps
    decreases steps
  {
    if steps == [] {
    } else {
      StepKept(l, steps[0]);
      NoLookup(l, steps[0]);
      NoLateOfferNoPeer(Do(l, steps[0]), steps[1..]);
      assert steps == [steps[0]] + steps[1..];
    }
  }

  lemma NoLookup(l: Life, s: Step)
    requires Can(l, s) && !PastLookup(l.negotiation.offer) && s != FIND
    ensures s != CREATE && !PastLookup(Do(l, s).negotiation.offer)
  {
  }
}
