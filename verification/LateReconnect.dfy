/** A run in which a terminal is closed for a recovery timeout although its link is up. */
module LateReconnect {
  import opened Wrappers
  import opened CloseCauses
  import opened Lifecycle
  import opened World
  import RecoveryTimer
  import TerminalTheorems
  import WorldRuns

  /** The control loop is in the first offer of the one terminal. */
  const FOUND := OPENED.(negotiation := OPENED.negotiation.(offer := LookedUp))
  const OFFERED := World([Terminal("t", FOUND)], map["t" := 0], InOffer(0), [])

  lemma OfferedIsReached() returns (steps: seq<WorldStep>)
    ensures Run(INITIAL, steps) == Some(OFFERED)
  {
    var w1 := DoWorld(INITIAL, Open("t"));
    steps := WorldRuns.OneMore(INITIAL, [], INITIAL, Open("t"));
    steps := WorldRuns.OneMore(INITIAL, steps, w1, Signal("t", OfferSignal));
    assert DoWorld(w1, Signal("t", OfferSignal)) == OFFERED;
  }

  /** The link is lost, and the window passes. */
  const WAITED := FOUND.(
    fields := FOUND.fields.(recovery := Some(0)),
    negotiation := FOUND.negotiation.(offer := HavePeer(0)),
    resources := FOUND.resources.(peers := 1),
    recovery := Recovery(RECOVERY_WINDOW, [Timer(0, 0, Pending)], [Armed(0, 0)]))

  const HOLDING := FOUND.(
    negotiation := FOUND.negotiation.(offer := HavePeer(0)),
    resources := FOUND.resources.(peers := 1))

  lemma GetsPeer() returns (steps: seq<Step>)
    ensures WorldRuns.OwnSteps(steps) && Closing(Delete) !in steps
    ensures Steps(FOUND, steps) == Some(HOLDING)
  {
    var l := Do(FOUND, Offering(ReadPeer));
    steps := Extend(FOUND, [], FOUND, Offering(ReadPeer));
    steps := Extend(FOUND, steps, l, Offering(NewPeer(true)));
    assert Do(l, Offering(NewPeer(true))) == HOLDING;
  }

  lemma WindowPasses() returns (steps: seq<Step>)
    ensures WorldRuns.OwnSteps(steps) && Closing(Delete) !in steps
    ensures Steps(FOUND, steps) == Some(WAITED)
  {
    steps := GetsPeer();
    var l := Do(HOLDING, Linking(LinkDisconnected));
    steps := Extend(FOUND, steps, HOLDING, Linking(LinkDisconnected));
    steps := Extend(FOUND, steps, l, Linking(Tick(RECOVERY_WINDOW)));
    assert Do(l, Linking(Tick(RECOVERY_WINDOW))) == WAITED;
  }

  lemma WaitedIsReached() returns (steps: seq<WorldStep>, w: World)
    ensures Run(INITIAL, steps) == Some(w) && w.sessions == [Terminal("t", WAITED)]
  {
    steps := OfferedIsReached();
    var waiting := WindowPasses();
    var lifted;
    lifted, w := WorldRuns.Lift(OFFERED, 0, waiting);
    steps := WorldRuns.Join(INITIAL, steps, OFFERED, lifted, w);
    assert w.sessions == [Terminal("t", WAITED)];
  }

  /** The timer fires, the link comes back, and `close` runs for the timer. */
  lemma Reconnects() returns (steps: seq<Step>, end: Life)
    requires RecoveryTimer.Invariant(WAITED)
    ensures WorldRuns.OwnSteps(steps) && Steps(WAITED, steps) == Some(end)
    ensures end.fields.closed && end.once.Running? && end.once.cause == RecoveryTimeout(0)
    ensures end.recovery.notes == [Armed(0, 0), Expired(0, RECOVERY_WINDOW), Connected]
  {
    steps, end := RecoveryTimer.ReconnectAfterExpiry(WAITED, 0);
  }

  lemma WaitedIsSound(w: World)
    requires TerminalTheorems.Reachable(w) && w.sessions == [Terminal("t", WAITED)]
    ensures RecoveryTimer.Invariant(WAITED)
  {
    TerminalTheorems.LifeOf(w, 0);
  }

  /** Such a world is reached: the last connection state that was processed is Connected,
    * and yet the session is closed for a recovery timeout. */
  lemma ClosedWhileConnected() returns (w: World)
    ensures TerminalTheorems.Reachable(w) && |w.sessions| == 1
    ensures
      var l := w.sessions[0].life;
      && l.fields.closed && l.once.Running? && l.once.cause == RecoveryTimeout(0)
      && l.recovery.notes == [Armed(0, 0), Expired(0, 10), Connected]
  {
    var outer, waited := WaitedIsReached();
    WaitedIsSound(waited);
    var closing, end := Reconnects();
    var lifted;
    lifted, w := WorldRuns.Lift(waited, 0, closing);
    outer := WorldRuns.Join(INITIAL, outer, waited, lifted, w);
  }
}
