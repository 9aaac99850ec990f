/** When a peer connection outlives its session.
  *
  * `offer` stores `t.pc` without looking at `closed`, and a session can be looked up
  * until `close` deletes it. So the snapshot that `close` takes can miss a peer
  * connection, and nobody closes it afterwards.
  */
module PeerOutlives {
  import opened Wrappers
  import opened CloseCauses
  import opened Lifecycle
  import opened World
  import WorldSafety
  import TerminalTheorems
  import Teardown
  import WorldRuns

  // ---------------------------------------------------------------- the exact condition

  /** `close` takes its snapshot in `w`; some time later, after `steps`, it has
    * finished. A peer connection is then open exactly if the offer held one at the
    * snapshot that it had not stored yet, or created one afterwards. */
  lemma ExactlyIfNotStored(w: World, i: nat, steps: seq<WorldStep>)
    requires TerminalTheorems.Reachable(w) && CanWorld(w, Inside(i, Closing(Mark)))
    requires
      var run := Run(DoWorld(w, Inside(i, Closing(Mark))), steps);
      run.Some? && i < |run.value.sessions| && run.value.sessions[i].life.once.Finished?
    ensures
      var marked := DoWorld(w, Inside(i, Closing(Mark)));
      (exists p: nat :: Teardown.OpenPeer(Run(marked, steps).value.sessions[i].life, p)) <==>
        w.sessions[i].life.negotiation.offer.HavePeer? || Teardown.CREATE in WorldSafety.Local(marked, steps, i)
  {
    var marked := DoWorld(w, Inside(i, Closing(Mark)));
    TerminalTheorems.LifeOf(w, i);
    Teardown.CloseKept(w.sessions[i].life, Mark);
    WorldSafety.Project(marked, steps, i);
    Teardown.PeerOutlivesExactlyIf(marked.sessions[i].life, WorldSafety.Local(marked, steps, i));
  }

  /** None outlives the session if no offer stood between its lookup and storing `t.pc`
    * at the snapshot, and no later offer finds the session before its deletion. */
  lemma NoneWithoutLateOffer(w: World, i: nat, steps: seq<WorldStep>)
    requires TerminalTheorems.Reachable(w) && CanWorld(w, Inside(i, Closing(Mark)))
    requires !Teardown.PastLookup(w.sessions[i].life.negotiation.offer)
    requires
      var marked := DoWorld(w, Inside(i, Closing(Mark)));
      var run := Run(marked, steps);
      && run.Some? && i < |run.value.sessions| && run.value.sessions[i].life.once.Finished?
      && Teardown.FIND !in WorldSafety.Local(marked, steps, i)
    ensures
      var marked := DoWorld(w, Inside(i, Closing(Mark)));
      forall p: nat :: !Teardown.OpenPeer(Run(marked, steps).value.sessions[i].life, p)
  {
    var marked := DoWorld(w, Inside(i, Closing(Mark)));
    TerminalTheorems.LifeOf(w, i);
    Teardown.CloseKept(w.sessions[i].life, Mark);
    WorldSafety.Project(marked, steps, i);
    Teardown.NoLateOfferNoPeer(marked.sessions[i].life, WorldSafety.Local(marked, steps, i));
    ExactlyIfNotStored(w, i, steps);
  }

  // ---------------------------------------------------------------- a lookup after the snapshot

  /** With the control loop free, an offer finds a session exactly until it is deleted,
    * closed or not. */
  lemma FoundUntilDeleted(w: World, i: nat)
    requires TerminalTheorems.Reachable(w) && w.control.Free? && i < |w.sessions|
    ensures !w.sessions[i].life.deleted <==>
      && CanWorld(w, Signal(w.sessions[i].id, OfferSignal))
      && WorldSafety.Touch(w, Signal(w.sessions[i].id, OfferSignal)) == Some((i, Teardown.FIND))
  {
    TerminalTheorems.ReachableMap(w);
  }

  /** `CloseAll` is about to take the snapshot of the one terminal; no offer ever arrived. */
  const ENTERED := OPENED.(
    callers := [Caller(AgentShutdown, false)],
    once := Running(0, AgentShutdown, Entered, NO_SNAPSHOT))

  const CLOSING := World([Terminal("t", ENTERED)], map["t" := 0], Free, [Sweep([0], 0, Some(0))])

  const SWEEPING := World([Terminal("t", OPENED)], map["t" := 0], Free, [Sweep([0], 0, None)])

  lemma SweepingIsReached() returns (steps: seq<WorldStep>)
    ensures Run(INITIAL, steps) == Some(SWEEPING)
  {
    var w := DoWorld(INITIAL, Open("t"));
    steps := WorldRuns.OneMore(INITIAL, [], INITIAL, Open("t"));
    assert w == World([Terminal("t", OPENED)], map["t" := 0], Free, []);
    assert 0 in [0];
    steps := WorldRuns.OneMore(INITIAL, steps, w, StartSweep([0]));
    assert DoWorld(w, StartSweep([0])) == SWEEPING;
  }

  lemma ClosingIsReached()
    ensures TerminalTheorems.Reachable(CLOSING)
  {
    var steps := SweepingIsReached();
    var w := DoWorld(SWEEPING, SweepCall(0));
    steps := WorldRuns.OneMore(INITIAL, steps, SWEEPING, SweepCall(0));
    assert w.sessions[0].life == OPENED.(callers := [Caller(AgentShutdown, false)]);
    steps := WorldRuns.OneMore(INITIAL, steps, w, Inside(0, Closing(Enter(0))));
    var end := DoWorld(w, Inside(0, Closing(Enter(0))));
    assert end.sessions == CLOSING.sessions && end.sweeps == CLOSING.sweeps;
    assert end == CLOSING;
  }

  /** The snapshot is taken, and an offer has looked the session up only now. */
  const FOUND := ENTERED.(
    fields := ENTERED.fields.(closed := true),
    once := Running(0, AgentShutdown, ClosingPty, NO_SNAPSHOT),
    negotiation := ENTERED.negotiation.(offer := LookedUp))

  const STORED := FOUND.(
    fields := FOUND.fields.(pc := Some(0)),
    negotiation := FOUND.negotiation.(offer := Ready),
    resources := FOUND.resources.(peers := 1))

  /** The offer creates its peer connection and stores it. */
  lemma LateStore() returns (steps: seq<Step>)
    ensures WorldRuns.OwnSteps(steps) && Steps(FOUND, steps) == Some(STORED)
  {
    var l1 := Do(FOUND, Offering(ReadPeer));
    steps := Extend(FOUND, [], FOUND, Offering(ReadPeer));
    var l2 := Do(l1, Offering(NewPeer(true)));
    steps := Extend(FOUND, steps, l1, Offering(NewPeer(true)));
    steps := Extend(FOUND, steps, l2, Offering(StorePeer));
    assert Do(l2, Offering(StorePeer)) == STORED;
  }

  const AFTER_OFFER := STORED.(negotiation := STORED.negotiation.(offer := Idle, generation := 1))

  /** It fails later on. */
  lemma LateOffer() returns (steps: seq<Step>)
    ensures WorldRuns.OwnSteps(steps) && Steps(FOUND, steps) == Some(AFTER_OFFER)
  {
    steps := LateStore();
    var l := Do(STORED, Offering(Begin));
    steps := Extend(FOUND, steps, STORED, Offering(Begin));
    steps := Extend(FOUND, steps, l, Offering(Negotiate(false)));
    assert Do(l, Offering(Negotiate(false))) == AFTER_OFFER;
  }

  const CLOSING_DONE := AFTER_OFFER.(deleted := true, once := AFTER_OFFER.once.(stage := Reporting))

  lemma RestOfClose() returns (steps: seq<Step>)
    ensures WorldRuns.OwnSteps(steps) && Steps(FOUND, steps) == Some(CLOSING_DONE)
  {
    steps := LateOffer();
    var l1 := Do(AFTER_OFFER, Closing(ClosePty));
    steps := Extend(FOUND, steps, AFTER_OFFER, Closing(ClosePty));
    var l2 := Do(l1, Closing(CloseChannel));
    steps := Extend(FOUND, steps, l1, Closing(CloseChannel));
    var l3 := Do(l2, Closing(ClosePeer));
    steps := Extend(FOUND, steps, l2, Closing(ClosePeer));
    steps := Extend(FOUND, steps, l3, Closing(Delete));
    assert Do(l3, Closing(Delete)) == CLOSING_DONE;
  }

  lemma EndOfClose() returns (steps: seq<Step>, end: Life)
    ensures WorldRuns.OwnSteps(steps) && Steps(FOUND, steps) == Some(end)
    ensures end.once.Finished? && end.negotiation.offer.Idle? && Teardown.OpenPeer(end, 0)
  {
    steps := RestOfClose();
    steps := Extend(FOUND, steps, CLOSING_DONE, Closing(Report));
    var l := Do(CLOSING_DONE, Closing(Report));
    steps := Extend(FOUND, steps, l, Closing(EndOnce));
    end := Do(l, Closing(EndOnce));
  }

  /** A peer connection can outlive its session although no offer was under way when
    * `close` took its snapshot, as long as the session was still to be found. */
  lemma LateLookupLeavesPeer() returns (w: World, steps: seq<WorldStep>, end: World)
    ensures TerminalTheorems.Reachable(w) && CanWorld(w, Inside(0, Closing(Mark)))
    ensures w.sessions[0].life.negotiation.offer.Idle? && w.sessions[0].life.resources.peers == 0
    ensures Run(DoWorld(w, Inside(0, Closing(Mark))), steps) == Some(end) && |end.sessions| == 1
    ensures
      var l := end.sessions[0].life;
      l.once.Finished? && l.negotiation.offer.Idle? && Teardown.OpenPeer(l, 0)
  {
    w := CLOSING;
    ClosingIsReached();
    var marked := DoWorld(w, Inside(0, Closing(Mark)));
    var found := DoWorld(marked, Signal("t", OfferSignal));
    assert found.sessions[0].life == FOUND;
    var inner, last := EndOfClose();
    var lifted;
    lifted, end := WorldRuns.Lift(found, 0, inner);
    steps := [Signal("t", OfferSignal)] + lifted;
    assert steps[1..] == lifted;
  }
}
