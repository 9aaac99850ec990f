/** The promises of the terminal package, for every run of all terminals together. */
module TerminalTheorems {
  import opened Wrappers
  import opened TerminalFields
  import opened CloseCauses
  import opened Lifecycle
  import opened World
  import WorldSafety
  import Candidates
  import FlushOrder
  import Teardown
  import CloseOnce
  import RecoveryTimer
  import FailedLink
  import ActiveOnce
  import WorldRuns

  ghost predicate Reachable(w: World) {
    exists steps: seq<WorldStep> :: Run(INITIAL, steps) == Some(w)
  }

  lemma ReachableSafe(w: World)
    requires Reachable(w)
    ensures WorldSafety.Invariant(w)
  {
    var steps: seq<WorldStep> :| Run(INITIAL, steps) == Some(w);
    WorldSafety.RunKept(INITIAL, steps);
  }

  lemma ReachableMap(w: World)
    requires Reachable(w)
    ensures WorldSafety.MapExact(w) && WorldSafety.OffersSerial(w) && WorldSafety.SweepsSound(w)
  {
    ReachableSafe(w);
  }

  lemma ReachableControl(w: World)
    requires Reachable(w)
    ensures WorldSafety.ControlSound(w)
  {
    ReachableSafe(w);
  }

  lemma ReachableOn(w: World, steps: seq<WorldStep>)
    requires Reachable(w) && Run(w, steps).Some?
    ensures Reachable(Run(w, steps).value)
  {
    var before: seq<WorldStep> :| Run(INITIAL, before) == Some(w);
    var both := WorldRuns.Join(INITIAL, before, w, steps, Run(w, steps).value);
  }

  lemma LifeOf(w: World, i: nat)
    requires Reachable(w) && i < |w.sessions|
    ensures WorldSafety.LifeSafe(w.sessions[i].life)
  {
    ReachableSafe(w);
  }

  // ---------------------------------------------------------------- candidates

  /** No local candidate is handed over twice. One accepted in a generation whose
    * answer was sent is handed over or still on its way, never lost; one accepted
    * in any other generation is not handed over. */
  lemma CandidatesConserved(w: World, i: nat, c: nat)
    requires Reachable(w) && i < |w.sessions|
    ensures
      var v := Candidates.ViewOf(w.sessions[i].life);
      && v.Sends(c) <= 1
      && (v.Answered(c) ==> v.Sends(c) + v.Waiting(c) == 1)
      && (!v.Answered(c) ==> v.Sends(c) == 0)
  {
    LifeOf(w, i);
    var v := Candidates.ViewOf(w.sessions[i].life);
    assert v.ConservedAt(c);
    if !v.Answered(c) {
      assert Candidate(c) !in v.out;
    }
  }

  /** With no offer under way and no callback before its send, exactly the candidates
    * accepted under a sent answer were handed over, once each. */
  lemma QuietMeansAllSent(w: World, i: nat, c: nat)
    requires Reachable(w) && i < |w.sessions|
    requires w.sessions[i].life.negotiation.offer.Idle? && w.sessions[i].life.negotiation.direct == {}
    ensures
      var v := Candidates.ViewOf(w.sessions[i].life);
      v.Sends(c) == if v.Answered(c) then 1 else 0
  {
    CandidatesConserved(w, i, c);
    LifeOf(w, i);
    var v := Candidates.ViewOf(w.sessions[i].life);
    if v.Answered(c) && c in v.buffer {
      assert v.acceptedIn[c] == v.generation && v.AnswerOut();
    }
  }

  /** Every candidate signal follows the answer of the generation that accepted it. */
  lemma AnswerBeforeCandidate(w: World, i: nat, k: nat)
    requires Reachable(w) && i < |w.sessions|
    requires k < |w.sessions[i].life.out| && w.sessions[i].life.out[k].Candidate?
    ensures
      var l := w.sessions[i].life;
      var c := l.out[k].call;
      && c < |l.negotiation.acceptedIn|
      && exists j: nat :: j < k && l.out[j] == Answer(l.negotiation.acceptedIn[c])
  {
    LifeOf(w, i);
    var l := w.sessions[i].life;
    var v := Candidates.ViewOf(l);
    assert v.Ordered() && v.out[k].Candidate?;
    var answer := Answer(l.negotiation.acceptedIn[l.out[k].call]);
    assert answer in l.out[..k];
    var j :| 0 <= j < k && l.out[..k][j] == answer;
    assert l.out[j] == answer;
  }

  /** Candidates that had to wait for an answer leave in the order in which they were
    * gathered, also across offers. */
  lemma HeldInOrder(w: World, i: nat, j: nat, k: nat)
    requires Reachable(w) && i < |w.sessions| && j < k < |w.sessions[i].life.out|
    requires FlushOrder.Held(w.sessions[i].life, j) && FlushOrder.Held(w.sessions[i].life, k)
    ensures w.sessions[i].life.out[j].call < w.sessions[i].life.out[k].call
  {
    LifeOf(w, i);
  }

  // ---------------------------------------------------------------- the map

  /** Two incarnations of one id are never both undeleted, and the map holds exactly
    * the undeleted ones. */
  lemma MapHoldsTheLiving(w: World)
    requires Reachable(w)
    ensures forall i: nat, j: nat | i < j < |w.sessions| && w.sessions[i].id == w.sessions[j].id ::
      w.sessions[i].life.deleted || w.sessions[j].life.deleted
    ensures forall id: string, i: nat ::
      id in w.terminals && w.terminals[id] == i <==>
        i < |w.sessions| && w.sessions[i].id == id && !w.sessions[i].life.deleted
  {
    ReachableMap(w);
  }

  /** The delete in `close` goes by id, and yet removes the closing session itself and
    * nothing else. */
  lemma DeleteRemovesSelf(w: World, i: nat)
    requires Reachable(w) && CanWorld(w, Inside(i, Closing(Delete)))
    ensures
      var id := w.sessions[i].id;
      var after := DoWorld(w, Inside(i, Closing(Delete))).terminals;
      && id in w.terminals && w.terminals[id] == i
      && id !in after
      && (forall other | other != id :: (other in after <==> other in w.terminals) && (other in after ==> after[other] == w.terminals[other]))
  {
    ReachableMap(w);
    UndeletedBeforeDelete(w, i);
  }

  lemma UndeletedBeforeDelete(w: World, i: nat)
    requires Reachable(w) && EnabledAt(w, i, Closing(Delete))
    ensures !w.sessions[i].life.deleted
  {
    LifeOf(w, i);
  }

  /** The control loop turns to the next event only when `offer`, or its call of `close`,
    * has returned. */
  lemma LoopWaits(w: World, s: WorldStep)
    requires Reachable(w) && CanWorld(w, s) && DoWorld(w, s).control != w.control && !w.control.Free?
    ensures w.control.session < |w.sessions|
    ensures w.control.InOffer? ==> w.sessions[w.control.session].life.negotiation.offer.Idle?
    ensures w.control.InClose? ==>
      var callers := w.sessions[w.control.session].life.callers;
      w.control.caller < |callers| && callers[w.control.caller].returned
  {
    ReachableControl(w);
  }

  // ---------------------------------------------------------------- close

  /** One close signal per incarnation, at most: none until `close` gets to send it, and
    * exactly one from then on, after the removal from the map, with the reason of the
    * first caller. No caller returns before `close` has finished. */
  lemma OneCloseSignal(w: World, i: nat)
    requires Reachable(w) && i < |w.sessions|
    ensures
      var l := w.sessions[i].life;
      && (!CloseOnce.Reported(l.once) ==> CloseOnce.CloseReasons(l.out) == [])
      && (CloseOnce.Reported(l.once) ==>
            && l.deleted
            && l.once.first < |l.callers|
            && CloseOnce.CloseReasons(l.out) == [Reason(l.callers[l.once.first].cause)])
      && (forall k | 0 <= k < |l.callers| && l.callers[k].returned :: l.once.Finished?)
  {
    LifeOf(w, i);
  }

  /** What `close` leaves when it has finished: nothing of its own is open, but for a
    * peer connection that its snapshot missed. */
  ghost predicate TornDown(l: Life) {
    && l.once.Finished? && l.deleted
    && |CloseOnce.CloseReasons(l.out)| == 1
    && (forall p: nat :: !Teardown.OpenPty(l, p))
    && (forall d: nat :: Teardown.OpenChannel(l, d) <==> Teardown.InCallback(l, d))
    && ((exists p: nat :: Teardown.OpenPeer(l, p)) <==> l.once.snapshot.pc.None? && l.resources.peers > 0)
  }

  /** When a call of `CloseAll` returns, every terminal it read from the map is torn
    * down, whoever began to close it, and whatever offer is under way. */
  lemma CloseAllTearsDown(w: World, k: nat, j: nat)
    requires Reachable(w) && k < |w.sweeps|
    requires w.sweeps[k].done == |w.sweeps[k].targets| && j < |w.sweeps[k].targets|
    ensures w.sweeps[k].targets[j] < |w.sessions|
    ensures TornDown(w.sessions[w.sweeps[k].targets[j]].life)
  {
    ReachableSafe(w);
    assert WorldSafety.SweepSound(w, w.sweeps[k]);
    var i := w.sweeps[k].targets[j];
    LifeOf(w, i);
    Teardown.FinishedIsTornDown(w.sessions[i].life);
  }

  /** A call of `CloseAll` that begins in `w` and returns in some later world has closed
    * every terminal that was not deleted in `w`: all of them are torn down. */
  lemma CloseAllClosesEverything(w: World, order: seq<nat>, steps: seq<WorldStep>, i: nat)
    requires Reachable(w) && CanWorld(w, StartSweep(order))
    requires Run(DoWorld(w, StartSweep(order)), steps).Some?
    requires
      var end := Run(DoWorld(w, StartSweep(order)), steps).value;
      |w.sweeps| < |end.sweeps| && end.sweeps[|w.sweeps|].done == |end.sweeps[|w.sweeps|].targets|
    requires i < |w.sessions| && !w.sessions[i].life.deleted
    ensures
      var end := Run(DoWorld(w, StartSweep(order)), steps).value;
      i < |end.sessions| && TornDown(end.sessions[i].life)
  {
    var k, started := |w.sweeps|, DoWorld(w, StartSweep(order));
    var end := Run(started, steps).value;
    ReachableMap(w);
    assert w.terminals[w.sessions[i].id] == i && i in w.terminals.Values;
    assert i in (set x | x in order);
    WorldSafety.TargetsStay(started, steps, k);
    var j :| 0 <= j < |order| && order[j] == i;
    assert Run(w, [StartSweep(order)]) == Some(started) by {
      assert [StartSweep(order)][1..] == [];
    }
    ReachableOn(w, [StartSweep(order)]);
    ReachableOn(started, steps);
    CloseAllTearsDown(end, k, j);
  }

  /** The open shell is the one that the fields name, until `close` is past it; the open
    * channel too, the channels in their callbacks aside. There is at most one shell and
    * one peer connection ever, and a shell only behind an accepted channel. */
  lemma OneShellOneChannel(w: World, i: nat)
    requires Reachable(w) && i < |w.sessions|
    ensures
      var l := w.sessions[i].life;
      && (forall p: nat :: Teardown.OpenPty(l, p) <==> l.fields.pty == Some(p) && !Teardown.PtyDone(l.once))
      && (forall d: nat :: Teardown.OpenChannel(l, d) <==>
            Teardown.InCallback(l, d) || (l.fields.dc == Some(d) && !Teardown.ChannelDone(l.once)))
      && (l.fields.dc.Some? ==> !Teardown.InCallback(l, l.fields.dc.value))
      && l.resources.ptys <= 1 && l.resources.peers <= 1
      && (l.fields.pty.Some? ==> l.fields.dc.Some?)
  {
    LifeOf(w, i);
    Teardown.OpenObjects(w.sessions[i].life);
  }

  /** The active signal is sent once for every shell that starts, or its callback is about
    * to send it; without a shell, never. */
  lemma ActiveExactlyOnce(w: World, i: nat)
    requires Reachable(w) && i < |w.sessions|
    ensures
      var l := w.sessions[i].life;
      && ActiveOnce.Actives(l.out) + l.resources.openings == (if l.fields.pty.Some? then 1 else 0)
      && (l.resources.openings > 0 ==> CanWorld(w, Inside(i, Channeling(SendActive))))
  {
    LifeOf(w, i);
  }

  /** Once a session is marked closed, whatever happens in any terminal: no shell starts
    * in it any more, no channel is accepted, and a channel that still arrives is open
    * exactly as long as it is in its callback. */
  lemma NothingStartsAfterClosed(w: World, i: nat, steps: seq<WorldStep>)
    requires Reachable(w) && i < |w.sessions| && w.sessions[i].life.fields.closed
    requires Run(w, steps).Some?
    ensures i < |Run(w, steps).value.sessions|
    ensures
      var before, after := w.sessions[i].life, Run(w, steps).value.sessions[i].life;
      && Teardown.SameShell(before, after)
      && (forall d: nat | before.resources.channels <= d ::
            Teardown.OpenChannel(after, d) <==> Teardown.InCallback(after, d))
  {
    LifeOf(w, i);
    WorldSafety.Project(w, steps, i);
    Teardown.NothingStartsAfterClosed(w.sessions[i].life, WorldSafety.Local(w, steps, i));
  }

  // ---------------------------------------------------------------- recovery

  /** A session is closed for a recovery timeout only by a timer that was armed a full
    * window before it fired, with no Connected processed in between. */
  lemma TimeoutOnlyAfterWindow(w: World, i: nat)
    requires Reachable(w) && i < |w.sessions|
    requires !w.sessions[i].life.once.NotRun? && w.sessions[i].life.once.cause.RecoveryTimeout?
    ensures RecoveryTimer.RanOut(w.sessions[i].life.recovery, w.sessions[i].life.once.cause.timer)
  {
    LifeOf(w, i);
    RecoveryTimer.TimeoutMeansOutage(w.sessions[i].life);
  }

  /** At most one timer is pending, the one that the field names, and none is pending
    * after the critical section of `close`. */
  lemma OnePendingTimer(w: World, i: nat, k: nat)
    requires Reachable(w) && i < |w.sessions|
    requires k < |w.sessions[i].life.recovery.timers| && w.sessions[i].life.recovery.timers[k].status.Pending?
    ensures w.sessions[i].life.fields.recovery == Some(k)
    ensures !w.sessions[i].life.fields.closed && !Teardown.Marked(w.sessions[i].life.once)
  {
    LifeOf(w, i);
  }

  /** Disconnected and Failed do the same: nobody is made to call `close`, and nothing
    * but the timer changes. As long as the session is not closed, a timer runs then, or
    * has run out. */
  lemma FailedOnlyArms(w: World, i: nat, s: LinkStep)
    requires Reachable(w) && (s.LinkDisconnected? || s.LinkFailed?)
    requires CanWorld(w, Inside(i, Linking(s)))
    ensures
      var l, l' := w.sessions[i].life, DoWorld(w, Inside(i, Linking(s))).sessions[i].life;
      && FailedLink.OnlyTimerChanged(l, l')
      && (if l.fields.closed then l'.fields == l.fields && l'.recovery.timers == l.recovery.timers
          else FailedLink.TimerNamed(l'))
  {
    LifeOf(w, i);
    FailedLink.OnlyArms(w.sessions[i].life, s);
  }

  /** When a Failed on an open session does close it, through the timer `k` that runs
    * then: `close` is called for it exactly if the timer fires, and the timer can fire
    * exactly if since then nothing reconnected, `close` did not take its snapshot, and
    * the window has passed. */
  lemma FailedClosesExactlyIf(w: World, i: nat, k: nat, steps: seq<WorldStep>)
    requires Reachable(w) && CanWorld(w, Inside(i, Linking(LinkFailed)))
    requires FailedLink.Running(DoWorld(w, Inside(i, Linking(LinkFailed))).sessions[i].life, k)
    requires Run(DoWorld(w, Inside(i, Linking(LinkFailed))), steps).Some?
    ensures
      var failed := DoWorld(w, Inside(i, Linking(LinkFailed)));
      && i < |Run(failed, steps).value.sessions|
      && FailedLink.ClosesExactlyIf(failed.sessions[i].life, k, WorldSafety.Local(failed, steps, i),
                                    Run(failed, steps).value.sessions[i].life)
  {
    var failed := DoWorld(w, Inside(i, Linking(LinkFailed)));
    LifeOf(w, i);
    WorldSafety.LifeKept(w.sessions[i].life, Linking(LinkFailed));
    WorldSafety.Project(failed, steps, i);
    FailedLink.Closes(failed.sessions[i].life, k, WorldSafety.Local(failed, steps, i));
  }
}
