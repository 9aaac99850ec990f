/** What can always happen: an offer can be answered, `close` and `CloseAll` can return,
  * and the control loop can go on. */
module Progress {
  import opened Wrappers
  import opened TerminalFields
  import opened CloseCauses
  import opened Lifecycle
  import opened World
  import Candidates
  import Teardown
  import WorldRuns
  import WorldSafety
  import TerminalTheorems

  // ---------------------------------------------------------------- offers

  predicate OnlyOffers(steps: seq<Step>) {
    forall k | 0 <= k < |steps| :: steps[k].Offering?
  }

  /** What happens when every call of an offer succeeds: up to its peer connection. */
  lemma OfferGetsPeer(l: Life) returns (steps: seq<Step>, end: Life)
    requires l.negotiation.offer.Idle?
    ensures OnlyOffers(steps) && Steps(l, steps) == Some(end)
    ensures end.negotiation == l.negotiation.(offer := Ready) && end.fields.pc.Some?
    ensures l.fields.pc.Some? ==> end.fields == l.fields && end.resources == l.resources
    ensures end.out == l.out
  {
    steps := Extend(l, [], l, Offering(Find));
    end := Do(l, Offering(Find));
    steps := Extend(l, steps, end, Offering(ReadPeer));
    end := Do(end, Offering(ReadPeer));
    if l.fields.pc.None? {
      steps := Extend(l, steps, end, Offering(NewPeer(true)));
      end := Do(end, Offering(NewPeer(true)));
      steps := Extend(l, steps, end, Offering(StorePeer));
      end := Do(end, Offering(StorePeer));
    }
  }

  lemma OfferSendsAnswer(l: Life) returns (steps: seq<Step>, end: Life)
    requires l.negotiation.offer.Ready?
    ensures OnlyOffers(steps) && Steps(l, steps) == Some(end)
    ensures end.negotiation == l.negotiation.(offer := Answered, generation := l.negotiation.generation + 1)
    ensures end.fields == l.fields.(answerSent := false, localCandidates := [])
    ensures end.out == l.out + [Answer(l.negotiation.generation + 1)]
  {
    steps := Extend(l, [], l, Offering(Begin));
    end := Do(l, Offering(Begin));
    steps := Extend(l, steps, end, Offering(Negotiate(true)));
    end := Do(end, Offering(Negotiate(true)));
    steps := Extend(l, steps, end, Offering(SendAnswer(true)));
    end := Do(end, Offering(SendAnswer(true)));
  }

  /** The candidates as the signals that carry them. */
  function CandidateSignals(calls: seq<nat>): seq<Signal> {
    if calls == [] then [] else [Candidate(calls[0])] + CandidateSignals(calls[1..])
  }

  lemma {:induction false} FlushRuns(l: Life) returns (steps: seq<Step>, end: Life)
    requires l.negotiation.offer.Flushing?
    ensures OnlyOffers(steps) && Steps(l, steps) == Some(end)
    ensures end.negotiation == l.negotiation.(offer := Idle) && end.fields == l.fields
    ensures end.out == l.out + CandidateSignals(l.negotiation.offer.queue)
    decreases |l.negotiation.offer.queue|
  {
    var queue := l.negotiation.offer.queue;
    if queue == [] {
      steps := Extend(l, [], l, Offering(Return));
      end := Do(l, Offering(Return));
      assert l.out + [] == l.out;
    } else {
      var next := Do(l, Offering(Flush));
      var rest;
      rest, end := FlushRuns(next);
      var first := Extend(l, [], l, Offering(Flush));
      steps := Join(l, first, next, rest);
      assert l.out + [Candidate(queue[0])] + CandidateSignals(queue[1..]) ==
        l.out + ([Candidate(queue[0])] + CandidateSignals(queue[1..]));
    }
  }

  /** After its answer, an offer can send all candidates that waited for it, in order. */
  lemma HeldCandidatesCanLeave(l: Life) returns (steps: seq<Step>, end: Life)
    requires l.negotiation.offer.Answered?
    ensures OnlyOffers(steps) && Steps(l, steps) == Some(end)
    ensures end.negotiation == l.negotiation.(offer := Idle)
    ensures end.fields == l.fields.(answerSent := true, localCandidates := [])
    ensures end.out == l.out + CandidateSignals(l.fields.localCandidates)
  {
    var finished := Do(l, Offering(Finish));
    var first := Extend(l, [], l, Offering(Finish));
    var rest;
    rest, end := FlushRuns(finished);
    steps := Join(l, first, finished, rest);
  }

  /** An offer, and every restart, is answered with the next generation if every call
    * succeeds, on the peer connection that is there or on a new one. */
  lemma OfferCanBeAnswered(l: Life) returns (steps: seq<Step>, end: Life)
    requires l.negotiation.offer.Idle?
    ensures OnlyOffers(steps) && Steps(l, steps) == Some(end)
    ensures end.negotiation == l.negotiation.(generation := l.negotiation.generation + 1)
    ensures end.fields.pc.Some? && (l.fields.pc.Some? ==> end.fields.pc == l.fields.pc)
    ensures end.fields.answerSent && end.out == l.out + [Answer(l.negotiation.generation + 1)]
  {
    var ready;
    steps, ready := OfferGetsPeer(l);
    var more, answered := OfferSendsAnswer(ready);
    steps := Join(l, steps, ready, more);
    more, end := HeldCandidatesCanLeave(answered);
    steps := Join(l, steps, answered, more);
  }

  /** Wherever an offer stands, it can end; at worst by a failure. */
  lemma OfferCanEnd(l: Life) returns (steps: seq<Step>, end: Life)
    ensures OnlyOffers(steps) && WorldRuns.OwnSteps(steps) && Closing(Delete) !in steps
    ensures Steps(l, steps) == Some(end) && end.negotiation.offer.Idle?
    decreases match l.negotiation.offer
      case LookedUp => 8 case NeedPeer => 7 case HavePeer(_) => 6 case Ready => 5 case Negotiating => 4
      case Answering => 3 case Answered => 2 case Flushing(_) => 1 case Idle => 0,
      if l.negotiation.offer.Flushing? then |l.negotiation.offer.queue| else 0
  {
    if l.negotiation.offer.Idle? {
      steps, end := [], l;
    } else {
      var step := match l.negotiation.offer
        case LookedUp => Malformed
        case NeedPeer => NewPeer(false)
        case HavePeer(_) => OfferStep.StorePeer
        case Ready => Begin
        case Negotiating => Negotiate(false)
        case Answering => SendAnswer(false)
        case Answered => Finish
        case Flushing(queue) => if queue == [] then Return else Flush;
      var rest;
      rest, end := OfferCanEnd(DoOffer(l, step));
      var first := Extend(l, [], l, Offering(step));
      steps := Join(l, first, DoOffer(l, step), rest);
    }
  }

  // ---------------------------------------------------------------- close

  /** The steps of the once-function itself. */
  predicate OnlyCloses(steps: seq<Step>) {
    forall k | 0 <= k < |steps| :: steps[k].Closing? && !steps[k].close.Call?
  }

  function Left(once: Once): nat {
    match once
    case NotRun => 8
    case Running(_, _, stage, _) =>
      (match stage
       case Entered => 7 case ClosingPty => 6 case ClosingChannel => 5 case ClosingPeer => 4
       case Deleting => 3 case Reporting => 2 case Ending => 1)
    case Finished(_, _, _) => 0
  }

  /** Once begun, `close` can finish. */
  lemma CloseCanFinish(l: Life) returns (steps: seq<Step>, end: Life)
    requires !l.once.NotRun?
    ensures OnlyCloses(steps) && Steps(l, steps) == Some(end)
    ensures end.once.Finished? && end.callers == l.callers
    decreases Left(l.once)
  {
    if l.once.Finished? {
      steps, end := [], l;
    } else {
      var step := match l.once.stage
        case Entered => Mark
        case ClosingPty => ClosePty
        case ClosingChannel => CloseChannel
        case ClosingPeer => ClosePeer
        case Deleting => Delete
        case Reporting => Report
        case Ending => EndOnce;
      var rest;
      rest, end := CloseCanFinish(DoClose(l, step));
      var first := Extend(l, [], l, Closing(step));
      steps := Join(l, first, DoClose(l, step), rest);
    }
  }

  /** Every caller of `close` can get its call back, whoever runs the once-function. */
  lemma CloseCanReturn(l: Life, c: nat) returns (steps: seq<Step>, end: Life)
    requires c < |l.callers|
    ensures OnlyCloses(steps) && Steps(l, steps) == Some(end)
    ensures |end.callers| == |l.callers| && end.callers[c].returned
    ensures l.callers[c].returned || end.once.Finished?
  {
    if l.callers[c].returned {
      steps, end := [], l;
    } else {
      var entered := l;
      steps := [];
      if l.once.NotRun? {
        steps := Extend(l, [], l, Closing(Enter(c)));
        entered := Do(l, Closing(Enter(c)));
      }
      var rest, finished := CloseCanFinish(entered);
      steps := Join(l, steps, entered, rest);
      steps := Extend(l, steps, finished, Closing(Leave(c)));
      end := Do(finished, Closing(Leave(c)));
    }
  }

  // ---------------------------------------------------------------- CloseAll

  predicate SweepDone(w: World, k: nat) {
    k < |w.sweeps| && w.sweeps[k].done == |w.sweeps[k].targets|
  }

  /** One more target of a sweep. */
  lemma SweepGoesOn(w: World, k: nat) returns (steps: seq<WorldStep>, end: World)
    requires k < |w.sweeps| && w.sweeps[k].caller.None? && w.sweeps[k].done < |w.sweeps[k].targets|
    requires w.sweeps[k].targets[w.sweeps[k].done] < |w.sessions|
    ensures Run(w, steps) == Some(end) && |end.sessions| == |w.sessions|
    ensures end.sweeps == w.sweeps[k := w.sweeps[k].(done := w.sweeps[k].done + 1)]
  {
    var i := w.sweeps[k].targets[w.sweeps[k].done];
    var c := |w.sessions[i].life.callers|;
    steps := WorldRuns.OneMore(w, [], w, SweepCall(k));
    var called := DoWorld(w, SweepCall(k));
    var own, closed := CloseCanReturn(called.sessions[i].life, c);
    var lifted, returned := WorldRuns.Lift(called, i, own);
    steps := WorldRuns.Join(w, steps, called, lifted, returned);
    assert returned.sessions[i].life == closed && returned.sweeps == called.sweeps;
    steps := WorldRuns.OneMore(w, steps, returned, SweepNext(k));
    end := DoWorld(returned, SweepNext(k));
  }

  lemma {:induction false} SweepCanReturn(w: World, k: nat) returns (steps: seq<WorldStep>, end: World)
    requires k < |w.sweeps| && w.sweeps[k].caller.None? && w.sweeps[k].done <= |w.sweeps[k].targets|
    requires forall j | 0 <= j < |w.sweeps[k].targets| :: w.sweeps[k].targets[j] < |w.sessions|
    ensures Run(w, steps) == Some(end) && SweepDone(end, k)
    decreases |w.sweeps[k].targets| - w.sweeps[k].done
  {
    if w.sweeps[k].done == |w.sweeps[k].targets| {
      steps, end := [], w;
    } else {
      var first, middle := SweepGoesOn(w, k);
      var rest;
      rest, end := SweepCanReturn(middle, k);
      steps := WorldRuns.Join(w, first, middle, rest, end);
    }
  }

  predicate Lists(order: seq<nat>, s: set<nat>) {
    Distinct(order) && (forall i | i in order :: i in s) && (forall i | i in s :: i in order)
  }

  /** Some order of the sessions in the map. */
  lemma {:induction false} SomeOrder(s: set<nat>) returns (order: seq<nat>)
    ensures Lists(order, s)
  {
    if s == {} {
      order := [];
    } else {
      var x :| x in s;
      var rest := SomeOrder(s - {x});
      order := [x] + rest;
      forall i | i in s
        ensures i in order
      {
        assert i == x || i in s - {x};
      }
    }
  }

  /** In every reachable world, `CloseAll` can be called and can return. */
  lemma CloseAllCanReturn(w: World) returns (order: seq<nat>, steps: seq<WorldStep>, end: World)
    requires TerminalTheorems.Reachable(w)
    ensures CanWorld(w, StartSweep(order))
    ensures Run(DoWorld(w, StartSweep(order)), steps) == Some(end) && SweepDone(end, |w.sweeps|)
  {
    TerminalTheorems.ReachableMap(w);
    order := SomeOrder(w.terminals.Values);
    assert (set i | i in order) == w.terminals.Values;
    forall j | 0 <= j < |order|
      ensures order[j] < |w.sessions|
    {
      assert order[j] in (set i | i in order);
      assert order[j] in w.terminals.Values;
    }
    steps, end := SweepCanReturn(DoWorld(w, StartSweep(order)), |w.sweeps|);
  }

  // ---------------------------------------------------------------- the control loop

  /** In every reachable world, the control loop can get free for the next event. */
  lemma ControlCanGoOn(w: World) returns (steps: seq<WorldStep>, end: World)
    requires TerminalTheorems.Reachable(w)
    ensures Run(w, steps) == Some(end) && end.control.Free?
  {
    TerminalTheorems.ReachableControl(w);
    match w.control
    case Free => steps, end := [], w;
    case InOffer(i) =>
      var own, ended := OfferCanEnd(w.sessions[i].life);
      var lifted, idle := WorldRuns.Lift(w, i, own);
      steps := WorldRuns.OneMore(w, lifted, idle, OfferReturned);
      end := DoWorld(idle, OfferReturned);
    case InClose(i, c) =>
      var own, closed := CloseCanReturn(w.sessions[i].life, c);
      var lifted, returned := WorldRuns.Lift(w, i, own);
      steps := WorldRuns.OneMore(w, lifted, returned, CloseReturned);
      end := DoWorld(returned, CloseReturned);
  }
}
