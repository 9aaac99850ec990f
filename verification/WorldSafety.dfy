/** What holds in every run of all terminals together. */
module WorldSafety {
  import opened Wrappers
  import opened CloseCauses
  import opened Lifecycle
  import opened World
  import Candidates
  import FlushOrder
  import ActiveOnce
  import Teardown
  import CloseOnce
  import RecoveryTimer

  // ---------------------------------------------------------------- invariant

  ghost predicate LifeSafe(l: Life) {
    && Candidates.ViewOf(l).Invariant()
    && FlushOrder.Invariant(l)
    && ActiveOnce.Invariant(l)
    && Teardown.Invariant(l)
    && CloseOnce.Invariant(l)
    && RecoveryTimer.Invariant(l)
  }

  lemma LifeKept(l: Life, s: Step)
    requires LifeSafe(l) && Can(l, s)
    ensures LifeSafe(Do(l, s))
  {
    Candidates.StepKept(l, s);
    FlushOrder.StepKept(l, s);
    ActiveOnce.StepKept(l, s);
    Teardown.StepKept(l, s);
    CloseOnce.StepKept(l, s);
    RecoveryTimer.StepKept(l, s);
  }

  lemma OpenedConserves()
    ensures Candidates.ViewOf(OPENED).Invariant()
  {
    assert forall c: nat :: Candidates.ViewOf(OPENED).ConservedAt(c);
  }

  lemma OpenedOwnsNothing()
    ensures Teardown.Invariant(OPENED) && FlushOrder.Invariant(OPENED)
  {
  }

  lemma OpenedIsNotClosing()
    ensures CloseOnce.Invariant(OPENED) && RecoveryTimer.Invariant(OPENED) && ActiveOnce.Invariant(OPENED)
  {
  }

  lemma OpenedSafe()
    ensures LifeSafe(OPENED)
  {
    OpenedConserves();
    OpenedOwnsNothing();
    OpenedIsNotClosing();
  }

  ghost predicate LivesSafe(w: World) {
    forall i: nat | i < |w.sessions| :: LifeSafe(w.sessions[i].life)
  }

  predicate ClosesOnce(w: World) {
    forall i: nat | i < |w.sessions| :: CloseOnce.Invariant(w.sessions[i].life)
  }

  /** The map points exactly at the incarnations that are not deleted. */
  predicate MapExact(w: World) {
    && (forall id | id in w.terminals ::
          && w.terminals[id] < |w.sessions|
          && w.sessions[w.terminals[id]].id == id
          && !w.sessions[w.terminals[id]].life.deleted)
    && (forall i: nat | i < |w.sessions| && !w.sessions[i].life.deleted ::
          w.sessions[i].id in w.terminals && w.terminals[w.sessions[i].id] == i)
  }

  /** At most the incarnation the control loop works on has an offer under way. */
  predicate OffersSerial(w: World) {
    forall i: nat | i < |w.sessions| && w.control != InOffer(i) :: w.sessions[i].life.negotiation.offer.Idle?
  }

  /** What the control loop waits for exists. */
  predicate ControlSound(w: World) {
    match w.control
    case Free => true
    case InOffer(i) => i < |w.sessions|
    case InClose(i, caller) => i < |w.sessions| && caller < |w.sessions[i].life.callers|
  }

  predicate SweepSound(w: World, s: Sweep) {
    && s.done <= |s.targets|
    && (forall j | 0 <= j < |s.targets| :: s.targets[j] < |w.sessions|)
    && (forall j | 0 <= j < s.done :: w.sessions[s.targets[j]].life.once.Finished?)
  }

  predicate SweepsSound(w: World) {
    forall k | 0 <= k < |w.sweeps| :: SweepSound(w, w.sweeps[k])
  }

  ghost predicate Invariant(w: World) {
    LivesSafe(w) && MapExact(w) && OffersSerial(w) && ControlSound(w) && SweepsSound(w)
  }

  // ---------------------------------------------------------------- what a world step does to one incarnation

  /** The incarnation that a world step moves, and how. */
  function Touch(w: World, s: WorldStep): Option<(nat, Step)> {
    match s
    case Signal(id, kind) =>
      if id !in w.terminals then None
      else if kind.OfferSignal? then Some((w.terminals[id], Offering(Find)))
      else if kind.CloseSignal? then Some((w.terminals[id], Closing(Call(Browser(kind.decoded)))))
      else None
    case Inside(i, step) => Some((i, step))
    case SweepCall(k) =>
      if k < |w.sweeps| && w.sweeps[k].done < |w.sweeps[k].targets|
      then Some((w.sweeps[k].targets[w.sweeps[k].done], Closing(Call(AgentShutdown))))
      else None
    case _ => None
  }

  lemma TouchSessions(w: World, s: WorldStep)
    requires CanWorld(w, s)
    ensures
      match Touch(w, s)
      case None =>
        || DoWorld(w, s).sessions == w.sessions
        || (s.Open? && DoWorld(w, s).sessions == w.sessions + [Terminal(s.id, OPENED)])
      case Some((i, step)) =>
        && EnabledAt(w, i, step)
        && DoWorld(w, s).sessions == DoAt(w, i, step).sessions
  {
  }

  lemma StepFacts(l: Life, s: Step)
    requires Can(l, s)
    ensures Do(l, s).deleted <==> l.deleted || s == Closing(Delete)
    ensures l.once.Finished? ==> Do(l, s).once.Finished?
    ensures l.negotiation.offer.Idle? && s != Offering(Find) ==> Do(l, s).negotiation.offer.Idle?
  {
  }

  lemma CallerFacts(l: Life, s: Step)
    requires Can(l, s)
    ensures |Do(l, s).callers| >= |l.callers|
    ensures s.Closing? && s.close.Call? ==> |Do(l, s).callers| == |l.callers| + 1
  {
  }

  // ---------------------------------------------------------------- the invariant is kept

  lemma LivesAt(w: World, i: nat, s: Step)
    requires LivesSafe(w) && EnabledAt(w, i, s)
    ensures LivesSafe(DoAt(w, i, s))
  {
    LifeKept(w.sessions[i].life, s);
  }

  lemma LivesKept(w: World, s: WorldStep)
    requires LivesSafe(w) && CanWorld(w, s)
    ensures LivesSafe(DoWorld(w, s))
  {
    TouchSessions(w, s);
    OpenedSafe();
    match Touch(w, s)
    case None =>
    case Some((i, step)) => LivesAt(w, i, step);
  }

  lemma MapAt(w: World, i: nat, s: Step)
    requires MapExact(w) && EnabledAt(w, i, s) && CloseOnce.Invariant(w.sessions[i].life)
    ensures s != Closing(Delete) ==> MapExact(DoAt(w, i, s))
    ensures s == Closing(Delete) ==> MapExact(DoAt(w, i, s).(terminals := w.terminals - {w.sessions[i].id}))
  {
    StepFacts(w.sessions[i].life, s);
  }

  lemma MapKept(w: World, s: WorldStep)
    requires MapExact(w) && ClosesOnce(w) && CanWorld(w, s)
    ensures MapExact(DoWorld(w, s))
  {
    TouchSessions(w, s);
    match Touch(w, s)
    case None =>
    case Some((i, step)) => MapAt(w, i, step);
  }

  lemma OffersKept(w: World, s: WorldStep)
    requires OffersSerial(w) && CanWorld(w, s)
    ensures OffersSerial(DoWorld(w, s))
  {
    TouchSessions(w, s);
    if Touch(w, s).Some? {
      StepFacts(w.sessions[Touch(w, s).value.0].life, Touch(w, s).value.1);
    }
  }

  /** No step undoes a finished close. */
  lemma ControlKept(w: World, s: WorldStep)
    requires ControlSound(w) && CanWorld(w, s)
    ensures ControlSound(DoWorld(w, s))
  {
    TouchSessions(w, s);
    if Touch(w, s).Some? {
      CallerFacts(w.sessions[Touch(w, s).value.0].life, Touch(w, s).value.1);
    }
  }

  lemma FinishedStays(w: World, s: WorldStep)
    requires CanWorld(w, s)
    ensures |DoWorld(w, s).sessions| >= |w.sessions|
    ensures forall i: nat | i < |w.sessions| && w.sessions[i].life.once.Finished? ::
      DoWorld(w, s).sessions[i].life.once.Finished?
  {
    TouchSessions(w, s);
    if Touch(w, s).Some? {
      StepFacts(w.sessions[Touch(w, s).value.0].life, Touch(w, s).value.1);
    }
  }

  lemma SweepStarts(w: World, order: seq<nat>)
    requires MapExact(w) && CanWorld(w, StartSweep(order))
    ensures SweepSound(w, Sweep(order, 0, None))
  {
    forall j | 0 <= j < |order|
      ensures order[j] < |w.sessions|
    {
      assert order[j] in (set i | i in order);
      assert order[j] in w.terminals.Values;
    }
  }

  lemma SweepsKept(w: World, s: WorldStep)
    requires MapExact(w) && SweepsSound(w) && ClosesOnce(w) && CanWorld(w, s)
    ensures SweepsSound(DoWorld(w, s))
  {
    FinishedStays(w, s);
    var w' := DoWorld(w, s);
    forall k | 0 <= k < |w'.sweeps|
      ensures SweepSound(w', w'.sweeps[k])
    {
      if k < |w.sweeps| {
        assert SweepSound(w, w.sweeps[k]);
      } else {
        SweepStarts(w, s.order);
      }
    }
  }

  lemma StepKept(w: World, s: WorldStep)
    requires Invariant(w) && CanWorld(w, s)
    ensures Invariant(DoWorld(w, s))
  {
    assert ClosesOnce(w);
    LivesKept(w, s);
    MapKept(w, s);
    OffersKept(w, s);
    ControlKept(w, s);
    SweepsKept(w, s);
  }

  /** A call of `CloseAll` keeps the terminals that it read from the map. */
  lemma {:induction false} TargetsStay(w: World, steps: seq<WorldStep>, k: nat)
    requires k < |w.sweeps| && Run(w, steps).Some?
    ensures k < |Run(w, steps).value.sweeps|
    ensures Run(w, steps).value.sweeps[k].targets == w.sweeps[k].targets
    decreases steps
  {
    if steps == [] {
    } else {
      SweepsGrow(w, steps[0], k);
      TargetsStay(DoWorld(w, steps[0]), steps[1..], k);
    }
  }

  lemma SweepsGrow(w: World, s: WorldStep, k: nat)
    requires CanWorld(w, s) && k < |w.sweeps|
    ensures k < |DoWorld(w, s).sweeps| && DoWorld(w, s).sweeps[k].targets == w.sweeps[k].targets
  {
  }

  lemma {:induction false} RunKept(w: World, steps: seq<WorldStep>)
    requires Invariant(w) && Run(w, steps).Some?
    ensures Invariant(Run(w, steps).value)
    decreases steps
  {
    if steps == [] {
    } else {
      StepKept(w, steps[0]);
      RunKept(DoWorld(w, steps[0]), steps[1..]);
    }
  }

  // ---------------------------------------------------------------- from world runs to one incarnation

  /** The steps that a run takes in incarnation `i`. */
  function Local(w: World, steps: seq<WorldStep>, i: nat): seq<Step>
    requires Run(w, steps).Some?
    decreases steps
  {
    if steps == [] then []
    else
      var rest := Local(DoWorld(w, steps[0]), steps[1..], i);
      match Touch(w, steps[0])
      case None => rest
      case Some((k, step)) => if k == i then [step] + rest else rest
  }

  lemma {:induction false} Project(w: World, steps: seq<WorldStep>, i: nat)
    requires Run(w, steps).Some? && i < |w.sessions|
    ensures i < |Run(w, steps).value.sessions|
    ensures Steps(w.sessions[i].life, Local(w, steps, i)) == Some(Run(w, steps).value.sessions[i].life)
    decreases steps
  {
    if steps == [] {
    } else {
      TouchSessions(w, steps[0]);
      Project(DoWorld(w, steps[0]), steps[1..], i);
    }
  }
}
