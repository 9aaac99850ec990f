/** All terminals together: the manager's map, the control loop, and `CloseAll`.
  *
  * Every `Open` makes a new incarnation; incarnations are never reused. The control
  * loop handles one event at a time, so at most one offer is under way. Timers,
  * callbacks, shells and calls of `CloseAll` interleave freely with it.
  */
module World {
  import opened Wrappers
  import opened CloseCauses
  import opened Lifecycle

  // ---------------------------------------------------------------- state

  datatype Terminal = Terminal(id: string, life: Life)

  /** What the control loop waits for: `offer` to return, or its call of `close`. */
  datatype Control = Free | InOffer(session: nat) | InClose(session: nat, caller: nat)

  /** One call of `CloseAll`: the sessions it read from the map, how many are done,
    * and its call of `close` on the next one. */
  datatype Sweep = Sweep(targets: seq<nat>, done: nat, caller: Option<nat>)

  datatype World = World(
    sessions: seq<Terminal>,
    terminals: map<string, nat>,
    control: Control,
    sweeps: seq<Sweep>)

  const INITIAL := World([], map[], Free, [])

  // ---------------------------------------------------------------- steps

  datatype SignalKind = OfferSignal | CandidateSignal | CloseSignal(decoded: Option<string>) | OtherSignal

  datatype WorldStep =
    | Open(id: string)
    | Signal(id: string, kind: SignalKind)
    | OfferReturned
    | CloseReturned
    | Inside(session: nat, step: Step)
    | StartSweep(order: seq<nat>)
    | SweepCall(sweep: nat)
    | SweepNext(sweep: nat)

  predicate Distinct(s: seq<nat>) {
    forall i, j | 0 <= i < j < |s| :: s[i] != s[j]
  }

  /** Lookups and outside calls of `close` are steps of the manager. */
  predicate OwnStep(s: Step) {
    s != Offering(Find) && !(s.Closing? && s.close.Call?)
  }

  predicate CanWorld(w: World, s: WorldStep) {
    match s
    case Open(_) => w.control.Free?
    case Signal(id, kind) =>
      && w.control.Free?
      && (id in w.terminals && kind.OfferSignal? ==> EnabledAt(w, w.terminals[id], Offering(Find)))
      && (id in w.terminals ==> w.terminals[id] < |w.sessions|)
    case OfferReturned =>
      w.control.InOffer? && w.control.session < |w.sessions| && w.sessions[w.control.session].life.negotiation.offer.Idle?
    case CloseReturned =>
      w.control.InClose? && Returned(w, w.control.session, w.control.caller)
    case Inside(i, step) => OwnStep(step) && EnabledAt(w, i, step)
    case StartSweep(order) => Distinct(order) && (set i | i in order) == w.terminals.Values
    case SweepCall(k) =>
      && k < |w.sweeps| && w.sweeps[k].caller.None?
      && w.sweeps[k].done < |w.sweeps[k].targets| && w.sweeps[k].targets[w.sweeps[k].done] < |w.sessions|
    case SweepNext(k) =>
      && k < |w.sweeps| && w.sweeps[k].caller.Some?
      && w.sweeps[k].done < |w.sweeps[k].targets|
      && Returned(w, w.sweeps[k].targets[w.sweeps[k].done], w.sweeps[k].caller.value)
  }

  predicate EnabledAt(w: World, i: nat, s: Step) {
    i < |w.sessions| && Can(w.sessions[i].life, s)
  }

  predicate Returned(w: World, i: nat, caller: nat) {
    && i < |w.sessions| && caller < |w.sessions[i].life.callers|
    && w.sessions[i].life.callers[caller].returned
  }

  function DoAt(w: World, i: nat, s: Step): World
    requires EnabledAt(w, i, s)
  {
    w.(sessions := w.sessions[i := w.sessions[i].(life := Do(w.sessions[i].life, s))])
  }

  function DoWorld(w: World, s: WorldStep): World
    requires CanWorld(w, s)
  {
    match s
    case Open(id) =>
      if id == "" || id in w.terminals then w
      else w.(sessions := w.sessions + [Terminal(id, OPENED)], terminals := w.terminals[id := |w.sessions|])
    case Signal(id, kind) =>
      if id !in w.terminals then w
      else
        var i := w.terminals[id];
        (match kind
         case OfferSignal => DoAt(w, i, Offering(Find)).(control := InOffer(i))
         case CloseSignal(decoded) =>
           var caller := |w.sessions[i].life.callers|;
           DoAt(w, i, Closing(Call(Browser(decoded)))).(control := InClose(i, caller))
         case CandidateSignal => w
         case OtherSignal => w)
    case OfferReturned => w.(control := Free)
    case CloseReturned => w.(control := Free)
    case Inside(i, step) =>
      var next := DoAt(w, i, step);
      if step == Closing(Delete) then next.(terminals := w.terminals - {w.sessions[i].id}) else next
    case StartSweep(order) => w.(sweeps := w.sweeps + [Sweep(order, 0, None)])
    case SweepCall(k) =>
      var i := w.sweeps[k].targets[w.sweeps[k].done];
      var caller := |w.sessions[i].life.callers|;
      DoAt(w, i, Closing(Call(AgentShutdown))).(sweeps := w.sweeps[k := w.sweeps[k].(caller := Some(caller))])
    case SweepNext(k) =>
      w.(sweeps := w.sweeps[k := w.sweeps[k].(done := w.sweeps[k].done + 1, caller := None)])
  }

  /** The world after a sequence of steps, if every one of them is enabled. */
  function Run(w: World, steps: seq<WorldStep>): Option<World>
    decreases steps
  {
    if steps == [] then Some(w)
    else if !CanWorld(w, steps[0]) then None
    else Run(DoWorld(w, steps[0]), steps[1..])
  }
}
