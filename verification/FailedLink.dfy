/** A failed link does not close the session at once, as the protocol document has it:
  * it is treated like a disconnected one. When it closes the session all the same. */
module FailedLink {
  import opened Wrappers
  import opened TerminalFields
  import opened CloseCauses
  import opened Lifecycle
  import opened RecoveryTimer
  import CloseOnce

  // ---------------------------------------------------------------- what Failed does

  predicate OnlyTimerChanged(l: Life, l': Life) {
    && l'.callers == l.callers && l'.once == l.once && l'.deleted == l.deleted && l'.out == l.out
    && l'.negotiation == l.negotiation && l'.resources == l.resources
    && l'.fields == l.fields.(recovery := l'.fields.recovery)
  }

  /** A timer is running, or has run out. */
  predicate TimerNamed(l: Life) {
    && l.fields.recovery.Some? && l.fields.recovery.value < |l.recovery.timers|
    && !l.recovery.timers[l.fields.recovery.value].status.Stopped?
  }

  lemma OnlyArms(l: Life, s: LinkStep)
    requires RecoveryTimer.Invariant(l) && CanLink(l, s) && (s.LinkDisconnected? || s.LinkFailed?)
    ensures OnlyTimerChanged(l, DoLink(l, s))
    ensures l.fields.closed ==> DoLink(l, s).fields == l.fields && DoLink(l, s).recovery.timers == l.recovery.timers
    ensures !l.fields.closed ==> TimerNamed(DoLink(l, s))
  {
    LinkKept(l, s);
  }

  // ---------------------------------------------------------------- when it closes the session

  predicate Running(l: Life, k: nat) {
    k < |l.recovery.timers| && l.recovery.timers[k].status.Pending?
  }

  /** Nothing reconnected, `close` did not take its snapshot, and the timer did not fire. */
  predicate Undisturbed(steps: seq<Step>, k: nat) {
    Linking(LinkConnected) !in steps && Closing(Mark) !in steps && Linking(Fire(k)) !in steps
  }

  /** The seconds that pass during some steps. */
  function Elapsed(steps: seq<Step>): nat {
    if steps == [] then 0
    else (if steps[0].Linking? && steps[0].link.Tick? then steps[0].link.seconds else 0) + Elapsed(steps[1..])
  }

  predicate CalledFor(l: Life, k: nat) {
    exists c: nat :: c < |l.callers| && l.callers[c].cause == RecoveryTimeout(k)
  }

  predicate ClosedFor(l: Life, k: nat) {
    !l.once.NotRun? && l.once.cause == RecoveryTimeout(k)
  }

  /** From `l`, where timer `k` runs, over `steps` to `end`: when the timer can fire, when
    * `close` is called for it, and when that is the call that closes the session. */
  predicate ClosesExactlyIf(l: Life, k: nat, steps: seq<Step>, end: Life) {
    && k < |l.recovery.timers|
    && (CanLink(end, Fire(k)) <==>
          Undisturbed(steps, k) && l.recovery.now + Elapsed(steps) >= l.recovery.timers[k].armedAt + 10)
    && (CalledFor(end, k) <==> Linking(Fire(k)) in steps)
    && (ClosedFor(end, k) <==> exists c: nat :: c < |end.callers| && end.callers[c].cause == RecoveryTimeout(k) && Closing(Enter(c)) in steps)
  }

  lemma TimerStep(l: Life, s: Step, k: nat)
    requires RecoveryTimer.Invariant(l) && Can(l, s) && k < |l.recovery.timers|
    ensures k < |Do(l, s).recovery.timers|
    ensures Running(Do(l, s), k) <==> Running(l, k) && Undisturbed([s], k)
    ensures Do(l, s).recovery.now == l.recovery.now + Elapsed([s])
  {
    DeadlineNeverMoves(l, s, k);
  }

  lemma {:induction false} TimerRun(l: Life, steps: seq<Step>, k: nat)
    requires RecoveryTimer.Invariant(l) && Steps(l, steps).Some? && k < |l.recovery.timers|
    ensures
      var end := Steps(l, steps).value;
      && k < |end.recovery.timers| && end.recovery.timers[k].armedAt == l.recovery.timers[k].armedAt
      && (Running(end, k) <==> Running(l, k) && Undisturbed(steps, k))
      && end.recovery.now == l.recovery.now + Elapsed(steps)
    decreases steps
  {
    if steps == [] {
    } else {
      var next := Do(l, steps[0]);
      RecoveryTimer.StepKept(l, steps[0]);
      TimerStep(l, steps[0], k);
      DeadlineNeverMoves(l, steps[0], k);
      TimerRun(next, steps[1..], k);
      assert steps == [steps[0]] + steps[1..];
    }
  }

  // ---------------------------------------------------------------- callers

  /** Callers stay, and a step adds one for timer `k` exactly if it fires it. */
  lemma CallerStep(l: Life, s: Step, k: nat)
    requires Can(l, s)
    ensures |l.callers| <= |Do(l, s).callers|
    ensures forall c: nat | c < |l.callers| :: Do(l, s).callers[c].cause == l.callers[c].cause
    ensures CalledFor(Do(l, s), k) <==> CalledFor(l, k) || s == Linking(Fire(k))
  {
    var l' := Do(l, s);
    if s == Linking(Fire(k)) {
      assert l'.callers[|l.callers|].cause == RecoveryTimeout(k);
    }
  }

  lemma {:induction false} CallerRun(l: Life, steps: seq<Step>, k: nat)
    requires Steps(l, steps).Some?
    ensures
      var end := Steps(l, steps).value;
      && |l.callers| <= |end.callers|
      && (forall c: nat | c < |l.callers| :: end.callers[c].cause == l.callers[c].cause)
      && (CalledFor(end, k) <==> CalledFor(l, k) || Linking(Fire(k)) in steps)
    decreases steps
  {
    if steps == [] {
    } else {
      CallerStep(l, steps[0], k);
      CallerRun(Do(l, steps[0]), steps[1..], k);
      assert steps == [steps[0]] + steps[1..];
    }
  }

  // ---------------------------------------------------------------- the first caller

  lemma EnterStep(l: Life, s: Step)
    requires Can(l, s)
    ensures l.once.NotRun? ==>
      if s.Closing? && s.close.Enter? then !Do(l, s).once.NotRun? && Do(l, s).once.first == s.close.caller
      else Do(l, s).once.NotRun?
    ensures !l.once.NotRun? ==> !(s.Closing? && s.close.Enter?)
  {
  }

  /** The one that enters is the first caller. */
  lemma {:induction false} EnterRun(l: Life, steps: seq<Step>, c: nat)
    requires Steps(l, steps).Some?
    ensures
      var end := Steps(l, steps).value;
      Closing(Enter(c)) in steps <==> l.once.NotRun? && !end.once.NotRun? && end.once.first == c
    ensures !l.once.NotRun? ==>
      var end := Steps(l, steps).value;
      !end.once.NotRun? && end.once.first == l.once.first && end.once.cause == l.once.cause
    decreases steps
  {
    if steps == [] {
    } else {
      EnterStep(l, steps[0]);
      if !l.once.NotRun? {
        CloseOnce.FirstCallerStays(l, steps[0]);
      }
      EnterRun(Do(l, steps[0]), steps[1..], c);
      assert steps == [steps[0]] + steps[1..];
    }
  }

  lemma {:induction false} CloseOnceRun(l: Life, steps: seq<Step>)
    requires CloseOnce.Invariant(l) && Steps(l, steps).Some?
    ensures CloseOnce.Invariant(Steps(l, steps).value)
    decreases steps
  {
    if steps == [] {
    } else {
      CloseOnce.StepKept(l, steps[0]);
      CloseOnceRun(Do(l, steps[0]), steps[1..]);
    }
  }

  lemma ClosedForExactlyIf(l: Life, k: nat, steps: seq<Step>)
    requires CloseOnce.Invariant(l) && !ClosedFor(l, k) && Steps(l, steps).Some?
    ensures
      var end := Steps(l, steps).value;
      ClosedFor(end, k) <==>
        exists c: nat :: c < |end.callers| && end.callers[c].cause == RecoveryTimeout(k) && Closing(Enter(c)) in steps
  {
    CloseOnceRun(l, steps);
    var end := Steps(l, steps).value;
    forall c: nat
      ensures Closing(Enter(c)) in steps <==> l.once.NotRun? && !end.once.NotRun? && end.once.first == c
    {
      EnterRun(l, steps, c);
    }
    if ClosedFor(end, k) {
      EnterRun(l, steps, end.once.first);
    }
  }

  lemma Closes(l: Life, k: nat, steps: seq<Step>)
    requires RecoveryTimer.Invariant(l) && CloseOnce.Invariant(l) && Running(l, k) && Steps(l, steps).Some?
    ensures ClosesExactlyIf(l, k, steps, Steps(l, steps).value)
  {
    TimerRun(l, steps, k);
    CallerRun(l, steps, k);
    ClosedForExactlyIf(l, k, steps);
  }
}
