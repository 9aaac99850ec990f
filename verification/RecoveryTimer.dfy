/** The recovery timer: armed once per outage, never moved, and the only cause of a
  * recovery timeout. */
module RecoveryTimer {
  import opened Wrappers
  import opened TerminalFields
  import opened CloseCauses
  import opened Lifecycle

  // ---------------------------------------------------------------- invariant

  predicate NoConnected(notes: seq<Note>, from: nat, to: nat)
    requires from <= to <= |notes|
  {
    forall i | from <= i < to :: !notes[i].Connected?
  }

  /** Timer `k` matches the history: where it was armed, that nothing reconnected
    * while it ran, and that it ran for the whole window before it fired. */
  predicate TimerSound(r: Recovery, k: nat)
    requires k < |r.timers|
  {
    var t := r.timers[k];
    && t.note < |r.notes| && r.notes[t.note] == Armed(k, t.armedAt) && t.armedAt <= r.now
    && (t.status.Pending? ==> NoConnected(r.notes, t.note, |r.notes|))
    && (t.status.Fired? ==>
          && t.note < t.status.note < |r.notes|
          && r.notes[t.status.note] == Expired(k, t.status.at)
          && t.status.at >= t.armedAt + RECOVERY_WINDOW
          && NoConnected(r.notes, t.note, t.status.note))
  }

  predicate TimersSound(r: Recovery) {
    forall k: nat | k < |r.timers| :: TimerSound(r, k)
  }

  /** A pending timer is the one that the field names, and the session is not closed. */
  predicate PendingIsNamed(l: Life) {
    && (forall k: nat | k < |l.recovery.timers| && l.recovery.timers[k].status.Pending? ::
          l.fields.recovery == Some(k) && !l.fields.closed)
    && (l.fields.recovery.Some? ==> l.fields.recovery.value < |l.recovery.timers|)
  }

  /** Until the session is closed, the timer that the field names was not stopped. */
  predicate NamedIsLive(l: Life) {
    !l.fields.closed && l.fields.recovery.Some? && l.fields.recovery.value < |l.recovery.timers| ==>
      !l.recovery.timers[l.fields.recovery.value].status.Stopped?
  }

  predicate CallersSound(l: Life) {
    && (forall i | 0 <= i < |l.callers| && l.callers[i].cause.RecoveryTimeout? ::
          var k := l.callers[i].cause.timer;
          k < |l.recovery.timers| && l.recovery.timers[k].status.Fired?)
    && (!l.once.NotRun? && l.once.cause.RecoveryTimeout? ==>
          l.once.cause.timer < |l.recovery.timers| && l.recovery.timers[l.once.cause.timer].status.Fired?)
  }

  predicate Invariant(l: Life) {
    TimersSound(l.recovery) && PendingIsNamed(l) && NamedIsLive(l) && CallersSound(l)
  }

  lemma OfferKept(l: Life, s: OfferStep)
    requires Invariant(l) && CanOffer(l, s)
    ensures Invariant(DoOffer(l, s))
  {
  }

  lemma CandidateKept(l: Life, s: CandidateStep)
    requires Invariant(l) && CanCandidate(l, s)
    ensures Invariant(DoCandidate(l, s))
  {
  }

  lemma ChannelKept(l: Life, s: ChannelStep)
    requires Invariant(l) && CanChannel(l, s)
    ensures Invariant(DoChannel(l, s))
  {
  }

  /** A timer that the step leaves alone, or stops, stays sound. */
  lemma TimerStaysSound(r: Recovery, r': Recovery, k: nat)
    requires k < |r.timers| <= |r'.timers| && TimerSound(r, k)
    requires r'.timers[k] == r.timers[k] || r'.timers[k] == r.timers[k].(status := Stopped)
    requires r.notes <= r'.notes && r.now <= r'.now
    requires r'.timers[k].status.Pending? ==> NoConnected(r'.notes, |r.notes|, |r'.notes|)
    ensures TimerSound(r', k)
  {
    var t := r.timers[k];
    assert forall i | 0 <= i < |r.notes| :: r'.notes[i] == r.notes[i];
    if t.status.Fired? {
      assert NoConnected(r'.notes, t.note, t.status.note);
    }
  }

  lemma TimersStaySound(r: Recovery, r': Recovery)
    requires TimersSound(r) && |r.timers| <= |r'.timers|
    requires forall k: nat | k < |r.timers| ::
      r'.timers[k] == r.timers[k] || r'.timers[k] == r.timers[k].(status := Stopped)
    requires r.notes <= r'.notes && r.now <= r'.now
    requires forall k: nat | k < |r.timers| && r'.timers[k].status.Pending? ::
      NoConnected(r'.notes, |r.notes|, |r'.notes|)
    ensures forall k: nat | k < |r.timers| :: TimerSound(r', k)
  {
    forall k: nat | k < |r.timers|
      ensures TimerSound(r', k)
    {
      TimerStaysSound(r, r', k);
    }
  }

  lemma FireSound(l: Life, timer: nat)
    requires Invariant(l) && CanLink(l, Fire(timer))
    ensures TimersSound(DoLink(l, Fire(timer)).recovery)
  {
    var r, r' := l.recovery, DoLink(l, Fire(timer)).recovery;
    forall k: nat | k < |r.timers|
      ensures TimerSound(r', k)
    {
      assert TimerSound(r, k);
      if k != timer {
        TimerStaysSound(r, r', k);
      }
    }
  }

  lemma LinkTimersKept(l: Life, s: LinkStep)
    requires Invariant(l) && CanLink(l, s)
    ensures TimersSound(DoLink(l, s).recovery)
  {
    match s
    case Fire(timer) => FireSound(l, timer);
    case LinkClosed =>
    case _ => TimersStaySound(l.recovery, DoLink(l, s).recovery);
  }

  lemma LinkKept(l: Life, s: LinkStep)
    requires Invariant(l) && CanLink(l, s)
    ensures Invariant(DoLink(l, s))
  {
    LinkTimersKept(l, s);
  }

  lemma CloseKept(l: Life, s: CloseStep)
    requires Invariant(l) && CanClose(l, s)
    ensures Invariant(DoClose(l, s))
  {
    if s.Mark? {
      TimersStaySound(l.recovery, DoClose(l, s).recovery);
    }
  }

  lemma StepKept(l: Life, s: Step)
    requires Invariant(l) && Can(l, s)
    ensures Invariant(Do(l, s))
  {
    match s
    case Offering(o) => OfferKept(l, o);
    case Gathering(c) => CandidateKept(l, c);
    case Channeling(c) => ChannelKept(l, c);
    case Linking(k) => LinkKept(l, k);
    case Closing(c) => CloseKept(l, c);
  }

  // ---------------------------------------------------------------- consequences

  /** Timer `k` was armed, ran a full window without a reconnection, and then fired. */
  ghost predicate RanOut(r: Recovery, k: nat) {
    exists a: nat, b: nat, armedAt: nat, firedAt: nat ::
      && a < b < |r.notes|
      && r.notes[a] == Armed(k, armedAt) && r.notes[b] == Expired(k, firedAt)
      && firedAt >= armedAt + 10
      && NoConnected(r.notes, a, b)
  }

  /** A recovery timeout closes the session only through a timer that ran out. */
  lemma TimeoutMeansOutage(l: Life)
    requires Invariant(l) && !l.once.NotRun? && l.once.cause.RecoveryTimeout?
    ensures RanOut(l.recovery, l.once.cause.timer)
  {
    var k := l.once.cause.timer;
    var t := l.recovery.timers[k];
    assert TimerSound(l.recovery, k);
    assert l.recovery.notes[t.note] == Armed(k, t.armedAt);
    assert l.recovery.notes[t.status.note] == Expired(k, t.status.at);
  }

  /** At most one timer runs, and none once `close` has passed its critical section. */
  lemma OneTimer(l: Life, j: nat, k: nat)
    requires Invariant(l)
    requires j < |l.recovery.timers| && l.recovery.timers[j].status.Pending?
    requires k < |l.recovery.timers| && l.recovery.timers[k].status.Pending?
    ensures j == k && !l.fields.closed
  {
    assert l.fields.recovery == Some(j);
  }

  /** A further Disconnected or Failed while a timer is named changes no timer, and no
    * step at all moves the deadline of a timer. */
  lemma DeadlineNeverMoves(l: Life, s: Step, k: nat)
    requires Can(l, s) && k < |l.recovery.timers|
    ensures k < |Do(l, s).recovery.timers|
    ensures Do(l, s).recovery.timers[k].armedAt == l.recovery.timers[k].armedAt
    ensures (s == Linking(LinkDisconnected) || s == Linking(LinkFailed)) && l.fields.recovery.Some? ==>
      Do(l, s).recovery.timers == l.recovery.timers
  {
  }

  /** A Connected that is processed after the timer fired comes too late: `close` with a
    * recovery timeout may still be the next thing that happens. */
  lemma ReconnectAfterExpiry(l: Life, k: nat) returns (steps: seq<Step>, end: Life)
    requires Invariant(l) && CanLink(l, Fire(k)) && l.once.NotRun? && l.resources.peers > 0
    ensures steps == [Linking(Fire(k)), Linking(LinkConnected), Closing(Enter(|l.callers|)), Closing(Mark)]
    ensures Steps(l, steps) == Some(end)
    ensures end.fields.closed && end.once.Running? && end.once.cause == RecoveryTimeout(k)
    ensures end.recovery.notes == l.recovery.notes + [Expired(k, l.recovery.now), Connected]
  {
    var reconnected;
    steps, reconnected := FireThenReconnect(l, k);
    var entered := Do(reconnected, Closing(Enter(|l.callers|)));
    steps := Extend(l, steps, reconnected, Closing(Enter(|l.callers|)));
    steps := Extend(l, steps, entered, Closing(Mark));
    end := Do(entered, Closing(Mark));
  }

  lemma FireThenReconnect(l: Life, k: nat) returns (steps: seq<Step>, end: Life)
    requires Invariant(l) && CanLink(l, Fire(k)) && l.resources.peers > 0
    ensures steps == [Linking(Fire(k)), Linking(LinkConnected)] && Steps(l, steps) == Some(end)
    ensures end.callers == l.callers + [Caller(RecoveryTimeout(k), false)] && end.once == l.once
    ensures end.recovery.notes == l.recovery.notes + [Expired(k, l.recovery.now), Connected]
  {
    var fired := Do(l, Linking(Fire(k)));
    steps := Extend(l, [], l, Linking(Fire(k)));
    steps := Extend(l, steps, fired, Linking(LinkConnected));
    end := Do(fired, Linking(LinkConnected));
  }

  lemma StoppedStays(l: Life, s: Step, k: nat)
    requires Can(l, s) && k < |l.recovery.timers| && l.recovery.timers[k].status.Stopped?
    ensures s != Linking(Fire(k))
    ensures k < |Do(l, s).recovery.timers| && Do(l, s).recovery.timers[k].status.Stopped?
  {
  }

  /** A Connected that is processed before the timer fired averts its timeout for good. */
  lemma {:induction false} ReconnectBeforeExpiry(l: Life, k: nat, steps: seq<Step>)
    requires Invariant(l) && CanLink(l, LinkConnected)
    requires k < |l.recovery.timers| && l.recovery.timers[k].status.Pending?
    requires Steps(Do(l, Linking(LinkConnected)), steps).Some?
    ensures Linking(Fire(k)) !in steps
  {
    assert l.fields.recovery == Some(k);
    NeverFires(Do(l, Linking(LinkConnected)), k, steps);
  }

  lemma {:induction false} NeverFires(l: Life, k: nat, steps: seq<Step>)
    requires k < |l.recovery.timers| && l.recovery.timers[k].status.Stopped?
    requires Steps(l, steps).Some?
    ensures Linking(Fire(k)) !in steps
    decreases steps
  {
    if steps == [] {
    } else {
      StoppedStays(l, steps[0], k);
      NeverFires(Do(l, steps[0]), k, steps[1..]);
      assert steps == [steps[0]] + steps[1..];
    }
  }
}
