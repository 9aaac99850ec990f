/** Which daemons can still get to serving, and what is left when one closes. */
module DaemonOutcome {
  import opened Wrappers
  import opened SingleInstance

  predicate Serves(w: World, p: nat) {
    p < |w.processes| && w.processes[p].Serving?
  }

  /** Some continuation lets process `p` serve. */
  ghost predicate CanServe(w: World, p: nat) {
    exists steps: seq<Step> :: Run(w, steps).Some? && Serves(Run(w, steps).value, p)
  }

  /** What can serve after a step can serve before it. */
  lemma Before(w: World, s: Step, p: nat)
    requires Can(w, s) && CanServe(Do(w, s), p)
    ensures CanServe(w, p)
  {
    var rest: seq<Step> :| Run(Do(w, s), rest).Some? && Serves(Run(Do(w, s), rest).value, p);
    var steps := [s] + rest;
    assert steps[0] == s && steps[1..] == rest;
    assert Run(w, steps) == Run(Do(w, s), rest);
  }

  lemma Now(w: World, p: nat)
    requires Serves(w, p)
    ensures CanServe(w, p)
  {
    assert Run(w, []) == Some(w);
  }

  // ---------------------------------------------------------------- on the way to serving

  lemma SecuringServes(w: World, p: nat)
    requires p < |w.processes| && w.processes[p].Securing?
    ensures CanServe(w, p)
  {
    Now(Do(w, Chmod(p, true)), p);
    Before(w, Chmod(p, true), p);
  }

  lemma BindingServes(w: World, p: nat)
    requires Sound(w) && p < |w.processes| && w.processes[p].Binding?
    ensures CanServe(w, p)
  {
    SecuringServes(Do(w, Bind(p, true)), p);
    Before(w, Bind(p, true), p);
  }

  /** A socket that a crash left behind is in nobody's way. */
  lemma UnlinkingServes(w: World, p: nat)
    requires Sound(w) && p < |w.processes| && w.processes[p].Unlinking?
    ensures CanServe(w, p)
  {
    StepKept(w, Unlink(p, true));
    BindingServes(Do(w, Unlink(p, true)), p);
    Before(w, Unlink(p, true), p);
  }

  lemma LockedServes(w: World, p: nat)
    requires Sound(w) && p < |w.processes| && w.processes[p].Locked? && !w.socket.NotSocket?
    ensures CanServe(w, p)
  {
    StepKept(w, Inspect(p, true));
    var next := Do(w, Inspect(p, true));
    if next.processes[p].Binding? {
      BindingServes(next, p);
    } else {
      UnlinkingServes(next, p);
    }
    Before(w, Inspect(p, true), p);
  }

  lemma FreeLockServes(w: World, p: nat)
    requires Sound(w) && p < |w.processes| && w.processes[p].Starting? && w.lock.None? && !w.socket.NotSocket?
    ensures CanServe(w, p)
  {
    StepKept(w, Lock(p, true));
    LockedServes(Do(w, Lock(p, true)), p);
    Before(w, Lock(p, true), p);
  }

  /** A starting daemon: the one that has the lock may always be gone first. */
  lemma StartingServes(w: World, p: nat)
    requires Sound(w) && p < |w.processes| && w.processes[p].Starting? && !w.socket.NotSocket?
    ensures CanServe(w, p)
  {
    if w.lock.None? {
      FreeLockServes(w, p);
    } else {
      var holder := w.lock.value;
      assert PastLock(w.processes[holder]);
      StepKept(w, Crash(holder));
      FreeLockServes(Do(w, Crash(holder)), p);
      Before(w, Crash(holder), p);
    }
  }

  // ---------------------------------------------------------------- what never serves

  /** On its way out. */
  predicate Leaving(s: Stage) {
    s.Aborting? || s.Draining? || s.Removing? || s.Unlocking? || s.Ended?
  }

  lemma {:induction false} LeavingForever(w: World, steps: seq<Step>, p: nat)
    requires p < |w.processes| && Leaving(w.processes[p]) && Run(w, steps).Some?
    ensures !Serves(Run(w, steps).value, p)
    decreases steps
  {
    if steps == [] {
    } else {
      LeavingForever(Do(w, steps[0]), steps[1..], p);
    }
  }

  /** The path names something that is no socket, and no process got past that. */
  predicate Refusing(w: World) {
    && w.socket.NotSocket?
    && forall p: nat | p < |w.processes| :: w.processes[p] in {Starting, Locked, Unlocking, Ended}
  }

  /** A file at the socket path that is no socket keeps every daemon from starting, and
    * is never removed. */
  lemma {:induction false} ForeignFileStays(w: World, steps: seq<Step>)
    requires Refusing(w) && Run(w, steps).Some?
    ensures Refusing(Run(w, steps).value)
    decreases steps
  {
    if steps == [] {
    } else {
      assert Refusing(Do(w, steps[0]));
      ForeignFileStays(Do(w, steps[0]), steps[1..]);
    }
  }

  /** No step puts a foreign file at the path. */
  lemma {:induction false} ForeignMeansRefusing(w: World, steps: seq<Step>)
    requires (w.socket.NotSocket? ==> Refusing(w)) && Run(w, steps).Some?
    ensures Run(w, steps).value.socket.NotSocket? ==> Refusing(Run(w, steps).value)
    decreases steps
  {
    if steps == [] {
    } else {
      assert Do(w, steps[0]).socket.NotSocket? ==> Refusing(Do(w, steps[0]));
      ForeignMeansRefusing(Do(w, steps[0]), steps[1..]);
    }
  }

  // ---------------------------------------------------------------- theorems

  /** A call of which `p` was told that it failed, or the lock that another one has, or a
    * path that names something else than a socket, or one that is taken. */
  predicate Fails(w: World, s: Step, p: nat) {
    || s == Lock(p, false) || (s == Lock(p, true) && w.lock.Some?)
    || s == Inspect(p, false) || (s == Inspect(p, true) && w.socket.NotSocket?)
    || s == Unlink(p, false) || s == Bind(p, false) || (s == Bind(p, true) && !w.socket.NoEntry?)
    || s == Chmod(p, false)
  }

  /** Any of that ends the start: the daemon never serves. */
  lemma FailureEndsStart(w: World, s: Step, p: nat)
    requires Can(w, s) && Fails(w, s, p)
    ensures !CanServe(Do(w, s), p)
  {
    forall steps: seq<Step> | Run(Do(w, s), steps).Some?
      ensures !Serves(Run(Do(w, s), steps).value, p)
    {
      LeavingForever(Do(w, s), steps, p);
    }
  }

  /** Every call may fail, and a daemon may crash at any time. */
  lemma CallsMayFail(w: World, p: nat)
    requires p < |w.processes|
    ensures w.processes[p].Starting? ==> Can(w, Lock(p, false))
    ensures w.processes[p].Locked? ==> Can(w, Inspect(p, false))
    ensures w.processes[p].Unlinking? ==> Can(w, Unlink(p, false))
    ensures w.processes[p].Binding? ==> Can(w, Bind(p, false))
    ensures w.processes[p].Securing? ==> Can(w, Chmod(p, false))
    ensures w.processes[p].Removing? ==> Can(w, RemovePath(p, false))
    ensures !w.processes[p].Ended? ==> Can(w, Crash(p))
  {
  }

  /** A daemon that stops listening, for whatever reason, takes its path with it, unless
    * unlinking fails. */
  lemma ListenerTakesPath(w: World, s: Step, p: nat)
    requires Sound(w) && IsListening(w, p)
    requires s == StopListening(p, true) || s == SingleInstance.Close(p, true) || s == Abort(p, true)
    ensures Can(w, s) <==> if w.processes[p].Securing? then false else s.Abort? == w.processes[p].Aborting?
    ensures Can(w, s) ==> Do(w, s).socket.NoEntry? && !IsListening(Do(w, s), p)
  {
  }

  /** Only a daemon whose socket was just secured begins to serve. */
  lemma ServesOnlySecured(w: World, s: Step, p: nat)
    requires Can(w, s) && Serves(Do(w, s), p) && !Serves(w, p)
    ensures s == Chmod(p, true) && w.processes[p].Securing?
  {
  }

  lemma SoundOutcome(w: World, p: nat)
    requires Sound(w) && p < |w.processes| && (w.socket.NotSocket? ==> Refusing(w))
    ensures CanServe(w, p) <==>
      && !Leaving(w.processes[p])
      && (w.processes[p].Starting? || w.processes[p].Locked? ==> !w.socket.NotSocket?)
  {
    if Leaving(w.processes[p]) {
      forall steps: seq<Step> | Run(w, steps).Some?
        ensures !Serves(Run(w, steps).value, p)
      {
        LeavingForever(w, steps, p);
      }
    } else if w.socket.NotSocket? {
      forall steps: seq<Step> | Run(w, steps).Some?
        ensures !Serves(Run(w, steps).value, p)
      {
        RefusedForever(w, steps, p);
      }
    } else {
      match w.processes[p]
      case Starting => StartingServes(w, p);
      case Locked => LockedServes(w, p);
      case Unlinking => UnlinkingServes(w, p);
      case Binding => BindingServes(w, p);
      case Securing => SecuringServes(w, p);
      case Serving(_) => Now(w, p);
    }
  }

  lemma RefusedForever(w: World, steps: seq<Step>, p: nat)
    requires Refusing(w) && Run(w, steps).Some?
    ensures !Serves(Run(w, steps).value, p)
  {
    ForeignFileStays(w, steps);
  }

  /** At any point of any run, a daemon can still get to serving, or serves, exactly if
    * nothing has ended its start, and, as long as it has not looked, the path names no
    * foreign file. */
  lemma ServesExactlyIf(entry: Entry, steps: seq<Step>, p: nat)
    requires entry.Socket? ==> entry.owner.None?
    requires Run(Initial(entry), steps).Some? && p < |Run(Initial(entry), steps).value.processes|
    ensures
      var w := Run(Initial(entry), steps).value;
      CanServe(w, p) <==>
        && !Leaving(w.processes[p])
        && (w.processes[p].Starting? || w.processes[p].Locked? ==> !w.socket.NotSocket?)
  {
    RunKept(Initial(entry), steps);
    ForeignMeansRefusing(Initial(entry), steps);
    SoundOutcome(Run(Initial(entry), steps).value, p);
  }

  lemma {:induction false} Extend(w: World, steps: seq<Step>, end: World, s: Step) returns (longer: seq<Step>)
    requires Run(w, steps) == Some(end) && Can(end, s)
    ensures longer == steps + [s] && Run(w, longer) == Some(Do(end, s))
    decreases steps
  {
    longer := steps + [s];
    if steps == [] {
      assert longer[1..] == [];
    } else {
      var rest := Extend(Do(w, steps[0]), steps[1..], end, s);
      assert longer[1..] == rest;
    }
  }

  /** With the lock free, a new daemon can always get to serving, unless the path names
    * something that is no socket: a socket that a crash left behind is in nobody's way. */
  lemma RestartIsPossible(w: World) returns (steps: seq<Step>, end: World)
    requires Sound(w) && w.lock.None? && !w.socket.NotSocket?
    ensures Run(w, steps) == Some(end)
    ensures |end.processes| == |w.processes| + 1 && end.processes[|w.processes|] == Serving(true)
  {
    var p := |w.processes|;
    steps := Extend(w, [], w, Spawn);
    var w1 := Do(w, Spawn);
    steps := Extend(w, steps, w1, Lock(p, true));
    var w2 := Do(w1, Lock(p, true));
    steps := Extend(w, steps, w2, Inspect(p, true));
    end := Do(w2, Inspect(p, true));
    if end.processes[p].Unlinking? {
      steps := Extend(w, steps, end, Unlink(p, true));
      end := Do(end, Unlink(p, true));
    }
    steps, end := BindAndSecure(w, steps, end, p);
  }

  lemma BindAndSecure(w: World, before: seq<Step>, middle: World, p: nat) returns (steps: seq<Step>, end: World)
    requires Run(w, before) == Some(middle)
    requires p < |middle.processes| && middle.processes[p].Binding? && middle.socket.NoEntry?
    ensures Run(w, steps) == Some(end)
    ensures |end.processes| == |middle.processes| && end.processes[p] == Serving(true)
  {
    steps := Extend(w, before, middle, Bind(p, true));
    var bound := Do(middle, Bind(p, true));
    steps := Extend(w, steps, bound, Chmod(p, true));
    end := Do(bound, Chmod(p, true));
  }

  /** A daemon that serves can always close, and then leaves neither lock nor socket. */
  lemma CloseLeavesNothing(w: World, p: nat) returns (steps: seq<Step>, end: World)
    requires Sound(w) && Serves(w, p)
    ensures Run(w, steps) == Some(end)
    ensures end.lock.None? && end.socket.NoEntry? && end.processes == w.processes[p := Ended]
  {
    steps := Extend(w, [], w, SingleInstance.Close(p, true));
    end := Do(w, SingleInstance.Close(p, true));
    steps := Extend(w, steps, end, Drained(p));
    end := Do(end, Drained(p));
    steps := Extend(w, steps, end, RemovePath(p, true));
    end := Do(end, RemovePath(p, true));
    steps := Extend(w, steps, end, Unlock(p));
    end := Do(end, Unlock(p));
  }
}
