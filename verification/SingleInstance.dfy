/** One daemon per home directory: the lock file, and the socket path behind it. */
module SingleInstance {
  import opened Wrappers

  // ---------------------------------------------------------------- state

  /** What the socket path names; `owner` is the process that bound it, `None` for a
    * socket left over from before. */
  datatype Entry = NoEntry | NotSocket | Socket(owner: Option<nat>)

  datatype Stage =
    | Starting
    | Locked              // past flock, about to look at the socket path
    | Unlinking           // found a socket there
    | Binding
    | Securing            // listening, about to chmod the socket
    | Serving(listening: bool)
    | Aborting            // chmod failed: closing the listener
    | Draining            // listener closed: closing terminals, waiting for handlers
    | Removing            // about to remove the socket path once more
    | Unlocking
    | Ended               // stopped, failed or crashed

  /** A removal of the socket path: who did it, what it named, and whether the process
    * that had bound it was still listening. */
  datatype Removal = Removal(remover: nat, what: Entry, ownerListening: bool)

  datatype World = World(
    lock: Option<nat>,
    socket: Entry,
    processes: seq<Stage>,
    removals: seq<Removal>)

  predicate PastLock(s: Stage) {
    !s.Starting? && !s.Ended?
  }

  /** The process has an open listener whose path it has not removed. */
  predicate Listening(s: Stage) {
    s.Securing? || s.Aborting? || (s.Serving? && s.listening)
  }

  // ---------------------------------------------------------------- steps

  datatype Step =
    | Spawn
    | Lock(p: nat, ok: bool)        // open and flock the lock file
    | Inspect(p: nat, ok: bool)     // Lstat in removeSocket
    | Unlink(p: nat, ok: bool)      // Remove in removeSocket
    | Bind(p: nat, ok: bool)
    | Chmod(p: nat, ok: bool)
    | Abort(p: nat, removed: bool)
    | StopListening(p: nat, removed: bool)  // the context ends: another goroutine closes the listener
    | Close(p: nat, removed: bool)          // Close begins: it closes the listener
    | Drained(p: nat)
    | RemovePath(p: nat, ok: bool)
    | Unlock(p: nat)
    | Crash(p: nat)

  function Mover(s: Step): nat
    requires !s.Spawn?
  {
    match s
    case Lock(p, _) => p
    case Inspect(p, _) => p
    case Unlink(p, _) => p
    case Bind(p, _) => p
    case Chmod(p, _) => p
    case Abort(p, _) => p
    case StopListening(p, _) => p
    case Close(p, _) => p
    case Drained(p) => p
    case RemovePath(p, _) => p
    case Unlock(p) => p
    case Crash(p) => p
  }

  predicate Can(w: World, s: Step) {
    s.Spawn? ||
    (Mover(s) < |w.processes| &&
     var stage := w.processes[Mover(s)];
     match s
     case Lock(_, _) => stage.Starting?
     case Inspect(_, _) => stage.Locked?
     case Unlink(_, _) => stage.Unlinking?
     case Bind(_, _) => stage.Binding?
     case Chmod(_, _) => stage.Securing?
     case Abort(_, _) => stage.Aborting?
     case StopListening(_, _) => stage == Serving(true)
     case Close(_, _) => stage.Serving?
     case Drained(_) => stage.Draining?
     case RemovePath(_, _) => stage.Removing?
     case Unlock(_) => stage.Unlocking?
     case Crash(_) => !stage.Ended?
     case Spawn => true)
  }

  function To(w: World, p: nat, stage: Stage): World
    requires p < |w.processes|
  {
    w.(processes := w.processes[p := stage])
  }

  predicate IsListening(w: World, p: nat) {
    p < |w.processes| && Listening(w.processes[p])
  }

  /** Unlinking, if it succeeds, removes whatever the path names. Closing a listener
    * unlinks its path the first time only. */
  function Remove(w: World, p: nat, removed: bool): World {
    if !removed then w else
    var live := w.socket.Socket? && w.socket.owner.Some? && IsListening(w, w.socket.owner.value);
    w.(socket := NoEntry, removals := w.removals + [Removal(p, w.socket, live)])
  }

  /** Closing the lock file, or the death of its process, frees the lock. */
  function Free(w: World, p: nat): World {
    if w.lock == Some(p) then w.(lock := None) else w
  }

  function Do(w: World, s: Step): World
    requires Can(w, s)
  {
    match s
    case Spawn => w.(processes := w.processes + [Starting])
    case Lock(p, ok) =>
      if ok && w.lock.None? then To(w, p, Locked).(lock := Some(p)) else To(w, p, Ended)
    case Inspect(p, ok) =>
      if !ok || w.socket.NotSocket? then To(w, p, Unlocking)
      else To(w, p, if w.socket.NoEntry? then Binding else Unlinking)
    case Unlink(p, ok) => if ok then To(Remove(w, p, true), p, Binding) else To(w, p, Unlocking)
    case Bind(p, ok) =>
      if ok && w.socket.NoEntry? then To(w, p, Securing).(socket := Socket(Some(p))) else To(w, p, Unlocking)
    case Chmod(p, ok) => To(w, p, if ok then Serving(true) else Aborting)
    case Abort(p, removed) => To(Remove(w, p, removed), p, Unlocking)
    case StopListening(p, removed) => To(Remove(w, p, removed), p, Serving(false))
    case Close(p, removed) => To(Remove(w, p, removed && w.processes[p].listening), p, Draining)
    case Drained(p) => To(w, p, Removing)
    case RemovePath(p, ok) => To(Remove(w, p, ok), p, Unlocking)
    case Unlock(p) => To(Free(w, p), p, Ended)
    case Crash(p) => To(Free(w, p), p, Ended)
  }

  function Run(w: World, steps: seq<Step>): Option<World>
    decreases steps
  {
    if steps == [] then Some(w)
    else if !Can(w, steps[0]) then None
    else Run(Do(w, steps[0]), steps[1..])
  }

  /** No process has run yet; the path may name anything but a socket of theirs. */
  function Initial(entry: Entry): World
    requires entry.Socket? ==> entry.owner.None?
  {
    World(None, entry, [], [])
  }

  // ---------------------------------------------------------------- invariant

  predicate LockExact(w: World) {
    forall p: nat | p < |w.processes| :: PastLock(w.processes[p]) <==> w.lock == Some(p)
  }

  predicate LockHeldByProcess(w: World) {
    w.lock.Some? ==> w.lock.value < |w.processes|
  }

  predicate PathOwned(w: World) {
    forall p: nat | p < |w.processes| && Listening(w.processes[p]) :: w.socket == Socket(Some(p))
  }

  predicate RemovalsSafe(w: World) {
    forall i | 0 <= i < |w.removals| :: w.removals[i].ownerListening ==> w.removals[i].what == Socket(Some(w.removals[i].remover))
  }

  /** What the holder of the lock saw at the path is still there. */
  predicate PathSteady(w: World) {
    forall p: nat | p < |w.processes| ::
      (w.processes[p].Unlinking? ==> w.socket.Socket?) && (w.processes[p].Binding? ==> w.socket.NoEntry?)
  }

  predicate Sound(w: World) {
    LockExact(w) && LockHeldByProcess(w) && PathOwned(w) && PathSteady(w) && RemovalsSafe(w)
  }

  /** The holder of the lock removes the path and stops listening, if it did. */
  lemma RemoveKept(w: World, p: nat, removed: bool, next: Stage)
    requires Sound(w) && p < |w.processes| && w.lock == Some(p)
    requires PastLock(next) && !Listening(next) && !next.Unlinking? && (next.Binding? ==> removed)
    ensures Sound(To(Remove(w, p, removed), p, next))
  {
    var w' := To(Remove(w, p, removed), p, next);
    assert forall q: nat | q < |w.processes| && Listening(w.processes[q]) :: q == p;
    forall i | 0 <= i < |w'.removals| && w'.removals[i].ownerListening
      ensures w'.removals[i].what == Socket(Some(w'.removals[i].remover))
    {
      if i < |w.removals| {
        assert w'.removals[i] == w.removals[i];
      }
    }
  }

  /** Steps that do not remove the path. */
  predicate Keeps(s: Step) {
    !s.Abort? && !s.StopListening? && !s.Close? && !s.RemovePath? && !s.Unlink?
  }

  /** The holder of the lock moves on without starting to listen. */
  lemma MoveKept(w: World, p: nat, next: Stage)
    requires Sound(w) && p < |w.processes| && w.lock == Some(p)
    requires PastLock(next) && (Listening(next) ==> Listening(w.processes[p]))
    requires (next.Unlinking? ==> w.socket.Socket?) && (next.Binding? ==> w.socket.NoEntry?)
    ensures Sound(To(w, p, next))
  {
  }

  lemma LockStepKept(w: World, s: Step)
    requires Sound(w) && Can(w, s) && (s.Spawn? || s.Lock? || s.Unlock? || s.Crash?)
    ensures Sound(Do(w, s))
  {
  }

  lemma KeepingStepKept(w: World, s: Step)
    requires Sound(w) && Can(w, s) && Keeps(s)
    ensures Sound(Do(w, s))
  {
    match s
    case Inspect(p, _) => MoveKept(w, p, Do(w, s).processes[p]);
    case Bind(p, ok) =>
      if !ok || !w.socket.NoEntry? {
        MoveKept(w, p, Unlocking);
      }
    case Chmod(p, _) => MoveKept(w, p, Do(w, s).processes[p]);
    case Drained(p) => MoveKept(w, p, Removing);
    case _ => LockStepKept(w, s);
  }

  lemma StepKept(w: World, s: Step)
    requires Sound(w) && Can(w, s)
    ensures Sound(Do(w, s))
  {
    match s
    case Abort(p, removed) => RemoveKept(w, p, removed, Unlocking);
    case StopListening(p, removed) => RemoveKept(w, p, removed, Serving(false));
    case Close(p, removed) => RemoveKept(w, p, removed && w.processes[p].listening, Draining);
    case RemovePath(p, ok) => RemoveKept(w, p, ok, Unlocking);
    case Unlink(p, ok) => RemoveKept(w, p, ok, if ok then Binding else Unlocking);
    case _ => KeepingStepKept(w, s);
  }

  lemma {:induction false} RunKept(w: World, steps: seq<Step>)
    requires Sound(w) && Run(w, steps).Some?
    ensures Sound(Run(w, steps).value)
    decreases steps
  {
    if steps == [] {
    } else {
      StepKept(w, steps[0]);
      RunKept(Do(w, steps[0]), steps[1..]);
    }
  }

  // ---------------------------------------------------------------- theorems

  /** Whatever the number of daemons that start, fail, close and crash: at most one is
    * past the lock, a daemon that listens holds the lock and owns the socket path, and
    * nobody ever removed a socket on which another daemon was listening. */
  lemma OneDaemon(entry: Entry, steps: seq<Step>)
    requires entry.Socket? ==> entry.owner.None?
    requires Run(Initial(entry), steps).Some?
    ensures
      var w := Run(Initial(entry), steps).value;
      && (forall p: nat, q: nat ::
            p < |w.processes| && q < |w.processes| && PastLock(w.processes[p]) && PastLock(w.processes[q]) ==> p == q)
      && (forall p: nat | p < |w.processes| && Listening(w.processes[p]) ::
            w.lock == Some(p) && w.socket == Socket(Some(p)))
      && (forall i | 0 <= i < |w.removals| && w.removals[i].ownerListening ::
            w.removals[i].what == Socket(Some(w.removals[i].remover)))
  {
    RunKept(Initial(entry), steps);
  }
}
