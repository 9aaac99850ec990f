/** The mutexes of the agent: who may hold which lock while taking another one.
  *
  * A goroutine is a sequence of operations on locks, cut out of the program text.
  * It accesses shared data in between. Everything else it does is `Work`: network calls, library closes, and waiting for a
  * reply or a channel. `Work` is taken to end some time, by a timeout if need be.
  */
module LockOrder {

  // ---------------------------------------------------------------- locks and goroutines

  /** `CloseOnce` is the mutex inside `sync.Once`: held while the function runs. */
  datatype Lock =
    | CloseOnce(terminal: nat)
    | StateMu
    | SessionMu(terminal: nat)
    | ManagerMu
    | ControlMu
    | WriteMu

  function Rank(l: Lock): nat {
    match l
    case CloseOnce(_) => 0
    case StateMu => 1
    case SessionMu(_) => 2
    case ManagerMu => 3
    case ControlMu => 4
    case WriteMu => 5
  }

  const RANKS := 6

  datatype Mode = Exclusive | Shared

  /** What goroutines share, and which lock guards it: the manager's map, the fields of
    * a session, the daemon's flags, its current connection, and writing to that. */
  datatype Data = TerminalMap | SessionFields(terminal: nat) | DaemonFlags | Connection | Wire

  function Guard(d: Data): Lock {
    match d
    case TerminalMap => ManagerMu
    case SessionFields(t) => SessionMu(t)
    case DaemonFlags => StateMu
    case Connection => ControlMu
    case Wire => WriteMu
  }

  datatype Op =
    | Acquire(lock: Lock, mode: Mode)
    | Release(lock: Lock)
    | Access(data: Data, write: bool)
    | Work

  function Held(ops: seq<Op>): set<(Lock, Mode)> {
    if ops == [] then {}
    else
      var before := Held(ops[..|ops| - 1]);
      match ops[|ops| - 1]
      case Acquire(l, mode) => before + {(l, mode)}
      case Release(l) => before - {(l, Exclusive), (l, Shared)}
      case _ => before
  }

  /** Locks are taken in the order of their ranks only, and all are given back. */
  ghost predicate Disciplined(program: seq<Op>) {
    && Held(program) == {}
    && forall k | 0 <= k < |program| && program[k].Acquire? ::
         forall h | h in Held(program[..k]) :: Rank(h.0) < Rank(program[k].lock)
  }

  datatype Goroutine = Goroutine(program: seq<Op>, at: nat)
  {
    ghost predicate Valid() {
      at <= |program| && Disciplined(program)
    }

    predicate Finished() {
      at >= |program|
    }

    predicate Wants(l: Lock, mode: Mode) {
      at < |program| && program[at] == Acquire(l, mode)
    }

    predicate AtAcquire() {
      at < |program| && program[at].Acquire?
    }

    predicate Holds(l: Lock, mode: Mode) {
      at <= |program| && (l, mode) in Held(program[..at])
    }
  }

  type State = seq<Goroutine>

  /** What goroutine `g` waits for: a conflicting holder, be it itself, or, when it
    * wants to share, a goroutine that already waits for exclusive use. */
  predicate WaitsFor(s: State, g: nat, h: nat) {
    && g < |s| && h < |s| && s[g].AtAcquire()
    && var Acquire(l, mode) := s[g].program[s[g].at];
       || s[h].Holds(l, Exclusive)
       || (mode.Exclusive? && s[h].Holds(l, Shared))
       || (mode.Shared? && h != g && s[h].Wants(l, Exclusive))
  }

  ghost predicate Enabled(s: State, g: nat) {
    g < |s| && !s[g].Finished() && forall h: nat :: !WaitsFor(s, g, h)
  }

  ghost predicate AllValid(s: State) {
    forall g: nat | g < |s| :: s[g].Valid()
  }

  // ---------------------------------------------------------------- no cycle, no deadlock

  function Weight(g: Goroutine): nat
    requires g.AtAcquire()
  {
    2 * Rank(g.program[g.at].lock) + if g.program[g.at].mode.Exclusive? then 1 else 0
  }

  lemma WeightBounded(g: Goroutine)
    requires g.AtAcquire()
    ensures Weight(g) < 2 * RANKS
  {
  }

  /** Whoever is waited for and waits itself, waits for something heavier. */
  lemma WaitingClimbs(s: State, g: nat, h: nat)
    requires AllValid(s) && WaitsFor(s, g, h)
    ensures !s[h].Finished()
    ensures s[h].AtAcquire() ==> Weight(s[g]) < Weight(s[h])
  {
    var Acquire(l, mode) := s[g].program[s[g].at];
    if s[h].Holds(l, Exclusive) || s[h].Holds(l, Shared) {
      assert s[h].program[..|s[h].program|] == s[h].program;
      assert s[h].Valid();
    }
  }

  /** A chain of goroutines, each waiting for the next. */
  predicate Chain(s: State, c: seq<nat>) {
    forall i | 0 <= i < |c| - 1 :: WaitsFor(s, c[i], c[i + 1])
  }

  lemma {:induction false} ChainClimbs(s: State, c: seq<nat>)
    requires AllValid(s) && |c| >= 2 && Chain(s, c)
    requires c[|c| - 1] < |s| && s[c[|c| - 1]].AtAcquire()
    ensures c[0] < |s| && s[c[0]].AtAcquire()
    ensures Weight(s[c[0]]) < Weight(s[c[|c| - 1]])
  {
    WaitingClimbs(s, c[0], c[1]);
    if |c| > 2 {
      assert Chain(s, c[1..]) by {
        forall i | 0 <= i < |c[1..]| - 1
          ensures WaitsFor(s, c[1..][i], c[1..][i + 1])
        {
          assert WaitsFor(s, c[i + 1], c[i + 1 + 1]);
        }
      }
      ChainClimbs(s, c[1..]);
    }
  }

  /** No cycle of goroutines waits on each other's locks, however many there are. */
  lemma NoCycle(s: State, c: seq<nat>)
    requires AllValid(s) && |c| >= 2 && c[0] == c[|c| - 1]
    ensures !Chain(s, c)
  {
    if Chain(s, c) {
      assert WaitsFor(s, c[0], c[1]);
      ChainClimbs(s, c);
    }
  }

  /** From any unfinished goroutine, waiting leads to one that can go on. */
  lemma Climb(s: State, g: nat) returns (h: nat)
    requires AllValid(s) && g < |s| && !s[g].Finished()
    ensures Enabled(s, h)
    decreases if s[g].AtAcquire() then 2 * RANKS - Weight(s[g]) else 0
  {
    if Enabled(s, g) {
      h := g;
    } else {
      var next: nat :| WaitsFor(s, g, next);
      WaitingClimbs(s, g, next);
      WeightBounded(s[g]);
      if s[next].AtAcquire() {
        WeightBounded(s[next]);
        h := Climb(s, next);
      } else {
        h := next;
      }
    }
  }

  /** As long as a goroutine is unfinished, some goroutine can take a step. */
  lemma NoDeadlock(s: State)
    requires AllValid(s)
    ensures (forall g: nat | g < |s| :: s[g].Finished()) || exists g: nat :: Enabled(s, g)
  {
    if g: nat :| g < |s| && !s[g].Finished() {
      var h := Climb(s, g);
    }
  }
}
