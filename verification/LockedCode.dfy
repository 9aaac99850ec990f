/** The agent's code as lock operations, and the states it can reach. */
module LockedCode {
  import opened Wrappers
  import opened LockOrder

  // ---------------------------------------------------------------- the code

  /** The pieces of code that touch a lock. Every goroutine runs some sequence of them:
    * its branches, loops and early returns only select and repeat blocks. */
  datatype Block =
    /** Anything that takes no lock. */
    | Pause
    /** Open; the lookup in Signal, ActiveIDs and the snapshot in CloseAll only read. */
    | MapSection(write: bool)
    /** A critical section of one session; `startPTY` starts the shell inside it. */
    | SessionSection(terminal: nat)
    /** The manager's `send`: under controlMu, and writeMu if there is a connection. */
    | ManagerSend(connected: bool)
    /** The call of `close` that runs the once-function, with its send. */
    | CloseFirst(terminal: nat, connected: bool)
    /** Any other call of `close`. */
    | CloseAgain(terminal: nat)
    /** `status` reads the flags and counts the terminals under the read lock. */
    | StatusSection
    /** Writing the daemon's flags. */
    | StateSection
    /** Reading or replacing the current connection. */
    | ConnectionSection(write: bool)
    /** `Send`, `Ping` and the write in `request`. */
    | ConnectionWrite
    /** `createPairing` and `cancelPairing` keep controlMu while they wait for the reply. */
    | PairingCall(connected: bool)

  function Locked(l: Lock, mode: Mode, inside: seq<Op>): seq<Op> {
    [Acquire(l, mode)] + inside + [Release(l)]
  }

  function SendCode(connected: bool): seq<Op> {
    Locked(ControlMu, Exclusive, [Access(Connection, false)] + if connected then WireCode() else [])
  }

  function WireCode(): seq<Op> {
    Locked(WriteMu, Exclusive, [Access(Wire, true)])
  }

  /** A request is written, and its reply waited for. */
  function RequestCode(connected: bool): seq<Op> {
    if connected then WireCode() + [Work] else []
  }

  /** The once-function: the critical section, the closing of the libraries' objects, the
    * deletion, the close signal. */
  function CloseBody(t: nat, connected: bool): seq<Op> {
    Locked(SessionMu(t), Exclusive, [Access(SessionFields(t), true)]) + [Work] +
    Locked(ManagerMu, Exclusive, [Access(TerminalMap, true)]) + SendCode(connected)
  }

  function Code(b: Block): seq<Op> {
    match b
    case Pause => [Work]
    case MapSection(write) => Locked(ManagerMu, Exclusive, [Access(TerminalMap, write)])
    case SessionSection(t) => Locked(SessionMu(t), Exclusive, [Access(SessionFields(t), true), Work])
    case ManagerSend(connected) => SendCode(connected)
    case CloseFirst(t, connected) => Locked(CloseOnce(t), Exclusive, CloseBody(t, connected))
    case CloseAgain(t) => Locked(CloseOnce(t), Exclusive, [])
    case StatusSection =>
      Locked(StateMu, Shared,
        [Access(DaemonFlags, false)] + Locked(ManagerMu, Exclusive, [Access(TerminalMap, false)]))
    case StateSection => Locked(StateMu, Exclusive, [Access(DaemonFlags, true)])
    case ConnectionSection(write) => Locked(ControlMu, Exclusive, [Access(Connection, write)])
    case ConnectionWrite => WireCode()
    case PairingCall(connected) =>
      Locked(ControlMu, Exclusive, [Access(Connection, false)] + RequestCode(connected))
  }

  function Program(blocks: seq<Block>): seq<Op> {
    if blocks == [] then [] else Program(blocks[..|blocks| - 1]) + Code(blocks[|blocks| - 1])
  }

  // ---------------------------------------------------------------- the code is disciplined

  /** All acquisitions in `ops` are above `floor` and in order, and `ops` gives every
    * lock back. */
  ghost predicate Above(ops: seq<Op>, floor: int) {
    && Disciplined(ops)
    && forall k | 0 <= k < |ops| && ops[k].Acquire? :: floor < Rank(ops[k].lock)
  }

  /** With these locks, the access is allowed: writing needs the guard for oneself. */
  predicate Protects(held: set<(Lock, Mode)>, data: Data, write: bool) {
    (Guard(data), Exclusive) in held || (!write && (Guard(data), Shared) in held)
  }

  /** Every access in `ops` is guarded, given the locks that are held around `ops`. */
  ghost predicate Guarded(ops: seq<Op>, outer: set<(Lock, Mode)>) {
    forall k | 0 <= k < |ops| && ops[k].Access? :: Protects(outer + Held(ops[..k]), ops[k].data, ops[k].write)
  }

  lemma HeldAppend(a: seq<Op>, b: seq<Op>)
    requires Held(a) == {}
    ensures Held(a + b) == Held(b)
  {
    if b == [] {
      assert a + b == a;
    } else {
      assert (a + b)[..|a + b| - 1] == a + b[..|b| - 1];
      HeldAppend(a, b[..|b| - 1]);
    }
  }

  lemma DisciplinedAppend(a: seq<Op>, b: seq<Op>)
    requires Disciplined(a) && Disciplined(b)
    ensures Disciplined(a + b)
  {
    HeldAppend(a, b);
    forall k, h | 0 <= k < |a + b| && (a + b)[k].Acquire? && h in Held((a + b)[..k])
      ensures Rank(h.0) < Rank((a + b)[k].lock)
    {
      if k < |a| {
        assert (a + b)[..k] == a[..k];
      } else {
        assert (a + b)[..k] == a + b[..k - |a|];
        HeldAppend(a, b[..k - |a|]);
      }
    }
  }

  lemma AboveAppend(a: seq<Op>, b: seq<Op>, floor: int)
    requires Above(a, floor) && Above(b, floor)
    ensures Above(a + b, floor)
  {
    DisciplinedAppend(a, b);
  }

  /** Around `inside`, exactly the outer lock is held in addition. */
  lemma HeldInside(l: Lock, mode: Mode, inside: seq<Op>)
    requires forall k | 0 <= k < |inside| && inside[k].Release? :: inside[k].lock != l
    ensures Held([Acquire(l, mode)] + inside) == {(l, mode)} + Held(inside)
  {
    var all := [Acquire(l, mode)] + inside;
    if inside == [] {
      assert all == [Acquire(l, mode)];
      assert all[..0] == [];
    } else {
      assert all[..|all| - 1] == [Acquire(l, mode)] + inside[..|inside| - 1];
      HeldInside(l, mode, inside[..|inside| - 1]);
    }
  }

  lemma LockedAbove(l: Lock, mode: Mode, inside: seq<Op>, floor: int)
    requires Above(inside, Rank(l)) && floor < Rank(l)
    requires forall k | 0 <= k < |inside| && inside[k].Release? :: inside[k].lock != l
    ensures Above(Locked(l, mode, inside), floor)
  {
    var open := [Acquire(l, mode)] + inside;
    var all := Locked(l, mode, inside);
    HeldInside(l, mode, inside);
    assert all[..|all| - 1] == open;
    forall k | 0 <= k < |all| && all[k].Acquire?
      ensures floor < Rank(all[k].lock)
      ensures forall h | h in Held(all[..k]) :: Rank(h.0) < Rank(all[k].lock)
    {
      if k == 0 {
        assert all[..0] == [];
      } else {
        assert all[k] == inside[k - 1];
        assert all[..k] == [Acquire(l, mode)] + inside[..k - 1];
        HeldInside(l, mode, inside[..k - 1]);
      }
    }
  }

  lemma GuardedAppend(a: seq<Op>, b: seq<Op>, outer: set<(Lock, Mode)>)
    requires Guarded(a, outer) && Guarded(b, outer) && Held(a) == {}
    ensures Guarded(a + b, outer)
  {
    forall k | 0 <= k < |a + b| && (a + b)[k].Access?
      ensures Protects(outer + Held((a + b)[..k]), (a + b)[k].data, (a + b)[k].write)
    {
      if k < |a| {
        assert (a + b)[..k] == a[..k];
      } else {
        assert (a + b)[..k] == a + b[..k - |a|];
        HeldAppend(a, b[..k - |a|]);
      }
    }
  }

  predicate Keeps(ops: seq<Op>, l: Lock) {
    forall k | 0 <= k < |ops| && ops[k].Release? :: ops[k].lock != l
  }

  lemma LockedGuarded(l: Lock, mode: Mode, inside: seq<Op>, outer: set<(Lock, Mode)>)
    requires Guarded(inside, outer + {(l, mode)}) && Keeps(inside, l)
    ensures Guarded(Locked(l, mode, inside), outer)
  {
    var all := Locked(l, mode, inside);
    forall k | 0 <= k < |all| && all[k].Access?
      ensures Protects(outer + Held(all[..k]), all[k].data, all[k].write)
    {
      assert all[k] == inside[k - 1];
      assert all[..k] == [Acquire(l, mode)] + inside[..k - 1];
      HeldInside(l, mode, inside[..k - 1]);
      assert outer + Held(all[..k]) == outer + {(l, mode)} + Held(inside[..k - 1]);
    }
  }

  /** Ordered, balanced and guarded, inside `outer`, whose locks are up to `floor`. */
  ghost predicate Fine(ops: seq<Op>, floor: int, outer: set<(Lock, Mode)>) {
    Above(ops, floor) && Guarded(ops, outer)
  }

  lemma FineAppend(a: seq<Op>, b: seq<Op>, floor: int, outer: set<(Lock, Mode)>)
    requires Fine(a, floor, outer) && Fine(b, floor, outer)
    ensures Fine(a + b, floor, outer)
  {
    AboveAppend(a, b, floor);
    GuardedAppend(a, b, outer);
  }

  lemma LockedFine(l: Lock, mode: Mode, inside: seq<Op>, floor: int, outer: set<(Lock, Mode)>)
    requires Fine(inside, Rank(l), outer + {(l, mode)}) && floor < Rank(l) && Keeps(inside, l)
    ensures Fine(Locked(l, mode, inside), floor, outer)
  {
    LockedAbove(l, mode, inside, floor);
    LockedGuarded(l, mode, inside, outer);
  }

  lemma WorkFine(floor: int, outer: set<(Lock, Mode)>)
    ensures Fine([Work], floor, outer) && Fine([], floor, outer)
  {
    assert [Work][..0] == [];
  }

  lemma AccessFine(data: Data, write: bool, floor: int, outer: set<(Lock, Mode)>)
    requires Protects(outer, data, write)
    ensures Fine([Access(data, write)], floor, outer)
  {
    assert [Access(data, write)][..0] == [];
    assert outer + Held([]) == outer;
  }

  /** A critical section with one access, under any locks below. */
  lemma SectionFine(l: Lock, mode: Mode, data: Data, write: bool, floor: int, outer: set<(Lock, Mode)>)
    requires Protects({(l, mode)}, data, write) && floor < Rank(l)
    ensures Fine(Locked(l, mode, [Access(data, write)]), floor, outer)
  {
    AccessFine(data, write, Rank(l), outer + {(l, mode)});
    LockedFine(l, mode, [Access(data, write)], floor, outer);
  }

  lemma SendFine(connected: bool, floor: int, outer: set<(Lock, Mode)>)
    requires floor < Rank(ControlMu)
    ensures Fine(SendCode(connected), floor, outer)
  {
    var inner := outer + {(ControlMu, Exclusive)};
    AccessFine(Connection, false, Rank(ControlMu), inner);
    SectionFine(WriteMu, Exclusive, Wire, true, Rank(ControlMu), inner);
    WorkFine(Rank(ControlMu), inner);
    var rest := if connected then WireCode() else [];
    FineAppend([Access(Connection, false)], rest, Rank(ControlMu), inner);
    LockedFine(ControlMu, Exclusive, [Access(Connection, false)] + rest, floor, outer);
  }

  lemma CloseBodyFine(t: nat, connected: bool, outer: set<(Lock, Mode)>)
    ensures Fine(CloseBody(t, connected), 0, outer)
  {
    var mark := Locked(SessionMu(t), Exclusive, [Access(SessionFields(t), true)]);
    var delete := Locked(ManagerMu, Exclusive, [Access(TerminalMap, true)]);
    SectionFine(SessionMu(t), Exclusive, SessionFields(t), true, 0, outer);
    SectionFine(ManagerMu, Exclusive, TerminalMap, true, 0, outer);
    WorkFine(0, outer);
    SendFine(connected, 0, outer);
    FineAppend(mark, [Work], 0, outer);
    FineAppend(mark + [Work], delete, 0, outer);
    FineAppend(mark + [Work] + delete, SendCode(connected), 0, outer);
  }

  lemma CloseBodyKeeps(t: nat, connected: bool)
    ensures Keeps(CloseBody(t, connected), CloseOnce(t))
  {
  }

  lemma CloseFine(t: nat, connected: bool)
    ensures Fine(Code(CloseFirst(t, connected)), -1, {})
  {
    CloseBodyFine(t, connected, {} + {(CloseOnce(t), Exclusive)});
    CloseBodyKeeps(t, connected);
    LockedFine(CloseOnce(t), Exclusive, CloseBody(t, connected), -1, {});
  }

  lemma StatusFine()
    ensures Fine(Code(StatusSection), -1, {})
  {
    var inner := {} + {(StateMu, Shared)};
    AccessFine(DaemonFlags, false, Rank(StateMu), inner);
    SectionFine(ManagerMu, Exclusive, TerminalMap, false, Rank(StateMu), inner);
    var count := Locked(ManagerMu, Exclusive, [Access(TerminalMap, false)]);
    FineAppend([Access(DaemonFlags, false)], count, Rank(StateMu), inner);
    LockedFine(StateMu, Shared, [Access(DaemonFlags, false)] + count, -1, {});
  }

  lemma RequestFine(connected: bool, floor: int, outer: set<(Lock, Mode)>)
    requires floor < Rank(WriteMu)
    ensures Fine(RequestCode(connected), floor, outer)
  {
    SectionFine(WriteMu, Exclusive, Wire, true, floor, outer);
    WorkFine(floor, outer);
    FineAppend(WireCode(), [Work], floor, outer);
  }

  lemma PairingFine(connected: bool)
    ensures Fine(Code(PairingCall(connected)), -1, {})
  {
    var floor, inner := Rank(ControlMu), {} + {(ControlMu, Exclusive)};
    AccessFine(Connection, false, floor, inner);
    RequestFine(connected, floor, inner);
    FineAppend([Access(Connection, false)], RequestCode(connected), floor, inner);
    LockedFine(ControlMu, Exclusive, [Access(Connection, false)] + RequestCode(connected), -1, {});
  }

  lemma SessionFine(t: nat)
    ensures Fine(Code(SessionSection(t)), -1, {})
  {
    var floor, inner := Rank(SessionMu(t)), {} + {(SessionMu(t), Exclusive)};
    AccessFine(SessionFields(t), true, floor, inner);
    WorkFine(floor, inner);
    FineAppend([Access(SessionFields(t), true)], [Work], floor, inner);
    assert [Access(SessionFields(t), true)] + [Work] == [Access(SessionFields(t), true), Work];
    LockedFine(SessionMu(t), Exclusive, [Access(SessionFields(t), true), Work], -1, {});
  }

  /** Every block takes its locks in the order closeOnce, stateMu, session mu, manager
    * mu, controlMu, writeMu, gives them back, and accesses shared data only under the
    * lock that guards it. */
  lemma BlockDisciplined(b: Block)
    ensures Disciplined(Code(b)) && Guarded(Code(b), {})
  {
    WorkFine(-1, {});
    match b
    case Pause =>
    case MapSection(write) => SectionFine(ManagerMu, Exclusive, TerminalMap, write, -1, {});
    case SessionSection(t) => SessionFine(t);
    case ManagerSend(connected) => SendFine(connected, -1, {});
    case CloseFirst(t, connected) => CloseFine(t, connected);
    case CloseAgain(t) =>
      WorkFine(Rank(CloseOnce(t)), {} + {(CloseOnce(t), Exclusive)});
      LockedFine(CloseOnce(t), Exclusive, [], -1, {});
    case StatusSection => StatusFine();
    case StateSection => SectionFine(StateMu, Exclusive, DaemonFlags, true, -1, {});
    case ConnectionSection(write) => SectionFine(ControlMu, Exclusive, Connection, write, -1, {});
    case ConnectionWrite => SectionFine(WriteMu, Exclusive, Wire, true, -1, {});
    case PairingCall(connected) => PairingFine(connected);
  }

  lemma {:induction false} ProgramDisciplined(blocks: seq<Block>)
    ensures Disciplined(Program(blocks)) && Guarded(Program(blocks), {})
  {
    if blocks == [] {
    } else {
      ProgramDisciplined(blocks[..|blocks| - 1]);
      BlockDisciplined(blocks[|blocks| - 1]);
      DisciplinedAppend(Program(blocks[..|blocks| - 1]), Code(blocks[|blocks| - 1]));
      GuardedAppend(Program(blocks[..|blocks| - 1]), Code(blocks[|blocks| - 1]), {});
    }
  }

  // ---------------------------------------------------------------- what the code touches

  /** The accesses in `ops`, in order. */
  function Touched(ops: seq<Op>): seq<(Data, bool)> {
    if ops == [] then []
    else
      var last := ops[|ops| - 1];
      Touched(ops[..|ops| - 1]) + if last.Access? then [(last.data, last.write)] else []
  }

  lemma TouchedAppend(a: seq<Op>, b: seq<Op>)
    ensures Touched(a + b) == Touched(a) + Touched(b)
  {
    if b == [] {
      assert a + b == a;
    } else {
      assert (a + b)[..|a + b| - 1] == a + b[..|b| - 1];
      TouchedAppend(a, b[..|b| - 1]);
    }
  }

  lemma TouchedOne(op: Op)
    ensures Touched([op]) == if op.Access? then [(op.data, op.write)] else []
  {
    assert [op][..0] == [];
  }

  lemma TouchedLocked(l: Lock, mode: Mode, inside: seq<Op>)
    ensures Touched(Locked(l, mode, inside)) == Touched(inside)
  {
    TouchedAppend([Acquire(l, mode)] + inside, [Release(l)]);
    TouchedAppend([Acquire(l, mode)], inside);
    TouchedOne(Acquire(l, mode));
    TouchedOne(Release(l));
  }

  /** A critical section with one access. */
  lemma TouchedSection(l: Lock, mode: Mode, data: Data, write: bool)
    ensures Touched(Locked(l, mode, [Access(data, write)])) == [(data, write)]
  {
    TouchedLocked(l, mode, [Access(data, write)]);
    TouchedOne(Access(data, write));
  }

  lemma TouchedSend(connected: bool)
    ensures Touched(SendCode(connected)) == [(Connection, false)] + if connected then [(Wire, true)] else []
  {
    var rest := if connected then WireCode() else [];
    TouchedLocked(ControlMu, Exclusive, [Access(Connection, false)] + rest);
    TouchedAppend([Access(Connection, false)], rest);
    TouchedOne(Access(Connection, false));
    TouchedSection(WriteMu, Exclusive, Wire, true);
  }

  lemma TouchedClose(t: nat, connected: bool)
    ensures Touched(CloseBody(t, connected)) ==
      [(SessionFields(t), true), (TerminalMap, true)] + Touched(SendCode(connected))
  {
    var mark := Locked(SessionMu(t), Exclusive, [Access(SessionFields(t), true)]);
    var delete := Locked(ManagerMu, Exclusive, [Access(TerminalMap, true)]);
    TouchedAppend(mark + [Work] + delete, SendCode(connected));
    TouchedAppend(mark + [Work], delete);
    TouchedAppend(mark, [Work]);
    TouchedOne(Work);
    TouchedSection(SessionMu(t), Exclusive, SessionFields(t), true);
    TouchedSection(ManagerMu, Exclusive, TerminalMap, true);
  }

  lemma TouchedRequest(connected: bool)
    ensures Touched(RequestCode(connected)) == if connected then [(Wire, true)] else []
  {
    TouchedAppend(WireCode(), [Work]);
    TouchedOne(Work);
    TouchedSection(WriteMu, Exclusive, Wire, true);
  }

  lemma TouchedPairing(connected: bool)
    ensures Touched(Code(PairingCall(connected))) ==
      [(Connection, false)] + if connected then [(Wire, true)] else []
  {
    TouchedLocked(ControlMu, Exclusive, [Access(Connection, false)] + RequestCode(connected));
    TouchedAppend([Access(Connection, false)], RequestCode(connected));
    TouchedOne(Access(Connection, false));
    TouchedRequest(connected);
  }

  lemma TouchedSessionSection(t: nat)
    ensures Touched(Code(SessionSection(t))) == [(SessionFields(t), true)]
  {
    TouchedLocked(SessionMu(t), Exclusive, [Access(SessionFields(t), true), Work]);
    TouchedAppend([Access(SessionFields(t), true)], [Work]);
    assert [Access(SessionFields(t), true)] + [Work] == [Access(SessionFields(t), true), Work];
    TouchedOne(Access(SessionFields(t), true));
    TouchedOne(Work);
  }

  lemma TouchedStatus()
    ensures Touched(Code(StatusSection)) == [(DaemonFlags, false), (TerminalMap, false)]
  {
    var count := Locked(ManagerMu, Exclusive, [Access(TerminalMap, false)]);
    TouchedLocked(StateMu, Shared, [Access(DaemonFlags, false)] + count);
    TouchedAppend([Access(DaemonFlags, false)], count);
    TouchedOne(Access(DaemonFlags, false));
    TouchedSection(ManagerMu, Exclusive, TerminalMap, false);
  }

  /** What each piece of code reads, and what it writes (`true`), in order. */
  function Touches(b: Block): seq<(Data, bool)> {
    match b
    case Pause => []
    case MapSection(write) => [(TerminalMap, write)]
    case SessionSection(t) => [(SessionFields(t), true)]
    case ManagerSend(connected) => SendTouches(connected)
    case CloseFirst(t, connected) => [(SessionFields(t), true), (TerminalMap, true)] + SendTouches(connected)
    case CloseAgain(_) => []
    case StatusSection => [(DaemonFlags, false), (TerminalMap, false)]
    case StateSection => [(DaemonFlags, true)]
    case ConnectionSection(write) => [(Connection, write)]
    case ConnectionWrite => [(Wire, true)]
    case PairingCall(connected) => SendTouches(connected)
  }

  function SendTouches(connected: bool): seq<(Data, bool)> {
    [(Connection, false)] + if connected then [(Wire, true)] else []
  }

  lemma CloseTouches(t: nat, connected: bool)
    ensures Touched(Code(CloseFirst(t, connected))) == Touches(CloseFirst(t, connected))
  {
    TouchedLocked(CloseOnce(t), Exclusive, CloseBody(t, connected));
    TouchedClose(t, connected);
    TouchedSend(connected);
  }

  lemma SectionTouches(b: Block)
    requires b.MapSection? || b.StateSection? || b.ConnectionSection? || b.ConnectionWrite?
    ensures Touched(Code(b)) == Touches(b)
  {
    match b
    case MapSection(write) => TouchedSection(ManagerMu, Exclusive, TerminalMap, write);
    case StateSection => TouchedSection(StateMu, Exclusive, DaemonFlags, true);
    case ConnectionSection(write) => TouchedSection(ControlMu, Exclusive, Connection, write);
    case ConnectionWrite => TouchedSection(WriteMu, Exclusive, Wire, true);
  }

  /** Since all of it is guarded, this also says under which locks it is touched. */
  lemma BlockTouches(b: Block)
    ensures Touched(Code(b)) == Touches(b)
  {
    match b
    case Pause => TouchedOne(Work);
    case SessionSection(t) => TouchedSessionSection(t);
    case ManagerSend(connected) => TouchedSend(connected);
    case CloseFirst(t, connected) => CloseTouches(t, connected);
    case CloseAgain(t) => TouchedLocked(CloseOnce(t), Exclusive, []);
    case StatusSection => TouchedStatus();
    case PairingCall(connected) => TouchedPairing(connected);
    case _ => SectionTouches(b);
  }

  /** `close` calls into the libraries with no lock but its own once, so that callbacks
    * can take the session's mutex meanwhile. */
  lemma ClosesWithoutSessionMutex(t: nat, connected: bool)
    ensures
      var code := Code(CloseFirst(t, connected));
      && (exists k: nat :: k < |code| && code[k] == Work)
      && (forall k: nat | k < |code| && code[k] == Work :: Held(code[..k]) == {(CloseOnce(t), Exclusive)})
  {
    var mark := Locked(SessionMu(t), Exclusive, [Access(SessionFields(t), true)]);
    var code := Code(CloseFirst(t, connected));
    assert |mark| == 3 && code[4] == Work;
    assert forall k: nat | k < |code| && k != 4 :: code[k] != Work;
    assert code[..4] == [Acquire(CloseOnce(t), Exclusive)] + mark;
    HeldInside(CloseOnce(t), Exclusive, mark);
    SectionFine(SessionMu(t), Exclusive, SessionFields(t), true, 0, {});
  }

  // ---------------------------------------------------------------- reachable states

  datatype Move = Spawn(blocks: seq<Block>) | Advance(goroutine: nat)

  ghost function Run(s: State, moves: seq<Move>): Option<State>
    decreases moves
  {
    if moves == [] then Some(s)
    else
      match moves[0]
      case Spawn(blocks) => Run(s + [Goroutine(Program(blocks), 0)], moves[1..])
      case Advance(g) => if Enabled(s, g) then Run(Advanced(s, g), moves[1..]) else None
  }

  function Advanced(s: State, g: nat): State
    requires g < |s|
  {
    s[g := s[g].(at := s[g].at + 1)]
  }

  /** No lock is held exclusively by one goroutine and at all by another. */
  ghost predicate Exclusion(s: State) {
    forall g: nat, h: nat, l, mode | g < |s| && h < |s| && g != h && s[g].Holds(l, Exclusive) :: !s[h].Holds(l, mode)
  }

  lemma HeldNext(g: Goroutine)
    requires g.at < |g.program|
    ensures Held(g.program[..g.at + 1]) ==
      match g.program[g.at]
      case Acquire(l, mode) => Held(g.program[..g.at]) + {(l, mode)}
      case Release(l) => Held(g.program[..g.at]) - {(l, Exclusive), (l, Shared)}
      case _ => Held(g.program[..g.at])
  {
    assert g.program[..g.at + 1][..g.at] == g.program[..g.at];
  }

  lemma ExclusionKept(s: State, g: nat)
    requires AllValid(s) && Exclusion(s) && Enabled(s, g)
    ensures Exclusion(Advanced(s, g))
  {
    HeldNext(s[g]);
    var s' := Advanced(s, g);
    forall i: nat, j: nat, l, mode | i < |s| && j < |s| && i != j && s'[i].Holds(l, Exclusive)
      ensures !s'[j].Holds(l, mode)
    {
      assert !WaitsFor(s, g, i) && !WaitsFor(s, g, j);
      assert s[i].Holds(l, Exclusive) ==> !s[j].Holds(l, mode);
      if i == g && !s[g].Holds(l, Exclusive) {
        assert s[g].program[s[g].at] == Acquire(l, Exclusive);
        assert s'[j] == s[j] && !s[j].Holds(l, Exclusive) && !s[j].Holds(l, Shared);
        assert mode == Exclusive || mode == Shared;
      }
    }
  }

  ghost predicate AllGuarded(s: State) {
    forall g: nat | g < |s| :: Guarded(s[g].program, {})
  }

  lemma {:induction false} RunSafe(s: State, moves: seq<Move>)
    requires AllValid(s) && AllGuarded(s) && Exclusion(s) && Run(s, moves).Some?
    ensures
      var end := Run(s, moves).value;
      AllValid(end) && AllGuarded(end) && Exclusion(end)
    decreases moves
  {
    if moves == [] {
    } else {
      match moves[0]
      case Spawn(blocks) =>
        ProgramDisciplined(blocks);
        var s' := s + [Goroutine(Program(blocks), 0)];
        assert Program(blocks)[..0] == [];
        RunSafe(s', moves[1..]);
      case Advance(g) =>
        ExclusionKept(s, g);
        RunSafe(Advanced(s, g), moves[1..]);
    }
  }

  /** Goroutine `g` is about to access shared data. */
  predicate Accesses(s: State, g: nat, data: Data, write: bool) {
    g < |s| && s[g].at < |s[g].program| && s[g].program[s[g].at] == Access(data, write)
  }

  /** Two goroutines are about to access the same data, and one of them to write it. */
  predicate Race(s: State, g: nat, h: nat, data: Data, write: bool) {
    g != h && Accesses(s, g, data, true) && Accesses(s, h, data, write)
  }

  lemma AccessHolds(s: State, g: nat, data: Data, write: bool)
    requires AllValid(s) && AllGuarded(s) && Accesses(s, g, data, write)
    ensures s[g].Holds(Guard(data), Exclusive) || (!write && s[g].Holds(Guard(data), Shared))
  {
    assert {} + Held(s[g].program[..s[g].at]) == Held(s[g].program[..s[g].at]);
  }

  lemma NoRace(s: State, g: nat, h: nat, data: Data, write: bool)
    requires AllValid(s) && AllGuarded(s) && Exclusion(s)
    ensures !Race(s, g, h, data, write)
  {
    if Race(s, g, h, data, write) {
      AccessHolds(s, g, data, true);
      AccessHolds(s, h, data, write);
    }
  }

  /** In every reachable state, for any number of goroutines and terminals: locks
    * exclude, no two goroutines race for shared data, no cycle of goroutines waits on
    * each other's locks, and as long as one goroutine is unfinished, some goroutine can
    * go on. */
  lemma LockTheorem(moves: seq<Move>)
    requires Run([], moves).Some?
    ensures
      var s := Run([], moves).value;
      && Exclusion(s)
      && (forall g: nat, h: nat, data, write :: !Race(s, g, h, data, write))
      && (forall c: seq<nat> | |c| >= 2 && c[0] == c[|c| - 1] :: !Chain(s, c))
      && ((forall g: nat | g < |s| :: s[g].Finished()) || exists g: nat :: Enabled(s, g))
  {
    RunSafe([], moves);
    var s := Run([], moves).value;
    forall g: nat, h: nat, data, write
      ensures !Race(s, g, h, data, write)
    {
      NoRace(s, g, h, data, write);
    }
    forall c: seq<nat> | |c| >= 2 && c[0] == c[|c| - 1]
      ensures !Chain(s, c)
    {
      NoCycle(s, c);
    }
    NoDeadlock(s);
  }
}
