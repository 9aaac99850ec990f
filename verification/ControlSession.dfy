/** One control connection: its reader, its two bounded channels, and its requesters. */
module ControlSession {
  import opened Wrappers

  const VERSION := 1
  const EVENT_CAPACITY := 16
  const REPLY_CAPACITY := 4

  /** `typ` is the message type as it is on the wire. `answers`: the request whose id the
    * envelope carries, counted among the requests written to this connection, in order;
    * `None` if it carries no such id. The agent itself never looks at it. */
  datatype Envelope = Envelope(version: int, typ: string, answers: Option<nat>)

  /** The routing test of the reader. Everything else counts as a reply. */
  predicate IsEvent(e: Envelope) {
    || e.typ == "terminal.open" || e.typ == "terminal.signal" || e.typ == "terminal.close"
    || e.typ == "agent.pairing_verified" || e.typ == "agent.paired"
  }

  function Events(received: seq<Envelope>): seq<Envelope> {
    if received == [] then []
    else
      var last := received[|received| - 1];
      Events(received[..|received| - 1]) + if IsEvent(last) then [last] else []
  }

  function Replies(received: seq<Envelope>): seq<Envelope> {
    if received == [] then []
    else
      var last := received[|received| - 1];
      Replies(received[..|received| - 1]) + if IsEvent(last) then [] else [last]
  }

  lemma SplitAppend(received: seq<Envelope>, e: Envelope)
    ensures Events(received + [e]) == Events(received) + if IsEvent(e) then [e] else []
    ensures Replies(received + [e]) == Replies(received) + if IsEvent(e) then [] else [e]
  {
    assert (received + [e])[..|received|] == received;
  }

  lemma SplitCounts(received: seq<Envelope>)
    ensures |Events(received)| + |Replies(received)| == |received|
  {
  }

  // ---------------------------------------------------------------- state

  /** `Unsent`: writing the request failed, so that the service never got it. */
  datatype Request = Waiting | Took(reply: Envelope) | TimedOut | Unsent

  /** The reader reads, holds an envelope its channel has no room for, or has returned,
    * possibly dropping the one it held. */
  datatype Reader = Reading | Holding(envelope: Envelope) | Stopped(dropped: Option<Envelope>)

  /** `received`, `handled` and `taken` are the histories: what was read with the right
    * version, what the daemon took from the events, what requests took as replies. */
  datatype Session = Session(
    reader: Reader,
    events: seq<Envelope>,
    replies: seq<Envelope>,
    requests: seq<Request>,
    received: seq<Envelope>,
    handled: seq<Envelope>,
    taken: seq<Envelope>)

  /** `NewSession`. */
  const NEW_SESSION := Session(Reading, [], [], [], [], [], [])

  // ---------------------------------------------------------------- steps

  datatype Step =
    | Receive(envelope: Envelope)
    | ReadFails
    | Route
    | Cancel
    | HandleEvent
    | Issue(written: bool)
    | Take(request: nat)
    | TimeOut(request: nat)

  predicate IsWaiting(s: Session, r: nat) {
    r < |s.requests| && s.requests[r].Waiting?
  }

  predicate Can(s: Session, step: Step) {
    match step
    case Receive(_) => s.reader.Reading?
    case ReadFails => s.reader.Reading?
    case Route =>
      && s.reader.Holding?
      && (if IsEvent(s.reader.envelope) then |s.events| < EVENT_CAPACITY else |s.replies| < REPLY_CAPACITY)
    case Cancel => s.reader.Holding?
    case HandleEvent => s.events != []
    case Issue(_) => true
    case Take(r) => IsWaiting(s, r) && s.replies != []
    case TimeOut(r) => IsWaiting(s, r)
  }

  function Do(s: Session, step: Step): Session
    requires Can(s, step)
  {
    match step
    case Receive(e) =>
      if e.version != VERSION then s.(reader := Stopped(None))
      else s.(reader := Holding(e), received := s.received + [e])
    case ReadFails => s.(reader := Stopped(None))
    case Route =>
      var e := s.reader.envelope;
      if IsEvent(e) then s.(reader := Reading, events := s.events + [e])
      else s.(reader := Reading, replies := s.replies + [e])
    case Cancel => s.(reader := Stopped(Some(s.reader.envelope)))
    case HandleEvent => s.(events := s.events[1..], handled := s.handled + [s.events[0]])
    case Issue(written) => s.(requests := s.requests + [if written then Waiting else Unsent])
    case Take(r) =>
      s.(replies := s.replies[1..], taken := s.taken + [s.replies[0]],
         requests := s.requests[r := Took(s.replies[0])])
    case TimeOut(r) => s.(requests := s.requests[r := TimedOut])
  }

  function Run(s: Session, steps: seq<Step>): Option<Session>
    decreases steps
  {
    if steps == [] then Some(s)
    else if !Can(s, steps[0]) then None
    else Run(Do(s, steps[0]), steps[1..])
  }

  // ---------------------------------------------------------------- routing invariant

  /** What the reader still owes the channels, or dropped. */
  function InHand(s: Session): seq<Envelope> {
    match s.reader
    case Reading => []
    case Holding(e) => [e]
    case Stopped(dropped) => if dropped.Some? then [dropped.value] else []
  }

  predicate EventsRouted(s: Session) {
    Events(s.received) == s.handled + s.events + Events(InHand(s)) && |s.events| <= EVENT_CAPACITY
  }

  predicate RepliesRouted(s: Session) {
    Replies(s.received) == s.taken + s.replies + Replies(InHand(s)) && |s.replies| <= REPLY_CAPACITY
  }

  predicate RightVersion(received: seq<Envelope>) {
    forall k | 0 <= k < |received| :: received[k].version == 1
  }

  predicate Routed(s: Session) {
    EventsRouted(s) && RepliesRouted(s) && RightVersion(s.received)
  }

  lemma SplitOne(e: Envelope)
    ensures Events([e]) == if IsEvent(e) then [e] else []
    ensures Replies([e]) == if IsEvent(e) then [] else [e]
  {
    SplitAppend([], e);
  }

  lemma SplitJoin(received: seq<Envelope>, e: Envelope)
    ensures Events(received + [e]) == Events(received) + Events([e])
    ensures Replies(received + [e]) == Replies(received) + Replies([e])
  {
    SplitAppend(received, e);
    SplitOne(e);
  }

  lemma VersionKept(received: seq<Envelope>, e: Envelope)
    requires RightVersion(received) && e.version == VERSION
    ensures RightVersion(received + [e])
  {
  }

  lemma ReceiveKept(s: Session, e: Envelope)
    requires Routed(s) && s.reader.Reading? && e.version == VERSION
    ensures Routed(Do(s, Receive(e)))
  {
    SplitJoin(s.received, e);
    VersionKept(s.received, e);
    assert InHand(Do(s, Receive(e))) == [e] && InHand(s) == [];
  }

  lemma Shift(a: seq<Envelope>, b: seq<Envelope>, e: Envelope)
    ensures a + b + [e] == a + (b + [e]) + []
  {
  }

  lemma RouteEventKept(s: Session)
    requires Routed(s) && Can(s, Route) && IsEvent(s.reader.envelope)
    ensures Routed(Do(s, Route))
  {
    SplitOne(s.reader.envelope);
    Shift(s.handled, s.events, s.reader.envelope);
    assert InHand(Do(s, Route)) == [];
  }

  lemma RouteReplyKept(s: Session)
    requires Routed(s) && Can(s, Route) && !IsEvent(s.reader.envelope)
    ensures Routed(Do(s, Route))
  {
    SplitOne(s.reader.envelope);
    Shift(s.taken, s.replies, s.reader.envelope);
    assert InHand(Do(s, Route)) == [];
  }

  lemma HandleKept(s: Session)
    requires Routed(s) && Can(s, HandleEvent)
    ensures Routed(Do(s, HandleEvent))
  {
    assert s.events == [s.events[0]] + s.events[1..];
    assert s.handled + s.events == s.handled + [s.events[0]] + s.events[1..];
  }

  lemma TakeKept(s: Session, r: nat)
    requires Routed(s) && Can(s, Take(r))
    ensures Routed(Do(s, Take(r)))
  {
    assert s.replies == [s.replies[0]] + s.replies[1..];
    assert s.taken + s.replies == s.taken + [s.replies[0]] + s.replies[1..];
  }

  lemma RoutedKept(s: Session, step: Step)
    requires Routed(s) && Can(s, step)
    ensures Routed(Do(s, step))
  {
    match step
    case Receive(e) =>
      if e.version == VERSION {
        ReceiveKept(s, e);
      }
    case Route =>
      if IsEvent(s.reader.envelope) {
        RouteEventKept(s);
      } else {
        RouteReplyKept(s);
      }
    case HandleEvent => HandleKept(s);
    case Take(r) => TakeKept(s, r);
    case _ =>
      assert Do(s, step).received == s.received && InHand(Do(s, step)) == InHand(s);
  }

  lemma {:induction false} RoutedRun(s: Session, steps: seq<Step>)
    requires Routed(s) && Run(s, steps).Some?
    ensures Routed(Run(s, steps).value)
    decreases steps
  {
    if steps == [] {
    } else {
      RoutedKept(s, steps[0]);
      RoutedRun(Do(s, steps[0]), steps[1..]);
    }
  }

  /** In every run, the daemon handles the event-class envelopes and the requests take
    * the others, both in the order of arrival and without a gap; and no more than
    * 16 + 4 + 1 received envelopes are neither handled nor taken. All have version 1. */
  lemma RoutingTheorem(steps: seq<Step>)
    requires Run(NEW_SESSION, steps).Some?
    ensures
      var s := Run(NEW_SESSION, steps).value;
      && s.handled <= Events(s.received)
      && s.taken <= Replies(s.received)
      && |s.received| - |s.handled| - |s.taken| <= 16 + 4 + 1
      && RightVersion(s.received)
  {
    RoutedRun(NEW_SESSION, steps);
    var s := Run(NEW_SESSION, steps).value;
    SplitCounts(s.received);
    SplitCounts(InHand(s));
  }

  // ---------------------------------------------------------------- routing by wire type

  /** The types of the messages that are events, as the service names them. */
  const EVENT_TYPES := {"terminal.open", "terminal.signal", "terminal.close", "agent.pairing_verified", "agent.paired"}

  /** The envelopes whose type is among `types`, or the others, in order. */
  function Select(received: seq<Envelope>, types: set<string>, among: bool): seq<Envelope> {
    if received == [] then []
    else
      var last := received[|received| - 1];
      Select(received[..|received| - 1], types, among) + if (last.typ in types) == among then [last] else []
  }

  lemma EventType(e: Envelope)
    ensures IsEvent(e) <==> e.typ in EVENT_TYPES
  {
  }

  lemma {:induction false} SplitByType(received: seq<Envelope>)
    ensures Events(received) == Select(received, EVENT_TYPES, true)
    ensures Replies(received) == Select(received, EVENT_TYPES, false)
  {
    if received != [] {
      SplitByType(received[..|received| - 1]);
      EventType(received[|received| - 1]);
    }
  }

  lemma {:induction false} SelectedTypes(received: seq<Envelope>, types: set<string>, among: bool)
    ensures forall e | e in Select(received, types, among) :: (e.typ in types) == among
  {
    if received != [] {
      SelectedTypes(received[..|received| - 1], types, among);
    }
  }

  /** In every run: the envelopes of the five types were handled, are queued as events, or
    * are in the reader's hand, in the order of arrival; all others were taken as replies,
    * are queued as such, or are in the reader's hand. Neither kind is ever among the
    * other. */
  lemma RoutedByType(steps: seq<Step>)
    requires Run(NEW_SESSION, steps).Some?
    ensures
      var s := Run(NEW_SESSION, steps).value;
      && Select(s.received, EVENT_TYPES, true) == s.handled + s.events + Select(InHand(s), EVENT_TYPES, true)
      && Select(s.received, EVENT_TYPES, false) == s.taken + s.replies + Select(InHand(s), EVENT_TYPES, false)
      && (forall e | e in s.handled || e in s.events :: e.typ in EVENT_TYPES)
      && (forall e | e in s.taken || e in s.replies :: e.typ !in EVENT_TYPES)
  {
    RoutedRun(NEW_SESSION, steps);
    var s := Run(NEW_SESSION, steps).value;
    SplitByType(s.received);
    SplitByType(InHand(s));
    SelectedTypes(s.received, EVENT_TYPES, true);
    SelectedTypes(s.received, EVENT_TYPES, false);
    InBoth(s.handled, s.events, Select(InHand(s), EVENT_TYPES, true));
    InBoth(s.taken, s.replies, Select(InHand(s), EVENT_TYPES, false));
  }

  lemma InBoth(a: seq<Envelope>, b: seq<Envelope>, c: seq<Envelope>)
    ensures forall e | e in a || e in b :: e in a + b + c
  {
  }

  // ---------------------------------------------------------------- what can happen

  lemma {:induction false} Extend(s: Session, steps: seq<Step>, end: Session, step: Step) returns (longer: seq<Step>)
    requires Run(s, steps) == Some(end) && Can(end, step)
    ensures longer == steps + [step] && Run(s, longer) == Some(Do(end, step))
    decreases steps
  {
    longer := steps + [step];
    if steps == [] {
      assert longer[1..] == [];
    } else {
      var rest := Extend(Do(s, steps[0]), steps[1..], end, step);
      assert longer[1..] == rest;
    }
  }

  /** A reading reader takes any envelope or error, a waiting one a cancellation; requests
    * come and time out at any time. */
  lemma InputIsAlwaysTaken(s: Session, e: Envelope, written: bool, r: nat)
    ensures s.reader.Reading? ==> Can(s, Receive(e)) && Can(s, ReadFails)
    ensures s.reader.Holding? ==> Can(s, Cancel)
    ensures Can(s, Issue(written))
    ensures IsWaiting(s, r) ==> Can(s, TimeOut(r)) && (s.replies != [] ==> Can(s, Take(r)))
  {
  }

  /** Whatever has arrived, all events can be handled, in order, but for one that the
    * reader dropped. */
  lemma {:induction false} AllEventsCanBeHandled(s: Session) returns (steps: seq<Step>, end: Session)
    requires Routed(s) && (s.reader.Stopped? ==> Events(InHand(s)) == [])
    ensures Run(s, steps) == Some(end) && end.handled == Events(s.received)
    decreases if s.reader.Holding? then 1 else 0, |s.events|
  {
    if s.events != [] {
      HandleKept(s);
      steps, end := AllEventsCanBeHandled(Do(s, HandleEvent));
      steps := [HandleEvent] + steps;
    } else if s.reader.Holding? && IsEvent(s.reader.envelope) {
      RouteEventKept(s);
      steps, end := AllEventsCanBeHandled(Do(s, Route));
      steps := [Route] + steps;
    } else {
      steps, end := [], s;
      if s.reader.Holding? {
        SplitOne(s.reader.envelope);
      }
    }
  }

  function Copies(n: nat, e: Envelope): seq<Envelope> {
    seq(n, _ => e)
  }

  const OPEN := Envelope(VERSION, "terminal.open", None)
  const STATUS := Envelope(VERSION, "agent.status", None)

  /** With channels of at most these sizes filled. */
  function Filled(events: nat, replies: nat): Session {
    NEW_SESSION.(
      events := Copies(events, OPEN), replies := Copies(replies, STATUS),
      received := Copies(events, OPEN) + Copies(replies, STATUS))
  }

  lemma OneMoreCopy(n: nat, e: Envelope)
    ensures Copies(n + 1, e) == Copies(n, e) + [e]
  {
  }

  lemma {:induction false} FillEvents(n: nat) returns (steps: seq<Step>)
    requires n <= 16
    ensures Run(NEW_SESSION, steps) == Some(Filled(n, 0))
  {
    if n == 0 {
      steps := [];
      assert Filled(0, 0) == NEW_SESSION;
    } else {
      steps := FillEvents(n - 1);
      var s := Filled(n - 1, 0);
      OneMoreCopy(n - 1, OPEN);
      steps := Extend(NEW_SESSION, steps, s, Receive(OPEN));
      steps := Extend(NEW_SESSION, steps, Do(s, Receive(OPEN)), Route);
      assert Do(Do(s, Receive(OPEN)), Route) == Filled(n, 0);
    }
  }

  lemma {:induction false} FillReplies(n: nat) returns (steps: seq<Step>)
    requires n <= 4
    ensures Run(NEW_SESSION, steps) == Some(Filled(16, n))
  {
    if n == 0 {
      steps := FillEvents(16);
    } else {
      steps := FillReplies(n - 1);
      var s := Filled(16, n - 1);
      OneMoreCopy(n - 1, STATUS);
      steps := Extend(NEW_SESSION, steps, s, Receive(STATUS));
      steps := Extend(NEW_SESSION, steps, Do(s, Receive(STATUS)), Route);
      assert Do(Do(s, Receive(STATUS)), Route) == Filled(16, n);
    }
  }

  /** The bound of `RoutingTheorem` is reached: 21 envelopes may be outstanding. */
  lemma BoundIsReached() returns (steps: seq<Step>, s: Session)
    ensures Run(NEW_SESSION, steps) == Some(s)
    ensures |s.received| == 21 && s.handled == [] && s.taken == []
  {
    steps := FillReplies(4);
    steps := Extend(NEW_SESSION, steps, Filled(16, 4), Receive(STATUS));
    s := Do(Filled(16, 4), Receive(STATUS));
  }
}
