/** Which replies the requesters of a control connection take.
  *
  * A request takes the next reply, whatever it answers, and may time out before.
  */
module ReplyQueue {
  import opened Wrappers
  import opened ControlSession

  // ---------------------------------------------------------------- requests and replies

  function Taken(requests: seq<Request>): nat {
    if requests == [] then 0
    else Taken(requests[..|requests| - 1]) + if requests[|requests| - 1].Took? then 1 else 0
  }

  /** Requests that were written and gave up waiting. */
  function Timeouts(requests: seq<Request>): nat {
    if requests == [] then 0
    else Timeouts(requests[..|requests| - 1]) + if requests[|requests| - 1].TimedOut? then 1 else 0
  }

  /** Requests that the service got. The number of a request among them is how many of
    * the requests before it were written. */
  function Written(requests: seq<Request>): nat {
    if requests == [] then 0
    else Written(requests[..|requests| - 1]) + if requests[|requests| - 1].Unsent? then 0 else 1
  }

  predicate NoneWaiting(requests: seq<Request>) {
    forall r | 0 <= r < |requests| :: !requests[r].Waiting?
  }

  lemma CountAppend(requests: seq<Request>, r: Request)
    ensures Taken(requests + [r]) == Taken(requests) + if r.Took? then 1 else 0
    ensures Timeouts(requests + [r]) == Timeouts(requests) + if r.TimedOut? then 1 else 0
    ensures Written(requests + [r]) == Written(requests) + if r.Unsent? then 0 else 1
  {
    assert (requests + [r])[..|requests|] == requests;
  }

  lemma CountUpdate(requests: seq<Request>, r: nat, x: Request)
    requires r < |requests| && requests[r].Waiting?
    ensures Taken(requests[r := x]) == Taken(requests) + if x.Took? then 1 else 0
    ensures Timeouts(requests[r := x]) == Timeouts(requests) + if x.TimedOut? then 1 else 0
  {
    var last := |requests| - 1;
    if r == last {
      assert requests[r := x][..last] == requests[..last];
    } else {
      assert requests[r := x][..last] == requests[..last][r := x];
      CountUpdate(requests[..last], r, x);
    }
  }

  lemma CountAll(requests: seq<Request>)
    requires NoneWaiting(requests)
    ensures Taken(requests) + Timeouts(requests) == Written(requests)
  {
    if requests != [] {
      CountAll(requests[..|requests| - 1]);
    }
  }

  predicate TakersCounted(s: Session) {
    |s.taken| == Taken(s.requests)
  }

  lemma TakersKept(s: Session, step: Step)
    requires TakersCounted(s) && Can(s, step)
    ensures TakersCounted(Do(s, step))
  {
    match step
    case Issue(written) => CountAppend(s.requests, if written then Waiting else Unsent);
    case Take(r) => CountUpdate(s.requests, r, Took(s.replies[0]));
    case TimeOut(r) => CountUpdate(s.requests, r, TimedOut);
    case _ =>
  }

  lemma {:induction false} TakersRun(s: Session, steps: seq<Step>)
    requires TakersCounted(s) && Run(s, steps).Some?
    ensures TakersCounted(Run(s, steps).value)
    decreases steps
  {
    if steps == [] {
    } else {
      TakersKept(s, steps[0]);
      TakersRun(Do(s, steps[0]), steps[1..]);
    }
  }

  // ---------------------------------------------------------------- the stalled reader

  /** The reader holds a reply, the reply channel is full, and no request is waiting. */
  predicate Stalled(s: Session) {
    && s.reader.Holding? && !IsEvent(s.reader.envelope)
    && |s.replies| == 4 && NoneWaiting(s.requests)
  }

  function Unsolicited(replies: seq<Envelope>): nat {
    if replies == [] then 0
    else Unsolicited(replies[..|replies| - 1]) + if replies[|replies| - 1].answers.None? then 1 else 0
  }

  /** The requests that some replies answer. */
  function Answered(replies: seq<Envelope>): set<nat> {
    if replies == [] then {}
    else
      var last := replies[|replies| - 1].answers;
      Answered(replies[..|replies| - 1]) + if last.Some? then {last.value} else {}
  }

  /** The service answers only the `written` requests it got, each at most once. */
  predicate AnsweredAtMostOnce(replies: seq<Envelope>, written: nat) {
    && (forall k | 0 <= k < |replies| && replies[k].answers.Some? :: replies[k].answers.value < written)
    && (forall j, k | 0 <= j < k < |replies| && replies[j].answers.Some? :: replies[j].answers != replies[k].answers)
  }

  lemma {:induction false} AnsweredSomewhere(replies: seq<Envelope>, r: nat)
    requires r in Answered(replies)
    ensures exists k :: 0 <= k < |replies| && replies[k].answers == Some(r)
  {
    var n := |replies| - 1;
    if replies[n].answers != Some(r) {
      AnsweredSomewhere(replies[..n], r);
      var k :| 0 <= k < n && replies[..n][k].answers == Some(r);
      assert replies[k].answers == Some(r);
    }
  }

  lemma {:induction false} AnswersAreDistinct(replies: seq<Envelope>, written: nat)
    requires AnsweredAtMostOnce(replies, written)
    ensures |replies| == Unsolicited(replies) + |Answered(replies)|
    ensures forall r | r in Answered(replies) :: r < written
  {
    if replies != [] {
      var n := |replies| - 1;
      AnswersAreDistinct(replies[..n], written);
      if replies[n].answers.Some? && replies[n].answers.value in Answered(replies[..n]) {
        AnsweredSomewhere(replies[..n], replies[n].answers.value);
      }
    }
  }

  lemma BoundedSet(s: set<nat>, n: nat)
    requires forall x | x in s :: x < n
    ensures |s| <= n
  {
    if n > 0 {
      BoundedSet(s - {n - 1}, n - 1);
    } else {
      assert s == {};
    }
  }

  /** Requests that the service got and has not answered. */
  function Unanswered(s: Session): int {
    Written(s.requests) - |Answered(Replies(s.received))|
  }

  lemma StalledCounts(s: Session)
    requires Routed(s) && NoneWaiting(s.requests) && !s.reader.Stopped?
    ensures Stalled(s) <==> |Replies(s.received)| == |s.taken| + 5
  {
    if s.reader.Holding? {
      SplitOne(s.reader.envelope);
    }
  }

  /** When the reader is stuck on the reply channel with nobody waiting, provided the
    * service answers each request it got at most once: exactly if, on a connection that
    * still reads and where nobody waits, the requests that timed out and the replies that
    * nobody asked for exceed the unanswered requests by five. */
  lemma StalledExactlyIf(steps: seq<Step>)
    requires Run(NEW_SESSION, steps).Some?
    requires
      var s := Run(NEW_SESSION, steps).value;
      AnsweredAtMostOnce(Replies(s.received), Written(s.requests))
    ensures
      var s := Run(NEW_SESSION, steps).value;
      && Unanswered(s) >= 0
      && (Stalled(s) <==>
            && !s.reader.Stopped? && NoneWaiting(s.requests)
            && Timeouts(s.requests) + Unsolicited(Replies(s.received)) == Unanswered(s) + 5)
  {
    var s := Run(NEW_SESSION, steps).value;
    RoutedRun(NEW_SESSION, steps);
    TakersRun(NEW_SESSION, steps);
    AnswersAreDistinct(Replies(s.received), Written(s.requests));
    BoundedSet(Answered(Replies(s.received)), Written(s.requests));
    if NoneWaiting(s.requests) && !s.reader.Stopped? {
      StalledCounts(s);
      CountAll(s.requests);
    }
  }

  /** So the requests that timed out and the replies that nobody asked for are then at
    * least five together. */
  lemma StallNeedsFive(steps: seq<Step>)
    requires Run(NEW_SESSION, steps).Some?
    requires Stalled(Run(NEW_SESSION, steps).value)
    requires
      var s := Run(NEW_SESSION, steps).value;
      AnsweredAtMostOnce(Replies(s.received), Written(s.requests))
    ensures
      var s := Run(NEW_SESSION, steps).value;
      Timeouts(s.requests) + Unsolicited(Replies(s.received)) >= 5
  {
    StalledExactlyIf(steps);
  }

  /** A stall ends exactly when another request is written, or the connection is given up. */
  lemma StallEndsExactlyIf(s: Session, step: Step)
    requires Stalled(s) && Can(s, step)
    ensures !Stalled(Do(s, step)) <==> step == Issue(true) || step.Cancel?
  {
    if step == Issue(true) {
      assert Do(s, step).requests[|s.requests|].Waiting?;
    }
  }

  function Gone(n: nat): seq<Request> {
    seq(n, _ => TimedOut)
  }

  function LateReplies(n: nat): seq<Envelope> {
    seq(n, (k: nat) => Envelope(VERSION, "agent.status", Some(k)))
  }

  lemma {:induction false} TimeoutsOnly(n: nat) returns (steps: seq<Step>)
    ensures Run(NEW_SESSION, steps) == Some(NEW_SESSION.(requests := Gone(n)))
  {
    if n == 0 {
      steps := [];
      assert Gone(0) == [];
    } else {
      steps := TimeoutsOnly(n - 1);
      var s := NEW_SESSION.(requests := Gone(n - 1));
      steps := Extend(NEW_SESSION, steps, s, Issue(true));
      var s' := Do(s, Issue(true));
      steps := Extend(NEW_SESSION, steps, s', TimeOut(n - 1));
      assert s'.requests[n - 1 := TimedOut] == Gone(n);
    }
  }

  lemma {:induction false} LateRepliesOnly(n: nat, k: nat) returns (steps: seq<Step>)
    requires k <= 4
    ensures Run(NEW_SESSION, steps) ==
      Some(NEW_SESSION.(requests := Gone(n), replies := LateReplies(k), received := LateReplies(k)))
  {
    if k == 0 {
      steps := TimeoutsOnly(n);
      assert LateReplies(0) == [];
    } else {
      steps := LateRepliesOnly(n, k - 1);
      var e := Envelope(VERSION, "agent.status", Some(k - 1));
      var s := NEW_SESSION.(requests := Gone(n), replies := LateReplies(k - 1), received := LateReplies(k - 1));
      steps := Extend(NEW_SESSION, steps, s, Receive(e));
      steps := Extend(NEW_SESSION, steps, Do(s, Receive(e)), Route);
      assert LateReplies(k - 1) + [e] == LateReplies(k);
    }
  }

  /** Five is enough: five requests that time out and are answered late stall the reader. */
  lemma FiveTimeoutsStall() returns (steps: seq<Step>, s: Session)
    ensures Run(NEW_SESSION, steps) == Some(s) && Stalled(s)
    ensures |s.requests| == 5 && s.received == LateReplies(5)
  {
    steps := LateRepliesOnly(5, 4);
    var e := Envelope(VERSION, "agent.status", Some(4));
    var before := NEW_SESSION.(
      requests := Gone(5), replies := LateReplies(4), received := LateReplies(4));
    steps := Extend(NEW_SESSION, steps, before, Receive(e));
    s := Do(before, Receive(e));
    assert s.received == LateReplies(5);
  }

  // ---------------------------------------------------------------- which reply a request takes

  /** Requests run one at a time: none is sent while another one waits. */
  predicate Serial(s: Session, steps: seq<Step>)
    decreases steps
  {
    steps == [] ||
    (Can(s, steps[0]) && (steps[0].Issue? ==> NoneWaiting(s.requests)) && Serial(Do(s, steps[0]), steps[1..]))
  }

  /** Requests take replies in the order of their sending. */
  predicate InTurn(s: Session) {
    && TakersCounted(s)
    && (forall r | 0 <= r < |s.requests| - 1 :: !s.requests[r].Waiting?)
    && (forall r: nat | r < |s.requests| && s.requests[r].Took? ::
          Taken(s.requests[..r]) < |s.taken| && s.requests[r].reply == s.taken[Taken(s.requests[..r])])
  }

  /** Only the last request can be waiting, so it takes the next reply. */
  lemma TakeInTurn(s: Session, r: nat)
    requires InTurn(s) && Can(s, Take(r))
    ensures InTurn(Do(s, Take(r)))
  {
    TakersKept(s, Take(r));
    var s' := Do(s, Take(r));
    assert s.requests == s.requests[..r] + [Waiting];
    CountAppend(s.requests[..r], Waiting);
    assert forall q: nat | q <= r :: s'.requests[..q] == s.requests[..q];
  }

  lemma InTurnKept(s: Session, step: Step)
    requires InTurn(s) && Can(s, step) && (step.Issue? ==> NoneWaiting(s.requests))
    ensures InTurn(Do(s, step))
  {
    if step.Take? {
      TakeInTurn(s, step.request);
    } else {
      TakersKept(s, step);
      var s' := Do(s, step);
      assert forall q: nat | q < |s.requests| :: s'.requests[..q] == s.requests[..q];
    }
  }

  lemma {:induction false} InTurnRun(s: Session, steps: seq<Step>)
    requires InTurn(s) && Serial(s, steps)
    ensures Run(s, steps).Some? && InTurn(Run(s, steps).value)
    decreases steps
  {
    if steps == [] {
    } else {
      InTurnKept(s, steps[0]);
      InTurnRun(Do(s, steps[0]), steps[1..]);
    }
  }

  /** If requests run one at a time, the request that was written as number `n` takes the
    * reply-class envelope that arrived as number `n` minus the timeouts before it,
    * whatever that envelope is. */
  lemma LagTheorem(steps: seq<Step>, r: nat)
    requires Serial(NEW_SESSION, steps)
    requires Run(NEW_SESSION, steps).Some? && r < |Run(NEW_SESSION, steps).value.requests|
    requires Run(NEW_SESSION, steps).value.requests[r].Took?
    ensures
      var s := Run(NEW_SESSION, steps).value;
      var k := Written(s.requests[..r]) - Timeouts(s.requests[..r]);
      0 <= k < |Replies(s.received)| && s.requests[r].reply == Replies(s.received)[k]
  {
    InTurnRun(NEW_SESSION, steps);
    RoutedRun(NEW_SESSION, steps);
    var s := Run(NEW_SESSION, steps).value;
    CountAll(s.requests[..r]);
    TakenAreReplies(s, Taken(s.requests[..r]));
  }

  lemma TakenAreReplies(s: Session, k: nat)
    requires Routed(s) && k < |s.taken|
    ensures k < |Replies(s.received)| && Replies(s.received)[k] == s.taken[k]
  {
  }

  /** The service answers every request it got once, in order, and sends no other reply. */
  predicate AnswersInOrder(replies: seq<Envelope>) {
    forall k: nat | k < |replies| :: replies[k].answers == Some(k)
  }

  /** Then request number `n` among the written ones takes the answer to number `n` minus
    * the timeouts before it, and so its own answer exactly if no earlier request on this
    * connection timed out. Requests that could not be written do no harm. */
  lemma OwnReplyUntilTimeout(steps: seq<Step>, r: nat)
    requires Serial(NEW_SESSION, steps)
    requires Run(NEW_SESSION, steps).Some? && r < |Run(NEW_SESSION, steps).value.requests|
    requires Run(NEW_SESSION, steps).value.requests[r].Took?
    requires AnswersInOrder(Replies(Run(NEW_SESSION, steps).value.received))
    ensures
      var s := Run(NEW_SESSION, steps).value;
      var n := Written(s.requests[..r]);
      && n >= Timeouts(s.requests[..r])
      && s.requests[r].reply.answers == Some(n - Timeouts(s.requests[..r]))
      && (s.requests[r].reply.answers == Some(n) <==>
            forall q | 0 <= q < r :: !s.requests[q].TimedOut?)
  {
    LagTheorem(steps, r);
    NoTimeouts(Run(NEW_SESSION, steps).value.requests[..r]);
  }

  lemma NoTimeouts(requests: seq<Request>)
    ensures Timeouts(requests) == 0 <==> forall q | 0 <= q < |requests| :: !requests[q].TimedOut?
  {
    if requests != [] {
      var n := |requests| - 1;
      NoTimeouts(requests[..n]);
      assert requests == requests[..n] + [requests[n]];
    }
  }

  /** `pairing.state`, an unsolicited message, is routed as a reply: a request that waits
    * takes it for its own. */
  lemma PairingStateIsTaken() returns (steps: seq<Step>, s: Session)
    ensures Run(NEW_SESSION, steps) == Some(s)
    ensures |s.requests| == 1 && s.requests[0] == Took(Envelope(VERSION, "pairing.state", None))
  {
    var e := Envelope(VERSION, "pairing.state", None);
    var s1 := Do(NEW_SESSION, Issue(true));
    steps := Extend(NEW_SESSION, [], NEW_SESSION, Issue(true));
    var s2 := Do(s1, Receive(e));
    steps := Extend(NEW_SESSION, steps, s1, Receive(e));
    var s3 := Do(s2, Route);
    steps := Extend(NEW_SESSION, steps, s2, Route);
    steps := Extend(NEW_SESSION, steps, s3, Take(0));
    s := Do(s3, Take(0));
  }
}
