/** Local candidates: none is sent twice, none before its answer, and none is lost
  * that was accepted under an answer that went out. */
module Candidates {
  import opened TerminalFields
  import opened Lifecycle
  import CloseCauses

  /** The part of an incarnation that candidates depend on. */
  datatype View = View(
    answerSent: bool,
    buffer: seq<nat>,
    offer: Offer,
    generation: nat,
    acceptedIn: seq<nat>,
    direct: set<nat>,
    out: seq<Signal>)
  {
    function Queue(): seq<nat> {
      if offer.Flushing? then offer.queue else []
    }

    /** How often call `c` was handed to `manager.send`. */
    function Sends(c: nat): nat {
      multiset(out)[Candidate(c)]
    }

    /** How often call `c` still waits to be handed over. */
    function Waiting(c: nat): nat {
      multiset(buffer)[c] + multiset(Queue())[c] + (if c in direct then 1 else 0)
    }

    /** The generation that accepted call `c` had its answer sent. */
    predicate Answered(c: nat) {
      c < |acceptedIn| && Answer(acceptedIn[c]) in out
    }

    predicate AnswerOut() {
      Answer(generation) in out
    }

    // The invariant, in four parts.

    /** The current generation's answer is out exactly when the flag says so or the
      * offer is about to set it. */
    ghost predicate Generations() {
      && (forall c: nat | c < |acceptedIn| :: acceptedIn[c] <= generation)
      && (forall g: nat | Answer(g) in out :: g <= generation)
      && (AnswerOut() <==> answerSent || offer.Answered?)
      && (offer.Negotiating? || offer.Answering? || offer.Answered? ==> !answerSent)
      && (offer.Flushing? ==> answerSent)
      && (answerSent ==> buffer == [])
    }

    /** What is buffered belongs to the current generation; what is in flight or sent
      * belongs to a generation whose answer is out. */
    ghost predicate Places() {
      && (forall c: nat | c in buffer :: c < |acceptedIn| && acceptedIn[c] == generation)
      && (forall c: nat | c < |acceptedIn| && acceptedIn[c] == generation && !AnswerOut() :: c in buffer)
      && (forall c: nat | c in Queue() :: Answered(c))
      && (forall c: nat | c in direct :: Answered(c))
      && (forall c: nat | Candidate(c) in out :: Answered(c))
    }

    /** Call `c` is in at most one place; under a sent answer, in exactly one. */
    predicate ConservedAt(c: nat) {
      Sends(c) + Waiting(c) <= 1 && (Answered(c) ==> Sends(c) + Waiting(c) == 1)
    }

    ghost predicate Conserved() {
      forall c: nat :: ConservedAt(c)
    }

    /** An answer precedes every candidate accepted under it in the order of sending. */
    ghost predicate Ordered() {
      forall i | 0 <= i < |out| && out[i].Candidate? ::
        out[i].call < |acceptedIn| && Answer(acceptedIn[out[i].call]) in out[..i]
    }

    ghost predicate Invariant() {
      Generations() && Places() && Conserved() && Ordered()
    }
  }

  function ViewOf(l: Life): View {
    var n := l.negotiation;
    View(l.fields.answerSent, l.fields.localCandidates, n.offer, n.generation, n.acceptedIn, n.direct, l.out)
  }

  // ---------------------------------------------------------------- steps that matter

  lemma OrderedAppend(v: View, v': View, x: Signal)
    requires v.Ordered()
    requires v'.out == v.out + [x] && v.acceptedIn <= v'.acceptedIn
    requires x.Candidate? ==> v.Answered(x.call)
    ensures v'.Ordered()
  {
    forall i | 0 <= i < |v'.out| && v'.out[i].Candidate?
      ensures v'.out[i].call < |v'.acceptedIn|
      ensures Answer(v'.acceptedIn[v'.out[i].call]) in v'.out[..i]
    {
      if i < |v.out| {
        assert v'.out[..i] == v.out[..i];
      } else {
        assert v'.out[..i] == v.out;
      }
    }
  }

  lemma OrderedExtend(v: View, v': View)
    requires v.Ordered() && v'.out == v.out && v.acceptedIn <= v'.acceptedIn
    ensures v'.Ordered()
  {
  }

  /** Sends that are neither an answer nor a candidate. */
  lemma EmitKept(v: View, x: Signal)
    requires v.Invariant() && (x.Active? || x.Closed?)
    ensures v.(out := v.out + [x]).Invariant()
  {
    var v' := v.(out := v.out + [x]);
    OrderedAppend(v, v', x);
    OutGrows(v, v', x);
    assert v'.AnswerOut() == v.AnswerOut();
    forall c: nat
      ensures v'.ConservedAt(c)
    {
      assert v.ConservedAt(c);
    }
    EmitPlaces(v, v');
  }

  lemma EmitPlaces(v: View, v': View)
    requires v.Places() && v' == v.(out := v'.out) && v'.AnswerOut() == v.AnswerOut()
    requires forall c: nat :: v'.Answered(c) == v.Answered(c)
    requires forall c: nat :: Candidate(c) in v'.out <==> Candidate(c) in v.out
    ensures v'.Places()
  {
  }

  /** Offer steps that only move on, without a reset, an answer or a flush. */
  lemma MoveKept(v: View, offer: Offer)
    requires v.Invariant() && (v.offer.Flushing? ==> v.offer.queue == [])
    requires !v.offer.Answered? && !offer.Answered? && !offer.Flushing?
    requires (offer.Negotiating? || offer.Answering?) ==> v.offer.Negotiating? || v.offer.Answering?
    ensures v.(offer := offer).Invariant()
  {
    var v' := v.(offer := offer);
    assert v'.Queue() == [] == v.Queue();
    forall c: nat
      ensures v'.Answered(c) == v.Answered(c) && v'.ConservedAt(c)
    {
      assert v.ConservedAt(c);
    }
  }

  lemma BeginKept(v: View)
    requires v.Invariant() && v.offer.Ready?
    ensures v.(answerSent := false, buffer := [], offer := Negotiating, generation := v.generation + 1).Invariant()
  {
    var v' := v.(answerSent := false, buffer := [], offer := Negotiating, generation := v.generation + 1);
    forall c: nat
      ensures v'.ConservedAt(c)
    {
      assert v.ConservedAt(c);
      if v.Answered(c) {
        assert c !in v.buffer;
      }
    }
  }

  lemma AnswerKept(v: View)
    requires v.Invariant() && v.offer.Answering?
    ensures v.(offer := Lifecycle.Answered, out := v.out + [Answer(v.generation)]).Invariant()
  {
    var v' := v.(offer := Lifecycle.Answered, out := v.out + [Answer(v.generation)]);
    OrderedAppend(v, v', Answer(v.generation));
    forall c: nat
      ensures v.Answered(c) ==> v'.Answered(c)
      ensures v'.ConservedAt(c)
    {
      assert v.ConservedAt(c);
      if v'.Answered(c) && !v.Answered(c) {
        assert c in v.buffer;
      }
    }
  }

  lemma FinishKept(v: View)
    requires v.Invariant() && v.offer.Answered?
    ensures v.(answerSent := true, buffer := [], offer := Flushing(v.buffer)).Invariant()
  {
    var v' := v.(answerSent := true, buffer := [], offer := Flushing(v.buffer));
    forall c: nat
      ensures v'.Answered(c) == v.Answered(c) && v'.ConservedAt(c)
    {
      assert v.ConservedAt(c);
    }
  }

  /** Handing over a candidate accepted under a sent answer, wherever it waited. */
  lemma SendKept(v: View, v': View, call: nat)
    requires v.Generations() && v.Places() && v.Ordered() && v.Answered(call)
    requires v'.out == v.out + [Candidate(call)]
    requires v'.answerSent == v.answerSent && v'.buffer == v.buffer
    requires v'.generation == v.generation && v'.acceptedIn == v.acceptedIn
    requires v'.offer == v.offer || (v'.offer.Flushing? && v.offer.Flushing?)
    requires forall c: nat | c in v'.Queue() :: c in v.Queue()
    requires v'.direct <= v.direct
    ensures v'.Generations() && v'.Places() && v'.Ordered()
    ensures forall c: nat :: v'.Answered(c) == v.Answered(c)
  {
    OrderedAppend(v, v', Candidate(call));
    OutGrows(v, v', Candidate(call));
    assert v'.AnswerOut() == v.AnswerOut();
    SendPlaces(v, v', call);
  }

  lemma SendPlaces(v: View, v': View, call: nat)
    requires v.Places() && v.Answered(call)
    requires v'.buffer == v.buffer && v'.generation == v.generation && v'.acceptedIn == v.acceptedIn
    requires v'.AnswerOut() == v.AnswerOut()
    requires forall c: nat | c in v'.Queue() :: c in v.Queue()
    requires v'.direct <= v.direct
    requires forall c: nat :: v'.Answered(c) == v.Answered(c)
    requires forall c: nat | Candidate(c) in v'.out :: Candidate(c) in v.out || c == call
    ensures v'.Places()
  {
  }

  /** A send that is no answer. */
  lemma OutGrows(v: View, v': View, x: Signal)
    requires v'.out == v.out + [x] && !x.Answer? && v'.acceptedIn == v.acceptedIn
    ensures forall g: nat :: Answer(g) in v'.out <==> Answer(g) in v.out
    ensures forall c: nat :: Candidate(c) in v'.out <==> Candidate(c) in v.out || x == Candidate(c)
    ensures forall c: nat :: v'.Answered(c) == v.Answered(c)
  {
  }

  lemma FlushAt(v: View, v': View, c: nat)
    requires v.offer.Flushing? && |v.offer.queue| > 0
    requires v' == v.(offer := Flushing(v.offer.queue[1..]), out := v.out + [Candidate(v.offer.queue[0])])
    requires v.ConservedAt(c)
    ensures v'.ConservedAt(c)
  {
    var rest: seq<nat> := v.offer.queue[1..];
    assert v.offer.queue == [v.offer.queue[0]] + rest;
    assert multiset(v.offer.queue) == multiset{v.offer.queue[0]} + multiset(rest);
  }

  lemma FlushKept(v: View)
    requires v.Invariant() && v.offer.Flushing? && |v.offer.queue| > 0
    ensures v.(offer := Flushing(v.offer.queue[1..]), out := v.out + [Candidate(v.offer.queue[0])]).Invariant()
  {
    var first := v.offer.queue[0];
    var v' := v.(offer := Flushing(v.offer.queue[1..]), out := v.out + [Candidate(first)]);
    assert first in v.Queue();
    assert forall c: nat | c in v'.Queue() :: c in v.Queue();
    SendKept(v, v', first);
    forall c: nat
      ensures v'.ConservedAt(c)
    {
      assert v.ConservedAt(c);
      FlushAt(v, v', c);
    }
  }

  lemma DirectAt(v: View, v': View, call: nat, c: nat)
    requires call in v.direct
    requires v' == v.(direct := v.direct - {call}, out := v.out + [Candidate(call)])
    requires v.ConservedAt(c)
    ensures v'.ConservedAt(c)
  {
  }

  lemma DirectKept(v: View, call: nat)
    requires v.Invariant() && call in v.direct
    ensures v.(direct := v.direct - {call}, out := v.out + [Candidate(call)]).Invariant()
  {
    var v' := v.(direct := v.direct - {call}, out := v.out + [Candidate(call)]);
    SendKept(v, v', call);
    forall c: nat
      ensures v'.ConservedAt(c)
    {
      assert v.ConservedAt(c);
      DirectAt(v, v', call, c);
    }
  }

  /** A call that has not been accepted yet is nowhere. */
  lemma FreshNowhere(v: View)
    requires v.Places()
    ensures v.Sends(|v.acceptedIn|) == 0 && v.Waiting(|v.acceptedIn|) == 0
  {
    var call := |v.acceptedIn|;
    assert !v.Answered(call);
    assert call !in v.buffer && call !in v.Queue() && call !in v.direct && Candidate(call) !in v.out;
  }

  lemma GatherAt(v: View, v': View, c: nat)
    requires v.Places() && v.ConservedAt(c)
    requires v'.acceptedIn == v.acceptedIn + [v.generation] && v'.out == v.out && v'.offer == v.offer
    requires v.answerSent ==> v'.direct == v.direct + {|v.acceptedIn|} && v'.buffer == v.buffer
    requires !v.answerSent ==> v'.direct == v.direct && v'.buffer == v.buffer + [|v.acceptedIn|]
    ensures v.Answered(c) ==> v'.Answered(c)
    ensures v'.ConservedAt(c)
  {
    FreshNowhere(v);
  }

  lemma GatherKept(v: View, v': View)
    requires v.Invariant()
    requires v.answerSent ==>
      v' == v.(acceptedIn := v.acceptedIn + [v.generation], direct := v.direct + {|v.acceptedIn|})
    requires !v.answerSent ==>
      v' == v.(acceptedIn := v.acceptedIn + [v.generation], buffer := v.buffer + [|v.acceptedIn|])
    ensures v'.Invariant()
  {
    OrderedExtend(v, v');
    forall c: nat
      ensures v.Answered(c) ==> v'.Answered(c)
      ensures v'.ConservedAt(c)
    {
      assert v.ConservedAt(c);
      GatherAt(v, v', c);
    }
  }

  // ---------------------------------------------------------------- every step

  /** What a step does to the view of its incarnation. */
  function AfterOffer(v: View, s: OfferStep, next: Offer): View {
    match s
    case Begin => v.(answerSent := false, buffer := [], offer := next, generation := v.generation + 1)
    case SendAnswer(ok) => if ok then v.(offer := next, out := v.out + [Answer(v.generation)]) else v.(offer := next)
    case Finish => v.(answerSent := true, buffer := [], offer := next)
    case Flush => if v.Queue() == [] then v else v.(offer := next, out := v.out + [Candidate(v.Queue()[0])])
    case _ => v.(offer := next)
  }

  lemma OfferView(l: Life, s: OfferStep)
    requires CanOffer(l, s)
    ensures ViewOf(DoOffer(l, s)) == AfterOffer(ViewOf(l), s, DoOffer(l, s).negotiation.offer)
  {
  }

  predicate OnlyMoves(s: OfferStep) {
    !s.Begin? && !s.Finish? && !s.Flush? && (s.SendAnswer? ==> !s.ok)
  }

  lemma MovingStages(l: Life, s: OfferStep)
    requires CanOffer(l, s) && OnlyMoves(s)
    ensures
      var before, after := l.negotiation.offer, DoOffer(l, s).negotiation.offer;
      && (before.Flushing? ==> before.queue == [])
      && !before.Answered? && !after.Answered? && !after.Flushing?
      && (after.Negotiating? || after.Answering? ==> before.Negotiating? || before.Answering?)
  {
  }

  lemma OfferKept(l: Life, s: OfferStep)
    requires ViewOf(l).Invariant() && CanOffer(l, s)
    ensures ViewOf(DoOffer(l, s)).Invariant()
  {
    var v, next := ViewOf(l), DoOffer(l, s).negotiation.offer;
    OfferView(l, s);
    if OnlyMoves(s) {
      MovingStages(l, s);
      MoveKept(v, next);
    } else if s.Begin? {
      BeginKept(v);
    } else if s.SendAnswer? {
      AnswerKept(v);
    } else if s.Finish? {
      FinishKept(v);
    } else {
      FlushKept(v);
    }
  }

  lemma CandidateKept(l: Life, s: CandidateStep)
    requires ViewOf(l).Invariant() && CanCandidate(l, s)
    ensures ViewOf(DoCandidate(l, s)).Invariant()
  {
    match s
    case EndOfCandidates =>
    case Gathered => GatherKept(ViewOf(l), ViewOf(DoCandidate(l, s)));
    case SendDirect(call) => DirectKept(ViewOf(l), call);
  }

  lemma ChannelView(l: Life, s: ChannelStep)
    requires CanChannel(l, s)
    ensures ViewOf(DoChannel(l, s)) == ViewOf(l).(out := l.out + if s.SendActive? then [Active] else [])
  {
  }

  lemma LinkView(l: Life, s: LinkStep)
    requires CanLink(l, s)
    ensures ViewOf(DoLink(l, s)) == ViewOf(l)
  {
  }

  lemma CloseView(l: Life, s: CloseStep)
    requires CanClose(l, s)
    ensures ViewOf(DoClose(l, s)) ==
      ViewOf(l).(out := l.out + if s.Report? then [Closed(CloseCauses.Reason(l.once.cause))] else [])
  {
  }

  lemma OtherKept(v: View, sent: seq<Signal>)
    requires v.Invariant() && (sent == [] || (|sent| == 1 && (sent[0].Active? || sent[0].Closed?)))
    ensures v.(out := v.out + sent).Invariant()
  {
    if sent == [] {
      assert v.(out := v.out + sent) == v;
    } else {
      assert sent == [sent[0]];
      EmitKept(v, sent[0]);
    }
  }

  lemma StepKept(l: Life, s: Step)
    requires ViewOf(l).Invariant() && Can(l, s)
    ensures ViewOf(Do(l, s)).Invariant()
  {
    match s
    case Offering(o) => OfferKept(l, o);
    case Gathering(c) => CandidateKept(l, c);
    case Channeling(c) =>
      ChannelView(l, c);
      OtherKept(ViewOf(l), if c.SendActive? then [Active] else []);
    case Linking(k) => LinkView(l, k);
    case Closing(c) =>
      CloseView(l, c);
      OtherKept(ViewOf(l), if c.Report? then [Closed(CloseCauses.Reason(l.once.cause))] else []);
  }
}
