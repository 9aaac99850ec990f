/** Candidates that had to wait for an answer leave in the order in which they were
  * gathered, across all offers of a session. */
module FlushOrder {
  import opened TerminalFields
  import opened CloseCauses
  import opened Lifecycle

  /** What still waits for its turn: the rest of a flush, then the buffer. */
  function Pending(l: Life): seq<nat> {
    (if l.negotiation.offer.Flushing? then l.negotiation.offer.queue else []) + l.fields.localCandidates
  }

  predicate Increasing(calls: seq<nat>) {
    forall i, j | 0 <= i < j < |calls| :: calls[i] < calls[j]
  }

  /** Signal `k` carries a candidate that had to wait. */
  predicate Held(l: Life, k: nat)
    requires k < |l.out|
  {
    l.out[k].Candidate? && l.out[k].call in l.negotiation.held
  }

  predicate SentInOrder(l: Life) {
    forall j: nat, k: nat | j < k < |l.out| && Held(l, j) && Held(l, k) :: l.out[j].call < l.out[k].call
  }

  ghost predicate SentBeforePending(l: Life) {
    forall k: nat, c: nat | k < |l.out| && Held(l, k) && c in Pending(l) :: l.out[k].call < c
  }

  ghost predicate Known(l: Life) {
    var n := l.negotiation;
    && (forall c | c in n.held || c in n.direct :: c < |n.acceptedIn|)
    && n.held !! n.direct
    && (forall k: nat | k < |l.out| && l.out[k].Candidate? :: l.out[k].call < |n.acceptedIn|)
    && (forall c: nat | c in Pending(l) :: c in n.held)
  }

  ghost predicate Invariant(l: Life) {
    Known(l) && Increasing(Pending(l)) && SentInOrder(l) && SentBeforePending(l)
  }

  /** A signal leaves that is no candidate that had to wait. */
  lemma EmitKept(l: Life, l': Life, x: Signal)
    requires Invariant(l) && l'.out == l.out + [x] && Known(l')
    requires Pending(l') == Pending(l) && l'.negotiation.held == l.negotiation.held
    requires x.Candidate? ==> x.call !in l.negotiation.held
    ensures Invariant(l')
  {
    assert !Held(l', |l.out|);
    assert forall k: nat | k < |l.out| :: Held(l', k) == Held(l, k) && l'.out[k] == l.out[k];
  }

  /** Nothing leaves; what is pending stays, or is dropped. */
  lemma QuietKept(l: Life, l': Life)
    requires Invariant(l) && l'.out == l.out && Known(l')
    requires Pending(l') == Pending(l) || Pending(l') == []
    requires l'.negotiation.held == l.negotiation.held
    ensures Invariant(l')
  {
    assert forall k: nat | k < |l.out| :: Held(l', k) == Held(l, k);
  }

  /** The first of what is pending leaves. */
  lemma FirstLeaves(l: Life, l': Life)
    requires Invariant(l) && Pending(l) != []
    requires l'.out == l.out + [Candidate(Pending(l)[0])] && Pending(l') == Pending(l)[1..]
    requires l'.negotiation.acceptedIn == l.negotiation.acceptedIn
    requires l'.negotiation.held == l.negotiation.held && l'.negotiation.direct == l.negotiation.direct
    ensures Invariant(l')
  {
    assert Pending(l)[0] in Pending(l);
    assert forall j: nat | j < |Pending(l')| :: Pending(l')[j] == Pending(l)[j + 1];
    assert forall k: nat | k < |l.out| :: Held(l', k) == Held(l, k) && l'.out[k] == l.out[k];
  }

  /** What is pending stays or, when an offer begins, is dropped. */
  lemma OfferFrame(l: Life, s: OfferStep)
    requires CanOffer(l, s) && !s.Flush?
    ensures Pending(DoOffer(l, s)) == (if s.Begin? then [] else Pending(l))
    ensures DoOffer(l, s).out == l.out + if s == SendAnswer(true) then [Answer(l.negotiation.generation)] else []
    ensures DoOffer(l, s).negotiation.acceptedIn == l.negotiation.acceptedIn
    ensures DoOffer(l, s).negotiation.held == l.negotiation.held
    ensures DoOffer(l, s).negotiation.direct == l.negotiation.direct
  {
  }

  lemma OfferKept(l: Life, s: OfferStep)
    requires Invariant(l) && CanOffer(l, s)
    ensures Invariant(DoOffer(l, s))
  {
    var l' := DoOffer(l, s);
    if s.Flush? {
      FirstLeaves(l, l');
    } else {
      OfferFrame(l, s);
      if s == SendAnswer(true) {
        EmitKept(l, l', Answer(l.negotiation.generation));
      } else {
        QuietKept(l, l');
      }
    }
  }

  /** A new candidate is behind all others. */
  lemma GatherKept(l: Life)
    requires Invariant(l) && CanCandidate(l, Gathered)
    ensures Invariant(DoCandidate(l, Gathered))
  {
    var l', call := DoCandidate(l, Gathered), |l.negotiation.acceptedIn|;
    assert Pending(l') == Pending(l) + if l.fields.answerSent then [] else [call];
    assert forall j: nat | j < |Pending(l)| :: Pending(l)[j] in Pending(l);
    assert forall k: nat | k < |l.out| :: Held(l', k) == Held(l, k);
  }

  lemma CandidateKept(l: Life, s: CandidateStep)
    requires Invariant(l) && CanCandidate(l, s)
    ensures Invariant(DoCandidate(l, s))
  {
    match s
    case EndOfCandidates =>
    case Gathered => GatherKept(l);
    case SendDirect(call) => EmitKept(l, DoCandidate(l, s), Candidate(call));
  }

  lemma ChannelKept(l: Life, s: ChannelStep)
    requires Invariant(l) && CanChannel(l, s)
    ensures Invariant(DoChannel(l, s))
  {
    if s.SendActive? {
      EmitKept(l, DoChannel(l, s), Active);
    } else {
      QuietKept(l, DoChannel(l, s));
    }
  }

  lemma LinkKept(l: Life, s: LinkStep)
    requires Invariant(l) && CanLink(l, s)
    ensures Invariant(DoLink(l, s))
  {
    QuietKept(l, DoLink(l, s));
  }

  lemma CloseKept(l: Life, s: CloseStep)
    requires Invariant(l) && CanClose(l, s)
    ensures Invariant(DoClose(l, s))
  {
    if s.Report? {
      EmitKept(l, DoClose(l, s), Closed(Reason(l.once.cause)));
    } else {
      QuietKept(l, DoClose(l, s));
    }
  }

  lemma StepKept(l: Life, s: Step)
    requires Invariant(l) && Can(l, s)
    ensures Invariant(Do(l, s))
  {
    match s
    case Offering(o) => OfferKept(l, o);
    case Gathering(c) => CandidateKept(l, c);
    case Channeling(c) => ChannelKept(l, c);
    case Linking(k) => LinkKept(l, k);
    case Closing(c) => CloseKept(l, c);
  }
}
