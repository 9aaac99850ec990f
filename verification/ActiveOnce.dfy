/** The active signal: one for every shell that starts, and only then. */
module ActiveOnce {
  import opened TerminalFields
  import opened Lifecycle

  function Actives(out: seq<Signal>): nat {
    multiset(out)[Active]
  }

  /** Every shell has its active signal sent, or its callback is about to send it. */
  predicate Invariant(l: Life) {
    Actives(l.out) + l.resources.openings == l.resources.ptys
  }

  lemma OfferKept(l: Life, s: OfferStep)
    requires Invariant(l) && CanOffer(l, s)
    ensures Invariant(DoOffer(l, s))
  {
  }

  lemma CandidateKept(l: Life, s: CandidateStep)
    requires Invariant(l) && CanCandidate(l, s)
    ensures Invariant(DoCandidate(l, s))
  {
  }

  lemma ChannelKept(l: Life, s: ChannelStep)
    requires Invariant(l) && CanChannel(l, s)
    ensures Invariant(DoChannel(l, s))
  {
  }

  lemma LinkKept(l: Life, s: LinkStep)
    requires Invariant(l) && CanLink(l, s)
    ensures Invariant(DoLink(l, s))
  {
  }

  lemma CloseKept(l: Life, s: CloseStep)
    requires Invariant(l) && CanClose(l, s)
    ensures Invariant(DoClose(l, s))
  {
  }

  lemma StepKept(l: Life, s: Step)
    requires Invariant(l) && Can(l, s)
    ensures Invariant(Do(l, s))
  {
    match s
    case Offering(o) => OfferKept(l, o);
    case Gathering(c) => CandidateKept(l, c);
    case Channeling(c) => ChannelKept(l, c);
    case Linking(k) => LinkKept(l, k);
    case Closing(c) => CloseKept(l, c);
  }
}
