/** However many goroutines call `close`: one close signal, after the removal from
  * the map, with the reason of the caller that came first. */
module CloseOnce {
  import opened Wrappers
  import opened TerminalFields
  import opened CloseCauses
  import opened Lifecycle

  /** The reasons of the close signals, in the order of sending. */
  function CloseReasons(out: seq<Signal>): seq<string> {
    if out == [] then []
    else
      var before, last := CloseReasons(out[..|out| - 1]), out[|out| - 1];
      if last.Closed? then before + [last.reason] else before
  }

  lemma CloseReasonsAppend(out: seq<Signal>, x: Signal)
    ensures CloseReasons(out + [x]) == CloseReasons(out) + if x.Closed? then [x.reason] else []
  {
    assert (out + [x])[..|out|] == out;
  }

  // ---------------------------------------------------------------- invariant

  predicate FirstCaller(l: Life) {
    !l.once.NotRun? ==> l.once.first < |l.callers| && l.callers[l.once.first].cause == l.once.cause
  }

  /** `close` has sent its signal. */
  predicate Reported(once: Once) {
    once.Finished? || (once.Running? && once.stage.Ending?)
  }

  predicate Invariant(l: Life) {
    && FirstCaller(l)
    && (l.deleted <==> Reported(l.once) || (l.once.Running? && l.once.stage.Reporting?))
    && CloseReasons(l.out) == (if Reported(l.once) then [Reason(l.once.cause)] else [])
    && (forall i | 0 <= i < |l.callers| :: l.callers[i].returned ==> l.once.Finished?)
  }

  /** Any other signal leaves, or none. */
  lemma EmitKept(l: Life, l': Life, sent: seq<Signal>)
    requires Invariant(l) && l'.out == l.out + sent && |sent| <= 1
    requires sent != [] ==> !sent[0].Closed?
    requires l'.once == l.once && l'.deleted == l.deleted && l'.callers == l.callers
    ensures Invariant(l')
  {
    if sent == [] {
      assert l.out + sent == l.out;
    } else {
      CloseReasonsAppend(l.out, sent[0]);
      assert sent == [sent[0]];
    }
  }

  /** The signal that an offer step sends, if any. */
  function SentByOffer(l: Life, s: OfferStep): seq<Signal>
    requires CanOffer(l, s)
  {
    match s
    case Flush => [Candidate(l.negotiation.offer.queue[0])]
    case SendAnswer(true) => [Answer(l.negotiation.generation)]
    case _ => []
  }

  lemma OfferFrame(l: Life, s: OfferStep)
    requires CanOffer(l, s)
    ensures DoOffer(l, s).out == l.out + SentByOffer(l, s)
    ensures DoOffer(l, s).once == l.once && DoOffer(l, s).deleted == l.deleted && DoOffer(l, s).callers == l.callers
  {
  }

  lemma OfferKept(l: Life, s: OfferStep)
    requires Invariant(l) && CanOffer(l, s)
    ensures Invariant(DoOffer(l, s))
  {
    OfferFrame(l, s);
    EmitKept(l, DoOffer(l, s), SentByOffer(l, s));
  }

  lemma CandidateKept(l: Life, s: CandidateStep)
    requires Invariant(l) && CanCandidate(l, s)
    ensures Invariant(DoCandidate(l, s))
  {
    EmitKept(l, DoCandidate(l, s), if s.SendDirect? then [Candidate(s.call)] else []);
  }

  lemma ChannelKept(l: Life, s: ChannelStep)
    requires Invariant(l) && CanChannel(l, s)
    ensures Invariant(DoChannel(l, s))
  {
    if s.SendActive? {
      EmitKept(l, DoChannel(l, s), [Active]);
    }
  }

  lemma LinkKept(l: Life, s: LinkStep)
    requires Invariant(l) && CanLink(l, s)
    ensures Invariant(DoLink(l, s))
  {
  }

  lemma ReportKept(l: Life)
    requires Invariant(l) && CanClose(l, Report)
    ensures Invariant(DoClose(l, Report))
  {
    CloseReasonsAppend(l.out, Closed(Reason(l.once.cause)));
  }

  /** Between the entry and the report: only the stage moves on. */
  lemma StageKept(l: Life, l': Life)
    requires Invariant(l) && l.once.Running? && l'.once.Running? && !Reported(l.once) && !Reported(l'.once)
    requires l'.once.first == l.once.first && l'.once.cause == l.once.cause
    requires l'.out == l.out && l'.callers == l.callers
    requires l'.deleted <==> l'.once.stage.Reporting?
    ensures Invariant(l')
  {
  }

  lemma CloseKept(l: Life, s: CloseStep)
    requires Invariant(l) && CanClose(l, s)
    ensures Invariant(DoClose(l, s))
  {
    if s.Report? {
      ReportKept(l);
    } else if !s.Call? && !s.Enter? && !s.EndOnce? && !s.Leave? {
      StageKept(l, DoClose(l, s));
    }
  }

  lemma StepKept(l: Life, s: Step)
    requires Invariant(l) && Can(l, s)
    ensures Invariant(Do(l, s))
  {
    match s
    case Offering(o) => OfferKept(l, o);
    case Gathering(c) => CandidateKept(l, c);
    case Channeling(c) => ChannelKept(l, c);
    case Linking(k) => LinkKept(l, k);
    case Closing(c) => CloseKept(l, c);
  }

  // ---------------------------------------------------------------- consequences

  /** The first caller and its reason are fixed once `closeOnce` has begun. */
  lemma FirstCallerStays(l: Life, s: Step)
    requires Can(l, s) && !l.once.NotRun?
    ensures
      var once := Do(l, s).once;
      && !once.NotRun? && once.first == l.once.first && once.cause == l.once.cause
      && (l.once.Finished? ==> once == l.once)
  {
  }
}
