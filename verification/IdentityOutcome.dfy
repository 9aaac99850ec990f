/** Which calls of `LoadOrCreate` can still succeed, and which cannot. */
module IdentityOutcome {
  import opened Wrappers
  import opened Frames
  import opened Identity

  predicate Succeeded(w: World, p: nat) {
    p < |w.processes| && w.processes[p].stage.Done? && w.processes[p].stage.result.Ok?
  }

  /** Some continuation lets process `p` succeed. */
  ghost predicate CanSucceed(w: World, p: nat) {
    exists steps: seq<Step> :: Run(w, steps).Some? && Succeeded(Run(w, steps).value, p)
  }

  predicate UnderWay(w: World, p: nat) {
    p < |w.processes| && !w.processes[p].stage.Done? && !w.processes[p].stage.Crashed?
  }

  predicate IsWriting(w: World, p: nat) {
    p < |w.processes| && w.processes[p].stage.Writing?
  }

  /** There is no file yet, or a secure one that is complete or still being written. */
  ghost predicate Usable(w: World) {
    w.file.Absent? || (w.file.secure && (|w.file.data| == 64 || exists p: nat :: IsWriting(w, p)))
  }

  predicate Complete(w: World) {
    w.file.Present? && w.file.secure && |w.file.data| == 64
  }

  lemma {:induction false} Join(w: World, a: seq<Step>, middle: World, b: seq<Step>)
    requires Run(w, a) == Some(middle)
    ensures Run(w, a + b) == Run(middle, b)
    decreases a
  {
    if a == [] {
      assert a + b == b;
    } else {
      Join(Do(w, a[0]), a[1..], middle, b);
      assert (a + b)[1..] == a[1..] + b;
    }
  }

  /** What can succeed after a step can succeed before it. */
  lemma Before(w: World, s: Step, p: nat)
    requires Can(w, s) && CanSucceed(Do(w, s), p)
    ensures CanSucceed(w, p)
  {
    var rest: seq<Step> :| Run(Do(w, s), rest).Some? && Succeeded(Run(Do(w, s), rest).value, p);
    var steps := [s] + rest;
    assert steps[0] == s && steps[1..] == rest;
    assert Run(w, steps) == Run(Do(w, s), rest);
  }

  lemma Now(w: World, p: nat)
    requires Succeeded(w, p)
    ensures CanSucceed(w, p)
  {
    assert Run(w, []) == Some(w);
  }

  // ---------------------------------------------------------------- from a complete file

  lemma ReaderEnds(w: World, p: nat)
    requires Complete(w) && p < |w.processes| && w.processes[p].stage.Reading?
    requires |w.processes[p].stage.sofar| == 64
    ensures CanSucceed(w, p)
  {
    Now(Do(w, ReadEnd(p)), p);
    Before(w, ReadEnd(p), p);
  }

  lemma ReaderSucceeds(w: World, p: nat)
    requires Sound(w) && Complete(w) && p < |w.processes| && w.processes[p].stage.Reading?
    ensures CanSucceed(w, p)
  {
    assert ProcessSound(w, p);
    var rest := |w.file.data| - |w.processes[p].stage.sofar|;
    if rest == 0 {
      ReaderEnds(w, p);
    } else {
      ReaderEnds(Do(w, ReadSome(p, rest)), p);
      Before(w, ReadSome(p, rest), p);
    }
  }

  lemma LookerSucceeds(w: World, p: nat)
    requires Sound(w) && Complete(w) && p < |w.processes| && w.processes[p].stage.Looking?
    ensures CanSucceed(w, p)
  {
    StepKept(w, Lstat(p, true));
    ReaderSucceeds(Do(w, Lstat(p, true)), p);
    Before(w, Lstat(p, true), p);
  }

  /** Also the process that loses the race for the exclusive creation. */
  lemma LoserSucceeds(w: World, p: nat)
    requires Sound(w) && Complete(w) && p < |w.processes| && w.processes[p].stage.Creating?
    ensures CanSucceed(w, p)
  {
    StepKept(w, Open(p, true));
    LookerSucceeds(Do(w, Open(p, true)), p);
    Before(w, Open(p, true), p);
  }

  predicate BeforeOutcome(w: World, p: nat) {
    UnderWay(w, p) && !w.processes[p].stage.Writing? && !w.processes[p].stage.Closing?
  }

  lemma CompleteSuffices(w: World, p: nat)
    requires Sound(w) && Complete(w) && BeforeOutcome(w, p)
    ensures CanSucceed(w, p)
  {
    match w.processes[p].stage
    case Starting =>
      StepKept(w, MakeDirectory(p, true));
      LookerSucceeds(Do(w, MakeDirectory(p, true)), p);
      Before(w, MakeDirectory(p, true), p);
    case Looking(_) => LookerSucceeds(w, p);
    case Reading(_) => ReaderSucceeds(w, p);
    case Creating => LoserSucceeds(w, p);
  }

  // ---------------------------------------------------------------- from a file that is being written

  /** The creator completes the file. */
  lemma WritesRest(w: World, q: nat) returns (steps: seq<Step>, end: World)
    requires Sound(w) && IsWriting(w, q)
    ensures Run(w, steps) == Some(end) && Sound(end) && Complete(end) && |end.processes| == |w.processes|
    ensures forall p: nat | p < |w.processes| && p != q :: end.processes[p] == w.processes[p]
    ensures end.processes[q].stage == Writing(|end.processes[q].key|)
  {
    assert ProcessSound(w, q);
    var rest := KEY_BYTES - w.processes[q].stage.written;
    if rest == 0 {
      steps, end := [], w;
    } else {
      StepKept(w, WriteSome(q, rest));
      steps, end := [WriteSome(q, rest)], Do(w, WriteSome(q, rest));
      assert steps[1..] == [];
    }
  }

  lemma After(w: World, steps: seq<Step>, end: World, p: nat)
    requires Run(w, steps) == Some(end) && CanSucceed(end, p)
    ensures CanSucceed(w, p)
  {
    var rest: seq<Step> :| Run(end, rest).Some? && Succeeded(Run(end, rest).value, p);
    Join(w, steps, end, rest);
  }

  lemma WriterSucceeds(w: World, p: nat)
    requires Sound(w) && IsWriting(w, p)
    ensures CanSucceed(w, p)
  {
    var steps, w1 := WritesRest(w, p);
    var w2 := Do(w1, WriteEnd(p));
    Now(Do(w2, Close(p, true)), p);
    Before(w2, Close(p, true), p);
    Before(w1, WriteEnd(p), p);
    After(w, steps, w1, p);
  }

  // ---------------------------------------------------------------- from an empty place

  lemma CreatorSucceeds(w: World, p: nat)
    requires Sound(w) && w.file.Absent? && p < |w.processes| && w.processes[p].stage.Creating?
    ensures CanSucceed(w, p)
  {
    StepKept(w, Open(p, true));
    WriterSucceeds(Do(w, Open(p, true)), p);
    Before(w, Open(p, true), p);
  }

  lemma FirstLookSucceeds(w: World, p: nat)
    requires Sound(w) && w.file.Absent? && p < |w.processes| && w.processes[p].stage.Looking?
    ensures CanSucceed(w, p)
  {
    assert ProcessSound(w, p);
    StepKept(w, Lstat(p, true));
    CreatorSucceeds(Do(w, Lstat(p, true)), p);
    Before(w, Lstat(p, true), p);
  }

  lemma AbsentSuffices(w: World, p: nat)
    requires Sound(w) && w.file.Absent? && BeforeOutcome(w, p)
    ensures CanSucceed(w, p)
  {
    assert ProcessSound(w, p);
    if w.processes[p].stage.Starting? {
      StepKept(w, MakeDirectory(p, true));
      FirstLookSucceeds(Do(w, MakeDirectory(p, true)), p);
      Before(w, MakeDirectory(p, true), p);
    } else if w.processes[p].stage.Looking? {
      FirstLookSucceeds(w, p);
    } else {
      CreatorSucceeds(w, p);
    }
  }

  lemma UsableSuffices(w: World, p: nat)
    requires Sound(w) && Usable(w) && BeforeOutcome(w, p)
    ensures CanSucceed(w, p)
  {
    if w.file.Absent? {
      AbsentSuffices(w, p);
    } else if |w.file.data| == 64 {
      CompleteSuffices(w, p);
    } else {
      var q: nat :| IsWriting(w, q);
      var steps, w1 := WritesRest(w, q);
      CompleteSuffices(w1, p);
      After(w, steps, w1, p);
    }
  }

  // ---------------------------------------------------------------- what never succeeds

  /** A file that is not usable stays so, and a process that has not got past it fails. */
  predicate Stuck(w: World, p: nat) {
    p < |w.processes| && !w.processes[p].stage.Writing? && !w.processes[p].stage.Closing? && !Succeeded(w, p)
  }

  lemma NobodyWrites(w: World, q: nat)
    requires Sound(w) && !Usable(w)
    ensures !IsWriting(w, q)
  {
    if q < |w.processes| {
      assert ProcessSound(w, q);
    }
  }

  lemma UnusableStays(w: World, s: Step)
    requires Sound(w) && !Usable(w) && Can(w, s)
    ensures !Usable(Do(w, s)) && Do(w, s).file == w.file
  {
    if !s.Spawn? {
      NobodyWrites(w, Mover(s));
    }
    forall q: nat
      ensures !IsWriting(Do(w, s), q)
    {
      NobodyWrites(w, q);
    }
  }

  lemma StuckStays(w: World, s: Step, p: nat)
    requires Sound(w) && !Usable(w) && Stuck(w, p) && Can(w, s)
    ensures Stuck(Do(w, s), p)
  {
    assert ProcessSound(w, p);
  }

  lemma {:induction false} UnusableForever(w: World, steps: seq<Step>, p: nat)
    requires Sound(w) && !Usable(w) && Stuck(w, p) && Run(w, steps).Some?
    ensures !Succeeded(Run(w, steps).value, p)
    decreases steps
  {
    if steps == [] {
    } else {
      StepKept(w, steps[0]);
      UnusableStays(w, steps[0]);
      StuckStays(w, steps[0], p);
      UnusableForever(Do(w, steps[0]), steps[1..], p);
    }
  }

  /** A call of which `p` was told that it failed. An exclusive creation fails for other
    * reasons than that the file exists. */
  predicate Fails(s: Step, p: nat) {
    || s == MakeDirectory(p, false) || s == Lstat(p, false) || s == ReadFails(p) || s == GenerateFails(p)
    || s == Open(p, false) || s == WriteFails(p) || s == Close(p, false)
  }

  /** Every call may fail, and a process may crash at any time. */
  lemma CallsMayFail(w: World, p: nat)
    requires UnderWay(w, p)
    ensures Can(w, Crash(p))
    ensures match w.processes[p].stage
      case Starting => Can(w, MakeDirectory(p, false))
      case Looking(_) => Can(w, Lstat(p, false))
      case Reading(_) => Can(w, ReadFails(p))
      case Creating => Can(w, GenerateFails(p)) && Can(w, Open(p, false))
      case Writing(_) => Can(w, WriteFails(p))
      case Closing(_) => Can(w, Close(p, false))
      case _ => true
  {
  }

  predicate Doomed(w: World, p: nat) {
    && p < |w.processes|
    && (w.processes[p].stage == FAILED || w.processes[p].stage == Closing(true) || w.processes[p].stage.Crashed?)
  }

  lemma {:induction false} DoomedForever(w: World, steps: seq<Step>, p: nat)
    requires Doomed(w, p) && Run(w, steps).Some?
    ensures Doomed(Run(w, steps).value, p)
    decreases steps
  {
    if steps == [] {
    } else {
      assert Doomed(Do(w, steps[0]), p);
      DoomedForever(Do(w, steps[0]), steps[1..], p);
    }
  }

  /** A failure of any call, also of the last write or of closing the file, is the failure
    * of the whole. */
  lemma FailureIsReported(w: World, s: Step, p: nat, steps: seq<Step>)
    requires Can(w, s) && (Fails(s, p) || s == Crash(p)) && Run(Do(w, s), steps).Some?
    ensures !Succeeded(Run(Do(w, s), steps).value, p)
  {
    DoomedForever(Do(w, s), steps, p);
  }

  // ---------------------------------------------------------------- theorems

  lemma SoundOutcome(w: World, p: nat)
    requires Sound(w) && UnderWay(w, p)
    ensures CanSucceed(w, p) <==>
      if w.processes[p].stage.Closing? then !w.processes[p].stage.writeFailed else Usable(w)
  {
    var stage := w.processes[p].stage;
    assert ProcessSound(w, p);
    if stage.Closing? {
      if stage.writeFailed {
        forall steps: seq<Step> | Run(w, steps).Some?
          ensures !Succeeded(Run(w, steps).value, p)
        {
          DoomedForever(w, steps, p);
        }
      } else {
        Now(Do(w, Close(p, true)), p);
        Before(w, Close(p, true), p);
      }
    } else if stage.Writing? {
      assert IsWriting(w, p);
      WriterSucceeds(w, p);
    } else if Usable(w) {
      UsableSuffices(w, p);
    } else {
      forall steps: seq<Step> | Run(w, steps).Some?
        ensures !Succeeded(Run(w, steps).value, p)
      {
        UnusableForever(w, steps, p);
      }
    }
  }

  /** At any point of any run, a process that is under way can still succeed exactly if it
    * has only a successful write to close, or else if there is no file, or a secure one
    * that is complete or still being written. That includes the process that found no
    * file and loses the race to create it. */
  lemma SucceedsExactlyIf(file: File, steps: seq<Step>, p: nat)
    requires Run(Initial(file), steps).Some? && UnderWay(Run(Initial(file), steps).value, p)
    ensures
      var w := Run(Initial(file), steps).value;
      CanSucceed(w, p) <==>
        if w.processes[p].stage.Closing? then !w.processes[p].stage.writeFailed else Usable(w)
  {
    RunKept(Initial(file), steps);
    SoundOutcome(Run(Initial(file), steps).value, p);
  }

  /** A call that starts now can succeed exactly if the file is usable. */
  lemma NewCallSucceedsExactlyIf(file: File, steps: seq<Step>, key: Key)
    requires Run(Initial(file), steps).Some? && |key| == 64
    ensures
      var w := Run(Initial(file), steps).value;
      CanSucceed(Do(w, Spawn(key)), |w.processes|) <==> Usable(w)
  {
    RunKept(Initial(file), steps);
    var w := Run(Initial(file), steps).value;
    var w' := Do(w, Spawn(key));
    StepKept(w, Spawn(key));
    SoundOutcome(w', |w.processes|);
    forall q: nat
      ensures IsWriting(w', q) <==> IsWriting(w, q)
    {
    }
  }

  // ---------------------------------------------------------------- an incomplete file

  /** The file is incomplete and nobody is writing it any more. */
  predicate Broken(w: World) {
    && w.file.Present? && |w.file.data| != 64
    && forall p: nat | p < |w.processes| :: !w.processes[p].stage.Writing?
  }

  lemma BrokenStays(w: World, s: Step)
    requires Sound(w) && Broken(w) && Can(w, s)
    ensures Broken(Do(w, s)) && Do(w, s).file == w.file
  {
  }

  /** The file is then never repaired, and no call succeeds in any continuation, not even
    * one that was under way before. */
  lemma {:induction false} BrokenForever(w: World, steps: seq<Step>)
    requires Sound(w) && Broken(w) && Run(w, steps).Some?
    ensures Run(w, steps).value.file == w.file
    ensures forall p: nat | p < |Run(w, steps).value.processes| && Run(w, steps).value.processes[p].stage.Done? ::
      Run(w, steps).value.processes[p].stage.result.Err?
    decreases steps
  {
    if steps == [] {
      forall p: nat | p < |w.processes| && w.processes[p].stage.Done?
        ensures w.processes[p].stage.result.Err?
      {
        assert ProcessSound(w, p);
      }
    } else {
      StepKept(w, steps[0]);
      BrokenStays(w, steps[0]);
      BrokenForever(Do(w, steps[0]), steps[1..]);
    }
  }

  lemma {:induction false} Extend(w: World, steps: seq<Step>, end: World, s: Step) returns (longer: seq<Step>)
    requires Run(w, steps) == Some(end) && Can(end, s)
    ensures longer == steps + [s] && Run(w, longer) == Some(Do(end, s))
  {
    longer := steps + [s];
    Join(w, steps, end, [s]);
    assert [s][1..] == [];
  }

  /** Up to the moment when a process has created the file, on an empty place. */
  lemma Creates(key: Key) returns (steps: seq<Step>, w: World)
    requires |key| == 64
    ensures Run(Initial(Absent), steps) == Some(w)
    ensures w == World(Present(true, []), Some(0), [Process(key, Writing(0))])
  {
    w := Initial(Absent);
    steps := Extend(w, [], w, Spawn(key));
    w := Do(w, Spawn(key));
    steps := Extend(Initial(Absent), steps, w, MakeDirectory(0, true));
    w := Do(w, MakeDirectory(0, true));
    steps := Extend(Initial(Absent), steps, w, Lstat(0, true));
    w := Do(w, Lstat(0, true));
    steps := Extend(Initial(Absent), steps, w, Open(0, true));
    w := Do(w, Open(0, true));
  }

  /** Such a world is reached: a creator that crashes before it has written all of its
    * key leaves a file with which no call ever succeeds again, wherever it stopped. */
  lemma CrashedCreator(key: Key, n: nat) returns (steps: seq<Step>, w: World)
    requires |key| == 64 && n < 64
    ensures Run(Initial(Absent), steps) == Some(w) && w.file == Present(true, key[..n])
    ensures Sound(w) && Broken(w)
  {
    steps, w := Creates(key);
    if n > 0 {
      steps := Extend(Initial(Absent), steps, w, WriteSome(0, n));
      w := Do(w, WriteSome(0, n));
    }
    steps := Extend(Initial(Absent), steps, w, Crash(0));
    w := Do(w, Crash(0));
    RunKept(Initial(Absent), steps);
  }
}
