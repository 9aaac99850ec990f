/** The identity file: processes that race to create it, write it piece by piece, fail
  * and crash. */
module Identity {
  import opened Wrappers
  import opened Frames

  const KEY_BYTES := 64

  type Key = seq<byte>

  /** `secure`: a regular file without permissions for group and others. */
  datatype File = Absent | Present(secure: bool, data: seq<byte>)

  // ---------------------------------------------------------------- one process

  datatype Stage =
    | Starting                       // before MkdirAll and Chmod
    | Looking(again: bool)           // in load, about to Lstat; `again`: called by create
    | Reading(sofar: seq<byte>)
    | Creating                       // about to generate a key and open the file O_EXCL
    | Writing(written: nat)
    | Closing(writeFailed: bool)
    | Done(result: Result<Key, ()>)
    | Crashed

  /** `key` is the one that the process generates if it comes to that. */
  datatype Process = Process(key: Key, stage: Stage)

  /** `creator`: the process whose O_EXCL open succeeded; `None` for a file that was
    * there before. */
  datatype World = World(file: File, creator: Option<nat>, processes: seq<Process>)

  datatype Step =
    | Spawn(key: Key)
    | MakeDirectory(p: nat, ok: bool)
    | Lstat(p: nat, ok: bool)
    | ReadSome(p: nat, n: nat)
    | ReadEnd(p: nat)
    | ReadFails(p: nat)
    | GenerateFails(p: nat)
    | Open(p: nat, ok: bool)         // O_EXCL; `ok` also if the file turns out to exist
    | WriteSome(p: nat, n: nat)
    | WriteEnd(p: nat)
    | WriteFails(p: nat)
    | Close(p: nat, ok: bool)
    | Crash(p: nat)

  const FAILED: Stage := Done(Err(()))

  predicate Can(w: World, s: Step) {
    match s
    case Spawn(key) => |key| == KEY_BYTES
    case MakeDirectory(p, _) => p < |w.processes| && w.processes[p].stage.Starting?
    case Lstat(p, _) => p < |w.processes| && w.processes[p].stage.Looking?
    case ReadSome(p, n) =>
      && p < |w.processes| && w.processes[p].stage.Reading? && w.file.Present?
      && 0 < n <= |w.file.data| - |w.processes[p].stage.sofar|
    case ReadEnd(p) =>
      && p < |w.processes| && w.processes[p].stage.Reading? && w.file.Present?
      && |w.processes[p].stage.sofar| >= |w.file.data|
    case ReadFails(p) => p < |w.processes| && w.processes[p].stage.Reading?
    case GenerateFails(p) => p < |w.processes| && w.processes[p].stage.Creating?
    case Open(p, _) => p < |w.processes| && w.processes[p].stage.Creating?
    case WriteSome(p, n) =>
      && p < |w.processes| && w.processes[p].stage.Writing? && w.file.Present?
      && 0 < n <= |w.processes[p].key| - w.processes[p].stage.written
    case WriteEnd(p) =>
      && p < |w.processes| && w.processes[p].stage.Writing?
      && w.processes[p].stage.written == |w.processes[p].key|
    case WriteFails(p) => p < |w.processes| && w.processes[p].stage.Writing?
    case Close(p, _) => p < |w.processes| && w.processes[p].stage.Closing?
    case Crash(p) => p < |w.processes| && !w.processes[p].stage.Done? && !w.processes[p].stage.Crashed?
  }

  function To(w: World, p: nat, stage: Stage): World
    requires p < |w.processes|
  {
    w.(processes := w.processes[p := w.processes[p].(stage := stage)])
  }

  function Loaded(data: seq<byte>): Stage {
    if |data| != KEY_BYTES then FAILED else Done(Ok(data))
  }

  function Do(w: World, s: Step): World
    requires Can(w, s)
  {
    match s
    case Spawn(key) => w.(processes := w.processes + [Process(key, Starting)])
    case MakeDirectory(p, ok) => To(w, p, if ok then Looking(false) else FAILED)
    case Lstat(p, ok) =>
      if !ok then To(w, p, FAILED)
      else
        (match w.file
         case Absent => To(w, p, if w.processes[p].stage.again then FAILED else Creating)
         case Present(secure, _) => To(w, p, if secure then Reading([]) else FAILED))
    case ReadSome(p, n) =>
      var sofar := w.processes[p].stage.sofar;
      To(w, p, Reading(sofar + w.file.data[|sofar|..|sofar| + n]))
    case ReadEnd(p) => To(w, p, Loaded(w.processes[p].stage.sofar))
    case ReadFails(p) => To(w, p, FAILED)
    case GenerateFails(p) => To(w, p, FAILED)
    case Open(p, ok) =>
      if !ok then To(w, p, FAILED)
      else if w.file.Present? then To(w, p, Looking(true))
      else To(w, p, Writing(0)).(file := Present(true, []), creator := Some(p))
    case WriteSome(p, n) =>
      var written := w.processes[p].stage.written;
      To(w, p, Writing(written + n)).(
        file := w.file.(data := w.file.data + w.processes[p].key[written..written + n]))
    case WriteEnd(p) => To(w, p, Closing(false))
    case WriteFails(p) => To(w, p, Closing(true))
    case Close(p, ok) =>
      To(w, p, if w.processes[p].stage.writeFailed || !ok then FAILED else Done(Ok(w.processes[p].key)))
    case Crash(p) => To(w, p, Crashed)
  }

  function Run(w: World, steps: seq<Step>): Option<World>
    decreases steps
  {
    if steps == [] then Some(w)
    else if !Can(w, steps[0]) then None
    else Run(Do(w, steps[0]), steps[1..])
  }

  /** Nobody has run yet; a file of any content may exist. */
  function Initial(file: File): World {
    World(file, None, [])
  }

  // ---------------------------------------------------------------- invariant

  /** The file is what its one creator has written so far. */
  predicate FileSound(w: World) {
    match w.creator
    case None => true
    case Some(c) =>
      && c < |w.processes| && |w.processes[c].key| == KEY_BYTES
      && w.file.Present? && w.file.secure && w.file.data <= w.processes[c].key
  }

  predicate ProcessSound(w: World, p: nat)
    requires p < |w.processes|
  {
    match w.processes[p].stage
    case Looking(again) => again ==> w.file.Present?
    case Reading(sofar) => w.file.Present? && w.file.secure && sofar <= w.file.data
    case Writing(written) =>
      && w.creator == Some(p) && w.file.Present?
      && written <= |w.processes[p].key| && w.file.data == w.processes[p].key[..written]
    case Closing(writeFailed) =>
      && w.creator == Some(p) && w.file.Present?
      && (!writeFailed ==> w.file.data == w.processes[p].key)
    case Done(Ok(key)) => w.file.Present? && w.file.secure && w.file.data == key && |key| == KEY_BYTES
    case _ => true
  }

  predicate Sound(w: World) {
    && FileSound(w)
    && (forall p: nat | p < |w.processes| :: |w.processes[p].key| == KEY_BYTES && ProcessSound(w, p))
  }

  /** A process moves on and leaves the file alone. */
  lemma MoveKept(w: World, p: nat, stage: Stage)
    requires Sound(w) && p < |w.processes| && ProcessSound(To(w, p, stage), p)
    ensures Sound(To(w, p, stage))
  {
    var w' := To(w, p, stage);
    forall q: nat | q < |w.processes| && q != p
      ensures ProcessSound(w', q)
    {
      assert ProcessSound(w, q);
    }
  }

  lemma OpenKept(w: World, p: nat)
    requires Sound(w) && Can(w, Open(p, true)) && w.file.Absent?
    ensures Sound(Do(w, Open(p, true)))
  {
    var w' := Do(w, Open(p, true));
    forall q: nat | q < |w.processes| && q != p
      ensures ProcessSound(w', q)
    {
      assert ProcessSound(w, q);
    }
  }

  /** Writing more disturbs no reader, and nobody has finished with an incomplete file. */
  lemma WriteKept(w: World, p: nat, n: nat)
    requires Sound(w) && Can(w, WriteSome(p, n))
    ensures Sound(Do(w, WriteSome(p, n)))
  {
    var w' := Do(w, WriteSome(p, n));
    var key, written := w.processes[p].key, w.processes[p].stage.written;
    assert ProcessSound(w, p);
    assert key[..written + n] == key[..written] + key[written..written + n];
    forall q: nat | q < |w.processes| && q != p
      ensures ProcessSound(w', q)
    {
      assert ProcessSound(w, q);
    }
  }

  lemma StepKept(w: World, s: Step)
    requires Sound(w) && Can(w, s)
    ensures Sound(Do(w, s))
  {
    match s
    case Spawn(key) => SpawnKept(w, key);
    case Open(p, ok) =>
      if w.file.Absent? && ok {
        OpenKept(w, p);
      } else {
        MoveKept(w, p, Do(w, s).processes[p].stage);
      }
    case WriteSome(p, n) => WriteKept(w, p, n);
    case ReadSome(p, n) =>
      assert ProcessSound(w, p);
      MoveKept(w, p, Do(w, s).processes[p].stage);
    case _ =>
      var p := Mover(s);
      assert ProcessSound(w, p);
      MoveKept(w, p, Do(w, s).processes[p].stage);
  }

  lemma SpawnKept(w: World, key: Key)
    requires Sound(w) && |key| == KEY_BYTES
    ensures Sound(Do(w, Spawn(key)))
  {
    forall q: nat | q < |w.processes|
      ensures ProcessSound(Do(w, Spawn(key)), q)
    {
      assert ProcessSound(w, q);
    }
  }

  /** The process that takes the step. */
  function Mover(s: Step): nat
    requires !s.Spawn?
  {
    match s
    case MakeDirectory(p, _) => p
    case Lstat(p, _) => p
    case ReadSome(p, _) => p
    case ReadEnd(p) => p
    case ReadFails(p) => p
    case GenerateFails(p) => p
    case Open(p, _) => p
    case WriteSome(p, _) => p
    case WriteEnd(p) => p
    case WriteFails(p) => p
    case Close(p, _) => p
    case Crash(p) => p
  }

  lemma {:induction false} RunKept(w: World, steps: seq<Step>)
    requires Sound(w) && Run(w, steps).Some?
    ensures Sound(Run(w, steps).value)
    decreases steps
  {
    if steps == [] {
    } else {
      StepKept(w, steps[0]);
      RunKept(Do(w, steps[0]), steps[1..]);
    }
  }

  // ---------------------------------------------------------------- theorems

  /** Whatever the number of processes and however they are interleaved, interrupted or
    * crash: all calls that succeed return one key of 64 bytes, the whole content of a
    * secure file; and a file that one of them created is secure and holds a prefix of its
    * creator's key. */
  lemma OneIdentity(file: File, steps: seq<Step>)
    requires Run(Initial(file), steps).Some?
    ensures
      var w := Run(Initial(file), steps).value;
      && (forall p: nat | p < |w.processes| && w.processes[p].stage.Done? && w.processes[p].stage.result.Ok? ::
            w.file == Present(true, w.processes[p].stage.result.value) && |w.file.data| == 64)
      && (w.creator.Some? ==>
            && w.creator.value < |w.processes| && w.file.Present? && w.file.secure
            && w.file.data <= w.processes[w.creator.value].key)
  {
    RunKept(Initial(file), steps);
    var w := Run(Initial(file), steps).value;
    forall p: nat | p < |w.processes| && w.processes[p].stage.Done? && w.processes[p].stage.result.Ok?
      ensures w.file == Present(true, w.processes[p].stage.result.value) && |w.file.data| == 64
    {
      assert ProcessSound(w, p);
    }
  }
}
