/** `LoadOrCreate` of one process that nobody interferes with, in place. */
module IdentityFile {
  import opened Wrappers
  import opened Frames
  import opened Identity

  datatype Failure = NotExist | Exists | Other

  /** The directory, as far as the key file is concerned. Every call may fail for reasons
    * of its own; `failures` counts how often that happened. */
  class Directory {
    var file: File
    ghost var failures: nat

    /** A call without a result that matters here: `MkdirAll`, `Chmod`,
      * `GenerateKey` and closing the file. */
    method Attempt() returns (ok: bool)
      modifies this`failures
      ensures failures == old(failures) + if ok then 0 else 1
    {
      ok := *;
      if !ok {
        failures := failures + 1;
      }
    }

    /** Whether the file is a regular one without permissions for others. */
    method Lstat() returns (r: Result<bool, Failure>)
      modifies this`failures
      ensures r.Ok? ==> file.Present? && r.value == file.secure
      ensures r.Err? ==> r.error == Other || (r.error == NotExist && file.Absent?)
      ensures failures == old(failures) + if r == Err(Other) then 1 else 0
    {
      var fails := *;
      if fails {
        failures := failures + 1;
        return Err(Other);
      }
      return match file
        case Absent => Err(NotExist)
        case Present(secure, _) => Ok(secure);
    }

    method ReadFile() returns (r: Result<seq<byte>, Failure>)
      modifies this`failures
      ensures r.Ok? ==> file.Present? && r.value == file.data
      ensures r.Err? ==> r.error == Other || (r.error == NotExist && file.Absent?)
      ensures failures == old(failures) + if r == Err(Other) then 1 else 0
    {
      var fails := *;
      if fails {
        failures := failures + 1;
        return Err(Other);
      }
      return match file
        case Absent => Err(NotExist)
        case Present(_, data) => Ok(data);
    }

    /** Opens the file exclusively: it is new and empty, or nothing changes. */
    method CreateExclusive() returns (r: Result<(), Failure>)
      modifies this
      ensures r.Ok? ==> old(file).Absent? && file == Present(true, [])
      ensures r.Err? ==> file == old(file) && (r.error == Other || (r.error == Exists && file.Present?))
      ensures failures == old(failures) + if r == Err(Other) then 1 else 0
    {
      var fails := *;
      if fails {
        failures := failures + 1;
        return Err(Other);
      }
      if file.Present? {
        return Err(Exists);
      }
      file := Present(true, []);
      return Ok(());
    }

    /** Writes the key to the new file, piece by piece, until it is done or fails. */
    method Write(key: Key) returns (ok: bool)
      requires file == Present(true, [])
      modifies this
      ensures file.Present? && file.secure && file.data <= key
      ensures ok ==> file.data == key
      ensures failures == old(failures) + if ok then 0 else 1
    {
      var written := 0;
      while written < |key|
        invariant written <= |key| && file == Present(true, key[..written])
        invariant failures == old(failures)
      {
        var n: nat :| n <= |key| - written;
        assert key[..written + n] == key[..written] + key[written..written + n];
        file := file.(data := file.data + key[written..written + n]);
        written := written + n;
        if n == 0 {
          failures := failures + 1;
          return false;
        }
      }
      return true;
    }
  }

  /** A complete and secure file. */
  predicate Complete(file: File) {
    file.Present? && file.secure && |file.data| == 64
  }

  /** Unless a call fails: succeeds exactly on a complete and secure file, with its key. */
  method Load(d: Directory) returns (r: Result<Key, Failure>)
    modifies d`failures
    ensures r.Ok? ==> Complete(d.file) && r.value == d.file.data && d.failures == old(d.failures)
    ensures r == Err(NotExist) ==> d.file.Absent? && d.failures == old(d.failures)
    ensures d.failures >= old(d.failures)
    ensures d.failures == old(d.failures) ==>
      r == if Complete(d.file) then Ok(d.file.data) else if d.file.Absent? then Err(NotExist) else Err(Other)
  {
    var info := d.Lstat();
    if info.Err? {
      return Err(info.error);
    }
    if !info.value {
      return Err(Other);
    }
    r := d.ReadFile();
    if r.Ok? && |r.value| != KEY_BYTES {
      return Err(Other);
    }
  }

  /** Unless a call fails: the key of the file if there is a complete and secure one
    * after all, and the new key, then in the file, if there is none. */
  method Create(d: Directory, key: Key) returns (r: Result<Key, Failure>)
    requires |key| == 64
    modifies d
    ensures r.Ok? ==> Complete(d.file) && r.value == d.file.data && d.failures == old(d.failures)
    ensures old(d.file).Present? ==> d.file == old(d.file)
    ensures old(d.file).Absent? && r.Ok? ==> r.value == key
    ensures old(d.file).Absent? && d.file.Present? ==> d.file.secure && d.file.data <= key
    ensures d.failures >= old(d.failures)
    ensures d.failures == old(d.failures) ==> (r.Ok? <==> old(d.file).Absent? || Complete(old(d.file)))
  {
    var generated := d.Attempt();
    if !generated {
      return Err(Other);
    }
    var created := d.CreateExclusive();
    if created == Err(Exists) {
      r := Load(d);
      return;
    }
    if created.Err? {
      return Err(Other);
    }
    var written := d.Write(key);
    var closed := d.Attempt();
    return if written && closed then Ok(key) else Err(Other);
  }

  /** Unless a call fails: succeeds exactly if there is no file or a complete and secure
    * one. A file that is there is never changed, and its key is returned. */
  method LoadOrCreate(d: Directory, key: Key) returns (r: Result<Key, Failure>)
    requires |key| == 64
    modifies d
    ensures r.Ok? ==> Complete(d.file) && r.value == d.file.data && d.failures == old(d.failures)
    ensures old(d.file).Present? ==> d.file == old(d.file)
    ensures old(d.file).Absent? && r.Ok? ==> r.value == key
    ensures old(d.file).Absent? && d.file.Present? ==> d.file.secure && d.file.data <= key
    ensures d.failures >= old(d.failures)
    ensures d.failures == old(d.failures) ==> (r.Ok? <==> old(d.file).Absent? || Complete(old(d.file)))
  {
    var prepared := d.Attempt();
    if !prepared {
      return Err(Other);
    }
    r := Load(d);
    if r == Err(NotExist) {
      r := Create(d, key);
    }
  }

  /** A restart keeps the identity, whatever key it would have generated: unless a call
    * fails, it succeeds with the same key. */
  method Restart(d: Directory, key: Key, other: Key) returns (before: Result<Key, Failure>, after: Result<Key, Failure>)
    requires |key| == 64 && |other| == 64
    modifies d
    ensures before.Ok? && after.Ok? ==> before.value == after.value
    ensures before.Ok? && d.failures == old(d.failures) ==> after == before
  {
    before := LoadOrCreate(d, key);
    after := LoadOrCreate(d, other);
  }
}
