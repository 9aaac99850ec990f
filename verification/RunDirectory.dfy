/** `Start` and `Close` of one daemon, in place, against the run directory. */
module RunDirectory {
  import opened Wrappers
  import opened SingleInstance

  /** The lock file and the socket path. Every call may fail for reasons of its own;
    * `failures` counts how often that happened. `secured`: the socket is for its owner
    * only. */
  class Directory {
    var lock: Option<nat>
    var socket: Entry
    var secured: bool
    ghost var failures: nat

    /** Fails if another process holds the lock. */
    method Flock(p: nat) returns (ok: bool)
      modifies this`lock, this`failures
      ensures ok ==> old(lock).None? && lock == Some(p)
      ensures !ok ==> lock == old(lock)
      ensures failures == old(failures) + if !ok && old(lock).None? then 1 else 0
    {
      var fails := *;
      ok := !fails && lock.None?;
      if ok {
        lock := Some(p);
      } else if lock.None? {
        failures := failures + 1;
      }
    }

    /** Closing the lock file of its holder. Only the holder of the lock touches the
      * socket path. */
    method Unlock()
      modifies this`lock
      ensures lock.None?
    {
      lock := None;
    }

    /** Unlinking may fail; then the path stays. */
    method Unlink() returns (ok: bool)
      requires lock.Some?
      modifies this`socket, this`failures
      ensures socket == if ok then NoEntry else old(socket)
      ensures failures == old(failures) + if ok then 0 else 1
    {
      ok := *;
      if ok {
        socket := NoEntry;
      } else {
        failures := failures + 1;
      }
    }

    /** Unless a call fails: succeeds exactly if the path does not name a foreign file. */
    method RemoveSocket() returns (ok: bool)
      requires lock.Some?
      modifies this`socket, this`failures
      ensures ok ==> socket.NoEntry? && !old(socket).NotSocket?
      ensures !ok ==> socket == old(socket)
      ensures failures == old(failures) + if !ok && !old(socket).NotSocket? then 1 else 0
    {
      if socket.NotSocket? {
        return false;
      }
      var fails := *;
      if fails {
        failures := failures + 1;
        return false;
      }
      if socket.NoEntry? {
        return true;
      }
      ok := Unlink();
    }

    method Listen(p: nat) returns (ok: bool)
      requires lock == Some(p)
      modifies this`socket, this`secured, this`failures
      ensures ok ==> old(socket).NoEntry? && socket == Socket(Some(p)) && !secured
      ensures !ok ==> socket == old(socket)
      ensures failures == old(failures) + if !ok && old(socket).NoEntry? then 1 else 0
    {
      var fails := *;
      ok := !fails && socket.NoEntry?;
      if ok {
        socket, secured := Socket(Some(p)), false;
      } else if socket.NoEntry? {
        failures := failures + 1;
      }
    }

    method Chmod() returns (ok: bool)
      modifies this`secured, this`failures
      ensures secured == (old(secured) || ok)
      ensures failures == old(failures) + if ok then 0 else 1
    {
      ok := *;
      if ok {
        secured := true;
      } else {
        failures := failures + 1;
      }
    }
  }

  /** Unless a call fails, a daemon starts exactly if nobody has the lock and the path does
    * not name a foreign file. One that starts holds the lock and its own, secured socket.
    * One that does not leaves the lock as it found it, never touches the path while
    * another process has the lock, and never removes anything but a socket. */
  method Start(d: Directory, p: nat) returns (ok: bool)
    requires d.lock != Some(p)
    modifies d
    ensures ok ==> old(d.lock).None? && d.lock == Some(p) && d.socket == Socket(Some(p)) && d.secured
    ensures d.failures >= old(d.failures)
    ensures d.failures == old(d.failures) ==> (ok <==> old(d.lock).None? && !old(d.socket).NotSocket?)
    ensures ok ==> d.failures == old(d.failures)
    ensures !ok ==> d.lock == old(d.lock)
    ensures old(d.lock).Some? || old(d.socket).NotSocket? ==> !ok && d.socket == old(d.socket)
    ensures !ok && !old(d.socket).Socket? ==> d.socket == old(d.socket) || d.socket == Socket(Some(p))
  {
    var locked := d.Flock(p);
    if !locked {
      return false;
    }
    var removed := d.RemoveSocket();
    if !removed {
      d.Unlock();
      return false;
    }
    var listening := d.Listen(p);
    if !listening {
      d.Unlock();
      return false;
    }
    var secured := d.Chmod();
    if !secured {
      var _ := d.Unlink();
      d.Unlock();
      return false;
    }
    return true;
  }

  /** Closing frees the lock only after the last removal of the path, which is then gone,
    * or still the daemon's own if both removals failed. */
  method Close(d: Directory, p: nat)
    requires d.lock == Some(p)
    modifies d
    ensures d.lock.None?
    ensures d.socket.NoEntry? || (d.socket == old(d.socket) && d.failures == old(d.failures) + 2)
  {
    var _ := d.Unlink();
    var _ := d.Unlink();
    d.Unlock();
  }
}
