/** The reading loop of a control connection, in place. */
module ControlReader {
  import opened Wrappers
  import opened ControlSession

  /** The WebSocket: what the service will still send, and how often reading failed. */
  class Connection {
    var inbound: seq<Envelope>
    ghost var failures: nat

    /** Reading may fail at any time. */
    method Read() returns (e: Option<Envelope>)
      modifies this
      ensures e.None? ==> inbound == old(inbound) && failures == old(failures) + 1
      ensures e.Some? ==> old(inbound) == [e.value] + inbound && failures == old(failures)
    {
      var fails := *;
      if fails || inbound == [] {
        failures := failures + 1;
        return None;
      }
      e := Some(inbound[0]);
      inbound := inbound[1..];
    }
  }

  datatype Outcome = ReadFailed | UnsupportedVersion | Cancelled

  /** `cancelled`: the context of the connection has ended. */
  class Session {
    var events: seq<Envelope>
    var responses: seq<Envelope>
    var eventsClosed: bool
    var cancelled: bool
    ghost var received: seq<Envelope>
    ghost var handled: seq<Envelope>
    ghost var taken: seq<Envelope>

    /** Nothing is lost or reordered between the connection and the consumers; all that
      * was received has version 1. */
    ghost predicate Valid()
      reads this
    {
      && Events(received) == handled + events && |events| <= 16
      && Replies(received) == taken + responses && |responses| <= 4
      && RightVersion(received)
    }

    constructor ()
      ensures Valid() && received == handled == taken == [] && !eventsClosed && !cancelled
    {
      events, responses, eventsClosed, cancelled := [], [], false, false;
      received, handled, taken := [], [], [];
    }

    /** What the consumers and the context may do while the reader is not looking. */
    twostate predicate Later()
      reads this
    {
      && eventsClosed == old(eventsClosed) && (old(cancelled) ==> cancelled)
      && old(handled) <= handled && old(taken) <= taken
    }

    /** The channel of an envelope has no room. */
    predicate FullFor(e: Envelope)
      reads this
    {
      if IsEvent(e) then |events| >= EVENT_CAPACITY else |responses| >= REPLY_CAPACITY
    }

    /** The daemon takes some events. */
    method TakeEvents(n: nat)
      requires Valid() && n <= |events|
      modifies this`handled, this`events
      ensures Valid() && handled == old(handled + events[..n]) && events == old(events[n..])
    {
      assert events == events[..n] + events[n..];
      handled, events := handled + events[..n], events[n..];
    }

    /** Requesters take some replies. */
    method TakeResponses(n: nat)
      requires Valid() && n <= |responses|
      modifies this`taken, this`responses
      ensures Valid() && taken == old(taken + responses[..n]) && responses == old(responses[n..])
    {
      assert responses == responses[..n] + responses[n..];
      taken, responses := taken + responses[..n], responses[n..];
    }

    /** Waits until there is room for an envelope or the context has ended. The daemon and
      * the requesters take what they like meanwhile. */
    method Await(e: Envelope)
      requires Valid()
      modifies this
      ensures Valid() && Later() && received == old(received)
      ensures cancelled || !FullFor(e)
    {
      var n: nat :| n <= |events|;
      TakeEvents(n);
      var m: nat :| m <= |responses|;
      TakeResponses(m);
      var ends := *;
      cancelled := cancelled || ends || FullFor(e);
    }

    /** Sends one envelope into its channel, which has room. */
    method Put(e: Envelope)
      requires Valid() && e.version == 1 && !FullFor(e)
      modifies this`received, this`events, this`responses
      ensures Valid() && received == old(received) + [e]
      ensures e.typ in EVENT_TYPES ==> events == old(events) + [e] && responses == old(responses)
      ensures e.typ !in EVENT_TYPES ==> responses == old(responses) + [e] && events == old(events)
    {
      EventType(e);
      SplitAppend(received, e);
      received := received + [e];
      if IsEvent(e) {
        events := events + [e];
      } else {
        responses := responses + [e];
      }
    }

    /** Sends one envelope into its channel, unless the context ends while it waits. When
      * there is room and the context has ended as well, either may happen. */
    method Route(e: Envelope) returns (routed: bool)
      requires Valid() && e.version == 1
      modifies this
      ensures Valid() && Later()
      ensures received == old(received) + if routed then [e] else []
      ensures !routed ==> cancelled
      ensures routed && e.typ in EVENT_TYPES ==> events != [] && events[|events| - 1] == e
      ensures routed && e.typ !in EVENT_TYPES ==> responses != [] && responses[|responses| - 1] == e
    {
      Await(e);
      var prefer := *;
      if FullFor(e) || (cancelled && prefer) {
        return false;
      }
      Put(e);
      return true;
    }

    /** One round of the loop: reads an envelope and routes it, unless that ends the loop. */
    method RunOnce(connection: Connection) returns (outcome: Option<Outcome>, ghost dropped: seq<Envelope>)
      requires Valid()
      modifies this, connection
      ensures Valid() && Later()
      ensures old(received) + old(connection.inbound) == received + dropped + connection.inbound
      ensures connection.failures == old(connection.failures) + if outcome == Some(ReadFailed) then 1 else 0
      ensures match outcome
        case None => dropped == [] && |connection.inbound| < |old(connection.inbound)|
        case Some(ReadFailed) => dropped == []
        case Some(UnsupportedVersion) => |dropped| == 1 && dropped[0].version != 1
        case Some(Cancelled) => cancelled && |dropped| == 1 && dropped[0].version == 1
    {
      ghost var before := received;
      var read := connection.Read();
      if read.None? {
        return Some(ReadFailed), [];
      }
      var e := read.value;
      assert before + [e] + connection.inbound == before + ([e] + connection.inbound);
      if e.version != VERSION {
        return Some(UnsupportedVersion), [e];
      }
      var routed := Route(e);
      if !routed {
        return Some(Cancelled), [e];
      }
      return None, [];
    }

    /** Runs until reading fails, an envelope has another version than 1, or the context
      * ends while an envelope waits for room. Every envelope read with the right version
      * was routed, but for the one that waited. */
    method Run(connection: Connection) returns (outcome: Outcome, ghost dropped: seq<Envelope>)
      requires Valid() && !eventsClosed
      modifies this, connection
      ensures Valid() && eventsClosed
      ensures old(handled) <= handled && old(taken) <= taken
      ensures old(received) + old(connection.inbound) == received + dropped + connection.inbound
      ensures connection.failures == old(connection.failures) + if outcome.ReadFailed? then 1 else 0
      ensures match outcome
        case ReadFailed => dropped == []
        case UnsupportedVersion => |dropped| == 1 && dropped[0].version != 1
        case Cancelled => cancelled && |dropped| == 1 && dropped[0].version == 1
    {
      dropped := [];
      while true
        invariant Valid() && !eventsClosed
        invariant old(handled) <= handled && old(taken) <= taken
        invariant old(received) + old(connection.inbound) == received + connection.inbound
        invariant connection.failures == old(connection.failures)
        decreases |connection.inbound|
      {
        var end;
        end, dropped := RunOnce(connection);
        if end.Some? {
          eventsClosed := true;
          return end.value, dropped;
        }
      }
    }
  }
}
