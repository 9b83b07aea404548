// The receiving end of the bridge: a buffer drained frame by frame, heartbeat supervision, and the
// bounded channel with its drop policy.
module BridgeRx {
  import opened EventTypes
  import opened OrderTypes
  import opened Framing
  import opened QosSpec

  predicate HasHeartbeat(events: seq<Event>) {
    exists k :: 0 <= k < |events| && events[k].kind == HeartbeatKind
  }

  const HEARTBEAT_TIMEOUT_US: nat := 1_000_000

  class BridgeReceiver {
    const decode: Decoder
    var readBuf: Bytes
    var lastHeartbeat: nat
    var isDegraded: bool

    constructor (decode: Decoder, now: nat)
      ensures this.decode == decode && readBuf == [] && lastHeartbeat == now && !isDegraded
    {
      this.decode := decode;
      readBuf, lastHeartbeat, isDegraded := [], now, false;
    }

    /** The periodic check: more than a second of silence degrades the feed. */
    method CheckHeartbeat(now: nat)
      modifies `isDegraded
      ensures isDegraded <==> old(isDegraded) || now > lastHeartbeat + 1_000_000
    {
      var elapsed := if now >= lastHeartbeat then now - lastHeartbeat else 0;
      if elapsed > HEARTBEAT_TIMEOUT_US && !isDegraded {
        isDegraded := true;
      }
    }

    /** A new connection starts from an empty buffer. */
    method Connect()
      modifies `readBuf
      ensures readBuf == []
    {
      readBuf := [];
    }

    /** Appends what was read, decodes every complete frame and drains it; a heartbeat ends degradation. */
    method ReadAndProcessBatch(chunk: Bytes, now: nat) returns (status: Status, events: seq<Event>)
      requires Progressive(decode)
      modifies this
      ensures Outcome(events, readBuf, status) == Batch(decode, old(readBuf), chunk)
      ensures isDegraded <==> old(isDegraded) && !HasHeartbeat(events)
      ensures lastHeartbeat == if HasHeartbeat(events) then now else old(lastHeartbeat)
    {
      hide HasHeartbeat, Greedy;
      NoHeartbeatYet();
      events := [];
      if chunk == [] {
        return Eof, [];
      }
      readBuf := readBuf + chunk;
      var cursor := 0;
      ghost var goal := Greedy(decode, readBuf);
      assert readBuf[0..] == readBuf;
      while cursor < |readBuf|
        invariant cursor <= |readBuf| && readBuf == old(readBuf) + chunk
        invariant goal == Prepend(events, Greedy(decode, readBuf[cursor..]))
        invariant isDegraded <==> old(isDegraded) && !HasHeartbeat(events)
        invariant lastHeartbeat == if HasHeartbeat(events) then now else old(lastHeartbeat)
        decreases |readBuf| - cursor
      {
        GreedyStep(decode, readBuf, cursor, events);
        match decode(readBuf[cursor..]) {
          case NeedMore =>
            break;
          case Corrupt =>
            return CorruptStream, events;
          case Frame(event, length) =>
            cursor := cursor + length;
            if event.kind == HeartbeatKind {
              lastHeartbeat := now;
              isDegraded := false;
            }
            HeartbeatSnoc(events, event);
            events := events + [event];
        }
      }
      GreedyEnds(decode, readBuf[cursor..]);
      assert goal == Outcome(events, readBuf[cursor..], Ok);
      if cursor > 0 {
        readBuf := readBuf[cursor..];
      }
      status := Ok;
    }
  }

  /** An outcome with events decoded earlier put in front. */
  ghost function Prepend(events: seq<Event>, o: Outcome): Outcome {
    o.(events := events + o.events)
  }

  /** What one attempt at the cursor tells about the rest of the buffer, after `events`. */
  lemma GreedyStep(d: Decoder, buf: Bytes, cursor: nat, events: seq<Event>)
    requires Progressive(d) && cursor < |buf|
    ensures var front := buf[cursor..];
            match d(front)
            case NeedMore => Greedy(d, front) == Outcome([], front, Ok)
            case Corrupt => Prepend(events, Greedy(d, front)) == Outcome(events, front, CorruptStream)
            case Frame(e, n) =>
              && cursor + n <= |buf|
              && Prepend(events, Greedy(d, front)) == Prepend(events + [e], Greedy(d, buf[cursor + n..]))
  {
    var front := buf[cursor..];
    if d(front).Frame? {
      var e, n := d(front).event, d(front).length;
      assert front[n..] == buf[cursor + n..];
      assert events + ([e] + Greedy(d, front[n..]).events) == events + [e] + Greedy(d, front[n..]).events;
    }
  }

  lemma GreedyEnds(d: Decoder, rest: Bytes)
    requires Progressive(d) && (rest == [] || d(rest).NeedMore?)
    ensures Greedy(d, rest) == Outcome([], rest, Ok)
  {
  }

  lemma NoHeartbeatYet()
    ensures !HasHeartbeat([])
  {
  }

  lemma HeartbeatSnoc(events: seq<Event>, e: Event)
    ensures HasHeartbeat(events + [e]) <==> HasHeartbeat(events) || e.kind == HeartbeatKind
  {
    if HasHeartbeat(events) {
      var k :| 0 <= k < |events| && events[k].kind == HeartbeatKind;
      assert (events + [e])[k].kind == HeartbeatKind;
    }
    if e.kind == HeartbeatKind {
      assert (events + [e])[|events|].kind == HeartbeatKind;
    }
  }

  class EventBus {
    const capacity: nat
    var queue: seq<Event>
    var waiting: Option<Event>       // a critical event whose send is blocked
    ghost var consumed: seq<Event>

    ghost function State(): Bus
      reads this
    {
      Bus(capacity, queue, waiting, consumed)
    }

    constructor (capacity: nat)
      ensures State() == EmptyBus(capacity)
    {
      this.capacity := capacity;
      queue, waiting, consumed := [], None, [];
    }

    /** Tries to send; a full channel blocks on critical events and drops the others. */
    method ProcessEvent(event: Event)
      requires waiting.None?
      modifies this
      ensures State() == Offer(old(State()), event)
    {
      if |queue| < capacity {
        queue := queue + [event];
      } else {
        match PriorityOf(event) {
          case Critical =>
            waiting := Some(event);
          case High | Medium | Low =>
        }
      }
    }

    /** The blocked send completes. */
    method Resume()
      requires waiting.Some? && |queue| < capacity
      modifies this
      ensures State() == QosSpec.Resume(old(State()))
    {
      queue := queue + [waiting.value];
      waiting := None;
    }

    method Receive() returns (event: Event)
      requires queue != []
      modifies this
      ensures State() == Consume(old(State())) && event == old(queue)[0]
    {
      event := queue[0];
      consumed := consumed + [event];
      queue := queue[1..];
    }
  }
}
