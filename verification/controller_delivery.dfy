/** The two owners of controller traffic: the supervisor's bounded broker, which
    queues one reply per accepted packet and keeps at most one in flight, and the
    worker's ordered inbound queue. Each mutable object is proved against a
    function on its state; the protocol module reasons about those functions. */
module ControllerDelivery {
  import opened Common
  import opened HciPackets

  const MAX_CONTROLLER_PACKETS: nat := 4096
  const MAX_CONTROLLER_BYTES: nat := 8 * 1024 * 1024
  const MAX_INBOUND_PACKETS: nat := 64
  const MAX_INBOUND_BYTES: nat := 256 * 1024

  datatype Packet = Packet(kind: byte, bytes: seq<byte>)

  /** A packet as the worker queues it, under its delivery number. */
  datatype Numbered = Numbered(sequence: nat, packet: Packet)

  datatype ToWorker =
    | Reply(session: nat, id: nat, status: byte)
    | Inbound(session: nat, sequence: nat, packet: Packet)
    | DrainDone(session: nat)

  /** `log` are the bytes that a request adds to the log: none for the clock. */
  datatype ToSupervisor =
    | Send(session: nat, id: nat, payload: seq<byte>)
    | Other(session: nat, id: nat, log: nat)
    | InboundAck(session: nat, sequence: nat, status: byte)
    | Drain(session: nat)

  // ----- the supervisor's broker -----

  datatype Broker = Broker(
    packets: nat,
    bytes: nat,
    nextSequence: nat,
    inboundBytes: int,
    inbound: seq<Packet>,
    inFlight: Option<(nat, nat)>)

  const IDLE_BROKER := Broker(0, 0, 0, 0, [], None)

  /** The reply the fake controller makes to an accepted packet: a Command Complete
      event for a command, the packet itself for data. */
  function ReplyTo(kind: OutboundKind, packet: seq<byte>): Packet
    requires ValidOutbound(kind, packet)
  {
    match kind
    case Command => Packet(0, [0x0e, 4, 1, packet[0], packet[1], 0])
    case Acl => Packet(1, packet)
    case Sco => Packet(2, packet)
    case Iso => Packet(3, packet)
  }

  function Outstanding(b: Broker): nat {
    |b.inbound| + if b.inFlight.Some? then 1 else 0
  }

  /** Status 1 rejects a malformed packet, 2 reports an exhausted quota. */
  function BrokerStatus(b: Broker, payload: seq<byte>): (status: byte) {
    if payload == [] || OutboundKindOf(payload[0]).None? then 1 else
    var kind, packet := OutboundKindOf(payload[0]).value, payload[1..];
    if !ValidOutbound(kind, packet) then 1
    else if b.packets >= MAX_CONTROLLER_PACKETS || b.bytes + |packet| > MAX_CONTROLLER_BYTES then 2
    else if Outstanding(b) >= MAX_INBOUND_PACKETS
         || b.inboundBytes + |ReplyTo(kind, packet).bytes| > MAX_INBOUND_BYTES then 2
    else 0
  }

  function AcceptedReply(b: Broker, payload: seq<byte>): Packet
    requires BrokerStatus(b, payload) == 0
  {
    ReplyTo(OutboundKindOf(payload[0]).value, payload[1..])
  }

  function BrokerSend(b: Broker, payload: seq<byte>): Broker {
    if BrokerStatus(b, payload) != 0 then b else
    var reply := AcceptedReply(b, payload);
    b.(packets := b.packets + 1, bytes := b.bytes + |payload| - 1,
       inboundBytes := b.inboundBytes + |reply.bytes|, inbound := b.inbound + [reply])
  }

  /** None when nothing is in flight or another number is. */
  function BrokerAcknowledge(b: Broker, sequence: nat): Option<Broker> {
    if b.inFlight.None? || sequence != b.inFlight.value.0 then None
    else Some(b.(inFlight := None, inboundBytes := b.inboundBytes - b.inFlight.value.1,
                 nextSequence := WrappingNext(b.nextSequence)))
  }

  predicate Schedules(b: Broker) {
    b.inFlight.None? && b.inbound != []
  }

  function BrokerSchedule(b: Broker): Broker {
    if !Schedules(b) then b
    else b.(inbound := b.inbound[1..], inFlight := Some((b.nextSequence, |b.inbound[0].bytes|)))
  }

  function Scheduled(b: Broker, session: nat): seq<ToWorker> {
    if !Schedules(b) then [] else [Inbound(session, b.nextSequence, b.inbound[0])]
  }

  /** What one supervisor turn leaves behind; `fault` ends the run. */
  datatype Turn = Turn(broker: Broker, out: seq<ToWorker>, fault: bool)

  /** `room` is what the log may still take. */
  function SupervisorTurn(b: Broker, room: nat, session: nat, m: ToSupervisor): Turn {
    if m.session != session then Turn(b, [], true) else
    match m
    case Send(_, id, payload) =>
      var sent := BrokerSend(b, payload);
      Turn(BrokerSchedule(sent), [Reply(session, id, BrokerStatus(b, payload))] + Scheduled(sent, session), false)
    case Other(_, id, log) =>
      if log > room then Turn(b, [], true) else Turn(b, [Reply(session, id, 0)], false)
    case InboundAck(_, sequence, status) =>
      var next := BrokerAcknowledge(b, sequence);
      if status != 0 || next.None? then Turn(b, [], true) else Turn(next.value, [], false)
    case Drain(_) =>
      if b.inFlight.None? && b.inbound == [] then Turn(b, [DrainDone(session)], false)
      else Turn(BrokerSchedule(b), Scheduled(b, session), false)
  }

  class FakeControllerBroker {
    var packets: nat
    var bytes: nat
    var nextInboundSequence: nat
    var inboundBytes: int
    var inbound: seq<Packet>
    var inFlight: Option<(nat, nat)>

    ghost function State(): Broker
      reads this
    {
      Broker(packets, bytes, nextInboundSequence, inboundBytes, inbound, inFlight)
    }

    constructor ()
      ensures State() == IDLE_BROKER
    {
      packets, bytes, nextInboundSequence, inboundBytes, inbound, inFlight := 0, 0, 0, 0, [], None;
    }

    method SendPacket(payload: seq<byte>) returns (status: byte)
      modifies this
      ensures status == BrokerStatus(old(State()), payload)
      ensures State() == BrokerSend(old(State()), payload)
    {
      if payload == [] { return 1; }
      var kind := OutboundKindOf(payload[0]);
      var packet := payload[1..];
      if kind.None? || !ValidOutbound(kind.value, packet) { return 1; }
      if packets >= MAX_CONTROLLER_PACKETS || bytes + |packet| > MAX_CONTROLLER_BYTES { return 2; }
      var reply := ReplyTo(kind.value, packet);
      var outstanding := |inbound| + if inFlight.Some? then 1 else 0;
      if outstanding >= MAX_INBOUND_PACKETS || inboundBytes + |reply.bytes| > MAX_INBOUND_BYTES { return 2; }
      packets := packets + 1;
      bytes := bytes + |packet|;
      inboundBytes := inboundBytes + |reply.bytes|;
      inbound := inbound + [reply];
      status := 0;
    }

    method AcknowledgeInbound(sequence: nat) returns (ok: bool)
      modifies this
      ensures ok == BrokerAcknowledge(old(State()), sequence).Some?
      ensures State() == if ok then BrokerAcknowledge(old(State()), sequence).value else old(State())
    {
      if inFlight.None? || sequence != inFlight.value.0 { return false; }
      inboundBytes := inboundBytes - inFlight.value.1;
      inFlight := None;
      nextInboundSequence := WrappingNext(nextInboundSequence);
      ok := true;
    }

    method ScheduleInbound(session: nat) returns (out: seq<ToWorker>)
      modifies this
      ensures out == Scheduled(old(State()), session)
      ensures State() == BrokerSchedule(old(State()))
    {
      if inFlight.Some? || inbound == [] { return []; }
      var packet := inbound[0];
      inbound := inbound[1..];
      out := [Inbound(session, nextInboundSequence, packet)];
      inFlight := Some((nextInboundSequence, |packet.bytes|));
    }

    method Cleanup()
      modifies this
      ensures State() == IDLE_BROKER
    {
      packets, bytes, nextInboundSequence, inboundBytes, inbound, inFlight := 0, 0, 0, 0, [], None;
    }

    /** One arm of the supervisor's receive loop. */
    method Handle(room: nat, session: nat, m: ToSupervisor) returns (out: seq<ToWorker>, fault: bool)
      modifies this
      ensures Turn(State(), out, fault) == SupervisorTurn(old(State()), room, session, m)
    {
      out, fault := [], false;
      if m.session != session { return [], true; }
      match m {
        case Send(_, id, payload) =>
          var status := SendPacket(payload);
          var more := ScheduleInbound(session);
          out := [Reply(session, id, status)] + more;
        case Other(_, id, log) =>
          if log > room { return [], true; }
          out := [Reply(session, id, 0)];
        case InboundAck(_, sequence, status) =>
          if status != 0 { return [], true; }
          var ok := AcknowledgeInbound(sequence);
          fault := !ok;
        case Drain(_) =>
          if inFlight.None? && inbound == [] {
            out := [DrainDone(session)];
          } else {
            out := ScheduleInbound(session);
          }
      }
    }
  }

  // ----- the worker's inbound queue -----

  datatype Host = Host(
    session: nat,
    nextRequestId: nat,
    nextSequence: nat,
    inboundBytes: int,
    inbound: seq<Numbered>)

  /** Status 1 is a malformed or out-of-order packet, 2 an exhausted quota. */
  function EnqueueStatus(h: Host, session: nat, sequence: nat, packet: Packet): (status: byte) {
    if session != h.session || sequence != h.nextSequence || !ValidInbound(packet.kind, packet.bytes) then 1
    else if |h.inbound| >= MAX_INBOUND_PACKETS || h.inboundBytes + |packet.bytes| > MAX_INBOUND_BYTES then 2
    else 0
  }

  function Enqueue(h: Host, sequence: nat, packet: Packet): Host {
    h.(nextSequence := WrappingNext(h.nextSequence),
       inboundBytes := h.inboundBytes + |packet.bytes|,
       inbound := h.inbound + [Numbered(sequence, packet)])
  }

  function Dequeue(h: Host): Host
    requires h.inbound != []
  {
    h.(inbound := h.inbound[1..], inboundBytes := h.inboundBytes - |h.inbound[0].packet.bytes|)
  }

  /** How a pending request reacts to one received datagram. */
  datatype Reaction = Continue(host: Host) | Answered(status: byte) | Broken

  function React(h: Host, id: nat, m: ToWorker): Reaction {
    match m
    case Inbound(session, sequence, packet) =>
      if EnqueueStatus(h, session, sequence, packet) != 0 then Broken
      else Continue(Enqueue(h, sequence, packet))
    case Reply(session, replyId, status) =>
      if session == h.session && replyId == id then Answered(status) else Broken
    case DrainDone(_) => Broken
  }

  /** The blocking request loop over the datagrams that arrive: the host it leaves,
      how many it consumed, and its result (None while still waiting). */
  function AwaitReply(h: Host, id: nat, incoming: seq<ToWorker>): (Host, nat, Option<Reaction>)
    decreases |incoming|
  {
    if incoming == [] then (h, 0, None) else
    match React(h, id, incoming[0])
    case Continue(next) =>
      var (host, used, result) := AwaitReply(next, id, incoming[1..]);
      (host, used + 1, result)
    case Answered(status) => (h, 1, Some(Answered(status)))
    case Broken => (h, 1, Some(Broken))
  }

  class TestHost {
    const session: nat
    var nextRequestId: nat
    var nextInboundSequence: nat
    var inboundBytes: int
    var inbound: seq<Numbered>

    ghost function State(): Host
      reads this
    {
      Host(session, nextRequestId, nextInboundSequence, inboundBytes, inbound)
    }

    constructor (session: nat)
      ensures State() == Host(session, 0, 0, 0, [])
    {
      this.session := session;
      nextRequestId, nextInboundSequence, inboundBytes, inbound := 0, 0, 0, [];
    }

    method EnqueueInbound(from: nat, sequence: nat, packet: Packet) returns (status: byte)
      modifies this
      ensures status == EnqueueStatus(old(State()), from, sequence, packet)
      ensures State() == if status == 0 then Enqueue(old(State()), sequence, packet) else old(State())
    {
      if from != session || sequence != nextInboundSequence || !ValidInbound(packet.kind, packet.bytes) {
        return 1;
      }
      if |inbound| >= MAX_INBOUND_PACKETS || inboundBytes + |packet.bytes| > MAX_INBOUND_BYTES {
        return 2;
      }
      nextInboundSequence := WrappingNext(nextInboundSequence);
      inboundBytes := inboundBytes + |packet.bytes|;
      inbound := inbound + [Numbered(sequence, packet)];
      status := 0;
    }

    method PopInbound() returns (entry: Numbered)
      requires inbound != []
      modifies this
      ensures entry == old(inbound)[0]
      ensures State() == Dequeue(old(State()))
    {
      entry := inbound[0];
      inbound := inbound[1..];
      inboundBytes := inboundBytes - |entry.packet.bytes|;
    }

    /** Allocates a correlation id, then consumes datagrams until its reply. */
    method Request(incoming: seq<ToWorker>) returns (id: nat, used: nat, result: Option<Reaction>)
      modifies this
      ensures id == old(nextRequestId)
      ensures (State(), used, result)
           == AwaitReply(old(State()).(nextRequestId := WrappingNext(id)), id, incoming)
    {
      id := nextRequestId;
      nextRequestId := WrappingNext(nextRequestId);
      used, result := 0, None;
      ghost var start := State();
      while used < |incoming|
        invariant 0 <= used <= |incoming|
        invariant session == start.session && nextRequestId == WrappingNext(id)
        invariant var (host, more, final) := AwaitReply(State(), id, incoming[used..]);
          (host, used + more, final) == AwaitReply(start, id, incoming)
        invariant result.None?
      {
        ghost var before := State();
        var m := incoming[used];
        assert incoming[used..][0] == m && incoming[used..][1..] == incoming[used + 1..];
        match m {
          case Inbound(from, sequence, packet) =>
            var status := EnqueueInbound(from, sequence, packet);
            used := used + 1;
            if status != 0 { return id, used, Some(Broken); }
          case Reply(from, replyId, status) =>
            used := used + 1;
            return id, used, Some(if from == session && replyId == id then Answered(status) else Broken);
          case DrainDone(_) =>
            used := used + 1;
            return id, used, Some(Broken);
        }
      }
    }
  }
}
