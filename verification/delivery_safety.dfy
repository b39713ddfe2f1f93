/** Each end of the controller channel against any peer whatsoever: what it keeps within
    its bounds, what it accepts, and exactly what it gives up over. */
module DeliverySafety {
  import opened Common
  import opened HciPackets
  import opened ControllerDelivery
  import opened DeliveryProtocol

  // ----- the worker, against any supervisor -----

  function QueuedBytes(entries: seq<Numbered>): nat {
    if entries == [] then 0 else |entries[0].packet.bytes| + QueuedBytes(entries[1..])
  }

  lemma {:induction false} QueuedBytesAppend(entries: seq<Numbered>, e: Numbered)
    ensures QueuedBytes(entries + [e]) == QueuedBytes(entries) + |e.packet.bytes|
  {
    if entries == [] {
      assert entries + [e] == [e];
      assert QueuedBytes([e][1..]) == 0;
    } else {
      QueuedBytesAppend(entries[1..], e);
      assert (entries + [e])[1..] == entries[1..] + [e];
    }
  }

  /** A valid packet under the number `n` of all that were ever queued. */
  predicate IsEntry(e: Numbered, n: nat) {
    e.sequence == n % U32_LIMIT && ValidInbound(e.packet.kind, e.packet.bytes)
  }

  /** After `first` packets were taken out, the queue holds valid ones under the next
      numbers, within both bounds. */
  ghost predicate HostSafe(h: Host, first: nat) {
    && |h.inbound| <= MAX_INBOUND_PACKETS
    && h.inboundBytes == QueuedBytes(h.inbound) <= MAX_INBOUND_BYTES
    && (forall i :: 0 <= i < |h.inbound| ==> IsEntry(h.inbound[i], first + i))
    && h.nextSequence == (first + |h.inbound|) % U32_LIMIT
  }

  lemma NextNumber(n: nat)
    ensures WrappingNext(n % U32_LIMIT) == (n + 1) % U32_LIMIT
  {
  }

  /** What the worker takes: the next packet of its session, valid, with room for it. */
  predicate Acceptable(h: Host, m: ToWorker) {
    && m.Inbound? && m.session == h.session && m.sequence == h.nextSequence
    && ValidInbound(m.packet.kind, m.packet.bytes)
    && |h.inbound| < 64 && h.inboundBytes + |m.packet.bytes| <= 262144
  }

  lemma EnqueueIsSafe(h: Host, first: nat, m: ToWorker)
    requires HostSafe(h, first) && Acceptable(h, m)
    ensures HostSafe(Enqueue(h, m.sequence, m.packet), first)
  {
    QueuedBytesAppend(h.inbound, Numbered(m.sequence, m.packet));
    NextNumber(first + |h.inbound|);
  }

  lemma DequeueIsSafe(h: Host, first: nat)
    requires HostSafe(h, first) && h.inbound != []
    ensures HostSafe(Dequeue(h), first + 1)
  {
    forall i | 0 <= i < |h.inbound| - 1 ensures IsEntry(h.inbound[1..][i], first + 1 + i) {
      assert IsEntry(h.inbound[i + 1], first + (i + 1));
    }
  }

  /** A pending request goes on exactly for an acceptable packet, ends exactly with the
      answer to its own number, and gives up over anything else. */
  lemma ReactsExactly(h: Host, id: nat, m: ToWorker)
    ensures React(h, id, m) ==
      if Acceptable(h, m) then
        Continue(h.(inbound := h.inbound + [Numbered(h.nextSequence, m.packet)], nextSequence := WrappingNext(h.nextSequence),
                    inboundBytes := h.inboundBytes + |m.packet.bytes|))
      else if m.Reply? && m.session == h.session && m.id == id then Answered(m.status)
      else Broken
  {
  }

  /** The packets of these datagrams, queued behind what was there. */
  ghost predicate QueuedBehind(before: seq<Numbered>, incoming: seq<ToWorker>, n: nat, after: seq<Numbered>) {
    && n <= |incoming| && |after| == |before| + n && after[..|before|] == before
    && forall i :: 0 <= i < n ==> Brings(incoming[i], after[|before| + i])
  }

  predicate Brings(m: ToWorker, e: Numbered) {
    m.Inbound? && e == Numbered(m.sequence, m.packet)
  }

  /** Over any datagrams at all: the worker queues, in order, exactly those acceptable ones
      at the front, keeps its bounds, and is answered by the first other one if that is its
      answer. */
  lemma {:induction false} AwaitIsSafe(h: Host, first: nat, id: nat, incoming: seq<ToWorker>) returns (n: nat)
    requires HostSafe(h, first)
    ensures var (host, used, result) := AwaitReply(h, id, incoming);
      && HostSafe(host, first) && host.session == h.session
      && QueuedBehind(h.inbound, incoming, n, host.inbound)
      && (if result.None? then used == n == |incoming|
          else used == n + 1 <= |incoming| && result.value == React(host, id, incoming[n]) && !result.value.Continue?)
    decreases |incoming|
  {
    n := 0;
    if incoming != [] {
      ReactsExactly(h, id, incoming[0]);
      if Acceptable(h, incoming[0]) {
        EnqueueIsSafe(h, first, incoming[0]);
        var next := React(h, id, incoming[0]).host;
        var rest := AwaitIsSafe(next, first, id, incoming[1..]);
        n := rest + 1;
        QueuedOn(h.inbound, incoming, AwaitReply(next, id, incoming[1..]).0.inbound, rest);
      }
    }
  }

  /** One more packet in front of those queued behind it. */
  lemma QueuedOn(before: seq<Numbered>, incoming: seq<ToWorker>, after: seq<Numbered>, rest: nat)
    requires incoming != [] && incoming[0].Inbound?
    requires QueuedBehind(before + [Numbered(incoming[0].sequence, incoming[0].packet)], incoming[1..], rest, after)
    ensures QueuedBehind(before, incoming, rest + 1, after)
  {
    var k := |before|;
    assert after[..k] == after[..k + 1][..k] == before;
    assert after[k] == after[..k + 1][k];
    forall i | 0 < i < rest + 1 ensures Brings(incoming[i], after[k + i]) {
      assert Brings(incoming[1..][i - 1], after[k + 1 + (i - 1)]);
    }
  }

  // ----- the supervisor, against any worker -----

  ghost predicate BrokerSafe(b: Broker) {
    && b.packets <= MAX_CONTROLLER_PACKETS && b.bytes <= MAX_CONTROLLER_BYTES
    && Outstanding(b) <= MAX_INBOUND_PACKETS
    && b.inboundBytes == TotalBytes(b.inbound) + (if b.inFlight.Some? then b.inFlight.value.1 else 0)
    && b.inboundBytes <= MAX_INBOUND_BYTES
    && (b.inFlight.Some? ==> b.inFlight.value.0 == b.nextSequence)
    && forall p :: p in b.inbound ==> Deliverable(p)
  }

  lemma SendIsSafe(b: Broker, payload: seq<byte>)
    requires BrokerSafe(b)
    ensures BrokerSafe(BrokerSend(b, payload))
  {
    if BrokerStatus(b, payload) == 0 {
      RepliesAreDeliverable(b, payload);
      TotalBytesAppend(b.inbound, AcceptedReply(b, payload));
    }
  }

  lemma ScheduleIsSafe(b: Broker)
    requires BrokerSafe(b)
    ensures BrokerSafe(BrokerSchedule(b))
  {
  }

  /** The messages that end a run: of another session, over the log's room, or an
      acknowledgement of a failure or of anything but the packet in flight. */
  predicate Intolerable(b: Broker, room: nat, session: nat, m: ToSupervisor) {
    || m.session != session
    || (m.Other? && m.log > room)
    || (m.InboundAck? && (m.status != 0 || b.inFlight.None? || b.inFlight.value.0 != m.sequence))
  }

  /** Whatever the worker sends, the broker keeps its bounds and writes only packets that a
      worker accepts, under the number in flight; and it gives up exactly over the
      intolerable. */
  lemma TurnIsSafe(b: Broker, room: nat, session: nat, m: ToSupervisor)
    requires BrokerSafe(b)
    ensures var turn := SupervisorTurn(b, room, session, m);
      && BrokerSafe(turn.broker)
      && (turn.fault <==> Intolerable(b, room, session, m))
      && (turn.fault ==> turn.out == [] && turn.broker == b)
      && (forall o :: o in turn.out ==> o.session == session)
      && (forall o :: o in turn.out && o.Inbound? ==>
            Deliverable(o.packet) && o.sequence == b.nextSequence && turn.broker.inFlight == Some((o.sequence, |o.packet.bytes|)))
      && (m.InboundAck? && !turn.fault ==>
            turn.broker.inFlight.None? && turn.broker.inbound == b.inbound
            && turn.broker.nextSequence == WrappingNext(b.nextSequence))
  {
    if m.session == session && m.Send? {
      SendIsSafe(b, m.payload);
      ScheduleIsSafe(BrokerSend(b, m.payload));
    } else {
      ScheduleIsSafe(b);
    }
  }
}
