/** Delivery told from the guest's side: which of its own payloads were taken, what came
    back for each, and exactly when the broker takes one. */
module DeliveryRuns {
  import opened Common
  import opened HciPackets
  import opened ControllerDelivery
  import opened DeliveryProtocol

  /** What comes back for a payload: for a command, a Command Complete event with its
      opcode and no error; for data, the same packet. */
  predicate Echoes(payload: seq<byte>, reply: Packet) {
    payload != [] &&
    if payload[0] != 0 then reply == Packet(payload[0], payload[1..])
    else
      && |payload| >= 4 && reply.kind == 0 && |reply.bytes| == 6
      && Field8(reply.bytes, 0) == 0x0e && Field8(reply.bytes, 1) == |reply.bytes| - 2
      && Field8(reply.bytes, 2) == 1
      && Field16(reply.bytes, 3) == Field16(payload, 1)
      && Field8(reply.bytes, 5) == 0
  }

  lemma RepliesEcho(b: Broker, payload: seq<byte>)
    requires BrokerStatus(b, payload) == 0
    ensures Echoes(payload, AcceptedReply(b, payload))
  {
  }

  // ----- what the broker counts -----

  function TotalSent(payloads: seq<seq<byte>>): nat {
    TotalSentTo(payloads, |payloads|)
  }

  /** Without the kind byte of each. */
  function TotalSentTo(payloads: seq<seq<byte>>, n: nat): nat
    requires n <= |payloads|
  {
    if n == 0 then 0 else TotalSentTo(payloads, n - 1) + if payloads[n - 1] == [] then 0 else |payloads[n - 1]| - 1
  }

  lemma {:induction false} TotalSentPrefix(payloads: seq<seq<byte>>, more: seq<seq<byte>>, n: nat)
    requires n <= |payloads|
    ensures TotalSentTo(payloads + more, n) == TotalSentTo(payloads, n)
  {
    if n > 0 { TotalSentPrefix(payloads, more, n - 1); }
  }

  /** The broker has counted exactly what it took, and queued the reply to each. */
  ghost predicate Counts(b: Broker, accepted: seq<Packet>, sent: seq<seq<byte>>) {
    && b.packets == |sent| && b.bytes == TotalSent(sent)
    && |accepted| == |sent|
    && forall i :: 0 <= i < |sent| ==> Echoes(sent[i], accepted[i])
  }

  /** The payload that a step makes the broker take. */
  function Takes(s: Sys, step: Step): seq<seq<byte>>
    requires Enabled(s, step)
  {
    if step.SupervisorReceive? && s.toSupervisor[0].Send? && s.toSupervisor[0].session == s.session
       && BrokerStatus(s.broker, s.toSupervisor[0].payload) == 0
    then [s.toSupervisor[0].payload] else []
  }

  lemma SendCounts(b: Broker, accepted: seq<Packet>, sent: seq<seq<byte>>, payload: seq<byte>)
    requires Counts(b, accepted, sent) && BrokerStatus(b, payload) == 0
    ensures Counts(BrokerSend(b, payload), accepted + [AcceptedReply(b, payload)], sent + [payload])
  {
    RepliesEcho(b, payload);
    TotalSentPrefix(sent, [payload], |sent|);
  }

  lemma StepCounts(s: Sys, step: Step, sent: seq<seq<byte>>)
    requires Enabled(s, step) && Counts(s.broker, s.accepted, sent)
    ensures Counts(Apply(s, step).broker, Apply(s, step).accepted, sent + Takes(s, step))
  {
    if Takes(s, step) != [] {
      SendCounts(s.broker, s.accepted, sent, s.toSupervisor[0].payload);
    } else {
      assert sent + [] == sent && s.accepted + [] == s.accepted;
    }
  }

  // ----- what the guest hears -----

  /** The statuses on their way to the worker, and its requests on their way. */
  function Replies(channel: seq<ToWorker>): seq<byte> {
    if channel == [] then [] else (if channel[0].Reply? then [channel[0].status] else []) + Replies(channel[1..])
  }

  function Requests(channel: seq<ToSupervisor>): seq<ToSupervisor> {
    if channel == [] then [] else (if IsSend(channel[0]) then [channel[0]] else []) + Requests(channel[1..])
  }

  predicate IsSend(m: ToSupervisor) {
    m.Send? || m.Other?
  }

  lemma {:induction false} RepliesAppend(a: seq<ToWorker>, b: seq<ToWorker>)
    ensures Replies(a + b) == Replies(a) + Replies(b)
  {
    if a == [] {
      assert a + b == b;
    } else {
      RepliesAppend(a[1..], b);
      assert (a + b)[1..] == a[1..] + b;
      Associate(if a[0].Reply? then [a[0].status] else [], Replies(a[1..]), Replies(b));
    }
  }

  lemma {:induction false} RequestsAppend(a: seq<ToSupervisor>, b: seq<ToSupervisor>)
    ensures Requests(a + b) == Requests(a) + Requests(b)
  {
    if a == [] {
      assert a + b == b;
    } else {
      RequestsAppend(a[1..], b);
      assert (a + b)[1..] == a[1..] + b;
      Associate(if IsSend(a[0]) then [a[0]] else [], Requests(a[1..]), Requests(b));
    }
  }

  lemma RepliesOne(m: ToWorker)
    ensures Replies([m]) == if m.Reply? then [m.status] else []
  {
    assert Replies([m][1..]) == [];
  }

  lemma RequestsOne(m: ToSupervisor)
    ensures Requests([m]) == if IsSend(m) then [m] else []
  {
    assert Requests([m][1..]) == [];
  }

  /** One request is on its way, or its answer is, exactly while the worker waits. */
  ghost predicate OneAnswer(s: Sys) {
    if s.mode.Awaiting? then
      || (Requests(s.toSupervisor) == [] && |Replies(s.toWorker)| == 1)
      || (|Requests(s.toSupervisor)| == 1 && Replies(s.toWorker) == [])
    else s.mode.Killed? || (Requests(s.toSupervisor) == [] && Replies(s.toWorker) == [])
  }

  lemma NoRequests(channel: seq<ToSupervisor>)
    requires |channel| <= 2 && forall m :: m in channel ==> !IsSend(m)
    ensures Requests(channel) == []
  {
    if |channel| >= 1 {
      assert !IsSend(channel[0]);
      if |channel| == 2 {
        assert !IsSend(channel[1]) && channel[1..] == [channel[1]];
        RequestsOne(channel[1]);
      }
    }
  }

  lemma NoReplies(channel: seq<ToWorker>)
    requires |channel| <= 1 && forall m :: m in channel ==> !m.Reply?
    ensures Replies(channel) == []
  {
    if channel != [] {
      assert channel == [channel[0]];
      RepliesOne(channel[0]);
    }
  }

  lemma AnswerIsOne(channel: seq<ToWorker>, session: nat, id: nat, wire: seq<ToWorker>)
    requires AnswerAmong(channel, session, id, wire) && |wire| <= 1 && forall m :: m in wire ==> !m.Reply?
    ensures |Replies(channel)| == 1
  {
    NoReplies(wire);
    if IsAnswer(channel[0], session, id) && channel[1..] == wire {
      assert channel == [channel[0]] + wire;
      RepliesAppend([channel[0]], wire);
      RepliesOne(channel[0]);
    } else {
      assert channel == wire + [channel[|wire|]];
      RepliesAppend(wire, [channel[|wire|]]);
      RepliesOne(channel[|wire|]);
    }
  }

  lemma RequestIsOne(channel: seq<ToSupervisor>, session: nat, id: nat, early: seq<ToSupervisor>)
    requires RequestBehind(channel, session, id, early) && |early| <= 1 && forall m :: m in early ==> !IsSend(m)
    ensures |Requests(channel)| == 1
  {
    NoRequests(early);
    assert channel == early + [channel[|early|]];
    RequestsAppend(early, [channel[|early|]]);
    RequestsOne(channel[|early|]);
  }

  lemma AnswersAreOne(s: Sys)
    requires Inv(s)
    ensures OneAnswer(s)
  {
    var w, p, stale :| InvAt(s, w, p, stale);
    var early := if stale then [Drain(s.session)] else [];
    var wire := if w.OnWire? then [Inbound(s.session, s.broker.nextSequence, p)] else [];
    if s.mode.Awaiting? {
      NoRequests(early);
      NoReplies(wire);
      if s.toSupervisor == early && AnswerAmong(s.toWorker, s.session, s.mode.id, wire) {
        AnswerIsOne(s.toWorker, s.session, s.mode.id, wire);
      } else {
        RequestIsOne(s.toSupervisor, s.session, s.mode.id, early);
      }
    } else if !s.mode.Killed? {
      QuietChannels(s, w, p, stale);
    }
  }

  lemma QuietChannels(s: Sys, w: Whereabouts, p: Packet, stale: bool)
    requires Channels(s, w, p, stale) && !s.mode.Awaiting? && !s.mode.Killed?
    ensures Requests(s.toSupervisor) == [] && Replies(s.toWorker) == []
  {
    NoReplies(s.toWorker);
    if s.mode.Draining? && stale && |s.toSupervisor| == 3 {
      assert s.toSupervisor == [Drain(s.session), s.toSupervisor[1], Drain(s.session)];
      RequestsAppend([Drain(s.session), s.toSupervisor[1]], [Drain(s.session)]);
      NoRequests([Drain(s.session), s.toSupervisor[1]]);
      RequestsOne(Drain(s.session));
      assert [Drain(s.session), s.toSupervisor[1]] + [Drain(s.session)] == s.toSupervisor;
    } else {
      NoRequests(s.toSupervisor);
    }
  }

  /** The payload behind the latest request, if it was a send. */
  function AskedAfter(step: Step, asked: Option<seq<byte>>): Option<seq<byte>> {
    match step
    case GuestSend(payload) => Some(payload)
    case GuestOther(_) => None
    case _ => asked
  }

  /** This step tells the guest that its send was taken. */
  function Hears(s: Sys, step: Step, asked: Option<seq<byte>>): seq<seq<byte>>
    requires Enabled(s, step)
  {
    if step.WorkerReceive? && s.mode.Awaiting? && asked.Some? && React(s.host, s.mode.id, s.toWorker[0]) == Answered(0)
    then [asked.value] else []
  }

  /** The guest's own payloads that it was told were taken, in the order of a run. */
  function Heard(s: Sys, steps: seq<Step>, asked: Option<seq<byte>>): seq<seq<byte>>
    requires IsRun(s, steps)
    decreases |steps|
  {
    if steps == [] then []
    else Hears(s, steps[0], asked) + Heard(Apply(s, steps[0]), steps[1..], AskedAfter(steps[0], asked))
  }

  /** Taken, and the guest does not know it yet. */
  function Owed(s: Sys, asked: Option<seq<byte>>): seq<seq<byte>> {
    if s.mode.Awaiting? && asked.Some? && Replies(s.toWorker) == [0] then [asked.value] else []
  }

  /** The request on its way is the guest's latest. */
  ghost predicate Matches(s: Sys, asked: Option<seq<byte>>) {
    forall m :: m in Requests(s.toSupervisor) ==> asked == if m.Send? then Some(m.payload) else None
  }

  ghost predicate Knows(s: Sys, asked: Option<seq<byte>>, sent: seq<seq<byte>>, heard: seq<seq<byte>>) {
    Matches(s, asked) && sent == heard + Owed(s, asked)
  }

  lemma GuestRequestKnows(s: Sys, step: Step, asked: Option<seq<byte>>)
    requires OneAnswer(s) && Enabled(s, step) && IsGuestRequest(step)
    ensures Matches(Apply(s, step), AskedAfter(step, asked))
    ensures Owed(Apply(s, step), AskedAfter(step, asked)) == [] && Owed(s, asked) == []
  {
    var m := if step.GuestSend? then Send(s.session, s.host.nextRequestId, step.payload)
             else Other(s.session, s.host.nextRequestId, step.log);
    RequestsAppend(s.toSupervisor, [m]);
    RequestsOne(m);
  }

  /** A waiting worker meets the next packet, or its own answer. */
  lemma NothingStrangeArrives(s: Sys)
    requires Inv(s) && s.mode.Awaiting? && s.toWorker != []
    ensures s.toWorker[0].Reply? ==> React(s.host, s.mode.id, s.toWorker[0]) == Answered(s.toWorker[0].status)
    ensures !s.toWorker[0].Reply? ==> React(s.host, s.mode.id, s.toWorker[0]).Continue?
  {
    var w, p, stale :| InvAt(s, w, p, stale);
    if s.toWorker[0].Inbound? {
      WirePacketIsAdmissible(s, p);
    } else {
      assert IsAnswer(s.toWorker[0], s.session, s.mode.id);
    }
  }

  lemma RepliesRest(channel: seq<ToWorker>)
    requires channel != []
    ensures Replies(channel) == (if channel[0].Reply? then [channel[0].status] else []) + Replies(channel[1..])
  {
  }

  /** The answer that is read was owed; a packet changes nothing about it. */
  lemma OwedIsHeard(s: Sys, asked: Option<seq<byte>>)
    requires Inv(s) && OneAnswer(s) && s.mode.Awaiting? && s.toWorker != []
    ensures Owed(s, asked) == Hears(s, WorkerReceive, asked) + Owed(ReceiveReply(s), asked)
  {
    NothingStrangeArrives(s);
    RepliesRest(s.toWorker);
    if s.toWorker[0].Reply? {
      assert Replies(s.toWorker) == [s.toWorker[0].status];
      assert !ReceiveReply(s).mode.Awaiting?;
    } else {
      assert Replies(ReceiveReply(s).toWorker) == Replies(s.toWorker);
      assert ReceiveReply(s).mode == s.mode;
    }
  }

  lemma WorkerReceiveKnows(s: Sys, asked: Option<seq<byte>>, sent: seq<seq<byte>>, heard: seq<seq<byte>>)
    requires Inv(s) && OneAnswer(s) && Enabled(s, WorkerReceive) && Knows(s, asked, sent, heard)
    ensures Knows(Apply(s, WorkerReceive), asked, sent, heard + Hears(s, WorkerReceive, asked))
  {
    assert Apply(s, WorkerReceive).toSupervisor == s.toSupervisor;
    if s.mode.Awaiting? {
      OwedIsHeard(s, asked);
      Associate(heard, Hears(s, WorkerReceive, asked), Owed(ReceiveReply(s), asked));
    } else {
      assert !ReceiveDrained(s).mode.Awaiting?;
      assert heard + [] == heard;
    }
  }

  lemma RequestsRest(channel: seq<ToSupervisor>)
    requires channel != []
    ensures Requests(channel) == (if IsSend(channel[0]) then [channel[0]] else []) + Requests(channel[1..])
  {
  }

  /** A send is answered by one status, whatever is scheduled behind it. */
  lemma SendIsAnswered(s: Sys)
    requires Enabled(s, SupervisorReceive) && s.toSupervisor[0].Send? && s.toSupervisor[0].session == s.session
    ensures Replies(Supervise(s).toWorker) == Replies(s.toWorker) + [BrokerStatus(s.broker, s.toSupervisor[0].payload)]
  {
    var m := s.toSupervisor[0];
    var answer := Reply(s.session, m.id, BrokerStatus(s.broker, m.payload));
    var more := Scheduled(BrokerSend(s.broker, m.payload), s.session);
    RepliesAppend(s.toWorker, [answer] + more);
    RepliesAppend([answer], more);
    RepliesOne(answer);
    NoReplies(more);
  }

  lemma SupervisorSendKnows(s: Sys, asked: Option<seq<byte>>, sent: seq<seq<byte>>, heard: seq<seq<byte>>)
    requires OneAnswer(s) && Enabled(s, SupervisorReceive) && Knows(s, asked, sent, heard)
    requires s.toSupervisor[0].Send? && s.toSupervisor[0].session == s.session && !s.mode.Killed?
    ensures Knows(Supervise(s), asked, sent + Takes(s, SupervisorReceive), heard)
  {
    var m := s.toSupervisor[0];
    RequestsRest(s.toSupervisor);
    SendIsAnswered(s);
    assert m in Requests(s.toSupervisor);
    assert asked == Some(m.payload) && s.mode.Awaiting? && Requests(s.toSupervisor[1..]) == [];
    var status := BrokerStatus(s.broker, m.payload);
    assert Replies(Supervise(s).toWorker) == [status];
    assert status == 0 <==> [status] == [0];
    assert Owed(Supervise(s), asked) == Takes(s, SupervisorReceive) && Owed(s, asked) == [];
    assert heard + [] == heard;
  }

  lemma SupervisorOtherKnows(s: Sys, asked: Option<seq<byte>>, sent: seq<seq<byte>>, heard: seq<seq<byte>>)
    requires OneAnswer(s) && Enabled(s, SupervisorReceive) && Knows(s, asked, sent, heard)
    requires !s.toSupervisor[0].Send? && !s.mode.Killed?
    ensures Knows(Supervise(s), asked, sent, heard)
  {
    var m := s.toSupervisor[0];
    RequestsRest(s.toSupervisor);
    if m.Other? {
      assert m in Requests(s.toSupervisor);
    } else {
      TurnBringsNoReply(s);
    }
  }

  /** An acknowledgement or a DRAIN is answered by no status. */
  lemma TurnBringsNoReply(s: Sys)
    requires Enabled(s, SupervisorReceive) && !IsSend(s.toSupervisor[0])
    ensures Replies(Supervise(s).toWorker) == Replies(s.toWorker)
    ensures s.mode == Supervise(s).mode
  {
    var out := SupervisorTurn(s.broker, s.room, s.session, s.toSupervisor[0]).out;
    RepliesAppend(s.toWorker, out);
    NoReplies(out);
  }

  lemma StepKnows(s: Sys, step: Step, asked: Option<seq<byte>>, sent: seq<seq<byte>>, heard: seq<seq<byte>>)
    requires Inv(s) && Enabled(s, step) && Knows(s, asked, sent, heard)
    ensures Knows(Apply(s, step), AskedAfter(step, asked), sent + Takes(s, step), heard + Hears(s, step, asked))
  {
    AnswersAreOne(s);
    assert sent + [] == sent && heard + [] == heard;
    match step {
      case GuestSend(_) => GuestRequestKnows(s, step, asked);
      case GuestOther(_) => GuestRequestKnows(s, step, asked);
      case GuestReturn =>
      case CallbackReturn(ok) =>
        var m := InboundAck(s.session, s.mode.entry.sequence, if ok then 0 else 1);
        RequestsAppend(s.toSupervisor, [m]);
        RequestsOne(m);
      case WorkerReceive => WorkerReceiveKnows(s, asked, sent, heard);
      case WorkerLoop =>
        RequestsAppend(s.toSupervisor, [Drain(s.session)]);
        RequestsOne(Drain(s.session));
      case SupervisorReceive =>
        MessagesAreOfTheSession(s);
        if s.toSupervisor[0].Send? {
          SupervisorSendKnows(s, asked, sent, heard);
        } else {
          SupervisorOtherKnows(s, asked, sent, heard);
        }
    }
  }

  /** What the guest was told was taken is what the broker took, but for the answer that is
      on its way; and it knows of every packet it was handed. */
  ghost predicate Told(s: Sys, asked: Option<seq<byte>>, sent: seq<seq<byte>>, heard: seq<seq<byte>>) {
    Knows(s, asked, sent, heard) && Counts(s.broker, s.accepted, sent) && |s.delivered| <= |heard|
  }

  lemma DeliveredIsAccepted(s: Sys)
    requires Inv(s)
    ensures s.delivered <= s.accepted && (s.mode.Finished? ==> s.delivered == s.accepted)
  {
    var w, p, stale :| InvAt(s, w, p, stale);
  }

  lemma StepTold(s: Sys, step: Step, asked: Option<seq<byte>>, sent: seq<seq<byte>>, heard: seq<seq<byte>>)
    requires Inv(s) && Enabled(s, step) && Told(s, asked, sent, heard)
    ensures Told(Apply(s, step), AskedAfter(step, asked), sent + Takes(s, step), heard + Hears(s, step, asked))
  {
    StepKnows(s, step, asked, sent, heard);
    StepCounts(s, step, sent);
    StepKeeps(s, step);
    DeliveredIsAccepted(Apply(s, step));
  }

  lemma {:induction false} RunKnows(
    s: Sys, steps: seq<Step>, asked: Option<seq<byte>>, sent: seq<seq<byte>>, heard: seq<seq<byte>>)
    returns (asked': Option<seq<byte>>, sent': seq<seq<byte>>)
    requires Inv(s) && IsRun(s, steps) && Told(s, asked, sent, heard)
    ensures Inv(After(s, steps)) && Told(After(s, steps), asked', sent', heard + Heard(s, steps, asked))
    decreases |steps|
  {
    if steps == [] {
      asked', sent' := asked, sent;
      assert heard + [] == heard;
    } else {
      var step := steps[0];
      StepKeeps(s, step);
      StepTold(s, step, asked, sent, heard);
      asked', sent' := RunKnows(Apply(s, step), steps[1..], AskedAfter(step, asked),
                                sent + Takes(s, step), heard + Hears(s, step, asked));
      Associate(heard, Hears(s, step, asked), Heard(Apply(s, step), steps[1..], AskedAfter(step, asked)));
    }
  }

  /** What the guest was handed answers, one by one and in order, the payloads that it sent
      and was told were taken; when the drain has ended, all of them. */
  lemma DeliveriesEchoTheSends(session: nat, room: nat, steps: seq<Step>)
    requires IsRun(Initial(session, room), steps)
    ensures var s, heard := After(Initial(session, room), steps), Heard(Initial(session, room), steps, None);
      && |s.delivered| <= |heard|
      && (forall i :: 0 <= i < |s.delivered| ==> Echoes(heard[i], s.delivered[i]))
      && (s.mode.Finished? ==> |s.delivered| == |heard|)
  {
    var start := Initial(session, room);
    InitialInv(session, room);
    assert Requests([]) == [];
    var asked, sent := RunKnows(start, steps, None, [], []);
    var s, heard := After(start, steps), Heard(start, steps, None);
    assert [] + heard == heard;
    DeliveredIsAccepted(s);
  }

  // ----- exactly when a payload is taken -----

  function EchoLength(payload: seq<byte>): nat {
    if payload == [] then 0 else if payload[0] == 0 then 6 else |payload| - 1
  }

  function EchoBytes(payloads: seq<seq<byte>>): nat {
    if payloads == [] then 0 else EchoLength(payloads[0]) + EchoBytes(payloads[1..])
  }

  lemma {:induction false} EchoesWeigh(payloads: seq<seq<byte>>, replies: seq<Packet>)
    requires |payloads| == |replies| && forall i :: 0 <= i < |payloads| ==> Echoes(payloads[i], replies[i])
    ensures TotalBytes(replies) == EchoBytes(payloads)
  {
    if payloads != [] {
      assert Echoes(payloads[0], replies[0]);
      EchoesWeigh(payloads[1..], replies[1..]);
    }
  }

  predicate WellFormed(payload: seq<byte>) {
    && payload != [] && OutboundKindOf(payload[0]).Some?
    && ValidOutbound(OutboundKindOf(payload[0]).value, payload[1..])
  }

  /** The status of a send, by what the guest knows: what it was told was taken, how much of
      that it has been handed, and the packet that it is handling now. */
  function Verdict(heard: seq<seq<byte>>, delivered: nat, handling: Option<Numbered>, payload: seq<byte>): byte
    requires delivered <= |heard|
  {
    var held, bytes := if handling.Some? then 1 else 0, if handling.Some? then |handling.value.packet.bytes| else 0;
    if !WellFormed(payload) then 1
    else if |heard| + 1 > MAX_CONTROLLER_PACKETS || TotalSent(heard) + |payload| - 1 > MAX_CONTROLLER_BYTES then 2
    else if |heard| - delivered + held + 1 > MAX_INBOUND_PACKETS then 2
    else if EchoBytes(heard[delivered..]) + bytes + EchoLength(payload) > MAX_INBOUND_BYTES then 2
    else 0
  }

  lemma {:induction false} TotalBytesOf(p: Packet, packets: seq<Packet>)
    ensures TotalBytes([p] + packets) == |p.bytes| + TotalBytes(packets)
  {
    assert ([p] + packets)[1..] == packets;
  }

  /** What the broker holds while a request is pending: the packets not yet handed over,
      and the one that the guest is handling. */
  lemma HeldByTheBroker(s: Sys)
    requires Inv(s) && s.mode.Awaiting?
    ensures |s.delivered| <= |s.accepted|
    ensures Outstanding(s.broker) == |s.accepted| - |s.delivered| + if s.mode.callback.Some? then 1 else 0
    ensures s.broker.inboundBytes ==
      TotalBytes(s.accepted[|s.delivered|..]) + if s.mode.callback.Some? then |s.mode.callback.value.packet.bytes| else 0
  {
    var w, p, stale :| InvAt(s, w, p, stale);
    var rest := s.accepted[|s.delivered|..];
    if w.OnWire? || w.Queued? {
      assert rest == [p] + s.broker.inbound;
      TotalBytesOf(p, s.broker.inbound);
    } else {
      assert rest == s.broker.inbound;
    }
  }

  lemma StatusIsTheVerdict(s: Sys, heard: seq<seq<byte>>, payload: seq<byte>)
    requires Inv(s) && s.mode.Awaiting? && Counts(s.broker, s.accepted, heard)
    ensures |s.delivered| <= |heard|
    ensures BrokerStatus(s.broker, payload) == Verdict(heard, |s.delivered|, s.mode.callback, payload)
  {
    HeldByTheBroker(s);
    EchoesWeigh(heard[|s.delivered|..], s.accepted[|s.delivered|..]);
  }

  /** The supervisor answers a send by exactly this verdict. */
  lemma TakenExactly(session: nat, room: nat, steps: seq<Step>)
    requires IsRun(Initial(session, room), steps)
    requires var s := After(Initial(session, room), steps); Enabled(s, SupervisorReceive) && s.toSupervisor[0].Send?
    ensures var s, heard := After(Initial(session, room), steps), Heard(Initial(session, room), steps, None);
      && s.mode.Awaiting? && |s.delivered| <= |heard|
      && |Supervise(s).toWorker| > |s.toWorker|
      && Supervise(s).toWorker[|s.toWorker|]
         == Reply(session, s.mode.id, Verdict(heard, |s.delivered|, s.mode.callback, s.toSupervisor[0].payload))
  {
    var start := Initial(session, room);
    InitialInv(session, room);
    assert Requests([]) == [];
    var asked, sent := RunKnows(start, steps, None, [], []);
    var s, heard := After(start, steps), Heard(start, steps, None);
    assert [] + heard == heard;
    AnsweredByTheVerdict(s, asked, sent, heard);
    SessionIsKept(start, steps);
  }

  lemma AnsweredByTheVerdict(s: Sys, asked: Option<seq<byte>>, sent: seq<seq<byte>>, heard: seq<seq<byte>>)
    requires Inv(s) && Told(s, asked, sent, heard) && Enabled(s, SupervisorReceive) && s.toSupervisor[0].Send?
    ensures s.mode.Awaiting? && |s.delivered| <= |heard|
    ensures |Supervise(s).toWorker| > |s.toWorker|
    ensures Supervise(s).toWorker[|s.toWorker|]
         == Reply(s.session, s.mode.id, Verdict(heard, |s.delivered|, s.mode.callback, s.toSupervisor[0].payload))
  {
    SendIsAwaited(s, asked);
    assert sent == heard + [] == heard;
    StatusIsTheVerdict(s, heard, s.toSupervisor[0].payload);
  }

  lemma SendIsAwaited(s: Sys, asked: Option<seq<byte>>)
    requires Inv(s) && Enabled(s, SupervisorReceive) && s.toSupervisor[0].Send?
    ensures s.mode.Awaiting? && s.toSupervisor[0].id == s.mode.id && s.toSupervisor[0].session == s.session
    ensures Owed(s, asked) == []
  {
    AnswersAreOne(s);
    assert Requests(s.toSupervisor)[0] == s.toSupervisor[0];
    var w, p, stale :| InvAt(s, w, p, stale);
  }

  lemma {:induction false} SessionIsKept(s: Sys, steps: seq<Step>)
    requires IsRun(s, steps)
    ensures After(s, steps).session == s.session
    decreases |steps|
  {
    if steps != [] { SessionIsKept(Apply(s, steps[0]), steps[1..]); }
  }
}
