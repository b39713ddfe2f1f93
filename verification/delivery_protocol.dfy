/** Worker and supervisor as one transition system over two FIFO datagram
    channels, interleaved freely. Proved for every run: packets reach the guest
    in the order the broker accepted them, without loss or duplicate; the worker
    never meets a packet it must reject; nobody waits on two empty channels; and
    every run ends after a number of steps bounded by the guest's own requests. */
module DeliveryProtocol {
  import opened Common
  import opened HciPackets
  import opened ControllerDelivery

  /** Where the worker's control is. A request is issued by the guest's main
      program (no callback) or from inside the delivery of a packet. */
  datatype Mode =
    | Running
    | Awaiting(id: nat, callback: Option<Numbered>)
    | Looping
    | Draining
    | Handling(entry: Numbered)
    | Finished
    | Rejected
    | Crashed
    | Killed

  /** `room` is what the log may still take; `accepted` and `delivered` are the history the
      theorems speak about. */
  datatype Sys = Sys(
    session: nat,
    host: Host,
    mode: Mode,
    broker: Broker,
    room: nat,
    toSupervisor: seq<ToSupervisor>,
    toWorker: seq<ToWorker>,
    supervisorFault: bool,
    accepted: seq<Packet>,
    delivered: seq<Packet>)

  datatype Step =
    | GuestSend(payload: seq<byte>)
    | GuestOther(log: nat)
    | GuestReturn
    | CallbackReturn(accepted: bool)
    | WorkerReceive
    | WorkerLoop
    | SupervisorReceive

  function Initial(session: nat, room: nat): Sys {
    Sys(session, Host(session, 0, 0, 0, []), Running, IDLE_BROKER, room, [], [], false, [], [])
  }

  predicate Enabled(s: Sys, step: Step) {
    match step
    case GuestSend(payload) => (s.mode.Running? || s.mode.Handling?) && 1 <= |payload| <= MAX_OUTBOUND_HCI_PACKET + 1
    case GuestOther(_) => s.mode.Running? || s.mode.Handling?
    case GuestReturn => s.mode.Running?
    case CallbackReturn(_) => s.mode.Handling?
    case WorkerReceive => (s.mode.Awaiting? || s.mode.Draining?) && s.toWorker != []
    case WorkerLoop => s.mode.Looping?
    case SupervisorReceive => s.toSupervisor != [] && !s.supervisorFault
  }

  /** The guest, in its main program or in a callback, issues a correlated request. */
  function Request(s: Sys, message: ToSupervisor): Sys
    requires s.mode.Running? || s.mode.Handling?
  {
    s.(host := s.host.(nextRequestId := WrappingNext(s.host.nextRequestId)),
       mode := Awaiting(s.host.nextRequestId, if s.mode.Handling? then Some(s.mode.entry) else None),
       toSupervisor := s.toSupervisor + [message])
  }

  function ReceiveReply(s: Sys): Sys
    requires s.mode.Awaiting? && s.toWorker != []
  {
    var rest := s.(toWorker := s.toWorker[1..]);
    match React(s.host, s.mode.id, s.toWorker[0])
    case Continue(host) => rest.(host := host)
    case Answered(_) =>
      rest.(mode := if s.mode.callback.Some? then Handling(s.mode.callback.value) else Running)
    case Broken => rest.(mode := Crashed)
  }

  function ReceiveDrained(s: Sys): Sys
    requires s.mode.Draining? && s.toWorker != []
  {
    var rest := s.(toWorker := s.toWorker[1..]);
    match s.toWorker[0]
    case Inbound(session, sequence, packet) =>
      if EnqueueStatus(s.host, session, sequence, packet) != 0 then rest.(mode := Crashed)
      else rest.(mode := Looping, host := Enqueue(s.host, sequence, packet))
    case DrainDone(session) => rest.(mode := if session == s.session then Finished else Crashed)
    case Reply(_, _, _) => rest.(mode := Crashed)
  }

  function Loop(s: Sys): Sys
    requires s.mode.Looping?
  {
    if s.host.inbound == [] then
      s.(mode := Draining, toSupervisor := s.toSupervisor + [Drain(s.session)])
    else
      var entry := s.host.inbound[0];
      s.(mode := Handling(entry), host := Dequeue(s.host), delivered := s.delivered + [entry.packet])
  }

  /** A request to log more than there is room for: the supervisor kills the worker. */
  predicate Overlogs(s: Sys)
    requires s.toSupervisor != []
  {
    var m := s.toSupervisor[0];
    m.Other? && m.session == s.session && m.log > s.room
  }

  function LogOf(m: ToSupervisor): nat {
    if m.Other? then m.log else 0
  }

  function Supervise(s: Sys): Sys
    requires s.toSupervisor != []
  {
    var m := s.toSupervisor[0];
    var turn := SupervisorTurn(s.broker, s.room, s.session, m);
    var news := if m.Send? && m.session == s.session && BrokerStatus(s.broker, m.payload) == 0
                then [AcceptedReply(s.broker, m.payload)] else [];
    s.(mode := if Overlogs(s) then Killed else s.mode, room := if LogOf(m) <= s.room then s.room - LogOf(m) else s.room,
       toSupervisor := s.toSupervisor[1..], broker := turn.broker, toWorker := s.toWorker + turn.out,
       supervisorFault := turn.fault, accepted := s.accepted + news)
  }

  function Apply(s: Sys, step: Step): Sys
    requires Enabled(s, step)
  {
    match step
    case GuestSend(payload) => Request(s, Send(s.session, s.host.nextRequestId, payload))
    case GuestOther(log) => Request(s, Other(s.session, s.host.nextRequestId, log))
    case GuestReturn => s.(mode := Looping)
    case CallbackReturn(ok) =>
      s.(mode := if ok then Looping else Rejected,
         toSupervisor := s.toSupervisor + [InboundAck(s.session, s.mode.entry.sequence, if ok then 0 else 1)])
    case WorkerReceive => if s.mode.Awaiting? then ReceiveReply(s) else ReceiveDrained(s)
    case WorkerLoop => Loop(s)
    case SupervisorReceive => Supervise(s)
  }

  /** A run is a list of steps, each enabled where it is taken. */
  predicate IsRun(s: Sys, steps: seq<Step>)
    decreases |steps|
  {
    steps == [] || (Enabled(s, steps[0]) && IsRun(Apply(s, steps[0]), steps[1..]))
  }

  function After(s: Sys, steps: seq<Step>): Sys
    requires IsRun(s, steps)
    decreases |steps|
  {
    if steps == [] then s else After(Apply(s, steps[0]), steps[1..])
  }

  // ----- the inductive invariant -----

  /** The whereabouts of the one packet the broker calls in flight. */
  datatype Whereabouts = Nowhere | OnWire | Queued | WithGuest | AckOnWire

  function TotalBytes(packets: seq<Packet>): nat {
    if packets == [] then 0 else |packets[0].bytes| + TotalBytes(packets[1..])
  }

  lemma {:induction false} TotalBytesAppend(packets: seq<Packet>, p: Packet)
    ensures TotalBytes(packets + [p]) == TotalBytes(packets) + |p.bytes|
  {
    if packets != [] {
      TotalBytesAppend(packets[1..], p);
      assert (packets + [p])[1..] == packets[1..] + [p];
    }
  }

  predicate Deliverable(p: Packet) {
    ValidInbound(p.kind, p.bytes) && |p.bytes| <= MAX_OUTBOUND_HCI_PACKET
  }

  /** The in-flight packet and the packets already handed over before it. */
  ghost predicate Flies(s: Sys, w: Whereabouts, p: Packet) {
    match w
    case Nowhere => false
    case OnWire => s.accepted == s.delivered + [p] + s.broker.inbound
    case Queued => s.accepted == s.delivered + [p] + s.broker.inbound
    case WithGuest => s.accepted == s.delivered + s.broker.inbound && s.delivered != [] && p == s.delivered[|s.delivered| - 1]
    case AckOnWire => s.accepted == s.delivered + s.broker.inbound && s.delivered != [] && p == s.delivered[|s.delivered| - 1]
  }

  ghost predicate Accounts(s: Sys, w: Whereabouts, p: Packet) {
    var b, h := s.broker, s.host;
    && h.session == s.session
    && (forall q :: q in s.accepted ==> Deliverable(q))
    && Outstanding(b) <= MAX_INBOUND_PACKETS
    && b.inboundBytes == TotalBytes(b.inbound) + (if w.Nowhere? then 0 else |p.bytes|)
    && b.inboundBytes <= MAX_INBOUND_BYTES
    && b.inFlight == (if w.Nowhere? then None else Some((b.nextSequence, |p.bytes|)))
    && (if w.Nowhere? then s.accepted == s.delivered + b.inbound else Flies(s, w, p))
    && h.nextSequence == (if w.Nowhere? || w.OnWire? then b.nextSequence else WrappingNext(b.nextSequence))
    && h.inbound == (if w.Queued? then [Numbered(b.nextSequence, p)] else [])
    && h.inboundBytes == (if w.Queued? then |p.bytes| else 0)
  }

  /** Exactly what each channel holds in each mode. `stale` says that a DRAIN which
      an earlier packet already answered is still unread in front of the rest. */
  ghost predicate Channels(s: Sys, w: Whereabouts, p: Packet, stale: bool) {
    var seqno := s.broker.nextSequence;
    var early := if stale then [Drain(s.session)] else [];
    var wire := if w.OnWire? then [Inbound(s.session, seqno, p)] else [];
    var ack := if w.AckOnWire? then [InboundAck(s.session, seqno, 0)] else [];
    && (stale ==> w.Queued? || w.WithGuest? || w.AckOnWire?)
    && (s.supervisorFault ==> s.mode.Rejected? || s.mode.Killed?)
    && match s.mode
       case Running =>
         !stale && !w.WithGuest? && !w.AckOnWire? && s.toSupervisor == [] && s.toWorker == wire
       case Awaiting(id, callback) =>
         && (match callback
             case None => !stale && !w.WithGuest? && !w.AckOnWire?
             case Some(entry) => w.WithGuest? && entry == Numbered(seqno, p))
         && (|| (s.toSupervisor == early && AnswerAmong(s.toWorker, s.session, id, wire))
             || (RequestBehind(s.toSupervisor, s.session, id, early) && s.toWorker == wire))
       case Looping =>
         !w.WithGuest? && s.toSupervisor == early + ack && s.toWorker == wire
       case Draining =>
         && !w.Queued? && !w.WithGuest?
         && (|| (s.toSupervisor == early + ack + [Drain(s.session)] && s.toWorker == wire)
             || (w.OnWire? && s.toSupervisor == [] && s.toWorker == wire)
             || (w.Nowhere? && s.broker.inbound == [] && s.toSupervisor == [] && s.toWorker == [DrainDone(s.session)]))
       case Handling(entry) =>
         w.WithGuest? && entry == Numbered(seqno, p) && s.toSupervisor == early && s.toWorker == []
       case Finished =>
         w.Nowhere? && s.broker.inbound == [] && s.toSupervisor == [] && s.toWorker == []
       case Rejected =>
         && w.AckOnWire? && s.toWorker == []
         && s.toSupervisor == (if s.supervisorFault then [] else early + [InboundAck(s.session, seqno, 1)])
       case Crashed => false
       case Killed => s.supervisorFault
  }

  predicate IsRequest(m: ToSupervisor, session: nat, id: nat) {
    (m.Send? || m.Other?) && m.session == session && m.id == id
  }

  predicate RequestBehind(channel: seq<ToSupervisor>, session: nat, id: nat, early: seq<ToSupervisor>) {
    |channel| == |early| + 1 && channel[..|early|] == early && IsRequest(channel[|early|], session, id)
  }

  predicate IsAnswer(m: ToWorker, session: nat, id: nat) {
    m.Reply? && m.session == session && m.id == id
  }

  predicate AnswerAmong(channel: seq<ToWorker>, session: nat, id: nat, wire: seq<ToWorker>) {
    && |channel| == |wire| + 1
    && (|| (IsAnswer(channel[0], session, id) && channel[1..] == wire)
        || (IsAnswer(channel[|wire|], session, id) && channel[..|wire|] == wire))
  }

  ghost predicate InvAt(s: Sys, w: Whereabouts, p: Packet, stale: bool) {
    Accounts(s, w, p) && Channels(s, w, p, stale)
  }

  ghost predicate Inv(s: Sys) {
    exists w, p, stale :: InvAt(s, w, p, stale)
  }

  lemma InitialInv(session: nat, room: nat)
    ensures Inv(Initial(session, room))
  {
    assert InvAt(Initial(session, room), Nowhere, Packet(0, []), false);
  }

  /** Every reply the broker queues passes the worker's own validation. */
  lemma RepliesAreDeliverable(b: Broker, payload: seq<byte>)
    requires BrokerStatus(b, payload) == 0
    ensures Deliverable(AcceptedReply(b, payload))
  {
    var kind, packet := OutboundKindOf(payload[0]).value, payload[1..];
    var reply := ReplyTo(kind, packet);
    if kind.Command? {
      assert ([H4_EVENT] + reply.bytes)[2] == 4;
    }
  }

  lemma RequestStepKeeps(s: Sys, message: ToSupervisor, w: Whereabouts, p: Packet, stale: bool)
    requires InvAt(s, w, p, stale) && (s.mode.Running? || s.mode.Handling?)
    requires IsRequest(message, s.session, s.host.nextRequestId)
    ensures InvAt(Request(s, message), w, p, stale)
  {
    assert Accounts(Request(s, message), w, p);
    assert (s.toSupervisor + [message])[..|s.toSupervisor|] == s.toSupervisor;
    if s.mode.Running? {
      assert RequestBehind([] + [message], s.session, s.host.nextRequestId, []);
    }
  }

  lemma CallbackStepKeeps(s: Sys, ok: bool, w: Whereabouts, p: Packet, stale: bool)
    requires InvAt(s, w, p, stale) && Enabled(s, CallbackReturn(ok))
    ensures InvAt(Apply(s, CallbackReturn(ok)), AckOnWire, p, stale)
  {
  }

  /** The packet on the wire is the next one, well-formed and within quota: none of
      the worker's rejections applies to it. */
  lemma WirePacketIsAdmissible(s: Sys, p: Packet)
    requires Accounts(s, OnWire, p)
    ensures EnqueueStatus(s.host, s.session, s.broker.nextSequence, p) == 0
    ensures Accounts(s.(host := Enqueue(s.host, s.broker.nextSequence, p)), Queued, p)
  {
    assert p == s.accepted[|s.delivered|];
    assert p in s.accepted;
  }

  /** A waiting worker queues the packet on the wire and goes on waiting. */
  lemma PacketArrives(s: Sys, p: Packet, stale: bool)
    requires InvAt(s, OnWire, p, stale) && s.mode.Awaiting? && s.toWorker != [] && s.toWorker[0].Inbound?
    ensures InvAt(ReceiveReply(s), Queued, p, stale)
  {
    WirePacketIsAdmissible(s, p);
    assert s.toWorker[0] == Inbound(s.session, s.broker.nextSequence, p);
    assert ReceiveReply(s) == s.(toWorker := s.toWorker[1..], host := Enqueue(s.host, s.broker.nextSequence, p));
  }

  lemma AnswerArrives(s: Sys, w: Whereabouts, p: Packet, stale: bool)
    requires InvAt(s, w, p, stale) && s.mode.Awaiting? && s.toWorker != [] && IsAnswer(s.toWorker[0], s.session, s.mode.id)
    ensures InvAt(ReceiveReply(s), w, p, stale)
  {
  }

  lemma ReplyStepKeeps(s: Sys, w: Whereabouts, p: Packet, stale: bool) returns (w': Whereabouts)
    requires InvAt(s, w, p, stale) && s.mode.Awaiting? && s.toWorker != []
    ensures InvAt(ReceiveReply(s), w', p, stale)
  {
    if s.toWorker[0].Inbound? {
      assert w.OnWire?;
      PacketArrives(s, p, stale);
      w' := Queued;
    } else {
      assert IsAnswer(s.toWorker[0], s.session, s.mode.id);
      AnswerArrives(s, w, p, stale);
      w' := w;
    }
  }

  lemma DrainedStepKeeps(s: Sys, w: Whereabouts, p: Packet, stale: bool) returns (w': Whereabouts, stale': bool)
    requires InvAt(s, w, p, stale) && s.mode.Draining? && s.toWorker != []
    ensures InvAt(ReceiveDrained(s), w', p, stale')
  {
    if w.OnWire? {
      WirePacketIsAdmissible(s, p);
      w', stale' := Queued, s.toSupervisor != [];
    } else {
      w', stale' := w, stale;
    }
  }

  lemma LoopStepKeeps(s: Sys, w: Whereabouts, p: Packet, stale: bool) returns (w': Whereabouts)
    requires InvAt(s, w, p, stale) && Enabled(s, WorkerLoop)
    ensures InvAt(Apply(s, WorkerLoop), w', p, stale)
  {
    if s.host.inbound == [] {
      w' := w;
    } else {
      w' := WithGuest;
    }
  }

  /** Queueing an accepted reply keeps the accounts. */
  lemma SendKeeps(s: Sys, w: Whereabouts, p: Packet, payload: seq<byte>)
    requires Accounts(s, w, p)
    requires BrokerStatus(s.broker, payload) == 0
    ensures Accounts(s.(broker := BrokerSend(s.broker, payload),
                        accepted := s.accepted + [AcceptedReply(s.broker, payload)]), w, p)
  {
    var reply := AcceptedReply(s.broker, payload);
    RepliesAreDeliverable(s.broker, payload);
    TotalBytesAppend(s.broker.inbound, reply);
    if !w.Nowhere? {
      assert s.delivered + [p] + s.broker.inbound + [reply] == s.delivered + [p] + (s.broker.inbound + [reply]);
    }
    assert s.delivered + s.broker.inbound + [reply] == s.delivered + (s.broker.inbound + [reply]);
  }

  /** Putting the next reply in flight keeps the accounts. */
  lemma ScheduleKeeps(s: Sys, w: Whereabouts, p: Packet) returns (w': Whereabouts, p': Packet)
    requires Accounts(s, w, p)
    ensures Accounts(s.(broker := BrokerSchedule(s.broker)), w', p')
    ensures if Schedules(s.broker)
            then w'.OnWire? && w.Nowhere? && Scheduled(s.broker, s.session) == [Inbound(s.session, s.broker.nextSequence, p')]
            else w' == w && p' == p && Scheduled(s.broker, s.session) == []
  {
    if Schedules(s.broker) {
      w', p' := OnWire, s.broker.inbound[0];
      assert s.broker.inbound == [p'] + s.broker.inbound[1..];
      assert s.delivered + s.broker.inbound == s.delivered + [p'] + s.broker.inbound[1..];
    } else {
      w', p' := w, p;
    }
  }

  /** An answer behind the packet already on the wire, or ahead of the one it releases. */
  lemma AnswerLands(wire: seq<ToWorker>, session: nat, id: nat, status: byte, news: seq<ToWorker>)
    requires wire == [] || news == []
    ensures AnswerAmong(wire + ([Reply(session, id, status)] + news), session, id, wire + news)
  {
    var channel := wire + ([Reply(session, id, status)] + news);
    if wire == [] {
      assert channel[1..] == wire + news;
    } else {
      assert channel[..|wire|] == wire + news;
    }
  }

  lemma OtherStepKeeps(s: Sys, w: Whereabouts, p: Packet, stale: bool)
    requires InvAt(s, w, p, stale) && Enabled(s, SupervisorReceive) && s.toSupervisor[0].Other?
    ensures InvAt(Apply(s, SupervisorReceive), w, p, false)
  {
    var m := s.toSupervisor[0];
    assert !stale && s.mode.Awaiting? && s.toSupervisor == [m];
    if !Overlogs(s) {
      AnswerLands(s.toWorker, s.session, m.id, 0, []);
      assert [Reply(s.session, m.id, 0)] + [] == [Reply(s.session, m.id, 0)];
    }
    assert s.accepted + [] == s.accepted && s.toWorker + [] == s.toWorker;
  }

  /** The system after the broker has taken a packet, accepted or not. */
  function Sent(s: Sys, payload: seq<byte>): Sys {
    s.(broker := BrokerSend(s.broker, payload),
       accepted := s.accepted + if BrokerStatus(s.broker, payload) == 0 then [AcceptedReply(s.broker, payload)] else [])
  }

  lemma SentAccounts(s: Sys, w: Whereabouts, p: Packet, payload: seq<byte>)
    requires Accounts(s, w, p)
    ensures Accounts(Sent(s, payload), w, p)
  {
    if BrokerStatus(s.broker, payload) == 0 {
      SendKeeps(s, w, p, payload);
    } else {
      assert Sent(s, payload) == s;
    }
  }

  lemma SendStepKeeps(s: Sys, w: Whereabouts, p: Packet, stale: bool) returns (w': Whereabouts, p': Packet)
    requires InvAt(s, w, p, stale) && Enabled(s, SupervisorReceive) && s.toSupervisor[0].Send?
    ensures InvAt(Apply(s, SupervisorReceive), w', p', false)
  {
    var m, s' := s.toSupervisor[0], Supervise(s);
    assert !stale && s.mode.Awaiting? && s.toSupervisor == [m];
    var sent := Sent(s, m.payload);
    SentAccounts(s, w, p, m.payload);
    assert s'.accepted == sent.accepted;
    w', p' := ScheduleKeeps(sent, w, p);
    AnswerLands(s.toWorker, s.session, m.id, BrokerStatus(s.broker, m.payload), Scheduled(sent.broker, s.session));
    assert Accounts(s', w', p');
  }

  lemma AckStepKeeps(s: Sys, w: Whereabouts, p: Packet, stale: bool) returns (w': Whereabouts)
    requires InvAt(s, w, p, stale) && Enabled(s, SupervisorReceive)
    requires s.toSupervisor[0].InboundAck?
    ensures InvAt(Apply(s, SupervisorReceive), w', p, false)
  {
    assert w.AckOnWire? && !stale;
    w' := if s.mode.Rejected? then w else Nowhere;
  }

  lemma DrainStepKeeps(s: Sys, w: Whereabouts, p: Packet, stale: bool) returns (w': Whereabouts, p': Packet)
    requires InvAt(s, w, p, stale) && Enabled(s, SupervisorReceive)
    requires s.toSupervisor[0].Drain?
    ensures InvAt(Apply(s, SupervisorReceive), w', p', false)
  {
    w', p' := ScheduleKeeps(s, w, p);
    if stale {
      assert s.toSupervisor == [Drain(s.session)] + s.toSupervisor[1..];
    } else {
      assert s.mode.Draining? && !w.AckOnWire? && s.toSupervisor == [Drain(s.session)];
    }
  }

  lemma StepKeeps(s: Sys, step: Step)
    requires Inv(s) && Enabled(s, step)
    ensures Inv(Apply(s, step))
  {
    var w, p, stale :| InvAt(s, w, p, stale);
    match step {
      case GuestSend(payload) => RequestStepKeeps(s, Send(s.session, s.host.nextRequestId, payload), w, p, stale);
      case GuestOther(log) => RequestStepKeeps(s, Other(s.session, s.host.nextRequestId, log), w, p, stale);
      case GuestReturn => assert InvAt(Apply(s, step), w, p, stale);
      case CallbackReturn(ok) => CallbackStepKeeps(s, ok, w, p, stale);
      case WorkerReceive =>
        if s.mode.Awaiting? {
          var w' := ReplyStepKeeps(s, w, p, stale);
        } else {
          var w', stale' := DrainedStepKeeps(s, w, p, stale);
        }
      case WorkerLoop => var w' := LoopStepKeeps(s, w, p, stale);
      case SupervisorReceive =>
        var m := s.toSupervisor[0];
        if m.InboundAck? {
          var w' := AckStepKeeps(s, w, p, stale);
        } else if m.Drain? {
          var w', p' := DrainStepKeeps(s, w, p, stale);
        } else if m.Other? {
          OtherStepKeeps(s, w, p, stale);
        } else {
          var w', p' := SendStepKeeps(s, w, p, stale);
        }
    }
  }

  lemma {:induction false} RunKeeps(s: Sys, steps: seq<Step>)
    requires Inv(s) && IsRun(s, steps)
    ensures Inv(After(s, steps))
    decreases |steps|
  {
    if steps != [] {
      StepKeeps(s, steps[0]);
      RunKeeps(Apply(s, steps[0]), steps[1..]);
    }
  }

  // ----- what every run guarantees -----

  /** In-order, loss-free, duplicate-free delivery: what the guest has seen is a
      prefix of what the broker accepted, short by exactly the packets still owned
      by the broker and at most one on its way. When the drain ends nothing is left. */
  lemma DeliveryIsAnOrderedPrefix(session: nat, room: nat, steps: seq<Step>)
    requires IsRun(Initial(session, room), steps)
    ensures var s := After(Initial(session, room), steps);
      && s.delivered <= s.accepted
      && |s.accepted| - |s.delivered| <= |s.broker.inbound| + 1
      && |s.broker.inbound| <= |s.accepted|
      && s.broker.inbound == s.accepted[|s.accepted| - |s.broker.inbound|..]
      && (s.mode.Finished? ==> s.delivered == s.accepted)
  {
    InitialInv(session, room);
    RunKeeps(Initial(session, room), steps);
    var s := After(Initial(session, room), steps);
    var w, p, stale :| InvAt(s, w, p, stale);
  }

  /** What the guest asked to log in a run. */
  function Logged(steps: seq<Step>): nat {
    if steps == [] then 0 else LoggedBy(steps[0]) + Logged(steps[1..])
  }

  function LoggedBy(step: Step): nat {
    if step.GuestOther? then step.log else 0
  }

  function PendingLog(channel: seq<ToSupervisor>): nat {
    if channel == [] then 0 else LogOf(channel[0]) + PendingLog(channel[1..])
  }

  lemma {:induction false} PendingLogAppend(channel: seq<ToSupervisor>, m: ToSupervisor)
    ensures PendingLog(channel + [m]) == PendingLog(channel) + LogOf(m)
  {
    if channel == [] {
      assert [m][1..] == [];
      assert channel + [m] == [m];
    } else {
      PendingLogAppend(channel[1..], m);
      assert (channel + [m])[1..] == channel[1..] + [m];
    }
  }

  /** Room used up and requests on their way add up to no more than was asked to be
      logged; a kill means that more was asked than there was room. */
  ghost predicate LogAccounts(s: Sys, room: nat, asked: nat) {
    if s.mode.Killed? then asked > room else asked + s.room >= room + PendingLog(s.toSupervisor)
  }

  lemma StepLogs(s: Sys, step: Step, room: nat, asked: nat)
    requires Enabled(s, step) && LogAccounts(s, room, asked) && Inv(s)
    ensures LogAccounts(Apply(s, step), room, asked + LoggedBy(step))
  {
    match step {
      case GuestSend(payload) =>
        PendingLogAppend(s.toSupervisor, Send(s.session, s.host.nextRequestId, payload));
      case GuestOther(log) =>
        PendingLogAppend(s.toSupervisor, Other(s.session, s.host.nextRequestId, log));
      case GuestReturn =>
      case CallbackReturn(ok) =>
        PendingLogAppend(s.toSupervisor, InboundAck(s.session, s.mode.entry.sequence, if ok then 0 else 1));
      case WorkerReceive =>
      case WorkerLoop =>
        PendingLogAppend(s.toSupervisor, Drain(s.session));
      case SupervisorReceive => TurnLogs(s, room, asked);
    }
  }

  lemma MessagesAreOfTheSession(s: Sys)
    requires Inv(s) && s.toSupervisor != [] && !s.supervisorFault
    ensures s.toSupervisor[0].session == s.session && !s.mode.Killed?
  {
    var w, p, stale :| InvAt(s, w, p, stale);
  }

  lemma TurnLogs(s: Sys, room: nat, asked: nat)
    requires Inv(s) && Enabled(s, SupervisorReceive) && LogAccounts(s, room, asked)
    ensures LogAccounts(Supervise(s), room, asked)
  {
    MessagesAreOfTheSession(s);
  }

  lemma {:induction false} RunLogs(s: Sys, steps: seq<Step>, room: nat, asked: nat)
    requires IsRun(s, steps) && LogAccounts(s, room, asked) && Inv(s)
    ensures LogAccounts(After(s, steps), room, asked + Logged(steps))
    decreases |steps|
  {
    if steps != [] {
      StepLogs(s, steps[0], room, asked);
      StepKeeps(s, steps[0]);
      RunLogs(Apply(s, steps[0]), steps[1..], room, asked + LoggedBy(steps[0]));
    }
  }

  /** No rejection of the worker is reachable, it never holds two packets, and the
      supervisor ends a run only because the guest itself rejected a packet or asked to
      log more than the log has room for. */
  lemma NoSpuriousFailure(session: nat, room: nat, steps: seq<Step>)
    requires IsRun(Initial(session, room), steps)
    ensures var s := After(Initial(session, room), steps);
      && !s.mode.Crashed?
      && |s.host.inbound| <= 1
      && (s.mode.Handling? ==> s.host.inbound == [])
      && (s.supervisorFault ==> s.mode.Rejected? || s.mode.Killed?)
      && (s.mode.Killed? ==> Logged(steps) > room)
      && Outstanding(s.broker) <= MAX_INBOUND_PACKETS
      && TotalBytes(s.broker.inbound) <= s.broker.inboundBytes <= MAX_INBOUND_BYTES
  {
    InitialInv(session, room);
    RunKeeps(Initial(session, room), steps);
    var s := After(Initial(session, room), steps);
    var w, p, stale :| InvAt(s, w, p, stale);
    RunLogs(Initial(session, room), steps, room, 0);
  }

  /** The supervisor reads everything the worker has written so far. */
  function CatchUp(s: Sys): Sys
    decreases |s.toSupervisor|
  {
    if Enabled(s, SupervisorReceive) then CatchUp(Supervise(s)) else s
  }

  lemma {:induction false} CaughtUpDrain(s: Sys)
    requires Inv(s) && s.mode.Draining?
    ensures |CatchUp(s).toWorker| == 1 && !CatchUp(s).toWorker[0].Reply?
    decreases |s.toSupervisor|
  {
    var w, p, stale :| InvAt(s, w, p, stale);
    if Enabled(s, SupervisorReceive) {
      assert !s.toSupervisor[0].Other?;
      StepKeeps(s, SupervisorReceive);
      CaughtUpDrain(Supervise(s));
    }
  }

  /** A draining worker is answered by exactly one message, a packet or the end of
      the drain, whether it was already on its way or the DRAIN brings it. */
  lemma DrainIsAnsweredOnce(session: nat, room: nat, steps: seq<Step>)
    requires IsRun(Initial(session, room), steps) && After(Initial(session, room), steps).mode.Draining?
    ensures var s := After(Initial(session, room), steps);
      && |s.toWorker| <= 1
      && |CatchUp(s).toWorker| == 1
      && !CatchUp(s).toWorker[0].Reply?
  {
    InitialInv(session, room);
    RunKeeps(Initial(session, room), steps);
    var s := After(Initial(session, room), steps);
    var w, p, stale :| InvAt(s, w, p, stale);
    CaughtUpDrain(s);
  }

  predicate Ended(s: Sys) {
    s.mode.Finished? || s.mode.Killed? || (s.mode.Rejected? && s.supervisorFault)
  }

  predicate IsGuestRequest(step: Step) {
    step.GuestSend? || step.GuestOther?
  }

  /** Whoever waits has a message coming: some step that is not a fresh guest
      request is always possible until the run has ended. */
  lemma NoDeadlock(session: nat, room: nat, steps: seq<Step>)
    requires IsRun(Initial(session, room), steps)
    ensures var s := After(Initial(session, room), steps);
      Ended(s) || exists step :: Enabled(s, step) && !IsGuestRequest(step)
  {
    InitialInv(session, room);
    RunKeeps(Initial(session, room), steps);
    var s := After(Initial(session, room), steps);
    var w, p, stale :| InvAt(s, w, p, stale);
    match s.mode {
      case Running => assert Enabled(s, GuestReturn) && !IsGuestRequest(GuestReturn);
      case Handling(_) => assert Enabled(s, CallbackReturn(true)) && !IsGuestRequest(CallbackReturn(true));
      case Looping => assert Enabled(s, WorkerLoop) && !IsGuestRequest(WorkerLoop);
      case Awaiting(_, _) =>
        assert Enabled(s, WorkerReceive) || Enabled(s, SupervisorReceive);
        assert !IsGuestRequest(WorkerReceive) && !IsGuestRequest(SupervisorReceive);
      case Draining =>
        assert Enabled(s, WorkerReceive) || Enabled(s, SupervisorReceive);
        assert !IsGuestRequest(WorkerReceive) && !IsGuestRequest(SupervisorReceive);
      case Rejected =>
        assert s.supervisorFault || Enabled(s, SupervisorReceive);
        assert !IsGuestRequest(SupervisorReceive);
      case Finished =>
      case Killed =>
      case Crashed =>
    }
  }

  // ----- termination: a potential that every other step consumes -----

  function ModeWeight(mode: Mode): nat {
    match mode
    case Running => 4
    case Awaiting(_, callback) => if callback.Some? then 5 else 4
    case Looping => 3
    case Handling(_) => 5
    case _ => 0
  }

  function SupervisorWork(channel: seq<ToSupervisor>): nat {
    if channel == [] then 0 else
    SupervisorWork(channel[1..]) + (if channel[0].InboundAck? then 1 else if channel[0].Drain? then 2 else 9)
  }

  function WorkerWork(channel: seq<ToWorker>): nat {
    if channel == [] then 0
    else WorkerWork(channel[1..]) + if channel[0].Inbound? then 7 else 1
  }

  function Potential(s: Sys): nat {
    ModeWeight(s.mode) + SupervisorWork(s.toSupervisor) + WorkerWork(s.toWorker)
    + 7 * |s.broker.inbound| + 3 * |s.host.inbound|
  }

  lemma {:induction false} SupervisorWorkAppend(channel: seq<ToSupervisor>, m: ToSupervisor)
    ensures SupervisorWork(channel + [m]) == SupervisorWork(channel) + SupervisorWork([m])
  {
    if channel != [] {
      SupervisorWorkAppend(channel[1..], m);
      assert (channel + [m])[1..] == channel[1..] + [m];
    } else {
      assert channel + [m] == [m];
    }
  }

  lemma {:induction false} WorkerWorkAppend(channel: seq<ToWorker>, more: seq<ToWorker>)
    ensures WorkerWork(channel + more) == WorkerWork(channel) + WorkerWork(more)
  {
    if channel != [] {
      WorkerWorkAppend(channel[1..], more);
      assert (channel + more)[1..] == channel[1..] + more;
    } else {
      assert channel + more == more;
    }
  }

  lemma TurnConsumesPotential(s: Sys)
    requires s.toSupervisor != []
    ensures Potential(Supervise(s)) < Potential(s)
  {
    var m := s.toSupervisor[0];
    var turn := SupervisorTurn(s.broker, s.room, s.session, m);
    WorkerWorkAppend(s.toWorker, turn.out);
    if m.Send? && m.session == s.session {
      var sent := BrokerSend(s.broker, m.payload);
      WorkerWorkAppend([Reply(s.session, m.id, BrokerStatus(s.broker, m.payload))], Scheduled(sent, s.session));
    }
  }

  lemma StepConsumesPotential(s: Sys, step: Step)
    requires Enabled(s, step)
    ensures Potential(Apply(s, step)) <= Potential(s) + if IsGuestRequest(step) then 9 else -1
  {
    match step {
      case GuestSend(payload) =>
        SupervisorWorkAppend(s.toSupervisor, Send(s.session, s.host.nextRequestId, payload));
      case GuestOther(log) =>
        SupervisorWorkAppend(s.toSupervisor, Other(s.session, s.host.nextRequestId, log));
      case GuestReturn =>
      case CallbackReturn(ok) =>
        SupervisorWorkAppend(s.toSupervisor, InboundAck(s.session, s.mode.entry.sequence, if ok then 0 else 1));
      case WorkerReceive =>
      case WorkerLoop =>
        SupervisorWorkAppend(s.toSupervisor, Drain(s.session));
      case SupervisorReceive =>
        TurnConsumesPotential(s);
    }
  }

  function GuestRequests(steps: seq<Step>): nat {
    if steps == [] then 0 else GuestRequests(steps[1..]) + if IsGuestRequest(steps[0]) then 1 else 0
  }

  lemma {:induction false} RunConsumesPotential(s: Sys, steps: seq<Step>)
    requires IsRun(s, steps)
    ensures |steps| + Potential(After(s, steps)) <= Potential(s) + 10 * GuestRequests(steps)
    decreases |steps|
  {
    if steps != [] {
      StepConsumesPotential(s, steps[0]);
      RunConsumesPotential(Apply(s, steps[0]), steps[1..]);
    }
  }

  /** A guest that makes finitely many requests is drained in finitely many steps:
      with NoDeadlock, every such run that goes on as long as it can reaches its end. */
  lemma RunsAreBounded(session: nat, room: nat, steps: seq<Step>)
    requires IsRun(Initial(session, room), steps)
    ensures |steps| <= 4 + 10 * GuestRequests(steps)
  {
    RunConsumesPotential(Initial(session, room), steps);
  }
}
