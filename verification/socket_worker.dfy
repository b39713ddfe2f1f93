/** One socket's data worker: dequeues records from the kernel endpoint, moves them
    to the core socket, publishes received records, and answers a shutdown or close
    that is sealed at a position of the transmit stream. Proved over every run:
    conservation of the dequeued stream, the seal, and the end of the receive side. */
module SocketWorker {
  import opened Common
  import opened SocketAddresses
  import opened SocketTasks

  const OP_SEND: nat := 6
  const EINVAL: nat := 22
  const TERMINAL_ALLOWANCE: nat := 256 * 1024 + 16384

  datatype Kind = Tcp | Udp | Listener

  datatype How = RxOnly | TxOnly | RxAndTx

  datatype Control =
    | Running
    | Shutdown(request: nat, how: How, seal: nat)
    | Close(request: nat, seal: nat)

  /** The transmit position at which a close or a send-side shutdown may be answered. */
  function SealOf(c: Control): Option<nat> {
    match c
    case Running => None
    case Shutdown(_, how, seal) => if how.RxOnly? then None else Some(seal)
    case Close(_, seal) => Some(seal)
  }

  /** `refused`, `out` and `endedAt` are history: what a refused frame had already added
      to the position, everything written to the endpoint, and how much of that when the
      receive side ended. */
  datatype Endpoint = Endpoint(
    kind: Kind,
    send: Sending,
    receive: Receiving,
    control: Control,
    dequeued: nat,
    refused: nat,
    out: seq<Output>,
    endedAt: Option<nat>)

  function Fresh(kind: Kind): Endpoint {
    Endpoint(kind, NOTHING_SENT, NOTHING_RECEIVED, Running, 0, 0, [], None)
  }

  datatype DataRead = Empty | NetDown | ReadError | Frame(op: nat, request: nat, data: seq<byte>)

  /** What the kernel and the core do during one poll. `shutdownErrno` is zero when
      the core shuts down, `room` whether the endpoint takes a record. */
  datatype Env = Env(frames: seq<DataRead>, send: CoreSend, finish: bool, shutdownErrno: nat, receive: CoreReceive, room: bool)

  datatype End = Open | Closed | Gone | Faulted

  /** The core never takes more than it is offered; a datagram goes whole; a listener
      refuses. */
  function CoreAnswer(kind: Kind, pending: seq<PendingSend>, r: CoreSend): CoreSend {
    if pending == [] then r
    else if kind.Listener? then Refused(EINVAL)
    else if r.Took? then Took(if kind.Udp? then |Left(pending[0])| else Min(r.count, |Left(pending[0])|))
    else r
  }

  function Position(e: Endpoint, data: seq<byte>): nat
    requires |data| >= HEADER
  {
    e.dequeued + if e.kind.Tcp? then |data| - HEADER else 1
  }

  /** The checks of a data frame before the position moves. */
  predicate WellFormedFrame(e: Endpoint, f: DataRead)
    requires f.Frame?
  {
    f.op == OP_SEND && f.request == 0 && |f.data| >= HEADER && Position(e, f.data) < U64_LIMIT
  }

  /** The checks after it has moved: the seal, the allowance, the address. */
  predicate Admits(e: Endpoint, data: seq<byte>)
    requires |data| >= HEADER
  {
    && (SealOf(e.control).Some? ==> Position(e, data) <= SealOf(e.control).value)
    && Staged(e.send.pending) + |data| - HEADER <= TERMINAL_ALLOWANCE
    && AdmittedPeer(data).Some?
  }

  function Dequeue(e: Endpoint, data: seq<byte>): Endpoint
    requires AdmittedPeer(data).Some?
  {
    e.(send := Admit(e.send, data), dequeued := Position(e, data))
  }

  /** A frame that fails the later checks has moved the position all the same. */
  function Refuse(e: Endpoint, data: seq<byte>): Endpoint
    requires |data| >= HEADER
  {
    e.(dequeued := Position(e, data), refused := e.refused + (Position(e, data) - e.dequeued))
  }

  /** One turn of the dequeue loop: stop with an outcome, or go on. */
  datatype Turn = Stop(endpoint: Endpoint, end: End) | Next(endpoint: Endpoint)

  function FrameTurn(e: Endpoint, f: DataRead): Turn
    requires f.Frame?
  {
    if !WellFormedFrame(e, f) then Stop(e, Faulted)
    else if !Admits(e, f.data) then Stop(Refuse(e, f.data), Faulted)
    else Next(Dequeue(e, f.data))
  }

  function ReadTurn(e: Endpoint, frames: seq<DataRead>): Turn {
    if SealOf(e.control) == Some(e.dequeued) || frames == [] then Stop(e, Open) else
    match frames[0]
    case Empty => Stop(e, Open)
    case NetDown => Stop(e, Gone)
    case ReadError => Stop(e, Faulted)
    case Frame(_, _, _) => FrameTurn(e, frames[0])
  }

  function ReadLoop(e: Endpoint, frames: seq<DataRead>, limit: nat): (Endpoint, End)
    decreases limit
  {
    if limit == 0 then (e, Open) else
    match ReadTurn(e, frames)
    case Stop(last, end) => (last, end)
    case Next(next) => ReadLoop(next, frames[1..], limit - 1)
  }

  predicate Finishing(e: Endpoint) {
    SealOf(e.control).Some?
  }

  function ReadPhase(e: Endpoint, frames: seq<DataRead>): (Endpoint, End) {
    if Finishing(e) && e.dequeued > SealOf(e.control).value then (e, Faulted)
    else if e.send.pending == [] || (Finishing(e) && e.kind.Tcp?) then ReadLoop(e, frames, if Finishing(e) then 32 else 1)
    else (e, Open)
  }

  function SendPhase(e: Endpoint, env: Env): (Endpoint, End) {
    if Finishing(e) && e.kind.Tcp? then
      if SealOf(e.control) != Some(e.dequeued) then (e, Open)
      else if env.finish then (e.(send := Handoff(e.send)), Open)
      else (e, Faulted)
    else
      var r := CoreAnswer(e.kind, e.send.pending, env.send);
      (e.(send := Pump(e.send, r), out := e.out + PumpOutput(e.send, r)), Open)
  }

  predicate MayAnswer(e: Endpoint) {
    || (e.send.pending == [] && (SealOf(e.control).None? || SealOf(e.control) == Some(e.dequeued)))
    || (e.control.Shutdown? && e.control.how.RxOnly?)
  }

  function Reply(request: nat, errno: nat): seq<Output> {
    if request == 0 then [] else [Answer(request, errno)]
  }

  function EndNow(e: Endpoint): Endpoint {
    e.(receive := EndReceive(e.receive), endedAt := if e.endedAt.Some? then e.endedAt else Some(|e.out|))
  }

  function AnswerPhase(e: Endpoint, env: Env): (Endpoint, End) {
    if !MayAnswer(e) || e.control.Running? then (e, Open)
    else if e.control.Close? then
      var ended := EndNow(e);
      (ended.(control := Running, out := ended.out + Reply(e.control.request, 0)), Closed)
    else
      var after := if env.shutdownErrno == 0 && !e.control.how.TxOnly? then EndNow(e) else e;
      (after.(control := Running, out := after.out + Reply(e.control.request, env.shutdownErrno)), Open)
  }

  function ReceivePhase(e: Endpoint, env: Env): Endpoint {
    if e.kind.Listener? then e else
    var receive, out := ReceivePoll(e.receive, env.receive, env.room), e.out + ReceiveOutput(e.receive, env.receive, env.room);
    e.(receive := receive, out := out,
       endedAt := if receive.ended && e.endedAt.None? then Some(|out|) else e.endedAt)
  }

  /** One bounded poll of the worker. */
  function Poll(e: Endpoint, env: Env): (Endpoint, End) {
    var (e1, end1) := ReadPhase(e, env.frames);
    if !end1.Open? then (e1, end1) else
    var (e2, end2) := SendPhase(e1, env);
    if !end2.Open? then (e2, end2) else
    var (e3, end3) := AnswerPhase(e2, env);
    if !end3.Open? then (e3, end3) else (ReceivePhase(e3, env), Open)
  }

  // ----- the invariant of every run -----

  /** The send side: conservation, the position (stream bytes or datagrams dequeued),
      the staging allowance. */
  ghost predicate SendSide(kind: Kind, send: Sending, dequeued: nat) {
    && SendInv(send)
    && Addressed(send)
    && (kind.Udp? ==> WholeDatagrams(send))
    && dequeued == (if kind.Tcp? then |Flatten(Bodies(send.frames))| else |send.frames|)
    && Staged(send.pending) <= TERMINAL_ALLOWANCE
  }

  /** The receive side: records in order, and none after the end. */
  ghost predicate ReceiveSide(receive: Receiving, out: seq<Output>, endedAt: Option<nat>) {
    && ReceiveInv(receive, out)
    && (receive.ended <==> endedAt.Some?)
    && (endedAt.Some? ==> endedAt.value <= |out| && forall i :: endedAt.value <= i < |out| ==> !out[i].Rx?)
  }

  /** Every dropped record is reported once, with its error and in order. */
  ghost predicate ReportSide(send: Sending, out: seq<Output>) {
    Reports(out, Transmit) == Drops(send.disposed)
  }

  ghost predicate Sends(e: Endpoint) {
    e.refused <= e.dequeued && SendSide(e.kind, e.send, e.dequeued - e.refused)
  }

  ghost predicate Inv(e: Endpoint) {
    && Sends(e)
    && ReceiveSide(e.receive, e.out, e.endedAt)
    && ReportSide(e.send, e.out)
  }

  lemma FreshInv(kind: Kind)
    ensures Inv(Fresh(kind))
  {
    var e := Fresh(kind);
    assert Flatten(CoreParts([])) == [] && Flatten(TakenParts([])) == [];
    assert Lefts([]) == [];
    assert Bodies(e.send.frames) == DisposedPayloads([]) + Payloads([]);
  }

  lemma DequeueKeeps(e: Endpoint, f: DataRead)
    requires Sends(e) && f.Frame? && WellFormedFrame(e, f) && Admits(e, f.data)
    ensures Sends(Dequeue(e, f.data))
  {
    AdmitKeeps(e.send, f.data);
    AdmitIsAddressed(e.send, f.data);
    if e.kind.Udp? { WholeAdmitKeeps(e.send, f.data); }
    assert Bodies(e.send.frames + [f.data]) == Bodies(e.send.frames) + [f.data[HEADER..]];
    FlattenAppend(Bodies(e.send.frames), [f.data[HEADER..]]);
    FlattenOne(f.data[HEADER..]);
  }

  /** What reading changes, and without a fault a position at or below the seal that counts
      admitted frames only. */
  ghost predicate Reads(e: Endpoint, last: Endpoint, end: End) {
    && !end.Closed?
    && last == e.(send := last.send, dequeued := last.dequeued, refused := last.refused)
    && last.send.disposed == e.send.disposed
    && (!end.Faulted? ==> last.refused == e.refused && BelowSeal(last))
  }

  predicate BelowSeal(e: Endpoint) {
    Finishing(e) ==> e.dequeued <= SealOf(e.control).value
  }

  lemma ReadTurnReads(e: Endpoint, frames: seq<DataRead>)
    requires BelowSeal(e)
    ensures var turn := ReadTurn(e, frames); Reads(e, turn.endpoint, if turn.Stop? then turn.end else Open)
  {
  }

  lemma {:induction false} ReadLoopReads(e: Endpoint, frames: seq<DataRead>, limit: nat)
    requires BelowSeal(e)
    ensures Reads(e, ReadLoop(e, frames, limit).0, ReadLoop(e, frames, limit).1)
    decreases limit
  {
    if limit > 0 {
      ReadTurnReads(e, frames);
      var turn := ReadTurn(e, frames);
      if turn.Next? { ReadLoopReads(turn.endpoint, frames[1..], limit - 1); }
    }
  }

  lemma ReadTurnKeeps(e: Endpoint, frames: seq<DataRead>)
    requires Sends(e)
    ensures Sends(ReadTurn(e, frames).endpoint)
  {
    if ReadTurn(e, frames).Next? { DequeueKeeps(e, frames[0]); }
  }

  /** Whatever each turn keeps, the loop keeps. */
  lemma {:induction false} ReadLoopKeeps(kept: Endpoint -> bool, e: Endpoint, frames: seq<DataRead>, limit: nat)
    requires kept(e) && forall x, rest :: kept(x) ==> kept(ReadTurn(x, rest).endpoint)
    ensures kept(ReadLoop(e, frames, limit).0)
    decreases limit
  {
    if limit > 0 {
      var turn := ReadTurn(e, frames);
      if turn.Next? { ReadLoopKeeps(kept, turn.endpoint, frames[1..], limit - 1); }
    }
  }

  lemma ReadLoopSends(e: Endpoint, frames: seq<DataRead>, limit: nat)
    requires Sends(e)
    ensures Sends(ReadLoop(e, frames, limit).0)
  {
    forall x, rest | Sends(x) ensures Sends(ReadTurn(x, rest).endpoint) {
      ReadTurnKeeps(x, rest);
    }
    ReadLoopKeeps(x => Sends(x), e, frames, limit);
  }

  lemma ReadPhaseKeeps(e: Endpoint, frames: seq<DataRead>)
    requires Inv(e)
    ensures var (e', end) := ReadPhase(e, frames);
      && !end.Closed? && Inv(e') && e'.control == e.control && e'.kind == e.kind
      && (!end.Faulted? ==> e'.refused == e.refused)
      && (end.Open? && Finishing(e') ==> e'.dequeued <= SealOf(e'.control).value)
  {
    if !(Finishing(e) && e.dequeued > SealOf(e.control).value) {
      ReadLoopSends(e, frames, if Finishing(e) then 32 else 1);
      ReadLoopReads(e, frames, if Finishing(e) then 32 else 1);
    }
  }

  lemma PublishedIgnores(out: seq<Output>, more: seq<Output>)
    requires |more| <= 1 && (more != [] ==> !more[0].Rx?)
    ensures Published(out + more) == Published(out)
  {
    if more == [] {
      assert out + more == out;
    } else {
      assert more == [more[0]];
      PublishedSnoc(out, more[0]);
    }
  }

  /** Writing one thing that does not come from the receive task. */
  lemma ReportKeeps(receive: Receiving, out: seq<Output>, endedAt: Option<nat>, more: seq<Output>)
    requires ReceiveSide(receive, out, endedAt)
    requires |more| <= 1 && (more != [] ==> !more[0].Rx? && ReportOf(more[0], Receive) == [])
    ensures ReceiveSide(receive, out + more, endedAt)
  {
    PublishedIgnores(out, more);
    ReportsWith(out, more, Receive);
  }

  lemma HandoffSideKeeps(kind: Kind, send: Sending, dequeued: nat)
    requires SendSide(kind, send, dequeued) && kind.Tcp?
    ensures SendSide(kind, Handoff(send), dequeued)
    ensures Drops(Handoff(send).disposed) == Drops(send.disposed)
  {
    HandoffKeeps(send);
    HandoffIsAddressed(send);
    DropsAppendWhole(send.disposed, Finished(send.pending));
    assert Lefts([]) == [] && Flatten([]) == [];
  }

  lemma PumpSideKeeps(kind: Kind, send: Sending, dequeued: nat, answer: CoreSend)
    requires SendSide(kind, send, dequeued)
    ensures SendSide(kind, Pump(send, CoreAnswer(kind, send.pending, answer)), dequeued)
  {
    var r := CoreAnswer(kind, send.pending, answer);
    PumpKeeps(send, r);
    PumpIsAddressed(send, r);
    if kind.Udp? {
      WholePumpKeeps(send, r);
    }
  }

  /** A dropped record and its report come together. */
  lemma PumpReportsKeep(send: Sending, receive: Receiving, out: seq<Output>, endedAt: Option<nat>, r: CoreSend)
    requires TakesAPrefix(send, r)
    requires ReportSide(send, out) && ReceiveSide(receive, out, endedAt)
    ensures ReportSide(Pump(send, r), out + PumpOutput(send, r))
    ensures ReceiveSide(receive, out + PumpOutput(send, r), endedAt)
  {
    PumpReports(send, r);
    ReportsWith(out, PumpOutput(send, r), Transmit);
    ReportsWith([], PumpOutput(send, r), Transmit);
    assert [] + PumpOutput(send, r) == PumpOutput(send, r);
    ReportKeeps(receive, out, endedAt, PumpOutput(send, r));
  }

  lemma SendPhaseKeeps(e: Endpoint, env: Env)
    requires Inv(e)
    ensures var e' := SendPhase(e, env).0;
      Inv(e') && e'.control == e.control && e'.dequeued == e.dequeued && e'.kind == e.kind && e'.refused == e.refused
  {
    if Finishing(e) && e.kind.Tcp? {
      HandoffSideKeeps(e.kind, e.send, e.dequeued - e.refused);
    } else {
      PumpSideKeeps(e.kind, e.send, e.dequeued - e.refused, env.send);
      PumpReportsKeep(e.send, e.receive, e.out, e.endedAt, CoreAnswer(e.kind, e.send.pending, env.send));
    }
  }

  lemma EndNowKeeps(e: Endpoint)
    requires ReceiveSide(e.receive, e.out, e.endedAt)
    ensures ReceiveSide(EndNow(e).receive, e.out, EndNow(e).endedAt)
  {
  }

  /** An answer is no report. */
  lemma ReplyIsNoReport(out: seq<Output>, request: nat, errno: nat, origin: Origin)
    ensures Reports(out + Reply(request, errno), origin) == Reports(out, origin)
  {
    ReportsWith(out, Reply(request, errno), origin);
  }

  lemma ReplyKeeps(send: Sending, receive: Receiving, out: seq<Output>, endedAt: Option<nat>, request: nat, errno: nat)
    requires ReportSide(send, out) && ReceiveSide(receive, out, endedAt)
    ensures ReportSide(send, out + Reply(request, errno))
    ensures ReceiveSide(receive, out + Reply(request, errno), endedAt)
  {
    ReplyIsNoReport(out, request, errno, Transmit);
    ReplyIsNoReport(out, request, errno, Receive);
    ReportKeeps(receive, out, endedAt, Reply(request, errno));
  }

  lemma AnswerPhaseKeeps(e: Endpoint, env: Env)
    requires Inv(e)
    ensures Inv(AnswerPhase(e, env).0) && AnswerPhase(e, env).0.refused == e.refused
  {
    if MayAnswer(e) && !e.control.Running? {
      var ended := EndNow(e);
      EndNowKeeps(e);
      if e.control.Close? {
        ReplyKeeps(e.send, ended.receive, e.out, ended.endedAt, e.control.request, 0);
      } else if env.shutdownErrno == 0 && !e.control.how.TxOnly? {
        ReplyKeeps(e.send, ended.receive, e.out, ended.endedAt, e.control.request, env.shutdownErrno);
      } else {
        ReplyKeeps(e.send, e.receive, e.out, e.endedAt, e.control.request, env.shutdownErrno);
      }
    }
  }

  lemma ReceivePhaseKeeps(e: Endpoint, env: Env)
    requires Inv(e) && FitsBuffer(env.receive)
    ensures Inv(ReceivePhase(e, env)) && ReceivePhase(e, env).refused == e.refused
  {
    ReceivePollKeeps(e.receive, e.out, env.receive, env.room);
  }

  /** Only a fault can leave a position that counts a frame which was not admitted. */
  lemma PollKeeps(e: Endpoint, env: Env)
    requires Inv(e) && FitsBuffer(env.receive)
    ensures Inv(Poll(e, env).0) && (!Poll(e, env).1.Faulted? ==> Poll(e, env).0.refused == e.refused)
  {
    var (e1, end1) := ReadPhase(e, env.frames);
    ReadPhaseKeeps(e, env.frames);
    if end1.Open? {
      var (e2, end2) := SendPhase(e1, env);
      SendPhaseKeeps(e1, env);
      if end2.Open? {
        var (e3, end3) := AnswerPhase(e2, env);
        AnswerPhaseKeeps(e2, env);
        ReceivePhaseKeeps(e3, env);
      }
    }
  }

  /** A terminal control arrives while none is outstanding, or the worker polls. */
  datatype Step = Arrive(control: Control) | Polls(env: Env)

  predicate IsRun(e: Endpoint, steps: seq<Step>)
    decreases |steps|
  {
    steps == [] ||
    match steps[0]
    case Arrive(control) => e.control.Running? && IsRun(e.(control := control), steps[1..])
    case Polls(env) =>
      && FitsBuffer(env.receive)
      && (|steps| > 1 ==> Poll(e, env).1.Open?) && IsRun(Poll(e, env).0, steps[1..])
  }

  function After(e: Endpoint, steps: seq<Step>): Endpoint
    requires IsRun(e, steps)
    decreases |steps|
  {
    if steps == [] then e else
    match steps[0]
    case Arrive(control) => After(e.(control := control), steps[1..])
    case Polls(env) => After(Poll(e, env).0, steps[1..])
  }

  /** Over any run of admissions, partial and blocked writes, handoffs, receives and
      controls: the sent stream is conserved in order, every dropped record is reported
      once with its error, the position counts exactly what was dequeued, the staging
      stays within the allowance, received records come out in order, what else the core
      said is reported once, and no record comes after the end. */
  lemma {:induction false} RunKeeps(e: Endpoint, steps: seq<Step>)
    requires Inv(e) && IsRun(e, steps)
    ensures Inv(After(e, steps))
    decreases |steps|
  {
    if steps != [] {
      match steps[0]
      case Arrive(control) =>
        RunKeeps(e.(control := control), steps[1..]);
      case Polls(env) =>
        PollKeeps(e, env);
        RunKeeps(Poll(e, env).0, steps[1..]);
    }
  }

  /** The endpoint goes on: no poll of the run ended it. */
  predicate StaysOpen(e: Endpoint, steps: seq<Step>)
    requires IsRun(e, steps)
    decreases |steps|
  {
    steps == [] ||
    match steps[0]
    case Arrive(control) => StaysOpen(e.(control := control), steps[1..])
    case Polls(env) => Poll(e, env).1.Open? && StaysOpen(Poll(e, env).0, steps[1..])
  }

  lemma {:induction false} OpenRunsRefuseNothing(e: Endpoint, steps: seq<Step>)
    requires Inv(e) && IsRun(e, steps) && StaysOpen(e, steps)
    ensures After(e, steps).refused == e.refused
    decreases |steps|
  {
    if steps != [] {
      match steps[0]
      case Arrive(control) =>
        OpenRunsRefuseNothing(e.(control := control), steps[1..]);
      case Polls(env) =>
        PollKeeps(e, env);
        OpenRunsRefuseNothing(Poll(e, env).0, steps[1..]);
    }
  }

  lemma RunsFrom(e: Endpoint, steps: seq<Step>)
    requires Inv(e) && e.refused == 0 && IsRun(e, steps)
    ensures Inv(After(e, steps)) && (StaysOpen(e, steps) ==> After(e, steps).refused == 0)
  {
    RunKeeps(e, steps);
    if StaysOpen(e, steps) { OpenRunsRefuseNothing(e, steps); }
  }

  lemma RunsFromTheStart(kind: Kind, steps: seq<Step>)
    requires IsRun(Fresh(kind), steps)
    ensures Inv(After(Fresh(kind), steps))
    ensures StaysOpen(Fresh(kind), steps) ==> After(Fresh(kind), steps).refused == 0
  {
    FreshInv(kind);
    RunsFrom(Fresh(kind), steps);
  }

  // ----- the seal -----

  /** The core has taken everything that was dequeued but for the dropped records, each
      of which the endpoint has been told with its error; and what was dequeued is exactly
      the sealed stream. */
  ghost predicate SealedStreamDone(e: Endpoint, seal: nat) {
    && e.dequeued == seal
    && e.send.pending == []
    && Bodies(e.send.frames) == DisposedPayloads(e.send.disposed)
    && Flatten(CoreParts(e.send.core)) == Flatten(TakenParts(e.send.disposed))
    && (e.kind.Tcp? ==> |Flatten(Bodies(e.send.frames))| == seal)
    && (forall i :: 0 <= i < |e.send.disposed| ==> Complete(e.send.disposed[i]))
    && Reports(e.out, Transmit) == Drops(e.send.disposed)
    && (Reports(e.out, Transmit) == [] ==>
          Flatten(CoreParts(e.send.core)) == Flatten(Bodies(e.send.frames)))
  }

  lemma {:induction false} NoDropsMeansWhole(ds: seq<Disposal>, n: nat)
    requires n <= |ds| && DropsTo(ds, n) == []
    ensures forall i :: 0 <= i < n ==> ds[i].error.None?
  {
    if n > 0 { NoDropsMeansWhole(ds, n - 1); }
  }

  lemma DrainedMeansDone(e: Endpoint)
    requires Inv(e) && e.send.pending == [] && e.refused == 0
    ensures SealedStreamDone(e, e.dequeued)
  {
    assert Payloads([]) == [];
    assert Bodies(e.send.frames) == DisposedPayloads(e.send.disposed);
    assert Flatten(CoreParts(e.send.core)) == Flatten(TakenParts(e.send.disposed));
    if Reports(e.out, Transmit) == [] {
      NoDropsMeansWhole(e.send.disposed, |e.send.disposed|);
      NothingIsLost(e.send);
      assert Lefts([]) == [];
    }
  }

  /** Being done is a matter of the send side and its reports. */
  lemma DoneCarriesOver(e: Endpoint, e': Endpoint, seal: nat)
    requires SealedStreamDone(e, seal) && e'.kind == e.kind && e'.send == e.send && e'.dequeued == e.dequeued
    requires Reports(e'.out, Transmit) == Reports(e.out, Transmit)
    ensures SealedStreamDone(e', seal)
  {
  }

  lemma AnswerPhaseAtTheSeal(e: Endpoint, env: Env)
    requires Inv(e) && Finishing(e) && e.refused == 0
    ensures var (e', end) := AnswerPhase(e, env);
      && e'.kind == e.kind && e'.send == e.send && e'.dequeued == e.dequeued
      && (end.Closed? || e'.control.Running? ==> SealedStreamDone(e', SealOf(e.control).value))
      && (end.Open? && !e'.control.Running? ==> e' == e)
      && (end.Open? || end.Closed?)
  {
    if MayAnswer(e) {
      DrainedMeansDone(e);
      ReplyIsNoReport(e.out, e.control.request, if e.control.Close? then 0 else env.shutdownErrno, Transmit);
      DoneCarriesOver(e, AnswerPhase(e, env).0, e.dequeued);
    }
  }

  lemma ReceivePhaseIsApart(e: Endpoint, env: Env)
    requires Inv(e) && FitsBuffer(env.receive)
    ensures var e' := ReceivePhase(e, env);
      && e'.kind == e.kind && e'.send == e.send && e'.dequeued == e.dequeued && e'.control == e.control
      && Reports(e'.out, Transmit) == Reports(e.out, Transmit)
  {
    ReceivePollKeeps(e.receive, e.out, env.receive, env.room);
  }

  /** A close or a send-side shutdown is answered only when the sealed stream is done;
      until then the position has not passed the seal. */
  lemma AnsweredOnlyAtTheSeal(e: Endpoint, env: Env)
    requires Inv(e) && FitsBuffer(env.receive) && Finishing(e) && e.refused == 0
    ensures var (e', end) := Poll(e, env); var seal := SealOf(e.control).value;
      && (end.Closed? || (end.Open? && e'.control.Running?) ==> SealedStreamDone(e', seal))
      && (end.Open? && !e'.control.Running? ==> e'.control == e.control && e'.dequeued <= seal)
  {
    var (e1, end1) := ReadPhase(e, env.frames);
    ReadPhaseKeeps(e, env.frames);
    if end1.Open? {
      var (e2, end2) := SendPhase(e1, env);
      SendPhaseKeeps(e1, env);
      if end2.Open? {
        AnswerPhaseAtTheSeal(e2, env);
        AnswerPhaseKeeps(e2, env);
        var (e3, end3) := AnswerPhase(e2, env);
        if end3.Open? {
          ReceivePhaseIsApart(e3, env);
          if e3.control.Running? {
            DoneCarriesOver(e3, ReceivePhase(e3, env), SealOf(e.control).value);
          }
        }
      }
    }
  }

  /** The same at the end of any run that has left the endpoint open. */
  lemma RunsAnswerOnlyAtTheSeal(kind: Kind, steps: seq<Step>, env: Env)
    requires IsRun(Fresh(kind), steps) && StaysOpen(Fresh(kind), steps) && FitsBuffer(env.receive)
    requires Finishing(After(Fresh(kind), steps))
    ensures var e := After(Fresh(kind), steps); var (e', end) := Poll(e, env); var seal := SealOf(e.control).value;
      && (end.Closed? || (end.Open? && e'.control.Running?) ==> SealedStreamDone(e', seal))
      && (end.Open? && !e'.control.Running? ==> e'.control == e.control && e'.dequeued <= seal)
  {
    RunsFromTheStart(kind, steps);
    AnsweredOnlyAtTheSeal(After(Fresh(kind), steps), env);
  }

  /** A handoff that the core refuses retires the endpoint with its staging intact. */
  lemma RefusedHandoffKeepsStaging(e: Endpoint, env: Env)
    requires Inv(e) && Finishing(e) && e.kind.Tcp? && e.dequeued == SealOf(e.control).value && !env.finish
    ensures Poll(e, env) == (e, Faulted)
  {
  }

  class Worker {
    const kind: Kind
    const send: SendTask
    const receive: ReceiveTask
    var control: Control
    var dequeued: nat
    ghost var refused: nat
    ghost var out: seq<Output>
    ghost var endedAt: Option<nat>

    ghost function State(): Endpoint
      reads this, send, receive
    {
      Endpoint(kind, send.State(), receive.State(), control, dequeued, refused, out, endedAt)
    }

    constructor (kind: Kind)
      ensures State() == Fresh(kind) && fresh(send) && fresh(receive)
    {
      this.kind := kind;
      send := new SendTask();
      receive := new ReceiveTask();
      control, dequeued := Running, 0;
      refused, out, endedAt := 0, [], None;
    }

    /** A terminal control message. */
    method Accept(control: Control)
      requires this.control.Running? && Inv(State())
      modifies this
      ensures State() == old(State()).(control := control) && Inv(State())
    {
      this.control := control;
    }

    /** Checks one frame and admits it. */
    method ReadFrame(frame: DataRead) returns (ok: bool)
      requires AllSane(send.pending) && frame.Frame?
      modifies this, send
      ensures AllSane(send.pending) && State() == FrameTurn(old(State()), frame).endpoint
      ensures ok == FrameTurn(old(State()), frame).Next?
    {
      if frame.op != OP_SEND || frame.request != 0 || |frame.data| < HEADER { return false; }
      var step := if kind.Tcp? then |frame.data| - HEADER else 1;
      if dequeued + step >= U64_LIMIT { return false; }
      dequeued := dequeued + step;
      ok := Admit(frame.data);
      if !ok { refused := refused + step; }
    }

    /** The seal, the allowance and the address, with the position already moved. */
    method Admit(data: seq<byte>) returns (ok: bool)
      requires AllSane(send.pending) && |data| >= HEADER
      modifies send
      ensures AllSane(send.pending)
      ensures ok <==>
        && (SealOf(control).Some? ==> dequeued <= SealOf(control).value)
        && Staged(old(send.pending)) + |data| - HEADER <= TERMINAL_ALLOWANCE
        && AdmittedPeer(data).Some?
      ensures send.State() == if ok then SocketTasks.Admit(old(send.State()), data) else old(send.State())
    {
      var seal := SealOf(control);
      if seal.Some? && dequeued > seal.value { return false; }
      var staged := send.StagedBytes();
      if staged + |data| - HEADER > TERMINAL_ALLOWANCE { return false; }
      ok := send.AdmitRecord(data);
    }

    /** One turn of the dequeue loop, on what the channel gives next. */
    method ReadOne(frames: seq<DataRead>) returns (stop: Option<End>)
      requires AllSane(send.pending)
      modifies this, send
      ensures AllSane(send.pending) && State() == ReadTurn(old(State()), frames).endpoint
      ensures match ReadTurn(old(State()), frames) case Stop(_, end) => stop == Some(end) case Next(_) => stop == None
    {
      if SealOf(control) == Some(dequeued) || frames == [] { return Some(Open); }
      var frame := frames[0];
      if !frame.Frame? {
        return Some(if frame.Empty? then Open else if frame.NetDown? then Gone else Faulted);
      }
      var ok := ReadFrame(frame);
      stop := if ok then None else Some(Faulted);
    }

    /** The bounded dequeue loop. */
    method ReadFrames(frames: seq<DataRead>, limit: nat) returns (end: End)
      requires AllSane(send.pending)
      modifies this, send
      ensures (State(), end) == ReadLoop(old(State()), frames, limit)
    {
      ghost var goal := ReadLoop(State(), frames, limit);
      var rest, i := frames, 0;
      while i < limit
        invariant i <= limit
        invariant AllSane(send.pending)
        invariant ReadLoop(State(), rest, limit - i) == goal
      {
        var stop := ReadOne(rest);
        if stop.Some? { return stop.value; }
        rest, i := rest[1..], i + 1;
      }
      end := Open;
    }

    method MoveData(env: Env) returns (end: End)
      requires Inv(State())
      modifies this, send
      ensures (State(), end) == SendPhase(old(State()), env)
    {
      end := Open;
      if SealOf(control).Some? && kind.Tcp? {
        if SealOf(control) == Some(dequeued) {
          var handed, ok := send.Finish(env.finish);
          if !ok { return Faulted; }
        }
      } else {
        var progress, written := send.Poll(CoreAnswer(kind, send.pending, env.send));
        out := out + written;
      }
    }

    method AnswerControl(env: Env) returns (end: End)
      modifies this, receive
      ensures (State(), end) == AnswerPhase(old(State()), env)
    {
      var seal := SealOf(control);
      var drained := send.pending == [] && (seal.None? || seal == Some(dequeued));
      var receiveOnly := control.Shutdown? && control.how.RxOnly?;
      if !drained && !receiveOnly { return Open; }
      var answered := control;
      control := Running;
      match answered {
        case Running =>
          end := Open;
        case Shutdown(request, how, _) =>
          if env.shutdownErrno == 0 && !how.TxOnly? {
            endedAt := if endedAt.Some? then endedAt else Some(|out|);
            receive.Shutdown();
          }
          out := out + Reply(request, env.shutdownErrno);
          end := Open;
        case Close(request, _) =>
          endedAt := if endedAt.Some? then endedAt else Some(|out|);
          receive.Shutdown();
          out := out + Reply(request, 0);
          end := Closed;
      }
    }

    method ReadData(frames: seq<DataRead>) returns (end: End)
      requires Inv(State())
      modifies this, send
      ensures (State(), end) == ReadPhase(old(State()), frames) && Inv(State())
    {
      ReadPhaseKeeps(State(), frames);
      var seal := SealOf(control);
      if seal.Some? && dequeued > seal.value { return Faulted; }
      end := Open;
      if send.pending == [] || (seal.Some? && kind.Tcp?) {
        end := ReadFrames(frames, if seal.Some? then 32 else 1);
      }
    }

    method ReceiveData(env: Env)
      modifies this, receive
      ensures State() == ReceivePhase(old(State()), env)
    {
      if !kind.Listener? {
        var progress, written := receive.Poll(env.receive, env.room);
        out := out + written;
        endedAt := if receive.ended && endedAt.None? then Some(|out|) else endedAt;
      }
    }

    /** One poll, phase by phase, is exactly the specified one. */
    method PollData(env: Env) returns (end: End)
      requires Inv(State()) && FitsBuffer(env.receive)
      modifies this, send, receive
      ensures (State(), end) == Poll(old(State()), env)
      ensures Inv(State())
    {
      PollKeeps(State(), env);
      end := ReadData(env.frames);
      if !end.Open? { return end; }
      SendPhaseKeeps(State(), env);
      end := MoveData(env);
      if !end.Open? { return end; }
      AnswerPhaseKeeps(State(), env);
      end := AnswerControl(env);
      if !end.Open? { return end; }
      ReceiveData(env);
    }
  }
}
