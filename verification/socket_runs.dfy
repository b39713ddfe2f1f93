/** What a poll of the worker does, in terms of what the kernel and the core offered it:
    which frames it dequeues, what it writes to the core, which records it publishes, and
    when and how it answers a control. */
module SocketRuns {
  import opened Common
  import opened SocketAddresses
  import opened SocketTasks
  import opened SocketWorker

  // ----- dequeued frames -----

  /** The records dequeued since are the next frames that the channel gave, in order. */
  ghost predicate Extends(before: seq<seq<byte>>, after: seq<seq<byte>>, frames: seq<DataRead>) {
    && |before| <= |after| <= |before| + |frames|
    && after[..|before|] == before
    && forall i :: 0 <= i < |after| - |before| ==> Gives(frames[i], after[|before| + i])
  }

  predicate Gives(read: DataRead, data: seq<byte>) {
    read.Frame? && read.op == 6 && read.request == 0 && read.data == data
  }

  /** Nothing is left to read now: the seal is reached or the channel has no frame. */
  predicate NothingToRead(e: Endpoint, frames: seq<DataRead>, k: nat) {
    SealOf(e.control) == Some(e.dequeued) || k >= |frames| || frames[k].Empty?
  }

  /** The reasons to give the endpoint up over a frame: it is no send, its header names no
      address, it would pass the seal, the allowance, or the range of the position. */
  predicate Faulty(e: Endpoint, read: DataRead) {
    && read.Frame?
    && (|| read.op != 6 || read.request != 0 || !Headed(read.data)
        || e.dequeued + (if e.kind.Tcp? then |read.data| - 24 else 1) >= U64_LIMIT
        || (SealOf(e.control).Some? && e.dequeued > SealOf(e.control).value)
        || Staged(e.send.pending) + |read.data| - 24 > 256 * 1024 + 16384)
  }

  /** How a dequeue loop may end after it has dequeued `k` frames. */
  predicate Ends(last: Endpoint, frames: seq<DataRead>, limit: nat, k: int, end: End) {
    && 0 <= k <= limit
    && (end.Open? ==> k == limit || NothingToRead(last, frames, k))
    && (end.Gone? ==> k < |frames| && frames[k].NetDown?)
    && (end.Faulted? ==> k < |frames| && (frames[k].ReadError? || Faulty(last, frames[k])))
  }

  lemma TurnEnds(e: Endpoint, frames: seq<DataRead>, limit: nat)
    requires limit > 0 && ReadTurn(e, frames).Stop?
    ensures var turn := ReadTurn(e, frames);
      turn.endpoint.send == e.send && turn.endpoint.control == e.control && Ends(turn.endpoint, frames, limit, 0, turn.end)
  {
  }

  lemma EndsOn(last: Endpoint, frames: seq<DataRead>, limit: nat, k: int, end: End)
    requires limit > 0 && frames != [] && Ends(last, frames[1..], limit - 1, k, end)
    ensures Ends(last, frames, limit, k + 1, end)
  {
    assert k < |frames| - 1 ==> frames[1..][k] == frames[k + 1];
  }

  lemma {:induction false} ReadLoopExtends(e: Endpoint, frames: seq<DataRead>, limit: nat)
    ensures var (last, end) := ReadLoop(e, frames, limit);
      && Extends(e.send.frames, last.send.frames, frames)
      && last.control == e.control
      && Ends(last, frames, limit, |last.send.frames| - |e.send.frames|, end)
    decreases limit
  {
    if limit > 0 {
      var turn := ReadTurn(e, frames);
      if turn.Stop? {
        TurnEnds(e, frames, limit);
      } else {
        var next := turn.endpoint;
        ReadLoopExtends(next, frames[1..], limit - 1);
        var (last, end) := ReadLoop(next, frames[1..], limit - 1);
        ExtendsOn(e.send.frames, next.send.frames, last.send.frames, frames);
        EndsOn(last, frames, limit, |last.send.frames| - |next.send.frames|, end);
      }
    }
  }

  lemma ExtendsOn(first: seq<seq<byte>>, next: seq<seq<byte>>, last: seq<seq<byte>>, frames: seq<DataRead>)
    requires frames != [] && frames[0].Frame? && Gives(frames[0], frames[0].data) && next == first + [frames[0].data]
    requires Extends(next, last, frames[1..])
    ensures Extends(first, last, frames)
  {
    var n := |first|;
    assert last[..n] == last[..n + 1][..n] == first;
    assert last[n] == last[..n + 1][n] == frames[0].data;
    forall i | 0 < i < |last| - n ensures Gives(frames[i], last[n + i]) {
      assert Gives(frames[1..][i - 1], last[n + 1 + (i - 1)]);
    }
  }

  /** How many frames a poll may dequeue: one when nothing is staged, up to 32 of a stream
      that is being finished, none otherwise. */
  function Allowed(e: Endpoint): nat {
    if Finishing(e) && (e.kind.Tcp? || e.send.pending == []) then 32 else if e.send.pending == [] then 1 else 0
  }

  lemma ReadPhaseExtends(e: Endpoint, frames: seq<DataRead>)
    ensures var (e', end) := ReadPhase(e, frames);
      && Extends(e.send.frames, e'.send.frames, frames)
      && e'.control == e.control
      && var k := |e'.send.frames| - |e.send.frames|;
         && k <= Allowed(e)
         && (end.Open? ==> k == Allowed(e) || NothingToRead(e', frames, k))
         && (end.Gone? ==> k < |frames| && frames[k].NetDown?)
         && (end.Faulted? ==> (k < |frames| && (frames[k].ReadError? || Faulty(e', frames[k])))
                              || (Finishing(e) && e.dequeued > SealOf(e.control).value))
  {
    ReadLoopExtends(e, frames, if Finishing(e) then 32 else 1);
  }

  lemma SendPhaseFrames(e: Endpoint, env: Env)
    ensures SendPhase(e, env).0.send.frames == e.send.frames && SendPhase(e, env).0.dequeued == e.dequeued
    ensures SendPhase(e, env).0.control == e.control && SendPhase(e, env).0.receive == e.receive
    ensures SendPhase(e, env).0.kind == e.kind && SendPhase(e, env).0.endedAt == e.endedAt
  {
  }

  /** A poll dequeues the next frames of the channel, in order and none twice; it leaves one
      only if it may take no more, the seal is reached, or the poll ends the endpoint. That
      it does over a frame only for a reason. */
  lemma PollDequeues(e: Endpoint, env: Env)
    ensures var (e', end) := Poll(e, env);
      && Extends(e.send.frames, e'.send.frames, env.frames)
      && var k := |e'.send.frames| - |e.send.frames|;
         && k <= Allowed(e)
         && (end.Open? ==> k == Allowed(e) || NothingToRead(e'.(control := e.control), env.frames, k))
         && (end.Gone? ==> k < |env.frames| && env.frames[k].NetDown?)
         && (end.Faulted? ==>
               || (k < |env.frames| && (env.frames[k].ReadError? || Faulty(e', env.frames[k])))
               || (Finishing(e) && e.dequeued > SealOf(e.control).value)
               || (Finishing(e) && e.kind.Tcp? && !env.finish))
  {
    ReadPhaseExtends(e, env.frames);
    ReadPhaseFrame(e, env.frames);
    var (e1, end1) := ReadPhase(e, env.frames);
    SendPhaseFrames(e1, env);
    var (e2, end2) := SendPhase(e1, env);
    var (e3, end3) := AnswerPhase(e2, env);
    assert e3.send == e2.send && e3.dequeued == e2.dequeued;
    assert ReceivePhase(e3, env).send == e3.send && ReceivePhase(e3, env).dequeued == e3.dequeued;
  }

  // ----- the core's answer to a send -----

  /** What the core takes leaves the staging, record by record; what it refuses is dropped;
      what it has no room for stays. */
  lemma PumpMoves(s: Sending, r: CoreSend)
    requires SendInv(s) && TakesAPrefix(s, r) && s.pending != []
    ensures var t := Pump(s, r);
      match r
      case WouldBlock => t == s
      case Refused(errno) =>
        && t.core == s.core && t.pending == s.pending[1..]
        && var front := s.pending[0];
           t.disposed == s.disposed + [Disposal(front.peer, Payload(front), front.offset - HEADER, Some(errno))]
      case Took(count) =>
        && Staged(t.pending) == Staged(s.pending) - count
        && |t.pending| == |s.pending| - (if count == |Left(s.pending[0])| then 1 else 0)
        && Flatten(CoreParts(t.core)) == Flatten(CoreParts(s.core)) + Left(s.pending[0])[..count]
        && Drops(t.disposed) == Drops(s.disposed)
  {
    if r.Took? {
      TookMoves(s, r.count);
    }
  }

  lemma TookMoves(s: Sending, count: nat)
    requires SendInv(s) && s.pending != [] && count <= |Left(s.pending[0])|
    ensures var t := Pump(s, Took(count));
      && Staged(t.pending) == Staged(s.pending) - count
      && |t.pending| == |s.pending| - (if count == |Left(s.pending[0])| then 1 else 0)
      && Flatten(CoreParts(t.core)) == Flatten(CoreParts(s.core)) + Left(s.pending[0])[..count]
      && Drops(t.disposed) == Drops(s.disposed)
  {
    var p, moved := s.pending[0], Taken(s, count);
    TakenReportsNothing(s, Took(count));
    TakeUnstages(s, count);
    CoreSnoc(s.core, Chunk(p.peer, Left(p)[..count]));
    if count == |Left(p)| {
      LeftsCons(moved.pending);
      assert Left(moved.pending[0]) == [];
    } else if count == 0 {
      assert Left(p)[..0] == [];
    }
  }

  /** A staged record while no control is outstanding: the core is offered it in this poll. */
  lemma PollSends(e: Endpoint, env: Env)
    requires Inv(e) && e.control.Running? && e.send.pending != []
    ensures var t, front := Poll(e, env).0.send, e.send.pending[0];
      if e.kind.Listener? || env.send.Refused? then
        var errno := if e.kind.Listener? then EINVAL else env.send.errno;
        && t.core == e.send.core && t.pending == e.send.pending[1..]
        && Reports(Poll(e, env).0.out, Transmit) == Drops(e.send.disposed) + [Notice(errno, 0)]
      else if env.send.WouldBlock? then t == e.send
      else if e.kind.Udp? then
        && |t.pending| == |e.send.pending| - 1
        && Flatten(CoreParts(t.core)) == Flatten(CoreParts(e.send.core)) + Left(front)
      else
        var count := Min(env.send.count, |Left(front)|);
        && Staged(t.pending) == Staged(e.send.pending) - count
        && Flatten(CoreParts(t.core)) == Flatten(CoreParts(e.send.core)) + Left(front)[..count]
  {
    var r := CoreAnswer(e.kind, e.send.pending, env.send);
    PumpMoves(e.send, r);
    assert ReadPhase(e, env.frames) == (e, Open);
    var e2 := SendPhase(e, env).0;
    SendPhaseKeeps(e, env);
    assert AnswerPhase(e2, env) == (e2, Open);
    var e4 := ReceivePhase(e2, env);
    assert Poll(e, env) == (e4, Open);
    OutIsKept(e2, env);
    if r.Refused? {
      DisposeDrops(e.send, Some(r.errno));
    } else if e.kind.Udp? && r.Took? {
      assert Left(e.send.pending[0])[..|Left(e.send.pending[0])|] == Left(e.send.pending[0]);
    }
  }

  lemma OutIsKept(e: Endpoint, env: Env)
    requires Inv(e)
    ensures ReceivePhase(e, env).send == e.send
    ensures Reports(ReceivePhase(e, env).out, Transmit) == Drops(e.send.disposed)
  {
    NoticesAreReported(e.receive, e.out, env.receive, env.room);
  }

  /** A stream at its seal is handed over whole in this poll. */
  lemma PollHandsOver(e: Endpoint, env: Env)
    requires Inv(e) && e.kind.Tcp? && SealOf(e.control) == Some(e.dequeued) && env.finish
    ensures var t := Poll(e, env).0.send;
      && t.pending == []
      && Flatten(CoreParts(t.core)) == Flatten(CoreParts(e.send.core)) + Flatten(Lefts(e.send.pending))
  {
    CoreSnoc(e.send.core, Chunk(None, Flatten(Lefts(e.send.pending))));
    assert ReadPhase(e, env.frames) == (e, Open);
    assert SendPhase(e, env) == (e.(send := Handoff(e.send)), Open);
  }

  // ----- received records -----

  /** The record that the core offers: a piece of a stream, or a datagram with its source. */
  predicate Carries(c: CoreReceive, record: RxRecord) {
    match c
    case Bytes(payload) => record == RxRecord(None, payload)
    case Datagram(source, body) => |body| <= 16384 && record == RxRecord(Some(source), body)
    case _ => false
  }

  /** What the core says instead: a datagram too long, the end of the stream, an error. */
  function Said(c: CoreReceive): seq<Notice> {
    match c
    case Datagram(_, body) => if |body| > 16384 then [Notice(90, 0)] else []
    case EndOfStream => [Notice(0, 4)]
    case Broken(errno) => [Notice(errno, 4)]
    case _ => []
  }

  function Held(r: Receiving): seq<RxRecord> {
    if r.retained.Some? then [r.retained.value] else []
  }

  /** Nothing waits for room and the stream has not ended: the core is asked. */
  predicate Asks(r: Receiving) {
    r.retained.None? && !r.ended
  }

  /** The record offered, as a sequence. */
  function Offered(r: Receiving, c: CoreReceive): seq<RxRecord> {
    if Asks(r) && Admissible(c).Some? then [Admissible(c).value] else []
  }

  lemma OfferedExactly(r: Receiving, c: CoreReceive, record: RxRecord)
    ensures Offered(r, c) == [record] <==> Asks(r) && Carries(c, record)
    ensures |Offered(r, c)| <= 1
  {
  }

  /** Published and held records are those before and the one that the core offered; with
      room, none is held. What the core says otherwise is reported. */
  lemma ReceiveMoves(r: Receiving, out: seq<Output>, c: CoreReceive, room: bool)
    ensures var r', out' := ReceivePoll(r, c, room), out + ReceiveOutput(r, c, room);
      && Published(out') + Held(r') == Published(out) + Held(r) + Offered(r, c)
      && (room ==> Held(r') == [])
      && Reports(out', Receive) == Reports(out, Receive) + (if Asks(r) then Said(c) else [])
      && (r'.ended <==> r.ended || (Asks(r) && (c.EndOfStream? || c.Broken?)))
  {
    var more := ReceiveOutput(r, c, room);
    WrittenOrNoticed(r, c, room);
    ReportsWith(out, more, Receive);
    PublishedWith(out, more);
  }

  lemma PublishedWith(out: seq<Output>, more: seq<Output>)
    requires |more| <= 1
    ensures Published(out + more) == Published(out) + if more != [] && more[0].Rx? then [more[0].record] else []
  {
    if more == [] {
      assert out + more == out;
    } else {
      assert more == [more[0]];
      PublishedSnoc(out, more[0]);
    }
  }

  /** So it is in every poll that stays open and answers no control. */
  lemma PollReceives(e: Endpoint, env: Env)
    requires Inv(e) && e.control.Running? && !e.kind.Listener? && Poll(e, env).1.Open?
    ensures var e' := Poll(e, env).0;
      && Published(e'.out) + Held(e'.receive) == Published(e.out) + Held(e.receive) + Offered(e.receive, env.receive)
      && (env.room ==> Held(e'.receive) == [])
      && Reports(e'.out, Receive) == Reports(e.out, Receive) + (if Asks(e.receive) then Said(env.receive) else [])
      && (e'.receive.ended <==> e.receive.ended || (Asks(e.receive) && (env.receive.EndOfStream? || env.receive.Broken?)))
  {
    var (e1, end1) := ReadPhase(e, env.frames);
    ReadPhaseFrame(e, env.frames);
    var (e2, end2) := SendPhase(e1, env);
    SendPhaseFrames(e1, env);
    SendPhaseWrites(e1, env);
    assert AnswerPhase(e2, env) == (e2, Open);
    ReceiveMoves(e2.receive, e2.out, env.receive, env.room);
  }

  predicate SameButForSending(e: Endpoint, other: Endpoint) {
    && e.kind == other.kind && e.control == other.control && e.out == other.out
    && e.receive == other.receive && e.endedAt == other.endedAt
  }

  lemma ReadPhaseFrame(e: Endpoint, frames: seq<DataRead>)
    ensures SameButForSending(ReadPhase(e, frames).0, e)
  {
    ReadLoopKeeps((x: Endpoint) => SameButForSending(x, e), e, frames, if Finishing(e) then 32 else 1);
  }

  /** Sending writes nothing but its own reports. */
  lemma SendPhaseWrites(e: Endpoint, env: Env)
    ensures var e' := SendPhase(e, env).0;
      && Published(e'.out) == Published(e.out)
      && Reports(e'.out, Receive) == Reports(e.out, Receive)
      && Answers(e'.out) == Answers(e.out)
  {
    if !(Finishing(e) && e.kind.Tcp?) {
      var r := CoreAnswer(e.kind, e.send.pending, env.send);
      var more := PumpOutput(e.send, r);
      PublishedWith(e.out, more);
      ReportsWith(e.out, more, Receive);
      AnswersWith(e.out, more);
    }
  }

  // ----- answers to controls -----

  function Answers(out: seq<Output>): seq<Output> {
    AnswersTo(out, |out|)
  }

  function AnswersTo(out: seq<Output>, n: nat): seq<Output>
    requires n <= |out|
  {
    if n == 0 then [] else AnswersTo(out, n - 1) + if out[n - 1].Answer? then [out[n - 1]] else []
  }

  lemma {:induction false} AnswersPrefix(out: seq<Output>, o: Output, n: nat)
    requires n <= |out|
    ensures AnswersTo(out + [o], n) == AnswersTo(out, n)
  {
    if n > 0 { AnswersPrefix(out, o, n - 1); }
  }

  lemma AnswersWith(out: seq<Output>, more: seq<Output>)
    requires |more| <= 1
    ensures Answers(out + more) == Answers(out) + if more != [] && more[0].Answer? then more else []
  {
    if more == [] {
      assert out + more == out;
    } else {
      assert more == [more[0]];
      AnswersPrefix(out, more[0], |out|);
    }
  }

  /** This poll settled the control that was outstanding. */
  predicate Settles(e: Endpoint, env: Env) {
    var (e', end) := Poll(e, env);
    !e.control.Running? && (end.Closed? || (end.Open? && e'.control.Running?))
  }

  /** The error number of the answer: the core's for a shutdown, none for a close. */
  function ErrnoOf(c: Control, env: Env): nat {
    if c.Shutdown? then env.shutdownErrno else 0
  }

  lemma AnswerPhaseAnswers(e: Endpoint, env: Env)
    ensures var (e', end) := AnswerPhase(e, env);
      var settled := !e.control.Running? && MayAnswer(e);
      && (settled <==> !e.control.Running? && (end.Closed? || e'.control.Running?))
      && (end.Closed? <==> settled && e.control.Close?) && (end.Open? || end.Closed?)
      && Answers(e'.out) == Answers(e.out)
           + (if settled && e.control.request != 0 then [Answer(e.control.request, ErrnoOf(e.control, env))] else [])
      && e'.send == e.send && e'.dequeued == e.dequeued
      && (if settled then e'.control == Running else e' == e)
      && (e'.receive.ended <==> e.receive.ended || (settled && EndsReceiving(e.control, env)))
  {
    if !e.control.Running? && MayAnswer(e) {
      AnswersWith(e.out, Reply(e.control.request, ErrnoOf(e.control, env)));
    } else {
      assert Answers(e.out) + [] == Answers(e.out);
    }
  }

  /** A close ends the receive side; so does a shutdown of it that the core accepts. */
  predicate EndsReceiving(c: Control, env: Env) {
    c.Close? || (c.Shutdown? && !c.how.TxOnly? && env.shutdownErrno == 0)
  }

  lemma ReceivePhaseAnswers(e: Endpoint, env: Env)
    ensures Answers(ReceivePhase(e, env).out) == Answers(e.out)
    ensures ReceivePhase(e, env).send == e.send && ReceivePhase(e, env).dequeued == e.dequeued
    ensures ReceivePhase(e, env).control == e.control
    ensures e.receive.ended ==> ReceivePhase(e, env).receive.ended
  {
    WrittenOrNoticed(e.receive, env.receive, env.room);
    if !e.kind.Listener? { AnswersWith(e.out, ReceiveOutput(e.receive, env.receive, env.room)); }
  }

  /** A poll answers the outstanding control, under its own request number and with the
      error it calls for, exactly if it settles it; and it settles it exactly if it does not
      end in a fault and nothing is staged with the position at the seal, or only the
      receive side is to be shut. It closes the endpoint exactly by settling a close. */
  lemma PollAnswers(e: Endpoint, env: Env)
    ensures var (e', end) := Poll(e, env);
      && Answers(e'.out) == Answers(e.out)
           + (if Settles(e, env) && e.control.request != 0 then [Answer(e.control.request, ErrnoOf(e.control, env))] else [])
      && (Settles(e, env) <==>
            && !e.control.Running? && (end.Open? || end.Closed?)
            && (|| e.control == Shutdown(e.control.request, RxOnly, e.control.seal)
                || (e'.send.pending == [] && SealOf(e.control) == Some(e'.dequeued))))
      && (end.Closed? <==> Settles(e, env) && e.control.Close?)
      && (Settles(e, env) && EndsReceiving(e.control, env) ==> e'.receive.ended)
      && e'.control == (if Settles(e, env) then Running else e.control)
  {
    var (e1, end1) := ReadPhase(e, env.frames);
    ReadPhaseFrame(e, env.frames);
    ReadPhaseEnds(e, env.frames);
    assert Answers(e.out) + [] == Answers(e.out);
    if end1.Open? {
      var (e2, end2) := SendPhase(e1, env);
      SendPhaseFrames(e1, env);
      SendPhaseWrites(e1, env);
      if end2.Open? {
        var (e3, end3) := AnswerPhase(e2, env);
        AnswerPhaseAnswers(e2, env);
        ReceivePhaseAnswers(e3, env);
      }
    }
  }

  lemma ReadPhaseEnds(e: Endpoint, frames: seq<DataRead>)
    ensures !ReadPhase(e, frames).1.Closed?
  {
    ReadLoopEnds(e, frames, if Finishing(e) then 32 else 1);
  }

  lemma {:induction false} ReadLoopEnds(e: Endpoint, frames: seq<DataRead>, limit: nat)
    ensures !ReadLoop(e, frames, limit).1.Closed?
    decreases limit
  {
    if limit > 0 {
      var turn := ReadTurn(e, frames);
      if turn.Next? { ReadLoopEnds(turn.endpoint, frames[1..], limit - 1); }
    }
  }

  /** The request numbers of the answers written, and of the control still outstanding. */
  function Ids(answers: seq<Output>): seq<nat> {
    seq(|answers|, i requires 0 <= i < |answers| => if answers[i].Answer? then answers[i].request else 0)
  }

  function Outstanding(c: Control): seq<nat> {
    if c.Running? || c.request == 0 then [] else [c.request]
  }

  /** The request numbers of the controls that arrived, in order. */
  function Requested(steps: seq<Step>): seq<nat> {
    if steps == [] then []
    else (if steps[0].Arrive? then Outstanding(steps[0].control) else []) + Requested(steps[1..])
  }

  /** Answered, and to be answered. */
  function Owes(e: Endpoint): seq<nat> {
    Ids(Answers(e.out)) + Outstanding(e.control)
  }

  lemma PollOwes(e: Endpoint, env: Env)
    ensures Owes(Poll(e, env).0) == Owes(e)
  {
    PollAnswers(e, env);
    var e' := Poll(e, env).0;
    if Settles(e, env) && e.control.request != 0 {
      assert Ids(Answers(e'.out)) == Ids(Answers(e.out)) + [e.control.request];
    } else {
      assert Answers(e'.out) == Answers(e.out);
    }
  }

  lemma ArriveOwes(e: Endpoint, control: Control)
    requires e.control.Running?
    ensures Owes(e.(control := control)) == Owes(e) + Outstanding(control)
  {
    assert Ids(Answers(e.out)) + [] == Ids(Answers(e.out));
  }

  lemma {:induction false} RunOwes(e: Endpoint, steps: seq<Step>)
    requires IsRun(e, steps)
    ensures Owes(After(e, steps)) == Owes(e) + Requested(steps)
    decreases |steps|
  {
    if steps != [] {
      match steps[0]
      case Arrive(control) =>
        ArriveOwes(e, control);
        RunOwes(e.(control := control), steps[1..]);
        Associate(Owes(e), Outstanding(control), Requested(steps[1..]));
      case Polls(env) =>
        PollOwes(e, env);
        RunOwes(Poll(e, env).0, steps[1..]);
        assert [] + Requested(steps[1..]) == Requested(steps[1..]);
    }
  }

  /** Every control that arrived in a run was answered once, in order, but for the one that
      is still outstanding. */
  lemma EveryControlIsAnsweredOnce(kind: Kind, steps: seq<Step>)
    requires IsRun(Fresh(kind), steps)
    ensures var e := After(Fresh(kind), steps); Ids(Answers(e.out)) + Outstanding(e.control) == Requested(steps)
  {
    RunOwes(Fresh(kind), steps);
    assert Owes(Fresh(kind)) == [];
    assert [] + Requested(steps) == Requested(steps);
  }

  /** The core was given, in order, each dequeued record that was not dropped: in one piece
      and for the peer in its header. */
  ghost predicate Delivers(s: Sending) {
    && |s.disposed| <= |s.frames|
    && s.core == Handed(s.frames, s.disposed, |s.disposed|)
    && forall i :: 0 <= i < |s.disposed| ==> Headed(s.frames[i])
  }

  /** So it is over any run of a datagram socket. */
  lemma DatagramsReachTheirPeers(kind: Kind, steps: seq<Step>)
    requires kind.Udp? && IsRun(Fresh(kind), steps)
    ensures Delivers(After(Fresh(kind), steps).send)
  {
    RunsFromTheStart(kind, steps);
    KindIsKept(Fresh(kind), steps);
    InvDelivers(After(Fresh(kind), steps));
  }

  lemma InvDelivers(e: Endpoint)
    requires Inv(e) && e.kind.Udp?
    ensures Delivers(e.send)
  {
  }

  lemma HandedIsTheRecord(frames: seq<seq<byte>>, ds: seq<Disposal>, n: nat)
    requires n < |ds| <= |frames| && Headed(frames[n])
    ensures |frames[n]| >= 24 && ParseAddress(frames[n][..24]).Ok?
    ensures Handed(frames, ds, n + 1) == Handed(frames, ds, n)
              + (if ds[n].error.Some? then [] else [Chunk(ParseAddress(frames[n][..24]).value, frames[n][24..])])
  {
  }

  lemma {:induction false} KindIsKept(e: Endpoint, steps: seq<Step>)
    requires IsRun(e, steps)
    ensures After(e, steps).kind == e.kind
    decreases |steps|
  {
    if steps != [] {
      match steps[0]
      case Arrive(control) =>
        KindIsKept(e.(control := control), steps[1..]);
      case Polls(env) =>
        PollKind(e, env);
        KindIsKept(Poll(e, env).0, steps[1..]);
    }
  }

  lemma PollKind(e: Endpoint, env: Env)
    ensures Poll(e, env).0.kind == e.kind
  {
    ReadPhaseFrame(e, env.frames);
    SendPhaseFrames(ReadPhase(e, env.frames).0, env);
  }
}
