/** The send and receive tasks of one socket. Sends may be taken in part; a terminal
    handoff is all or nothing; a record that the endpoint will not take yet is
    retained. The state carries the history the theorems speak about. */
module SocketTasks {
  import opened Common
  import opened SocketAddresses

  const HEADER: nat := 24
  const PAYLOAD: nat := 16384
  const EMSGSIZE: nat := 90

  /** Which task a state report comes from: history, the message does not say. */
  datatype Origin = Transmit | Receive

  /** An error number, and flags of which 4 ends the receive side. */
  datatype Notice = Notice(errno: nat, flags: nat)

  /** What the worker writes back: a received record, a state report, the answer to a
      control. */
  datatype Output =
    | Rx(record: RxRecord)
    | Status(origin: Origin, notice: Notice)
    | Answer(request: nat, errno: nat)

  /** The state reports of one task, in order. */
  function Reports(out: seq<Output>, origin: Origin): seq<Notice> {
    ReportsTo(out, |out|, origin)
  }

  function ReportsTo(out: seq<Output>, n: nat, origin: Origin): seq<Notice>
    requires n <= |out|
  {
    if n == 0 then [] else ReportsTo(out, n - 1, origin) + ReportOf(out[n - 1], origin)
  }

  function ReportOf(o: Output, origin: Origin): seq<Notice> {
    if o.Status? && o.origin == origin then [o.notice] else []
  }

  lemma {:induction false} ReportsPrefix(out: seq<Output>, o: Output, n: nat, origin: Origin)
    requires n <= |out|
    ensures ReportsTo(out + [o], n, origin) == ReportsTo(out, n, origin)
  {
    if n > 0 { ReportsPrefix(out, o, n - 1, origin); }
  }

  lemma ReportsSnoc(out: seq<Output>, o: Output, origin: Origin)
    ensures Reports(out + [o], origin) == Reports(out, origin) + ReportOf(o, origin)
  {
    ReportsPrefix(out, o, |out|, origin);
  }

  /** At most one output is written at a time. */
  lemma ReportsWith(out: seq<Output>, more: seq<Output>, origin: Origin)
    requires |more| <= 1
    ensures Reports(out + more, origin) == Reports(out, origin) + if more == [] then [] else ReportOf(more[0], origin)
  {
    if more == [] {
      assert out + more == out;
    } else {
      assert more == [more[0]];
      ReportsSnoc(out, more[0], origin);
    }
  }

  function Flatten(parts: seq<seq<byte>>): seq<byte> {
    if parts == [] then [] else parts[0] + Flatten(parts[1..])
  }

  lemma {:induction false} FlattenAppend(a: seq<seq<byte>>, b: seq<seq<byte>>)
    ensures Flatten(a + b) == Flatten(a) + Flatten(b)
  {
    if a == [] {
      assert a + b == b;
    } else {
      FlattenAppend(a[1..], b);
      assert (a + b)[1..] == a[1..] + b;
      Associate(a[0], Flatten(a[1..]), Flatten(b));
    }
  }

  lemma FlattenOne(part: seq<byte>)
    ensures Flatten([part]) == part
  {
    assert Flatten([part][1..]) == [];
  }

  // ----- sending -----

  datatype PendingSend = PendingSend(peer: Option<Address>, data: seq<byte>, offset: nat)

  predicate Sane(p: PendingSend) {
    HEADER <= p.offset <= |p.data|
  }

  function Payload(p: PendingSend): seq<byte> {
    if |p.data| < HEADER then [] else p.data[HEADER..]
  }

  function Left(p: PendingSend): seq<byte> {
    if |p.data| < p.offset then [] else p.data[p.offset..]
  }

  /** How an admitted record ended: how much of it the core took, and the error over
      which the rest was dropped. */
  datatype Disposal = Disposal(peer: Option<Address>, payload: seq<byte>, taken: nat, error: Option<nat>)

  predicate Complete(d: Disposal) {
    d.taken <= |d.payload| && (d.error.None? ==> d.taken == |d.payload|)
  }

  /** The reports that the dropped records call for, in order. */
  function Drops(ds: seq<Disposal>): seq<Notice> {
    DropsTo(ds, |ds|)
  }

  function DropsTo(ds: seq<Disposal>, n: nat): seq<Notice>
    requires n <= |ds|
  {
    if n == 0 then [] else DropsTo(ds, n - 1) + DropOf(ds[n - 1])
  }

  function DropOf(d: Disposal): seq<Notice> {
    if d.error.Some? then [Notice(d.error.value, 0)] else []
  }

  lemma {:induction false} DropsPrefix(ds: seq<Disposal>, more: seq<Disposal>, n: nat)
    requires n <= |ds|
    ensures DropsTo(ds + more, n) == DropsTo(ds, n)
  {
    if n > 0 { DropsPrefix(ds, more, n - 1); }
  }

  lemma DropsSnoc(ds: seq<Disposal>, d: Disposal)
    ensures Drops(ds + [d]) == Drops(ds) + DropOf(d)
  {
    DropsPrefix(ds, [d], |ds|);
  }

  /** Records that were not dropped call for no report. */
  lemma {:induction false} WholeDropNothing(ds: seq<Disposal>, from: nat, n: nat)
    requires from <= n <= |ds| && forall i :: from <= i < n ==> ds[i].error.None?
    ensures DropsTo(ds, n) == DropsTo(ds, from)
    decreases n
  {
    if from < n { WholeDropNothing(ds, from, n - 1); }
  }

  lemma DropsAppendWhole(ds: seq<Disposal>, more: seq<Disposal>)
    requires forall i :: 0 <= i < |more| ==> more[i].error.None?
    ensures Drops(ds + more) == Drops(ds)
  {
    DropsPrefix(ds, more, |ds|);
    WholeDropNothing(ds + more, |ds|, |ds + more|);
  }

  /** One transfer of bytes to the core socket. */
  datatype Chunk = Chunk(peer: Option<Address>, bytes: seq<byte>)

  /** `frames`, `disposed` and `core` are history: the records dequeued, with their headers,
      how each ended, and what the core was given. */
  datatype Sending = Sending(
    pending: seq<PendingSend>,
    frames: seq<seq<byte>>,
    disposed: seq<Disposal>,
    core: seq<Chunk>)

  const NOTHING_SENT := Sending([], [], [], [])

  function AdmittedPeer(data: seq<byte>): Option<Option<Address>> {
    if |data| < HEADER then None else
    match ParseAddress(data[..HEADER])
    case Ok(peer) => Some(peer)
    case Err(_) => None
  }

  function Admit(s: Sending, data: seq<byte>): Sending
    requires AdmittedPeer(data).Some?
  {
    s.(pending := s.pending + [PendingSend(AdmittedPeer(data).value, data, HEADER)],
       frames := s.frames + [data])
  }

  /** What a dequeued record holds behind its header, and the peer that the header names. */
  function Body(frame: seq<byte>): seq<byte> {
    if |frame| < HEADER then [] else frame[HEADER..]
  }

  function Bodies(frames: seq<seq<byte>>): seq<seq<byte>> {
    seq(|frames|, i requires 0 <= i < |frames| => Body(frames[i]))
  }

  function PeerOf(frame: seq<byte>): Option<Address> {
    if Headed(frame) then ParseAddress(frame[..HEADER]).value else None
  }

  predicate Headed(frame: seq<byte>) {
    |frame| >= HEADER && ParseAddress(frame[..HEADER]).Ok?
  }

  /** The core's reaction to one send. */
  datatype CoreSend = Took(count: nat) | WouldBlock | Refused(errno: nat)

  /** The core takes a prefix. */
  predicate TakesAPrefix(s: Sending, r: CoreSend) {
    s.pending != [] && r.Took? ==> r.count <= |Left(s.pending[0])|
  }

  predicate Stalls(s: Sending, r: CoreSend) {
    s.pending == [] || r.WouldBlock? || (r == Took(0) && s.pending[0].offset != |s.pending[0].data|)
  }

  /** How much of a record's payload the core has taken. */
  function TakenOf(p: PendingSend): nat {
    if p.offset < HEADER then 0 else p.offset - HEADER
  }

  function Ended(p: PendingSend, error: Option<nat>): Disposal {
    Disposal(p.peer, Payload(p), TakenOf(p), error)
  }

  function Dispose(s: Sending, error: Option<nat>): Sending
    requires s.pending != []
  {
    s.(pending := s.pending[1..], disposed := s.disposed + [Ended(s.pending[0], error)])
  }

  /** One attempt to move the front record on. */
  function Pump(s: Sending, r: CoreSend): Sending
    requires TakesAPrefix(s, r)
  {
    if Stalls(s, r) then s
    else if r.Refused? then Dispose(s, Some(r.errno))
    else
      var t := Taken(s, r.count);
      if t.pending[0].offset == |t.pending[0].data| then Dispose(t, None) else t
  }

  function PumpOutput(s: Sending, r: CoreSend): seq<Output> {
    if s.pending != [] && r.Refused? then [Status(Transmit, Notice(r.errno, 0))] else []
  }

  ghost predicate AllSane(pending: seq<PendingSend>) {
    forall i :: 0 <= i < |pending| ==> Sane(pending[i])
  }

  function Lefts(pending: seq<PendingSend>): seq<seq<byte>> {
    seq(|pending|, i requires 0 <= i < |pending| => Left(pending[i]))
  }

  function Payloads(pending: seq<PendingSend>): seq<seq<byte>> {
    seq(|pending|, i requires 0 <= i < |pending| => Payload(pending[i]))
  }

  function DisposedPayloads(ds: seq<Disposal>): seq<seq<byte>> {
    seq(|ds|, i requires 0 <= i < |ds| => ds[i].payload)
  }

  function TakenParts(ds: seq<Disposal>): seq<seq<byte>> {
    seq(|ds|, i requires 0 <= i < |ds| => if ds[i].taken <= |ds[i].payload| then ds[i].payload[..ds[i].taken] else [])
  }

  function CoreParts(core: seq<Chunk>): seq<seq<byte>> {
    seq(|core|, i requires 0 <= i < |core| => core[i].bytes)
  }

  /** Everything staged has been handed over in one piece. */
  function Handoff(s: Sending): Sending {
    s.(pending := [], core := s.core + [Chunk(None, Flatten(Lefts(s.pending)))], disposed := s.disposed + Finished(s.pending))
  }

  function Finished(pending: seq<PendingSend>): seq<Disposal> {
    seq(|pending|, i requires 0 <= i < |pending| => Disposal(pending[i].peer, Payload(pending[i]), |Payload(pending[i])|, None))
  }

  function Staged(pending: seq<PendingSend>): nat {
    |Flatten(Lefts(pending))|
  }

  /** What the core has of the record at the front. */
  function Partial(pending: seq<PendingSend>): seq<byte> {
    if pending == [] || !Sane(pending[0]) then [] else pending[0].data[HEADER..pending[0].offset]
  }

  lemma PayloadsCons(pending: seq<PendingSend>)
    requires pending != []
    ensures Payloads(pending) == [Payload(pending[0])] + Payloads(pending[1..])
  {
  }

  lemma LeftsCons(pending: seq<PendingSend>)
    requires pending != []
    ensures Lefts(pending) == [Left(pending[0])] + Lefts(pending[1..])
    ensures Flatten(Lefts(pending)) == Left(pending[0]) + Flatten(Lefts(pending[1..]))
  {
    assert Lefts(pending) == [Left(pending[0])] + Lefts(pending[1..]);
    FlattenAppend([Left(pending[0])], Lefts(pending[1..]));
    FlattenOne(Left(pending[0]));
  }

  lemma DisposedSnoc(ds: seq<Disposal>, d: Disposal)
    requires d.taken <= |d.payload|
    ensures DisposedPayloads(ds + [d]) == DisposedPayloads(ds) + [d.payload]
    ensures TakenParts(ds + [d]) == TakenParts(ds) + [d.payload[..d.taken]]
    ensures Flatten(TakenParts(ds + [d])) == Flatten(TakenParts(ds)) + d.payload[..d.taken]
  {
    assert TakenParts(ds + [d]) == TakenParts(ds) + [d.payload[..d.taken]];
    FlattenAppend(TakenParts(ds), [d.payload[..d.taken]]);
    FlattenOne(d.payload[..d.taken]);
  }

  lemma CoreSnoc(core: seq<Chunk>, c: Chunk)
    ensures Flatten(CoreParts(core + [c])) == Flatten(CoreParts(core)) + c.bytes
  {
    assert CoreParts(core + [c]) == CoreParts(core) + [c.bytes];
    FlattenAppend(CoreParts(core), [c.bytes]);
    FlattenOne(c.bytes);
  }

  /** Conservation: the dequeued records are, in order, the ones disposed of and the
      ones pending; the bytes the core took are, in order, what each disposal says it
      took and the part of the front record taken so far; only a dropped record
      is short. */
  ghost predicate SendInv(s: Sending) {
    && AllSane(s.pending)
    && (forall i :: 0 < i < |s.pending| ==> s.pending[i].offset == HEADER)
    && Bodies(s.frames) == DisposedPayloads(s.disposed) + Payloads(s.pending)
    && (forall i :: 0 <= i < |s.disposed| ==> Complete(s.disposed[i]))
    && Flatten(CoreParts(s.core)) == Flatten(TakenParts(s.disposed)) + Partial(s.pending)
  }

  lemma AdmitKeeps(s: Sending, data: seq<byte>)
    requires SendInv(s) && AdmittedPeer(data).Some?
    ensures SendInv(Admit(s, data))
    ensures Staged(Admit(s, data).pending) == Staged(s.pending) + |data| - HEADER
  {
    var s' := Admit(s, data);
    var p := PendingSend(AdmittedPeer(data).value, data, HEADER);
    assert Payloads(s'.pending) == Payloads(s.pending) + [data[HEADER..]];
    assert Bodies(s'.frames) == Bodies(s.frames) + [data[HEADER..]];
    Associate(DisposedPayloads(s.disposed), Payloads(s.pending), [data[HEADER..]]);
    assert Lefts(s'.pending) == Lefts(s.pending) + [Left(p)];
    FlattenAppend(Lefts(s.pending), [Left(p)]);
    FlattenOne(Left(p));
  }

  /** The part of the front record that the core took counts as taken from now on. */
  lemma DisposeBytes(s: Sending, error: Option<nat>)
    requires SendInv(s) && s.pending != []
    ensures var s' := Dispose(s, error);
      Partial(s'.pending) == [] && Flatten(TakenParts(s'.disposed)) == Flatten(TakenParts(s.disposed)) + Partial(s.pending)
  {
    var d := Ended(s.pending[0], error);
    DisposedSnoc(s.disposed, d);
    assert d.payload[..d.taken] == Partial(s.pending);
  }

  lemma DisposeRecords(s: Sending, error: Option<nat>)
    requires SendInv(s) && s.pending != []
    ensures Bodies(s.frames) == DisposedPayloads(Dispose(s, error).disposed) + Payloads(s.pending[1..])
  {
    DisposedSnoc(s.disposed, Ended(s.pending[0], error));
    PayloadsCons(s.pending);
    Associate(DisposedPayloads(s.disposed), [Payload(s.pending[0])], Payloads(s.pending[1..]));
  }

  lemma DisposeKeeps(s: Sending, error: Option<nat>)
    requires SendInv(s) && s.pending != []
    requires error.None? ==> s.pending[0].offset == |s.pending[0].data|
    ensures SendInv(Dispose(s, error))
    ensures Staged(Dispose(s, error).pending) <= Staged(s.pending)
  {
    DisposeBytes(s, error);
    DisposeRecords(s, error);
    LeftsCons(s.pending);
  }

  function Taken(s: Sending, count: nat): Sending
    requires s.pending != [] && count <= |Left(s.pending[0])|
  {
    var p := s.pending[0];
    s.(pending := [p.(offset := p.offset + count)] + s.pending[1..], core := s.core + [Chunk(p.peer, Left(p)[..count])])
  }

  lemma TakeMovesBytes(s: Sending, count: nat)
    requires SendInv(s) && s.pending != [] && count <= |Left(s.pending[0])|
    ensures var t := Taken(s, count); Flatten(CoreParts(t.core)) == Flatten(TakenParts(t.disposed)) + Partial(t.pending)
  {
    var p, t := s.pending[0], Taken(s, count);
    var bytes := Left(p)[..count];
    CoreSnoc(s.core, Chunk(p.peer, bytes));
    assert Partial(t.pending) == Partial(s.pending) + bytes;
    Associate(Flatten(TakenParts(s.disposed)), Partial(s.pending), bytes);
  }

  lemma TakeKeeps(s: Sending, count: nat)
    requires SendInv(s) && s.pending != [] && count <= |Left(s.pending[0])|
    ensures SendInv(Taken(s, count))
  {
    TakeMovesBytes(s, count);
    assert Payloads(Taken(s, count).pending) == Payloads(s.pending);
  }

  lemma TakeUnstages(s: Sending, count: nat)
    requires AllSane(s.pending) && s.pending != [] && count <= |Left(s.pending[0])|
    ensures AllSane(Taken(s, count).pending) && Staged(Taken(s, count).pending) == Staged(s.pending) - count
  {
    var t := Taken(s, count);
    LeftsCons(s.pending);
    LeftsCons(t.pending);
    assert t.pending[1..] == s.pending[1..];
  }

  lemma ReportsOne(o: Output, origin: Origin)
    ensures Reports([o], origin) == ReportOf(o, origin)
  {
    ReportsWith([], [o], origin);
    assert [] + [o] == [o];
  }

  lemma ErrorReport(errno: nat)
    ensures Reports([Status(Transmit, Notice(errno, 0))], Transmit) == [Notice(errno, 0)]
    ensures Reports([Status(Transmit, Notice(errno, 0))], Receive) == []
  {
    ReportsOne(Status(Transmit, Notice(errno, 0)), Transmit);
    ReportsOne(Status(Transmit, Notice(errno, 0)), Receive);
  }

  lemma DisposeDrops(s: Sending, error: Option<nat>)
    requires s.pending != []
    ensures Drops(Dispose(s, error).disposed) == Drops(s.disposed) + if error.Some? then [Notice(error.value, 0)] else []
  {
    DropsSnoc(s.disposed, Ended(s.pending[0], error));
  }

  /** A dropped record is reported with its error, and nothing else is. */
  lemma PumpReports(s: Sending, r: CoreSend)
    requires TakesAPrefix(s, r)
    ensures Drops(Pump(s, r).disposed) == Drops(s.disposed) + Reports(PumpOutput(s, r), Transmit)
    ensures Reports(PumpOutput(s, r), Receive) == []
  {
    if s.pending != [] && r.Refused? {
      DisposeDrops(s, Some(r.errno));
      ErrorReport(r.errno);
    } else {
      TakenReportsNothing(s, r);
    }
  }

  lemma TakenReportsNothing(s: Sending, r: CoreSend)
    requires TakesAPrefix(s, r) && (s.pending == [] || !r.Refused?)
    ensures Drops(Pump(s, r).disposed) == Drops(s.disposed)
  {
    if !Stalls(s, r) {
      DisposeDrops(Taken(s, r.count), None);
    }
  }

  lemma PumpKeeps(s: Sending, r: CoreSend)
    requires SendInv(s) && TakesAPrefix(s, r)
    ensures SendInv(Pump(s, r)) && Staged(Pump(s, r).pending) <= Staged(s.pending)
    ensures Pump(s, r).frames == s.frames
    ensures Drops(Pump(s, r).disposed) == Drops(s.disposed) + Reports(PumpOutput(s, r), Transmit)
  {
    PumpReports(s, r);
    if Stalls(s, r) {
    } else if r.Refused? {
      DisposeKeeps(s, Some(r.errno));
    } else {
      TakeKeeps(s, r.count);
      TakeUnstages(s, r.count);
      var t := Taken(s, r.count);
      if t.pending[0].offset == |t.pending[0].data| {
        DisposeKeeps(t, None);
      }
    }
  }

  /** Each record is still staged as it was dequeued, for the peer that its header names. */
  ghost predicate Addressed(s: Sending) {
    && |s.frames| == |s.disposed| + |s.pending|
    && (forall i :: 0 <= i < |s.disposed| ==> Headed(s.frames[i]) && s.disposed[i].peer == PeerOf(s.frames[i]))
    && (forall i :: 0 <= i < |s.pending| ==> Staging(s.pending[i], s.frames[|s.disposed| + i]))
  }

  predicate Staging(p: PendingSend, frame: seq<byte>) {
    Headed(frame) && p.data == frame && p.peer == PeerOf(frame)
  }

  lemma AdmitIsAddressed(s: Sending, data: seq<byte>)
    requires Addressed(s) && AdmittedPeer(data).Some?
    ensures Addressed(Admit(s, data))
  {
  }

  lemma DisposeIsAddressed(s: Sending, error: Option<nat>)
    requires Addressed(s) && s.pending != []
    ensures Addressed(Dispose(s, error))
  {
    assert Staging(s.pending[0], s.frames[|s.disposed|]);
    forall i | 0 <= i < |s.pending| - 1 ensures Staging(s.pending[1..][i], s.frames[|s.disposed| + 1 + i]) {
      assert Staging(s.pending[i + 1], s.frames[|s.disposed| + (i + 1)]);
    }
  }

  lemma TakeIsAddressed(s: Sending, count: nat)
    requires Addressed(s) && s.pending != [] && count <= |Left(s.pending[0])|
    ensures Addressed(Taken(s, count))
  {
    var t := Taken(s, count);
    forall i | 0 <= i < |s.pending| ensures Staging(t.pending[i], s.frames[|s.disposed| + i]) {
      assert Staging(s.pending[i], s.frames[|s.disposed| + i]);
      assert i > 0 ==> t.pending[i] == s.pending[i];
    }
  }

  lemma PumpIsAddressed(s: Sending, r: CoreSend)
    requires Addressed(s) && TakesAPrefix(s, r)
    ensures Addressed(Pump(s, r))
  {
    if Stalls(s, r) {
    } else if r.Refused? {
      DisposeIsAddressed(s, Some(r.errno));
    } else {
      TakeIsAddressed(s, r.count);
      DisposeIsAddressed(Taken(s, r.count), None);
    }
  }

  lemma HandoffIsAddressed(s: Sending)
    requires Addressed(s)
    ensures Addressed(Handoff(s))
  {
    var ended := Handoff(s).disposed;
    forall i | 0 <= i < |ended| ensures Headed(s.frames[i]) && ended[i].peer == PeerOf(s.frames[i]) {
      if i >= |s.disposed| {
        assert Staging(s.pending[i - |s.disposed|], s.frames[i]);
      }
    }
  }

  /** A datagram socket gives the core, in order, each record that was not dropped: in one
      piece, and for the peer that its header names. */
  ghost predicate WholeDatagrams(s: Sending) {
    && |s.disposed| <= |s.frames|
    && (s.pending != [] ==> s.pending[0].offset == HEADER)
    && s.core == Handed(s.frames, s.disposed, |s.disposed|)
  }

  function Handed(frames: seq<seq<byte>>, ds: seq<Disposal>, n: nat): seq<Chunk>
    requires n <= |ds| <= |frames|
  {
    if n == 0 then [] else Handed(frames, ds, n - 1) + HandedOf(frames[n - 1], ds[n - 1])
  }

  function HandedOf(frame: seq<byte>, d: Disposal): seq<Chunk> {
    if d.error.Some? then [] else [Chunk(PeerOf(frame), Body(frame))]
  }

  lemma {:induction false} HandedBefore(frames: seq<seq<byte>>, ds: seq<Disposal>, d: Disposal, n: nat)
    requires n <= |ds| < |frames|
    ensures Handed(frames, ds + [d], n) == Handed(frames, ds, n)
  {
    if n > 0 { HandedBefore(frames, ds, d, n - 1); }
  }

  lemma {:induction false} HandedAmong(frames: seq<seq<byte>>, frame: seq<byte>, ds: seq<Disposal>, n: nat)
    requires n <= |ds| <= |frames|
    ensures Handed(frames + [frame], ds, n) == Handed(frames, ds, n)
  {
    if n > 0 { HandedAmong(frames, frame, ds, n - 1); }
  }

  lemma HandedSnoc(frames: seq<seq<byte>>, ds: seq<Disposal>, d: Disposal)
    requires |ds| < |frames|
    ensures Handed(frames, ds + [d], |ds| + 1) == Handed(frames, ds, |ds|) + HandedOf(frames[|ds|], d)
  {
    HandedBefore(frames, ds, d, |ds|);
  }

  lemma WholeAdmitKeeps(s: Sending, data: seq<byte>)
    requires Addressed(s) && WholeDatagrams(s) && AdmittedPeer(data).Some?
    ensures WholeDatagrams(Admit(s, data))
  {
    HandedAmong(s.frames, data, s.disposed, |s.disposed|);
  }

  lemma WholePumpKeeps(s: Sending, r: CoreSend)
    requires SendInv(s) && Addressed(s) && WholeDatagrams(s) && TakesAPrefix(s, r)
    requires s.pending != [] && r.Took? ==> r.count == |Left(s.pending[0])|
    ensures WholeDatagrams(Pump(s, r))
  {
    if !Stalls(s, r) {
      var p := s.pending[0];
      if r.Took? {
        WholeTake(s, p);
      } else {
        HandedSnoc(s.frames, s.disposed, Ended(p, Some(r.errno)));
        assert s.core + [] == s.core;
      }
    }
  }

  lemma WholeTake(s: Sending, p: PendingSend)
    requires AllSane(s.pending) && Addressed(s) && WholeDatagrams(s) && s.pending != [] && p == s.pending[0]
    requires forall i :: 0 < i < |s.pending| ==> s.pending[i].offset == HEADER
    ensures WholeDatagrams(Pump(s, Took(|Left(p)|)))
  {
    var t := Taken(s, |Left(p)|);
    var frame := s.frames[|s.disposed|];
    assert Staging(s.pending[0], frame);
    assert Left(p)[..|Left(p)|] == Body(frame);
    assert t.pending[1..] == s.pending[1..];
    HandedSnoc(s.frames, s.disposed, Ended(t.pending[0], None));
  }

  /** Only the front record is partly taken, so what is left behind it is whole. */
  lemma PayloadsAreTakenAndLeft(s: Sending)
    requires SendInv(s)
    ensures Flatten(Payloads(s.pending)) == Partial(s.pending) + Flatten(Lefts(s.pending))
  {
    if s.pending != [] {
      var p, rest := s.pending[0], s.pending[1..];
      PayloadsCons(s.pending);
      LeftsCons(s.pending);
      assert Payloads(rest) == Lefts(rest);
      FlattenAppend([Payload(p)], Payloads(rest));
      FlattenOne(Payload(p));
      assert Payload(p) == Partial(s.pending) + Left(p);
      Associate(Partial(s.pending), Left(p), Flatten(Lefts(rest)));
    }
  }

  lemma WholePartsAreTaken(ds: seq<Disposal>)
    requires forall i :: 0 <= i < |ds| ==> ds[i].taken == |ds[i].payload|
    ensures TakenParts(ds) == DisposedPayloads(ds)
  {
    forall i | 0 <= i < |ds| ensures TakenParts(ds)[i] == ds[i].payload {
      assert ds[i].payload[..ds[i].taken] == ds[i].payload;
    }
  }

  lemma FinishedIsWhole(s: Sending)
    ensures DisposedPayloads(s.disposed + Finished(s.pending)) == DisposedPayloads(s.disposed) + Payloads(s.pending)
    ensures TakenParts(s.disposed + Finished(s.pending)) == TakenParts(s.disposed) + Payloads(s.pending)
  {
    WholePartsAreTaken(Finished(s.pending));
    assert DisposedPayloads(Finished(s.pending)) == Payloads(s.pending);
    assert TakenParts(s.disposed + Finished(s.pending)) == TakenParts(s.disposed) + TakenParts(Finished(s.pending));
  }

  lemma HandoffBytes(s: Sending)
    requires SendInv(s)
    ensures Flatten(CoreParts(Handoff(s).core)) == Flatten(TakenParts(Handoff(s).disposed))
  {
    var all := Flatten(Lefts(s.pending));
    FinishedIsWhole(s);
    FlattenAppend(TakenParts(s.disposed), Payloads(s.pending));
    PayloadsAreTakenAndLeft(s);
    CoreSnoc(s.core, Chunk(None, all));
    Associate(Flatten(TakenParts(s.disposed)), Partial(s.pending), all);
  }

  lemma HandoffKeeps(s: Sending)
    requires SendInv(s)
    ensures SendInv(Handoff(s))
  {
    HandoffBytes(s);
    FinishedIsWhole(s);
    assert Payloads([]) == [] && Partial([]) == [];
  }

  /** Without a dropped record, the core's bytes and the staged bytes are exactly the
      dequeued stream. */
  lemma NothingIsLost(s: Sending)
    requires SendInv(s) && forall i :: 0 <= i < |s.disposed| ==> s.disposed[i].error.None?
    ensures Flatten(CoreParts(s.core)) + Flatten(Lefts(s.pending)) == Flatten(Bodies(s.frames))
  {
    assert forall i :: 0 <= i < |s.disposed| ==> Complete(s.disposed[i]);
    WholePartsAreTaken(s.disposed);
    FlattenAppend(DisposedPayloads(s.disposed), Payloads(s.pending));
    PayloadsAreTakenAndLeft(s);
    Associate(Flatten(TakenParts(s.disposed)), Partial(s.pending), Flatten(Lefts(s.pending)));
  }

  class SendTask {
    var pending: seq<PendingSend>
    ghost var frames: seq<seq<byte>>
    ghost var disposed: seq<Disposal>
    ghost var core: seq<Chunk>

    ghost function State(): Sending
      reads this
    {
      Sending(pending, frames, disposed, core)
    }

    constructor ()
      ensures State() == NOTHING_SENT && SendInv(State())
    {
      pending, frames, disposed, core := [], [], [], [];
      new;
      assert Flatten(CoreParts(core)) == [] && Flatten(TakenParts(disposed)) == [];
    }

    method AdmitRecord(data: seq<byte>) returns (ok: bool)
      requires AllSane(pending)
      modifies this
      ensures ok == AdmittedPeer(data).Some?
      ensures State() == (if ok then Admit(old(State()), data) else old(State())) && AllSane(pending)
    {
      if |data| < HEADER { return false; }
      var peer := ParseAddress(data[..HEADER]);
      if peer.Err? { return false; }
      pending := pending + [PendingSend(peer.value, data, HEADER)];
      frames := frames + [data];
      ok := true;
    }

    method Poll(r: CoreSend) returns (progress: bool, out: seq<Output>)
      requires SendInv(State()) && TakesAPrefix(State(), r)
      modifies this
      ensures progress == !Stalls(old(State()), r)
      ensures out == PumpOutput(old(State()), r)
      ensures State() == Pump(old(State()), r) && SendInv(State())
    {
      PumpKeeps(State(), r);
      progress, out := Offer(r);
    }

    /** Offers the front record to the core and acts on its answer. */
    method Offer(r: CoreSend) returns (progress: bool, out: seq<Output>)
      requires AllSane(pending) && TakesAPrefix(State(), r)
      modifies this
      ensures progress == !Stalls(old(State()), r)
      ensures out == PumpOutput(old(State()), r)
      ensures State() == Pump(old(State()), r)
    {
      if pending == [] { return false, []; }
      var write := pending[0];
      match r {
        case WouldBlock =>
          return false, [];
        case Took(n) =>
          if n == 0 && write.offset != |write.data| { return false, []; }
          core := core + [Chunk(write.peer, Left(write)[..n])];
          write := write.(offset := write.offset + n);
          pending := [write] + pending[1..];
          if write.offset == |write.data| {
            assert pending[1..] == old(pending)[1..];
            disposed := disposed + [Ended(write, None)];
            pending := pending[1..];
          }
          return true, [];
        case Refused(errno) =>
          disposed := disposed + [Ended(write, Some(errno))];
          pending := pending[1..];
          return true, [Status(Transmit, Notice(errno, 0))];
      }
    }

    /** `accepted` is the core's answer; a refusal leaves the staging untouched. */
    method Finish(accepted: bool) returns (handed: seq<byte>, ok: bool)
      requires SendInv(State())
      modifies this
      ensures ok == accepted && handed == Flatten(Lefts(old(pending)))
      ensures State() == (if ok then Handoff(old(State())) else old(State())) && SendInv(State())
    {
      handed := [];
      for i := 0 to |pending|
        invariant unchanged(this)
        invariant handed + Flatten(Lefts(pending[i..])) == Flatten(Lefts(pending))
      {
        LeftsCons(pending[i..]);
        assert pending[i..][1..] == pending[i + 1..];
        Associate(handed, Left(pending[i]), Flatten(Lefts(pending[i + 1..])));
        handed := handed + pending[i].data[pending[i].offset..];
      }
      ok := accepted;
      if accepted {
        HandoffKeeps(State());
        core := core + [Chunk(None, handed)];
        disposed := disposed + Finished(pending);
        pending := [];
      }
    }

    /** Bytes admitted and not yet taken. */
    method StagedBytes() returns (staged: nat)
      requires AllSane(pending)
      ensures staged == Staged(pending)
    {
      staged := 0;
      for i := 0 to |pending|
        invariant staged + |Flatten(Lefts(pending[i..]))| == |Flatten(Lefts(pending))|
      {
        LeftsCons(pending[i..]);
        assert pending[i..][1..] == pending[i + 1..];
        staged := staged + (|pending[i].data| - pending[i].offset);
      }
    }
  }

  // ----- receiving -----

  datatype RxRecord = RxRecord(source: Option<Address>, payload: seq<byte>)

  /** What the core has to offer. A stream read never exceeds the buffer. */
  datatype CoreReceive =
    | Bytes(payload: seq<byte>)
    | Datagram(source: Address, body: seq<byte>)
    | EndOfStream
    | NotReady
    | Broken(errno: nat)

  predicate FitsBuffer(c: CoreReceive) {
    c.Bytes? ==> |c.payload| <= PAYLOAD
  }

  /** The record that may be published, if there is one. */
  function Admissible(c: CoreReceive): Option<RxRecord> {
    match c
    case Bytes(payload) => Some(RxRecord(None, payload))
    case Datagram(source, body) => if |body| > PAYLOAD then None else Some(RxRecord(Some(source), body))
    case _ => None
  }

  /** What the core says instead of giving an admissible record. */
  function NoticeOf(c: CoreReceive): Option<Notice> {
    match c
    case Datagram(_, body) => if |body| > PAYLOAD then Some(Notice(EMSGSIZE, 0)) else None
    case EndOfStream => Some(Notice(0, 4))
    case Broken(errno) => Some(Notice(errno, 4))
    case _ => None
  }

  /** `received`, `discarded` and `noticed` are history: admissible records read from the
      core, the retained one that a receive shutdown threw away, and what else the core
      said. */
  datatype Receiving = Receiving(
    retained: Option<RxRecord>,
    ended: bool,
    received: seq<RxRecord>,
    discarded: seq<RxRecord>,
    noticed: seq<Notice>)

  const NOTHING_RECEIVED := Receiving(None, false, [], [], [])

  /** `taken` is whether the endpoint has room for a record now. */
  function ReceivePoll(r: Receiving, c: CoreReceive, taken: bool): Receiving {
    if r.retained.Some? then (if taken then r.(retained := None) else r)
    else if r.ended then r
    else if Admissible(c).Some? then
      r.(received := r.received + [Admissible(c).value], retained := if taken then None else Admissible(c))
    else if NoticeOf(c).Some? then
      r.(ended := c.EndOfStream? || c.Broken?, noticed := r.noticed + [NoticeOf(c).value])
    else r
  }

  function ReceiveOutput(r: Receiving, c: CoreReceive, taken: bool): seq<Output> {
    if r.retained.Some? then (if taken then [Rx(r.retained.value)] else [])
    else if r.ended then []
    else if Admissible(c).Some? then (if taken then [Rx(Admissible(c).value)] else [])
    else
      match c
      case EndOfStream => [Status(Receive, Notice(0, 4))]
      case Broken(errno) => [Status(Receive, Notice(errno, 4))]
      case Datagram(_, _) => [Status(Receive, Notice(EMSGSIZE, 0))]
      case _ => []
  }

  predicate ReceiveProgress(r: Receiving, c: CoreReceive, taken: bool) {
    if r.retained.Some? then taken else !r.ended && !c.NotReady?
  }

  /** A receive shutdown (or a close) ends the task and drops what it retained. */
  function EndReceive(r: Receiving): Receiving {
    r.(ended := true, retained := None, discarded := r.discarded + if r.retained.Some? then [r.retained.value] else [])
  }

  function Published(out: seq<Output>): seq<RxRecord> {
    PublishedTo(out, |out|)
  }

  function PublishedTo(out: seq<Output>, n: nat): seq<RxRecord>
    requires n <= |out|
  {
    if n == 0 then [] else PublishedTo(out, n - 1) + if out[n - 1].Rx? then [out[n - 1].record] else []
  }

  lemma {:induction false} PublishedPrefix(out: seq<Output>, more: seq<Output>, n: nat)
    requires n <= |out|
    ensures PublishedTo(out + more, n) == PublishedTo(out, n)
  {
    if n > 0 { PublishedPrefix(out, more, n - 1); }
  }

  lemma PublishedSnoc(out: seq<Output>, o: Output)
    ensures Published(out + [o]) == Published(out) + if o.Rx? then [o.record] else []
  {
    PublishedPrefix(out, [o], |out|);
  }

  ghost predicate ReceiveInv(r: Receiving, out: seq<Output>) {
    RecordsInOrder(r, out) && Reports(out, Receive) == r.noticed
  }

  /** What was read is what was published, then what is retained or was discarded,
      and that is one record at most. */
  ghost predicate RecordsInOrder(r: Receiving, out: seq<Output>) {
    && r.received == Published(out) + r.discarded + (if r.retained.Some? then [r.retained.value] else [])
    && |r.discarded| <= 1
    && (r.discarded != [] ==> r.ended)
    && (r.ended ==> r.retained.None?)
    && (forall i :: 0 <= i < |r.received| ==> |r.received[i].payload| <= PAYLOAD)
  }

  lemma RetainedPollKeeps(r: Receiving, out: seq<Output>, c: CoreReceive, taken: bool)
    requires RecordsInOrder(r, out) && r.retained.Some?
    ensures RecordsInOrder(ReceivePoll(r, c, taken), out + ReceiveOutput(r, c, taken))
  {
    if taken {
      PublishedSnoc(out, Rx(r.retained.value));
    } else {
      assert out + [] == out;
    }
  }

  lemma RecordPollKeeps(r: Receiving, out: seq<Output>, c: CoreReceive, taken: bool)
    requires RecordsInOrder(r, out) && FitsBuffer(c) && r.retained.None? && !r.ended && Admissible(c).Some?
    ensures RecordsInOrder(ReceivePoll(r, c, taken), out + ReceiveOutput(r, c, taken))
  {
    var record := Admissible(c).value;
    assert r.received == Published(out);
    if taken {
      PublishedSnoc(out, Rx(record));
    } else {
      assert out + [] == out;
    }
  }

  lemma RecordsStayInOrder(r: Receiving, out: seq<Output>, c: CoreReceive, taken: bool)
    requires RecordsInOrder(r, out) && FitsBuffer(c)
    ensures RecordsInOrder(ReceivePoll(r, c, taken), out + ReceiveOutput(r, c, taken))
  {
    if r.retained.Some? {
      RetainedPollKeeps(r, out, c, taken);
    } else if !r.ended && Admissible(c).Some? {
      RecordPollKeeps(r, out, c, taken);
    } else {
      var more := ReceiveOutput(r, c, taken);
      if more == [] {
        assert out + more == out;
      } else {
        PublishedSnoc(out, more[0]);
        assert out + more == out + [more[0]];
      }
    }
  }

  /** What the task writes at once: one record, or the report of what the core said. */
  lemma WrittenOrNoticed(r: Receiving, c: CoreReceive, taken: bool)
    ensures var more := ReceiveOutput(r, c, taken);
      && |more| <= 1 && (more != [] ==> ReportOf(more[0], Transmit) == [])
      && ReceivePoll(r, c, taken).noticed == r.noticed + if more == [] then [] else ReportOf(more[0], Receive)
  {
  }

  /** What the core said besides records is reported, by this task and at once. */
  lemma NoticesAreReported(r: Receiving, out: seq<Output>, c: CoreReceive, taken: bool)
    requires Reports(out, Receive) == r.noticed
    ensures Reports(out + ReceiveOutput(r, c, taken), Receive) == ReceivePoll(r, c, taken).noticed
    ensures Reports(out + ReceiveOutput(r, c, taken), Transmit) == Reports(out, Transmit)
  {
    WrittenOrNoticed(r, c, taken);
    ReportsWith(out, ReceiveOutput(r, c, taken), Receive);
    ReportsWith(out, ReceiveOutput(r, c, taken), Transmit);
  }

  lemma ReceivePollKeeps(r: Receiving, out: seq<Output>, c: CoreReceive, taken: bool)
    requires ReceiveInv(r, out) && FitsBuffer(c)
    ensures ReceiveInv(ReceivePoll(r, c, taken), out + ReceiveOutput(r, c, taken))
    ensures Reports(out + ReceiveOutput(r, c, taken), Transmit) == Reports(out, Transmit)
  {
    RecordsStayInOrder(r, out, c, taken);
    NoticesAreReported(r, out, c, taken);
  }

  class ReceiveTask {
    var retained: Option<RxRecord>
    var ended: bool
    ghost var received: seq<RxRecord>
    ghost var discarded: seq<RxRecord>
    ghost var noticed: seq<Notice>

    ghost function State(): Receiving
      reads this
    {
      Receiving(retained, ended, received, discarded, noticed)
    }

    constructor ()
      ensures State() == NOTHING_RECEIVED
    {
      retained, ended, received, discarded, noticed := None, false, [], [], [];
    }

    method Poll(c: CoreReceive, taken: bool) returns (progress: bool, out: seq<Output>)
      modifies this
      ensures progress == ReceiveProgress(old(State()), c, taken)
      ensures out == ReceiveOutput(old(State()), c, taken)
      ensures State() == ReceivePoll(old(State()), c, taken)
    {
      if retained.Some? {
        if !taken { return false, []; }
        var record := retained.value;
        retained := None;
        return true, [Rx(record)];
      }
      if ended { return false, []; }
      match c {
        case Bytes(payload) =>
          out := Offer(RxRecord(None, payload), taken);
        case Datagram(source, body) =>
          if |body| > PAYLOAD {
            out := Report(Notice(EMSGSIZE, 0));
          } else {
            out := Offer(RxRecord(Some(source), body), taken);
          }
        case EndOfStream =>
          out := Report(Notice(0, 4));
          ended := true;
        case NotReady =>
          return false, [];
        case Broken(errno) =>
          out := Report(Notice(errno, 4));
          ended := true;
      }
      progress := true;
    }

    method Report(notice: Notice) returns (out: seq<Output>)
      modifies this
      ensures State() == old(State()).(noticed := old(noticed) + [notice])
      ensures out == [Status(Receive, notice)]
    {
      noticed := noticed + [notice];
      out := [Status(Receive, notice)];
    }

    method Offer(record: RxRecord, taken: bool) returns (out: seq<Output>)
      requires retained.None?
      modifies this
      ensures received == old(received) + [record] && ended == old(ended)
      ensures discarded == old(discarded) && noticed == old(noticed)
      ensures out == (if taken then [Rx(record)] else []) && retained == if taken then None else Some(record)
    {
      received := received + [record];
      if taken { return [Rx(record)]; }
      retained := Some(record);
      out := [];
    }

    method Shutdown()
      modifies this
      ensures State() == EndReceive(old(State()))
    {
      discarded := discarded + if retained.Some? then [retained.value] else [];
      ended := true;
      retained := None;
    }
  }
}
