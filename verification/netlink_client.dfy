/** One netlink client: the loopback change it may ask for, and its bounded output queue.
    Proved: the accepted change has exactly one shape; every queued record is delivered in
    order, skipped for want of subscribers, or still queued, and a direct reply is never
    skipped. */
module NetlinkClient {
  import opened Common
  import opened NetlinkMessages

  // ----- the one mutation -----

  datatype ChangeError = NotPermitted | Malformed | Unsupported | NoDevice

  const LOOPBACK_NAME: seq<byte> := [108, 111, 0]

  function Named(attributes: seq<byte>, named: bool): Result<bool, ChangeError>
    decreases |attributes|
  {
    if attributes == [] then Ok(named)
    else if |attributes| < 4 then Err(Malformed)
    else
      var len := Field16(attributes, 0);
      if len < 4 || len > |attributes| then Err(Malformed)
      else if Field16(attributes, 2) != 3 then Err(Unsupported)
      else if attributes[4..len] != LOOPBACK_NAME then Err(NoDevice)
      else if named then Err(Malformed)
      else Named(attributes[Min(Align(len), |attributes|)..], true)
  }

  /** The bits of a loopback change's flags that may be set are 1 and 4. */
  predicate OnlyRequestAndAck(flags: nat) {
    flags in {0, 1, 4, 5}
  }

  function LoopbackChange(request: seq<byte>, capable: bool): Result<bool, ChangeError> {
    if !capable then Err(NotPermitted)
    else if |request| < 32 then Err(Malformed)
    else if Field16(request, 6) % 2 == 0 || request[16] != 0 || request[17] != 0 then Err(Malformed)
    else if !OnlyRequestAndAck(Field16(request, 6)) || Field32(request, 28) != 1 then Err(Unsupported)
    else if Field32(request, 20) > 1 then Err(NoDevice)
    else
      var named := Named(request[32..], false);
      if named.Err? then Err(named.error)
      else if Field32(request, 20) == 0 && !named.value then Err(NoDevice)
      else Ok(Field32(request, 24) % 2 == 1)
  }

  /** One name attribute, with or without its byte of padding. */
  predicate IsLoopbackName(attributes: seq<byte>) {
    7 <= |attributes| <= 8 && attributes[..7] == [7, 0, 3, 0, 108, 111, 0]
  }

  lemma NameHeader(attributes: seq<byte>)
    requires |attributes| >= 7
    ensures attributes[..7] == [7, 0, 3, 0, 108, 111, 0] <==>
            Field16(attributes, 0) == 7 && Field16(attributes, 2) == 3 && attributes[4..7] == LOOPBACK_NAME
  {
    var front := attributes[..7];
    assert front == attributes[..4] + attributes[4..7];
    assert forall k :: 0 <= k < 7 ==> front[k] == attributes[k];
    assert Field8(attributes, 0) == attributes[0] && Field8(attributes, 1) == attributes[1];
    assert Field8(attributes, 2) == attributes[2] && Field8(attributes, 3) == attributes[3];
    assert forall k :: 0 <= k < 3 ==> attributes[4..7][k] == attributes[4 + k];
    if Field16(attributes, 0) == 7 && Field16(attributes, 2) == 3 && attributes[4..7] == LOOPBACK_NAME {
      assert attributes[0] == 7 && attributes[1] == 0 && attributes[2] == 3 && attributes[3] == 0;
      assert attributes[4] == 108 && attributes[5] == 111 && attributes[6] == 0;
    }
  }

  lemma SecondNameIsRefused(attributes: seq<byte>)
    ensures Named(attributes, true).Ok? <==> attributes == []
  {
  }

  lemma NamedExactly(attributes: seq<byte>)
    ensures Named(attributes, false) == Ok(false) <==> attributes == []
    ensures Named(attributes, false) == Ok(true) <==> IsLoopbackName(attributes)
  {
    if |attributes| >= 4 && Field16(attributes, 0) >= 4 && Field16(attributes, 0) <= |attributes| {
      var len := Field16(attributes, 0);
      SecondNameIsRefused(attributes[Min(Align(len), |attributes|)..]);
      if |attributes| >= 7 { NameHeader(attributes); }
    } else if |attributes| >= 7 {
      NameHeader(attributes);
    }
  }

  /** Exactly the requests that set the loopback up or down. */
  lemma LoopbackChangeAccepts(request: seq<byte>, capable: bool)
    ensures LoopbackChange(request, capable).Ok? <==>
      && capable && |request| >= 32
      && Field16(request, 6) in {1, 5} && request[16] == 0 && request[17] == 0 && Field32(request, 28) == 1
      && ((IsLoopbackName(request[32..]) && Field32(request, 20) <= 1) || (|request| == 32 && Field32(request, 20) == 1))
    ensures LoopbackChange(request, capable).Ok? ==>
      LoopbackChange(request, capable).value == (Field32(request, 24) % 2 == 1)
  {
    if |request| >= 32 {
      NamedExactly(request[32..]);
    }
  }

  method ParseLoopbackChange(request: seq<byte>, capable: bool) returns (r: Result<bool, ChangeError>)
    ensures r == LoopbackChange(request, capable)
  {
    if !capable { return Err(NotPermitted); }
    if |request| < 32 { return Err(Malformed); }
    if Field16(request, 6) % 2 == 0 || request[16] != 0 || request[17] != 0 { return Err(Malformed); }
    if !OnlyRequestAndAck(Field16(request, 6)) || Field32(request, 28) != 1 { return Err(Unsupported); }
    var index := Field32(request, 20);
    if index > 1 { return Err(NoDevice); }
    var named, attributes := false, request[32..];
    while attributes != []
      invariant Named(attributes, named) == Named(request[32..], false)
      decreases |attributes|
    {
      if |attributes| < 4 { return Err(Malformed); }
      var len := Field16(attributes, 0);
      if len < 4 || len > |attributes| { return Err(Malformed); }
      if Field16(attributes, 2) != 3 { return Err(Unsupported); }
      if attributes[4..len] != LOOPBACK_NAME { return Err(NoDevice); }
      if named { return Err(Malformed); }
      named := true;
      attributes := attributes[Min(Align(len), |attributes|)..];
    }
    if index == 0 && !named { return Err(NoDevice); }
    return Ok(Field32(request, 24) % 2 == 1);
  }

  // ----- the output queue -----

  const MAX_MESSAGE: nat := 65536
  const MAX_BYTES: nat := 256 * 1024
  const MAX_RECORDS: nat := 512

  function Total(records: seq<seq<byte>>): nat {
    if records == [] then 0 else |records[0]| + Total(records[1..])
  }

  /** `accepted` and `handled` are history: all that was queued, and what left the queue,
      each with whether it was delivered. */
  datatype Queue = Queue(output: seq<seq<byte>>, bytes: nat, accepted: seq<seq<byte>>, handled: seq<Handled>)

  datatype Handled = Handled(record: seq<byte>, delivered: bool)

  /** A record carries its group in front; group 0 addresses the client itself. */
  function Record(group: nat, data: seq<byte>): (r: seq<byte>)
    ensures |r| == 8 + |data|
  {
    Bytes32(group) + Bytes32(0) + data
  }

  predicate IsDirect(record: seq<byte>) {
    |record| >= 4 && record[..4] == [0, 0, 0, 0]
  }

  predicate Fits(q: Queue, data: seq<byte>) {
    |data| <= MAX_MESSAGE && q.bytes + |data| + 8 <= MAX_BYTES && |q.output| < MAX_RECORDS
  }

  function Enqueued(q: Queue, group: nat, data: seq<byte>): Queue {
    if !Fits(q, data) then q
    else
      var record := Record(group, data);
      q.(output := q.output + [record], bytes := q.bytes + |record|, accepted := q.accepted + [record])
  }

  datatype Write = Wrote(n: nat) | NoEntry | WouldBlock | Failed

  /** A record leaves when it was written whole, or when a group has no listener. */
  function Outcome(record: seq<byte>, write: Write): Option<Handled> {
    if write == Wrote(|record|) then Some(Handled(record, true))
    else if write == NoEntry && !IsDirect(record) then Some(Handled(record, false))
    else None
  }

  function Popped(q: Queue, h: Handled): Queue
    requires q.output != [] && q.bytes >= |q.output[0]|
  {
    q.(output := q.output[1..], bytes := q.bytes - |q.output[0]|, handled := q.handled + [h])
  }

  ghost predicate QueueInv(q: Queue) {
    && q.bytes == Total(q.output) <= MAX_BYTES
    && |q.output| <= MAX_RECORDS
    && q.accepted == Records(q.handled) + q.output
    && (forall h :: h in q.handled && !h.delivered ==> !IsDirect(h.record))
  }

  function Records(handled: seq<Handled>): (r: seq<seq<byte>>)
    ensures |r| == |handled| && forall k :: 0 <= k < |r| ==> r[k] == handled[k].record
  {
    seq(|handled|, k requires 0 <= k < |handled| => handled[k].record)
  }

  lemma {:induction false} TotalAppend(records: seq<seq<byte>>, record: seq<byte>)
    ensures Total(records + [record]) == Total(records) + |record|
  {
    if records == [] {
      assert [record][1..] == [];
    } else {
      assert (records + [record])[1..] == records[1..] + [record];
      TotalAppend(records[1..], record);
    }
  }

  lemma EnqueueKeeps(q: Queue, group: nat, data: seq<byte>)
    requires QueueInv(q)
    ensures QueueInv(Enqueued(q, group, data))
  {
    if Fits(q, data) {
      var record := Record(group, data);
      TotalAppend(q.output, record);
      assert Records(q.handled) + (q.output + [record]) == Records(q.handled) + q.output + [record];
    }
  }

  lemma PopKeeps(q: Queue, h: Handled)
    requires QueueInv(q) && q.output != [] && h.record == q.output[0] && (!h.delivered ==> !IsDirect(h.record))
    ensures q.bytes >= |q.output[0]| && QueueInv(Popped(q, h))
  {
    assert Records(q.handled + [h]) == Records(q.handled) + [h.record];
    assert Records(q.handled) + [h.record] + q.output[1..] == Records(q.handled) + ([h.record] + q.output[1..]);
    assert q.output == [h.record] + q.output[1..];
  }

  /** The queue after a sequence of writes, and whether the flush failed. */
  function Flushed(q: Queue, writes: seq<Write>): (Queue, bool)
    decreases |writes|
  {
    if q.output == [] || writes == [] || q.bytes < |q.output[0]| then (q, false)
    else
      var outcome := Outcome(q.output[0], writes[0]);
      if outcome.Some? then Flushed(Popped(q, outcome.value), writes[1..]) else (q, writes[0] != WouldBlock)
  }

  lemma {:induction false} FlushKeeps(q: Queue, writes: seq<Write>)
    requires QueueInv(q)
    ensures QueueInv(Flushed(q, writes).0)
    decreases |writes|
  {
    if q.output != [] && writes != [] {
      var outcome := Outcome(q.output[0], writes[0]);
      if outcome.Some? {
        PopKeeps(q, outcome.value);
        FlushKeeps(Popped(q, outcome.value), writes[1..]);
      }
    }
  }

  datatype Step = Queued(group: nat, data: seq<byte>) | Flush(writes: seq<Write>)

  function After(q: Queue, steps: seq<Step>): Queue
    decreases |steps|
  {
    if steps == [] then q
    else match steps[0]
      case Queued(group, data) => After(Enqueued(q, group, data), steps[1..])
      case Flush(writes) => After(Flushed(q, writes).0, steps[1..])
  }

  lemma {:induction false} RunKeeps(q: Queue, steps: seq<Step>)
    requires QueueInv(q)
    ensures QueueInv(After(q, steps))
    decreases |steps|
  {
    if steps != [] {
      match steps[0]
      case Queued(group, data) =>
        EnqueueKeeps(q, group, data);
        RunKeeps(Enqueued(q, group, data), steps[1..]);
      case Flush(writes) =>
        FlushKeeps(q, writes);
        RunKeeps(Flushed(q, writes).0, steps[1..]);
    }
  }

  /** After any run, a reply to the client itself was delivered or is still queued. */
  lemma DirectRepliesSurvive(steps: seq<Step>, k: nat)
    requires k < |After(Queue([], 0, [], []), steps).accepted|
    ensures var q := After(Queue([], 0, [], []), steps); var record := q.accepted[k];
      IsDirect(record) ==> Handled(record, true) in q.handled || record in q.output
  {
    RunKeeps(Queue([], 0, [], []), steps);
    var q := After(Queue([], 0, [], []), steps);
    if k < |q.handled| {
      assert q.accepted[k] == Records(q.handled)[k] == q.handled[k].record;
      assert q.handled[k] in q.handled;
      assert q.handled[k] == Handled(q.accepted[k], q.handled[k].delivered);
    } else {
      assert q.accepted[k] == q.output[k - |q.handled|];
    }
  }

  // ----- the queue, told from the pushes and the writes -----

  /** A record is its group, four zero bytes and the data; it is direct for group 0 only. */
  lemma RecordReadsBack(group: nat, data: seq<byte>)
    requires group < U32_LIMIT
    ensures var r := Record(group, data);
      Field32(r, 0) == group && Field32(r, 4) == 0 && r[8..] == data && (IsDirect(r) <==> group == 0)
  {
    var r := Record(group, data);
    assert r == [] + Bytes32(group) + (Bytes32(0) + data);
    FieldWithin([], group, Bytes32(0) + data);
    FieldWithin(Bytes32(group), 0, data);
    assert forall k :: 0 <= k < 4 ==> r[..4][k] == r[k];
    if IsDirect(r) {
      assert r[0] == 0 && r[1] == 0 && r[2] == 0 && r[3] == 0;
    } else if group == 0 {
      assert r[..4] == [0, 0, 0, 0];
    }
  }

  /** This write settles this record: it took all of it, or the group has no listener. */
  predicate Settles(record: seq<byte>, write: Write) {
    write == Wrote(|record|) || (write.NoEntry? && !IsDirect(record))
  }

  /** A flush takes off exactly the records whose writes settle them, up to the first that
      does not; it fails exactly if that one would not merely block. */
  lemma {:induction false} FlushExactly(q: Queue, writes: seq<Write>) returns (n: nat)
    requires QueueInv(q)
    ensures var (after, failed) := Flushed(q, writes);
      && n <= |q.output| && n <= |writes| && after.output == q.output[n..] && after.accepted == q.accepted
      && (forall k :: 0 <= k < n ==> Settles(q.output[k], writes[k]))
      && (n < |q.output| && n < |writes| ==> !Settles(q.output[n], writes[n]))
      && |after.handled| == |q.handled| + n && after.handled[..|q.handled|] == q.handled
      && (forall k :: 0 <= k < n ==> after.handled[|q.handled| + k] == Handled(q.output[k], writes[k].Wrote?))
      && (failed <==> n < |q.output| && n < |writes| && !writes[n].WouldBlock?)
    decreases |writes|
  {
    n := 0;
    assert q.output[0..] == q.output;
    if q.output != [] && writes != [] && Settles(q.output[0], writes[0]) {
      var first := Outcome(q.output[0], writes[0]).value;
      PopKeeps(q, first);
      var next := Popped(q, first);
      var rest := FlushExactly(next, writes[1..]);
      n := rest + 1;
      FlushOn(q, next, first, writes, rest, Flushed(next, writes[1..]).0);
    }
  }

  lemma FlushOn(q: Queue, next: Queue, first: Handled, writes: seq<Write>, rest: nat, after: Queue)
    requires q.output != [] && writes != [] && Settles(q.output[0], writes[0]) && first == Handled(q.output[0], writes[0].Wrote?)
    requires next.output == q.output[1..] && next.handled == q.handled + [first]
    requires rest <= |next.output| && rest < |writes| && after.output == next.output[rest..]
    requires forall k :: 0 <= k < rest ==> Settles(next.output[k], writes[1..][k])
    requires |after.handled| == |next.handled| + rest && after.handled[..|next.handled|] == next.handled
    requires forall k :: 0 <= k < rest ==> after.handled[|next.handled| + k] == Handled(next.output[k], writes[1..][k].Wrote?)
    ensures after.output == q.output[rest + 1..]
    ensures forall k :: 0 <= k < rest + 1 ==> Settles(q.output[k], writes[k])
    ensures after.handled[..|q.handled|] == q.handled
    ensures forall k :: 0 <= k < rest + 1 ==> after.handled[|q.handled| + k] == Handled(q.output[k], writes[k].Wrote?)
  {
    assert after.handled[..|q.handled|] == next.handled[..|q.handled|];
    forall k | 0 <= k < rest + 1
      ensures Settles(q.output[k], writes[k]) && after.handled[|q.handled| + k] == Handled(q.output[k], writes[k].Wrote?)
    {
      if k == 0 {
        assert after.handled[|q.handled|] == next.handled[|q.handled|];
      } else {
        assert next.output[k - 1] == q.output[k] && writes[1..][k - 1] == writes[k];
        assert after.handled[|next.handled| + (k - 1)] == Handled(q.output[k], writes[k].Wrote?);
      }
    }
  }

  /** The records that were pushed while there was room for them, in order. */
  function Pushed(q: Queue, steps: seq<Step>): seq<seq<byte>>
    decreases |steps|
  {
    if steps == [] then []
    else match steps[0]
      case Queued(group, data) =>
        (if |data| <= 65536 && q.bytes + 8 + |data| <= 262144 && |q.output| + 1 <= 512 then [Record(group, data)] else [])
        + Pushed(Enqueued(q, group, data), steps[1..])
      case Flush(writes) => Pushed(Flushed(q, writes).0, steps[1..])
  }

  /** Over any run: every pushed record that fits is delivered in order, skipped for want of
      a listener, or still queued; and no other record is. */
  lemma {:induction false} PushedAreQueued(q: Queue, steps: seq<Step>)
    requires QueueInv(q)
    ensures var end := After(q, steps);
      q.accepted + Pushed(q, steps) == Records(end.handled) + end.output
    decreases |steps|
  {
    RunKeeps(q, steps);
    if steps == [] {
      assert q.accepted + [] == q.accepted;
    } else {
      match steps[0]
      case Queued(group, data) =>
        EnqueueKeeps(q, group, data);
        var next := Enqueued(q, group, data);
        PushedAreQueued(next, steps[1..]);
        if Fits(q, data) {
          Associate(q.accepted, [Record(group, data)], Pushed(next, steps[1..]));
        } else {
          assert [] + Pushed(next, steps[1..]) == Pushed(next, steps[1..]);
        }
      case Flush(writes) =>
        FlushKeeps(q, writes);
        var n := FlushExactly(q, writes);
        PushedAreQueued(Flushed(q, writes).0, steps[1..]);
    }
  }

  class Client {
    var output: seq<seq<byte>>
    var bytes: nat
    ghost var accepted: seq<seq<byte>>
    ghost var handled: seq<Handled>

    ghost function State(): Queue
      reads this
    {
      Queue(output, bytes, accepted, handled)
    }

    ghost predicate Valid()
      reads this
    {
      QueueInv(State())
    }

    constructor ()
      ensures Valid() && State() == Queue([], 0, [], [])
    {
      output, bytes, accepted, handled := [], 0, [], [];
    }

    method Push(group: nat, data: seq<byte>) returns (queued: bool)
      requires Valid()
      modifies this
      ensures Valid() && State() == Enqueued(old(State()), group, data)
      ensures queued <==> old(Fits(State(), data))
    {
      EnqueueKeeps(State(), group, data);
      if |data| > MAX_MESSAGE || bytes + |data| + 8 > MAX_BYTES || |output| >= MAX_RECORDS { return false; }
      var record := Record(group, data);
      bytes := bytes + |record|;
      output := output + [record];
      accepted := accepted + [record];
      return true;
    }

    /** `writes` are the results of the writes to the client, in order. */
    method Flush(writes: seq<Write>) returns (failed: bool)
      requires Valid()
      modifies this
      ensures Valid() && (State(), failed) == Flushed(old(State()), writes)
    {
      var k := 0;
      while k < |writes| && output != []
        invariant k <= |writes| && Valid()
        invariant Flushed(State(), writes[k..]) == Flushed(old(State()), writes)
      {
        var outcome := Outcome(output[0], writes[k]);
        assert writes[k..][1..] == writes[k + 1..];
        if outcome.None? { return writes[k] != WouldBlock; }
        PopKeeps(State(), outcome.value);
        bytes := bytes - |output[0]|;
        output := output[1..];
        handled := handled + [outcome.value];
        k := k + 1;
      }
      return false;
    }
  }
}
