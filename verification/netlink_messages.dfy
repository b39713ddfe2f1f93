/** The netlink framing: messages are built with a header and padded to four bytes, and
    walked back one by one. Proved: the walk recovers exactly the messages that were
    concatenated, and what it accepts it covers without a gap. */
module NetlinkMessages {
  import opened Common
  import opened SocketAddresses

  const HEADER: nat := 16
  const MAX_REQUESTS: nat := 32

  function Align(n: nat): (r: nat)
    ensures n <= r < n + 4 && r % 4 == 0
  {
    (n + 3) / 4 * 4
  }

  function Bytes16(n: nat): (b: seq<byte>)
    ensures |b| == 2
  {
    [n % 256, n / 256 % 256]
  }

  function Bytes32(n: nat): (b: seq<byte>)
    ensures |b| == 4
  {
    Bytes16(n % 0x1_0000) + Bytes16(n / 0x1_0000)
  }

  lemma Bytes16RoundTrip(n: nat)
    requires n < 0x1_0000
    ensures Field16(Bytes16(n), 0) == n
  {
  }

  lemma Bytes32RoundTrip(n: nat, rest: seq<byte>)
    requires n < U32_LIMIT
    ensures Field32(Bytes32(n) + rest, 0) == n
  {
    var b := Bytes32(n) + rest;
    var low, high := n % 0x1_0000, n / 0x1_0000;
    Bytes16RoundTrip(low);
    Bytes16RoundTrip(high);
    assert b[0] == Bytes16(low)[0] && b[1] == Bytes16(low)[1] && b[2] == Bytes16(high)[0] && b[3] == Bytes16(high)[1];
    assert Field16(b, 0) == low && Field16(b, 2) == high;
  }

  // ----- building -----

  datatype Header = Header(kind: nat, flags: nat, sequence: nat, pid: nat)

  /** A message before its padding; the length field counts header and data. */
  function Unpadded(h: Header, data: seq<byte>): (m: seq<byte>)
    ensures |m| == HEADER + |data|
  {
    Bytes32(HEADER + |data|) + Bytes16(h.kind) + Bytes16(h.flags) + Bytes32(h.sequence) + Bytes32(h.pid) + data
  }

  function Padded(m: seq<byte>): (p: seq<byte>)
    ensures |p| == Align(|m|) && m <= p
  {
    m + Zeros(Align(|m|) - |m|)
  }

  function Concat(messages: seq<seq<byte>>): seq<byte> {
    if messages == [] then [] else Padded(messages[0]) + Concat(messages[1..])
  }

  /** What the walk needs of a message: its own length in its first field. */
  predicate Framed(m: seq<byte>) {
    |m| >= HEADER && Field32(m, 0) == |m|
  }

  lemma BuiltIsFramed(h: Header, data: seq<byte>)
    requires HEADER + |data| < U32_LIMIT
    ensures Framed(Unpadded(h, data))
  {
    var n := HEADER + |data|;
    var rest := Bytes16(h.kind) + Bytes16(h.flags) + Bytes32(h.sequence) + Bytes32(h.pid) + data;
    assert Unpadded(h, data) == Bytes32(n) + rest;
    Bytes32RoundTrip(n, rest);
  }

  /** A field of a message does not depend on what surrounds it. */
  lemma FieldWithin(before: seq<byte>, n: nat, after: seq<byte>)
    ensures n < 0x1_0000 ==> Field16(before + Bytes16(n) + after, |before|) == n
    ensures n < U32_LIMIT ==> Field32(before + Bytes32(n) + after, |before|) == n
  {
    var at := |before|;
    if n < 0x1_0000 {
      var m := before + Bytes16(n) + after;
      assert m[at] == Bytes16(n)[0] && m[at + 1] == Bytes16(n)[1];
      Bytes16RoundTrip(n);
    }
    if n < U32_LIMIT {
      var m := before + Bytes32(n) + after;
      assert forall k :: 0 <= k < 4 ==> m[at + k] == Bytes32(n)[k];
      Bytes32RoundTrip(n, []);
      assert Bytes32(n) + [] == Bytes32(n);
      assert Field16(m, at) == Field16(Bytes32(n), 0) && Field16(m, at + 2) == Field16(Bytes32(n), 2);
    }
  }

  predicate InRange(h: Header) {
    h.kind < 0x1_0000 && h.flags < 0x1_0000 && h.sequence < U32_LIMIT && h.pid < U32_LIMIT
  }

  /** Every field of the header reads back from its place, and the data follow it. */
  lemma HeaderReadsBack(h: Header, data: seq<byte>)
    requires InRange(h) && HEADER + |data| < U32_LIMIT
    ensures var m := Unpadded(h, data);
      && Field32(m, 0) == |m| && Field16(m, 4) == h.kind && Field16(m, 6) == h.flags
      && Field32(m, 8) == h.sequence && Field32(m, 12) == h.pid && m[HEADER..] == data
  {
    var m := Unpadded(h, data);
    BuiltIsFramed(h, data);
    KindReadsBack(h, data);
    SequenceReadsBack(h, data);
    assert m[HEADER..] == data;
  }

  lemma KindReadsBack(h: Header, data: seq<byte>)
    requires InRange(h)
    ensures Field16(Unpadded(h, data), 4) == h.kind && Field16(Unpadded(h, data), 6) == h.flags
  {
    var length, kind, flags := Bytes32(HEADER + |data|), Bytes16(h.kind), Bytes16(h.flags);
    var rest := Bytes32(h.sequence) + Bytes32(h.pid) + data;
    assert Unpadded(h, data) == length + kind + (flags + rest);
    FieldWithin(length, h.kind, flags + rest);
    assert Unpadded(h, data) == (length + kind) + flags + rest;
    FieldWithin(length + kind, h.flags, rest);
  }

  lemma SequenceReadsBack(h: Header, data: seq<byte>)
    requires InRange(h)
    ensures Field32(Unpadded(h, data), 8) == h.sequence && Field32(Unpadded(h, data), 12) == h.pid
  {
    var front := Bytes32(HEADER + |data|) + Bytes16(h.kind) + Bytes16(h.flags);
    assert Unpadded(h, data) == front + Bytes32(h.sequence) + (Bytes32(h.pid) + data);
    FieldWithin(front, h.sequence, Bytes32(h.pid) + data);
    FieldWithin(front + Bytes32(h.sequence), h.pid, data);
  }

  // ----- walking -----

  datatype WalkError = Protocol | TooMany

  datatype Walked = Walked(requests: seq<seq<byte>>, error: Option<WalkError>)

  predicate StartsFramed(p: seq<byte>) {
    |p| >= HEADER && HEADER <= Field32(p, 0) <= |p|
  }

  function Rest(p: seq<byte>): (r: seq<byte>)
    requires StartsFramed(p)
    ensures |r| < |p|
  {
    p[Min(Align(Field32(p, 0)), |p|)..]
  }

  function Walk(p: seq<byte>, count: nat): Walked
    decreases |p|
  {
    if p == [] then Walked([], None)
    else if !StartsFramed(p) then Walked([], Some(Protocol))
    else if count + 1 > MAX_REQUESTS then Walked([], Some(TooMany))
    else
      var tail := Walk(Rest(p), count + 1);
      Walked([p[..Field32(p, 0)]] + tail.requests, tail.error)
  }

  lemma FramedFront(m: seq<byte>, tail: seq<byte>)
    requires Framed(m) && |tail| + |m| >= HEADER
    ensures StartsFramed(m + tail) && Field32(m + tail, 0) == |m|
  {
    assert forall k :: 0 <= k < 4 ==> (m + tail)[k] == m[k];
  }

  /** Walking over a padded message yields it and goes on behind its padding. */
  lemma WalkOne(m: seq<byte>, after: seq<byte>, count: nat)
    requires Framed(m) && count < MAX_REQUESTS
    ensures Walk(Padded(m) + after, count) == Walked([m] + Walk(after, count + 1).requests, Walk(after, count + 1).error)
  {
    var p := Padded(m) + after;
    var pad := Zeros(Align(|m|) - |m|);
    assert p == m + (pad + after);
    FramedFront(m, pad + after);
    assert p[..|m|] == m;
    assert Rest(p) == after;
  }

  /** The padding of the last message may be missing. */
  lemma WalkLast(m: seq<byte>, pad: nat, count: nat)
    requires Framed(m) && count < MAX_REQUESTS && pad <= Align(|m|) - |m|
    ensures Walk(m + Zeros(pad), count) == Walked([m], None)
  {
    var p := m + Zeros(pad);
    FramedFront(m, Zeros(pad));
    assert p[..|m|] == m;
    assert Rest(p) == [];
  }

  lemma WalkFull(m: seq<byte>, after: seq<byte>)
    requires Framed(m)
    ensures Walk(Padded(m) + after, MAX_REQUESTS) == Walked([], Some(TooMany))
  {
    var pad := Zeros(Align(|m|) - |m|);
    assert Padded(m) + after == m + (pad + after);
    FramedFront(m, pad + after);
  }

  predicate AllFramed(messages: seq<seq<byte>>) {
    messages == [] || (Framed(messages[0]) && AllFramed(messages[1..]))
  }

  /** The first so many messages, refused if there are more. */
  function Taken(messages: seq<seq<byte>>, room: nat): Walked {
    if |messages| <= room then Walked(messages, None) else Walked(messages[..room], Some(TooMany))
  }

  lemma TakenOne(messages: seq<seq<byte>>, room: nat)
    requires messages != [] && room > 0
    ensures var rest := Taken(messages[1..], room - 1);
      Taken(messages, room) == Walked([messages[0]] + rest.requests, rest.error)
  {
    assert messages == [messages[0]] + messages[1..];
  }

  lemma RecoversOne(messages: seq<seq<byte>>, count: nat)
    requires messages != [] && Framed(messages[0]) && count < MAX_REQUESTS
    requires Walk(Concat(messages[1..]), count + 1) == Taken(messages[1..], MAX_REQUESTS - (count + 1))
    ensures Walk(Concat(messages), count) == Taken(messages, MAX_REQUESTS - count)
  {
    WalkOne(messages[0], Concat(messages[1..]), count);
    TakenOne(messages, MAX_REQUESTS - count);
  }

  /** Up to 32 messages come back exactly; more are refused after the first 32. */
  lemma {:induction false} WalkRecovers(messages: seq<seq<byte>>, count: nat)
    requires AllFramed(messages) && count <= MAX_REQUESTS
    ensures Walk(Concat(messages), count) == Taken(messages, MAX_REQUESTS - count)
  {
    if messages != [] {
      if count < MAX_REQUESTS {
        WalkRecovers(messages[1..], count + 1);
        RecoversOne(messages, count);
      } else {
        WalkFull(messages[0], Concat(messages[1..]));
      }
    }
  }

  /** Messages with what lies behind each. */
  function Joined(messages: seq<seq<byte>>, gaps: seq<seq<byte>>): seq<byte>
    requires |messages| == |gaps|
  {
    if messages == [] then [] else messages[0] + gaps[0] + Joined(messages[1..], gaps[1..])
  }

  lemma FrontIsFramed(p: seq<byte>)
    requires StartsFramed(p)
    ensures Framed(p[..Field32(p, 0)])
    ensures p == p[..Field32(p, 0)] + p[Field32(p, 0)..Min(Align(Field32(p, 0)), |p|)] + Rest(p)
  {
    var front := p[..Field32(p, 0)];
    assert forall k :: 0 <= k < 4 ==> front[k] == p[k];
  }

  ghost predicate SmallGaps(gaps: seq<seq<byte>>) {
    forall k :: 0 <= k < |gaps| ==> |gaps[k]| < 4
  }

  lemma Join(m: seq<byte>, gap: seq<byte>, messages: seq<seq<byte>>, gaps: seq<seq<byte>>)
    requires |messages| == |gaps|
    ensures Joined([m] + messages, [gap] + gaps) == m + gap + Joined(messages, gaps)
  {
    assert ([m] + messages)[1..] == messages && ([gap] + gaps)[1..] == gaps;
  }

  lemma CoverFront(p: seq<byte>, requests: seq<seq<byte>>, gaps: seq<seq<byte>>) returns (all: seq<seq<byte>>)
    requires StartsFramed(p) && AllFramed(requests) && |gaps| == |requests| && SmallGaps(gaps)
    requires Rest(p) == Joined(requests, gaps)
    ensures var more := [p[..Field32(p, 0)]] + requests;
      AllFramed(more) && |all| == |more| && SmallGaps(all) && p == Joined(more, all)
  {
    var front, gap := p[..Field32(p, 0)], p[Field32(p, 0)..Min(Align(Field32(p, 0)), |p|)];
    FrontIsFramed(p);
    Join(front, gap, requests, gaps);
    assert ([front] + requests)[1..] == requests;
    all := [gap] + gaps;
  }

  /** Accepted bytes are the requests and nothing else, but for less than four bytes
      behind each. */
  lemma {:induction false} AcceptedIsCovered(p: seq<byte>, count: nat) returns (gaps: seq<seq<byte>>)
    requires count <= MAX_REQUESTS && Walk(p, count).error.None?
    ensures var requests := Walk(p, count).requests;
      && AllFramed(requests) && |requests| + count <= MAX_REQUESTS
      && |gaps| == |requests| && SmallGaps(gaps) && p == Joined(requests, gaps)
    decreases |p|
  {
    if p == [] {
      gaps := [];
    } else {
      var more := AcceptedIsCovered(Rest(p), count + 1);
      gaps := CoverFront(p, Walk(Rest(p), count + 1).requests, more);
    }
  }

  method WalkRequests(payload: seq<byte>) returns (walked: Walked)
    ensures walked == Walk(payload, 0)
  {
    var rest, requests: seq<seq<byte>> := payload, [];
    while rest != []
      invariant |requests| <= MAX_REQUESTS
      invariant Walk(payload, 0) == Walked(requests + Walk(rest, |requests|).requests, Walk(rest, |requests|).error)
      decreases |rest|
    {
      assert requests + [] == requests;
      if |rest| < HEADER { return Walked(requests, Some(Protocol)); }
      var len := Field32(rest, 0);
      if len < HEADER || len > |rest| { return Walked(requests, Some(Protocol)); }
      if |requests| + 1 > MAX_REQUESTS { return Walked(requests, Some(TooMany)); }
      ghost var tail := Walk(Rest(rest), |requests| + 1);
      assert requests + ([rest[..len]] + tail.requests) == (requests + [rest[..len]]) + tail.requests;
      requests := requests + [rest[..len]];
      rest := rest[Min(Align(len), |rest|)..];
    }
    assert requests + [] == requests;
    return Walked(requests, None);
  }
}
