/** The fixed-size local resolver protocol. Proved: decoding inverts encoding, and every
    buffer that decodes is exactly the encoding of what it decodes to. */
module ResolverWire {
  import opened Common
  import opened SocketAddresses
  import opened Utf8

  const MAGIC: seq<byte> := [68, 82, 68, 49]
  const REQUEST_LENGTH: nat := 264
  const MAX_NAME: nat := 254
  const MAX_ADDRESSES: nat := 64
  const SLOT: nat := 17
  const RESPONSE_LENGTH: nat := 8 + MAX_ADDRESSES * SLOT
  const OK: byte := 0
  const UNAVAILABLE: byte := 3

  // ----- requests -----

  predicate ValidName(name: seq<byte>) {
    0 < |name| <= MAX_NAME && 0 !in name
  }

  function EncodeRequest(name: seq<byte>): (b: seq<byte>)
    requires |name| <= MAX_NAME
    ensures |b| == REQUEST_LENGTH
  {
    MAGIC + [|name| % 256, |name| / 256] + [0, 0] + name + Zeros(REQUEST_LENGTH - 8 - |name|)
  }

  function DecodeRequest(b: seq<byte>): Option<seq<byte>>
    requires |b| == REQUEST_LENGTH
  {
    var n := Field16(b, 4);
    if b[..4] != MAGIC || n == 0 || n > MAX_NAME || b[6..8] != [0, 0] || b[8 + n..] != Zeros(REQUEST_LENGTH - 8 - n) then None
    else if !IsUtf8(b[8..8 + n]) || 0 in b[8..8 + n] then None
    else Some(b[8..8 + n])
  }

  lemma RequestRoundTrip(name: seq<byte>)
    requires ValidName(name) && IsUtf8(name)
    ensures DecodeRequest(EncodeRequest(name)) == Some(name)
  {
    var b, n := EncodeRequest(name), |name|;
    assert b[..4] == MAGIC;
    assert b[4] == n % 256 && b[5] == n / 256;
    assert Field16(b, 4) == n;
    assert b[6..8] == [0, 0];
    assert b[8..8 + n] == name;
    assert b[8 + n..] == Zeros(REQUEST_LENGTH - 8 - n);
  }

  lemma AcceptedRequestIsEncoded(b: seq<byte>)
    requires |b| == REQUEST_LENGTH && DecodeRequest(b).Some?
    ensures var name := DecodeRequest(b).value; ValidName(name) && IsUtf8(name) && EncodeRequest(name) == b
  {
    var n := Field16(b, 4);
    assert Field8(b, 4) == n % 256 && Field8(b, 5) == n / 256;
    assert b[4..6] == [n % 256, n / 256];
    assert b == b[..4] + b[4..6] + b[6..8] + b[8..8 + n] + b[8 + n..];
  }

  /** The encoder writes into a zeroed buffer. */
  method WriteRequest(name: seq<byte>) returns (out: Option<array<byte>>)
    ensures out.Some? <==> ValidName(name)
    ensures out.Some? ==> fresh(out.value) && out.value[..] == EncodeRequest(name)
  {
    if |name| == 0 || |name| > MAX_NAME || 0 in name { return None; }
    var buffer := new byte[REQUEST_LENGTH](_ => 0);
    buffer[0], buffer[1], buffer[2], buffer[3] := MAGIC[0], MAGIC[1], MAGIC[2], MAGIC[3];
    buffer[4], buffer[5] := |name| % 256, |name| / 256;
    ghost var header := MAGIC + [|name| % 256, |name| / 256] + [0, 0];
    assert buffer[..8] == header;
    for k := 0 to |name|
      invariant buffer[..8 + k] == header + name[..k] && ZeroFrom(buffer[..], 8 + k)
    {
      buffer[8 + k] := name[k];
      assert buffer[..8 + k + 1] == buffer[..8 + k] + [name[k]];
    }
    assert name[..|name|] == name;
    assert buffer[8 + |name|..] == Zeros(REQUEST_LENGTH - 8 - |name|);
    assert buffer[..] == buffer[..8 + |name|] + buffer[8 + |name|..];
    return Some(buffer);
  }

  // ----- responses -----

  type IpAddress = ip: Ip | |ip.octets| == (if ip.V4? then 4 else 16) witness V4([0, 0, 0, 0])

  function Slot(ip: IpAddress): (s: seq<byte>)
    ensures |s| == SLOT
  {
    if ip.V4? then [4] + ip.octets + Zeros(12) else [6] + ip.octets
  }

  function Slots(ips: seq<IpAddress>): (s: seq<byte>)
    ensures |s| == SLOT * |ips|
  {
    if ips == [] then [] else Slot(ips[0]) + Slots(ips[1..])
  }

  /** A failure carries no address, and a success at most 64. */
  function Carried(status: byte, ips: seq<IpAddress>): (c: seq<IpAddress>)
    ensures |c| <= MAX_ADDRESSES && c <= ips
  {
    if status != OK then [] else ips[..Min(|ips|, MAX_ADDRESSES)]
  }

  function EncodeResponse(status: byte, ips: seq<IpAddress>): (b: seq<byte>)
    ensures |b| == RESPONSE_LENGTH
  {
    var carried := Carried(status, ips);
    ResponseHeader(status, |carried|) + Slots(carried) + Zeros(SLOT * (MAX_ADDRESSES - |carried|))
  }

  function DecodeSlot(s: seq<byte>): Option<IpAddress>
    requires |s| == SLOT
  {
    if s[0] == 4 && s[5..] == Zeros(12) then Some(V4(s[1..5]))
    else if s[0] == 6 then Some(V6(s[1..]))
    else None
  }

  function DecodeSlots(s: seq<byte>, count: nat): Option<seq<IpAddress>>
    requires |s| == SLOT * count
  {
    if count == 0 then Some([])
    else
      var first, rest := DecodeSlot(s[..SLOT]), DecodeSlots(s[SLOT..], count - 1);
      if first.None? || rest.None? then None else Some([first.value] + rest.value)
  }

  datatype Answer = Addresses(ips: seq<IpAddress>) | Refused(status: byte)

  predicate WellFramed(b: seq<byte>)
    requires |b| == RESPONSE_LENGTH
  {
    var count := Field8(b, 5);
    && b[..4] == MAGIC && b[4] <= UNAVAILABLE && count <= MAX_ADDRESSES && b[6..8] == [0, 0]
    && b[8 + count * SLOT..] == Zeros(SLOT * (MAX_ADDRESSES - count))
  }

  function DecodeResponse(b: seq<byte>): Option<Answer>
    requires |b| == RESPONSE_LENGTH
  {
    var count := Field8(b, 5);
    if !WellFramed(b) then None
    else if b[4] != OK then if count == 0 then Some(Refused(b[4])) else None
    else match DecodeSlots(b[8..8 + count * SLOT], count)
      case None => None
      case Some(ips) => Some(Addresses(ips))
  }

  /** A slot is the family in its first byte, the octets, and zeros. */
  lemma SlotLayout(ip: IpAddress)
    ensures var s, n := Slot(ip), |ip.octets|;
      s[0] == (if ip.V4? then 4 else 6) && s[1..1 + n] == ip.octets && s[1 + n..] == Zeros(16 - n)
  {
  }

  lemma SlotRoundTrip(ip: IpAddress)
    ensures DecodeSlot(Slot(ip)) == Some(ip)
  {
    var s := Slot(ip);
    if ip.V4? {
      assert s[1..5] == ip.octets && s[5..] == Zeros(12);
    } else {
      assert s[1..] == ip.octets;
    }
  }

  lemma AcceptedSlotIsEncoded(s: seq<byte>)
    requires |s| == SLOT && DecodeSlot(s).Some?
    ensures Slot(DecodeSlot(s).value) == s
  {
    assert s == [s[0]] + s[1..5] + s[5..];
    assert s == [s[0]] + s[1..];
  }

  lemma {:induction false} SlotsRoundTrip(ips: seq<IpAddress>)
    ensures DecodeSlots(Slots(ips), |ips|) == Some(ips)
  {
    if ips != [] {
      SlotRoundTrip(ips[0]);
      SlotsRoundTrip(ips[1..]);
      assert Slots(ips)[..SLOT] == Slot(ips[0]) && Slots(ips)[SLOT..] == Slots(ips[1..]);
      assert ips == [ips[0]] + ips[1..];
    }
  }

  lemma {:induction false} AcceptedSlotsAreEncoded(s: seq<byte>, count: nat)
    requires |s| == SLOT * count && DecodeSlots(s, count).Some?
    ensures var ips := DecodeSlots(s, count).value; |ips| == count && Slots(ips) == s
    decreases count
  {
    if count > 0 {
      AcceptedSlotIsEncoded(s[..SLOT]);
      AcceptedSlotsAreEncoded(s[SLOT..], count - 1);
      var ips := DecodeSlots(s, count).value;
      assert ips[1..] == DecodeSlots(s[SLOT..], count - 1).value;
      assert s == s[..SLOT] + s[SLOT..];
    }
  }

  lemma ResponseLayout(status: byte, ips: seq<IpAddress>)
    ensures var b, carried := EncodeResponse(status, ips), Carried(status, ips);
      && b[..4] == MAGIC && b[4] == status && Field8(b, 5) == |carried| && b[6..8] == [0, 0]
      && b[8..8 + |carried| * SLOT] == Slots(carried)
      && b[8 + |carried| * SLOT..] == Zeros(SLOT * (MAX_ADDRESSES - |carried|))
  {
  }

  /** Decoding gives back the first 64 addresses, or the failure that was sent. */
  lemma ResponseRoundTrip(status: byte, ips: seq<IpAddress>)
    ensures DecodeResponse(EncodeResponse(status, ips)) ==
      if status == OK then Some(Addresses(ips[..Min(|ips|, MAX_ADDRESSES)]))
      else if status <= UNAVAILABLE then Some(Refused(status))
      else None
  {
    ResponseLayout(status, ips);
    SlotsRoundTrip(Carried(status, ips));
  }

  lemma FramedResponse(b: seq<byte>)
    requires |b| == RESPONSE_LENGTH && WellFramed(b)
    ensures var count := Field8(b, 5);
      b == ResponseHeader(b[4], count) + b[8..8 + count * SLOT] + Zeros(SLOT * (MAX_ADDRESSES - count))
  {
    var count := Field8(b, 5);
    assert b[..8] == b[..4] + [b[4], b[5]] + b[6..8];
    assert b == b[..8] + b[8..8 + count * SLOT] + b[8 + count * SLOT..];
  }

  /** A response that decodes is the one encoding of what it says. */
  lemma AcceptedResponseIsEncoded(b: seq<byte>)
    requires |b| == RESPONSE_LENGTH && DecodeResponse(b).Some?
    ensures match DecodeResponse(b).value
      case Addresses(ips) => |ips| <= MAX_ADDRESSES && EncodeResponse(OK, ips) == b
      case Refused(status) => status != OK && EncodeResponse(status, []) == b
  {
    FramedResponse(b);
    if b[4] == OK {
      var count := Field8(b, 5);
      AcceptedSlotsAreEncoded(b[8..8 + count * SLOT], count);
      var ips := DecodeSlots(b[8..8 + count * SLOT], count).value;
      assert Carried(OK, ips) == ips;
    }
  }

  // ----- the loops -----

  lemma {:induction false} SlotsAppend(ips: seq<IpAddress>, ip: IpAddress)
    ensures Slots(ips + [ip]) == Slots(ips) + Slot(ip)
  {
    if ips == [] {
      assert [ip][1..] == [];
      assert Slots([ip]) == Slot(ip);
    } else {
      assert (ips + [ip])[1..] == ips[1..] + [ip];
      SlotsAppend(ips[1..], ip);
      Associate(Slot(ips[0]), Slots(ips[1..]), Slot(ip));
    }
  }

  predicate ZeroFrom(b: seq<byte>, at: nat) {
    forall k :: at <= k < |b| ==> b[k] == 0
  }

  /** Fills one zeroed slot. */
  method WriteSlot(buffer: array<byte>, at: nat, ip: IpAddress)
    requires at + SLOT <= buffer.Length && ZeroFrom(buffer[..], at)
    modifies buffer
    ensures buffer[..at] == old(buffer[..at]) && buffer[at..at + SLOT] == Slot(ip) && ZeroFrom(buffer[..], at + SLOT)
  {
    buffer[at] := if ip.V4? then 4 else 6;
    for k := 0 to |ip.octets|
      invariant buffer[..at] == old(buffer[..at]) && buffer[at] == if ip.V4? then 4 else 6
      invariant buffer[at + 1..at + 1 + k] == ip.octets[..k] && ZeroFrom(buffer[..], at + 1 + k)
    {
      buffer[at + 1 + k] := ip.octets[k];
    }
    var n := |ip.octets|;
    assert buffer[at + 1 + n..at + SLOT] == Zeros(SLOT - 1 - n);
    assert buffer[at..at + SLOT] == [buffer[at]] + buffer[at + 1..at + 1 + n] + buffer[at + 1 + n..at + SLOT];
  }

  function ResponseHeader(status: byte, count: byte): (h: seq<byte>)
    ensures |h| == 8
  {
    MAGIC + [status, count, 0, 0]
  }

  lemma NextSlot(header: seq<byte>, ips: seq<IpAddress>, k: nat)
    requires k < |ips|
    ensures header + Slots(ips[..k + 1]) == header + Slots(ips[..k]) + Slot(ips[k])
  {
    assert ips[..k] + [ips[k]] == ips[..k + 1];
    SlotsAppend(ips[..k], ips[k]);
    Associate(header, Slots(ips[..k]), Slot(ips[k]));
  }

  method WriteSlots(buffer: array<byte>, ips: seq<IpAddress>)
    requires 8 + SLOT * |ips| <= buffer.Length && ZeroFrom(buffer[..], 8)
    modifies buffer
    ensures buffer[..8 + SLOT * |ips|] == old(buffer[..8]) + Slots(ips) && ZeroFrom(buffer[..], 8 + SLOT * |ips|)
  {
    ghost var header := buffer[..8];
    var at := 8;
    for k := 0 to |ips|
      invariant at == 8 + SLOT * k
      invariant buffer[..at] == header + Slots(ips[..k]) && ZeroFrom(buffer[..], at)
    {
      WriteSlot(buffer, at, ips[k]);
      NextSlot(header, ips, k);
      assert buffer[..at + SLOT] == buffer[..at] + buffer[at..at + SLOT];
      at := at + SLOT;
    }
    assert ips[..|ips|] == ips;
  }

  method WriteResponse(status: byte, ips: seq<IpAddress>) returns (buffer: array<byte>)
    ensures fresh(buffer) && buffer[..] == EncodeResponse(status, ips)
  {
    buffer := new byte[RESPONSE_LENGTH](_ => 0);
    buffer[0], buffer[1], buffer[2], buffer[3], buffer[4] := MAGIC[0], MAGIC[1], MAGIC[2], MAGIC[3], status;
    if status != OK {
      assert buffer[..8] == ResponseHeader(status, 0);
      assert buffer[8..] == Zeros(RESPONSE_LENGTH - 8);
      assert buffer[..] == buffer[..8] + [] + buffer[8..];
      return;
    }
    var carried := Carried(status, ips);
    buffer[5] := |carried|;
    assert buffer[..8] == ResponseHeader(status, |carried|);
    WriteSlots(buffer, carried);
    var end := 8 + SLOT * |carried|;
    assert buffer[end..] == Zeros(RESPONSE_LENGTH - end);
    assert buffer[..] == buffer[..end] + buffer[end..];
  }

  method ReadResponse(b: seq<byte>) returns (answer: Option<Answer>)
    requires |b| == RESPONSE_LENGTH
    ensures answer == DecodeResponse(b)
  {
    var count := Field8(b, 5);
    if !WellFramed(b) { return None; }
    if b[4] != OK { return if count == 0 then Some(Refused(b[4])) else None; }
    var slots := b[8..8 + count * SLOT];
    var ips: seq<IpAddress> := [];
    assert slots[SLOT * 0..] == slots && forall tail: seq<IpAddress> :: ips + tail == tail;
    for k := 0 to count
      invariant |ips| == k
      invariant DecodeSlots(slots, count) ==
        (match DecodeSlots(slots[SLOT * k..], count - k) case None => None case Some(rest) => Some(ips + rest))
    {
      var rest := slots[SLOT * k..];
      var one := DecodeSlot(rest[..SLOT]);
      assert rest[SLOT..] == slots[SLOT * (k + 1)..];
      if one.None? { return None; }
      assert forall tail: seq<IpAddress> :: ips + ([one.value] + tail) == ips + [one.value] + tail;
      ips := ips + [one.value];
    }
    assert ips + [] == ips;
    return Some(Addresses(ips));
  }
}
