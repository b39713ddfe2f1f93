/** HCI packet framing: the length rules that both ends of the controller
    channel check (section 5.4 of Volume 4, Part E of the Bluetooth Core
    Specification). */
module HciPackets {
  import opened Common

  const MAX_HCI_PACKET: nat := 260
  const MAX_OUTBOUND_HCI_PACKET: nat := 4096
  const H4_EVENT: byte := 0x04

  datatype OutboundKind = Command | Acl | Sco | Iso

  /** Header length, and the payload length that the header announces. */
  function Announced(kind: OutboundKind, packet: seq<byte>): Option<nat> {
    match kind
    case Command => if |packet| >= 3 then Some(3 + Field8(packet, 2)) else None
    case Sco => if |packet| >= 3 then Some(3 + Field8(packet, 2)) else None
    case Acl => if |packet| >= 4 then Some(4 + Field16(packet, 2)) else None
    case Iso => if |packet| >= 4 then Some(4 + Field16(packet, 2) % 0x4000) else None
  }

  predicate ValidOutbound(kind: OutboundKind, packet: seq<byte>) {
    |packet| <= MAX_OUTBOUND_HCI_PACKET && Announced(kind, packet) == Some(|packet|)
  }

  /** An event as it arrives behind its H4 type byte. */
  predicate ValidEvent(framed: seq<byte>) {
    && 3 <= |framed| <= MAX_HCI_PACKET
    && framed[0] == H4_EVENT
    && |framed| == Field8(framed, 2) + 3
  }

  function OutboundKindOf(code: byte): Option<OutboundKind> {
    match code
    case 0 => Some(Command)
    case 1 => Some(Acl)
    case 2 => Some(Sco)
    case 3 => Some(Iso)
    case _ => None
  }

  /** Kind code 0 is an event on the inbound side; the others mirror outbound. */
  predicate ValidInbound(code: byte, bytes: seq<byte>) {
    match code
    case 0 => ValidEvent([H4_EVENT] + bytes)
    case 1 => ValidOutbound(Acl, bytes)
    case 2 => ValidOutbound(Sco, bytes)
    case 3 => ValidOutbound(Iso, bytes)
    case _ => false
  }

  /** Lengths delimit packets: no valid packet of a kind is the start of another, on
      either side. */
  lemma FramingIsPrefixFree(kind: OutboundKind, code: byte, p: seq<byte>, q: seq<byte>)
    requires p <= q
    ensures ValidOutbound(kind, p) && ValidOutbound(kind, q) ==> p == q
    ensures ValidInbound(code, p) && ValidInbound(code, q) ==> p == q
  {
    assert forall i :: 0 <= i < |p| ==> p[i] == q[i];
    if |p| >= 2 {
      assert ([H4_EVENT] + p)[2] == p[1] && ([H4_EVENT] + q)[2] == q[1];
    }
  }

  /** A packet made of two handle or opcode bytes and its data, with the length that the
      header has room for: 8 bits, 16 bits, or 14 bits below two flags. */
  function Framed(kind: OutboundKind, a: byte, b: byte, flags: nat, data: seq<byte>): seq<byte>
    requires Fits(kind, flags, data)
  {
    (match kind
     case Command => [a, b, |data|]
     case Sco => [a, b, |data|]
     case Acl => [a, b, |data| % 256, |data| / 256]
     case Iso => [a, b, |data| % 256, |data| / 256 + 64 * flags])
    + data
  }

  predicate Fits(kind: OutboundKind, flags: nat, data: seq<byte>) {
    match kind
    case Command => |data| < 0x100
    case Sco => |data| < 0x100
    case Acl => |data| < 0x1_0000
    case Iso => |data| < 0x4000 && flags < 4
  }

  /** Every packet framed this way is valid up to the size limit, and every valid packet is
      framed this way. */
  lemma FramedIsValid(kind: OutboundKind, a: byte, b: byte, flags: nat, data: seq<byte>)
    requires Fits(kind, flags, data)
    ensures ValidOutbound(kind, Framed(kind, a, b, flags, data)) <==> |Framed(kind, a, b, flags, data)| <= MAX_OUTBOUND_HCI_PACKET
  {
    var p := Framed(kind, a, b, flags, data);
    if kind.Iso? {
      assert Field16(p, 2) == |data| + 0x4000 * flags;
      assert Field16(p, 2) % 0x4000 == |data|;
    }
  }

  /** A 16-bit length, and one of 14 bits below two flags, in its two bytes. */
  lemma WideLength(low: byte, high: byte)
    ensures (low + 256 * high) % 256 == low && (low + 256 * high) / 256 == high
    ensures var length := (low + 256 * high) % 0x4000;
      length % 256 == low && length / 256 + 64 * (high / 64) == high
  {
    var flags, rest := high / 64, high % 64;
    assert low + 256 * high == 0x4000 * flags + (low + 256 * rest);
    assert (low + 256 * high) % 0x4000 == low + 256 * rest;
    assert (low + 256 * rest) / 256 == rest;
  }

  lemma ValidIsFramed(kind: OutboundKind, packet: seq<byte>)
    returns (a: byte, b: byte, flags: nat, data: seq<byte>)
    requires ValidOutbound(kind, packet)
    ensures Fits(kind, flags, data) && packet == Framed(kind, a, b, flags, data)
  {
    a, b, flags := packet[0], packet[1], if kind.Iso? then packet[3] / 64 else 0;
    if kind.Command? || kind.Sco? {
      data := packet[3..];
      assert packet == [a, b, packet[2]] + data;
    } else {
      data := packet[4..];
      WideLength(packet[2], packet[3]);
      assert packet == [a, b, packet[2], packet[3]] + data;
    }
  }
}
