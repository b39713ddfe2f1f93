/** The 24-byte address header of a data record: family, port, address, zero pad. */
module SocketAddresses {
  import opened Common

  datatype Ip = V4(octets: seq<byte>) | V6(octets: seq<byte>)

  datatype Address = Address(ip: Ip, port: nat)

  predicate ValidAddress(a: Address) {
    (if a.ip.V4? then |a.ip.octets| == 4 else |a.ip.octets| == 16) && a.port < 0x1_0000
  }

  datatype AddressError = NotSupported | InvalidAddress

  function Zeros(n: nat): (z: seq<byte>)
    ensures |z| == n && forall i :: 0 <= i < n ==> z[i] == 0
  {
    seq(n, _ => 0)
  }

  /** Family 0 names no address at all. */
  function ParseAddress(b: seq<byte>): Result<Option<Address>, AddressError> {
    if |b| != 24 || b[20] != 0 || b[21] != 0 || b[22] != 0 || b[23] != 0 then Err(NotSupported)
    else if Field16(b, 0) == 0 then Ok(None)
    else if Field16(b, 0) == 4 then Ok(Some(Address(V4(b[4..8]), Field16(b, 2))))
    else if Field16(b, 0) == 6 then Ok(Some(Address(V6(b[4..20]), Field16(b, 2))))
    else Err(InvalidAddress)
  }

  function EncodeAddress(a: Address): seq<byte>
    requires ValidAddress(a)
  {
    [if a.ip.V4? then 4 else 6, 0, a.port % 256, a.port / 256] + a.ip.octets + Zeros(20 - |a.ip.octets|)
  }

  lemma AddressRoundTrip(a: Address)
    requires ValidAddress(a)
    ensures |EncodeAddress(a)| == 24 && ParseAddress(EncodeAddress(a)) == Ok(Some(a))
  {
    var b, n := EncodeAddress(a), |a.ip.octets|;
    assert b[4..4 + n] == a.ip.octets;
    assert b[20..24] == Zeros(4);
    assert Field16(b, 2) == a.port;
  }

  /** The parser ignores what follows a four-byte address, so the converse holds
      exactly for headers that leave those bytes zero. */
  lemma ParseThenEncode(b: seq<byte>)
    requires ParseAddress(b).Ok? && ParseAddress(b).value.Some?
    ensures var a := ParseAddress(b).value.value;
      ValidAddress(a) && (EncodeAddress(a) == b <==> Field16(b, 0) == 6 || b[8..20] == Zeros(12))
  {
    var a := ParseAddress(b).value.value;
    var e := EncodeAddress(a);
    assert e[2] == b[2] && e[3] == b[3] && e[0] == b[0] && e[1] == b[1];
    assert b == b[..4] + b[4..8] + b[8..20] + b[20..24];
    if a.ip.V4? {
      assert e == b[..4] + b[4..8] + Zeros(12) + Zeros(4);
      assert e[8..20] == Zeros(12);
    } else {
      assert e == b[..4] + b[4..20] + Zeros(4);
      assert b == b[..4] + b[4..20] + b[20..24];
    }
  }
}
