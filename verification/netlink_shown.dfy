/** What a link and an address look like to a subscriber: the single flags, the
    operational state, the scope, the name. */
module NetlinkShown {
  import opened Common
  import opened SocketAddresses
  import opened NetlinkView

  const IFF_UP: nat := 0x1
  const IFF_BROADCAST: nat := 0x2
  const IFF_LOOPBACK: nat := 0x8
  const IFF_RUNNING: nat := 0x40
  const IFF_MULTICAST: nat := 0x1000
  const IFF_LOWER_UP: nat := 0x1_0000

  const IFA_F_DADFAILED: nat := 0x08
  const IFA_F_DEPRECATED: nat := 0x20
  const IFA_F_TENTATIVE: nat := 0x40

  predicate Flag(flags: nat, bit: nat)
    requires bit > 0
  {
    (flags / bit) % 2 == 1
  }

  /** The part of a flags word that is one of these bits. */
  function Part(flags: nat, bit: nat): nat
    requires bit > 0
  {
    if Flag(flags, bit) then bit else 0
  }

  /** The loopback is up while either protocol is; any other link while it is online. */
  predicate IsUp(v: View, i: Interface) {
    if i.id == LOOPBACK_ID then i.ipv4Enabled || i.ipv6Enabled else v.online
  }

  /** A subscriber's table shows a link as up, running and with its lower layer up exactly
      if it is up; as loopback or as broadcast and multicast by its kind; and in operational
      state 6 exactly if it is online, otherwise 2, and unknown for the loopback. */
  lemma LinkIsShown(v: View, i: Interface)
    requires Keyed(v) && i in v.interfaces
    ensures LinkKey(Index(i)) in TableOf(v) && TableOf(v)[LinkKey(Index(i))].LinkValue?
    ensures var shown, loopback := TableOf(v)[LinkKey(Index(i))].link, i.id == LOOPBACK_ID;
      && (Flag(shown.flags, IFF_UP) <==> IsUp(v, i))
      && (Flag(shown.flags, IFF_RUNNING) <==> IsUp(v, i))
      && (Flag(shown.flags, IFF_LOWER_UP) <==> IsUp(v, i))
      && (Flag(shown.flags, IFF_LOOPBACK) <==> loopback)
      && (Flag(shown.flags, IFF_BROADCAST) <==> !loopback)
      && (Flag(shown.flags, IFF_MULTICAST) <==> !loopback)
      && shown.flags == Part(shown.flags, IFF_UP) + Part(shown.flags, IFF_RUNNING) + Part(shown.flags, IFF_LOWER_UP)
                        + Part(shown.flags, IFF_LOOPBACK) + Part(shown.flags, IFF_BROADCAST) + Part(shown.flags, IFF_MULTICAST)
      && (shown.operstate == 6 <==> !loopback && v.online)
      && (shown.operstate == 2 <==> !loopback && !v.online)
      && (shown.operstate == 0 <==> loopback)
      && shown.mtu == (if loopback then 65536 else 1500)
      && shown.kind == (if loopback then 772 else 1)
      && (if loopback then shown.mac == [0, 0, 0, 0, 0, 0] else shown.mac == v.mac)
  {
    TableHoldsLink(v, i);
    assert Zeros(6) == [0, 0, 0, 0, 0, 0];
  }

  /** And an address as tentative, failed or deprecated exactly if it is; within the scope
      of the host, of the link, or of everywhere. */
  lemma AddressIsShown(v: View, i: Interface, a: IfAddress)
    requires Keyed(v) && i in v.interfaces && a in i.addresses
    ensures var key := AddressKey(Index(i), a.ip, a.prefix); key in TableOf(v) && TableOf(v)[key].AddressValue?
    ensures var shown := TableOf(v)[AddressKey(Index(i), a.ip, a.prefix)].address;
      && (Flag(shown.flags, IFA_F_TENTATIVE) <==> a.state.Tentative?)
      && (Flag(shown.flags, IFA_F_DADFAILED) <==> a.state.Unavailable?)
      && (Flag(shown.flags, IFA_F_DEPRECATED) <==> a.preferredUntil.Deprecated?)
      && shown.flags == Part(shown.flags, IFA_F_TENTATIVE) + Part(shown.flags, IFA_F_DADFAILED)
                        + Part(shown.flags, IFA_F_DEPRECATED)
      && (shown.scope == 254 <==> IsLoopbackIp(a.ip))
      && (shown.scope == 253 <==> !IsLoopbackIp(a.ip) && IsLinkLocalIp(a.ip))
      && shown.scope in {254, 253, 0}
  {
    TableHoldsAddress(v, i, a);
  }

  /** 127.0.0.1 and ::1 are of the host; 169.254/16 and fe80::/10 of the link. */
  lemma ScopesOfAddresses(b: byte, c: byte, rest: seq<byte>)
    requires |rest| == 14
    ensures IsLoopbackIp(V4([127, b, c, 1])) && !IsLinkLocalIp(V4([127, b, c, 1]))
    ensures IsLinkLocalIp(V4([169, 254, b, c])) && (b != 254 ==> !IsLinkLocalIp(V4([169, b, 0, 1])))
    ensures IsLoopbackIp(V6([0, 0, 0, 0, 0, 0, 0, 0, 0, 0, 0, 0, 0, 0, 0, 1]))
    ensures IsLinkLocalIp(V6([0xfe, b] + rest)) <==> 0x80 <= b < 0xc0
  {
    assert Zeros(15) + [1] == [0, 0, 0, 0, 0, 0, 0, 0, 0, 0, 0, 0, 0, 0, 0, 1];
  }

  /** No two links of a view are shown under one name. */
  lemma NamesAreDistinct(v: View, i: Interface, j: Interface)
    requires i.id < U64_LIMIT && j.id < U64_LIMIT && i.id != j.id
    ensures LinkInfoOf(v, i).name != LinkInfoOf(v, j).name
  {
  }
}
