/** The interface view behind rtnetlink: what a dump lists, the events that a change of
    view emits, and the table that a subscriber keeps of them. */
module NetlinkView {
  import opened Common
  import opened SocketAddresses

  const LOOPBACK_ID: nat := U64_LIMIT - 1
  const LOOPBACK_MTU: nat := 65536
  const ETHERNET_MTU: nat := 1500
  const INDEX_LIMIT: nat := 0x8000_0000
  const GROUP_LINK: nat := 1
  const GROUP_IPV4: nat := 5
  const GROUP_IPV6: nat := 9

  datatype AddressState = Unavailable | Tentative | Assigned

  datatype PreferredUntil = Deprecated | Preferred(until: Option<nat>)

  datatype IfAddress = IfAddress(
    ip: Ip,
    prefix: nat,
    state: AddressState,
    validUntil: Option<nat>,
    preferredUntil: PreferredUntil)

  /** `other` stands for the observations that no message reports. */
  datatype Interface = Interface(
    id: nat,
    ipv4Enabled: bool,
    ipv6Enabled: bool,
    addresses: seq<IfAddress>,
    incomplete: bool,
    other: nat)

  datatype View = View(interfaces: seq<Interface>, online: bool, mac: seq<byte>)

  // ----- what a message says -----

  predicate IsLoopback(i: Interface) {
    i.id == LOOPBACK_ID
  }

  /** The index a message carries; it must fit a signed 32-bit integer. */
  function Index(i: Interface): nat {
    if IsLoopback(i) then 1 else i.id + 1
  }

  datatype LinkInfo = LinkInfo(name: Option<nat>, kind: nat, flags: nat, mtu: nat, mac: seq<byte>, operstate: nat)

  function LinkFlags(v: View, i: Interface): nat {
    if IsLoopback(i) then 0x8 + (if i.ipv4Enabled || i.ipv6Enabled then 0x10041 else 0)
    else 0x1002 + (if v.online then 0x10041 else 0)
  }

  /** The loopback's name is "lo"; any other is "netstack" and a number. */
  function LinkInfoOf(v: View, i: Interface): LinkInfo {
    if IsLoopback(i) then LinkInfo(None, 772, LinkFlags(v, i), LOOPBACK_MTU, Zeros(6), 0)
    else LinkInfo(Some((i.id + U64_LIMIT - 1) % U64_LIMIT), 1, LinkFlags(v, i), ETHERNET_MTU, v.mac,
                  if v.online then 6 else 2)
  }

  datatype AddressInfo = AddressInfo(flags: nat, scope: nat)

  predicate IsLoopbackIp(ip: Ip) {
    if ip.V4? then |ip.octets| > 0 && ip.octets[0] == 127 else ip.octets == Zeros(15) + [1]
  }

  predicate IsLinkLocalIp(ip: Ip) {
    && |ip.octets| > 1
    && (if ip.V4? then ip.octets[0] == 169 && ip.octets[1] == 254 else ip.octets[0] == 0xfe && ip.octets[1] / 64 == 2)
  }

  function AddressInfoOf(a: IfAddress): AddressInfo {
    AddressInfo(
      (match a.state case Tentative => 0x40 case Unavailable => 0x08 case Assigned => 0)
      + (if a.preferredUntil.Deprecated? then 0x20 else 0),
      if IsLoopbackIp(a.ip) then 254 else if IsLinkLocalIp(a.ip) then 253 else 0)
  }

  // ----- events and the table they build -----

  /** What a subscriber keys its knowledge by. */
  datatype Key = LinkKey(index: nat) | AddressKey(index: nat, ip: Ip, prefix: nat)

  datatype Value = LinkValue(link: LinkInfo) | AddressValue(address: AddressInfo)

  type Table = map<Key, Value>

  /** A new-object or a delete-object message. */
  datatype Event = New(key: Key, value: Value) | Del(key: Key)

  /** The multicast group of a message about this key. */
  function GroupOf(k: Key): nat {
    if k.LinkKey? then GROUP_LINK else if k.ip.V4? then GROUP_IPV4 else GROUP_IPV6
  }

  function Apply(t: Table, e: Event): Table {
    if e.New? then t[e.key := e.value] else t - {e.key}
  }

  function Fold(t: Table, events: seq<Event>): Table
    decreases |events|
  {
    if events == [] then t else Fold(Apply(t, events[0]), events[1..])
  }

  function AddressKeyOf(i: Interface, a: IfAddress): Key {
    AddressKey(Index(i), a.ip, a.prefix)
  }

  function NewLink(v: View, i: Interface): Event {
    New(LinkKey(Index(i)), LinkValue(LinkInfoOf(v, i)))
  }

  function DelLink(i: Interface): Event {
    Del(LinkKey(Index(i)))
  }

  function NewAddress(i: Interface, a: IfAddress): Event {
    New(AddressKeyOf(i, a), AddressValue(AddressInfoOf(a)))
  }

  function DelAddress(i: Interface, a: IfAddress): Event {
    Del(AddressKeyOf(i, a))
  }

  // ----- dumps -----

  function LinkDump(v: View, interfaces: seq<Interface>): seq<Event> {
    if interfaces == [] then [] else [NewLink(v, interfaces[0])] + LinkDump(v, interfaces[1..])
  }

  function AddressesOf(i: Interface, addresses: seq<IfAddress>): seq<Event> {
    if addresses == [] then [] else [NewAddress(i, addresses[0])] + AddressesOf(i, addresses[1..])
  }

  function AddressDump(interfaces: seq<Interface>): seq<Event> {
    if interfaces == [] then []
    else AddressesOf(interfaces[0], interfaces[0].addresses) + AddressDump(interfaces[1..])
  }

  function Dump(v: View): seq<Event> {
    LinkDump(v, v.interfaces) + AddressDump(v.interfaces)
  }

  /** What a subscriber knows after dumping the links and the addresses of a view. */
  function TableOf(v: View): Table {
    Fold(map[], Dump(v))
  }

  // ----- the change of a view -----

  predicate HasId(interfaces: seq<Interface>, id: nat) {
    exists k :: 0 <= k < |interfaces| && interfaces[k].id == id
  }

  function FindId(interfaces: seq<Interface>, id: nat): (found: Option<Interface>)
    ensures found.Some? <==> HasId(interfaces, id)
    ensures found.Some? ==> found.value in interfaces && found.value.id == id
  {
    if interfaces == [] then None
    else if interfaces[0].id == id then Some(interfaces[0])
    else
      assert forall k :: 1 <= k < |interfaces| ==> interfaces[1..][k - 1] == interfaces[k];
      FindId(interfaces[1..], id)
  }

  predicate Has(addresses: seq<IfAddress>, ip: Ip, prefix: nat) {
    exists k :: 0 <= k < |addresses| && addresses[k].ip == ip && addresses[k].prefix == prefix
  }

  predicate LinkChanged(v: View, past: View, i: Interface, before: Option<Interface>) {
    || before.None? || before.value.ipv4Enabled != i.ipv4Enabled || before.value.ipv6Enabled != i.ipv6Enabled
    || v.online != past.online || v.mac != past.mac
  }

  /** Deletions of the addresses whose address and prefix are no longer there. */
  function Vanished(before: Interface, addresses: seq<IfAddress>, now: seq<IfAddress>): seq<Event> {
    if addresses == [] then []
    else if Has(now, addresses[0].ip, addresses[0].prefix) then Vanished(before, addresses[1..], now)
    else [DelAddress(before, addresses[0])] + Vanished(before, addresses[1..], now)
  }

  predicate Known(before: Option<Interface>, a: IfAddress) {
    before.Some? && a in before.value.addresses
  }

  /** Addresses that are new or differ in any way from what was there. */
  function Appeared(i: Interface, addresses: seq<IfAddress>, before: Option<Interface>): seq<Event> {
    if addresses == [] then []
    else if Known(before, addresses[0]) then Appeared(i, addresses[1..], before)
    else [NewAddress(i, addresses[0])] + Appeared(i, addresses[1..], before)
  }

  function InterfaceChanges(v: View, past: View, i: Interface): seq<Event> {
    var before := FindId(past.interfaces, i.id);
    (if LinkChanged(v, past, i, before) then [NewLink(v, i)] else [])
    + (if before.Some? then Vanished(before.value, before.value.addresses, i.addresses) else [])
    + Appeared(i, i.addresses, before)
  }

  function Updates(v: View, past: View, interfaces: seq<Interface>): seq<Event> {
    if interfaces == [] then [] else InterfaceChanges(v, past, interfaces[0]) + Updates(v, past, interfaces[1..])
  }

  function AllGone(i: Interface, addresses: seq<IfAddress>): seq<Event> {
    if addresses == [] then [DelLink(i)] else [DelAddress(i, addresses[0])] + AllGone(i, addresses[1..])
  }

  function Removal(v: View, i: Interface): seq<Event> {
    if HasId(v.interfaces, i.id) then [] else AllGone(i, i.addresses)
  }

  function Removals(v: View, interfaces: seq<Interface>): seq<Event> {
    if interfaces == [] then [] else Removal(v, interfaces[0]) + Removals(v, interfaces[1..])
  }

  function Changes(v: View, past: View): seq<Event> {
    Updates(v, past, v.interfaces) + Removals(v, past.interfaces)
  }

  // ----- well-formed views and what their table holds -----

  /** What the core's snapshots have: identifiers are distinct and not zero, and within an
      interface an address and prefix name one entry. */
  ghost predicate WellFormed(v: View) {
    && (forall i, j :: i in v.interfaces && j in v.interfaces && i.id == j.id ==> i == j)
    && !HasId(v.interfaces, 0)
    && (forall i :: i in v.interfaces ==> DistinctAddresses(i.addresses))
  }

  /** What makes a table of it: indices name interfaces. */
  ghost predicate Keyed(v: View) {
    && (forall i, j :: i in v.interfaces && j in v.interfaces && Index(i) == Index(j) ==> i == j)
    && (forall i :: i in v.interfaces ==> DistinctAddresses(i.addresses))
  }

  /** Only identifier 0 and the loopback share an index. */
  lemma SameIndexSameId(i: Interface, j: Interface)
    requires i.id != 0 && j.id != 0
    ensures Index(i) == Index(j) <==> i.id == j.id
  {
  }

  lemma MemberHasId(interfaces: seq<Interface>, i: Interface)
    requires i in interfaces
    ensures HasId(interfaces, i.id)
  {
    var k :| 0 <= k < |interfaces| && interfaces[k] == i;
  }

  lemma WellFormedIsKeyed(v: View)
    requires WellFormed(v)
    ensures Keyed(v) && forall i :: i in v.interfaces ==> i.id != 0
  {
    forall i | i in v.interfaces ensures i.id != 0 { MemberHasId(v.interfaces, i); }
    forall i, j | i in v.interfaces && j in v.interfaces && Index(i) == Index(j) ensures i == j {
      SameIndexSameId(i, j);
    }
  }

  ghost predicate DistinctAddresses(addresses: seq<IfAddress>) {
    forall a, b :: a in addresses && b in addresses && a.ip == b.ip && a.prefix == b.prefix ==> a == b
  }

  lemma FoldAppend(t: Table, first: seq<Event>, second: seq<Event>)
    ensures Fold(t, first + second) == Fold(Fold(t, first), second)
    decreases |first|
  {
    if first == [] {
      assert first + second == second;
    } else {
      assert (first + second)[1..] == first[1..] + second;
      FoldAppend(Apply(t, first[0]), first[1..], second);
    }
  }

  lemma {:induction false} FoldUntouched(t: Table, events: seq<Event>, k: Key)
    requires forall e :: e in events ==> e.key != k
    ensures k in Fold(t, events) <==> k in t
    ensures k in t ==> Fold(t, events)[k] == t[k]
    decreases |events|
  {
    if events != [] {
      assert events[0] in events;
      FoldUntouched(Apply(t, events[0]), events[1..], k);
    }
  }

  /** Listing keys consistently leaves every listed value in the table. */
  lemma {:induction false} FoldHolds(t: Table, events: seq<Event>, e: Event)
    requires e in events && e.New?
    requires forall f :: f in events && f.key == e.key ==> f == e
    ensures e.key in Fold(t, events) && Fold(t, events)[e.key] == e.value
    decreases |events|
  {
    if e in events[1..] {
      FoldHolds(Apply(t, events[0]), events[1..], e);
    } else {
      assert events[0] == e;
      FoldUntouched(Apply(t, e), events[1..], e.key);
    }
  }

  lemma {:induction false} LinkDumpLists(v: View, interfaces: seq<Interface>)
    ensures forall i :: i in interfaces ==> NewLink(v, i) in LinkDump(v, interfaces)
    ensures forall e :: e in LinkDump(v, interfaces) ==> exists i :: i in interfaces && e == NewLink(v, i)
  {
    if interfaces != [] {
      assert interfaces[0] in interfaces;
      LinkDumpLists(v, interfaces[1..]);
    }
  }

  lemma {:induction false} AddressesOfLists(i: Interface, addresses: seq<IfAddress>)
    ensures forall a :: a in addresses ==> NewAddress(i, a) in AddressesOf(i, addresses)
    ensures forall e :: e in AddressesOf(i, addresses) ==> exists a :: a in addresses && e == NewAddress(i, a)
  {
    if addresses != [] {
      assert addresses[0] in addresses;
      AddressesOfLists(i, addresses[1..]);
    }
  }

  ghost predicate ListsAddress(interfaces: seq<Interface>, e: Event) {
    exists i, a :: i in interfaces && a in i.addresses && e == NewAddress(i, a)
  }

  lemma {:induction false} AddressDumpLists(interfaces: seq<Interface>, e: Event)
    ensures e in AddressDump(interfaces) <==> ListsAddress(interfaces, e)
  {
    if interfaces != [] {
      var i := interfaces[0];
      AddressesOfLists(i, i.addresses);
      AddressDumpLists(interfaces[1..], e);
      assert interfaces == [i] + interfaces[1..];
      if e in AddressesOf(i, i.addresses) {
        var a :| a in i.addresses && e == NewAddress(i, a);
        assert i in interfaces;
      }
    }
  }

  lemma DumpIsConsistent(v: View, e: Event, f: Event)
    requires Keyed(v) && e in Dump(v) && f in Dump(v) && e.key == f.key
    ensures e == f && e.New?
  {
    LinkDumpLists(v, v.interfaces);
    AddressDumpLists(v.interfaces, e);
    AddressDumpLists(v.interfaces, f);
  }

  lemma TableHoldsDump(v: View, e: Event)
    requires Keyed(v) && e in Dump(v)
    ensures e.New? && e.key in TableOf(v) && TableOf(v)[e.key] == e.value
  {
    forall f | f in Dump(v) && f.key == e.key ensures f == e {
      DumpIsConsistent(v, f, e);
    }
    DumpIsConsistent(v, e, e);
    FoldHolds(map[], Dump(v), e);
  }

  lemma TableHoldsLink(v: View, i: Interface)
    requires Keyed(v) && i in v.interfaces
    ensures LinkKey(Index(i)) in TableOf(v) && TableOf(v)[LinkKey(Index(i))] == LinkValue(LinkInfoOf(v, i))
  {
    LinkDumpLists(v, v.interfaces);
    TableHoldsDump(v, NewLink(v, i));
  }

  lemma TableHoldsAddress(v: View, i: Interface, a: IfAddress)
    requires Keyed(v) && i in v.interfaces && a in i.addresses
    ensures AddressKeyOf(i, a) in TableOf(v) && TableOf(v)[AddressKeyOf(i, a)] == AddressValue(AddressInfoOf(a))
  {
    AddressDumpLists(v.interfaces, NewAddress(i, a));
    TableHoldsDump(v, NewAddress(i, a));
  }

  /** Every entry comes from an interface of the view, or from one of its addresses. */
  lemma TableKeyOrigin(v: View, k: Key) returns (i: Interface)
    requires k in TableOf(v)
    ensures i in v.interfaces && Index(i) == k.index
    ensures k.AddressKey? ==> Has(i.addresses, k.ip, k.prefix)
  {
    if forall e :: e in Dump(v) ==> e.key != k {
      FoldUntouched(map[], Dump(v), k);
    }
    var e :| e in Dump(v) && e.key == k;
    LinkDumpLists(v, v.interfaces);
    AddressDumpLists(v.interfaces, e);
    if e in LinkDump(v, v.interfaces) {
      i :| i in v.interfaces && e == NewLink(v, i);
    } else {
      var a: IfAddress;
      i, a :| i in v.interfaces && a in i.addresses && e == NewAddress(i, a);
    }
  }
}
