/** Which entries a change of view reports, in terms of the two views: exactly those whose
    observation changed. Hence when a table of a third view is brought up to date, and what
    becomes of a dump that arrives after the events. */
module NetlinkReports {
  import opened Common
  import opened SocketAddresses
  import opened NetlinkView
  import opened NetlinkEvents

  /** What a view observes about an entry; a report follows any change of it. */
  datatype Observation =
    | LinkSeen(ipv4Enabled: bool, ipv6Enabled: bool, online: bool, mac: seq<byte>)
    | AddressSeen(address: IfAddress)

  function AtIndex(interfaces: seq<Interface>, index: nat): (found: Option<Interface>)
    ensures found.Some? ==> found.value in interfaces && Index(found.value) == index
    ensures found.None? ==> forall i :: i in interfaces ==> Index(i) != index
  {
    if interfaces == [] then None
    else if Index(interfaces[0]) == index then Some(interfaces[0])
    else AtIndex(interfaces[1..], index)
  }

  function AddressAt(addresses: seq<IfAddress>, ip: Ip, prefix: nat): (found: Option<IfAddress>)
    ensures found.Some? ==> found.value in addresses && found.value.ip == ip && found.value.prefix == prefix
    ensures found.None? ==> !Has(addresses, ip, prefix)
  {
    if addresses == [] then None
    else if addresses[0].ip == ip && addresses[0].prefix == prefix then Some(addresses[0])
    else
      assert forall k :: 1 <= k < |addresses| ==> addresses[1..][k - 1] == addresses[k];
      AddressAt(addresses[1..], ip, prefix)
  }

  function Observed(v: View, k: Key): Option<Observation> {
    var i := AtIndex(v.interfaces, k.index);
    if i.None? then None
    else if k.LinkKey? then Some(LinkSeen(i.value.ipv4Enabled, i.value.ipv6Enabled, v.online, v.mac))
    else
      match AddressAt(i.value.addresses, k.ip, k.prefix)
      case None => None
      case Some(a) => Some(AddressSeen(a))
  }

  // ----- the observation of an entry of a well-formed view -----

  lemma ObservedLink(v: View, i: Interface)
    requires Keyed(v) && i in v.interfaces
    ensures Observed(v, LinkKey(Index(i))) == Some(LinkSeen(i.ipv4Enabled, i.ipv6Enabled, v.online, v.mac))
  {
  }

  lemma ObservedAddress(v: View, i: Interface, a: IfAddress)
    requires Keyed(v) && i in v.interfaces && a in i.addresses
    ensures Observed(v, AddressKeyOf(i, a)) == Some(AddressSeen(a))
  {
    var n :| 0 <= n < |i.addresses| && i.addresses[n] == a;
    assert Has(i.addresses, a.ip, a.prefix);
  }

  lemma UnobservedAddress(v: View, i: Interface, a: IfAddress)
    requires Keyed(v) && i in v.interfaces && !Has(i.addresses, a.ip, a.prefix)
    ensures Observed(v, AddressKeyOf(i, a)).None?
  {
  }

  lemma GoneIsUnobserved(v: View, past: View, i: Interface, k: Key)
    requires WellFormed(v) && WellFormed(past) && i in past.interfaces && !HasId(v.interfaces, i.id) && k.index == Index(i)
    ensures Observed(v, k).None?
  {
    WellFormedIsKeyed(v);
    WellFormedIsKeyed(past);
    forall j | j in v.interfaces ensures Index(j) != k.index {
      MemberHasId(v.interfaces, j);
      SameIndexSameId(i, j);
    }
  }

  // ----- where a report comes from -----

  lemma {:induction false} VanishedOrigin(before: Interface, addresses: seq<IfAddress>, now: seq<IfAddress>, e: Event)
    returns (a: IfAddress)
    requires e in Vanished(before, addresses, now)
    ensures a in addresses && e == DelAddress(before, a) && !Has(now, a.ip, a.prefix)
  {
    a := addresses[0];
    if Has(now, a.ip, a.prefix) || e != DelAddress(before, a) {
      a := VanishedOrigin(before, addresses[1..], now, e);
    }
  }

  lemma {:induction false} AppearedOrigin(i: Interface, addresses: seq<IfAddress>, before: Option<Interface>, e: Event)
    returns (a: IfAddress)
    requires e in Appeared(i, addresses, before)
    ensures a in addresses && e == NewAddress(i, a) && !Known(before, a)
  {
    a := addresses[0];
    if Known(before, a) || e != NewAddress(i, a) {
      a := AppearedOrigin(i, addresses[1..], before, e);
    }
  }

  lemma {:induction false} AllGoneOrigin(i: Interface, addresses: seq<IfAddress>, e: Event)
    requires e in AllGone(i, addresses)
    ensures e == DelLink(i) || exists a :: a in addresses && e == DelAddress(i, a)
  {
    if addresses != [] && e != DelAddress(i, addresses[0]) {
      AllGoneOrigin(i, addresses[1..], e);
    }
  }

  lemma {:induction false} UpdatesOrigin(v: View, past: View, interfaces: seq<Interface>, e: Event) returns (i: Interface)
    requires e in Updates(v, past, interfaces)
    ensures i in interfaces && e in InterfaceChanges(v, past, i)
  {
    i := interfaces[0];
    if e !in InterfaceChanges(v, past, i) {
      i := UpdatesOrigin(v, past, interfaces[1..], e);
    }
  }

  lemma {:induction false} RemovalsOrigin(v: View, interfaces: seq<Interface>, e: Event) returns (i: Interface)
    requires e in Removals(v, interfaces)
    ensures i in interfaces && !HasId(v.interfaces, i.id) && e in AllGone(i, i.addresses)
  {
    i := interfaces[0];
    if e !in Removal(v, i) {
      i := RemovalsOrigin(v, interfaces[1..], e);
    }
  }

  // ----- every report is of a change -----

  lemma VanishedIsAChange(v: View, past: View, i: Interface, before: Interface, e: Event)
    requires Keyed(v) && Keyed(past) && i in v.interfaces && before in past.interfaces && before.id == i.id
    requires e in Vanished(before, before.addresses, i.addresses)
    ensures Observed(v, e.key) != Observed(past, e.key)
  {
    var a := VanishedOrigin(before, before.addresses, i.addresses, e);
    UnobservedAddress(v, i, a);
    ObservedAddress(past, before, a);
  }

  lemma AppearedIsAChange(v: View, past: View, i: Interface, e: Event)
    requires Keyed(v) && WellFormed(past) && i in v.interfaces && i.id != 0
    requires e in Appeared(i, i.addresses, FindId(past.interfaces, i.id))
    ensures Observed(v, e.key) != Observed(past, e.key)
  {
    var before := FindId(past.interfaces, i.id);
    var a := AppearedOrigin(i, i.addresses, before, e);
    ObservedAddress(v, i, a);
    if Observed(past, e.key).Some? {
      var found := AtIndex(past.interfaces, Index(i)).value;
      WellFormedIsKeyed(past);
      SameIndexSameId(i, found);
      BeforeIsUnique(past, found);
    }
  }

  lemma LinkIsAChange(v: View, past: View, i: Interface)
    requires Keyed(v) && WellFormed(past) && i in v.interfaces && i.id != 0
    requires LinkChanged(v, past, i, FindId(past.interfaces, i.id))
    ensures Observed(v, LinkKey(Index(i))) != Observed(past, LinkKey(Index(i)))
  {
    ObservedLink(v, i);
    if Observed(past, LinkKey(Index(i))).Some? {
      var found := AtIndex(past.interfaces, Index(i)).value;
      WellFormedIsKeyed(past);
      SameIndexSameId(i, found);
      BeforeIsUnique(past, found);
    }
  }

  lemma UpdateIsAChange(v: View, past: View, e: Event)
    requires WellFormed(v) && WellFormed(past) && e in Updates(v, past, v.interfaces)
    ensures Observed(v, e.key) != Observed(past, e.key)
  {
    WellFormedIsKeyed(v);
    WellFormedIsKeyed(past);
    var i := UpdatesOrigin(v, past, v.interfaces, e);
    var before := FindId(past.interfaces, i.id);
    if e in Appeared(i, i.addresses, before) {
      AppearedIsAChange(v, past, i, e);
    } else if before.Some? && e in Vanished(before.value, before.value.addresses, i.addresses) {
      VanishedIsAChange(v, past, i, before.value, e);
    } else {
      LinkIsAChange(v, past, i);
    }
  }

  lemma RemovalIsAChange(v: View, past: View, e: Event)
    requires WellFormed(v) && WellFormed(past) && e in Removals(v, past.interfaces)
    ensures Observed(v, e.key) != Observed(past, e.key)
  {
    WellFormedIsKeyed(past);
    var i := RemovalsOrigin(v, past.interfaces, e);
    AllGoneOrigin(i, i.addresses, e);
    GoneIsUnobserved(v, past, i, e.key);
    if e == DelLink(i) {
      ObservedLink(past, i);
    } else {
      var a :| a in i.addresses && e == DelAddress(i, a);
      ObservedAddress(past, i, a);
    }
  }

  // ----- every change is reported -----

  lemma SeenIsReported(v: View, past: View, k: Key)
    requires WellFormed(v) && WellFormed(past) && Observed(v, k).Some? && Observed(v, k) != Observed(past, k)
    ensures Touches(Changes(v, past), k)
  {
    WellFormedIsKeyed(past);
    var i := AtIndex(v.interfaces, k.index).value;
    var before := FindId(past.interfaces, i.id);
    if k.LinkKey? {
      if before.Some? { ObservedLink(past, before.value); }
      ChangedLink(v, past, i);
    } else {
      var a := AddressAt(i.addresses, k.ip, k.prefix).value;
      if Known(before, a) { ObservedAddress(past, before.value, a); }
      AppearedAddress(v, past, i, a);
    }
  }

  lemma UnseenIsReported(v: View, past: View, k: Key)
    requires WellFormed(v) && WellFormed(past) && Observed(v, k).None? && Observed(past, k).Some?
    ensures Touches(Changes(v, past), k)
  {
    WellFormedIsKeyed(v);
    WellFormedIsKeyed(past);
    var i := AtIndex(past.interfaces, k.index).value;
    if k.AddressKey? {
      var a := AddressAt(i.addresses, k.ip, k.prefix).value;
      var n :| 0 <= n < |i.addresses| && i.addresses[n] == a;
      assert Has(i.addresses, k.ip, k.prefix);
    }
    if !HasId(v.interfaces, i.id) {
      GoneIsDeleted(v, past, i, k);
    } else {
      var now := FindId(v.interfaces, i.id).value;
      ObservedLink(v, now);
      var a := AddressAt(i.addresses, k.ip, k.prefix).value;
      var found := AddressAt(now.addresses, a.ip, a.prefix);
      if found.Some? { ObservedAddress(v, now, found.value); }
      VanishedIsDeleted(v, past, i, now, a);
    }
  }

  /** A change of view reports an entry if and only if its observation changed. */
  lemma ReportedExactly(v: View, past: View, k: Key)
    requires WellFormed(v) && WellFormed(past)
    ensures Touches(Changes(v, past), k) <==> Observed(v, k) != Observed(past, k)
  {
    if Touches(Changes(v, past), k) {
      var e :| e in Changes(v, past) && e.key == k;
      if e in Updates(v, past, v.interfaces) {
        UpdateIsAChange(v, past, e);
      } else {
        RemovalIsAChange(v, past, e);
      }
    }
    if Observed(v, k) != Observed(past, k) {
      if Observed(v, k).Some? {
        SeenIsReported(v, past, k);
      } else {
        UnseenIsReported(v, past, k);
      }
    }
  }
}
