/** Link and address queries. Proved: the dumps are the table, per family and in whole,
    and a lookup by index finds the one interface that has it. */
module NetlinkQueries {
  import opened Common
  import opened SocketAddresses
  import opened NetlinkView
  import opened NetlinkEvents
  import opened NetlinkEncoding

  const GET_LINK: nat := 18
  const GET_ADDRESS: nat := 22

  /** The fields of a request: its length, its header and its body's family and index. */
  datatype Query = Query(length: nat, kind: nat, flags: nat, family: nat, index: nat)

  datatype Reply = Record(event: Event, multi: bool) | Done | Acknowledged

  predicate Flag(flags: nat, bit: nat)
    requires bit > 0
  {
    (flags / bit) % 2 == 1
  }

  predicate IsDump(q: Query) {
    Flag(q.flags, 0x100) && Flag(q.flags, 0x200)
  }

  function Wanted(q: Query): nat {
    if IsDump(q) then 0 else q.index
  }

  function Refusal(v: View, q: Query): Option<Errno> {
    if !Flag(q.flags, 1) then Some(Invalid)
    else if q.kind != GET_LINK && q.kind != GET_ADDRESS then Some(Unsupported)
    else if q.length < 17 then Some(Invalid)
    else if q.family !in {0, 2, 10, 17} then Some(NoFamily)
    else if !IsDump(q) && (q.kind != GET_LINK || q.length != 32) then Some(Unsupported)
    else if Incomplete(v) then Some(NoBuffers)
    else None
  }

  function OfFamily(i: Interface, addresses: seq<IfAddress>, family: nat): seq<Event> {
    if addresses == [] then []
    else if family != 0 && family != (if addresses[0].ip.V4? then 2 else 10) then OfFamily(i, addresses[1..], family)
    else [NewAddress(i, addresses[0])] + OfFamily(i, addresses[1..], family)
  }

  function Described(v: View, q: Query, i: Interface): seq<Event> {
    if q.kind == GET_LINK then [NewLink(v, i)] else OfFamily(i, i.addresses, q.family)
  }

  predicate Matches(q: Query, i: Interface) {
    Wanted(q) == 0 || Wanted(q) == Index(i)
  }

  function Selected(v: View, q: Query, interfaces: seq<Interface>): seq<Event> {
    if interfaces == [] then []
    else (if Matches(q, interfaces[0]) then Described(v, q, interfaces[0]) else []) + Selected(v, q, interfaces[1..])
  }

  /** Looking for an index reads every index. */
  predicate Readable(v: View, q: Query) {
    && AllFit(Selected(v, q, v.interfaces))
    && (Wanted(q) != 0 ==> forall k :: 0 <= k < |v.interfaces| ==> Index(v.interfaces[k]) < INDEX_LIMIT)
  }

  function Records(events: seq<Event>, multi: bool): (r: seq<Reply>)
    ensures |r| == |events| && forall k :: 0 <= k < |r| ==> r[k] == Record(events[k], multi)
  {
    seq(|events|, k requires 0 <= k < |events| => Record(events[k], multi))
  }

  function Answer(v: View, q: Query): Result<seq<Reply>, Errno> {
    if Refusal(v, q).Some? then Err(Refusal(v, q).value)
    else if !Readable(v, q) then Err(Overflow)
    else
      var records := Records(Selected(v, q, v.interfaces), IsDump(q));
      if IsDump(q) then Ok(records + [Done])
      else if records == [] then Err(NoDevice)
      else Ok(records + (if Flag(q.flags, 4) then [Acknowledged] else []))
  }

  // ----- what the answers mean -----

  lemma {:induction false} DumpSelectsLinks(v: View, q: Query, interfaces: seq<Interface>)
    requires IsDump(q) && q.kind == GET_LINK
    ensures Selected(v, q, interfaces) == LinkDump(v, interfaces)
  {
    if interfaces != [] { DumpSelectsLinks(v, q, interfaces[1..]); }
  }

  lemma {:induction false} EveryFamily(i: Interface, addresses: seq<IfAddress>)
    ensures OfFamily(i, addresses, 0) == AddressesOf(i, addresses)
  {
    if addresses != [] { EveryFamily(i, addresses[1..]); }
  }

  lemma {:induction false} DumpSelectsAddresses(v: View, q: Query, interfaces: seq<Interface>)
    requires IsDump(q) && q.kind == GET_ADDRESS && q.family == 0
    ensures Selected(v, q, interfaces) == AddressDump(interfaces)
  {
    if interfaces != [] {
      EveryFamily(interfaces[0], interfaces[0].addresses);
      DumpSelectsAddresses(v, q, interfaces[1..]);
    }
  }

  /** The two dumps of a view, links and then addresses of every family, give its table. */
  lemma DumpsGiveTheTable(v: View, links: Query, addresses: Query)
    requires IsDump(links) && links.kind == GET_LINK
    requires IsDump(addresses) && addresses.kind == GET_ADDRESS && addresses.family == 0
    requires Answer(v, links).Ok? && Answer(v, addresses).Ok?
    ensures exists first, second ::
      && Answer(v, links) == Ok(Records(first, true) + [Done])
      && Answer(v, addresses) == Ok(Records(second, true) + [Done])
      && Fold(map[], first + second) == TableOf(v)
  {
    DumpSelectsLinks(v, links, v.interfaces);
    DumpSelectsAddresses(v, addresses, v.interfaces);
    assert Answer(v, links) == Ok(Records(LinkDump(v, v.interfaces), true) + [Done]);
    assert Answer(v, addresses) == Ok(Records(AddressDump(v.interfaces), true) + [Done]);
  }

  /** The groups that a dump answers for. */
  function AskedBy(q: Query): set<nat> {
    if q.kind == GET_LINK then {GROUP_LINK}
    else if q.family == 0 then {GROUP_IPV4, GROUP_IPV6}
    else if q.family == 2 then {GROUP_IPV4}
    else if q.family == 10 then {GROUP_IPV6}
    else {}
  }

  lemma {:induction false} HeardLinks(v: View, interfaces: seq<Interface>, groups: set<nat>)
    ensures Heard(LinkDump(v, interfaces), groups) == if GROUP_LINK in groups then LinkDump(v, interfaces) else []
  {
    if interfaces != [] {
      HeardLinks(v, interfaces[1..], groups);
      assert LinkDump(v, interfaces)[1..] == LinkDump(v, interfaces[1..]);
    }
  }

  lemma {:induction false} HeardAddresses(i: Interface, addresses: seq<IfAddress>, q: Query)
    requires q.kind == GET_ADDRESS
    ensures Heard(AddressesOf(i, addresses), AskedBy(q)) == OfFamily(i, addresses, q.family)
  {
    if addresses != [] {
      HeardAddresses(i, addresses[1..], q);
      assert AddressesOf(i, addresses)[1..] == AddressesOf(i, addresses[1..]);
    }
  }

  lemma {:induction false} HeardAddressDump(v: View, q: Query, interfaces: seq<Interface>)
    requires IsDump(q) && q.kind == GET_ADDRESS
    ensures Heard(AddressDump(interfaces), AskedBy(q)) == Selected(v, q, interfaces)
  {
    if interfaces != [] {
      var i := interfaces[0];
      HeardAddresses(i, i.addresses, q);
      HeardAddressDump(v, q, interfaces[1..]);
      HeardAppend(AddressesOf(i, i.addresses), AddressDump(interfaces[1..]), AskedBy(q));
    }
  }

  lemma {:induction false} NoLinkAmongAddresses(interfaces: seq<Interface>)
    ensures Heard(AddressDump(interfaces), {GROUP_LINK}) == []
  {
    if interfaces != [] {
      NoLinkAmongThese(interfaces[0], interfaces[0].addresses);
      NoLinkAmongAddresses(interfaces[1..]);
      HeardAppend(AddressesOf(interfaces[0], interfaces[0].addresses), AddressDump(interfaces[1..]), {GROUP_LINK});
    }
  }

  lemma {:induction false} NoLinkAmongThese(i: Interface, addresses: seq<IfAddress>)
    ensures Heard(AddressesOf(i, addresses), {GROUP_LINK}) == []
  {
    if addresses != [] {
      NoLinkAmongThese(i, addresses[1..]);
      assert AddressesOf(i, addresses)[1..] == AddressesOf(i, addresses[1..]);
    }
  }

  /** A dump request of any kind and family is answered with exactly the records of the
      groups it stands for. */
  lemma DumpAnswersTheGroups(v: View, q: Query)
    requires IsDump(q) && q.kind in {GET_LINK, GET_ADDRESS}
    ensures Selected(v, q, v.interfaces) == Heard(Dump(v), AskedBy(q))
  {
    HeardAppend(LinkDump(v, v.interfaces), AddressDump(v.interfaces), AskedBy(q));
    HeardLinks(v, v.interfaces, AskedBy(q));
    if q.kind == GET_LINK {
      DumpSelectsLinks(v, q, v.interfaces);
      NoLinkAmongAddresses(v.interfaces);
    } else {
      HeardAddressDump(v, q, v.interfaces);
    }
  }

  /** A dump of some groups is what those groups would have told. */
  lemma DumpIsTheGroups(v: View, q: Query)
    requires Keyed(v) && IsDump(q) && q.kind in {GET_LINK, GET_ADDRESS}
    ensures Fold(map[], Selected(v, q, v.interfaces)) == Restrict(TableOf(v), AskedBy(q))
  {
    DumpAnswersTheGroups(v, q);
    forall e | e in Dump(v) ensures Truthful(e, TableOf(v)) { TableHoldsDump(v, e); }
    forall k ensures SameAt(map[], TableOf(v), k) || Touches(Dump(v), k) {
      if k in TableOf(v) && !Touches(Dump(v), k) { FoldUntouched(map[], Dump(v), k); }
    }
    SettlesHeard(map[], Dump(v), TableOf(v), AskedBy(q));
    assert Restrict(map[], AskedBy(q)) == map[];
  }

  lemma {:induction false} LookupSelects(v: View, q: Query, interfaces: seq<Interface>, i: Interface)
    requires !IsDump(q) && q.index != 0 && q.kind == GET_LINK && i in interfaces && Index(i) == q.index
    requires forall j, k :: 0 <= j < k < |interfaces| ==> Index(interfaces[j]) != Index(interfaces[k])
    ensures Selected(v, q, interfaces) == [NewLink(v, i)]
  {
    var rest := interfaces[1..];
    assert forall j, k :: 0 <= j < k < |rest| ==> Index(rest[j]) != Index(rest[k]);
    if interfaces[0] == i {
      assert forall k :: 0 <= k < |rest| ==> rest[k] == interfaces[k + 1];
      LookupSelectsNone(v, q, rest);
    } else {
      var k :| 0 <= k < |interfaces| && interfaces[k] == i;
      assert !Matches(q, interfaces[0]);
      LookupSelects(v, q, rest, i);
    }
  }

  lemma {:induction false} LookupSelectsNone(v: View, q: Query, interfaces: seq<Interface>)
    requires !IsDump(q) && q.index != 0
    requires forall k :: 0 <= k < |interfaces| ==> Index(interfaces[k]) != q.index
    ensures Selected(v, q, interfaces) == []
  {
    if interfaces != [] { LookupSelectsNone(v, q, interfaces[1..]); }
  }

  /** A lookup by index answers with the one interface that has it, or with no device. */
  lemma LookupFindsTheInterface(v: View, q: Query)
    requires !IsDump(q) && q.index != 0 && Refusal(v, q).None? && Readable(v, q)
    requires forall j, k :: 0 <= j < k < |v.interfaces| ==> Index(v.interfaces[j]) != Index(v.interfaces[k])
    ensures Answer(v, q) == Err(NoDevice) <==> forall i :: i in v.interfaces ==> Index(i) != q.index
    ensures forall i :: i in v.interfaces && Index(i) == q.index ==>
              Answer(v, q).Ok? && Answer(v, q).value[0] == Record(NewLink(v, i), false)
              && |Answer(v, q).value| == if Flag(q.flags, 4) then 2 else 1
  {
    if i :| i in v.interfaces && Index(i) == q.index {
      forall i | i in v.interfaces && Index(i) == q.index
        ensures Selected(v, q, v.interfaces) == [NewLink(v, i)]
      {
        LookupSelects(v, q, v.interfaces, i);
      }
    } else {
      LookupSelectsNone(v, q, v.interfaces);
    }
  }

  // ----- the loops -----

  method OfFamilyOf(i: Interface, family: nat) returns (r: Result<seq<Event>, Errno>)
    ensures r == Encoded(OfFamily(i, i.addresses, family))
  {
    var records: seq<Event> := [];
    for k := 0 to |i.addresses|
      invariant AllFit(records)
      invariant records + OfFamily(i, i.addresses[k..], family) == OfFamily(i, i.addresses, family)
    {
      var a := i.addresses[k];
      assert i.addresses[k..][1..] == i.addresses[k + 1..];
      if family != 0 && family != (if a.ip.V4? then 2 else 10) { continue; }
      PartIsEncoded(records, [NewAddress(i, a)], OfFamily(i, i.addresses[k + 1..], family));
      var one := Message(NewAddress(i, a));
      if one.Err? { return one; }
      records := records + one.value;
    }
    PartIsEncoded([], records, []);
    return Ok(records);
  }

  method DescribedOf(v: View, q: Query, i: Interface) returns (r: Result<seq<Event>, Errno>)
    ensures r == Encoded(Described(v, q, i))
  {
    if q.kind == GET_LINK { return Message(NewLink(v, i)); }
    r := OfFamilyOf(i, q.family);
  }

  method SelectedOf(v: View, q: Query) returns (r: Result<seq<Event>, Errno>)
    ensures r == if Readable(v, q) then Ok(Selected(v, q, v.interfaces)) else Err(Overflow)
  {
    var records: seq<Event> := [];
    for k := 0 to |v.interfaces|
      invariant AllFit(records)
      invariant Wanted(q) != 0 ==> forall j :: 0 <= j < k ==> Index(v.interfaces[j]) < INDEX_LIMIT
      invariant records + Selected(v, q, v.interfaces[k..]) == Selected(v, q, v.interfaces)
    {
      var i := v.interfaces[k];
      assert v.interfaces[k..][1..] == v.interfaces[k + 1..];
      ghost var rest := Selected(v, q, v.interfaces[k + 1..]);
      PartIsEncoded(records, if Matches(q, i) then Described(v, q, i) else [], rest);
      if Wanted(q) != 0 && Index(i) >= INDEX_LIMIT { return Err(Overflow); }
      if !Matches(q, i) {
        assert records + [] == records;
        continue;
      }
      var some := DescribedOf(v, q, i);
      if some.Err? { return some; }
      records := records + some.value;
    }
    PartIsEncoded([], records, []);
    return Ok(records);
  }

  method Request(v: View, q: Query) returns (r: Result<seq<Reply>, Errno>)
    ensures r == Answer(v, q)
  {
    if !Flag(q.flags, 1) { return Err(Invalid); }
    if q.kind != GET_LINK && q.kind != GET_ADDRESS { return Err(Unsupported); }
    if q.length < 17 { return Err(Invalid); }
    if q.family !in {0, 2, 10, 17} { return Err(NoFamily); }
    var dump := IsDump(q);
    if !dump && (q.kind != GET_LINK || q.length != 32) { return Err(Unsupported); }
    if Incomplete(v) { return Err(NoBuffers); }
    var selected := SelectedOf(v, q);
    if selected.Err? { return Err(selected.error); }
    var records := Records(selected.value, dump);
    if !dump && |records| == 0 { return Err(NoDevice); }
    if dump { return Ok(records + [Done]); }
    return Ok(records + (if Flag(q.flags, 4) then [Acknowledged] else []));
  }
}
