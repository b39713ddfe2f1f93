/** The loops that build the events of a change: in order, and failing as a whole when an
    interface index does not fit its field. */
module NetlinkEncoding {
  import opened Common
  import opened SocketAddresses
  import opened NetlinkView

  datatype Errno = Overflow | Invalid | Unsupported | NoFamily | NoBuffers | NoDevice

  // ----- encoding: an index that does not fit fails the whole list -----

  predicate AllFit(events: seq<Event>) {
    forall k :: 0 <= k < |events| ==> events[k].key.index < INDEX_LIMIT
  }

  function Encoded(events: seq<Event>): Result<seq<Event>, Errno> {
    if AllFit(events) then Ok(events) else Err(Overflow)
  }

  lemma FitsAppend(first: seq<Event>, second: seq<Event>)
    ensures AllFit(first + second) <==> AllFit(first) && AllFit(second)
  {
    assert forall k :: 0 <= k < |second| ==> (first + second)[|first| + k] == second[k];
    assert forall k :: 0 <= k < |first| ==> (first + second)[k] == first[k];
  }

  /** One part of a list is encoded after another. */
  lemma PartIsEncoded(done: seq<Event>, part: seq<Event>, rest: seq<Event>)
    requires AllFit(done)
    ensures done + (part + rest) == done + part + rest && part + [] == part
    ensures if AllFit(part) then AllFit(done + part) else !AllFit(done + part + rest)
  {
    FitsAppend(done, part);
    FitsAppend(done + part, rest);
  }

  /** The message of one event, refused if the index does not fit. */
  function Message(e: Event): (r: Result<seq<Event>, Errno>)
    ensures r == Encoded([e])
  {
    if e.key.index < INDEX_LIMIT then Ok([e]) else
      assert [e][0].key.index >= INDEX_LIMIT;
      Err(Overflow)
  }

  method VanishedOf(before: Interface, now: seq<IfAddress>) returns (r: Result<seq<Event>, Errno>)
    ensures r == Encoded(Vanished(before, before.addresses, now))
  {
    var records: seq<Event> := [];
    for k := 0 to |before.addresses|
      invariant AllFit(records)
      invariant records + Vanished(before, before.addresses[k..], now) == Vanished(before, before.addresses, now)
    {
      var a := before.addresses[k];
      assert before.addresses[k..][1..] == before.addresses[k + 1..];
      if !Has(now, a.ip, a.prefix) {
        PartIsEncoded(records, [DelAddress(before, a)], Vanished(before, before.addresses[k + 1..], now));
        var one := Message(DelAddress(before, a));
        if one.Err? { return one; }
        records := records + one.value;
      }
    }
    PartIsEncoded([], records, []);
    return Ok(records);
  }

  method AppearedOf(i: Interface, before: Option<Interface>) returns (r: Result<seq<Event>, Errno>)
    ensures r == Encoded(Appeared(i, i.addresses, before))
  {
    var records: seq<Event> := [];
    for k := 0 to |i.addresses|
      invariant AllFit(records)
      invariant records + Appeared(i, i.addresses[k..], before) == Appeared(i, i.addresses, before)
    {
      var a := i.addresses[k];
      assert i.addresses[k..][1..] == i.addresses[k + 1..];
      if before.None? || a !in before.value.addresses {
        PartIsEncoded(records, [NewAddress(i, a)], Appeared(i, i.addresses[k + 1..], before));
        var one := Message(NewAddress(i, a));
        if one.Err? { return one; }
        records := records + one.value;
      }
    }
    PartIsEncoded([], records, []);
    return Ok(records);
  }

  method AllGoneOf(i: Interface) returns (r: Result<seq<Event>, Errno>)
    ensures r == Encoded(AllGone(i, i.addresses))
  {
    var records: seq<Event> := [];
    for k := 0 to |i.addresses|
      invariant AllFit(records)
      invariant records + AllGone(i, i.addresses[k..]) == AllGone(i, i.addresses)
    {
      var a := i.addresses[k];
      assert i.addresses[k..][1..] == i.addresses[k + 1..];
      PartIsEncoded(records, [DelAddress(i, a)], AllGone(i, i.addresses[k + 1..]));
      var one := Message(DelAddress(i, a));
      if one.Err? { return one; }
      records := records + one.value;
    }
    PartIsEncoded(records, [DelLink(i)], []);
    var last := Message(DelLink(i));
    if last.Err? { return last; }
    return Ok(records + last.value);
  }

  method InterfaceChangesOf(v: View, past: View, i: Interface) returns (r: Result<seq<Event>, Errno>)
    ensures r == Encoded(InterfaceChanges(v, past, i))
  {
    var before := FindId(past.interfaces, i.id);
    ghost var link := if LinkChanged(v, past, i, before) then [NewLink(v, i)] else [];
    ghost var vanished := if before.Some? then Vanished(before.value, before.value.addresses, i.addresses) else [];
    FitsAppend(link + vanished, Appeared(i, i.addresses, before));
    FitsAppend(link, vanished);
    var records: seq<Event> := [];
    if LinkChanged(v, past, i, before) {
      var one := Message(NewLink(v, i));
      if one.Err? { return one; }
      records := one.value;
    }
    if before.Some? {
      var lost := VanishedOf(before.value, i.addresses);
      if lost.Err? { return lost; }
      records := records + lost.value;
    }
    assert records == link + vanished;
    var gained := AppearedOf(i, before);
    if gained.Err? { return gained; }
    return Ok(records + gained.value);
  }

  method UpdatesOf(v: View, past: View) returns (r: Result<seq<Event>, Errno>)
    ensures r == Encoded(Updates(v, past, v.interfaces))
  {
    var records: seq<Event> := [];
    for k := 0 to |v.interfaces|
      invariant AllFit(records)
      invariant records + Updates(v, past, v.interfaces[k..]) == Updates(v, past, v.interfaces)
    {
      assert v.interfaces[k..][1..] == v.interfaces[k + 1..];
      PartIsEncoded(records, InterfaceChanges(v, past, v.interfaces[k]), Updates(v, past, v.interfaces[k + 1..]));
      var some := InterfaceChangesOf(v, past, v.interfaces[k]);
      if some.Err? { return some; }
      records := records + some.value;
    }
    PartIsEncoded([], records, []);
    return Ok(records);
  }

  method RemovalsOf(v: View, past: View) returns (r: Result<seq<Event>, Errno>)
    ensures r == Encoded(Removals(v, past.interfaces))
  {
    var records: seq<Event> := [];
    for k := 0 to |past.interfaces|
      invariant AllFit(records)
      invariant records + Removals(v, past.interfaces[k..]) == Removals(v, past.interfaces)
    {
      var i := past.interfaces[k];
      assert past.interfaces[k..][1..] == past.interfaces[k + 1..];
      PartIsEncoded(records, Removal(v, i), Removals(v, past.interfaces[k + 1..]));
      if HasId(v.interfaces, i.id) {
        assert records + [] == records;
      } else {
        var some := AllGoneOf(i);
        if some.Err? { return some; }
        records := records + some.value;
      }
    }
    PartIsEncoded([], records, []);
    return Ok(records);
  }

  method ChangesOf(v: View, past: View) returns (r: Result<seq<Event>, Errno>)
    ensures r == Encoded(Changes(v, past))
  {
    FitsAppend(Updates(v, past, v.interfaces), Removals(v, past.interfaces));
    var updates := UpdatesOf(v, past);
    if updates.Err? { return updates; }
    var removals := RemovalsOf(v, past);
    if removals.Err? { return removals; }
    return Ok(updates.value + removals.value);
  }

  predicate Incomplete(v: View) {
    exists k :: 0 <= k < |v.interfaces| && v.interfaces[k].incomplete
  }
}
