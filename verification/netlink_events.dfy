/** What the events of a change of view do to a subscriber's table. */
module NetlinkEvents {
  import opened Common
  import opened SocketAddresses
  import opened NetlinkView

  /** An interface that went away left its index to one that the new view has. */
  ghost predicate Usurped(v: View, past: View) {
    exists i, j :: i in past.interfaces && j in v.interfaces && !HasId(v.interfaces, i.id) && Index(i) == Index(j)
  }

  /** What a subscriber of these groups sees. */
  function Restrict(t: Table, groups: set<nat>): Table {
    map k | k in t && GroupOf(k) in groups :: t[k]
  }

  function Heard(events: seq<Event>, groups: set<nat>): seq<Event> {
    if events == [] then []
    else if GroupOf(events[0].key) in groups then [events[0]] + Heard(events[1..], groups)
    else Heard(events[1..], groups)
  }

  // ----- truthful events that cover every difference settle a table -----

  predicate Truthful(e: Event, t: Table) {
    if e.New? then e.key in t && t[e.key] == e.value else e.key !in t
  }

  ghost predicate AllTruthful(events: seq<Event>, t: Table) {
    forall e :: e in events ==> Truthful(e, t)
  }

  predicate SameAt(t: Table, u: Table, k: Key) {
    (k in t <==> k in u) && (k in t ==> t[k] == u[k])
  }

  ghost predicate Touches(events: seq<Event>, k: Key) {
    exists e :: e in events && e.key == k
  }

  ghost predicate Covers(events: seq<Event>, t: Table, u: Table) {
    forall k :: SameAt(t, u, k) || Touches(events, k)
  }

  lemma SameEverywhere(t: Table, u: Table)
    requires forall k :: SameAt(t, u, k)
    ensures t == u
  {
    forall k ensures k in t <==> k in u { assert SameAt(t, u, k); }
    forall k | k in t ensures t[k] == u[k] { assert SameAt(t, u, k); }
  }

  lemma {:induction false} Settles(t: Table, events: seq<Event>, goal: Table)
    requires AllTruthful(events, goal) && Covers(events, t, goal)
    ensures Fold(t, events) == goal
    decreases |events|
  {
    if events == [] {
      forall k ensures SameAt(t, goal, k) {
        assert !Touches(events, k);
      }
      SameEverywhere(t, goal);
    } else {
      var next, rest := Apply(t, events[0]), events[1..];
      assert Truthful(events[0], goal);
      forall k ensures SameAt(next, goal, k) || Touches(rest, k) {
        if k != events[0].key && !SameAt(t, goal, k) {
          var e :| e in events && e.key == k;
          assert e in rest;
        }
      }
      Settles(next, rest, goal);
    }
  }

  lemma {:induction false} HeardExactly(events: seq<Event>, groups: set<nat>, e: Event)
    ensures e in Heard(events, groups) <==> e in events && GroupOf(e.key) in groups
  {
    if events != [] {
      HeardExactly(events[1..], groups, e);
    }
  }

  lemma SettlesHeard(t: Table, events: seq<Event>, goal: Table, groups: set<nat>)
    requires AllTruthful(events, goal) && Covers(events, t, goal)
    ensures Fold(Restrict(t, groups), Heard(events, groups)) == Restrict(goal, groups)
  {
    var heard := Heard(events, groups);
    forall e | e in heard ensures Truthful(e, Restrict(goal, groups)) {
      HeardExactly(events, groups, e);
    }
    forall k ensures SameAt(Restrict(t, groups), Restrict(goal, groups), k) || Touches(heard, k) {
      if GroupOf(k) in groups && !SameAt(t, goal, k) {
        var e :| e in events && e.key == k;
        HeardExactly(events, groups, e);
      }
    }
    Settles(Restrict(t, groups), heard, Restrict(goal, groups));
  }

  // ----- the events are truthful -----

  lemma {:induction false} VanishedIsTruthful(v: View, i: Interface, before: Interface, addresses: seq<IfAddress>)
    requires Keyed(v) && i in v.interfaces && before.id == i.id
    ensures AllTruthful(Vanished(before, addresses, i.addresses), TableOf(v))
  {
    if addresses != [] {
      VanishedIsTruthful(v, i, before, addresses[1..]);
      var a := addresses[0];
      if !Has(i.addresses, a.ip, a.prefix) && AddressKeyOf(before, a) in TableOf(v) {
        var j := TableKeyOrigin(v, AddressKeyOf(before, a));
      }
    }
  }

  lemma {:induction false} AppearedIsTruthful(v: View, i: Interface, addresses: seq<IfAddress>, before: Option<Interface>)
    requires Keyed(v) && i in v.interfaces
    requires forall a :: a in addresses ==> a in i.addresses
    ensures AllTruthful(Appeared(i, addresses, before), TableOf(v))
  {
    if addresses != [] {
      assert addresses[0] in addresses;
      TableHoldsAddress(v, i, addresses[0]);
      AppearedIsTruthful(v, i, addresses[1..], before);
    }
  }

  lemma {:induction false} UpdatesAreTruthful(v: View, past: View, interfaces: seq<Interface>)
    requires Keyed(v) && forall i :: i in interfaces ==> i in v.interfaces
    ensures AllTruthful(Updates(v, past, interfaces), TableOf(v))
  {
    if interfaces != [] {
      var i := interfaces[0];
      assert i in interfaces;
      var before := FindId(past.interfaces, i.id);
      TableHoldsLink(v, i);
      if before.Some? { VanishedIsTruthful(v, i, before.value, before.value.addresses); }
      AppearedIsTruthful(v, i, i.addresses, before);
      UpdatesAreTruthful(v, past, interfaces[1..]);
    }
  }

  lemma {:induction false} AllGoneIsTruthful(v: View, i: Interface, addresses: seq<IfAddress>)
    requires forall j :: j in v.interfaces ==> Index(i) != Index(j)
    ensures AllTruthful(AllGone(i, addresses), TableOf(v))
  {
    if addresses == [] {
      if LinkKey(Index(i)) in TableOf(v) { var j := TableKeyOrigin(v, LinkKey(Index(i))); }
    } else {
      if AddressKeyOf(i, addresses[0]) in TableOf(v) { var j := TableKeyOrigin(v, AddressKeyOf(i, addresses[0])); }
      AllGoneIsTruthful(v, i, addresses[1..]);
    }
  }

  lemma {:induction false} RemovalsAreTruthful(v: View, past: View, interfaces: seq<Interface>)
    requires !Usurped(v, past) && forall i :: i in interfaces ==> i in past.interfaces
    ensures AllTruthful(Removals(v, interfaces), TableOf(v))
  {
    if interfaces != [] {
      var i := interfaces[0];
      assert i in interfaces;
      if !HasId(v.interfaces, i.id) { AllGoneIsTruthful(v, i, i.addresses); }
      RemovalsAreTruthful(v, past, interfaces[1..]);
    }
  }

  lemma ChangesAreTruthful(v: View, past: View)
    requires Keyed(v) && !Usurped(v, past)
    ensures AllTruthful(Changes(v, past), TableOf(v))
  {
    UpdatesAreTruthful(v, past, v.interfaces);
    RemovalsAreTruthful(v, past, past.interfaces);
  }

  // ----- the events cover every difference -----

  lemma {:induction false} UpdatesHold(v: View, past: View, interfaces: seq<Interface>, i: Interface, e: Event)
    requires i in interfaces && e in InterfaceChanges(v, past, i)
    ensures e in Updates(v, past, interfaces)
  {
    if i != interfaces[0] {
      UpdatesHold(v, past, interfaces[1..], i, e);
    }
  }

  lemma {:induction false} VanishedHolds(before: Interface, addresses: seq<IfAddress>, now: seq<IfAddress>, a: IfAddress)
    requires a in addresses && !Has(now, a.ip, a.prefix)
    ensures DelAddress(before, a) in Vanished(before, addresses, now)
  {
    if a != addresses[0] {
      VanishedHolds(before, addresses[1..], now, a);
    }
  }

  lemma {:induction false} AppearedHolds(i: Interface, addresses: seq<IfAddress>, before: Option<Interface>, a: IfAddress)
    requires a in addresses && !Known(before, a)
    ensures NewAddress(i, a) in Appeared(i, addresses, before)
  {
    if a != addresses[0] {
      AppearedHolds(i, addresses[1..], before, a);
    }
  }

  lemma {:induction false} AllGoneHolds(i: Interface, addresses: seq<IfAddress>)
    ensures DelLink(i) in AllGone(i, addresses)
    ensures forall a :: a in addresses ==> DelAddress(i, a) in AllGone(i, addresses)
  {
    if addresses != [] {
      AllGoneHolds(i, addresses[1..]);
    }
  }

  lemma {:induction false} RemovalsHold(v: View, interfaces: seq<Interface>, i: Interface, e: Event)
    requires i in interfaces && !HasId(v.interfaces, i.id) && e in AllGone(i, i.addresses)
    ensures e in Removals(v, interfaces)
  {
    if i != interfaces[0] {
      RemovalsHold(v, interfaces[1..], i, e);
    }
  }

  /** Identifiers determine indices, so a well-formed view has each identifier once. */
  lemma BeforeIsUnique(past: View, i: Interface)
    requires Keyed(past) && i in past.interfaces
    ensures FindId(past.interfaces, i.id) == Some(i)
  {
    var k :| 0 <= k < |past.interfaces| && past.interfaces[k] == i;
  }

  /** A link that did not change is described alike by both views. */
  lemma UnchangedLink(v: View, past: View, i: Interface)
    requires Keyed(v) && Keyed(past) && i in v.interfaces
    requires !LinkChanged(v, past, i, FindId(past.interfaces, i.id))
    ensures SameAt(TableOf(past), TableOf(v), LinkKey(Index(i)))
  {
    TableHoldsLink(v, i);
    TableHoldsLink(past, FindId(past.interfaces, i.id).value);
  }

  lemma ChangedLink(v: View, past: View, i: Interface)
    requires i in v.interfaces && LinkChanged(v, past, i, FindId(past.interfaces, i.id))
    ensures NewLink(v, i) in Changes(v, past)
  {
    UpdatesHold(v, past, v.interfaces, i, NewLink(v, i));
  }

  lemma LinkIsCovered(v: View, past: View, i: Interface)
    requires Keyed(v) && Keyed(past) && i in v.interfaces
    ensures var k := LinkKey(Index(i)); SameAt(TableOf(past), TableOf(v), k) || Touches(Changes(v, past), k)
  {
    if LinkChanged(v, past, i, FindId(past.interfaces, i.id)) {
      ChangedLink(v, past, i);
    } else {
      UnchangedLink(v, past, i);
    }
  }

  lemma KnownAddress(v: View, past: View, i: Interface, a: IfAddress)
    requires Keyed(v) && Keyed(past) && i in v.interfaces && a in i.addresses
    requires Known(FindId(past.interfaces, i.id), a)
    ensures SameAt(TableOf(past), TableOf(v), AddressKeyOf(i, a))
  {
    TableHoldsAddress(v, i, a);
    TableHoldsAddress(past, FindId(past.interfaces, i.id).value, a);
  }

  lemma AppearedAddress(v: View, past: View, i: Interface, a: IfAddress)
    requires i in v.interfaces && a in i.addresses && !Known(FindId(past.interfaces, i.id), a)
    ensures NewAddress(i, a) in Changes(v, past)
  {
    AppearedHolds(i, i.addresses, FindId(past.interfaces, i.id), a);
    UpdatesHold(v, past, v.interfaces, i, NewAddress(i, a));
  }

  lemma AddressIsCovered(v: View, past: View, i: Interface, a: IfAddress)
    requires Keyed(v) && Keyed(past) && i in v.interfaces && a in i.addresses
    ensures var k := AddressKeyOf(i, a); SameAt(TableOf(past), TableOf(v), k) || Touches(Changes(v, past), k)
  {
    if Known(FindId(past.interfaces, i.id), a) {
      KnownAddress(v, past, i, a);
    } else {
      AppearedAddress(v, past, i, a);
    }
  }

  lemma GoneIsDeleted(v: View, past: View, i: Interface, k: Key)
    requires i in past.interfaces && !HasId(v.interfaces, i.id) && Index(i) == k.index
    requires k.AddressKey? ==> Has(i.addresses, k.ip, k.prefix)
    ensures Del(k) in Changes(v, past)
  {
    AllGoneHolds(i, i.addresses);
    if k.AddressKey? {
      var n :| 0 <= n < |i.addresses| && i.addresses[n].ip == k.ip && i.addresses[n].prefix == k.prefix;
      assert Del(k) == DelAddress(i, i.addresses[n]);
    }
    RemovalsHold(v, past.interfaces, i, Del(k));
  }

  lemma VanishedIsDeleted(v: View, past: View, i: Interface, now: Interface, a: IfAddress)
    requires Keyed(past) && i in past.interfaces && now in v.interfaces && now.id == i.id
    requires a in i.addresses && !Has(now.addresses, a.ip, a.prefix)
    ensures DelAddress(i, a) in Changes(v, past)
  {
    BeforeIsUnique(past, i);
    VanishedHolds(i, i.addresses, now.addresses, a);
    UpdatesHold(v, past, v.interfaces, now, DelAddress(i, a));
  }

  lemma TableHoldsKey(v: View, i: Interface, ip: Ip, prefix: nat)
    requires Keyed(v) && i in v.interfaces && Has(i.addresses, ip, prefix)
    ensures AddressKey(Index(i), ip, prefix) in TableOf(v)
  {
    var n :| 0 <= n < |i.addresses| && i.addresses[n].ip == ip && i.addresses[n].prefix == prefix;
    TableHoldsAddress(v, i, i.addresses[n]);
  }

  /** An entry that only the old table has is deleted. */
  lemma LossIsCovered(v: View, past: View, k: Key)
    requires Keyed(v) && Keyed(past) && k in TableOf(past) && k !in TableOf(v)
    ensures Touches(Changes(v, past), k)
  {
    var i := TableKeyOrigin(past, k);
    if !HasId(v.interfaces, i.id) {
      GoneIsDeleted(v, past, i, k);
    } else {
      var now := FindId(v.interfaces, i.id).value;
      TableHoldsLink(v, now);
      if Has(now.addresses, k.ip, k.prefix) { TableHoldsKey(v, now, k.ip, k.prefix); }
      var n :| 0 <= n < |i.addresses| && i.addresses[n].ip == k.ip && i.addresses[n].prefix == k.prefix;
      VanishedIsDeleted(v, past, i, now, i.addresses[n]);
    }
  }

  lemma ChangesCover(v: View, past: View)
    requires Keyed(v) && Keyed(past)
    ensures Covers(Changes(v, past), TableOf(past), TableOf(v))
  {
    forall k ensures SameAt(TableOf(past), TableOf(v), k) || Touches(Changes(v, past), k) {
      if k in TableOf(v) {
        var i := TableKeyOrigin(v, k);
        if k.LinkKey? {
          LinkIsCovered(v, past, i);
        } else {
          var n :| 0 <= n < |i.addresses| && i.addresses[n].ip == k.ip && i.addresses[n].prefix == k.prefix;
          AddressIsCovered(v, past, i, i.addresses[n]);
        }
      } else if k in TableOf(past) {
        LossIsCovered(v, past, k);
      }
    }
  }

  // ----- main results -----

  /** Identifiers that are not zero have indices of their own. */
  lemma NothingUsurped(v: View, past: View)
    requires WellFormed(v) && WellFormed(past)
    ensures !Usurped(v, past)
  {
    WellFormedIsKeyed(v);
    WellFormedIsKeyed(past);
    forall i, j | i in past.interfaces && j in v.interfaces && !HasId(v.interfaces, i.id)
      ensures Index(i) != Index(j)
    {
      MemberHasId(v.interfaces, j);
      SameIndexSameId(i, j);
    }
  }

  lemma EventsRebuildUnlessUsurped(v: View, past: View, groups: set<nat>)
    requires Keyed(v) && Keyed(past) && !Usurped(v, past)
    ensures Fold(Restrict(TableOf(past), groups), Heard(Changes(v, past), groups)) == Restrict(TableOf(v), groups)
  {
    ChangesAreTruthful(v, past);
    ChangesCover(v, past);
    SettlesHeard(TableOf(past), Changes(v, past), TableOf(v), groups);
  }

  /** Applying the events to a dump of the old view gives a dump of the new one, for a
      subscriber of any groups. */
  lemma EventsRebuildTheView(v: View, past: View, groups: set<nat>)
    requires WellFormed(v) && WellFormed(past)
    ensures Fold(Restrict(TableOf(past), groups), Heard(Changes(v, past), groups)) == Restrict(TableOf(v), groups)
  {
    WellFormedIsKeyed(v);
    WellFormedIsKeyed(past);
    NothingUsurped(v, past);
    EventsRebuildUnlessUsurped(v, past, groups);
  }

  /** A dump that already shows the new view is not disturbed by the events. */
  lemma EventsKeepTheNewView(v: View, past: View, groups: set<nat>)
    requires WellFormed(v) && WellFormed(past)
    ensures Fold(Restrict(TableOf(v), groups), Heard(Changes(v, past), groups)) == Restrict(TableOf(v), groups)
  {
    WellFormedIsKeyed(v);
    NothingUsurped(v, past);
    ChangesAreTruthful(v, past);
    SettlesHeard(TableOf(v), Changes(v, past), TableOf(v), groups);
  }

  lemma {:induction false} RemovalsOnlyDelete(v: View, interfaces: seq<Interface>)
    ensures forall e :: e in Removals(v, interfaces) ==> e.Del?
  {
    if interfaces != [] {
      AllGoneOnlyDeletes(interfaces[0], interfaces[0].addresses);
      RemovalsOnlyDelete(v, interfaces[1..]);
    }
  }

  lemma {:induction false} AllGoneOnlyDeletes(i: Interface, addresses: seq<IfAddress>)
    ensures forall e :: e in AllGone(i, addresses) ==> e.Del?
  {
    if addresses != [] { AllGoneOnlyDeletes(i, addresses[1..]); }
  }

  lemma {:induction false} DeletionsDelete(t: Table, events: seq<Event>, k: Key)
    requires (forall e :: e in events ==> e.Del?) && (k in t ==> Del(k) in events)
    ensures k !in Fold(t, events)
    decreases |events|
  {
    if events != [] {
      assert events == [events[0]] + events[1..] && events[0].Del?;
      DeletionsDelete(Apply(t, events[0]), events[1..], k);
    }
  }

  lemma {:induction false} HeardAppend(first: seq<Event>, second: seq<Event>, groups: set<nat>)
    ensures Heard(first + second, groups) == Heard(first, groups) + Heard(second, groups)
  {
    if first == [] {
      assert first + second == second;
    } else {
      assert (first + second)[1..] == first[1..] + second;
      HeardAppend(first[1..], second, groups);
    }
  }

  /** The late deletion of the vanished interface takes its successor's link away. */
  lemma UsurpedIndexIsLost(v: View, past: View, groups: set<nat>, i: Interface, j: Interface)
    requires Keyed(v) && GROUP_LINK in groups
    requires i in past.interfaces && j in v.interfaces && !HasId(v.interfaces, i.id) && Index(i) == Index(j)
    ensures LinkKey(Index(j)) !in Fold(Restrict(TableOf(past), groups), Heard(Changes(v, past), groups))
    ensures LinkKey(Index(j)) in Restrict(TableOf(v), groups)
  {
    var updates, removals := Updates(v, past, v.interfaces), Removals(v, past.interfaces);
    HeardAppend(updates, removals, groups);
    var t := Restrict(TableOf(past), groups);
    FoldAppend(t, Heard(updates, groups), Heard(removals, groups));
    AllGoneHolds(i, i.addresses);
    RemovalsHold(v, past.interfaces, i, DelLink(i));
    HeardExactly(removals, groups, DelLink(i));
    RemovalsOnlyDelete(v, past.interfaces);
    forall e | e in Heard(removals, groups) ensures e.Del? { HeardExactly(removals, groups, e); }
    DeletionsDelete(Fold(t, Heard(updates, groups)), Heard(removals, groups), LinkKey(Index(j)));
    TableHoldsLink(v, j);
  }

  /** For identifiers of the type alone, zero included, the exact condition for anyone who
      listens to links. */
  lemma RebuildsExactlyUnlessUsurped(v: View, past: View, groups: set<nat>)
    requires Keyed(v) && Keyed(past) && GROUP_LINK in groups
    ensures Fold(Restrict(TableOf(past), groups), Heard(Changes(v, past), groups)) == Restrict(TableOf(v), groups)
       <==> !Usurped(v, past)
  {
    if Usurped(v, past) {
      var i, j :| i in past.interfaces && j in v.interfaces && !HasId(v.interfaces, i.id) && Index(i) == Index(j);
      UsurpedIndexIsLost(v, past, groups, i, j);
    } else {
      EventsRebuildUnlessUsurped(v, past, groups);
    }
  }

  lemma FoldOne(t: Table, e: Event)
    ensures Fold(t, [e]) == Apply(t, e)
  {
    assert [e][1..] == [];
  }

  lemma TableOfOne(v: View, i: Interface)
    requires v.interfaces == [i] && i.addresses == []
    ensures TableOf(v) == map[LinkKey(Index(i)) := LinkValue(LinkInfoOf(v, i))]
  {
    assert LinkDump(v, [i]) == [NewLink(v, i)] + LinkDump(v, []);
    assert AddressDump([i]) == AddressesOf(i, []) + AddressDump([]);
    assert Dump(v) == [NewLink(v, i)];
    FoldOne(map[], NewLink(v, i));
  }

  /** The identifier that the type allows and the core never hands out: 0 gives way to the
      loopback. */
  lemma LoopbackLosesItsLink() returns (v: View, past: View)
    ensures Keyed(v) && Keyed(past) && Usurped(v, past)
    ensures LinkKey(1) in TableOf(v) && Fold(TableOf(past), Changes(v, past)) == map[]
  {
    var zero := Interface(0, true, true, [], false, 0);
    var loopback := Interface(LOOPBACK_ID, true, true, [], false, 0);
    v, past := View([loopback], true, Zeros(6)), View([zero], true, Zeros(6));
    assert zero in past.interfaces && loopback in v.interfaces;
    assert !HasId(v.interfaces, 0) && !HasId(past.interfaces, LOOPBACK_ID);
    TableOfOne(v, loopback);
    TableOfOne(past, zero);
    assert Updates(v, past, v.interfaces) == [NewLink(v, loopback)];
    assert Removals(v, past.interfaces) == [DelLink(zero)];
    FoldAppend(TableOf(past), [NewLink(v, loopback)], [DelLink(zero)]);
    FoldOne(TableOf(past), NewLink(v, loopback));
    FoldOne(TableOf(v), DelLink(zero));
  }

  /** A view that did not change says nothing. */
  lemma NoChangeNoEvents(v: View)
    requires Keyed(v)
    ensures Changes(v, v) == []
  {
    NoUpdates(v, v.interfaces);
    NoRemovals(v, v.interfaces);
  }

  lemma {:induction false} NoUpdates(v: View, interfaces: seq<Interface>)
    requires Keyed(v) && forall i :: i in interfaces ==> i in v.interfaces
    ensures Updates(v, v, interfaces) == []
  {
    if interfaces != [] {
      var i := interfaces[0];
      assert i in interfaces;
      BeforeIsUnique(v, i);
      NothingVanished(i, i.addresses);
      NothingAppeared(i, i.addresses);
      NoUpdates(v, interfaces[1..]);
    }
  }

  lemma {:induction false} NothingVanished(i: Interface, addresses: seq<IfAddress>)
    requires forall a :: a in addresses ==> a in i.addresses
    ensures Vanished(i, addresses, i.addresses) == []
  {
    if addresses != [] {
      assert addresses[0] in addresses;
      NothingVanished(i, addresses[1..]);
    }
  }

  lemma {:induction false} NothingAppeared(i: Interface, addresses: seq<IfAddress>)
    requires forall a :: a in addresses ==> a in i.addresses
    ensures Appeared(i, addresses, Some(i)) == []
  {
    if addresses != [] {
      assert addresses[0] in addresses;
      NothingAppeared(i, addresses[1..]);
    }
  }

  lemma {:induction false} NoRemovals(v: View, interfaces: seq<Interface>)
    requires forall i :: i in interfaces ==> i in v.interfaces
    ensures Removals(v, interfaces) == []
  {
    if interfaces != [] {
      var i := interfaces[0];
      assert i in interfaces;
      var k :| 0 <= k < |v.interfaces| && v.interfaces[k] == i;
      NoRemovals(v, interfaces[1..]);
    }
  }
}
