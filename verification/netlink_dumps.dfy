/** What becomes of a dump when the view changes: taken in the middle of a turn, or delivered
    after the events of a later change. The exact conditions in terms of the views, and an
    input on which each of the two goes wrong. */
module NetlinkDumps {
  import opened Common
  import opened SocketAddresses
  import opened NetlinkView
  import opened NetlinkEvents
  import opened NetlinkReports
  import opened NetlinkEncoding
  import opened NetlinkAdapter

  lemma DumpTruthful(v: View, groups: set<nat>)
    requires Keyed(v)
    ensures AllTruthful(DumpOf(v, groups), TableOf(v))
  {
    forall e | e in DumpOf(v, groups) ensures Truthful(e, TableOf(v)) {
      HeardExactly(Dump(v), groups, e);
      TableHoldsDump(v, e);
    }
  }

  lemma DumpTouchesExactly(v: View, groups: set<nat>, k: Key)
    requires Keyed(v)
    ensures Touches(DumpOf(v, groups), k) <==> k in TableOf(v) && GroupOf(k) in groups
  {
    if Touches(DumpOf(v, groups), k) {
      var e :| e in DumpOf(v, groups) && e.key == k;
      HeardExactly(Dump(v), groups, e);
      TableHoldsDump(v, e);
    }
    if k in TableOf(v) && GroupOf(k) in groups { DumpTouches(v, groups, k); }
  }

  /** One entry after a dump is delivered to a table. */
  lemma DumpedEntry(t: Table, v: View, groups: set<nat>, k: Key)
    requires Keyed(v) && GroupOf(k) in groups
    ensures SameAt(Fold(t, DumpOf(v, groups)), if k in TableOf(v) then TableOf(v) else t, k)
  {
    DumpTouchesExactly(v, groups, k);
    if k in TableOf(v) {
      DumpTruthful(v, groups);
      FoldTouched(t, DumpOf(v, groups), TableOf(v), k);
    } else {
      FoldUntouched(t, DumpOf(v, groups), k);
    }
  }

  /** A client that has heard nothing, and one that was sent a dump of a view at once. */
  function Fresh(groups: set<nat>): Client {
    Client(groups, {}, map[], [])
  }

  function Dumped(v: View, groups: set<nat>): Client {
    Client(groups, groups, Fold(map[], DumpOf(v, groups)), [])
  }

  lemma DumpedIsDelivered(v: View, groups: set<nat>)
    ensures Delivered(Asked(Fresh(groups), v, groups), |DumpOf(v, groups)|) == Dumped(v, groups)
  {
    assert [] + DumpOf(v, groups) == DumpOf(v, groups);
    assert {} + groups * groups == groups;
    DeliverAll(Asked(Fresh(groups), v, groups), |DumpOf(v, groups)|);
  }

  // ----- a dump in the middle of a turn -----

  /** A table of the view in the middle, an entry of which the turn reports or has right. */
  ghost predicate MiddleCaught(past: View, middle: View, v: View, groups: set<nat>) {
    forall k :: GroupOf(k) in groups ==> Observed(v, k) != Observed(past, k) || SameAt(TableOf(middle), TableOf(v), k)
  }

  /** Three views: the turn starts at one, the dump shows another, the turn ends at a third.
      The client ends with the current table if and only if every entry either was observed
      to change from the first to the last or is alike in the middle and the last. */
  lemma MiddleDumpExactly(past: View, middle: View, v: View, groups: set<nat>)
    requires WellFormed(past) && WellFormed(middle) && WellFormed(v)
    ensures Restrict(Told(Dumped(middle, groups), Changes(v, past)).table, groups) == Restrict(TableOf(v), groups)
       <==> MiddleCaught(past, middle, v, groups)
  {
    WellFormedIsKeyed(middle);
    var c := Dumped(middle, groups);
    var told := Told(c, Changes(v, past)).table;
    forall k | GroupOf(k) in groups
      ensures SameAt(told, TableOf(v), k)
         <==> Observed(v, k) != Observed(past, k) || SameAt(TableOf(middle), TableOf(v), k)
    {
      ToldEntry(c, past, v, k);
      DumpedEntry(map[], middle, groups, k);
    }
    SameRestricted(told, TableOf(v), groups);
  }

  lemma SameRestricted(t: Table, u: Table, groups: set<nat>)
    ensures Restrict(t, groups) == Restrict(u, groups) <==> forall k :: GroupOf(k) in groups ==> SameAt(t, u, k)
  {
    if forall k :: GroupOf(k) in groups ==> SameAt(t, u, k) {
      forall k ensures SameAt(Restrict(t, groups), Restrict(u, groups), k) {
        if GroupOf(k) in groups { assert SameAt(t, u, k); }
      }
      SameEverywhere(Restrict(t, groups), Restrict(u, groups));
    }
    if Restrict(t, groups) == Restrict(u, groups) {
      forall k | GroupOf(k) in groups ensures SameAt(t, u, k) {
        assert k in t <==> k in Restrict(t, groups);
        assert k in u <==> k in Restrict(u, groups);
      }
    }
  }

  /** The first and the last view of a turn are always caught. */
  lemma EndsAreCaught(past: View, v: View, groups: set<nat>)
    requires WellFormed(past) && WellFormed(v)
    ensures MiddleCaught(past, past, v, groups) && MiddleCaught(past, v, v, groups)
  {
    forall k | Observed(v, k) == Observed(past, k) ensures SameAt(TableOf(past), TableOf(v), k) {
      UnchangedEntry(past, v, k);
    }
  }

  // ----- the loopback set up and down -----

  function Loopback(ipv4: bool, ipv6: bool): Interface {
    Interface(LOOPBACK_ID, ipv4, ipv6, [], false, 0)
  }

  function WithLoopback(rest: seq<Interface>, online: bool, mac: seq<byte>, ipv4: bool, ipv6: bool): View {
    View([Loopback(ipv4, ipv6)] + rest, online, mac)
  }

  lemma ObservedBesideLoopback(v: View, w: View, rest: seq<Interface>, k: Key)
    requires exists a, b, c, d, online, mac :: v == WithLoopback(rest, online, mac, a, b) && w == WithLoopback(rest, online, mac, c, d)
    requires k != LinkKey(1)
    ensures Observed(v, k) == Observed(w, k)
  {
    assert v.interfaces[1..] == rest && w.interfaces[1..] == rest;
  }

  /** A turn that moves nothing but the loopback's two flags, from `p` over `q`, where the
      client looks, to `r`: it ends with the current table if and only if the flags changed
      from first to last, or the loopback is up in the middle exactly if it is in the end. */
  lemma LoopbackMiddleExactly(rest: seq<Interface>, online: bool, mac: seq<byte>,
                              p4: bool, p6: bool, q4: bool, q6: bool, r4: bool, r6: bool)
    requires WellFormed(WithLoopback(rest, online, mac, p4, p6))
    requires WellFormed(WithLoopback(rest, online, mac, q4, q6))
    requires WellFormed(WithLoopback(rest, online, mac, r4, r6))
    ensures MiddleCaught(WithLoopback(rest, online, mac, p4, p6), WithLoopback(rest, online, mac, q4, q6),
                         WithLoopback(rest, online, mac, r4, r6), {GROUP_LINK})
       <==> (p4, p6) != (r4, r6) || (q4 || q6) == (r4 || r6)
  {
    var past, middle := WithLoopback(rest, online, mac, p4, p6), WithLoopback(rest, online, mac, q4, q6);
    var v := WithLoopback(rest, online, mac, r4, r6);
    forall k | k != LinkKey(1) ensures SameAt(TableOf(middle), TableOf(v), k) {
      ObservedBesideLoopback(middle, v, rest, k);
      UnchangedEntry(middle, v, k);
    }
    LoopbackEntry(rest, online, mac, p4, p6);
    LoopbackEntry(rest, online, mac, q4, q6);
    LoopbackEntry(rest, online, mac, r4, r6);
    assert GroupOf(LinkKey(1)) in {GROUP_LINK};
  }

  lemma LoopbackEntry(rest: seq<Interface>, online: bool, mac: seq<byte>, ipv4: bool, ipv6: bool)
    requires WellFormed(WithLoopback(rest, online, mac, ipv4, ipv6))
    ensures var v := WithLoopback(rest, online, mac, ipv4, ipv6);
      && Observed(v, LinkKey(1)) == Some(LinkSeen(ipv4, ipv6, online, mac))
      && LinkKey(1) in TableOf(v)
      && TableOf(v)[LinkKey(1)]
         == LinkValue(LinkInfo(None, 772, 0x8 + (if ipv4 || ipv6 then 0x10041 else 0), LOOPBACK_MTU, Zeros(6), 0))
  {
    var v := WithLoopback(rest, online, mac, ipv4, ipv6);
    WellFormedIsKeyed(v);
    assert v.interfaces[0] == Loopback(ipv4, ipv6) && Loopback(ipv4, ipv6) in v.interfaces;
    TableHoldsLink(v, Loopback(ipv4, ipv6));
    ObservedLink(v, Loopback(ipv4, ipv6));
  }

  // ----- a dump delivered late -----

  /** The dump of the old view waits in the queue while the change to the new one is
      published. */
  function Late(middle: View, v: View, groups: set<nat>): Client {
    Told(Asked(Fresh(groups), middle, groups), Changes(v, middle))
  }

  /** Once it is delivered, the client has the current table if and only if every entry of
      the old view is still the same: the change added entries and nothing else. */
  lemma LateDumpExactly(middle: View, v: View, groups: set<nat>)
    requires WellFormed(middle) && WellFormed(v)
    ensures var c := Late(middle, v, groups);
      Restrict(Fold(c.table, c.pending), groups) == Restrict(TableOf(v), groups)
      <==> forall k :: k in TableOf(middle) && GroupOf(k) in groups ==> SameAt(TableOf(middle), TableOf(v), k)
  {
    WellFormedIsKeyed(middle);
    var asked, c := Asked(Fresh(groups), middle, groups), Late(middle, v, groups);
    assert [] + DumpOf(middle, groups) == DumpOf(middle, groups);
    forall k | GroupOf(k) in groups
      ensures SameAt(Fold(c.table, c.pending), TableOf(v), k)
         <==> (k in TableOf(middle) ==> SameAt(TableOf(middle), TableOf(v), k))
    {
      DumpedEntry(c.table, middle, groups, k);
      ToldEntry(asked, middle, v, k);
      if Observed(v, k) == Observed(middle, k) { UnchangedEntry(middle, v, k); }
    }
    SameRestricted(Fold(c.table, c.pending), TableOf(v), groups);
  }

  // ----- inputs that go wrong -----

  /** A view of nothing but the loopback. */
  function Alone(up: bool): View {
    View([Loopback(up, up)], true, Zeros(6))
  }

  lemma AloneIsWellFormed(up: bool)
    ensures WellFormed(Alone(up)) && !Incomplete(Alone(up)) && CanDump(Alone(up), {GROUP_LINK})
    ensures DumpOf(Alone(up), {GROUP_LINK}) == [NewLink(Alone(up), Loopback(up, up))]
    ensures TableOf(Alone(up)) == map[LinkKey(1) := LinkValue(LinkInfoOf(Alone(up), Loopback(up, up)))]
  {
    var v, i := Alone(up), Loopback(up, up);
    assert LinkDump(v, [i]) == [NewLink(v, i)] + LinkDump(v, []);
    assert AddressDump([i]) == AddressesOf(i, []) + AddressDump([]);
    assert Dump(v) == [NewLink(v, i)];
    assert Dump(v)[1..] == [];
    assert DumpOf(v, {GROUP_LINK}) == [NewLink(v, i)] + Heard([], {GROUP_LINK});
    TableOfOne(v, i);
  }

  /** What a client that was sent one link record holds. */
  function ToldOne(up: bool): Client {
    Client({GROUP_LINK}, {GROUP_LINK}, map[LinkKey(1) := LinkValue(LinkInfoOf(Alone(up), Loopback(up, up)))], [])
  }

  predicate Outdated(a: Adapter, c: int) {
    && c in a.clients && a.clients[c].pending == []
    && Restrict(a.clients[c].table, a.clients[c].informed) != Restrict(TableOf(a.view), a.clients[c].informed)
  }

  lemma UpIsNotDown(a: Adapter, c: int)
    requires c in a.clients && a.clients[c] == ToldOne(true) && a.view == Alone(false)
    ensures Outdated(a, c)
  {
    AloneIsWellFormed(false);
    var t, u := Restrict(a.clients[c].table, {GROUP_LINK}), Restrict(TableOf(a.view), {GROUP_LINK});
    assert LinkKey(1) in t && LinkKey(1) in u;
    assert t[LinkKey(1)] != u[LinkKey(1)];
  }

  lemma ActCons(a: Adapter, action: Action, rest: seq<Action>)
    ensures ActAll(a, [action] + rest) == ActAll(Act(a, action), rest)
  {
    assert ([action] + rest)[1..] == rest;
  }

  /** A client that has joined and asked, with the answer still queued. */
  function Waiting(up: bool): Client {
    Client({GROUP_LINK}, {GROUP_LINK}, map[], [NewLink(Alone(up), Loopback(up, up))])
  }

  lemma AskedWhileUp()
    ensures Act(Act(Start(Alone(true)), JOIN), ASK) == Adapter(Alone(true), map[7 := Waiting(true)], [])
  {
    AloneIsWellFormed(true);
    assert Asked(Fresh({GROUP_LINK}), Alone(true), {GROUP_LINK}) == Waiting(true);
  }

  lemma DeliveredOne(c: Client, t: Table)
    requires c == Waiting(true).(table := t) && t.Keys <= {LinkKey(1)}
    ensures Delivered(c, 1) == ToldOne(true)
  {
    assert c.pending[1..] == [];
    var next := c.(table := Apply(c.table, c.pending[0]), pending := c.pending[1..]);
    assert next.table == ToldOne(true).table;
    assert Delivered(c, 1) == Delivered(next, 0);
  }

  const JOIN := Join(7, {GROUP_LINK})
  const ASK := Ask(7, {GROUP_LINK})
  const SEND := Deliver(7, 1)

  lemma JoinAndAsk(rest: seq<Action>)
    ensures ActAll(Adapter(Alone(true), map[], []), [JOIN] + ([ASK] + rest))
         == ActAll(Adapter(Alone(true), map[7 := Waiting(true)], []), rest)
  {
    var a := Adapter(Alone(true), map[], []);
    ActCons(a, JOIN, [ASK] + rest);
    ActCons(Act(a, JOIN), ASK, rest);
    AskedWhileUp();
  }

  lemma SendAll(a: Adapter, c: Client, rest: seq<Action>)
    requires a.clients == map[7 := c] && c == Waiting(true).(table := c.table) && c.table.Keys <= {LinkKey(1)}
    ensures ActAll(a, [SEND] + rest) == ActAll(a.(clients := map[7 := ToldOne(true)]), rest)
  {
    ActCons(a, SEND, rest);
    DeliveredOne(c, c.table);
    assert a.clients[7 := ToldOne(true)] == map[7 := ToldOne(true)];
  }

  /** In one turn the loopback is set up, a client joins, asks and is answered, and the
      loopback is set down again: nothing is published, and the client goes on believing
      that it is up. */
  lemma ToggleLeavesBehind() returns (turn: Turn)
    ensures WellFormed(Alone(false))
    ensures Advanced(Start(Alone(false)), turn).Ok? && Outdated(Advanced(Start(Alone(false)), turn).value, 7)
  {
    AloneIsWellFormed(false);
    var up, down := Reconfigure(Alone(true)), Reconfigure(Alone(false));
    var later := [SEND] + ([down] + []);
    turn := Turn(None, [up] + ([JOIN] + ([ASK] + later)));
    ActCons(Start(Alone(false)), up, [JOIN] + ([ASK] + later));
    JoinAndAsk(later);
    SendAll(Adapter(Alone(true), map[7 := Waiting(true)], []), Waiting(true), [down] + []);
    var end := Adapter(Alone(true), map[7 := ToldOne(true)], []);
    ActCons(end, down, []);
    UpIsNotDown(end.(view := Alone(false)), 7);
  }

  lemma DownIsPublished()
    ensures Changes(Alone(false), Alone(true)) == [NewLink(Alone(false), Loopback(false, false))]
  {
    var v, past, i := Alone(false), Alone(true), Loopback(false, false);
    assert past.interfaces[0].id == i.id && v.interfaces[0].id == i.id;
    assert FindId(past.interfaces, i.id) == Some(Loopback(true, true));
    assert Updates(v, past, v.interfaces) == InterfaceChanges(v, past, i) + Updates(v, past, []);
    assert Removals(v, past.interfaces) == Removal(v, Loopback(true, true)) + Removals(v, []);
  }

  lemma PublishToOne(a: Adapter, past: View, c: Client, events: seq<Event>)
    requires past != a.view && !Incomplete(past) && !Incomplete(a.view) && a.clients == map[7 := c] && a.log == []
    requires Changes(a.view, past) == events && AllFit(events)
    ensures Publish(a, past) == Ok(Adapter(a.view, map[7 := Told(c, events)], events))
  {
    assert TellAll(a.clients, events) == map[7 := Told(c, events)];
    assert [] + events == events;
  }

  lemma DownTurn()
    ensures Advanced(Adapter(Alone(true), map[7 := Waiting(true)], []), Turn(Some(Alone(false)), []))
         == Ok(Adapter(Alone(false), map[7 := Waiting(true).(table := ToldOne(false).table)],
                       [NewLink(Alone(false), Loopback(false, false))]))
  {
    assert !Incomplete(Alone(true)) && !Incomplete(Alone(false));
    assert Alone(false).interfaces[0] != Alone(true).interfaces[0];
    DownIsPublished();
    TellDown();
    PublishToOne(Adapter(Alone(false), map[7 := Waiting(true)], []), Alone(true), Waiting(true),
                 [NewLink(Alone(false), Loopback(false, false))]);
  }

  /** A client asks while the loopback is up and its answer waits; the loopback goes down
      and that is published; then the answer arrives. */
  lemma LateDumpIsStale() returns (turns: seq<Turn>)
    ensures WellFormed(Alone(true)) && Run(Start(Alone(true)), turns).Ok?
    ensures Outdated(Run(Start(Alone(true)), turns).value, 7)
  {
    AloneIsWellFormed(true);
    var first, second, third := Turn(None, [JOIN] + ([ASK] + [])), Turn(Some(Alone(false)), []), Turn(None, [SEND] + []);
    turns := [first] + ([second] + ([third] + []));
    JoinAndAsk([]);
    DownTurn();
    var b := Adapter(Alone(true), map[7 := Waiting(true)], []);
    var c := Advanced(b, second).value;
    SendAll(c, c.clients[7], []);
    var d := c.(clients := map[7 := ToldOne(true)]);
    RunThree(Start(Alone(true)), first, second, third, b, c, d);
    UpIsNotDown(d, 7);
  }

  lemma TellDown()
    ensures Told(Waiting(true), Changes(Alone(false), Alone(true))) == Waiting(true).(table := ToldOne(false).table)
  {
    var c := Waiting(true);
    DownIsPublished();
    var e := NewLink(Alone(false), Loopback(false, false));
    assert [e][1..] == [];
    assert Heard([e], c.groups) == [e] + Heard([], c.groups);
    FoldOne(c.table, e);
  }

  lemma RunThree(a: Adapter, first: Turn, second: Turn, third: Turn, b: Adapter, c: Adapter, d: Adapter)
    requires Advanced(a, first) == Ok(b) && Advanced(b, second) == Ok(c) && Advanced(c, third) == Ok(d)
    ensures Run(a, [first] + ([second] + ([third] + []))) == Ok(d)
  {
    assert ([first] + ([second] + ([third] + [])))[1..] == [second] + ([third] + []);
    assert ([second] + ([third] + []))[1..] == [third] + [];
    assert ([third] + [])[1..] == [];
    assert Run(d, []) == Ok(d);
    assert Run(c, [third] + []) == Ok(d);
    assert Run(b, [second] + ([third] + [])) == Ok(d);
  }
}
