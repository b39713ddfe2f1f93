/** The rtnetlink adapter: turns in which clients join, ask for dumps, are sent what is
    queued for them and set the loopback up or down, and which then publish how the view
    changed. Proved over runs: what a client has been told, once its queue is delivered, is
    the current table, if every dump saw the view at the start or at the end of its turn and
    no record still queued at the end of a turn describes an entry that has changed. For a
    single turn the exact condition is given. */
module NetlinkAdapter {
  import opened Common
  import opened SocketAddresses
  import opened NetlinkView
  import opened NetlinkEvents
  import opened NetlinkReports
  import opened NetlinkEncoding

  /** A client listens to some groups. `pending` are the records queued for it; `informed`
      and `table` are history: the groups it has asked dumps of, and what all that was
      delivered to it so far says. */
  datatype Client = Client(groups: set<nat>, informed: set<nat>, table: Table, pending: seq<Event>)

  datatype Adapter = Adapter(view: View, clients: map<int, Client>, log: seq<Event>)

  datatype Action =
    | Join(client: nat, groups: set<nat>)
    | Ask(client: nat, asked: set<nat>)
    | Deliver(client: nat, count: nat)
    | Reconfigure(view: View)
    | Leave(client: nat)

  datatype Turn = Turn(update: Option<View>, actions: seq<Action>)

  // ----- one client -----

  /** The records of a dump of these groups. */
  function DumpOf(v: View, asked: set<nat>): seq<Event> {
    Heard(Dump(v), asked)
  }

  predicate CanDump(v: View, asked: set<nat>) {
    !Incomplete(v) && AllFit(DumpOf(v, asked))
  }

  function Asked(c: Client, v: View, asked: set<nat>): Client {
    c.(pending := c.pending + DumpOf(v, asked), informed := c.informed + asked * c.groups)
  }

  /** The first so many queued records reach the client. */
  function Delivered(c: Client, count: nat): Client
    decreases count
  {
    if count == 0 || c.pending == [] then c
    else Delivered(c.(table := Apply(c.table, c.pending[0]), pending := c.pending[1..]), count - 1)
  }

  /** Published events reach the client at once, past its queue. */
  function Told(c: Client, events: seq<Event>): Client {
    c.(table := Fold(c.table, Heard(events, c.groups)))
  }

  // ----- turns -----

  function Act(a: Adapter, action: Action): Adapter {
    match action
    case Join(c, groups) => a.(clients := a.clients[c := Client(groups, {}, map[], [])])
    case Ask(c, asked) =>
      if c !in a.clients || !CanDump(a.view, asked) then a
      else a.(clients := a.clients[c := Asked(a.clients[c], a.view, asked)])
    case Deliver(c, count) =>
      if c !in a.clients then a else a.(clients := a.clients[c := Delivered(a.clients[c], count)])
    case Reconfigure(w) => a.(view := w)
    case Leave(c) => a.(clients := a.clients - {c})
  }

  function ActAll(a: Adapter, actions: seq<Action>): Adapter
    decreases |actions|
  {
    if actions == [] then a else ActAll(Act(a, actions[0]), actions[1..])
  }

  function Updated(a: Adapter, update: Option<View>): Adapter {
    if update.Some? then a.(view := update.value) else a
  }

  function Served(a: Adapter, turn: Turn): Adapter {
    ActAll(Updated(a, turn.update), turn.actions)
  }

  function TellAll(clients: map<int, Client>, events: seq<Event>): map<int, Client> {
    map c | c in clients :: Told(clients[c], events)
  }

  /** A lost observation is not a complete event stream: the clients start over. */
  function Publish(a: Adapter, past: View): Result<Adapter, Errno> {
    if past == a.view then Ok(a)
    else if Incomplete(past) || Incomplete(a.view) then Ok(a.(clients := map[]))
    else match Encoded(Changes(a.view, past))
      case Ok(events) => Ok(a.(clients := TellAll(a.clients, events), log := a.log + events))
      case Err(e) => Err(e)
  }

  function Advanced(a: Adapter, turn: Turn): Result<Adapter, Errno> {
    Publish(Served(a, turn), a.view)
  }

  // ----- what a client may rely on -----

  /** No record queued about this entry is wrong. */
  ghost predicate QueueTrue(c: Client, t: Table, k: Key) {
    forall e :: e in c.pending && e.key == k ==> Truthful(e, t)
  }

  /** The client has this entry right, or will be told, or knows nothing of it. */
  ghost predicate EntryRight(c: Client, t: Table, k: Key) {
    SameAt(c.table, t, k) || Touches(c.pending, k) || (k !in c.table && GroupOf(k) !in c.informed)
  }

  ghost predicate EntrySound(c: Client, t: Table, k: Key) {
    QueueTrue(c, t, k) && EntryRight(c, t, k)
  }

  ghost predicate Sound(c: Client, v: View) {
    && c.informed <= c.groups
    && forall k :: GroupOf(k) in c.groups ==> EntrySound(c, TableOf(v), k)
  }

  ghost predicate AllSound(a: Adapter) {
    WellFormed(a.view) && forall c :: c in a.clients ==> Sound(a.clients[c], a.view)
  }

  lemma DeliverOneKeeps(c: Client, t: Table, k: Key)
    requires EntrySound(c, t, k) && c.pending != []
    ensures EntrySound(c.(table := Apply(c.table, c.pending[0]), pending := c.pending[1..]), t, k)
  {
    var e := c.pending[0];
    assert c.pending == [e] + c.pending[1..];
    assert e in c.pending;
    if e.key == k { assert Truthful(e, t); }
    if Touches(c.pending, k) && e.key != k {
      var f :| f in c.pending && f.key == k;
      assert f in c.pending[1..];
    }
  }

  lemma {:induction false} DeliverKeeps(c: Client, count: nat, t: Table, k: Key)
    requires EntrySound(c, t, k)
    ensures EntrySound(Delivered(c, count), t, k)
    ensures Delivered(c, count).groups == c.groups && Delivered(c, count).informed == c.informed
    decreases count
  {
    if count > 0 && c.pending != [] {
      DeliverOneKeeps(c, t, k);
      DeliverKeeps(c.(table := Apply(c.table, c.pending[0]), pending := c.pending[1..]), count - 1, t, k);
    }
  }

  /** Exactly the first so many records, in order, or all there are. */
  lemma {:induction false} DeliverExactly(c: Client, count: nat)
    ensures var n := Min(count, |c.pending|);
      Delivered(c, count) == c.(table := Fold(c.table, c.pending[..n]), pending := c.pending[n..])
    decreases count
  {
    var n := Min(count, |c.pending|);
    if n == 0 {
      assert c.pending[..n] == [] && c.pending[n..] == c.pending;
    } else {
      DeliverExactly(c.(table := Apply(c.table, c.pending[0]), pending := c.pending[1..]), count - 1);
      assert c.pending[..n][1..] == c.pending[1..][..n - 1];
      assert c.pending[n..] == c.pending[1..][n - 1..];
    }
  }

  lemma DeliverAll(c: Client, count: nat)
    requires count >= |c.pending|
    ensures Delivered(c, count) == c.(table := Fold(c.table, c.pending), pending := [])
  {
    DeliverExactly(c, count);
    assert c.pending[..|c.pending|] == c.pending;
  }

  /** What a client does concerns that client alone, and nobody's doing concerns the log; a
      client that has left is gone. */
  lemma ActsConcernOneClient(a: Adapter, action: Action, c: int)
    requires action.Reconfigure? || c != action.client
    ensures var next := Act(a, action);
      && (c in next.clients <==> c in a.clients) && (c in a.clients ==> next.clients[c] == a.clients[c])
      && next.log == a.log && (!action.Reconfigure? ==> next.view == a.view)
      && (action.Leave? ==> action.client !in next.clients)
      && (action.Join? ==> action.client in next.clients && next.clients[action.client].groups == action.groups)
      && (action.Reconfigure? ==> next.view == action.view)
  {
  }

  /** A sound client whose queue is delivered has the current table of the groups it has
      asked about. */
  lemma SoundMeansCurrent(c: Client, v: View)
    requires Sound(c, v)
    ensures Restrict(Fold(c.table, c.pending), c.informed) == Restrict(TableOf(v), c.informed)
  {
    var t, goal := Restrict(Fold(c.table, c.pending), c.informed), Restrict(TableOf(v), c.informed);
    DeliverAll(c, |c.pending|);
    forall k ensures SameAt(t, goal, k) {
      if GroupOf(k) in c.informed {
        DeliverKeeps(c, |c.pending|, TableOf(v), k);
      }
    }
    SameEverywhere(t, goal);
  }

  lemma DumpTouches(v: View, asked: set<nat>, k: Key)
    requires Keyed(v) && k in TableOf(v) && GroupOf(k) in asked
    ensures Touches(DumpOf(v, asked), k)
  {
    if forall e :: e in Dump(v) ==> e.key != k { FoldUntouched(map[], Dump(v), k); }
    var e :| e in Dump(v) && e.key == k;
    HeardExactly(Dump(v), asked, e);
  }

  /** A dump of a view that has this entry as it should be. */
  lemma AskKeeps(c: Client, v: View, asked: set<nat>, t: Table, k: Key)
    requires EntrySound(c, t, k) && Keyed(v) && SameAt(TableOf(v), t, k) && GroupOf(k) in c.groups
    ensures EntrySound(Asked(c, v, asked), t, k)
  {
    var more := DumpOf(v, asked);
    forall e | e in more && e.key == k ensures Truthful(e, t) {
      HeardExactly(Dump(v), asked, e);
      TableHoldsDump(v, e);
    }
    if Touches(c.pending, k) {
      var e :| e in c.pending && e.key == k;
      assert e in c.pending + more;
    } else if GroupOf(k) in asked && k in TableOf(v) {
      DumpTouches(v, asked, k);
      var e :| e in more && e.key == k;
      assert e in c.pending + more;
    }
  }

  // ----- during a turn: entries that do not change -----

  /** The client is sound about every entry that the turn leaves as it was. */
  ghost predicate SoundMeanwhile(c: Client, past: View, v: View) {
    && c.informed <= c.groups
    && forall k :: GroupOf(k) in c.groups && SameAt(TableOf(past), TableOf(v), k) ==> EntrySound(c, TableOf(v), k)
  }

  ghost predicate AllSoundMeanwhile(a: Adapter, past: View, v: View) {
    forall c :: c in a.clients ==> SoundMeanwhile(a.clients[c], past, v)
  }

  /** Every dump sees the first or the last view of the turn. */
  ghost predicate DumpsAtEnds(a: Adapter, actions: seq<Action>, past: View, v: View)
    decreases |actions|
  {
    actions == [] ||
    ((actions[0].Ask? ==> a.view == past || a.view == v) && DumpsAtEnds(Act(a, actions[0]), actions[1..], past, v))
  }

  lemma AskSoundMeanwhile(c: Client, x: View, asked: set<nat>, past: View, v: View)
    requires SoundMeanwhile(c, past, v) && WellFormed(x) && (x == past || x == v)
    ensures SoundMeanwhile(Asked(c, x, asked), past, v)
  {
    WellFormedIsKeyed(x);
    forall k | GroupOf(k) in c.groups && SameAt(TableOf(past), TableOf(v), k)
      ensures EntrySound(Asked(c, x, asked), TableOf(v), k)
    {
      AskKeeps(c, x, asked, TableOf(v), k);
    }
  }

  lemma DeliverSoundMeanwhile(c: Client, count: nat, past: View, v: View)
    requires SoundMeanwhile(c, past, v)
    ensures SoundMeanwhile(Delivered(c, count), past, v)
  {
    DeliverFrame(c, count);
    forall k | GroupOf(k) in c.groups && SameAt(TableOf(past), TableOf(v), k)
      ensures EntrySound(Delivered(c, count), TableOf(v), k)
    {
      DeliverKeeps(c, count, TableOf(v), k);
    }
  }

  lemma {:induction false} DeliverFrame(c: Client, count: nat)
    ensures Delivered(c, count).groups == c.groups && Delivered(c, count).informed == c.informed
    decreases count
  {
    if count > 0 && c.pending != [] {
      DeliverFrame(c.(table := Apply(c.table, c.pending[0]), pending := c.pending[1..]), count - 1);
    }
  }

  lemma ActKeeps(a: Adapter, action: Action, past: View, v: View)
    requires AllSoundMeanwhile(a, past, v) && WellFormed(past) && WellFormed(v)
    requires action.Ask? ==> a.view == past || a.view == v
    ensures AllSoundMeanwhile(Act(a, action), past, v)
  {
    match action
    case Join(c, groups) =>
    case Ask(c, asked) =>
      if c in a.clients { AskSoundMeanwhile(a.clients[c], a.view, asked, past, v); }
    case Deliver(c, count) =>
      if c in a.clients { DeliverSoundMeanwhile(a.clients[c], count, past, v); }
    case Reconfigure(w) =>
    case Leave(c) =>
  }

  lemma {:induction false} ActionsKeep(a: Adapter, actions: seq<Action>, past: View, v: View)
    requires AllSoundMeanwhile(a, past, v) && WellFormed(past) && WellFormed(v) && DumpsAtEnds(a, actions, past, v)
    ensures AllSoundMeanwhile(ActAll(a, actions), past, v)
    decreases |actions|
  {
    if actions != [] {
      ActKeeps(a, actions[0], past, v);
      ActionsKeep(Act(a, actions[0]), actions[1..], past, v);
    }
  }

  // ----- publication -----

  lemma {:induction false} FoldTouched(t: Table, events: seq<Event>, goal: Table, k: Key)
    requires AllTruthful(events, goal) && Touches(events, k)
    ensures SameAt(Fold(t, events), goal, k)
    decreases |events|
  {
    var next, rest := Apply(t, events[0]), events[1..];
    assert events == [events[0]] + rest && Truthful(events[0], goal);
    if Touches(rest, k) {
      FoldTouched(next, rest, goal, k);
    } else {
      FoldUntouched(next, rest, k);
    }
  }

  /** What a change of view tells a client about one entry. */
  lemma ToldEntry(c: Client, past: View, v: View, k: Key)
    requires WellFormed(past) && WellFormed(v) && GroupOf(k) in c.groups
    ensures var told := Told(c, Changes(v, past)).table;
      if Observed(v, k) != Observed(past, k) then SameAt(told, TableOf(v), k) else SameAt(told, c.table, k)
  {
    var events := Heard(Changes(v, past), c.groups);
    WellFormedIsKeyed(v);
    NothingUsurped(v, past);
    ChangesAreTruthful(v, past);
    ReportedExactly(v, past, k);
    forall e | e in events ensures Truthful(e, TableOf(v)) { HeardExactly(Changes(v, past), c.groups, e); }
    if Observed(v, k) != Observed(past, k) {
      var e :| e in Changes(v, past) && e.key == k;
      HeardExactly(Changes(v, past), c.groups, e);
      FoldTouched(c.table, events, TableOf(v), k);
    } else {
      forall e | e in events ensures e.key != k { HeardExactly(Changes(v, past), c.groups, e); }
      FoldUntouched(c.table, events, k);
    }
  }

  /** The exact condition for one entry: nothing queued about it is wrong, and either its
      observation changed over the turn or the client has it right already. */
  ghost predicate EntryCaught(c: Client, past: View, v: View, k: Key) {
    QueueTrue(c, TableOf(v), k) && (Observed(v, k) != Observed(past, k) || EntryRight(c, TableOf(v), k))
  }

  ghost predicate ClientCaught(c: Client, past: View, v: View) {
    c.informed <= c.groups && forall k :: GroupOf(k) in c.groups ==> EntryCaught(c, past, v, k)
  }

  /** Publishing leaves a client sound if and only if that holds of every entry. */
  lemma ToldExactly(c: Client, past: View, v: View)
    requires WellFormed(past) && WellFormed(v)
    ensures Sound(Told(c, Changes(v, past)), v) <==> ClientCaught(c, past, v)
  {
    var told := Told(c, Changes(v, past));
    forall k | GroupOf(k) in c.groups ensures EntrySound(told, TableOf(v), k) <==> EntryCaught(c, past, v, k) {
      ToldEntry(c, past, v, k);
    }
  }

  /** No record still queued describes an entry that has changed. */
  ghost predicate QueueStillTrue(c: Client, v: View) {
    forall e :: e in c.pending && GroupOf(e.key) in c.groups ==> Truthful(e, TableOf(v))
  }

  /** The same observation means the same entry. */
  lemma UnchangedEntry(past: View, v: View, k: Key)
    requires WellFormed(past) && WellFormed(v) && Observed(v, k) == Observed(past, k)
    ensures SameAt(TableOf(past), TableOf(v), k)
  {
    WellFormedIsKeyed(past);
    WellFormedIsKeyed(v);
    ReportedExactly(v, past, k);
    ChangesCover(v, past);
  }

  lemma MeanwhileIsCaught(c: Client, past: View, v: View)
    requires WellFormed(past) && WellFormed(v) && SoundMeanwhile(c, past, v) && QueueStillTrue(c, v)
    ensures ClientCaught(c, past, v)
  {
    forall k | GroupOf(k) in c.groups ensures EntryCaught(c, past, v, k) {
      if Observed(v, k) == Observed(past, k) { UnchangedEntry(past, v, k); }
    }
  }

  // ----- turns and runs -----

  /** An incomplete view on either side of a change clears the clients. */
  predicate Clears(a: Adapter, turn: Turn) {
    var v := Served(a, turn).view;
    v != a.view && (Incomplete(a.view) || Incomplete(v))
  }

  lemma UnchangedViewTellsNothing(c: Client, v: View)
    requires WellFormed(v)
    ensures Told(c, Changes(v, v)) == c
  {
    WellFormedIsKeyed(v);
    NoChangeNoEvents(v);
  }

  lemma NextClient(a: Adapter, turn: Turn, c: int)
    requires WellFormed(a.view) && Advanced(a, turn).Ok? && !Clears(a, turn)
    requires c in Served(a, turn).clients
    ensures var next, end := Advanced(a, turn).value, Served(a, turn);
      && next.view == end.view && next.clients.Keys == end.clients.Keys
      && next.clients[c] == Told(end.clients[c], Changes(end.view, a.view))
  {
    if Served(a, turn).view == a.view { UnchangedViewTellsNothing(Served(a, turn).clients[c], a.view); }
  }

  /** After a turn that does not clear them, all clients are sound if and only if each of
      them is caught by what the turn publishes. */
  lemma TurnExactly(a: Adapter, turn: Turn)
    requires WellFormed(a.view) && WellFormed(Served(a, turn).view) && Advanced(a, turn).Ok? && !Clears(a, turn)
    ensures AllSound(Advanced(a, turn).value)
       <==> forall c :: c in Served(a, turn).clients ==> ClientCaught(Served(a, turn).clients[c], a.view, Served(a, turn).view)
  {
    var next, end := Advanced(a, turn).value, Served(a, turn);
    forall c | c in end.clients
      ensures c in next.clients && (Sound(next.clients[c], next.view) <==> ClientCaught(end.clients[c], a.view, end.view))
    {
      NextClient(a, turn, c);
      ToldExactly(end.clients[c], a.view, end.view);
    }
    if c :| c in end.clients { NextClient(a, turn, c); }
  }

  /** What a turn has to meet: the core's views are well formed, dumps see the first or the
      last of them, and what is still queued at the end is still true. */
  ghost predicate Steady(a: Adapter, turn: Turn) {
    var end := Served(a, turn);
    && WellFormed(end.view)
    && (Clears(a, turn) ||
        (&& DumpsAtEnds(Updated(a, turn.update), turn.actions, a.view, end.view)
         && forall c :: c in end.clients ==> QueueStillTrue(end.clients[c], end.view)))
  }

  /** Between turns, sound about the current view is sound about what stays of it. */
  lemma SoundIsMeanwhile(c: Client, past: View, v: View)
    requires Sound(c, past)
    ensures SoundMeanwhile(c, past, v)
  {
    forall k | GroupOf(k) in c.groups && SameAt(TableOf(past), TableOf(v), k)
      ensures EntrySound(c, TableOf(v), k)
    {
      assert EntrySound(c, TableOf(past), k);
    }
  }

  lemma TurnKeeps(a: Adapter, turn: Turn)
    requires AllSound(a) && Steady(a, turn) && Advanced(a, turn).Ok?
    ensures AllSound(Advanced(a, turn).value)
  {
    var end := Served(a, turn);
    if !Clears(a, turn) {
      forall c | c in a.clients ensures SoundMeanwhile(a.clients[c], a.view, end.view) {
        SoundIsMeanwhile(a.clients[c], a.view, end.view);
      }
      ActionsKeep(Updated(a, turn.update), turn.actions, a.view, end.view);
      forall c | c in end.clients ensures ClientCaught(end.clients[c], a.view, end.view) {
        MeanwhileIsCaught(end.clients[c], a.view, end.view);
      }
      TurnExactly(a, turn);
    }
  }

  /** The last view that an action sets, if one does. */
  function LastSet(actions: seq<Action>, n: nat): Option<View>
    requires n <= |actions|
  {
    if n == 0 then None
    else if actions[n - 1].Reconfigure? then Some(actions[n - 1].view)
    else LastSet(actions, n - 1)
  }

  lemma {:induction false} LastSetOfRest(actions: seq<Action>, n: nat)
    requires 0 < n <= |actions|
    ensures LastSet(actions, n) ==
      if LastSet(actions[1..], n - 1).Some? then LastSet(actions[1..], n - 1)
      else if actions[0].Reconfigure? then Some(actions[0].view) else None
  {
    if n > 1 { LastSetOfRest(actions, n - 1); }
  }

  lemma {:induction false} ActionsSetTheView(a: Adapter, actions: seq<Action>)
    ensures ActAll(a, actions).view == (if LastSet(actions, |actions|).Some? then LastSet(actions, |actions|).value else a.view)
    ensures ActAll(a, actions).log == a.log
    decreases |actions|
  {
    if actions != [] {
      ActionsSetTheView(Act(a, actions[0]), actions[1..]);
      LastSetOfRest(actions, |actions|);
    }
  }

  /** A turn ends with the view that was set last in it: by a client, else by the core, else
      the one before; and publishes exactly the changes from the one before, if both are
      complete and the indices fit. It fails exactly if they do not. */
  lemma TurnPublishes(a: Adapter, turn: Turn)
    ensures var last := LastSet(turn.actions, |turn.actions|);
      var v := if last.Some? then last.value else if turn.update.Some? then turn.update.value else a.view;
      var silent := v == a.view || Incomplete(a.view) || Incomplete(v);
      && Served(a, turn).view == v
      && (Advanced(a, turn).Err? <==> !silent && !AllFit(Changes(v, a.view)))
      && (Advanced(a, turn).Ok? ==>
            && Advanced(a, turn).value.view == v
            && Advanced(a, turn).value.log == a.log + if silent then [] else Changes(v, a.view))
  {
    ActionsSetTheView(Updated(a, turn.update), turn.actions);
    assert a.log + [] == a.log;
  }

  function Run(a: Adapter, turns: seq<Turn>): Result<Adapter, Errno>
    decreases |turns|
  {
    if turns == [] then Ok(a)
    else match Advanced(a, turns[0])
      case Ok(next) => Run(next, turns[1..])
      case Err(e) => Err(e)
  }

  ghost predicate SteadyRun(a: Adapter, turns: seq<Turn>)
    decreases |turns|
  {
    turns == [] || (Steady(a, turns[0]) && (Advanced(a, turns[0]).Ok? ==> SteadyRun(Advanced(a, turns[0]).value, turns[1..])))
  }

  lemma {:induction false} RunKeeps(a: Adapter, turns: seq<Turn>)
    requires AllSound(a) && SteadyRun(a, turns) && Run(a, turns).Ok?
    ensures AllSound(Run(a, turns).value)
    decreases |turns|
  {
    if turns != [] {
      TurnKeeps(a, turns[0]);
      RunKeeps(Advanced(a, turns[0]).value, turns[1..]);
    }
  }

  function Start(v: View): Adapter {
    Adapter(v, map[], [])
  }

  /** After any run of steady turns, every client that is still registered has, once its
      queue is delivered, exactly the current table of the groups it asked about. */
  lemma ClientsStayCurrent(v: View, turns: seq<Turn>, c: int)
    requires WellFormed(v) && SteadyRun(Start(v), turns) && Run(Start(v), turns).Ok?
    requires c in Run(Start(v), turns).value.clients
    ensures var end := Run(Start(v), turns).value; var client := end.clients[c];
      Restrict(Fold(client.table, client.pending), client.informed) == Restrict(TableOf(end.view), client.informed)
  {
    RunKeeps(Start(v), turns);
    var end := Run(Start(v), turns).value;
    SoundMeansCurrent(end.clients[c], end.view);
  }
}
