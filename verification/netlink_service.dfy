/** The adapter as it runs: its view, the records queued for its clients, and what it has
    published, changed in place turn by turn. */
module NetlinkService {
  import opened Common
  import opened NetlinkView
  import opened NetlinkEvents
  import opened NetlinkEncoding
  import opened NetlinkAdapter

  class RtnetlinkAdapter {
    var view: View
    var queues: map<int, seq<Event>>
    var published: seq<Event>
    ghost var clients: map<int, Client>

    ghost predicate Valid()
      reads this
    {
      && clients.Keys == queues.Keys
      && forall c :: c in clients ==> clients[c].pending == queues[c]
    }

    ghost function State(): Adapter
      reads this
    {
      Adapter(view, clients, published)
    }

    constructor (v: View)
      ensures Valid() && State() == Start(v)
    {
      view, queues, published, clients := v, map[], [], map[];
    }

    /** Sends the first so many queued records. */
    method Flush(c: nat, count: nat)
      requires Valid() && c in queues
      modifies this
      ensures Valid() && State() == old(State()).(clients := old(clients)[c := Delivered(old(clients)[c], count)])
    {
      var queue, i := queues[c], 0;
      ghost var client := clients[c];
      while i < count && queue != []
        invariant i <= count && unchanged(this)
        invariant client.pending == queue && Delivered(client, count - i) == Delivered(clients[c], count)
      {
        client := client.(table := Apply(client.table, queue[0]), pending := queue[1..]);
        queue := queue[1..];
        i := i + 1;
      }
      queues := queues[c := queue];
      clients := clients[c := client];
    }

    method ActOn(action: Action)
      requires Valid()
      modifies this
      ensures Valid() && State() == Act(old(State()), action)
    {
      match action
      case Join(c, groups) =>
        queues := queues[c := []];
        clients := clients[c := Client(groups, {}, map[], [])];
      case Ask(c, asked) =>
        if c in queues && CanDump(view, asked) {
          queues := queues[c := queues[c] + DumpOf(view, asked)];
          clients := clients[c := Asked(clients[c], view, asked)];
        }
      case Deliver(c, count) =>
        if c in queues { Flush(c, count); }
      case Reconfigure(w) =>
        view := w;
      case Leave(c) =>
        queues := queues - {c};
        clients := clients - {c};
    }

    /** What clients do in one turn, against the view as it stands. */
    method Serve(actions: seq<Action>)
      requires Valid()
      modifies this
      ensures Valid() && State() == ActAll(old(State()), actions)
    {
      for k := 0 to |actions|
        invariant Valid()
        invariant ActAll(State(), actions[k..]) == ActAll(old(State()), actions)
      {
        assert actions[k..][1..] == actions[k + 1..];
        ActOn(actions[k]);
      }
    }

    /** A failed turn has replaced the view and published nothing. */
    method Advance(update: Option<View>, actions: seq<Action>) returns (error: Option<Errno>)
      requires Valid()
      modifies this
      ensures Valid()
      ensures match Advanced(old(State()), Turn(update, actions))
        case Ok(next) => error.None? && State() == next
        case Err(e) => error == Some(e) && State() == Served(old(State()), Turn(update, actions))
    {
      var past := view;
      if update.Some? { view := update.value; }
      Serve(actions);
      error := None;
      if past != view {
        if Incomplete(past) || Incomplete(view) {
          queues, clients := map[], map[];
        } else {
          var events := ChangesOf(view, past);
          if events.Err? { return Some(events.error); }
          published := published + events.value;
          clients := TellAll(clients, events.value);
        }
      }
    }
  }
}
