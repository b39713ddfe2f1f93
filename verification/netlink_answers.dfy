/** Exactly which queries are answered, and that a dump as the adapter queues it is the
    answer to the query that asks for it. */
module NetlinkAnswers {
  import opened Common
  import opened NetlinkView
  import opened NetlinkEvents
  import opened NetlinkEncoding
  import opened NetlinkAdapter
  import opened NetlinkQueries

  /** A request to read links or addresses of a known family, long enough; a lookup of one
      link has exactly the length of its body. */
  predicate Proper(q: Query) {
    && Flag(q.flags, 1) && q.kind in {18, 22} && q.length >= 17 && q.family in {0, 2, 10, 17}
    && ((Flag(q.flags, 0x100) && Flag(q.flags, 0x200)) || (q.kind == 18 && q.length == 32))
  }

  /** A query is answered exactly if it is proper, every observation is complete, the
      indices to be written fit, and a lookup finds something. */
  lemma AnsweredExactly(v: View, q: Query)
    ensures Answer(v, q).Ok? <==>
      && Proper(q) && (forall i :: i in v.interfaces ==> !i.incomplete) && Readable(v, q)
      && (IsDump(q) || Selected(v, q, v.interfaces) != [])
    ensures Answer(v, q) == Err(NoBuffers) ==> exists i :: i in v.interfaces && i.incomplete
    ensures Answer(v, q) == Err(Overflow) ==> !Readable(v, q)
    ensures Answer(v, q) == Err(NoFamily) ==> q.family !in {0, 2, 10, 17}
    ensures Answer(v, q) in {Err(Invalid), Err(Unsupported)} ==> !Proper(q)
  {
    if Incomplete(v) {
      var k :| 0 <= k < |v.interfaces| && v.interfaces[k].incomplete;
      assert v.interfaces[k] in v.interfaces;
    } else {
      forall i | i in v.interfaces ensures !i.incomplete {
        var k :| 0 <= k < |v.interfaces| && v.interfaces[k] == i;
      }
    }
  }

  /** What the adapter queues for a client that asks is the answer to its query, record for
      record, before the end marker; and it queues nothing exactly if that is refused. */
  lemma DumpsAreAnswers(a: Adapter, c: nat, q: Query)
    requires Proper(q) && IsDump(q) && c in a.clients
    ensures var next := Act(a, Ask(c, AskedBy(q)));
      match Answer(a.view, q)
      case Err(_) => next == a
      case Ok(replies) =>
        exists events ::
          && replies == Records(events, true) + [Done]
          && next.clients[c].pending == a.clients[c].pending + events
          && next.clients[c].table == a.clients[c].table
  {
    DumpAnswersTheGroups(a.view, q);
    var events := Selected(a.view, q, a.view.interfaces);
    assert CanDump(a.view, AskedBy(q)) <==> Answer(a.view, q).Ok?;
    if Answer(a.view, q).Ok? {
      assert Answer(a.view, q).value == Records(events, true) + [Done];
      assert Act(a, Ask(c, AskedBy(q))).clients[c].pending == a.clients[c].pending + events;
    }
  }
}
