/** The forwarder: preflight checks and the cache first, the upstream endpoints in turn
    after that, with the cache free for other exchanges in between. Proved over every
    interleaving: a reply from the cache is the latest stored upstream reply to the same
    request, with only the identifier replaced and the TTLs aged. */
module DnsForward {
  import opened Common
  import opened DnsMessages
  import opened DnsCache

  const MAX_MESSAGE: nat := 65535
  const TYPE_IXFR: nat := 251
  const TYPE_AXFR: nat := 252
  const OPCODE_QUERY: nat := 0

  /** One endpoint's turn: the deadline passed, it failed, or it answered with a
      message and an HTTP Age. */
  datatype Attempt = OutOfTime | Failed | Answer(upstream: Message, age: u32)

  /** The two parts of an exchange. The cache is locked within each of them only, so those
      of different exchanges come in any order. */
  datatype Move =
    | Look(request: Message, now: nat)
    | Fetch(request: Message, attempts: seq<Attempt>, now: nat)

  /** The reply given, and where it came from. */
  datatype Reply = Local(message: Message) | Cached(message: Message) | Upstream(message: Message, age: u32)

  function ErrorReply(q: Message, code: ResponseCode): Message {
    Message(q.id, true, q.opCode, code, false, false, q.recursionDesired, true, q.checkingDisabled, false,
            if q.edns.None? then None else Some(Edns(0, false, false, Min(q.edns.value.maxPayload, 1232))),
            q.queries, [], [], [])
  }

  function Preflight(q: Message): Option<ResponseCode> {
    if q.isResponse || |q.queries| != 1 || q.answers != [] || q.authorities != [] then Some(FormErr)
    else if q.opCode != OPCODE_QUERY then Some(NotImp)
    else if q.signed || q.queries[0].qtype == TYPE_AXFR || q.queries[0].qtype == TYPE_IXFR then Some(Refused)
    else if q.edns.Some? && q.edns.value.version != 0 then Some(BadVers)
    else None
  }

  /** The request as it goes upstream, which is also its cache key. */
  function Key(codec: Codec, q: Message): Option<seq<byte>> {
    var bytes := codec.encode(q.(id := 0));
    if bytes.None? || |bytes.value| > MAX_MESSAGE then None else bytes
  }

  predicate Acceptable(q: Message, r: Message) {
    r.isResponse && r.id == 0 && r.opCode == q.opCode && r.queries == q.queries && !r.signed
  }

  /** Authenticated data is forwarded only to a client that understands it. */
  function Presented(q: Message, r: Message): Message {
    var understands := q.authenticData || (q.edns.Some? && q.edns.value.dnssecOk);
    r.(id := q.id, authenticData := r.authenticData && understands)
  }

  /** The first acceptable answer, corrected for its Age. */
  function FirstAnswer(q: Message, attempts: seq<Attempt>): Option<(Message, u32)> {
    if attempts == [] || attempts[0].OutOfTime? then None
    else if attempts[0].Answer? && Acceptable(q, Corrected(attempts[0].upstream, attempts[0].age)) then
      Some((Corrected(attempts[0].upstream, attempts[0].age), attempts[0].age))
    else FirstAnswer(q, attempts[1..])
  }

  function FromUpstream(q: Message, attempts: seq<Attempt>): Reply {
    var answer := FirstAnswer(q, attempts);
    if answer.None? then Local(ErrorReply(q, ServFail))
    else Upstream(Presented(q, answer.value.0), answer.value.1)
  }

  /** The reply that the first part gives, if it gives one. */
  function FirstReply(c: Cache, codec: Codec, q: Message, now: nat): Option<Reply> {
    var key := Key(codec, q);
    if Preflight(q).Some? then Some(Local(ErrorReply(q, Preflight(q).value)))
    else if key.None? then Some(Local(ErrorReply(q, FormErr)))
    else if Eligible(q) && Lookup(c, codec, key.value, now).1.Some? then
      Some(Cached(Lookup(c, codec, key.value, now).1.value.(id := q.id)))
    else None
  }

  predicate UsesCache(codec: Codec, q: Message) {
    Preflight(q).None? && Key(codec, q).Some? && Eligible(q)
  }

  /** The cache operation of a move. */
  function OpOf(codec: Codec, m: Move): Option<Op> {
    if !UsesCache(codec, m.request) then None
    else if m.Look? then Some(Ask(Key(codec, m.request).value, m.now))
    else
      var reply := FromUpstream(m.request, m.attempts);
      if reply.Upstream? then Some(Keep(Key(codec, m.request).value, reply.message, reply.age, m.now)) else None
  }

  function OpsOf(codec: Codec, moves: seq<Move>): seq<Op> {
    if moves == [] then []
    else OpsOf(codec, moves[..|moves| - 1]) + Listed(OpOf(codec, moves[|moves| - 1]))
  }

  function Listed(op: Option<Op>): seq<Op> {
    if op.Some? then [op.value] else []
  }

  /** The cache after any sequence of moves. */
  function CacheAfter(codec: Codec, moves: seq<Move>): Cache {
    if moves == [] then EMPTY else Moved(CacheAfter(codec, moves[..|moves| - 1]), codec, moves[|moves| - 1])
  }

  function Moved(c: Cache, codec: Codec, m: Move): Cache {
    var op := OpOf(codec, m);
    if op.Some? then Step(c, codec, op.value) else c
  }

  lemma {:induction false} CacheIsTheRun(codec: Codec, moves: seq<Move>)
    ensures CacheAfter(codec, moves) == After(codec, OpsOf(codec, moves))
  {
    if moves != [] {
      var n := |moves| - 1;
      CacheIsTheRun(codec, moves[..n]);
      var before, op := OpsOf(codec, moves[..n]), OpOf(codec, moves[n]);
      if op.Some? {
        assert (before + [op.value])[..|before|] == before;
      } else {
        assert before + [] == before;
      }
    }
  }

  /** The move that an operation belongs to; later moves have later operations. */
  lemma {:induction false} OpPosition(codec: Codec, moves: seq<Move>, i: nat) returns (j: nat)
    requires i < |OpsOf(codec, moves)|
    ensures j < |moves| && OpOf(codec, moves[j]) == Some(OpsOf(codec, moves)[i])
    ensures forall n :: j < n < |moves| && OpOf(codec, moves[n]).Some? ==>
              exists m :: i < m < |OpsOf(codec, moves)| && OpsOf(codec, moves)[m] == OpOf(codec, moves[n]).value
    decreases |moves|
  {
    var n := |moves| - 1;
    var before, last := OpsOf(codec, moves[..n]), OpOf(codec, moves[n]);
    if i < |before| {
      j := OpPosition(codec, moves[..n], i);
      forall k | j < k < |moves| && OpOf(codec, moves[k]).Some?
        ensures exists m :: i < m < |OpsOf(codec, moves)| && OpsOf(codec, moves)[m] == OpOf(codec, moves[k]).value
      {
        if k < n {
          assert moves[..n][k] == moves[k];
          var m :| i < m < |before| && before[m] == OpOf(codec, moves[k]).value;
          assert OpsOf(codec, moves)[m] == before[m];
        } else {
          assert OpsOf(codec, moves)[|before|] == last.value;
        }
      }
    } else {
      j := n;
    }
  }

  lemma SameKeySameRequest(codec: Codec, p: Message, q: Message)
    requires Faithful(codec) && Key(codec, p).Some? && Key(codec, p) == Key(codec, q)
    ensures p.(id := 0) == q.(id := 0)
  {
    assert codec.decode(codec.encode(p.(id := 0)).value) == Some(p.(id := 0));
    assert codec.decode(codec.encode(q.(id := 0)).value) == Some(q.(id := 0));
  }

  lemma UpstreamRepliesCarryTheId(q: Message, attempts: seq<Attempt>)
    ensures FromUpstream(q, attempts).message.id == q.id
  {
  }

  /** End to end, whatever other exchanges do in between: when a request is answered from
      the cache, the answer is the upstream reply that the latest storing exchange of the
      same request (identifier aside) was given; the client gets it with its own identifier
      and aged TTLs. */
  lemma CachedRepliesAreTheLatest(codec: Codec, moves: seq<Move>, q: Message, now: nat) returns (j: nat)
    requires Faithful(codec)
    requires var reply := FirstReply(CacheAfter(codec, moves), codec, q, now); reply.Some? && reply.value.Cached?
    ensures j < |moves| && moves[j].Fetch? && FromUpstream(moves[j].request, moves[j].attempts).Upstream?
    ensures moves[j].request.(id := 0) == q.(id := 0)
    ensures var served := FirstReply(CacheAfter(codec, moves), codec, q, now).value.message;
      && served.id == q.id
      && Serves(FromUpstream(moves[j].request, moves[j].attempts).message, moves[j].now, now,
                served.(id := moves[j].request.id))
    ensures forall n :: j < n < |moves| && OpOf(codec, moves[n]).Some? && Key(codec, moves[n].request) == Key(codec, q) ==>
              Stores(codec, OpOf(codec, moves[n]).value).None?
  {
    var ops, key := OpsOf(codec, moves), Key(codec, q).value;
    CacheIsTheRun(codec, moves);
    var i := HitsAreTransparent(codec, ops, key, now);
    j := OpPosition(codec, moves, i);
    SameKeySameRequest(codec, moves[j].request, q);
    UpstreamRepliesCarryTheId(moves[j].request, moves[j].attempts);
    forall n | j < n < |moves| && OpOf(codec, moves[n]).Some? && Key(codec, moves[n].request) == Key(codec, q)
      ensures Stores(codec, OpOf(codec, moves[n]).value).None?
    {
      var m :| i < m < |ops| && ops[m] == OpOf(codec, moves[n]).value;
      assert ops[m].key == key;
    }
  }

  class Forwarder {
    const cache: MessageCache

    constructor (codec: Codec)
      ensures fresh(cache) && cache.codec == codec && cache.State() == EMPTY
    {
      cache := new MessageCache(codec);
    }

    /** The endpoints in turn, until one gives an acceptable answer. */
    method AskUpstream(q: Message, attempts: seq<Attempt>) returns (reply: Reply)
      ensures reply == FromUpstream(q, attempts)
    {
      for i := 0 to |attempts|
        invariant FirstAnswer(q, attempts[i..]) == FirstAnswer(q, attempts)
      {
        assert attempts[i..][1..] == attempts[i + 1..];
        if attempts[i].OutOfTime? { break; }
        if attempts[i].Answer? {
          var response := Correct(attempts[i].upstream, attempts[i].age);
          if Acceptable(q, response) {
            var understands := q.authenticData || (q.edns.Some? && q.edns.value.dnssecOk);
            response := response.(id := q.id);
            if !understands {
              response := response.(authenticData := false);
            }
            return Upstream(response, attempts[i].age);
          }
        }
      }
      return Local(ErrorReply(q, ServFail));
    }

    /** Up to the first release of the cache. */
    method Begin(q: Message, now: nat) returns (reply: Option<Reply>)
      requires WellFormed(cache.State())
      modifies cache
      ensures reply == FirstReply(old(cache.State()), cache.codec, q, now)
      ensures cache.State() == Moved(old(cache.State()), cache.codec, Look(q, now)) && WellFormed(cache.State())
    {
      var refusal := Preflight(q);
      if refusal.Some? { return Some(Local(ErrorReply(q, refusal.value))); }
      var bytes := cache.codec.encode(q.(id := 0));
      if bytes.None? || |bytes.value| > MAX_MESSAGE { return Some(Local(ErrorReply(q, FormErr))); }
      if Eligible(q) {
        var hit := cache.Get(bytes.value, now);
        if hit.Some? { return Some(Cached(hit.value.(id := q.id))); }
      }
      return None;
    }

    /** What an exchange without a reply does next, whatever happened to the cache. */
    method Finish(q: Message, attempts: seq<Attempt>, now: nat) returns (reply: Reply)
      requires WellFormed(cache.State()) && Preflight(q).None? && Key(cache.codec, q).Some?
      modifies cache
      ensures reply == FromUpstream(q, attempts)
      ensures cache.State() == Moved(old(cache.State()), cache.codec, Fetch(q, attempts, now)) && WellFormed(cache.State())
    {
      reply := AskUpstream(q, attempts);
      if Eligible(q) && reply.Upstream? {
        var bytes := cache.codec.encode(q.(id := 0));
        cache.Insert(bytes.value, reply.message, reply.age, now);
      }
    }
  }
}
