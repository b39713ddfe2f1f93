/** Replies in terms of what the endpoints answered: which attempt is used, every TTL of
    the reply, how long the cache keeps it, and what is left of each TTL when it is served
    from there. */
module DnsReplies {
  import opened Common
  import opened DnsMessages
  import opened DnsCache
  import opened DnsForward

  // ----- the attempt that is used -----

  /** In time, and a response to this question. */
  ghost predicate Usable(q: Message, attempts: seq<Attempt>, k: nat) {
    && k < |attempts| && attempts[k].Answer?
    && (forall j :: 0 <= j < k ==> !attempts[j].OutOfTime?)
    && var r := attempts[k].upstream;
       r.isResponse && r.id == 0 && r.opCode == q.opCode && r.queries == q.queries && !r.signed
  }

  ghost predicate Used(q: Message, attempts: seq<Attempt>, k: nat) {
    Usable(q, attempts, k) && forall j :: 0 <= j < k ==> !Usable(q, attempts, j)
  }

  /** The attempt after the first is used exactly if the first is not, and time is left. */
  lemma UsableLater(q: Message, attempts: seq<Attempt>, k: nat)
    requires attempts != [] && !attempts[0].OutOfTime?
    ensures Usable(q, attempts[1..], k) <==> Usable(q, attempts, k + 1)
  {
    var rest := attempts[1..];
    if Usable(q, attempts, k + 1) {
      forall j | 0 <= j < k ensures !rest[j].OutOfTime? {
        assert rest[j] == attempts[j + 1];
      }
    }
    if Usable(q, rest, k) {
      forall j | 0 <= j < k + 1 ensures !attempts[j].OutOfTime? {
        assert j > 0 ==> attempts[j] == rest[j - 1];
      }
    }
  }

  lemma {:induction false} FirstIsUsed(q: Message, attempts: seq<Attempt>) returns (k: Option<nat>)
    ensures k.Some? ==> Used(q, attempts, k.value)
    ensures k.None? ==> forall j: nat :: !Usable(q, attempts, j)
    ensures FirstAnswer(q, attempts) ==
      if k.None? then None
      else Some((Corrected(attempts[k.value].upstream, attempts[k.value].age), attempts[k.value].age))
  {
    if attempts == [] || attempts[0].OutOfTime? {
      k := None;
    } else if Usable(q, attempts, 0) {
      k := Some(0);
    } else {
      var later := FirstIsUsed(q, attempts[1..]);
      k := if later.Some? then Some(later.value + 1) else None;
      forall j: nat ensures Usable(q, attempts[1..], j) <==> Usable(q, attempts, j + 1) {
        UsableLater(q, attempts, j);
      }
      forall j: nat | Usable(q, attempts, j) ensures j > 0 && Usable(q, attempts[1..], j - 1) {
      }
    }
  }

  lemma UsedOnce(q: Message, attempts: seq<Attempt>, k: nat, j: nat)
    requires Used(q, attempts, k) && Used(q, attempts, j)
    ensures k == j
  {
  }

  // ----- what the client gets -----

  function Less(ttl: u32, seconds: nat): nat {
    if ttl > seconds then ttl - seconds else 0
  }

  /** No such name, or no record of the type asked for. */
  ghost predicate NoSuchRecord(r: Message) {
    r.rcode.NXDomain? || forall i :: 0 <= i < |r.answers| ==> r.queries == [] || r.answers[i].rtype != r.queries[0].qtype
  }

  /** An SOA in the authority section of a negative answer counts for its MINIMUM at most. */
  ghost function Limit(r: Message, rr: Record): u32 {
    if NoSuchRecord(r) && rr.data.Soa? && rr.data.minimum < rr.ttl then rr.data.minimum else rr.ttl
  }

  ghost predicate Lessened(before: seq<Record>, after: seq<Record>, age: nat) {
    |after| == |before| && forall i :: 0 <= i < |before| ==> after[i] == before[i].(ttl := Less(before[i].ttl, age))
  }

  ghost predicate Replies(q: Message, r: Message, age: nat, reply: Message) {
    && reply == r.(id := q.id, authenticData := reply.authenticData, answers := reply.answers,
                   authorities := reply.authorities, additionals := reply.additionals)
    && (reply.authenticData <==> r.authenticData && (q.authenticData || (q.edns.Some? && q.edns.value.dnssecOk)))
    && Lessened(r.answers, reply.answers, age)
    && Lessened(r.additionals, reply.additionals, age)
    && Limited(r, reply.authorities, age)
  }

  ghost predicate Limited(r: Message, after: seq<Record>, age: nat) {
    && |after| == |r.authorities|
    && forall i :: 0 <= i < |after| ==> after[i] == r.authorities[i].(ttl := Less(Limit(r, r.authorities[i]), age))
  }

  lemma AgedIsLessened(rs: seq<Record>, age: nat)
    ensures Lessened(rs, AgedRecords(rs, age), age)
  {
  }

  lemma AuthoritiesAreLimited(r: Message, age: u32)
    ensures Limited(r, Corrected(r, age).authorities, age)
  {
    var after := Corrected(r, age).authorities;
    assert NoSuchRecord(r) <==> Negative(r);
    forall i | 0 <= i < |after| ensures after[i] == r.authorities[i].(ttl := Less(Limit(r, r.authorities[i]), age)) {
    }
  }

  /** All but the records and the authenticated-data bit is passed on. */
  lemma RestIsPassedOn(q: Message, r: Message, age: u32)
    ensures var reply := Presented(q, Corrected(r, age));
      && reply == r.(id := q.id, authenticData := reply.authenticData, answers := AgedRecords(r.answers, age),
                     authorities := Corrected(r, age).authorities, additionals := AgedRecords(r.additionals, age))
      && (reply.authenticData <==> r.authenticData && (q.authenticData || (q.edns.Some? && q.edns.value.dnssecOk)))
  {
    OnlyRecordsAreCorrected(r, age);
  }

  lemma OnlyRecordsAreCorrected(r: Message, age: u32)
    ensures Corrected(r, age) == r.(answers := AgedRecords(r.answers, age), authorities := Corrected(r, age).authorities,
                                    additionals := AgedRecords(r.additionals, age))
  {
  }

  lemma CorrectedReplies(q: Message, r: Message, age: u32)
    ensures Replies(q, r, age, Presented(q, Corrected(r, age)))
  {
    AgedIsLessened(r.answers, age);
    AgedIsLessened(r.additionals, age);
    AuthoritiesAreLimited(r, age);
    RestIsPassedOn(q, r, age);
  }

  /** The client gets the first answer to its question that came in time, under its own
      identifier and with every TTL less the Age; a server failure if there is none. */
  lemma RepliesToTheQuestion(q: Message, attempts: seq<Attempt>) returns (k: Option<nat>)
    ensures k.Some? ==>
      && Used(q, attempts, k.value)
      && FromUpstream(q, attempts).Upstream? && FromUpstream(q, attempts).age == attempts[k.value].age
      && Replies(q, attempts[k.value].upstream, attempts[k.value].age, FromUpstream(q, attempts).message)
    ensures k.None? ==>
      && (forall j: nat :: !Usable(q, attempts, j))
      && FromUpstream(q, attempts).Local? && Bare(q, ServFail, FromUpstream(q, attempts).message)
  {
    k := FirstIsUsed(q, attempts);
    if k.Some? {
      CorrectedReplies(q, attempts[k.value].upstream, attempts[k.value].age);
    }
  }

  /** A reply that the forwarder makes itself: the question, an error, and nothing else. */
  predicate Bare(q: Message, code: ResponseCode, r: Message) {
    && r.isResponse && r.id == q.id && r.opCode == q.opCode && r.queries == q.queries && r.rcode == code
    && r.recursionDesired == q.recursionDesired && r.recursionAvailable && r.checkingDisabled == q.checkingDisabled
    && !r.truncation && !r.authenticData && !r.signed
    && r.answers == [] && r.authorities == [] && r.additionals == []
    && (r.edns.Some? <==> q.edns.Some?)
    && (r.edns.Some? ==> r.edns.value == Edns(0, false, false, Min(q.edns.value.maxPayload, 1232)))
  }

  /** A question that is not forwarded at all. */
  predicate Unfit(q: Message) {
    || q.isResponse || |q.queries| != 1 || q.answers != [] || q.authorities != []
    || q.opCode != OPCODE_QUERY || q.signed
    || q.queries[0].qtype in {TYPE_AXFR, TYPE_IXFR}
    || (q.edns.Some? && q.edns.value.version != 0)
  }

  /** The error names what is wrong. */
  predicate Warranted(q: Message, code: ResponseCode) {
    var malformed := q.isResponse || |q.queries| != 1 || q.answers != [] || q.authorities != [];
    match code
    case FormErr => malformed || !Unfit(q)
    case NotImp => !malformed && q.opCode != OPCODE_QUERY
    case Refused => !malformed && (q.signed || q.queries[0].qtype in {TYPE_AXFR, TYPE_IXFR})
    case BadVers => q.edns.Some? && q.edns.value.version != 0
    case _ => false
  }

  /** The forwarder answers by itself exactly a question that is unfit or cannot be encoded. */
  lemma AnsweredLocally(c: Cache, codec: Codec, q: Message, now: nat)
    ensures var reply := FirstReply(c, codec, q, now);
      && (reply.Some? && reply.value.Local? <==>
            Unfit(q) || codec.encode(q.(id := 0)).None? || |codec.encode(q.(id := 0)).value| > 65535)
      && (reply.Some? && reply.value.Local? ==>
            Bare(q, reply.value.message.rcode, reply.value.message) && Warranted(q, reply.value.message.rcode))
  {
  }

  /** A question that the cache may answer: nothing in it but the question. */
  predicate Plain(q: Message) {
    !q.signed && q.additionals == [] && (q.edns.Some? ==> !q.edns.value.hasOptions)
  }

  predicate Sendable(codec: Codec, q: Message) {
    codec.encode(q.(id := 0)).Some? && |codec.encode(q.(id := 0)).value| <= 65535
  }

  /** The cache is asked and fed for exactly the fit and plain questions that can be sent;
      and then a reply comes from it exactly if it has a live entry for the question. */
  lemma CacheIsUsedExactly(codec: Codec, moves: seq<Move>, q: Message, now: nat)
    requires Faithful(codec)
    ensures UsesCache(codec, q) <==> !Unfit(q) && Sendable(codec, q) && Plain(q)
    ensures var reply, ops := FirstReply(CacheAfter(codec, moves), codec, q, now), OpsOf(codec, moves);
      reply.Some? && reply.value.Cached? <==>
        && UsesCache(codec, q)
        && exists i: nat, e ::
             && e in CacheAfter(codec, moves).entries
             && StoredAt(codec, ops, i, codec.encode(q.(id := 0)).value, e)
             && now < ops[i].now + KeepSeconds(ops[i].response, ops[i].httpAge).value * SECOND
    ensures UsesCache(codec, q) ==> OpOf(codec, Look(q, now)) == Some(Ask(codec.encode(q.(id := 0)).value, now))
  {
    CacheIsTheRun(codec, moves);
    if UsesCache(codec, q) {
      HitExactly(codec, OpsOf(codec, moves), codec.encode(q.(id := 0)).value, now);
    }
  }

  // ----- how long it is kept -----

  lemma {:induction false} MinTtlIsAttained(rs: seq<Record>) returns (i: nat)
    requires rs != []
    ensures i < |rs| && MinTtl(rs) == Some(rs[i].ttl)
  {
    i := 0;
    if |rs| > 1 {
      var rest := MinTtlIsAttained(rs[1..]);
      if rs[1..][rest].ttl < rs[0].ttl { i := rest + 1; }
    }
  }

  lemma {:induction false} MinSoaIsLower(rs: seq<Record>, i: nat)
    requires i < |rs| && rs[i].data.Soa?
    ensures MinSoaMinimum(rs).Some? && MinSoaMinimum(rs).value <= rs[i].data.minimum
  {
    if i > 0 { MinSoaIsLower(rs[1..], i - 1); }
  }

  lemma {:induction false} MinSoaIsAttained(rs: seq<Record>) returns (i: nat)
    requires MinSoaMinimum(rs).Some?
    ensures i < |rs| && rs[i].data.Soa? && MinSoaMinimum(rs).value == rs[i].data.minimum
  {
    if rs[0].data.Soa? && MinSoaMinimum(rs).value == rs[0].data.minimum {
      i := 0;
    } else {
      i := MinSoaIsAttained(rs[1..]);
      i := i + 1;
    }
  }

  /** The least of all TTLs and, in a negative answer, of the SOA MINIMUMs. */
  ghost predicate IsLeast(r: Message, floor: nat) {
    && (forall i :: 0 <= i < |Records(r)| ==> floor <= Records(r)[i].ttl)
    && (NoSuchRecord(r) ==>
          forall i :: 0 <= i < |r.authorities| && r.authorities[i].data.Soa? ==> floor <= r.authorities[i].data.minimum)
    && (|| (exists i :: 0 <= i < |Records(r)| && floor == Records(r)[i].ttl)
        || (&& NoSuchRecord(r)
            && exists i :: 0 <= i < |r.authorities| && r.authorities[i].data.Soa? && floor == r.authorities[i].data.minimum))
  }

  lemma FloorIsLeast(r: Message)
    ensures FloorTtl(r).Some? <==> Records(r) != []
    ensures FloorTtl(r).Some? ==> IsLeast(r, FloorTtl(r).value)
  {
    assert NoSuchRecord(r) <==> Negative(r);
    if Records(r) == [] {
      assert r.authorities == [];
    } else {
      var a := MinTtlIsAttained(Records(r));
      forall i | 0 <= i < |Records(r)| ensures FloorTtl(r).value <= Records(r)[i].ttl {
        MinTtlIsLower(Records(r), i);
      }
      forall i | 0 <= i < |r.authorities| && r.authorities[i].data.Soa? && NoSuchRecord(r)
        ensures FloorTtl(r).value <= r.authorities[i].data.minimum
      {
        MinSoaIsLower(r.authorities, i);
      }
      if MinSoaMinimum(r.authorities).Some? {
        var b := MinSoaIsAttained(r.authorities);
      }
    }
  }

  /** Whole, unsigned, without options, and an answer or a denial; a denial has an SOA. */
  ghost predicate Keepable(r: Message) {
    && !r.truncation && !r.signed && (r.edns.Some? ==> !r.edns.value.hasOptions)
    && r.rcode in {NoError, NXDomain}
    && (NoSuchRecord(r) ==> exists i :: 0 <= i < |r.authorities| && r.authorities[i].data.Soa?)
  }

  lemma SoaExists(rs: seq<Record>)
    ensures MinSoaMinimum(rs).Some? <==> exists i :: 0 <= i < |rs| && rs[i].data.Soa?
  {
    if MinSoaMinimum(rs).Some? {
      var i := MinSoaIsAttained(rs);
    }
    if i :| 0 <= i < |rs| && rs[i].data.Soa? {
      MinSoaIsLower(rs, i);
    }
  }

  lemma KeptAsPresented(q: Message, r: Message, age: u32)
    ensures KeepSeconds(Presented(q, Corrected(r, age)), age)
         == if Keepable(r) && Records(r) != [] && FloorTtl(r).value > age then Some(FloorTtl(r).value - age) else None
  {
    var c := Corrected(r, age);
    assert Records(Presented(q, c)) == Records(c);
    assert Negative(Presented(q, c)) == Negative(c);
    assert NoSuchRecord(r) <==> Negative(r);
    KeptForTheCorrectedMinimum(r, age);
    SoaExists(r.authorities);
    FloorIsLeast(r);
  }

  /** A fetch stores the reply of the attempt it used exactly if that is keepable and its
      least TTL exceeds the Age, and for exactly the difference; it fits, and has an
      encoding. */
  lemma StoredExactly(codec: Codec, q: Message, attempts: seq<Attempt>, now: nat, k: nat)
    requires UsesCache(codec, q) && Used(q, attempts, k)
    ensures OpOf(codec, Fetch(q, attempts, now)).Some?
    ensures var r, age := attempts[k].upstream, attempts[k].age;
      var key, wire := codec.encode(q.(id := 0)).value, codec.encode(FromUpstream(q, attempts).message);
      Stores(codec, OpOf(codec, Fetch(q, attempts, now)).value) ==
        if Keepable(r) && Records(r) != [] && FloorTtl(r).value > age && wire.Some? && |key| + |wire.value| <= BYTES
        then Some(Entry(key, wire.value, now, (FloorTtl(r).value - age) * SECOND))
        else None
  {
    var used := RepliesToTheQuestion(q, attempts);
    UsedOnce(q, attempts, k, used.value);
    var first := FirstIsUsed(q, attempts);
    UsedOnce(q, attempts, k, first.value);
    KeptAsPresented(q, attempts[k].upstream, attempts[k].age);
  }

  // ----- what is left of it when it is served from the cache -----

  /** Every TTL is the upstream's, limited as above, less the Age and the whole seconds in
      the cache; none has run out. */
  ghost predicate LeftOver(r: Message, age: nat, seconds: nat, served: Message) {
    && |served.answers| == |r.answers| && |served.authorities| == |r.authorities| && |served.additionals| == |r.additionals|
    && (forall i :: 0 <= i < |r.answers| ==>
          served.answers[i] == r.answers[i].(ttl := served.answers[i].ttl)
          && served.answers[i].ttl + age + seconds == r.answers[i].ttl && served.answers[i].ttl >= 1)
    && (forall i :: 0 <= i < |r.authorities| ==>
          served.authorities[i] == r.authorities[i].(ttl := served.authorities[i].ttl)
          && served.authorities[i].ttl + age + seconds == Limit(r, r.authorities[i]) && served.authorities[i].ttl >= 1)
    && (forall i :: 0 <= i < |r.additionals| ==>
          served.additionals[i] == r.additionals[i].(ttl := served.additionals[i].ttl)
          && served.additionals[i].ttl + age + seconds == r.additionals[i].ttl && served.additionals[i].ttl >= 1)
  }

  lemma RecordsOf(m: Message)
    ensures forall i :: 0 <= i < |m.answers| ==> Records(m)[i] == m.answers[i]
    ensures forall i :: 0 <= i < |m.authorities| ==> Records(m)[|m.answers| + i] == m.authorities[i]
    ensures forall i :: 0 <= i < |m.additionals| ==> Records(m)[|m.answers| + |m.authorities| + i] == m.additionals[i]
  {
  }

  /** One section: aged records of which none has reached zero. */
  lemma AgedExactly(before: seq<Record>, after: seq<Record>, seconds: nat, i: nat)
    requires after == AgedRecords(before, seconds) && i < |before| && after[i].ttl >= 1
    ensures after[i] == before[i].(ttl := after[i].ttl) && after[i].ttl + seconds == before[i].ttl
  {
  }

  lemma NoneHasRunOut(stored: Message, storedAt: nat, now: nat, served: Message)
    requires Serves(stored, storedAt, now, served)
    ensures forall i :: 0 <= i < |served.answers| ==> served.answers[i].ttl >= 1
    ensures forall i :: 0 <= i < |served.authorities| ==> served.authorities[i].ttl >= 1
    ensures forall i :: 0 <= i < |served.additionals| ==> served.additionals[i].ttl >= 1
  {
    RecordsOf(served);
    forall i | 0 <= i < |served.answers| ensures served.answers[i].ttl >= 1 {
      assert Records(served)[i].ttl >= 1;
    }
    forall i | 0 <= i < |served.authorities| ensures served.authorities[i].ttl >= 1 {
      assert Records(served)[|served.answers| + i].ttl >= 1;
    }
    forall i | 0 <= i < |served.additionals| ensures served.additionals[i].ttl >= 1 {
      assert Records(served)[|served.answers| + |served.authorities| + i].ttl >= 1;
    }
  }

  lemma ServesTheRest(q: Message, r: Message, age: nat, reply: Message, storedAt: nat, now: nat, served: Message)
    requires Replies(q, r, age, reply) && Serves(reply, storedAt, now, served)
    ensures LeftOver(r, age, (if now >= storedAt then now - storedAt else 0) / SECOND, served)
  {
    var seconds := (if now >= storedAt then now - storedAt else 0) / SECOND;
    NoneHasRunOut(reply, storedAt, now, served);
    forall i | 0 <= i < |r.answers| ensures served.answers[i].ttl + age + seconds == r.answers[i].ttl {
      AgedExactly(reply.answers, served.answers, seconds, i);
    }
    forall i | 0 <= i < |r.authorities| ensures served.authorities[i].ttl + age + seconds == Limit(r, r.authorities[i]) {
      AgedExactly(reply.authorities, served.authorities, seconds, i);
    }
    forall i | 0 <= i < |r.additionals| ensures served.additionals[i].ttl + age + seconds == r.additionals[i].ttl {
      AgedExactly(reply.additionals, served.additionals, seconds, i);
    }
  }

  /** End to end: what is served from the cache are the records of one endpoint's answer to
      the same request, each with its TTL less the Age and the time since. */
  lemma CachedTtlsAreExact(codec: Codec, moves: seq<Move>, q: Message, now: nat) returns (j: nat, k: nat)
    requires Faithful(codec)
    requires var reply := FirstReply(CacheAfter(codec, moves), codec, q, now); reply.Some? && reply.value.Cached?
    ensures j < |moves| && moves[j].Fetch? && moves[j].request.(id := 0) == q.(id := 0)
    ensures Used(moves[j].request, moves[j].attempts, k)
    ensures LeftOver(moves[j].attempts[k].upstream, moves[j].attempts[k].age,
                     (if now >= moves[j].now then now - moves[j].now else 0) / SECOND,
                     FirstReply(CacheAfter(codec, moves), codec, q, now).value.message)
  {
    j := CachedRepliesAreTheLatest(codec, moves, q, now);
    var asked := moves[j].request;
    var used := RepliesToTheQuestion(asked, moves[j].attempts);
    k := used.value;
    var answer := moves[j].attempts[k];
    var served := FirstReply(CacheAfter(codec, moves), codec, q, now).value.message;
    ServesTheRest(asked, answer.upstream, answer.age, FromUpstream(asked, moves[j].attempts).message, moves[j].now, now,
                  served.(id := asked.id));
  }
}
