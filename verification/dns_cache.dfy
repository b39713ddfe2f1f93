/** The full-message cache: a queue in order of use with an entry and a byte budget.
    Proved over every run of operations: exact accounting within both budgets, order
    of use, and that a hit is the message last stored under its key with only its
    TTLs aged. Instants are nanoseconds; the wire codec is a parameter of which
    only faithfulness is assumed. */
module DnsCache {
  import opened Common
  import opened DnsMessages

  const ENTRIES: nat := 256
  const BYTES: nat := 4 * 1024 * 1024
  const SECOND: nat := 1_000_000_000

  /** Encoding may fail; decoding an encoded message returns it. */
  datatype Codec = Codec(encode: Message -> Option<seq<byte>>, decode: seq<byte> -> Option<Message>)

  ghost predicate Faithful(codec: Codec) {
    forall m :: codec.encode(m).Some? ==> codec.decode(codec.encode(m).value) == Some(m)
  }

  datatype Entry = Entry(key: seq<byte>, wire: seq<byte>, inserted: nat, lifetime: nat)

  datatype Cache = Cache(entries: seq<Entry>, bytes: int)

  const EMPTY := Cache([], 0)

  function Size(e: Entry): nat {
    |e.key| + |e.wire|
  }

  function TotalSize(entries: seq<Entry>): nat {
    if entries == [] then 0 else Size(entries[0]) + TotalSize(entries[1..])
  }

  /** Index of the entry under a key, or the length. */
  function Find(entries: seq<Entry>, key: seq<byte>): (i: nat)
    ensures i <= |entries|
    ensures i < |entries| ==> entries[i].key == key
    ensures forall k :: 0 <= k < i ==> entries[k].key != key
  {
    if entries == [] || entries[0].key == key then 0 else 1 + Find(entries[1..], key)
  }

  function Remove(c: Cache, i: nat): Cache
    requires i < |c.entries|
  {
    Cache(c.entries[..i] + c.entries[i + 1..], c.bytes - Size(c.entries[i]))
  }

  function Append(c: Cache, e: Entry): Cache {
    Cache(c.entries + [e], c.bytes + Size(e))
  }

  function Elapsed(e: Entry, now: nat): nat {
    if now >= e.inserted then now - e.inserted else 0
  }

  function WholeSeconds(elapsed: nat): nat {
    Min(elapsed / SECOND, U32_LIMIT - 1)
  }

  /** A lookup moves a live entry to the end of the queue and drops a dead one. */
  function Lookup(c: Cache, codec: Codec, key: seq<byte>, now: nat): (Cache, Option<Message>) {
    var i := Find(c.entries, key);
    if i == |c.entries| then (c, None) else
    var e, rest := c.entries[i], Remove(c, i);
    if Elapsed(e, now) >= e.lifetime || codec.decode(e.wire).None? then (rest, None)
    else (Append(rest, e), Some(Aged(codec.decode(e.wire).value, WholeSeconds(Elapsed(e, now)))))
  }

  /** The entry a response would become, if it may be kept at all. */
  function NewEntry(codec: Codec, key: seq<byte>, response: Message, httpAge: u32, now: nat): (e: Option<Entry>)
    ensures e.Some? ==> e.value.key == key && Size(e.value) <= BYTES && e.value.inserted == now
  {
    var keep, wire := KeepSeconds(response, httpAge), codec.encode(response);
    if keep.None? || wire.None? || |key| + |wire.value| > BYTES then None
    else Some(Entry(key, wire.value, now, keep.value * SECOND))
  }

  predicate Full(c: Cache, size: nat) {
    |c.entries| >= ENTRIES || c.bytes + size > BYTES
  }

  /** Drop from the front until the new entry fits. */
  function Evict(c: Cache, size: nat): Cache
    decreases |c.entries|
  {
    if Full(c, size) && c.entries != [] then Evict(Remove(c, 0), size) else c
  }

  function WithoutKey(c: Cache, key: seq<byte>): Cache {
    var i := Find(c.entries, key);
    if i < |c.entries| then Remove(c, i) else c
  }

  function Store(c: Cache, codec: Codec, key: seq<byte>, response: Message, httpAge: u32, now: nat): Cache {
    var e := NewEntry(codec, key, response, httpAge, now);
    if e.None? then c else Append(Evict(WithoutKey(c, key), Size(e.value)), e.value)
  }

  // ----- accounting -----

  ghost predicate DistinctKeys(entries: seq<Entry>) {
    forall i, j :: 0 <= i < j < |entries| ==> entries[i].key != entries[j].key
  }

  /** Every record of the stored message outlives the entry. */
  ghost predicate Sound(codec: Codec, e: Entry) {
    && codec.decode(e.wire).Some?
    && forall i :: 0 <= i < |Records(codec.decode(e.wire).value)| ==>
         e.lifetime <= Records(codec.decode(e.wire).value)[i].ttl * SECOND
  }

  ghost predicate Accounted(c: Cache) {
    DistinctKeys(c.entries) && c.bytes == TotalSize(c.entries)
  }

  ghost predicate WellFormed(c: Cache) {
    Accounted(c) && |c.entries| <= ENTRIES && c.bytes <= BYTES
  }

  lemma {:induction false} TotalSizeSplit(a: seq<Entry>, b: seq<Entry>)
    ensures TotalSize(a + b) == TotalSize(a) + TotalSize(b)
  {
    if a == [] {
      assert a + b == b;
    } else {
      TotalSizeSplit(a[1..], b);
      assert (a + b)[1..] == a[1..] + b;
    }
  }

  lemma RemoveKeeps(c: Cache, i: nat)
    requires Accounted(c) && i < |c.entries|
    ensures Accounted(Remove(c, i))
    ensures Remove(c, i).bytes == c.bytes - Size(c.entries[i])
    ensures forall e :: e in Remove(c, i).entries ==> e in c.entries && e.key != c.entries[i].key
  {
    TotalSizeWithout(c.entries, i);
    RestIsDistinct(c.entries, i);
  }

  lemma TotalSizeWithout(entries: seq<Entry>, i: nat)
    requires i < |entries|
    ensures TotalSize(entries[..i] + entries[i + 1..]) == TotalSize(entries) - Size(entries[i])
  {
    var front, e, back := entries[..i], entries[i], entries[i + 1..];
    assert entries == front + ([e] + back);
    TotalSizeSplit(front, [e] + back);
    TotalSizeSplit([e], back);
    TotalSizeSplit(front, back);
    assert TotalSize([e]) == Size(e);
  }

  lemma RestIsDistinct(entries: seq<Entry>, i: nat)
    requires DistinctKeys(entries) && i < |entries|
    ensures var rest := entries[..i] + entries[i + 1..];
      DistinctKeys(rest) && forall e :: e in rest ==> e in entries && e.key != entries[i].key
  {
    var rest := entries[..i] + entries[i + 1..];
    assert forall k :: 0 <= k < |rest| ==> rest[k] == entries[if k < i then k else k + 1];
  }

  lemma AppendKeeps(c: Cache, e: Entry)
    requires Accounted(c) && forall k :: 0 <= k < |c.entries| ==> c.entries[k].key != e.key
    ensures Accounted(Append(c, e))
  {
    TotalSizeSplit(c.entries, [e]);
    assert TotalSize([e]) == Size(e);
  }

  /** Eviction keeps exactly a suffix, and stops at the first one with room: an entry
      goes if and only if it and everything used after it leave no room. */
  lemma {:induction false} EvictKeepsASuffix(c: Cache, size: nat) returns (dropped: nat)
    requires Accounted(c) && size <= BYTES
    ensures dropped <= |c.entries|
    ensures Evict(c, size) == Cache(c.entries[dropped..], TotalSize(c.entries[dropped..]))
    ensures Accounted(Evict(c, size)) && !Full(Evict(c, size), size)
    ensures forall i :: 0 <= i < |c.entries| ==>
      (i < dropped <==> |c.entries[i..]| >= ENTRIES || TotalSize(c.entries[i..]) + size > BYTES)
    decreases |c.entries|
  {
    if Full(c, size) {
      RemoveKeeps(c, 0);
      var less := EvictKeepsASuffix(Remove(c, 0), size);
      dropped := less + 1;
      var rest := c.entries[1..];
      assert Remove(c, 0).entries == rest;
      assert rest[less..] == c.entries[dropped..];
      forall i | 0 <= i < |c.entries|
        ensures i < dropped <==> |c.entries[i..]| >= ENTRIES || TotalSize(c.entries[i..]) + size > BYTES
      {
        if i == 0 {
          assert c.entries[0..] == c.entries;
        } else {
          assert c.entries[i..] == rest[i - 1..];
        }
      }
    } else {
      dropped := 0;
      assert c.entries[0..] == c.entries;
      SuffixesFit(c, size);
    }
  }

  lemma SuffixesFit(c: Cache, size: nat)
    requires Accounted(c) && !Full(c, size)
    ensures forall i :: 0 <= i < |c.entries| ==> |c.entries[i..]| < ENTRIES && TotalSize(c.entries[i..]) + size <= BYTES
  {
    forall i | 0 <= i < |c.entries| ensures TotalSize(c.entries[i..]) + size <= BYTES {
      TotalSizeSplit(c.entries[..i], c.entries[i..]);
      assert c.entries == c.entries[..i] + c.entries[i..];
    }
  }

  lemma WithoutKeyKeeps(c: Cache, key: seq<byte>)
    requires Accounted(c)
    ensures var w := WithoutKey(c, key);
      && Accounted(w)
      && (forall e :: e in w.entries <==> e in c.entries && e.key != key)
  {
    var i := Find(c.entries, key);
    if i < |c.entries| {
      RemoveKeeps(c, i);
      var w := Remove(c, i).entries;
      forall e | e in c.entries && e.key != key ensures e in w {
        var k :| 0 <= k < |c.entries| && c.entries[k] == e;
        assert w[if k < i then k else k - 1] == e;
      }
    }
  }

  lemma LookupKeeps(c: Cache, codec: Codec, key: seq<byte>, now: nat)
    requires WellFormed(c)
    ensures WellFormed(Lookup(c, codec, key, now).0)
    ensures forall e :: e in Lookup(c, codec, key, now).0.entries ==> e in c.entries
  {
    var i := Find(c.entries, key);
    if i < |c.entries| {
      RemoveKeeps(c, i);
      var rest := Remove(c, i);
      forall k | 0 <= k < |rest.entries| ensures rest.entries[k].key != key {
        assert rest.entries[k] in rest.entries;
      }
      AppendKeeps(rest, c.entries[i]);
    }
  }

  lemma StoreKeeps(c: Cache, codec: Codec, key: seq<byte>, response: Message, httpAge: u32, now: nat)
    requires WellFormed(c)
    ensures var r := Store(c, codec, key, response, httpAge, now);
      && WellFormed(r)
      && (forall e :: e in r.entries ==>
            (e in c.entries && (e.key == key ==> NewEntry(codec, key, response, httpAge, now).None?))
            || Some(e) == NewEntry(codec, key, response, httpAge, now))
  {
    var entry := NewEntry(codec, key, response, httpAge, now);
    if entry.Some? {
      var w, e := WithoutKey(c, key), entry.value;
      WithoutKeyKeeps(c, key);
      var dropped := EvictKeepsASuffix(w, Size(e));
      var room := Evict(w, Size(e));
      forall k | 0 <= k < |room.entries| ensures room.entries[k] in w.entries && room.entries[k].key != key {
        assert room.entries[k] == w.entries[dropped + k];
      }
      AppendKeeps(room, e);
      forall x | x in Append(room, e).entries && x != e ensures x in c.entries && x.key != key {
        assert x in room.entries;
      }
    }
  }

  // ----- runs -----

  datatype Op =
    | Ask(key: seq<byte>, now: nat)
    | Keep(key: seq<byte>, response: Message, httpAge: u32, now: nat)

  function Step(c: Cache, codec: Codec, op: Op): Cache {
    match op
    case Ask(key, now) => Lookup(c, codec, key, now).0
    case Keep(key, response, httpAge, now) => Store(c, codec, key, response, httpAge, now)
  }

  function After(codec: Codec, ops: seq<Op>): Cache {
    if ops == [] then EMPTY else Step(After(codec, ops[..|ops| - 1]), codec, ops[|ops| - 1])
  }

  /** The entry an operation stores, if it stores one. */
  function Stores(codec: Codec, op: Op): Option<Entry> {
    if op.Keep? then NewEntry(codec, op.key, op.response, op.httpAge, op.now) else None
  }

  /** The simple cache that this one stands in for: an unbounded table that forgets
      nothing and keeps the latest entry stored under each key. */
  function Table(codec: Codec, ops: seq<Op>): map<seq<byte>, Entry> {
    if ops == [] then map[] else
    var before, stored := Table(codec, ops[..|ops| - 1]), Stores(codec, ops[|ops| - 1]);
    if stored.Some? then before[stored.value.key := stored.value] else before
  }

  /** The budgets hold and the bytes are exact after any run; whatever is in the
      cache is what the table has under that key. */
  lemma {:induction false} RunsAreWellFormed(codec: Codec, ops: seq<Op>)
    ensures WellFormed(After(codec, ops))
    ensures forall e :: e in After(codec, ops).entries ==> e.key in Table(codec, ops) && Table(codec, ops)[e.key] == e
  {
    if ops != [] {
      var before, op := ops[..|ops| - 1], ops[|ops| - 1];
      RunsAreWellFormed(codec, before);
      match op
      case Ask(key, now) => LookupKeeps(After(codec, before), codec, key, now);
      case Keep(key, response, httpAge, now) => StoreKeeps(After(codec, before), codec, key, response, httpAge, now);
    }
  }

  /** The operation behind a row of the table: the latest one that stored its key. */
  ghost predicate StoredAt(codec: Codec, ops: seq<Op>, i: nat, key: seq<byte>, e: Entry) {
    && i < |ops|
    && ops[i].key == key && Stores(codec, ops[i]) == Some(e)
    && forall j :: i < j < |ops| && ops[j].key == key ==> Stores(codec, ops[j]).None?
  }

  lemma {:induction false} TableRowHasAnOp(codec: Codec, ops: seq<Op>, key: seq<byte>) returns (i: nat)
    requires key in Table(codec, ops)
    ensures StoredAt(codec, ops, i, key, Table(codec, ops)[key])
  {
    var n := |ops| - 1;
    var stored := Stores(codec, ops[n]);
    if stored.Some? && stored.value.key == key {
      i := n;
    } else {
      i := TableRowHasAnOp(codec, ops[..n], key);
      assert ops[..n][i] == ops[i];
      assert forall j :: i < j < n ==> ops[..n][j] == ops[j];
    }
  }

  /** What a client sees of a hit: one stored message, aged. */
  ghost predicate Serves(stored: Message, storedAt: nat, now: nat, served: Message) {
    var age := (if now >= storedAt then now - storedAt else 0) / SECOND;
    && served == Aged(stored, age)
    && |Records(served)| == |Records(stored)|
    && forall i :: 0 <= i < |Records(stored)| ==>
         var before, after := Records(stored)[i], Records(served)[i];
         && after == before.(ttl := after.ttl)
         && after.ttl == before.ttl - age
         && after.ttl >= 1
         && (now >= storedAt ==> now + after.ttl * SECOND < storedAt + before.ttl * SECOND + SECOND)
  }

  /** The arithmetic of a hit: nothing saturates, no TTL reaches zero, and the copy
      expires less than a second after the original would have. */
  lemma ServedTtls(codec: Codec, e: Entry, stored: Message, now: nat)
    requires codec.decode(e.wire) == Some(stored) && Sound(codec, e) && Elapsed(e, now) < e.lifetime
    ensures Records(stored) != [] ==> Elapsed(e, now) / SECOND < U32_LIMIT
    ensures Records(stored) != [] ==> Serves(stored, e.inserted, now, Aged(stored, WholeSeconds(Elapsed(e, now))))
  {
    var elapsed := Elapsed(e, now);
    var age := elapsed / SECOND;
    var served := Aged(stored, WholeSeconds(elapsed));
    assert Records(served) == AgedRecords(Records(stored), WholeSeconds(elapsed));
    if Records(stored) != [] {
      forall i | 0 <= i < |Records(stored)|
        ensures age < Records(stored)[i].ttl
      {
        assert elapsed < Records(stored)[i].ttl * SECOND;
      }
      assert Records(stored)[0].ttl < U32_LIMIT;
    }
  }

  lemma StoredIsSound(codec: Codec, key: seq<byte>, response: Message, httpAge: u32, now: nat)
    requires Faithful(codec) && NewEntry(codec, key, response, httpAge, now).Some?
    ensures var e := NewEntry(codec, key, response, httpAge, now).value;
      codec.decode(e.wire) == Some(response) && Sound(codec, e) && Records(response) != []
  {
    assert codec.encode(response).Some?;
    forall i | 0 <= i < |Records(response)| ensures KeepSeconds(response, httpAge).value <= Records(response)[i].ttl {
      KeptNoLongerThanAnyRecord(response, httpAge, i);
    }
  }

  /** Transparency: after any run, a hit is the response that the latest storing
      operation under that key kept, with nothing but its TTLs changed, each of them
      by the whole seconds since then. */
  lemma HitsAreTransparent(codec: Codec, ops: seq<Op>, key: seq<byte>, now: nat) returns (i: nat)
    requires Faithful(codec) && Lookup(After(codec, ops), codec, key, now).1.Some?
    ensures i < |ops| && ops[i].Keep? && ops[i].key == key && Stores(codec, ops[i]).Some?
    ensures forall j :: i < j < |ops| && ops[j].key == key ==> Stores(codec, ops[j]).None?
    ensures Serves(ops[i].response, ops[i].now, now, Lookup(After(codec, ops), codec, key, now).1.value)
  {
    var c := After(codec, ops);
    var k := Find(c.entries, key);
    var e := c.entries[k];
    RunsAreWellFormed(codec, ops);
    assert e in c.entries;
    i := TableRowHasAnOp(codec, ops, key);
    var op := ops[i];
    StoredIsSound(codec, key, op.response, op.httpAge, op.now);
    ServedTtls(codec, e, op.response, now);
  }

  lemma {:induction false} EntriesDecode(codec: Codec, ops: seq<Op>, e: Entry) returns (i: nat)
    requires Faithful(codec) && e in After(codec, ops).entries
    ensures StoredAt(codec, ops, i, e.key, e) && codec.decode(e.wire) == Some(ops[i].response)
  {
    RunsAreWellFormed(codec, ops);
    i := TableRowHasAnOp(codec, ops, e.key);
    StoredIsSound(codec, e.key, ops[i].response, ops[i].httpAge, ops[i].now);
  }

  /** After any run, a lookup hits exactly if the cache holds an entry under the key, and
      the seconds for which its response may be kept have not passed since it was stored. */
  lemma HitExactly(codec: Codec, ops: seq<Op>, key: seq<byte>, now: nat)
    requires Faithful(codec)
    ensures Lookup(After(codec, ops), codec, key, now).1.Some? <==>
      exists i: nat, e :: e in After(codec, ops).entries && StoredAt(codec, ops, i, key, e)
                     && now < ops[i].now + KeepSeconds(ops[i].response, ops[i].httpAge).value * SECOND
  {
    var c := After(codec, ops);
    var k := Find(c.entries, key);
    if k < |c.entries| {
      var i := EntriesDecode(codec, ops, c.entries[k]);
      assert StoredAt(codec, ops, i, key, c.entries[k]);
      RunsAreWellFormed(codec, ops);
      forall e | e in c.entries && e.key == key ensures e == c.entries[k] {
      }
    }
  }

  /** A lookup takes an entry out exactly if it is the one asked for and its time has passed. */
  lemma LookupDropsOnlyTheDead(codec: Codec, ops: seq<Op>, key: seq<byte>, now: nat, e: Entry)
    requires Faithful(codec) && e in After(codec, ops).entries
    ensures e !in Lookup(After(codec, ops), codec, key, now).0.entries <==> e.key == key && now >= e.inserted + e.lifetime
  {
    var c := After(codec, ops);
    RunsAreWellFormed(codec, ops);
    var stored := EntriesDecode(codec, ops, e);
    var i := Find(c.entries, key);
    if i < |c.entries| {
      RemoveKeeps(c, i);
      WithoutKeyKeeps(c, key);
      assert e.key == key ==> e == c.entries[i];
      LifetimeIsPositive(codec, ops[stored], e);
    }
  }

  lemma LifetimeIsPositive(codec: Codec, op: Op, e: Entry)
    requires Stores(codec, op) == Some(e)
    ensures e.lifetime > 0
  {
  }

  // ----- order of use -----

  /** The keys that each operation used, in order: hits and stored responses. */
  function Uses(codec: Codec, ops: seq<Op>): seq<seq<byte>> {
    if ops == [] then [] else
    var before, op := ops[..|ops| - 1], ops[|ops| - 1];
    Uses(codec, before) + if UsesKey(After(codec, before), codec, op) then [op.key] else []
  }

  predicate UsesKey(c: Cache, codec: Codec, op: Op) {
    match op
    case Ask(key, now) => Lookup(c, codec, key, now).1.Some?
    case Keep(_, _, _, _) => Stores(codec, op).Some?
  }

  /** One more than the position of the last use, or zero. */
  function LastUse(uses: seq<seq<byte>>, key: seq<byte>): (at: nat)
    ensures at <= |uses|
    ensures at > 0 ==> uses[at - 1] == key
    ensures forall k :: at <= k < |uses| ==> uses[k] != key
  {
    if uses == [] then 0
    else if uses[|uses| - 1] == key then |uses|
    else LastUse(uses[..|uses| - 1], key)
  }

  ghost predicate InOrderOfUse(entries: seq<Entry>, uses: seq<seq<byte>>) {
    && (forall i :: 0 <= i < |entries| ==> LastUse(uses, entries[i].key) > 0)
    && (forall i, j :: 0 <= i < j < |entries| ==> LastUse(uses, entries[i].key) < LastUse(uses, entries[j].key))
  }

  lemma AppendInOrder(entries: seq<Entry>, e: Entry, uses: seq<seq<byte>>)
    requires InOrderOfUse(entries, uses) && forall k :: 0 <= k < |entries| ==> entries[k].key != e.key
    ensures InOrderOfUse(entries + [e], uses + [e.key])
  {
    var more := uses + [e.key];
    assert more[..|more| - 1] == uses;
    forall k | 0 <= k < |entries| ensures LastUse(more, entries[k].key) == LastUse(uses, entries[k].key) {
    }
  }

  lemma RemoveInOrder(c: Cache, i: nat, uses: seq<seq<byte>>)
    requires InOrderOfUse(c.entries, uses) && i < |c.entries|
    ensures InOrderOfUse(Remove(c, i).entries, uses)
  {
    var rest := Remove(c, i).entries;
    forall k | 0 <= k < |rest| ensures rest[k] == c.entries[if k < i then k else k + 1] {
    }
  }

  lemma LookupInOrder(c: Cache, codec: Codec, key: seq<byte>, now: nat, uses: seq<seq<byte>>)
    requires Accounted(c) && InOrderOfUse(c.entries, uses)
    ensures var (after, hit) := Lookup(c, codec, key, now);
      InOrderOfUse(after.entries, if hit.Some? then uses + [key] else uses)
  {
    var i := Find(c.entries, key);
    if i < |c.entries| {
      RemoveInOrder(c, i, uses);
      RemoveKeeps(c, i);
      var rest := Remove(c, i).entries;
      forall k | 0 <= k < |rest| ensures rest[k].key != key {
        assert rest[k] in rest;
      }
      AppendInOrder(rest, c.entries[i], uses);
    }
  }

  lemma StoreInOrder(c: Cache, e: Entry, uses: seq<seq<byte>>)
    requires Accounted(c) && InOrderOfUse(c.entries, uses) && Size(e) <= BYTES
    ensures InOrderOfUse(Append(Evict(WithoutKey(c, e.key), Size(e)), e).entries, uses + [e.key])
  {
    var i := Find(c.entries, e.key);
    if i < |c.entries| {
      RemoveInOrder(c, i, uses);
    }
    WithoutKeyKeeps(c, e.key);
    var w := WithoutKey(c, e.key);
    var dropped := EvictKeepsASuffix(w, Size(e));
    var kept := w.entries[dropped..];
    forall k | 0 <= k < |kept| ensures kept[k].key != e.key {
      assert w.entries[dropped + k] in w.entries;
    }
    AppendInOrder(kept, e, uses);
  }

  /** The queue is the entries in order of their last use, oldest first. */
  lemma {:induction false} QueueIsInOrderOfUse(codec: Codec, ops: seq<Op>)
    ensures InOrderOfUse(After(codec, ops).entries, Uses(codec, ops))
  {
    if ops != [] {
      var before, op := ops[..|ops| - 1], ops[|ops| - 1];
      var c, uses := After(codec, before), Uses(codec, before);
      QueueIsInOrderOfUse(codec, before);
      RunsAreWellFormed(codec, before);
      assert uses + [] == uses;
      if op.Ask? {
        LookupInOrder(c, codec, op.key, op.now, uses);
      } else if Stores(codec, op).Some? {
        StoreInOrder(c, Stores(codec, op).value, uses);
      }
    }
  }

  lemma SuffixOfDistinct(entries: seq<Entry>, dropped: nat, i: nat)
    requires DistinctKeys(entries) && dropped <= |entries| && i < |entries|
    ensures entries[i] in entries[dropped..] <==> i >= dropped
  {
    var kept := entries[dropped..];
    if i >= dropped {
      assert kept[i - dropped] == entries[i];
    }
  }

  /** An entry is evicted if and only if it, the entries used after it and the new one
      together exceed the entry budget or the byte budget. */
  lemma EvictedOnlyForRoom(c: Cache, codec: Codec, op: Op, i: nat)
    requires WellFormed(c) && Stores(codec, op).Some? && i < |WithoutKey(c, op.key).entries|
    ensures var others, e := WithoutKey(c, op.key).entries, Stores(codec, op).value;
      others[i] !in Step(c, codec, op).entries
      <==> |others[i..]| + 1 > ENTRIES || TotalSize(others[i..]) + Size(e) > BYTES
    ensures var entries := Step(c, codec, op).entries;
      entries != [] && Stores(codec, op) == Some(entries[|entries| - 1])
  {
    var e, w := Stores(codec, op).value, WithoutKey(c, op.key);
    WithoutKeyKeeps(c, op.key);
    var dropped := EvictKeepsASuffix(w, Size(e));
    SuffixOfDistinct(w.entries, dropped, i);
    assert w.entries[i] in w.entries;
    assert Step(c, codec, op).entries == w.entries[dropped..] + [e];
  }

  class MessageCache {
    const codec: Codec
    var entries: seq<Entry>
    var bytes: int

    ghost function State(): Cache
      reads this
    {
      Cache(entries, bytes)
    }

    constructor (codec: Codec)
      ensures this.codec == codec && State() == EMPTY && WellFormed(State())
    {
      this.codec := codec;
      entries, bytes := [], 0;
    }

    method Position(key: seq<byte>) returns (i: nat)
      ensures i == Find(entries, key)
    {
      i := 0;
      while i < |entries| && entries[i].key != key
        invariant i <= |entries|
        invariant forall k :: 0 <= k < i ==> entries[k].key != key
      {
        i := i + 1;
      }
      FindIsTheFirst(entries, key, i);
    }

    method Get(key: seq<byte>, now: nat) returns (hit: Option<Message>)
      requires WellFormed(State())
      modifies this
      ensures (State(), hit) == Lookup(old(State()), codec, key, now)
      ensures WellFormed(State())
    {
      LookupKeeps(State(), codec, key, now);
      var i := Position(key);
      if i == |entries| { return None; }
      var e := entries[i];
      entries := entries[..i] + entries[i + 1..];
      bytes := bytes - (|e.key| + |e.wire|);
      var elapsed := if now >= e.inserted then now - e.inserted else 0;
      if elapsed >= e.lifetime { return None; }
      var parsed := codec.decode(e.wire);
      if parsed.None? { return None; }
      var message := Age(parsed.value, Min(elapsed / SECOND, U32_LIMIT - 1));
      bytes := bytes + (|e.key| + |e.wire|);
      entries := entries + [e];
      hit := Some(message);
    }

    /** The eviction loop ends, and never takes from an empty queue. */
    method MakeRoom(size: nat)
      requires Accounted(State()) && size <= BYTES
      modifies this
      ensures State() == Evict(old(State()), size)
      ensures Accounted(State()) && !Full(State(), size)
    {
      while |entries| >= ENTRIES || bytes + size > BYTES
        invariant Accounted(State())
        invariant Evict(State(), size) == Evict(old(State()), size)
        decreases |entries|
      {
        assert entries != [];
        RemoveKeeps(State(), 0);
        var oldest := entries[0];
        assert Remove(State(), 0) == Cache(entries[1..], bytes - Size(oldest));
        entries := entries[1..];
        bytes := bytes - (|oldest.key| + |oldest.wire|);
      }
    }

    method Insert(key: seq<byte>, response: Message, httpAge: u32, now: nat)
      requires WellFormed(State())
      modifies this
      ensures State() == Store(old(State()), codec, key, response, httpAge, now)
      ensures WellFormed(State())
    {
      StoreKeeps(State(), codec, key, response, httpAge, now);
      var keep := KeepSeconds(response, httpAge);
      if keep.None? { return; }
      var wire := codec.encode(response);
      if wire.None? { return; }
      if |key| + |wire.value| > BYTES { return; }
      Replace(Entry(key, wire.value, now, keep.value * SECOND));
    }

    /** Puts an entry last, in place of any under its key. */
    method Replace(e: Entry)
      requires Accounted(State()) && Size(e) <= BYTES
      modifies this
      ensures State() == Append(Evict(WithoutKey(old(State()), e.key), Size(e)), e)
    {
      ghost var others := WithoutKey(State(), e.key);
      var size := |e.key| + |e.wire|;
      RemoveKey(e.key);
      MakeRoom(size);
      assert State() == Evict(others, Size(e));
      bytes := bytes + size;
      entries := entries + [e];
    }

    method RemoveKey(key: seq<byte>)
      requires Accounted(State())
      modifies this
      ensures State() == WithoutKey(old(State()), key) && Accounted(State())
    {
      WithoutKeyKeeps(State(), key);
      var i := Position(key);
      if i < |entries| {
        var stale := entries[i];
        entries := entries[..i] + entries[i + 1..];
        bytes := bytes - (|stale.key| + |stale.wire|);
      }
    }
  }

  lemma {:induction false} FindIsTheFirst(entries: seq<Entry>, key: seq<byte>, i: nat)
    requires i <= |entries| && (i < |entries| ==> entries[i].key == key)
    requires forall k :: 0 <= k < i ==> entries[k].key != key
    ensures Find(entries, key) == i
  {
    if i > 0 {
      FindIsTheFirst(entries[1..], key, i - 1);
    }
  }
}
