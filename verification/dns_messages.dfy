/** DNS messages as far as the cache looks at them, their ageing, how long a
    response may be kept (section 5 of RFC 2308), and the correction for the HTTP
    Age of a DNS-over-HTTPS response (section 5.1 of RFC 8484). */
module DnsMessages {
  import opened Common

  type u32 = n: int | 0 <= n < 0x1_0000_0000

  datatype RData = Soa(minimum: u32) | Data(content: seq<byte>)

  datatype Record = Record(name: seq<byte>, rtype: nat, ttl: u32, data: RData)

  datatype Query = Query(name: seq<byte>, qtype: nat)

  datatype ResponseCode = NoError | FormErr | ServFail | NXDomain | NotImp | Refused | BadVers | OtherCode(code: nat)

  datatype Edns = Edns(version: nat, dnssecOk: bool, hasOptions: bool, maxPayload: nat)

  datatype Message = Message(
    id: nat,
    isResponse: bool,
    opCode: nat,
    rcode: ResponseCode,
    truncation: bool,
    authenticData: bool,
    recursionDesired: bool,
    recursionAvailable: bool,
    checkingDisabled: bool,
    signed: bool,
    edns: Option<Edns>,
    queries: seq<Query>,
    answers: seq<Record>,
    authorities: seq<Record>,
    additionals: seq<Record>)

  function Records(m: Message): seq<Record> {
    m.answers + m.authorities + m.additionals
  }

  function SaturatingSub(a: u32, b: nat): u32 {
    if a >= b then a - b else 0
  }

  function AgedRecord(rr: Record, seconds: nat): Record {
    rr.(ttl := SaturatingSub(rr.ttl, seconds))
  }

  function AgedRecords(rs: seq<Record>, seconds: nat): (aged: seq<Record>)
    ensures |aged| == |rs|
    ensures forall i :: 0 <= i < |rs| ==> aged[i] == AgedRecord(rs[i], seconds)
  {
    seq(|rs|, i requires 0 <= i < |rs| => AgedRecord(rs[i], seconds))
  }

  function Aged(m: Message, seconds: nat): Message {
    m.(answers := AgedRecords(m.answers, seconds),
       authorities := AgedRecords(m.authorities, seconds),
       additionals := AgedRecords(m.additionals, seconds))
  }

  method AgeRecords(rs: seq<Record>, seconds: nat) returns (aged: seq<Record>)
    ensures aged == AgedRecords(rs, seconds)
  {
    aged := rs;
    for i := 0 to |rs|
      invariant |aged| == |rs|
      invariant forall k :: 0 <= k < i ==> aged[k] == AgedRecord(rs[k], seconds)
      invariant forall k :: i <= k < |rs| ==> aged[k] == rs[k]
    {
      aged := aged[i := aged[i].(ttl := SaturatingSub(aged[i].ttl, seconds))];
    }
  }

  method Age(m: Message, seconds: nat) returns (aged: Message)
    ensures aged == Aged(m, seconds)
  {
    var answers := AgeRecords(m.answers, seconds);
    var authorities := AgeRecords(m.authorities, seconds);
    var additionals := AgeRecords(m.additionals, seconds);
    aged := m.(answers := answers, authorities := authorities, additionals := additionals);
  }

  // ----- how long a response may be kept -----

  /** Requests whose answers may be kept: nothing that could change them in ways the
      key does not show. */
  predicate Eligible(m: Message) {
    !m.signed && m.additionals == [] && (m.edns.None? || !m.edns.value.hasOptions)
  }

  predicate Storable(r: Message) {
    && !r.truncation
    && !r.signed
    && (r.edns.None? || !r.edns.value.hasOptions)
    && (r.rcode.NoError? || r.rcode.NXDomain?)
  }

  /** No such name, or no answer of the type that was asked for. */
  predicate Negative(r: Message) {
    r.rcode.NXDomain? || !exists i :: 0 <= i < |r.answers| && r.queries != [] && r.answers[i].rtype == r.queries[0].qtype
  }

  function MinTtl(rs: seq<Record>): Option<u32> {
    if rs == [] then None
    else
      var rest := MinTtl(rs[1..]);
      Some(if rest.Some? && rest.value < rs[0].ttl then rest.value else rs[0].ttl)
  }

  function TtlOrZero(o: Option<u32>): u32 {
    if o.Some? then o.value else 0
  }

  /** The first SOA's limit on a negative answer; its MINIMUM is not yet aged. */
  function SoaLimit(authorities: seq<Record>, httpAge: u32): Option<u32> {
    if authorities == [] then None
    else if authorities[0].data.Soa? then
      Some(LesserTtl(authorities[0].ttl, SaturatingSub(authorities[0].data.minimum, httpAge)))
    else SoaLimit(authorities[1..], httpAge)
  }

  function LesserTtl(a: u32, b: u32): u32 {
    if a <= b then a else b
  }

  /** Seconds the cache keeps a response whose TTLs are already aged, or None. */
  function KeepSeconds(r: Message, httpAge: u32): (seconds: Option<u32>)
    ensures seconds.Some? ==> seconds.value > 0 && Storable(r)
  {
    if !Storable(r) then None else
    var shortest := TtlOrZero(MinTtl(Records(r)));
    if !Negative(r) then (if shortest == 0 then None else Some(shortest))
    else
      var soa := SoaLimit(r.authorities, httpAge);
      if soa.None? then None
      else if LesserTtl(shortest, soa.value) == 0 then None
      else Some(LesserTtl(shortest, soa.value))
  }

  lemma {:induction false} MinTtlIsLower(rs: seq<Record>, i: nat)
    requires i < |rs|
    ensures MinTtl(rs).Some? && MinTtl(rs).value <= rs[i].ttl
  {
    if i > 0 {
      MinTtlIsLower(rs[1..], i - 1);
    }
  }

  /** A kept response has records, and none of them expires before it. */
  lemma KeptNoLongerThanAnyRecord(r: Message, httpAge: u32, i: nat)
    requires KeepSeconds(r, httpAge).Some? && i < |Records(r)|
    ensures KeepSeconds(r, httpAge).value <= Records(r)[i].ttl
  {
    MinTtlIsLower(Records(r), i);
  }

  // ----- the DNS-over-HTTPS correction -----

  /** SOA records of a negative answer are limited by their own MINIMUM. */
  function ClampSoa(rr: Record): Record {
    if rr.data.Soa? then rr.(ttl := LesserTtl(rr.ttl, rr.data.minimum)) else rr
  }

  function ClampedRecords(rs: seq<Record>): (clamped: seq<Record>)
    ensures |clamped| == |rs|
    ensures forall i :: 0 <= i < |rs| ==> clamped[i] == ClampSoa(rs[i])
  {
    seq(|rs|, i requires 0 <= i < |rs| => ClampSoa(rs[i]))
  }

  function Corrected(m: Message, age: u32): Message {
    Aged(if Negative(m) then m.(authorities := ClampedRecords(m.authorities)) else m, age)
  }

  method Correct(m: Message, age: u32) returns (r: Message)
    ensures r == Corrected(m, age)
  {
    var negative := m.rcode.NXDomain?;
    if !negative {
      negative := true;
      for i := 0 to |m.answers|
        invariant negative <==> !exists k :: 0 <= k < i && m.queries != [] && m.answers[k].rtype == m.queries[0].qtype
      {
        if m.queries != [] && m.answers[i].rtype == m.queries[0].qtype {
          negative := false;
        }
      }
    }
    var authorities := m.authorities;
    if negative {
      for i := 0 to |authorities|
        invariant |authorities| == |m.authorities|
        invariant forall k :: 0 <= k < i ==> authorities[k] == ClampSoa(m.authorities[k])
        invariant forall k :: i <= k < |authorities| ==> authorities[k] == m.authorities[k]
      {
        var rr := authorities[i];
        if rr.data.Soa? {
          authorities := authorities[i := rr.(ttl := LesserTtl(rr.ttl, rr.data.minimum))];
        }
      }
      assert authorities == ClampedRecords(m.authorities);
    }
    r := Age(m.(authorities := authorities), age);
  }

  function Lesser(a: Option<u32>, b: Option<u32>): Option<u32> {
    if a.None? then b else if b.None? then a else Some(LesserTtl(a.value, b.value))
  }

  /** The smallest MINIMUM of the SOA records in a section. */
  function MinSoaMinimum(rs: seq<Record>): Option<u32> {
    if rs == [] then None
    else Lesser(if rs[0].data.Soa? then Some(rs[0].data.minimum) else None, MinSoaMinimum(rs[1..]))
  }

  lemma {:induction false} MinTtlAppend(a: seq<Record>, b: seq<Record>)
    ensures MinTtl(a + b) == Lesser(MinTtl(a), MinTtl(b))
  {
    if a == [] {
      assert a + b == b;
    } else {
      MinTtlAppend(a[1..], b);
      assert (a + b)[1..] == a[1..] + b;
    }
  }

  function AgedTtl(o: Option<u32>, age: nat): Option<u32> {
    if o.None? then None else Some(SaturatingSub(o.value, age))
  }

  lemma {:induction false} MinTtlAged(rs: seq<Record>, age: nat)
    ensures MinTtl(AgedRecords(rs, age)) == AgedTtl(MinTtl(rs), age)
  {
    if rs != [] {
      MinTtlAged(rs[1..], age);
      assert AgedRecords(rs, age)[1..] == AgedRecords(rs[1..], age);
    }
  }

  lemma {:induction false} MinTtlClamped(rs: seq<Record>)
    ensures MinTtl(ClampedRecords(rs)) == Lesser(MinTtl(rs), MinSoaMinimum(rs))
  {
    if rs != [] {
      MinTtlClamped(rs[1..]);
      assert ClampedRecords(rs)[1..] == ClampedRecords(rs[1..]);
    }
  }

  lemma MinTtlOfSections(m: Message)
    ensures MinTtl(Records(m)) == Lesser(Lesser(MinTtl(m.answers), MinTtl(m.authorities)), MinTtl(m.additionals))
  {
    MinTtlAppend(m.answers + m.authorities, m.additionals);
    MinTtlAppend(m.answers, m.authorities);
  }

  /** What the corrected TTLs come to: the original minimum, limited for a negative
      answer by every SOA MINIMUM, less the Age. */
  function FloorTtl(m: Message): Option<u32> {
    if Negative(m) then Lesser(MinTtl(Records(m)), MinSoaMinimum(m.authorities)) else MinTtl(Records(m))
  }

  lemma MinTtlOfAged(m: Message, age: nat)
    ensures MinTtl(Records(Aged(m, age))) == AgedTtl(MinTtl(Records(m)), age)
  {
    MinTtlAged(Records(m), age);
    assert Records(Aged(m, age)) == AgedRecords(Records(m), age);
  }

  lemma MinTtlOfClamped(m: Message)
    ensures MinTtl(Records(m.(authorities := ClampedRecords(m.authorities))))
         == Lesser(MinTtl(Records(m)), MinSoaMinimum(m.authorities))
  {
    MinTtlOfSections(m);
    MinTtlOfSections(m.(authorities := ClampedRecords(m.authorities)));
    MinTtlClamped(m.authorities);
  }

  lemma MinTtlCorrected(m: Message, age: u32)
    ensures MinTtl(Records(Corrected(m, age))) == AgedTtl(FloorTtl(m), age)
  {
    var clamped := if Negative(m) then m.(authorities := ClampedRecords(m.authorities)) else m;
    MinTtlOfAged(clamped, age);
    MinTtlOfClamped(m);
  }

  /** After the correction the cache's own SOA limit is some record's TTL already, so
      it never shortens the result. */
  lemma {:induction false} SoaLimitIsRedundant(rs: seq<Record>, age: u32)
    ensures var limit := SoaLimit(AgedRecords(ClampedRecords(rs), age), age);
      && (limit.Some? <==> MinSoaMinimum(rs).Some?)
      && (limit.Some? ==>
            MinTtl(AgedRecords(ClampedRecords(rs), age)).Some?
            && limit.value >= MinTtl(AgedRecords(ClampedRecords(rs), age)).value)
  {
    if rs != [] {
      var done := AgedRecords(ClampedRecords(rs), age);
      assert done[1..] == AgedRecords(ClampedRecords(rs[1..]), age) by {
        assert ClampedRecords(rs)[1..] == ClampedRecords(rs[1..]);
      }
      SoaLimitIsRedundant(rs[1..], age);
    }
  }

  lemma NegativeIsAgeless(m: Message, age: u32)
    ensures Negative(Corrected(m, age)) == Negative(m)
    ensures Storable(Corrected(m, age)) == Storable(m)
  {
    var c := Corrected(m, age);
    assert forall i :: 0 <= i < |m.answers| ==> c.answers[i].rtype == m.answers[i].rtype;
  }

  /** The two SOA clamps agree: correcting a response for its Age and then storing it
      keeps it for the least of all its original TTLs, and for a negative answer of
      the SOA MINIMUMs, less the Age; only if that is positive, and a negative answer
      only if it has an SOA at all. */
  lemma KeptForTheCorrectedMinimum(m: Message, age: u32)
    ensures KeepSeconds(Corrected(m, age), age)
         == var floor := FloorTtl(m);
            if Storable(m) && floor.Some? && floor.value > age && (Negative(m) ==> MinSoaMinimum(m.authorities).Some?)
            then Some(floor.value - age)
            else None
  {
    var c := Corrected(m, age);
    NegativeIsAgeless(m, age);
    MinTtlCorrected(m, age);
    if Negative(m) {
      SoaLimitIsRedundant(m.authorities, age);
      MinTtlOfSections(c);
    }
  }
}
