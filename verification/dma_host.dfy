/** The deterministic driver host: a bump allocator of DMA arenas with revocation, and a
    device that reverses bytes when its doorbell rings. Proved over every run: arenas never
    overlap, across drops and resets too; a doorbell concerns at most one arena, whatever
    the order the table is searched in; a revoked handle stays stale. */
module DmaHost {
  import opened Common

  const DEVICE: nat := 1
  const MAX_ARENAS: nat := 4
  const MAX_ARENA_BYTES: nat := 4096
  const MAX_ALIGNMENT: nat := 4096
  const FIRST_IOVA: nat := 0x1000_0000

  type Handle = int

  datatype Error = StaleHandle | Limit | Invalid | OutOfBounds | DeviceFault

  datatype Arena = Arena(generation: nat, iova: nat, bytes: seq<byte>)

  datatype Span = Span(iova: nat, size: nat, alignment: nat)

  /** `granted` is history: every arena that was ever handed out. */
  datatype Host = Host(
    generation: nat,
    nextIova: nat,
    nextRegion: nat,
    nextArena: nat,
    regions: map<Handle, int>,
    arenas: map<Handle, Arena>,
    iovaRegister: nat,
    lengthRegister: nat,
    pending: bool,
    granted: map<Handle, Span>)

  const START: Host := Host(1, FIRST_IOVA, 1, 1, map[], map[], 0, 0, false, map[])

  // ----- allocation -----

  predicate IsPowerOfTwo(n: nat) {
    n == 1 || (n > 1 && n % 2 == 0 && IsPowerOfTwo(n / 2))
  }

  predicate IsMultiple(n: nat, of: nat) {
    n == 0 || (n >= of > 0 && IsMultiple(n - of, of))
  }

  /** Clearing the low bits below a power of two rounds down to a multiple of it. */
  function RoundDown(n: nat, to: nat): (r: nat)
    requires to > 0
    ensures r <= n < r + to && IsMultiple(r, to)
  {
    if n < to then 0 else to + RoundDown(n - to, to)
  }

  /** Hands out the next handle for zeroed memory at this address. */
  function Grant(h: Host, iova: nat, size: nat, alignment: nat): Host {
    h.(nextIova := iova + size, nextArena := h.nextArena + 1,
       arenas := h.arenas[h.nextArena := Arena(h.generation, iova, seq(size, _ => 0))],
       granted := h.granted[h.nextArena := Span(iova, size, alignment)])
  }

  /** The address of a new arena, if one may be handed out. */
  function Place(h: Host, device: nat, size: nat, alignment: nat): (r: Result<nat, Error>)
    ensures r.Ok? ==> |h.arenas| < MAX_ARENAS && h.nextIova <= r.value && 0 < size && 0 < alignment && IsMultiple(r.value, alignment)
  {
    if device != DEVICE then Err(StaleHandle)
    else if size == 0 || size > MAX_ARENA_BYTES || |h.arenas| >= MAX_ARENAS then Err(Limit)
    else if alignment == 0 || !IsPowerOfTwo(alignment) || alignment > MAX_ALIGNMENT then Err(Invalid)
    else if h.nextIova + (alignment - 1) >= U64_LIMIT then Err(Limit)
    else
      var iova := RoundDown(h.nextIova + (alignment - 1), alignment);
      if iova + size >= U64_LIMIT then Err(Limit) else Ok(iova)
  }

  /** An allocation that runs out of handles has still used up address space. */
  function Alloc(h: Host, device: nat, size: nat, alignment: nat): (Host, Result<nat, Error>) {
    var place := Place(h, device, size, alignment);
    if place.Err? then (h, place)
    else if h.nextArena + 1 >= U32_LIMIT then (h.(nextIova := place.value + size), Err(Limit))
    else (Grant(h, place.value, size, alignment), Ok(h.nextArena))
  }

  function OpenRegion(h: Host, device: nat, index: nat): (Host, Result<nat, Error>) {
    if device != DEVICE then (h, Err(StaleHandle))
    else if index != 0 then (h, Err(Invalid))
    else if h.nextRegion + 1 >= U32_LIMIT then (h, Err(Limit))
    else (h.(nextRegion := h.nextRegion + 1, regions := h.regions[h.nextRegion := h.generation]), Ok(h.nextRegion))
  }

  function Reset(h: Host, device: nat): (Host, Result<nat, Error>) {
    if device != DEVICE then (h, Err(StaleHandle))
    else if h.generation + 1 >= U64_LIMIT then (h, Err(DeviceFault))
    else (h.(generation := h.generation + 1, regions := map[], arenas := map[],
             iovaRegister := 0, lengthRegister := 0, pending := false),
          Ok(h.generation + 1))
  }

  function DropArena(h: Host, rep: nat): Host {
    h.(arenas := h.arenas - {rep})
  }

  function DropRegion(h: Host, rep: nat): Host {
    h.(regions := h.regions - {rep})
  }

  // ----- access -----

  function ArenaOf(h: Host, rep: nat): Result<Arena, Error> {
    if rep in h.arenas && h.arenas[rep].generation == h.generation then Ok(h.arenas[rep]) else Err(StaleHandle)
  }

  predicate RegionIsCurrent(h: Host, rep: nat) {
    rep in h.regions && h.regions[rep] == h.generation
  }

  function ReadArena(h: Host, rep: nat, offset: nat, length: nat): Result<seq<byte>, Error> {
    var arena := ArenaOf(h, rep);
    if arena.Err? then Err(arena.error)
    else if offset + length > |arena.value.bytes| then Err(OutOfBounds)
    else Ok(arena.value.bytes[offset..offset + length])
  }

  function Overwrite(bytes: seq<byte>, offset: nat, data: seq<byte>): seq<byte>
    requires offset + |data| <= |bytes|
  {
    bytes[..offset] + data + bytes[offset + |data|..]
  }

  function WriteArena(h: Host, rep: nat, offset: nat, data: seq<byte>): (Host, Option<Error>) {
    var arena := ArenaOf(h, rep);
    if arena.Err? then (h, Some(arena.error))
    else if |data| >= U32_LIMIT then (h, Some(Limit))
    else if offset + |data| > |arena.value.bytes| then (h, Some(OutOfBounds))
    else (h.(arenas := h.arenas[rep := arena.value.(bytes := Overwrite(arena.value.bytes, offset, data))]), None)
  }

  // ----- the doorbell -----

  /** The byte range that the registers name lies in this arena. */
  predicate Holds(h: Host, rep: nat) {
    && rep in h.arenas
    && h.arenas[rep].generation == h.generation
    && h.arenas[rep].iova <= h.iovaRegister
    && h.iovaRegister + h.lengthRegister <= h.arenas[rep].iova + |h.arenas[rep].bytes|
  }

  /** The first arena, in the order searched, that holds the range. */
  function Hit(h: Host, order: seq<nat>): (r: Option<nat>)
    ensures r.Some? ==> r.value in order && Holds(h, r.value)
  {
    if order == [] then None
    else if Holds(h, order[0]) then Some(order[0])
    else Hit(h, order[1..])
  }

  function Reversed(bytes: seq<byte>, start: nat, end: nat): (r: seq<byte>)
    requires start <= end <= |bytes|
    ensures |r| == |bytes|
    ensures forall k :: start <= k < end ==> r[k] == bytes[start + end - 1 - k]
    ensures forall k :: 0 <= k < |bytes| && !(start <= k < end) ==> r[k] == bytes[k]
  {
    seq(|bytes|, k requires 0 <= k < |bytes| => if start <= k < end then bytes[start + end - 1 - k] else bytes[k])
  }

  function Transfer(h: Host, rep: nat): Host
    requires Holds(h, rep)
  {
    var arena := h.arenas[rep];
    var start := h.iovaRegister - arena.iova;
    h.(arenas := h.arenas[rep := arena.(bytes := Reversed(arena.bytes, start, start + h.lengthRegister))], pending := true)
  }

  function Doorbell(h: Host, order: seq<nat>): (Host, Option<Error>) {
    if h.lengthRegister == 0 then (h, Some(Invalid))
    else if h.iovaRegister + h.lengthRegister >= U64_LIMIT then (h, Some(DeviceFault))
    else match Hit(h, order)
      case None => (h, Some(DeviceFault))
      case Some(rep) => (Transfer(h, rep), None)
  }

  function WriteRegister(h: Host, region: nat, offset: nat, value: nat, order: seq<nat>): (Host, Option<Error>) {
    if !RegionIsCurrent(h, region) then (h, Some(StaleHandle))
    else if offset == 0 then (h.(iovaRegister := value), None)
    else if offset == 4 then (h.(lengthRegister := value), None)
    else if offset == 8 then if value == 1 then Doorbell(h, order) else (h, Some(Invalid))
    else (h, Some(OutOfBounds))
  }

  function ReadRegister(h: Host, region: nat, offset: nat): Result<nat, Error> {
    if !RegionIsCurrent(h, region) then Err(StaleHandle)
    else if offset == 0 then Ok(h.iovaRegister % U32_LIMIT)
    else if offset == 4 then Ok(h.lengthRegister)
    else if offset == 8 then Ok(0)
    else if offset == 12 then Ok(if h.pending then 1 else 0)
    else Err(OutOfBounds)
  }

  // ----- invariant -----

  predicate Apart(a: Span, b: Span) {
    a.iova + a.size <= b.iova || b.iova + b.size <= a.iova
  }

  ghost predicate Spans(granted: map<Handle, Span>, nextIova: nat, nextArena: nat) {
    forall r :: r in granted ==> SpanOk(granted[r], nextIova) && r < nextArena
  }

  predicate SpanOk(s: Span, nextIova: nat) {
    && FIRST_IOVA <= s.iova && s.size > 0 && s.iova + s.size <= nextIova
    && s.alignment > 0 && IsMultiple(s.iova, s.alignment)
  }

  ghost predicate AllApart(granted: map<Handle, Span>) {
    forall r, s :: r in granted && s in granted && r != s ==> Apart(granted[r], granted[s])
  }

  predicate ArenaOk(a: Arena, s: Span, generation: nat) {
    a.iova == s.iova && |a.bytes| == s.size && a.generation == generation
  }

  ghost predicate Live(arenas: map<Handle, Arena>, granted: map<Handle, Span>, generation: nat) {
    forall r :: r in arenas ==> r in granted && ArenaOk(arenas[r], granted[r], generation)
  }

  ghost predicate Regions(regions: map<Handle, int>, nextRegion: nat, generation: nat) {
    forall r :: r in regions ==> r < nextRegion && regions[r] == generation
  }

  ghost predicate Inv(h: Host) {
    && FIRST_IOVA <= h.nextIova
    && Spans(h.granted, h.nextIova, h.nextArena)
    && AllApart(h.granted)
    && Live(h.arenas, h.granted, h.generation)
    && |h.arenas| <= MAX_ARENAS
    && Regions(h.regions, h.nextRegion, h.generation)
  }

  /** A new arena lies behind every arena there ever was. */
  lemma NewSpanIsApart(granted: map<Handle, Span>, nextIova: nat, rep: nat, s: Span)
    requires Spans(granted, nextIova, rep) && AllApart(granted)
    requires nextIova <= s.iova && FIRST_IOVA <= nextIova && SpanOk(s, s.iova + s.size)
    ensures rep !in granted
    ensures Spans(granted[rep := s], s.iova + s.size, rep + 1) && AllApart(granted[rep := s])
  {
  }

  lemma NewArenaIsLive(arenas: map<Handle, Arena>, granted: map<Handle, Span>, generation: nat, rep: Handle, a: Arena, s: Span)
    requires Live(arenas, granted, generation) && rep !in granted && ArenaOk(a, s, generation)
    ensures Live(arenas[rep := a], granted[rep := s], generation) && |arenas[rep := a]| == |arenas| + 1
  {
    assert arenas[rep := a].Keys == arenas.Keys + {rep};
  }

  lemma GrantKeeps(h: Host, iova: nat, size: nat, alignment: nat)
    requires Inv(h) && |h.arenas| < MAX_ARENAS && h.nextIova <= iova && SpanOk(Span(iova, size, alignment), iova + size)
    ensures Inv(Grant(h, iova, size, alignment)) && Grows(h, Grant(h, iova, size, alignment))
  {
    var span := Span(iova, size, alignment);
    NewSpanIsApart(h.granted, h.nextIova, h.nextArena, span);
    NewArenaIsLive(h.arenas, h.granted, h.generation, h.nextArena, Arena(h.generation, iova, seq(size, _ => 0)), span);
  }

  lemma WasteKeeps(h: Host, next: nat)
    requires Inv(h) && h.nextIova <= next
    ensures Inv(h.(nextIova := next)) && Grows(h, h.(nextIova := next))
  {
  }

  lemma AllocKeeps(h: Host, device: nat, size: nat, alignment: nat)
    requires Inv(h)
    ensures var next := Alloc(h, device, size, alignment).0; Inv(next) && Grows(h, next)
  {
    var place := Place(h, device, size, alignment);
    if place.Ok? {
      if h.nextArena + 1 >= U32_LIMIT {
        WasteKeeps(h, place.value + size);
      } else {
        GrantKeeps(h, place.value, size, alignment);
      }
    }
  }

  lemma FewerAreLive(arenas: map<Handle, Arena>, granted: map<Handle, Span>, generation: nat, rep: Handle)
    requires Live(arenas, granted, generation)
    ensures Live(arenas - {rep}, granted, generation) && |arenas - {rep}| <= |arenas|
  {
    var left := arenas - {rep};
    assert left.Keys == arenas.Keys - {rep};
    if rep !in arenas { assert left == arenas; }
  }

  lemma DropArenaKeeps(h: Host, rep: nat)
    requires Inv(h)
    ensures Inv(DropArena(h, rep)) && Grows(h, DropArena(h, rep))
  {
    FewerAreLive(h.arenas, h.granted, h.generation, rep);
  }

  lemma DropRegionKeeps(h: Host, rep: nat)
    requires Inv(h)
    ensures Inv(DropRegion(h, rep)) && Grows(h, DropRegion(h, rep))
  {
  }

  lemma BytesKeep(h: Host, rep: nat, bytes: seq<byte>)
    requires Inv(h) && rep in h.arenas && |bytes| == |h.arenas[rep].bytes|
    ensures var next := h.(arenas := h.arenas[rep := h.arenas[rep].(bytes := bytes)]); Inv(next) && Grows(h, next)
  {
    var next := h.(arenas := h.arenas[rep := h.arenas[rep].(bytes := bytes)]);
    assert next.arenas.Keys == h.arenas.Keys;
  }

  lemma DoorbellKeeps(h: Host, order: seq<nat>)
    requires Inv(h)
    ensures Inv(Doorbell(h, order).0) && Grows(h, Doorbell(h, order).0)
  {
    var hit := Hit(h, order);
    if h.lengthRegister > 0 && hit.Some? {
      var arena := h.arenas[hit.value];
      var start := h.iovaRegister - arena.iova;
      BytesKeep(h, hit.value, Reversed(arena.bytes, start, start + h.lengthRegister));
    }
  }

  // ----- runs -----

  datatype Step =
    | AllocStep(device: nat, size: nat, alignment: nat)
    | OpenStep(device: nat, index: nat)
    | ResetStep(device: nat)
    | DropArenaStep(rep: nat)
    | DropRegionStep(rep: nat)
    | WriteArenaStep(rep: nat, offset: nat, data: seq<byte>)
    | WriteRegisterStep(rep: nat, offset: nat, value: nat, order: seq<nat>)

  function Next(h: Host, step: Step): Host {
    match step
    case AllocStep(device, size, alignment) => Alloc(h, device, size, alignment).0
    case OpenStep(device, index) => OpenRegion(h, device, index).0
    case ResetStep(device) => Reset(h, device).0
    case DropArenaStep(rep) => DropArena(h, rep)
    case DropRegionStep(rep) => DropRegion(h, rep)
    case WriteArenaStep(rep, offset, data) => WriteArena(h, rep, offset, data).0
    case WriteRegisterStep(rep, offset, value, order) => WriteRegister(h, rep, offset, value, order).0
  }

  function After(h: Host, steps: seq<Step>): Host
    decreases |steps|
  {
    if steps == [] then h else After(Next(h, steps[0]), steps[1..])
  }

  lemma OpenKeeps(h: Host, device: nat, index: nat)
    requires Inv(h)
    ensures Inv(OpenRegion(h, device, index).0) && Grows(h, OpenRegion(h, device, index).0)
  {
  }

  lemma ResetKeeps(h: Host, device: nat)
    requires Inv(h)
    ensures Inv(Reset(h, device).0) && Grows(h, Reset(h, device).0)
  {
  }

  lemma WriteKeeps(h: Host, rep: nat, offset: nat, data: seq<byte>)
    requires Inv(h)
    ensures Inv(WriteArena(h, rep, offset, data).0) && Grows(h, WriteArena(h, rep, offset, data).0)
  {
    var arena := ArenaOf(h, rep);
    if arena.Ok? && offset + |data| <= |arena.value.bytes| {
      BytesKeep(h, rep, Overwrite(arena.value.bytes, offset, data));
    }
  }

  lemma RegisterKeeps(h: Host, rep: nat, offset: nat, value: nat, order: seq<nat>)
    requires Inv(h)
    ensures var next := WriteRegister(h, rep, offset, value, order).0; Inv(next) && Grows(h, next)
  {
    if offset == 8 { DoorbellKeeps(h, order); }
  }

  /** Handles are only ever given out once, and the record of them only grows. */
  ghost predicate Grows(h: Host, next: Host) {
    && h.nextArena <= next.nextArena
    && (forall r :: r in h.granted ==> r in next.granted && next.granted[r] == h.granted[r])
    && (forall r :: r in next.arenas && r < h.nextArena ==> r in h.arenas)
    && h.nextRegion <= next.nextRegion
    && (forall r :: r in next.regions && r < h.nextRegion ==> r in h.regions)
  }

  lemma StepKeeps(h: Host, step: Step)
    requires Inv(h)
    ensures Inv(Next(h, step)) && Grows(h, Next(h, step))
  {
    match step
    case AllocStep(device, size, alignment) => AllocKeeps(h, device, size, alignment);
    case OpenStep(device, index) => OpenKeeps(h, device, index);
    case ResetStep(device) => ResetKeeps(h, device);
    case DropArenaStep(rep) => DropArenaKeeps(h, rep);
    case DropRegionStep(rep) => DropRegionKeeps(h, rep);
    case WriteArenaStep(rep, offset, data) => WriteKeeps(h, rep, offset, data);
    case WriteRegisterStep(rep, offset, value, order) => RegisterKeeps(h, rep, offset, value, order);
  }

  lemma {:induction false} RunKeeps(h: Host, steps: seq<Step>)
    requires Inv(h)
    ensures Inv(After(h, steps)) && Grows(h, After(h, steps))
    decreases |steps|
  {
    if steps != [] {
      StepKeeps(h, steps[0]);
      RunKeeps(Next(h, steps[0]), steps[1..]);
    }
  }

  /** Every arena handed out in a run is aligned as asked and disjoint from every other,
      whether they are still live or not. */
  lemma ArenasNeverOverlap(steps: seq<Step>, r: nat)
    requires r in After(START, steps).granted
    ensures var end := After(START, steps);
      && SpanOk(end.granted[r], end.nextIova)
      && forall s :: s in end.granted && s != r ==> Apart(end.granted[r], end.granted[s])
  {
    RunKeeps(START, steps);
  }

  /** A handle that is no longer in the table, dropped or reset away, is never valid again. */
  lemma StaleForever(before: seq<Step>, after: seq<Step>, rep: nat)
    requires var h := After(START, before); rep in h.granted && ArenaOf(h, rep) == Err(StaleHandle)
    ensures ArenaOf(After(After(START, before), after), rep) == Err(StaleHandle)
  {
    RunKeeps(START, before);
    RunKeeps(After(START, before), after);
  }

  /** Nor is a region handle, once it was handed out. */
  lemma RegionsStaleForever(before: seq<Step>, after: seq<Step>, rep: nat)
    requires var h := After(START, before); rep < h.nextRegion && !RegionIsCurrent(h, rep)
    ensures !RegionIsCurrent(After(After(START, before), after), rep)
  {
    RunKeeps(START, before);
    RunKeeps(After(START, before), after);
  }

  // ----- the doorbell concerns one arena -----

  lemma HeldOnce(h: Host, r: nat, s: nat)
    requires Inv(h) && h.lengthRegister > 0 && Holds(h, r) && Holds(h, s)
    ensures r == s
  {
    assert r == s || Apart(h.granted[r], h.granted[s]);
  }

  lemma {:induction false} HitFinds(h: Host, order: seq<nat>, rep: nat)
    requires Inv(h) && h.lengthRegister > 0 && rep in order && Holds(h, rep)
    ensures Hit(h, order) == Some(rep)
  {
    if Holds(h, order[0]) {
      HeldOnce(h, order[0], rep);
    } else {
      HitFinds(h, order[1..], rep);
    }
  }

  /** The search order does not matter. */
  lemma OrderDoesNotMatter(h: Host, first: seq<nat>, second: seq<nat>)
    requires Inv(h) && (forall r :: r in h.arenas ==> r in first && r in second)
    ensures Doorbell(h, first) == Doorbell(h, second)
  {
    if h.lengthRegister > 0 {
      if Hit(h, first).Some? {
        HitFinds(h, second, Hit(h, first).value);
      } else if Hit(h, second).Some? {
        HitFinds(h, first, Hit(h, second).value);
      }
    }
  }

  /** This bus address is a byte of this arena. */
  predicate Within(h: Host, r: nat, address: int) {
    r in h.arenas && h.arenas[r].iova <= address < h.arenas[r].iova + |h.arenas[r].bytes|
  }

  function ByteAt(h: Host, r: nat, address: int): byte
    requires Within(h, r, address)
  {
    h.arenas[r].bytes[address - h.arenas[r].iova]
  }

  /** In terms of bus addresses, a successful doorbell mirrors the named range and leaves
      every other byte of every arena as it was. */
  lemma DoorbellMirrors(h: Host, order: seq<nat>, r: nat, address: nat)
    requires Inv(h) && Doorbell(h, order).1.None? && Within(h, r, address)
    ensures Within(Doorbell(h, order).0, r, address)
    ensures var start, end := h.iovaRegister, h.iovaRegister + h.lengthRegister;
      if start <= address < end then
        && Within(h, r, start + end - 1 - address)
        && ByteAt(Doorbell(h, order).0, r, address) == ByteAt(h, r, start + end - 1 - address)
      else ByteAt(Doorbell(h, order).0, r, address) == ByteAt(h, r, address)
  {
    var rep := Hit(h, order).value;
    assert r == rep || Apart(h.granted[r], h.granted[rep]);
  }

  /** Ringing twice restores every byte. */
  lemma DoorbellTwice(h: Host, order: seq<nat>)
    requires Inv(h) && Doorbell(h, order).1.None?
    ensures Doorbell(Doorbell(h, order).0, order) == (h.(pending := true), None)
  {
    var rep := Hit(h, order).value;
    var next := Transfer(h, rep);
    DoorbellKeeps(h, order);
    HitFinds(next, order, rep);
    var start := h.iovaRegister - h.arenas[rep].iova;
    var bytes := h.arenas[rep].bytes;
    assert Reversed(next.arenas[rep].bytes, start, start + h.lengthRegister) == bytes;
    assert h.arenas[rep].(bytes := bytes) == h.arenas[rep];
    assert Transfer(next, rep).arenas == h.arenas;
  }

  // ----- reading back -----

  /** A read returns what was written there, and what was there before around it. */
  lemma ReadAfterWrite(h: Host, rep: nat, offset: nat, data: seq<byte>, at: nat, length: nat)
    requires WriteArena(h, rep, offset, data).1.None?
    ensures var next := WriteArena(h, rep, offset, data).0;
      && ReadArena(next, rep, offset, |data|) == Ok(data)
      && (at + length <= offset || offset + |data| <= at ==> ReadArena(next, rep, at, length) == ReadArena(h, rep, at, length))
  {
    var bytes := h.arenas[rep].bytes;
    var after := Overwrite(bytes, offset, data);
    assert after[offset..offset + |data|] == data;
    if (at + length <= offset || offset + |data| <= at) && at + length <= |bytes| {
      assert after[at..at + length] == bytes[at..at + length];
    }
  }

  /** The two address registers read back what was written; a doorbell sets the pending
      bit exactly if it succeeded or the bit was set before. */
  lemma RegistersReadBack(h: Host, region: nat, value: nat, order: seq<nat>)
    requires RegionIsCurrent(h, region) && value < U32_LIMIT
    ensures ReadRegister(WriteRegister(h, region, 0, value, order).0, region, 0) == Ok(value)
    ensures ReadRegister(WriteRegister(h, region, 4, value, order).0, region, 4) == Ok(value)
    ensures var (next, error) := WriteRegister(h, region, 8, 1, order);
      ReadRegister(next, region, 12) == Ok(1) <==> error.None? || h.pending
  {
  }

  lemma OtherArenasAreUntouched(h: Host, rep: nat, offset: nat, data: seq<byte>, other: nat)
    requires other != rep
    ensures ArenaOf(WriteArena(h, rep, offset, data).0, other) == ArenaOf(h, other)
  {
  }

  // ----- the host -----

  class DeterministicHost {
    var generation: nat
    var nextIova: nat
    var nextRegion: nat
    var nextArena: nat
    var regions: map<Handle, int>
    var arenas: map<Handle, Arena>
    var iovaRegister: nat
    var lengthRegister: nat
    var pending: bool
    ghost var granted: map<Handle, Span>

    ghost function State(): Host
      reads this
    {
      Host(generation, nextIova, nextRegion, nextArena, regions, arenas, iovaRegister, lengthRegister, pending, granted)
    }

    ghost predicate Valid()
      reads this
    {
      Inv(State())
    }

    constructor ()
      ensures State() == START && Valid()
    {
      generation, nextIova, nextRegion, nextArena := 1, FIRST_IOVA, 1, 1;
      regions, arenas, granted := map[], map[], map[];
      iovaRegister, lengthRegister, pending := 0, 0, false;
    }

    method FindPlace(device: nat, size: nat, alignment: nat) returns (r: Result<nat, Error>)
      ensures r == Place(State(), device, size, alignment)
    {
      if device != DEVICE { return Err(StaleHandle); }
      if size == 0 || size > MAX_ARENA_BYTES || |arenas| >= MAX_ARENAS { return Err(Limit); }
      if alignment == 0 || !IsPowerOfTwo(alignment) || alignment > MAX_ALIGNMENT { return Err(Invalid); }
      if nextIova + (alignment - 1) >= U64_LIMIT { return Err(Limit); }
      var iova := RoundDown(nextIova + (alignment - 1), alignment);
      return if iova + size >= U64_LIMIT then Err(Limit) else Ok(iova);
    }

    method AllocDma(device: nat, size: nat, alignment: nat) returns (r: Result<nat, Error>)
      requires Valid()
      modifies this
      ensures Valid() && (State(), r) == Alloc(old(State()), device, size, alignment)
    {
      AllocKeeps(State(), device, size, alignment);
      var place := FindPlace(device, size, alignment);
      if place.Err? { return place; }
      var iova := place.value;
      nextIova := iova + size;
      var rep := nextArena;
      if rep + 1 >= U32_LIMIT { return Err(Limit); }
      nextArena := rep + 1;
      arenas := arenas[rep := Arena(generation, iova, seq(size, _ => 0))];
      granted := granted[rep := Span(iova, size, alignment)];
      return Ok(rep);
    }

    method ResetDevice(device: nat) returns (r: Result<nat, Error>)
      requires Valid()
      modifies this
      ensures Valid() && (State(), r) == Reset(old(State()), device)
    {
      ghost var next := Reset(State(), device).0;
      ResetKeeps(State(), device);
      if device != DEVICE { return Err(StaleHandle); }
      if generation + 1 >= U64_LIMIT { return Err(DeviceFault); }
      generation := generation + 1;
      regions, arenas := map[], map[];
      iovaRegister, lengthRegister, pending := 0, 0, false;
      assert State() == next;
      return Ok(generation);
    }

    /** `order` is the order in which the table happens to list its arenas. */
    method ExecuteDoorbell(order: seq<nat>) returns (error: Option<Error>)
      requires Valid()
      modifies this
      ensures Valid() && (State(), error) == Doorbell(old(State()), order)
    {
      DoorbellKeeps(State(), order);
      if lengthRegister == 0 { return Some(Invalid); }
      if iovaRegister + lengthRegister >= U64_LIMIT { return Some(DeviceFault); }
      for k := 0 to |order|
        invariant unchanged(this)
        invariant Hit(State(), order[k..]) == Hit(State(), order)
      {
        var rep := order[k];
        assert order[k..][1..] == order[k + 1..];
        if rep in arenas && arenas[rep].generation == generation && arenas[rep].iova <= iovaRegister
           && iovaRegister + lengthRegister <= arenas[rep].iova + |arenas[rep].bytes| {
          var start := iovaRegister - arenas[rep].iova;
          var bytes := Reversed(arenas[rep].bytes, start, start + lengthRegister);
          arenas := arenas[rep := arenas[rep].(bytes := bytes)];
          pending := true;
          return None;
        }
      }
      return Some(DeviceFault);
    }

    method WriteU32(region: nat, offset: nat, value: nat, order: seq<nat>) returns (error: Option<Error>)
      requires Valid()
      modifies this
      ensures Valid() && (State(), error) == WriteRegister(old(State()), region, offset, value, order)
    {
      RegisterKeeps(State(), region, offset, value, order);
      if region !in regions || regions[region] != generation { return Some(StaleHandle); }
      error := None;
      if offset == 0 {
        iovaRegister := value;
      } else if offset == 4 {
        lengthRegister := value;
      } else if offset != 8 {
        error := Some(OutOfBounds);
      } else if value != 1 {
        error := Some(Invalid);
      } else {
        error := ExecuteDoorbell(order);
      }
    }

    method Write(rep: nat, offset: nat, data: seq<byte>) returns (error: Option<Error>)
      requires Valid()
      modifies this
      ensures Valid() && (State(), error) == WriteArena(old(State()), rep, offset, data)
    {
      WriteKeeps(State(), rep, offset, data);
      if rep !in arenas || arenas[rep].generation != generation { return Some(StaleHandle); }
      if |data| >= U32_LIMIT { return Some(Limit); }
      if offset + |data| > |arenas[rep].bytes| { return Some(OutOfBounds); }
      arenas := arenas[rep := arenas[rep].(bytes := Overwrite(arenas[rep].bytes, offset, data))];
      return None;
    }

    method Drop(rep: nat)
      requires Valid()
      modifies this`arenas
      ensures Valid() && State() == DropArena(old(State()), rep)
    {
      DropArenaKeeps(State(), rep);
      arenas := arenas - {rep};
    }
  }
}
