/** A machine for the classic BPF subset that the sandboxes emit, and the meaning of
    a filter assembled from guarded blocks with relative jumps: it returns the
    verdict of the first block whose system call number matches. */
module Bpf {
  import opened Common

  const LD_ABS: nat := 0x20
  const ALU_AND: nat := 0x54
  const JMP_JEQ: nat := 0x15
  const JMP_JSET: nat := 0x45
  const RET: nat := 0x06

  /** Bitwise and of two words. */
  function BitAnd(a: nat, b: nat): nat {
    if a == 0 || b == 0 then 0 else 2 * BitAnd(a / 2, b / 2) + (if a % 2 == 1 && b % 2 == 1 then 1 else 0)
  }

  /** Bitwise complement of a 32-bit word. */
  function Not32(a: nat): nat
    requires a < U32_LIMIT
  {
    U32_LIMIT - 1 - a
  }

  datatype Instr = Instr(code: nat, jt: nat, jf: nat, k: nat)

  /** The record a filter inspects: words at offsets 0 and 4, the instruction
      pointer at 8, and six arguments of two words each from 16. */
  datatype Args = Args(a0: nat, a1: nat, a2: nat, a3: nat, a4: nat, a5: nat)
  datatype SyscallData = SyscallData(nr: nat, arch: nat, ipLow: nat, ipHigh: nat, low: Args, high: Args)

  function Load(d: SyscallData, offset: nat): Option<nat> {
    if offset == 0 then Some(d.nr)
    else if offset == 4 then Some(d.arch)
    else if offset == 8 then Some(d.ipLow)
    else if offset == 12 then Some(d.ipHigh)
    else if offset == 16 then Some(d.low.a0)
    else if offset == 20 then Some(d.high.a0)
    else if offset == 24 then Some(d.low.a1)
    else if offset == 28 then Some(d.high.a1)
    else if offset == 32 then Some(d.low.a2)
    else if offset == 36 then Some(d.high.a2)
    else if offset == 40 then Some(d.low.a3)
    else if offset == 44 then Some(d.high.a3)
    else if offset == 48 then Some(d.low.a4)
    else if offset == 52 then Some(d.high.a4)
    else if offset == 56 then Some(d.low.a5)
    else if offset == 60 then Some(d.high.a5)
    else None
  }

  datatype Outcome = Verdict(word: nat) | Fault

  /** What one instruction does: skip that many further ones, or stop. */
  datatype Move = Skip(count: nat, acc: nat) | Stop(outcome: Outcome)

  function Execute(i: Instr, acc: nat, d: SyscallData): Move {
    if i.code == LD_ABS then
      var word := Load(d, i.k);
      if word.None? then Stop(Fault) else Skip(0, word.value)
    else if i.code == ALU_AND then Skip(0, BitAnd(acc, i.k))
    else if i.code == JMP_JEQ then Skip(if acc == i.k then i.jt else i.jf, acc)
    else if i.code == JMP_JSET then Skip(if BitAnd(acc, i.k) != 0 then i.jt else i.jf, acc)
    else if i.code == RET then Stop(Verdict(i.k))
    else Stop(Fault)
  }

  /** The machine: a program counter into the whole program, and one accumulator. */
  function Run(p: seq<Instr>, pc: nat, acc: nat, d: SyscallData): Outcome
    decreases |p| - pc
  {
    if pc >= |p| then Fault else
    match Execute(p[pc], acc, d)
    case Stop(outcome) => outcome
    case Skip(count, next) => Run(p, pc + 1 + count, next, d)
  }

  /** Jumps are relative and forward, so only the code from the counter on matters:
      a program means the same wherever it is placed. */
  lemma {:induction false} RunIsPositionIndependent(before: seq<Instr>, p: seq<Instr>, pc: nat, acc: nat, d: SyscallData)
    ensures Run(before + p, |before| + pc, acc, d) == Run(p, pc, acc, d)
    decreases |p| - pc
  {
    if pc < |p| {
      assert (before + p)[|before| + pc] == p[pc];
      match Execute(p[pc], acc, d)
      case Stop(_) =>
      case Skip(count, next) => RunIsPositionIndependent(before, p, pc + 1 + count, next, d);
    }
  }

  /** A program that reaches a verdict is not disturbed by code behind it. */
  lemma {:induction false} RunIgnoresWhatFollows(p: seq<Instr>, after: seq<Instr>, pc: nat, acc: nat, d: SyscallData)
    requires Run(p, pc, acc, d).Verdict?
    ensures Run(p + after, pc, acc, d) == Run(p, pc, acc, d)
    decreases |p| - pc
  {
    assert (p + after)[pc] == p[pc];
    match Execute(p[pc], acc, d)
    case Stop(_) =>
    case Skip(count, next) => RunIgnoresWhatFollows(p, after, pc + 1 + count, next, d);
  }

  /** Every instruction is known, and every way on stays inside: control can leave
      only through a return. */
  predicate Closed(body: seq<Instr>) {
    && body != []
    && forall i :: 0 <= i < |body| ==> ClosedAt(body, i)
  }

  predicate LoadsSomething(offset: nat) {
    offset % 4 == 0 && offset <= 60
  }

  predicate ClosedAt(body: seq<Instr>, i: nat)
    requires i < |body|
  {
    var x := body[i];
    || x.code == RET
    || (x.code == LD_ABS && LoadsSomething(x.k) && i + 1 < |body|)
    || (x.code == ALU_AND && i + 1 < |body|)
    || ((x.code == JMP_JEQ || x.code == JMP_JSET) && i + 1 + x.jt < |body| && i + 1 + x.jf < |body|)
  }

  lemma AlignedLoads(d: SyscallData, offset: nat)
    requires LoadsSomething(offset)
    ensures Load(d, offset).Some?
  {
    assert offset == 0 || offset == 4 || offset == 8 || offset == 12 || offset == 16 || offset == 20 || offset == 24
        || offset == 28 || offset == 32 || offset == 36 || offset == 40 || offset == 44 || offset == 48 || offset == 52
        || offset == 56 || offset == 60;
  }

  /** A closed body never steps outside itself and never faults. */
  lemma ClosedMoves(body: seq<Instr>, pc: nat, acc: nat, d: SyscallData)
    requires Closed(body) && pc < |body|
    ensures match Execute(body[pc], acc, d)
      case Stop(outcome) => outcome.Verdict?
      case Skip(count, _) => pc + 1 + count < |body|
  {
    assert ClosedAt(body, pc);
    if body[pc].code == LD_ABS {
      AlignedLoads(d, body[pc].k);
    }
  }

  lemma {:induction false} ClosedReaches(body: seq<Instr>, pc: nat, acc: nat, d: SyscallData)
    requires Closed(body) && pc < |body|
    ensures Run(body, pc, acc, d).Verdict?
    decreases |body| - pc
  {
    ClosedMoves(body, pc, acc, d);
    match Execute(body[pc], acc, d)
    case Stop(_) =>
    case Skip(count, next) => ClosedReaches(body, pc + 1 + count, next, d);
  }

  /** Whatever the input, the body returns a verdict of its own. */
  ghost predicate Decides(body: seq<Instr>) {
    forall acc, d :: Run(body, 0, acc, d).Verdict?
  }

  lemma ClosedDecides(body: seq<Instr>)
    requires Closed(body)
    ensures Decides(body)
  {
    forall acc, d ensures Run(body, 0, acc, d).Verdict? {
      ClosedReaches(body, 0, acc, d);
    }
  }

  // ----- blocks -----

  /** What follows a block's body: nothing, a reload of the number that a mismatch
      lands on, or one that a mismatch jumps over. */
  datatype Tail = Plain | Reload | SkippedReload

  datatype Block = Block(nr: nat, body: seq<Instr>, tail: Tail)

  const ALLOW: nat := 0x7fff_0000
  const KILL: nat := 0x8000_0000

  function Stmt(code: nat, k: nat): Instr {
    Instr(code, 0, 0, k)
  }

  function Jeq(k: nat, jt: nat, jf: nat): Instr {
    Instr(JMP_JEQ, jt, jf, k)
  }

  function Ret(verdict: nat): Instr {
    Stmt(RET, verdict)
  }

  function LoadNr(): Instr {
    Stmt(LD_ABS, 0)
  }

  function Code(b: Block): seq<Instr> {
    [Jeq(b.nr, 0, |b.body| + if b.tail.SkippedReload? then 1 else 0)]
    + (b.body + if b.tail.Plain? then [] else [LoadNr()])
  }

  function CodeOf(blocks: seq<Block>): seq<Instr> {
    if blocks == [] then [] else Code(blocks[0]) + CodeOf(blocks[1..])
  }

  function Prologue(arch: nat): seq<Instr> {
    [Stmt(LD_ABS, 4), Jeq(arch, 1, 0), Ret(KILL), LoadNr()]
  }

  function Assemble(arch: nat, blocks: seq<Block>): (program: seq<Instr>)
    ensures |program| > 4 && program[..4] == Prologue(arch)
  {
    Prologue(arch) + (CodeOf(blocks) + [Ret(KILL)])
  }

  /** A jump offset is one byte, so a body has at most 255 instructions (one less
      when the offset must also skip the reload). */
  ghost predicate WellFormed(b: Block) {
    Decides(b.body) && |b.body| + (if b.tail.SkippedReload? then 1 else 0) <= 255
  }

  ghost predicate AllWellFormed(blocks: seq<Block>) {
    forall b :: b in blocks ==> WellFormed(b)
  }

  /** The table a filter stands for. */
  ghost function BodyVerdict(b: Block, d: SyscallData): nat
    requires WellFormed(b)
  {
    Run(b.body, 0, b.nr, d).word
  }

  ghost function FirstMatch(blocks: seq<Block>, d: SyscallData): Option<nat>
    requires AllWellFormed(blocks)
  {
    if blocks == [] then None
    else if blocks[0].nr == d.nr then Some(BodyVerdict(blocks[0], d))
    else FirstMatch(blocks[1..], d)
  }

  function OrKill(v: Option<nat>): nat {
    if v.Some? then v.value else KILL
  }

  lemma MatchingBlock(b: Block, rest: seq<Instr>, d: SyscallData)
    requires WellFormed(b) && b.nr == d.nr
    ensures Run(Code(b) + rest, 0, d.nr, d) == Verdict(BodyVerdict(b, d))
  {
    var guard := Code(b)[..1];
    var behind := (if b.tail.Plain? then [] else [LoadNr()]) + rest;
    assert Code(b) + rest == guard + (b.body + behind);
    assert Execute(guard[0], d.nr, d) == Skip(0, d.nr);
    RunIsPositionIndependent(guard, b.body + behind, 0, d.nr, d);
    assert Run(b.body, 0, d.nr, d).Verdict?;
    RunIgnoresWhatFollows(b.body, behind, 0, d.nr, d);
  }

  lemma SkippedBlock(b: Block, rest: seq<Instr>, d: SyscallData)
    requires b.nr != d.nr
    ensures Run(Code(b) + rest, 0, d.nr, d) == Run(rest, 0, d.nr, d)
  {
    var p, n := Code(b) + rest, |Code(b)|;
    assert Execute(p[0], d.nr, d) == Skip(|b.body| + if b.tail.SkippedReload? then 1 else 0, d.nr);
    if b.tail.Reload? {
      assert p[n - 1] == LoadNr();
      assert Run(p, n - 1, d.nr, d) == Run(p, n, d.nr, d);
    }
    RunIsPositionIndependent(Code(b), rest, 0, d.nr, d);
  }

  /** A block in front of any program: its own verdict on a match, and otherwise
      exactly what the program behind it would have done. */
  lemma BlockMeaning(b: Block, rest: seq<Instr>, d: SyscallData)
    requires WellFormed(b)
    ensures Run(Code(b) + rest, 0, d.nr, d)
         == if b.nr == d.nr then Verdict(BodyVerdict(b, d)) else Run(rest, 0, d.nr, d)
  {
    if b.nr == d.nr {
      MatchingBlock(b, rest, d);
    } else {
      SkippedBlock(b, rest, d);
    }
  }

  lemma {:induction false} TableMeaning(blocks: seq<Block>, rest: seq<Instr>, d: SyscallData)
    requires AllWellFormed(blocks)
    ensures Run(CodeOf(blocks) + rest, 0, d.nr, d)
         == match FirstMatch(blocks, d) case Some(v) => Verdict(v) case None => Run(rest, 0, d.nr, d)
  {
    if blocks == [] {
      assert CodeOf(blocks) + rest == rest;
    } else {
      var others := CodeOf(blocks[1..]) + rest;
      assert CodeOf(blocks) + rest == Code(blocks[0]) + others;
      BlockMeaning(blocks[0], others, d);
      TableMeaning(blocks[1..], rest, d);
    }
  }

  lemma PrologueMeaning(arch: nat, rest: seq<Instr>, acc: nat, d: SyscallData)
    ensures Run(Prologue(arch) + rest, 0, acc, d) == if d.arch == arch then Run(rest, 0, d.nr, d) else Verdict(KILL)
  {
    var p := Prologue(arch) + rest;
    assert Run(p, 0, acc, d) == Run(p, 1, d.arch, d);
    if d.arch == arch {
      assert Run(p, 1, d.arch, d) == Run(p, 3, d.arch, d);
      assert Run(p, 3, d.arch, d) == Run(p, 4, d.nr, d);
      RunIsPositionIndependent(Prologue(arch), rest, 0, d.nr, d);
    } else {
      assert Run(p, 1, d.arch, d) == Run(p, 2, d.arch, d);
    }
  }

  /** Compiler correctness: for every table of deciding bodies and every input, the
      assembled program returns the first matching verdict, and kills when the
      architecture differs or nothing matches. */
  lemma AssembledMeaning(arch: nat, blocks: seq<Block>, acc: nat, d: SyscallData)
    requires AllWellFormed(blocks)
    ensures Run(Assemble(arch, blocks), 0, acc, d)
         == Verdict(if d.arch == arch then OrKill(FirstMatch(blocks, d)) else KILL)
  {
    PrologueMeaning(arch, CodeOf(blocks) + [Ret(KILL)], acc, d);
    TableMeaning(blocks, [Ret(KILL)], d);
  }

  /** Splicing a block in directly behind the prologue of any program at all changes
      the verdict for that block's system call only. */
  lemma SpliceMeaning(arch: nat, b: Block, rest: seq<Instr>, acc: nat, d: SyscallData)
    requires WellFormed(b)
    ensures var filter := Prologue(arch) + rest;
      var spliced := filter[..4] + Code(b) + filter[4..];
      Run(spliced, 0, acc, d)
      == if d.arch == arch && d.nr == b.nr then Verdict(BodyVerdict(b, d)) else Run(filter, 0, acc, d)
  {
    var filter := Prologue(arch) + rest;
    var spliced := filter[..4] + Code(b) + filter[4..];
    assert spliced == Prologue(arch) + (Code(b) + rest);
    PrologueMeaning(arch, Code(b) + rest, acc, d);
    PrologueMeaning(arch, rest, acc, d);
    BlockMeaning(b, rest, d);
  }

  // ----- tables in pieces -----

  lemma {:induction false} FirstMatchAppend(front: seq<Block>, back: seq<Block>, d: SyscallData)
    requires AllWellFormed(front) && AllWellFormed(back)
    ensures AllWellFormed(front + back)
    ensures FirstMatch(front + back, d) == if FirstMatch(front, d).Some? then FirstMatch(front, d) else FirstMatch(back, d)
  {
    if front == [] {
      assert front + back == back;
    } else {
      FirstMatchAppend(front[1..], back, d);
      assert (front + back)[1..] == front[1..] + back;
    }
  }

  /** One verdict for each of a list of system calls. */
  function Uniform(nrs: seq<nat>, verdict: nat, tail: Tail): seq<Block> {
    if nrs == [] then [] else [Block(nrs[0], [Ret(verdict)], tail)] + Uniform(nrs[1..], verdict, tail)
  }

  lemma {:induction false} UniformMeaning(nrs: seq<nat>, verdict: nat, tail: Tail, d: SyscallData)
    ensures AllWellFormed(Uniform(nrs, verdict, tail))
    ensures FirstMatch(Uniform(nrs, verdict, tail), d) == if d.nr in nrs then Some(verdict) else None
  {
    if nrs != [] {
      var first := Block(nrs[0], [Ret(verdict)], tail);
      assert WellFormed(first);
      UniformMeaning(nrs[1..], verdict, tail, d);
      assert Uniform(nrs, verdict, tail)[1..] == Uniform(nrs[1..], verdict, tail);
      assert BodyVerdict(first, d) == verdict;
    }
  }
}
