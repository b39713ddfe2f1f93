/** The DNS service's system call filter: its table, and the policy it stands for. */
module DnsSandbox {
  import opened Common
  import opened Bpf
  import opened SeccompPolicies

  const MISSING_FILES: seq<nat> := [SYS_OPENAT, SYS_READLINKAT, SYS_STATX, SYS_OPEN, SYS_READLINK]

  const FCNTL_COMMANDS: seq<nat> := [F_GETFD, F_SETFD, F_GETFL, F_SETFL, F_DUPFD_CLOEXEC]

  const DNS_ALLOWED: seq<nat> :=
    [SYS_READ, SYS_WRITE, SYS_READV, SYS_WRITEV, SYS_CLOSE, SYS_FSTAT, SYS_NEWFSTATAT, SYS_LSEEK, SYS_MUNMAP, SYS_MADVISE,
     SYS_BRK, SYS_FUTEX, SYS_CLOCK_GETTIME, SYS_NANOSLEEP, SYS_CLOCK_NANOSLEEP, SYS_GETRANDOM, SYS_GETPID, SYS_GETTID,
     SYS_GETUID, SYS_GETEUID, SYS_SCHED_YIELD, SYS_SCHED_GETAFFINITY, SYS_SIGALTSTACK, SYS_RT_SIGACTION,
     SYS_RT_SIGPROCMASK, SYS_RT_SIGRETURN, SYS_SET_ROBUST_LIST, SYS_RSEQ, SYS_RESTART_SYSCALL, SYS_EPOLL_CREATE1,
     SYS_EPOLL_CTL, SYS_EPOLL_PWAIT, SYS_EVENTFD2, SYS_CONNECT, SYS_SHUTDOWN, SYS_GETSOCKNAME, SYS_GETPEERNAME,
     SYS_GETSOCKOPT, SYS_SETSOCKOPT, SYS_SENDTO, SYS_RECVFROM, SYS_PPOLL, SYS_EXIT, SYS_EXIT_GROUP]

  const DNS_ALLOWED_X86: seq<nat> := [SYS_EPOLL_WAIT, SYS_POLL]

  // ----- bodies -----

  const SOCK_TYPE_FLAGS: nat := SOCK_NONBLOCK + SOCK_CLOEXEC

  function SocketBody(): seq<Instr> {
    [Ld(Low(0))] + (Among([AF_INET, AF_INET6]) + SocketTypeBody())
  }

  function SocketTypeBody(): seq<Instr> {
    [Ld(Low(1)), And(Not32(SOCK_TYPE_FLAGS)), Jeq(SOCK_STREAM, 1, 0), Jeq(SOCK_DGRAM, 0, 1), Ret(ALLOW), Ret(KILL)]
  }

  predicate InternetSocket(d: SyscallData) {
    var kind := BitAnd(d.low.a1, Not32(SOCK_TYPE_FLAGS));
    d.low.a0 in [AF_INET, AF_INET6] && (kind == SOCK_STREAM || kind == SOCK_DGRAM)
  }

  function FcntlBody(): seq<Instr> {
    [Ld(Low(1))] + AllowWords(FCNTL_COMMANDS)
  }

  const MAP_PLAIN: nat := MAP_PRIVATE + MAP_ANONYMOUS
  const MAP_KNOWN: nat := MAP_PRIVATE + MAP_ANONYMOUS + MAP_STACK + MAP_FIXED + MAP_NORESERVE

  function MmapBody(): seq<Instr> {
    [Ld(Low(3)), Jeq(MAP_DROPPABLE + MAP_ANONYMOUS, 0, 1), Ret(ERRNO + EINVAL),
     Ld(Low(2)), Jset(PROT_EXEC, 0, 1), Ret(KILL),
     Ld(Low(3)), And(Not32(MAP_KNOWN)), Jeq(0, 0, 3), Ld(Low(3)), And(MAP_PLAIN), Jeq(MAP_PLAIN, 1, 0), Ret(KILL), Ret(ALLOW)]
  }

  /** The optional droppable mapping is declined; otherwise only non-executable,
      private, anonymous memory. */
  function MmapPolicy(d: SyscallData): nat {
    if d.low.a3 == MAP_DROPPABLE + MAP_ANONYMOUS then ERRNO + EINVAL
    else If(BitAnd(d.low.a2, PROT_EXEC) == 0 && IsPlainMapping(d.low.a3))
  }

  predicate IsPlainMapping(flags: nat) {
    BitAnd(flags, Not32(MAP_KNOWN)) == 0 && BitAnd(flags, MAP_PLAIN) == MAP_PLAIN
  }

  function MremapBody(): seq<Instr> {
    [Ld(Low(3)), And(Not32(MREMAP_MAYMOVE)), Jeq(0, 0, 1), Ret(ALLOW), Ret(KILL)]
  }

  function PrlimitBody(): seq<Instr> {
    [Ld(Low(0)), Jeq(0, 0, 5), Ld(Low(2)), Jeq(0, 0, 3), Ld(High(2)), Jeq(0, 0, 1), Ret(ALLOW), Ret(KILL)]
  }

  /** Reading one's own limits: this process, no new value. */
  predicate ReadsOwnLimit(d: SyscallData) {
    d.low.a0 == 0 && d.low.a2 == 0 && d.high.a2 == 0
  }

  lemma SocketTypeMeaning(acc: nat, d: SyscallData)
    ensures var kind := BitAnd(d.low.a1, Not32(SOCK_TYPE_FLAGS));
      Run(SocketTypeBody(), 0, acc, d) == Verdict(If(kind == SOCK_STREAM || kind == SOCK_DGRAM))
  {
    var p, kind := SocketTypeBody(), BitAnd(d.low.a1, Not32(SOCK_TYPE_FLAGS));
    assert Run(p, 0, acc, d) == Run(p, 1, d.low.a1, d);
    assert Run(p, 1, d.low.a1, d) == Run(p, 2, kind, d);
    assert Run(p, 2, kind, d) == Run(p, if kind == SOCK_STREAM then 4 else 3, kind, d);
    assert Run(p, 3, kind, d) == Run(p, if kind == SOCK_DGRAM then 4 else 5, kind, d);
  }

  lemma SocketMeaning(acc: nat, d: SyscallData)
    ensures Run(SocketBody(), 0, acc, d) == Verdict(If(InternetSocket(d)))
  {
    LdMeaning(Low(0), Among([AF_INET, AF_INET6]) + SocketTypeBody(), acc, d);
    AmongMeaning([AF_INET, AF_INET6], SocketTypeBody(), d.low.a0, d);
    SocketTypeMeaning(d.low.a0, d);
  }

  lemma FcntlMeaning(acc: nat, d: SyscallData)
    ensures Run(FcntlBody(), 0, acc, d) == Verdict(If(d.low.a1 in FCNTL_COMMANDS))
  {
    LdMeaning(Low(1), AllowWords(FCNTL_COMMANDS), acc, d);
    AllowWordsMeaning(FCNTL_COMMANDS, d.low.a1, d);
  }

  lemma MmapFlagsMeaning(acc: nat, d: SyscallData)
    ensures Run(MmapBody(), 6, acc, d) == Verdict(If(IsPlainMapping(d.low.a3)))
  {
    var p, flags := MmapBody(), d.low.a3;
    assert Run(p, 6, acc, d) == Run(p, 7, flags, d);
    assert Run(p, 7, flags, d) == Run(p, 8, BitAnd(flags, Not32(MAP_KNOWN)), d);
    if BitAnd(flags, Not32(MAP_KNOWN)) == 0 {
      assert Run(p, 8, BitAnd(flags, Not32(MAP_KNOWN)), d) == Run(p, 9, 0, d);
      assert Run(p, 9, 0, d) == Run(p, 10, flags, d);
      assert Run(p, 10, flags, d) == Run(p, 11, BitAnd(flags, MAP_PLAIN), d);
      assert Run(p, 11, BitAnd(flags, MAP_PLAIN), d) == Run(p, if BitAnd(flags, MAP_PLAIN) == MAP_PLAIN then 13 else 12, BitAnd(flags, MAP_PLAIN), d);
    } else {
      assert Run(p, 8, BitAnd(flags, Not32(MAP_KNOWN)), d) == Run(p, 12, BitAnd(flags, Not32(MAP_KNOWN)), d);
    }
  }

  lemma MmapProtectionMeaning(acc: nat, d: SyscallData)
    ensures Run(MmapBody(), 3, acc, d)
         == if BitAnd(d.low.a2, PROT_EXEC) != 0 then Verdict(KILL) else Run(MmapBody(), 6, d.low.a2, d)
  {
    var p, protection := MmapBody(), d.low.a2;
    assert Run(p, 3, acc, d) == Run(p, 4, protection, d);
    assert Run(p, 4, protection, d) == Run(p, if BitAnd(protection, PROT_EXEC) != 0 then 5 else 6, protection, d);
  }

  lemma MmapDroppableMeaning(acc: nat, d: SyscallData)
    ensures Run(MmapBody(), 0, acc, d)
         == if d.low.a3 == MAP_DROPPABLE + MAP_ANONYMOUS then Verdict(ERRNO + EINVAL) else Run(MmapBody(), 3, d.low.a3, d)
  {
    var p, flags := MmapBody(), d.low.a3;
    assert Run(p, 0, acc, d) == Run(p, 1, flags, d);
    if flags == MAP_DROPPABLE + MAP_ANONYMOUS {
      assert Run(p, 1, flags, d) == Run(p, 2, flags, d);
    } else {
      assert Run(p, 1, flags, d) == Run(p, 3, flags, d);
    }
  }

  lemma MmapMeaning(acc: nat, d: SyscallData)
    ensures Run(MmapBody(), 0, acc, d) == Verdict(MmapPolicy(d))
  {
    MmapDroppableMeaning(acc, d);
    MmapProtectionMeaning(d.low.a3, d);
    MmapFlagsMeaning(d.low.a2, d);
  }

  lemma MremapMeaning(acc: nat, d: SyscallData)
    ensures Run(MremapBody(), 0, acc, d) == Verdict(If(BitAnd(d.low.a3, Not32(MREMAP_MAYMOVE)) == 0))
  {
    var p, others := MremapBody(), BitAnd(d.low.a3, Not32(MREMAP_MAYMOVE));
    assert Run(p, 0, acc, d) == Run(p, 1, d.low.a3, d);
    assert Run(p, 1, d.low.a3, d) == Run(p, 2, others, d);
    assert Run(p, 2, others, d) == Run(p, if others == 0 then 3 else 4, others, d);
  }

  lemma PrlimitMeaning(acc: nat, d: SyscallData)
    ensures Run(PrlimitBody(), 0, acc, d) == Verdict(If(ReadsOwnLimit(d)))
  {
    var p := PrlimitBody();
    assert Run(p, 0, acc, d) == Run(p, 1, d.low.a0, d);
    assert Run(p, 1, d.low.a0, d) == Run(p, if d.low.a0 == 0 then 2 else 7, d.low.a0, d);
    assert Run(p, 2, d.low.a0, d) == Run(p, 3, d.low.a2, d);
    assert Run(p, 3, d.low.a2, d) == Run(p, if d.low.a2 == 0 then 4 else 7, d.low.a2, d);
    assert Run(p, 4, d.low.a2, d) == Run(p, 5, d.high.a2, d);
    assert Run(p, 5, d.high.a2, d) == Run(p, if d.high.a2 == 0 then 6 else 7, d.high.a2, d);
  }

  // ----- the table -----

  function Rule(nr: nat, body: seq<Instr>): Block {
    Block(nr, body, Reload)
  }

  function Files(rest: seq<Block>): seq<Block> {
    Uniform(MISSING_FILES, ERRNO + ENOENT, Reload) + rest
  }

  function Threads(rest: seq<Block>): seq<Block> {
    [Rule(SYS_CLONE3, [Ret(ERRNO + ENOSYS)])] + ([Rule(SYS_PRCTL, [Ret(ERRNO + EINVAL)])]
    + ([Rule(SYS_CLONE, OnlyWord(Low(0), THREAD_CLONE_FLAGS))] + rest))
  }

  function Descriptors(rest: seq<Block>): seq<Block> {
    [Rule(SYS_SOCKET, SocketBody())] + ([Block(SYS_ACCEPT4, [Ret(ALLOW)], Plain)]
    + ([Rule(SYS_FCNTL, FcntlBody())] + ([Rule(SYS_IOCTL, OnlyWord(Low(1), FIONBIO))] + rest)))
  }

  function Memory(rest: seq<Block>): seq<Block> {
    [Rule(SYS_MMAP, MmapBody())] + ([Rule(SYS_MREMAP, MremapBody())] + ([Rule(SYS_MPROTECT, NoExecBody())] + rest))
  }

  function Process(pid: nat, rest: seq<Block>): seq<Block> {
    [Rule(SYS_PRLIMIT64, PrlimitBody())] + ([Rule(SYS_TGKILL, OnlyWord(Low(0), pid))] + rest)
  }

  function Ordinary(): seq<Block> {
    Uniform(DNS_ALLOWED, ALLOW, Plain) + Uniform(DNS_ALLOWED_X86, ALLOW, Plain)
  }

  function DnsBlocks(pid: nat): seq<Block> {
    Files(Threads(Descriptors(Memory(Process(pid, Ordinary())))))
  }

  function Else(first: Option<nat>, second: Option<nat>): Option<nat> {
    if first.Some? then first else second
  }

  function ThreadPolicy(d: SyscallData): Option<nat> {
    if d.nr == SYS_CLONE3 then Some(ERRNO + ENOSYS)
    else if d.nr == SYS_PRCTL then Some(ERRNO + EINVAL)
    else if d.nr == SYS_CLONE then Some(If(d.low.a0 == THREAD_CLONE_FLAGS))
    else None
  }

  function DescriptorPolicy(d: SyscallData): Option<nat> {
    if d.nr == SYS_SOCKET then Some(If(InternetSocket(d)))
    else if d.nr == SYS_ACCEPT4 then Some(ALLOW)
    else if d.nr == SYS_FCNTL then Some(If(d.low.a1 in FCNTL_COMMANDS))
    else if d.nr == SYS_IOCTL then Some(If(d.low.a1 == FIONBIO))
    else None
  }

  function MemoryPolicy(d: SyscallData): Option<nat> {
    if d.nr == SYS_MMAP then Some(MmapPolicy(d))
    else if d.nr == SYS_MREMAP then Some(If(BitAnd(d.low.a3, Not32(MREMAP_MAYMOVE)) == 0))
    else if d.nr == SYS_MPROTECT then Some(If(BitAnd(d.low.a2, PROT_EXEC) == 0))
    else None
  }

  function ProcessPolicy(pid: nat, d: SyscallData): Option<nat> {
    if d.nr == SYS_PRLIMIT64 then Some(If(ReadsOwnLimit(d)))
    else if d.nr == SYS_TGKILL then Some(If(d.low.a0 == pid))
    else None
  }

  /** `pid` is the process the filter is installed for. */
  function DnsPolicy(pid: nat, d: SyscallData): nat {
    if d.arch != ARCH then KILL
    else if d.nr in MISSING_FILES then ERRNO + ENOENT
    else OrKill(Else(ThreadPolicy(d), Else(DescriptorPolicy(d), Else(MemoryPolicy(d), Else(ProcessPolicy(pid, d),
      if d.nr in DNS_ALLOWED || d.nr in DNS_ALLOWED_X86 then Some(ALLOW) else None)))))
  }

  // ----- the program is the policy -----

  lemma RetMeans(nr: nat, verdict: nat, tail: Tail, d: SyscallData)
    ensures Means(Block(nr, [Ret(verdict)], tail), d, verdict)
  {
  }

  lemma OnlyWordMeans(nr: nat, offset: nat, word: nat, d: SyscallData)
    requires forall e: SyscallData :: Load(e, offset).Some?
    ensures Means(Rule(nr, OnlyWord(offset, word)), d, If(Load(d, offset).value == word))
  {
    forall acc, e ensures Run(OnlyWord(offset, word), 0, acc, e).Verdict? { OnlyWordMeaning(offset, word, acc, e); }
    OnlyWordMeaning(offset, word, nr, d);
  }

  lemma SocketMeans(d: SyscallData)
    ensures Means(Rule(SYS_SOCKET, SocketBody()), d, If(InternetSocket(d)))
  {
    forall acc, e ensures Run(SocketBody(), 0, acc, e).Verdict? { SocketMeaning(acc, e); }
    SocketMeaning(SYS_SOCKET, d);
    AmongLength([AF_INET, AF_INET6]);
  }

  lemma FcntlMeans(d: SyscallData)
    ensures Means(Rule(SYS_FCNTL, FcntlBody()), d, If(d.low.a1 in FCNTL_COMMANDS))
  {
    forall acc, e ensures Run(FcntlBody(), 0, acc, e).Verdict? { FcntlMeaning(acc, e); }
    FcntlMeaning(SYS_FCNTL, d);
    AllowWordsLength(FCNTL_COMMANDS);
  }

  lemma MmapMeans(d: SyscallData)
    ensures Means(Rule(SYS_MMAP, MmapBody()), d, MmapPolicy(d))
  {
    forall acc, e ensures Run(MmapBody(), 0, acc, e).Verdict? { MmapMeaning(acc, e); }
    MmapMeaning(SYS_MMAP, d);
  }

  lemma MremapMeans(d: SyscallData)
    ensures Means(Rule(SYS_MREMAP, MremapBody()), d, If(BitAnd(d.low.a3, Not32(MREMAP_MAYMOVE)) == 0))
  {
    forall acc, e ensures Run(MremapBody(), 0, acc, e).Verdict? { MremapMeaning(acc, e); }
    MremapMeaning(SYS_MREMAP, d);
  }

  lemma MprotectMeans(d: SyscallData)
    ensures Means(Rule(SYS_MPROTECT, NoExecBody()), d, If(BitAnd(d.low.a2, PROT_EXEC) == 0))
  {
    forall acc, e ensures Run(NoExecBody(), 0, acc, e).Verdict? { NoExecMeaning(acc, e); }
    NoExecMeaning(SYS_MPROTECT, d);
  }

  lemma PrlimitMeans(d: SyscallData)
    ensures Means(Rule(SYS_PRLIMIT64, PrlimitBody()), d, If(ReadsOwnLimit(d)))
  {
    forall acc, e ensures Run(PrlimitBody(), 0, acc, e).Verdict? { PrlimitMeaning(acc, e); }
    PrlimitMeaning(SYS_PRLIMIT64, d);
  }

  lemma ThreadsMeaning(rest: seq<Block>, d: SyscallData)
    requires AllWellFormed(rest)
    ensures AllWellFormed(Threads(rest)) && FirstMatch(Threads(rest), d) == Else(ThreadPolicy(d), FirstMatch(rest, d))
  {
    var clone := Rule(SYS_CLONE, OnlyWord(Low(0), THREAD_CLONE_FLAGS));
    OnlyWordMeans(SYS_CLONE, Low(0), THREAD_CLONE_FLAGS, d);
    Prepend(clone, rest, d, If(d.low.a0 == THREAD_CLONE_FLAGS));
    RetMeans(SYS_PRCTL, ERRNO + EINVAL, Reload, d);
    Prepend(Rule(SYS_PRCTL, [Ret(ERRNO + EINVAL)]), [clone] + rest, d, ERRNO + EINVAL);
    RetMeans(SYS_CLONE3, ERRNO + ENOSYS, Reload, d);
    Prepend(Rule(SYS_CLONE3, [Ret(ERRNO + ENOSYS)]), [Rule(SYS_PRCTL, [Ret(ERRNO + EINVAL)])] + ([clone] + rest), d, ERRNO + ENOSYS);
  }

  lemma DescriptorsMeaning(rest: seq<Block>, d: SyscallData)
    requires AllWellFormed(rest)
    ensures AllWellFormed(Descriptors(rest)) && FirstMatch(Descriptors(rest), d) == Else(DescriptorPolicy(d), FirstMatch(rest, d))
  {
    var ioctl := Rule(SYS_IOCTL, OnlyWord(Low(1), FIONBIO));
    OnlyWordMeans(SYS_IOCTL, Low(1), FIONBIO, d);
    Prepend(ioctl, rest, d, If(d.low.a1 == FIONBIO));
    var r1 := [ioctl] + rest;
    FcntlMeans(d);
    Prepend(Rule(SYS_FCNTL, FcntlBody()), r1, d, If(d.low.a1 in FCNTL_COMMANDS));
    var r2 := [Rule(SYS_FCNTL, FcntlBody())] + r1;
    RetMeans(SYS_ACCEPT4, ALLOW, Plain, d);
    Prepend(Block(SYS_ACCEPT4, [Ret(ALLOW)], Plain), r2, d, ALLOW);
    SocketMeans(d);
    Prepend(Rule(SYS_SOCKET, SocketBody()), [Block(SYS_ACCEPT4, [Ret(ALLOW)], Plain)] + r2, d, If(InternetSocket(d)));
  }

  lemma MemoryMeaning(rest: seq<Block>, d: SyscallData)
    requires AllWellFormed(rest)
    ensures AllWellFormed(Memory(rest)) && FirstMatch(Memory(rest), d) == Else(MemoryPolicy(d), FirstMatch(rest, d))
  {
    MprotectMeans(d);
    Prepend(Rule(SYS_MPROTECT, NoExecBody()), rest, d, If(BitAnd(d.low.a2, PROT_EXEC) == 0));
    var r1 := [Rule(SYS_MPROTECT, NoExecBody())] + rest;
    MremapMeans(d);
    Prepend(Rule(SYS_MREMAP, MremapBody()), r1, d, If(BitAnd(d.low.a3, Not32(MREMAP_MAYMOVE)) == 0));
    MmapMeans(d);
    Prepend(Rule(SYS_MMAP, MmapBody()), [Rule(SYS_MREMAP, MremapBody())] + r1, d, MmapPolicy(d));
  }

  lemma ProcessMeaning(pid: nat, rest: seq<Block>, d: SyscallData)
    requires AllWellFormed(rest)
    ensures AllWellFormed(Process(pid, rest)) && FirstMatch(Process(pid, rest), d) == Else(ProcessPolicy(pid, d), FirstMatch(rest, d))
  {
    var tgkill := Rule(SYS_TGKILL, OnlyWord(Low(0), pid));
    OnlyWordMeans(SYS_TGKILL, Low(0), pid, d);
    Prepend(tgkill, rest, d, If(d.low.a0 == pid));
    PrlimitMeans(d);
    Prepend(Rule(SYS_PRLIMIT64, PrlimitBody()), [tgkill] + rest, d, If(ReadsOwnLimit(d)));
  }

  lemma OrdinaryMeaning(d: SyscallData)
    ensures AllWellFormed(Ordinary())
    ensures FirstMatch(Ordinary(), d) == if d.nr in DNS_ALLOWED || d.nr in DNS_ALLOWED_X86 then Some(ALLOW) else None
  {
    UniformMeaning(DNS_ALLOWED, ALLOW, Plain, d);
    UniformMeaning(DNS_ALLOWED_X86, ALLOW, Plain, d);
    FirstMatchAppend(Uniform(DNS_ALLOWED, ALLOW, Plain), Uniform(DNS_ALLOWED_X86, ALLOW, Plain), d);
  }

  /** The program the DNS service installs is its policy on every input. */
  lemma DnsProgramIsPolicy(pid: nat, acc: nat, d: SyscallData)
    ensures Run(Assemble(ARCH, DnsBlocks(pid)), 0, acc, d) == Verdict(DnsPolicy(pid, d))
  {
    var r1 := Process(pid, Ordinary());
    var r2 := Memory(r1);
    var r3 := Descriptors(r2);
    OrdinaryMeaning(d);
    ProcessMeaning(pid, Ordinary(), d);
    MemoryMeaning(r1, d);
    DescriptorsMeaning(r2, d);
    ThreadsMeaning(r3, d);
    UniformMeaning(MISSING_FILES, ERRNO + ENOENT, Reload, d);
    FirstMatchAppend(Uniform(MISSING_FILES, ERRNO + ENOENT, Reload), Threads(r3), d);
    AssembledMeaning(ARCH, DnsBlocks(pid), acc, d);
  }
}
