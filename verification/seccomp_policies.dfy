/** The idioms of the hand-written filter blocks and what they mean, and the programs of
    the provider (plain and spliced) and of the SOCKS service, each equal to its policy. Numbers
    are those of x86_64 Linux. */
module SeccompPolicies {
  import opened Common
  import opened Bpf

  const ARCH: nat := 0xc000_003e

  const SYS_READ: nat := 0
  const SYS_WRITE: nat := 1
  const SYS_OPEN: nat := 2
  const SYS_CLOSE: nat := 3
  const SYS_FSTAT: nat := 5
  const SYS_POLL: nat := 7
  const SYS_LSEEK: nat := 8
  const SYS_MMAP: nat := 9
  const SYS_MPROTECT: nat := 10
  const SYS_MUNMAP: nat := 11
  const SYS_BRK: nat := 12
  const SYS_RT_SIGACTION: nat := 13
  const SYS_RT_SIGPROCMASK: nat := 14
  const SYS_RT_SIGRETURN: nat := 15
  const SYS_IOCTL: nat := 16
  const SYS_READV: nat := 19
  const SYS_WRITEV: nat := 20
  const SYS_SCHED_YIELD: nat := 24
  const SYS_MREMAP: nat := 25
  const SYS_MADVISE: nat := 28
  const SYS_NANOSLEEP: nat := 35
  const SYS_GETPID: nat := 39
  const SYS_SOCKET: nat := 41
  const SYS_CONNECT: nat := 42
  const SYS_SENDTO: nat := 44
  const SYS_RECVFROM: nat := 45
  const SYS_SENDMSG: nat := 46
  const SYS_RECVMSG: nat := 47
  const SYS_SHUTDOWN: nat := 48
  const SYS_GETSOCKNAME: nat := 51
  const SYS_GETPEERNAME: nat := 52
  const SYS_SETSOCKOPT: nat := 54
  const SYS_GETSOCKOPT: nat := 55
  const SYS_CLONE: nat := 56
  const SYS_EXIT: nat := 60
  const SYS_FCNTL: nat := 72
  const SYS_READLINK: nat := 89
  const SYS_GETUID: nat := 102
  const SYS_GETEUID: nat := 107
  const SYS_SIGALTSTACK: nat := 131
  const SYS_PRCTL: nat := 157
  const SYS_GETTID: nat := 186
  const SYS_FUTEX: nat := 202
  const SYS_SCHED_GETAFFINITY: nat := 204
  const SYS_RESTART_SYSCALL: nat := 219
  const SYS_CLOCK_GETTIME: nat := 228
  const SYS_CLOCK_NANOSLEEP: nat := 230
  const SYS_EXIT_GROUP: nat := 231
  const SYS_EPOLL_WAIT: nat := 232
  const SYS_EPOLL_CTL: nat := 233
  const SYS_TGKILL: nat := 234
  const SYS_OPENAT: nat := 257
  const SYS_NEWFSTATAT: nat := 262
  const SYS_READLINKAT: nat := 267
  const SYS_PPOLL: nat := 271
  const SYS_SET_ROBUST_LIST: nat := 273
  const SYS_EPOLL_PWAIT: nat := 281
  const SYS_ACCEPT4: nat := 288
  const SYS_EVENTFD2: nat := 290
  const SYS_EPOLL_CREATE1: nat := 291
  const SYS_PRLIMIT64: nat := 302
  const SYS_GETRANDOM: nat := 318
  const SYS_STATX: nat := 332
  const SYS_RSEQ: nat := 334
  const SYS_CLONE3: nat := 435

  const ERRNO: nat := 0x50000
  const ENOENT: nat := 2
  const EINVAL: nat := 22
  const ENOSYS: nat := 38

  const THREAD_CLONE_FLAGS: nat := 0x3d_0f00
  const AF_INET: nat := 2
  const AF_INET6: nat := 10
  const SOCK_STREAM: nat := 1
  const SOCK_DGRAM: nat := 2
  const SOCK_NONBLOCK: nat := 0x800
  const SOCK_CLOEXEC: nat := 0x8_0000
  const F_GETFD: nat := 1
  const F_SETFD: nat := 2
  const F_GETFL: nat := 3
  const F_SETFL: nat := 4
  const F_DUPFD_CLOEXEC: nat := 1030
  const FIONBIO: nat := 0x5421
  const PROT_EXEC: nat := 4
  const MAP_PRIVATE: nat := 0x2
  const MAP_DROPPABLE: nat := 0x8
  const MAP_FIXED: nat := 0x10
  const MAP_ANONYMOUS: nat := 0x20
  const MAP_NORESERVE: nat := 0x4000
  const MAP_STACK: nat := 0x2_0000
  const MREMAP_MAYMOVE: nat := 1
  const MSG_TRUNC: nat := 0x20
  const MSG_DONTWAIT: nat := 0x40
  const MSG_NOSIGNAL: nat := 0x4000
  const MSG_CMSG_CLOEXEC: nat := 0x4000_0000
  const EPOLL_CTL_ADD: nat := 1
  const EPOLL_CTL_DEL: nat := 2
  const EPOLL_CTL_MOD: nat := 3
  const EPOLL_EVENT_BATCH: nat := 64

  // ----- body idioms -----

  /** Offsets of the two words of an argument. */
  function Low(n: nat): nat
    requires n < 6
  {
    if n == 0 then 16 else if n == 1 then 24 else if n == 2 then 32 else if n == 3 then 40 else if n == 4 then 48 else 56
  }

  function High(n: nat): nat
    requires n < 6
  {
    if n == 0 then 20 else if n == 1 then 28 else if n == 2 then 36 else if n == 3 then 44 else if n == 4 then 52 else 60
  }

  function Ld(offset: nat): Instr {
    Stmt(LD_ABS, offset)
  }

  function And(mask: nat): Instr {
    Stmt(ALU_AND, mask)
  }

  function Jset(mask: nat, jt: nat, jf: nat): Instr {
    Instr(JMP_JSET, jt, jf, mask)
  }

  /** Kill unless the accumulator is one of the words; each hit jumps past the rest. */
  function Among(words: seq<nat>): seq<Instr> {
    if words == [] then [Ret(KILL)] else [Jeq(words[0], |words|, 0)] + Among(words[1..])
  }

  lemma {:induction false} AmongLength(words: seq<nat>)
    ensures |Among(words)| == |words| + 1
  {
    if words != [] {
      AmongLength(words[1..]);
    }
  }

  lemma {:induction false} AmongMeaning(words: seq<nat>, rest: seq<Instr>, acc: nat, d: SyscallData)
    ensures Run(Among(words) + rest, 0, acc, d) == if acc in words then Run(rest, 0, acc, d) else Verdict(KILL)
  {
    var p := Among(words) + rest;
    AmongLength(words);
    if words != [] {
      if acc == words[0] {
        assert Execute(p[0], acc, d) == Skip(|words|, acc);
        RunIsPositionIndependent(Among(words), rest, 0, acc, d);
      } else {
        assert p == [Jeq(words[0], |words|, 0)] + (Among(words[1..]) + rest);
        assert Execute(p[0], acc, d) == Skip(0, acc);
        RunIsPositionIndependent([Jeq(words[0], |words|, 0)], Among(words[1..]) + rest, 0, acc, d);
        AmongMeaning(words[1..], rest, acc, d);
      }
    }
  }

  /** Allow any of the words, kill the rest. */
  function AllowWords(words: seq<nat>): seq<Instr> {
    if words == [] then [Ret(KILL)] else [Jeq(words[0], 0, 1), Ret(ALLOW)] + AllowWords(words[1..])
  }

  lemma {:induction false} AllowWordsLength(words: seq<nat>)
    ensures |AllowWords(words)| == 2 * |words| + 1
  {
    if words != [] {
      AllowWordsLength(words[1..]);
    }
  }

  lemma {:induction false} AllowWordsMeaning(words: seq<nat>, acc: nat, d: SyscallData)
    ensures Run(AllowWords(words), 0, acc, d) == Verdict(if acc in words then ALLOW else KILL)
  {
    if words != [] {
      var head := [Jeq(words[0], 0, 1), Ret(ALLOW)];
      RunIsPositionIndependent(head, AllowWords(words[1..]), 0, acc, d);
      AllowWordsMeaning(words[1..], acc, d);
    }
  }

  lemma LdMeaning(offset: nat, rest: seq<Instr>, acc: nat, d: SyscallData)
    requires Load(d, offset).Some?
    ensures Run([Ld(offset)] + rest, 0, acc, d) == Run(rest, 0, Load(d, offset).value, d)
  {
    RunIsPositionIndependent([Ld(offset)], rest, 0, Load(d, offset).value, d);
  }

  /** A word of the record that must have one value. */
  datatype Need = Need(offset: nat, word: nat)

  function RequireAll(needs: seq<Need>): seq<Instr> {
    if needs == [] then []
    else [Ld(needs[0].offset), Jeq(needs[0].word, 1, 0), Ret(KILL)] + RequireAll(needs[1..])
  }

  predicate Met(needs: seq<Need>, d: SyscallData) {
    forall i :: 0 <= i < |needs| ==> Load(d, needs[i].offset) == Some(needs[i].word)
  }

  predicate Loadable(needs: seq<Need>, d: SyscallData) {
    forall i :: 0 <= i < |needs| ==> Load(d, needs[i].offset).Some?
  }

  lemma MetSplits(needs: seq<Need>, d: SyscallData)
    requires needs != []
    ensures Met(needs, d) <==> Load(d, needs[0].offset) == Some(needs[0].word) && Met(needs[1..], d)
  {
    assert forall i :: 0 < i < |needs| ==> needs[i] == needs[1..][i - 1];
  }

  lemma RequireMeaning(n: Need, rest: seq<Instr>, acc: nat, d: SyscallData)
    requires Load(d, n.offset).Some?
    ensures Run([Ld(n.offset), Jeq(n.word, 1, 0), Ret(KILL)] + rest, 0, acc, d)
         == if Load(d, n.offset).value == n.word then Run(rest, 0, n.word, d) else Verdict(KILL)
  {
    var word := Load(d, n.offset).value;
    assert [Ld(n.offset), Jeq(n.word, 1, 0), Ret(KILL)] + rest == [Ld(n.offset)] + ([Jeq(n.word, 1, 0), Ret(KILL)] + rest);
    LdMeaning(n.offset, [Jeq(n.word, 1, 0), Ret(KILL)] + rest, acc, d);
    assert Among([n.word]) == [Jeq(n.word, 1, 0), Ret(KILL)];
    AmongMeaning([n.word], rest, word, d);
  }

  /** Needs in sequence, then any code that does not depend on the accumulator. */
  lemma {:induction false} RequireAllMeaning(needs: seq<Need>, rest: seq<Instr>, acc: nat, d: SyscallData, outcome: Outcome)
    requires Loadable(needs, d)
    requires forall a :: Run(rest, 0, a, d) == outcome
    ensures Run(RequireAll(needs) + rest, 0, acc, d) == if Met(needs, d) then outcome else Verdict(KILL)
  {
    if needs == [] {
      assert RequireAll(needs) + rest == rest;
    } else {
      var first := [Ld(needs[0].offset), Jeq(needs[0].word, 1, 0), Ret(KILL)];
      assert RequireAll(needs) + rest == first + (RequireAll(needs[1..]) + rest);
      RequireMeaning(needs[0], RequireAll(needs[1..]) + rest, acc, d);
      RequireAllMeaning(needs[1..], rest, needs[0].word, d, outcome);
      MetSplits(needs, d);
    }
  }

  /** Load, compare, allow on equality. */
  function OnlyWord(offset: nat, word: nat): seq<Instr> {
    [Ld(offset), Jeq(word, 0, 1), Ret(ALLOW), Ret(KILL)]
  }

  lemma OnlyWordMeaning(offset: nat, word: nat, acc: nat, d: SyscallData)
    requires Load(d, offset).Some?
    ensures Run(OnlyWord(offset, word), 0, acc, d) == Verdict(if Load(d, offset).value == word then ALLOW else KILL)
  {
    var p := OnlyWord(offset, word);
    var w := Load(d, offset).value;
    assert Run(p, 0, acc, d) == Run(p, 1, w, d);
    assert Run(p, 1, w, d) == Run(p, if w == word then 2 else 3, w, d);
  }

  // ----- bodies shared by the network filters -----

  function DatagramNeeds(flags: nat): seq<Need> {
    [Need(Low(3), flags), Need(Low(4), 0), Need(High(4), 0), Need(Low(5), 0)]
  }

  function DatagramBody(flags: nat): seq<Instr> {
    RequireAll(DatagramNeeds(flags)) + OnlyWord(High(5), 0)
  }

  lemma DatagramNeedsMet(flags: nat, d: SyscallData)
    ensures Loadable(DatagramNeeds(flags), d)
    ensures Met(DatagramNeeds(flags), d) <==> d.low.a3 == flags && d.low.a4 == 0 && d.high.a4 == 0 && d.low.a5 == 0
  {
    var needs := DatagramNeeds(flags);
    assert needs[0] == Need(40, flags) && needs[1] == Need(48, 0) && needs[2] == Need(52, 0) && needs[3] == Need(56, 0);
  }

  /** Send or receive with exactly these flags and no address buffer. */
  predicate PlainDatagram(d: SyscallData, flags: nat) {
    d.low.a3 == flags && d.low.a4 == 0 && d.high.a4 == 0 && d.low.a5 == 0 && d.high.a5 == 0
  }

  function If(allowed: bool): nat {
    if allowed then ALLOW else KILL
  }

  lemma DatagramMeaning(flags: nat, acc: nat, d: SyscallData)
    ensures Run(DatagramBody(flags), 0, acc, d) == Verdict(If(PlainDatagram(d, flags)))
  {
    var needs := DatagramNeeds(flags);
    forall a ensures Run(OnlyWord(High(5), 0), 0, a, d) == Verdict(If(d.high.a5 == 0)) {
      OnlyWordMeaning(High(5), 0, a, d);
    }
    RequireAllMeaning(needs, OnlyWord(High(5), 0), acc, d, Verdict(If(d.high.a5 == 0)));
    DatagramNeedsMet(flags, d);
  }

  /** A body that allows exactly when all its needs are met. */
  function NeedsBody(needs: seq<Need>): seq<Instr> {
    RequireAll(needs) + [Ret(ALLOW)]
  }

  lemma NeedsMeaning(needs: seq<Need>, acc: nat, d: SyscallData)
    requires Loadable(needs, d)
    ensures Run(NeedsBody(needs), 0, acc, d) == Verdict(If(Met(needs, d)))
  {
    RequireAllMeaning(needs, [Ret(ALLOW)], acc, d, Verdict(ALLOW));
  }

  function EpollCtlBody(): seq<Instr> {
    [Ld(Low(1))] + (Among([EPOLL_CTL_ADD, EPOLL_CTL_MOD, EPOLL_CTL_DEL]) + NeedsBody([Need(High(1), 0)]))
  }

  predicate KnownEpollCtl(d: SyscallData) {
    d.low.a1 in [EPOLL_CTL_ADD, EPOLL_CTL_MOD, EPOLL_CTL_DEL] && d.high.a1 == 0
  }

  lemma EpollCtlMeaning(acc: nat, d: SyscallData)
    ensures Run(EpollCtlBody(), 0, acc, d) == Verdict(If(KnownEpollCtl(d)))
  {
    var ops, needs := [EPOLL_CTL_ADD, EPOLL_CTL_MOD, EPOLL_CTL_DEL], [Need(High(1), 0)];
    LdMeaning(Low(1), Among(ops) + NeedsBody(needs), acc, d);
    AmongMeaning(ops, NeedsBody(needs), d.low.a1, d);
    NeedsMeaning(needs, d.low.a1, d);
    assert Met(needs, d) <==> d.high.a1 == 0 by { assert needs[0].word == 0; }
  }

  const PWAIT_NEEDS: seq<Need> :=
    [Need(Low(2), EPOLL_EVENT_BATCH), Need(High(2), 0), Need(Low(4), 0), Need(High(4), 0), Need(Low(5), 0), Need(High(5), 0)]

  predicate BatchedWait(d: SyscallData) {
    d.low.a2 == EPOLL_EVENT_BATCH && d.high.a2 == 0 && d.low.a4 == 0 && d.high.a4 == 0 && d.low.a5 == 0 && d.high.a5 == 0
  }

  lemma PwaitNeedsMet(d: SyscallData)
    ensures Loadable(PWAIT_NEEDS, d)
    ensures Met(PWAIT_NEEDS, d) <==> BatchedWait(d)
  {
    var needs := PWAIT_NEEDS;
    assert needs[0] == Need(32, 64) && needs[1] == Need(36, 0) && needs[2] == Need(48, 0)
        && needs[3] == Need(52, 0) && needs[4] == Need(56, 0) && needs[5] == Need(60, 0);
  }

  lemma EpollPwaitMeaning(acc: nat, d: SyscallData)
    ensures Run(NeedsBody(PWAIT_NEEDS), 0, acc, d) == Verdict(If(BatchedWait(d)))
  {
    PwaitNeedsMet(d);
    NeedsMeaning(PWAIT_NEEDS, acc, d);
  }

  lemma OneNeedMeaning(n: Need, acc: nat, d: SyscallData)
    requires Load(d, n.offset).Some?
    ensures Run(NeedsBody([n]), 0, acc, d) == Verdict(If(Load(d, n.offset).value == n.word))
  {
    NeedsMeaning([n], acc, d);
    assert [n][0] == n;
  }

  function NoExecBody(): seq<Instr> {
    [Ld(Low(2)), Jset(PROT_EXEC, 0, 1), Ret(KILL), Ret(ALLOW)]
  }

  lemma NoExecMeaning(acc: nat, d: SyscallData)
    ensures Run(NoExecBody(), 0, acc, d) == Verdict(If(BitAnd(d.low.a2, PROT_EXEC) == 0))
  {
    var p := NoExecBody();
    assert Run(p, 0, acc, d) == Run(p, 1, d.low.a2, d);
  }

  const PROVIDER_IOCTLS: seq<nat> := [0x8008_B301, 0xC038_B302, 0x8080_B303, 0x8008_B401, 0xB502, 0xB503]

  function ProviderIoctlBody(): seq<Instr> {
    [Ld(Low(1))] + (Among(PROVIDER_IOCTLS) + [Ret(ALLOW)])
  }

  lemma ProviderIoctlMeaning(acc: nat, d: SyscallData)
    ensures Run(ProviderIoctlBody(), 0, acc, d) == Verdict(If(d.low.a1 in PROVIDER_IOCTLS))
  {
    LdMeaning(Low(1), Among(PROVIDER_IOCTLS) + [Ret(ALLOW)], acc, d);
    AmongMeaning(PROVIDER_IOCTLS, [Ret(ALLOW)], d.low.a1, d);
  }

  // ----- blocks of the network filters -----

  function Datagram(nr: nat, flags: nat): Block {
    Block(nr, DatagramBody(flags), SkippedReload)
  }

  function MessageFlags(nr: nat, flags: nat): Block {
    Block(nr, NeedsBody([Need(Low(2), flags)]), SkippedReload)
  }

  function Accept4(): Block {
    Block(SYS_ACCEPT4, NeedsBody([Need(Low(3), SOCK_CLOEXEC + SOCK_NONBLOCK)]), Reload)
  }

  function FcntlGetFd(): Block {
    Block(SYS_FCNTL, NeedsBody([Need(Low(1), F_GETFD)]), SkippedReload)
  }

  function EpollCtl(): Block {
    Block(SYS_EPOLL_CTL, EpollCtlBody(), Reload)
  }

  function EpollPwait(): Block {
    Block(SYS_EPOLL_PWAIT, NeedsBody(PWAIT_NEEDS), Reload)
  }

  function NoExec(nr: nat): Block {
    Block(nr, NoExecBody(), SkippedReload)
  }

  function ProviderIoctl(): Block {
    Block(SYS_IOCTL, ProviderIoctlBody(), Reload)
  }

  const RECV_FLAGS: nat := MSG_DONTWAIT + MSG_TRUNC
  const SEND_FLAGS: nat := MSG_DONTWAIT + MSG_NOSIGNAL

  function MemoryAndPolling(rest: seq<Block>): seq<Block> {
    [FcntlGetFd()] + ([EpollCtl()] + ([EpollPwait()] + ([NoExec(SYS_MMAP)] + ([NoExec(SYS_MPROTECT)] + rest))))
  }

  /** The block is well formed and answers this input with this verdict. */
  ghost predicate Means(b: Block, d: SyscallData, verdict: nat) {
    WellFormed(b) && BodyVerdict(b, d) == verdict
  }

  lemma {:induction false} RequireAllLength(needs: seq<Need>)
    ensures |RequireAll(needs)| == 3 * |needs|
  {
    if needs != [] {
      RequireAllLength(needs[1..]);
    }
  }

  lemma DatagramMeans(nr: nat, flags: nat, d: SyscallData)
    ensures Means(Datagram(nr, flags), d, If(PlainDatagram(d, flags)))
  {
    forall acc, e ensures Run(DatagramBody(flags), 0, acc, e).Verdict? { DatagramMeaning(flags, acc, e); }
    DatagramMeaning(flags, nr, d);
    RequireAllLength(DatagramNeeds(flags));
  }

  lemma OneNeedMeans(nr: nat, n: Need, tail: Tail, d: SyscallData)
    requires forall e: SyscallData :: Load(e, n.offset).Some?
    ensures Means(Block(nr, NeedsBody([n]), tail), d, If(Load(d, n.offset).value == n.word))
  {
    forall acc, e ensures Run(NeedsBody([n]), 0, acc, e).Verdict? { OneNeedMeaning(n, acc, e); }
    OneNeedMeaning(n, nr, d);
    RequireAllLength([n]);
  }

  lemma Accept4Means(d: SyscallData)
    ensures Means(Accept4(), d, If(d.low.a3 == SOCK_CLOEXEC + SOCK_NONBLOCK))
  {
    OneNeedMeans(SYS_ACCEPT4, Need(Low(3), SOCK_CLOEXEC + SOCK_NONBLOCK), Reload, d);
  }

  lemma EpollCtlMeans(d: SyscallData)
    ensures Means(EpollCtl(), d, If(KnownEpollCtl(d)))
  {
    forall acc, e ensures Run(EpollCtlBody(), 0, acc, e).Verdict? { EpollCtlMeaning(acc, e); }
    EpollCtlMeaning(SYS_EPOLL_CTL, d);
    AmongLength([EPOLL_CTL_ADD, EPOLL_CTL_MOD, EPOLL_CTL_DEL]);
    RequireAllLength([Need(High(1), 0)]);
  }

  lemma EpollPwaitMeans(d: SyscallData)
    ensures Means(EpollPwait(), d, If(BatchedWait(d)))
  {
    forall acc, e ensures Run(NeedsBody(PWAIT_NEEDS), 0, acc, e).Verdict? { EpollPwaitMeaning(acc, e); }
    EpollPwaitMeaning(SYS_EPOLL_PWAIT, d);
    RequireAllLength(PWAIT_NEEDS);
  }

  lemma NoExecMeans(nr: nat, d: SyscallData)
    ensures Means(NoExec(nr), d, If(BitAnd(d.low.a2, PROT_EXEC) == 0))
  {
    forall acc, e ensures Run(NoExecBody(), 0, acc, e).Verdict? { NoExecMeaning(acc, e); }
    NoExecMeaning(nr, d);
  }

  lemma ProviderIoctlMeans(d: SyscallData)
    ensures Means(ProviderIoctl(), d, If(d.low.a1 in PROVIDER_IOCTLS))
  {
    forall acc, e ensures Run(ProviderIoctlBody(), 0, acc, e).Verdict? { ProviderIoctlMeaning(acc, e); }
    ProviderIoctlMeaning(SYS_IOCTL, d);
    AmongLength(PROVIDER_IOCTLS);
  }

  /** Prepending a block whose meaning is known. */
  lemma Prepend(b: Block, rest: seq<Block>, d: SyscallData, verdict: nat)
    requires Means(b, d, verdict) && AllWellFormed(rest)
    ensures AllWellFormed([b] + rest)
    ensures FirstMatch([b] + rest, d) == if d.nr == b.nr then Some(verdict) else FirstMatch(rest, d)
  {
    assert ([b] + rest)[1..] == rest;
  }

  // ----- the provider's filter -----

  const PROVIDER_ALLOWED: seq<nat> :=
    [SYS_READ, SYS_WRITE, SYS_CLOSE, SYS_MUNMAP, SYS_BRK, SYS_MREMAP, SYS_MADVISE, SYS_FUTEX, SYS_GETRANDOM,
     SYS_CLOCK_GETTIME, SYS_RT_SIGACTION, SYS_RT_SIGPROCMASK, SYS_RT_SIGRETURN, SYS_SIGALTSTACK, SYS_RESTART_SYSCALL,
     SYS_EXIT, SYS_EXIT_GROUP]

  function ProviderCore(): seq<Block> {
    [ProviderIoctl()] + MemoryAndPolling(Uniform(PROVIDER_ALLOWED, ALLOW, Plain))
  }

  function LinkControl(on: bool, rest: seq<Block>): seq<Block> {
    if !on then rest
    else [MessageFlags(SYS_RECVMSG, MSG_DONTWAIT + MSG_CMSG_CLOEXEC)] + ([MessageFlags(SYS_SENDMSG, SEND_FLAGS)] + rest)
  }

  function Ethernet(on: bool, rest: seq<Block>): seq<Block> {
    if !on then rest
    else [Datagram(SYS_RECVFROM, RECV_FLAGS)] + ([Datagram(SYS_SENDTO, SEND_FLAGS)] + rest)
  }

  function ProviderBlocks(ethernet: bool, linkControl: bool): seq<Block> {
    Ethernet(ethernet, LinkControl(linkControl, ProviderCore()))
  }

  /** What every network filter says about memory, polling and descriptors. */
  function MemoryAndPollingPolicy(d: SyscallData): Option<nat> {
    if d.nr == SYS_FCNTL then Some(If(d.low.a1 == F_GETFD))
    else if d.nr == SYS_EPOLL_CTL then Some(If(KnownEpollCtl(d)))
    else if d.nr == SYS_EPOLL_PWAIT then Some(If(BatchedWait(d)))
    else if d.nr == SYS_MMAP || d.nr == SYS_MPROTECT then Some(If(BitAnd(d.low.a2, PROT_EXEC) == 0))
    else None
  }

  function ProviderPolicy(ethernet: bool, linkControl: bool, d: SyscallData): nat {
    if d.arch != ARCH then KILL
    else if ethernet && d.nr == SYS_RECVFROM then If(PlainDatagram(d, RECV_FLAGS))
    else if ethernet && d.nr == SYS_SENDTO then If(PlainDatagram(d, SEND_FLAGS))
    else if linkControl && d.nr == SYS_RECVMSG then If(d.low.a2 == MSG_DONTWAIT + MSG_CMSG_CLOEXEC)
    else if linkControl && d.nr == SYS_SENDMSG then If(d.low.a2 == SEND_FLAGS)
    else if d.nr == SYS_IOCTL then If(d.low.a1 in PROVIDER_IOCTLS)
    else if MemoryAndPollingPolicy(d).Some? then MemoryAndPollingPolicy(d).value
    else If(d.nr in PROVIDER_ALLOWED)
  }

  lemma MemoryAndPollingMeaning(rest: seq<Block>, d: SyscallData)
    requires AllWellFormed(rest)
    ensures AllWellFormed(MemoryAndPolling(rest))
    ensures FirstMatch(MemoryAndPolling(rest), d)
         == if MemoryAndPollingPolicy(d).Some? then MemoryAndPollingPolicy(d) else FirstMatch(rest, d)
  {
    NoExecMeans(SYS_MPROTECT, d);
    Prepend(NoExec(SYS_MPROTECT), rest, d, If(BitAnd(d.low.a2, PROT_EXEC) == 0));
    var r1 := [NoExec(SYS_MPROTECT)] + rest;
    NoExecMeans(SYS_MMAP, d);
    Prepend(NoExec(SYS_MMAP), r1, d, If(BitAnd(d.low.a2, PROT_EXEC) == 0));
    var r2 := [NoExec(SYS_MMAP)] + r1;
    EpollPwaitMeans(d);
    Prepend(EpollPwait(), r2, d, If(BatchedWait(d)));
    var r3 := [EpollPwait()] + r2;
    EpollCtlMeans(d);
    Prepend(EpollCtl(), r3, d, If(KnownEpollCtl(d)));
    var r4 := [EpollCtl()] + r3;
    OneNeedMeans(SYS_FCNTL, Need(Low(1), F_GETFD), SkippedReload, d);
    Prepend(FcntlGetFd(), r4, d, If(d.low.a1 == F_GETFD));
  }

  lemma ProviderCoreMeaning(d: SyscallData)
    ensures AllWellFormed(ProviderCore())
    ensures OrKill(FirstMatch(ProviderCore(), d))
         == if d.nr == SYS_IOCTL then If(d.low.a1 in PROVIDER_IOCTLS)
            else if MemoryAndPollingPolicy(d).Some? then MemoryAndPollingPolicy(d).value
            else If(d.nr in PROVIDER_ALLOWED)
  {
    var allowed := Uniform(PROVIDER_ALLOWED, ALLOW, Plain);
    UniformMeaning(PROVIDER_ALLOWED, ALLOW, Plain, d);
    MemoryAndPollingMeaning(allowed, d);
    ProviderIoctlMeans(d);
    Prepend(ProviderIoctl(), MemoryAndPolling(allowed), d, If(d.low.a1 in PROVIDER_IOCTLS));
  }

  lemma LinkControlMeaning(on: bool, rest: seq<Block>, d: SyscallData)
    requires AllWellFormed(rest)
    ensures AllWellFormed(LinkControl(on, rest))
    ensures FirstMatch(LinkControl(on, rest), d)
         == if on && d.nr == SYS_RECVMSG then Some(If(d.low.a2 == MSG_DONTWAIT + MSG_CMSG_CLOEXEC))
            else if on && d.nr == SYS_SENDMSG then Some(If(d.low.a2 == SEND_FLAGS))
            else FirstMatch(rest, d)
  {
    if on {
      OneNeedMeans(SYS_SENDMSG, Need(Low(2), SEND_FLAGS), SkippedReload, d);
      Prepend(MessageFlags(SYS_SENDMSG, SEND_FLAGS), rest, d, If(d.low.a2 == SEND_FLAGS));
      var r1 := [MessageFlags(SYS_SENDMSG, SEND_FLAGS)] + rest;
      OneNeedMeans(SYS_RECVMSG, Need(Low(2), MSG_DONTWAIT + MSG_CMSG_CLOEXEC), SkippedReload, d);
      Prepend(MessageFlags(SYS_RECVMSG, MSG_DONTWAIT + MSG_CMSG_CLOEXEC), r1, d, If(d.low.a2 == MSG_DONTWAIT + MSG_CMSG_CLOEXEC));
    }
  }

  lemma EthernetMeaning(on: bool, rest: seq<Block>, d: SyscallData)
    requires AllWellFormed(rest)
    ensures AllWellFormed(Ethernet(on, rest))
    ensures FirstMatch(Ethernet(on, rest), d)
         == if on && d.nr == SYS_RECVFROM then Some(If(PlainDatagram(d, RECV_FLAGS)))
            else if on && d.nr == SYS_SENDTO then Some(If(PlainDatagram(d, SEND_FLAGS)))
            else FirstMatch(rest, d)
  {
    if on {
      DatagramMeans(SYS_SENDTO, SEND_FLAGS, d);
      Prepend(Datagram(SYS_SENDTO, SEND_FLAGS), rest, d, If(PlainDatagram(d, SEND_FLAGS)));
      var r1 := [Datagram(SYS_SENDTO, SEND_FLAGS)] + rest;
      DatagramMeans(SYS_RECVFROM, RECV_FLAGS, d);
      Prepend(Datagram(SYS_RECVFROM, RECV_FLAGS), r1, d, If(PlainDatagram(d, RECV_FLAGS)));
    }
  }

  /** The provider's program is its policy, for every combination of capabilities. */
  lemma ProviderProgramIsPolicy(ethernet: bool, linkControl: bool, acc: nat, d: SyscallData)
    ensures Run(Assemble(ARCH, ProviderBlocks(ethernet, linkControl)), 0, acc, d)
         == Verdict(ProviderPolicy(ethernet, linkControl, d))
  {
    ProviderCoreMeaning(d);
    LinkControlMeaning(linkControl, ProviderCore(), d);
    EthernetMeaning(ethernet, LinkControl(linkControl, ProviderCore()), d);
    AssembledMeaning(ARCH, ProviderBlocks(ethernet, linkControl), acc, d);
  }

  /** A filter with the resolver's accept4 block at index 4. */
  function Spliced(filter: seq<Instr>): seq<Instr>
    requires |filter| >= 4
  {
    filter[..4] + Code(Accept4()) + filter[4..]
  }

  /** Spliced: accept4 is allowed for one flags word, and every other system call keeps
      its verdict. */
  lemma SplicedProviderIsPolicy(ethernet: bool, linkControl: bool, acc: nat, d: SyscallData)
    ensures Run(Spliced(Assemble(ARCH, ProviderBlocks(ethernet, linkControl))), 0, acc, d)
      == Verdict(if d.arch == ARCH && d.nr == SYS_ACCEPT4 then If(d.low.a3 == SOCK_CLOEXEC + SOCK_NONBLOCK)
                 else ProviderPolicy(ethernet, linkControl, d))
  {
    Accept4Means(d);
    SpliceMeaning(ARCH, Accept4(), CodeOf(ProviderBlocks(ethernet, linkControl)) + [Ret(KILL)], acc, d);
    ProviderProgramIsPolicy(ethernet, linkControl, acc, d);
  }

  // ----- the SOCKS service's filter -----

  const NETWORK_DENIED: seq<nat> := [SYS_IOCTL, SYS_SOCKET, SYS_OPENAT]

  const NETWORK_ALLOWED: seq<nat> :=
    [SYS_READ, SYS_WRITE, SYS_CLOSE, SYS_MUNMAP, SYS_BRK, SYS_MREMAP, SYS_MADVISE, SYS_RT_SIGACTION, SYS_RT_SIGPROCMASK,
     SYS_RT_SIGRETURN, SYS_SIGALTSTACK, SYS_FUTEX, SYS_RESTART_SYSCALL, SYS_CLOCK_GETTIME, SYS_CLOCK_NANOSLEEP,
     SYS_NANOSLEEP, SYS_GETRANDOM, SYS_GETPID, SYS_EXIT, SYS_EXIT_GROUP]

  function NetworkBlocks(): seq<Block> {
    Uniform(NETWORK_DENIED, KILL, Plain)
    + ([Datagram(SYS_SENDTO, SEND_FLAGS)] + ([Datagram(SYS_RECVFROM, RECV_FLAGS)] + ([Accept4()]
    + MemoryAndPolling(Uniform(NETWORK_ALLOWED, ALLOW, Plain)))))
  }

  function NetworkPolicy(d: SyscallData): nat {
    if d.arch != ARCH || d.nr in NETWORK_DENIED then KILL
    else if d.nr == SYS_SENDTO then If(PlainDatagram(d, SEND_FLAGS))
    else if d.nr == SYS_RECVFROM then If(PlainDatagram(d, RECV_FLAGS))
    else if d.nr == SYS_ACCEPT4 then If(d.low.a3 == SOCK_CLOEXEC + SOCK_NONBLOCK)
    else if MemoryAndPollingPolicy(d).Some? then MemoryAndPollingPolicy(d).value
    else If(d.nr in NETWORK_ALLOWED)
  }

  lemma NetworkProgramIsPolicy(acc: nat, d: SyscallData)
    ensures Run(Assemble(ARCH, NetworkBlocks()), 0, acc, d) == Verdict(NetworkPolicy(d))
  {
    var allowed := Uniform(NETWORK_ALLOWED, ALLOW, Plain);
    UniformMeaning(NETWORK_ALLOWED, ALLOW, Plain, d);
    MemoryAndPollingMeaning(allowed, d);
    var r0 := MemoryAndPolling(allowed);
    Accept4Means(d);
    Prepend(Accept4(), r0, d, If(d.low.a3 == SOCK_CLOEXEC + SOCK_NONBLOCK));
    var r1 := [Accept4()] + r0;
    DatagramMeans(SYS_RECVFROM, RECV_FLAGS, d);
    Prepend(Datagram(SYS_RECVFROM, RECV_FLAGS), r1, d, If(PlainDatagram(d, RECV_FLAGS)));
    var r2 := [Datagram(SYS_RECVFROM, RECV_FLAGS)] + r1;
    DatagramMeans(SYS_SENDTO, SEND_FLAGS, d);
    Prepend(Datagram(SYS_SENDTO, SEND_FLAGS), r2, d, If(PlainDatagram(d, SEND_FLAGS)));
    UniformMeaning(NETWORK_DENIED, KILL, Plain, d);
    FirstMatchAppend(Uniform(NETWORK_DENIED, KILL, Plain), [Datagram(SYS_SENDTO, SEND_FLAGS)] + r2, d);
    AssembledMeaning(ARCH, NetworkBlocks(), acc, d);
  }
}
