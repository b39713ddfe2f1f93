/** The builders that push instructions with hand-counted jump offsets onto a
    filter, proved to emit the code of the tables. */
module FilterBuilder {
  import opened Common
  import opened Bpf
  import opened SeccompPolicies
  import opened DnsSandbox

  // ----- listings -----

  lemma RequireCons(n: Need, rest: seq<Need>)
    ensures RequireAll([n] + rest) == [Ld(n.offset), Jeq(n.word, 1, 0), Ret(KILL)] + RequireAll(rest)
  {
    assert ([n] + rest)[1..] == rest;
  }

  lemma AmongCons(word: nat, rest: seq<nat>)
    ensures Among([word] + rest) == [Jeq(word, |rest| + 1, 0)] + Among(rest)
  {
    var words := [word] + rest;
    assert words[0] == word && words[1..] == rest;
    assert Among(words) == [Jeq(words[0], |words|, 0)] + Among(words[1..]);
  }

  lemma DatagramListing(nr: nat, flags: nat)
    ensures Code(Datagram(nr, flags))
         == [Jeq(nr, 0, 17),
             Ld(Low(3)), Jeq(flags, 1, 0), Ret(KILL), Ld(Low(4)), Jeq(0, 1, 0), Ret(KILL), Ld(High(4)), Jeq(0, 1, 0), Ret(KILL),
             Ld(Low(5)), Jeq(0, 1, 0), Ret(KILL), Ld(High(5)), Jeq(0, 0, 1), Ret(ALLOW), Ret(KILL), LoadNr()]
  {
    var needs := DatagramNeeds(flags);
    RequireCons(needs[3], []);
    RequireCons(needs[2], [needs[3]]);
    RequireCons(needs[1], [needs[2], needs[3]]);
    RequireCons(needs[0], [needs[1], needs[2], needs[3]]);
    assert needs == [needs[0]] + [needs[1], needs[2], needs[3]];
    assert [needs[1], needs[2], needs[3]] == [needs[1]] + [needs[2], needs[3]];
    assert [needs[2], needs[3]] == [needs[2]] + [needs[3]];
    assert [needs[3]] == [needs[3]] + [];
  }

  lemma OneNeedListing(nr: nat, n: Need, tail: Tail)
    requires !tail.Plain?
    ensures Code(Block(nr, NeedsBody([n]), tail))
         == [Jeq(nr, 0, if tail.SkippedReload? then 5 else 4), Ld(n.offset), Jeq(n.word, 1, 0), Ret(KILL), Ret(ALLOW), LoadNr()]
  {
    RequireCons(n, []);
    assert [n] == [n] + [];
  }

  lemma EpollCtlListing()
    ensures Code(EpollCtl())
         == [Jeq(SYS_EPOLL_CTL, 0, 9),
             Ld(Low(1)), Jeq(EPOLL_CTL_ADD, 3, 0), Jeq(EPOLL_CTL_MOD, 2, 0), Jeq(EPOLL_CTL_DEL, 1, 0), Ret(KILL),
             Ld(High(1)), Jeq(0, 1, 0), Ret(KILL), Ret(ALLOW), LoadNr()]
  {
    AmongCons(EPOLL_CTL_DEL, []);
    AmongCons(EPOLL_CTL_MOD, [EPOLL_CTL_DEL]);
    AmongCons(EPOLL_CTL_ADD, [EPOLL_CTL_MOD, EPOLL_CTL_DEL]);
    assert [EPOLL_CTL_DEL] == [EPOLL_CTL_DEL] + [];
    assert [EPOLL_CTL_MOD, EPOLL_CTL_DEL] == [EPOLL_CTL_MOD] + [EPOLL_CTL_DEL];
    assert [EPOLL_CTL_ADD, EPOLL_CTL_MOD, EPOLL_CTL_DEL] == [EPOLL_CTL_ADD] + [EPOLL_CTL_MOD, EPOLL_CTL_DEL];
    RequireCons(Need(High(1), 0), []);
    assert [Need(High(1), 0)] == [Need(High(1), 0)] + [];
  }

  lemma EpollPwaitListing()
    ensures Code(EpollPwait())
         == [Jeq(SYS_EPOLL_PWAIT, 0, 19),
             Ld(Low(2)), Jeq(EPOLL_EVENT_BATCH, 1, 0), Ret(KILL), Ld(High(2)), Jeq(0, 1, 0), Ret(KILL),
             Ld(Low(4)), Jeq(0, 1, 0), Ret(KILL), Ld(High(4)), Jeq(0, 1, 0), Ret(KILL),
             Ld(Low(5)), Jeq(0, 1, 0), Ret(KILL), Ld(High(5)), Jeq(0, 1, 0), Ret(KILL), Ret(ALLOW), LoadNr()]
  {
    var n := PWAIT_NEEDS;
    RequireCons(n[5], []);
    RequireCons(n[4], [n[5]]);
    RequireCons(n[3], [n[4], n[5]]);
    RequireCons(n[2], [n[3], n[4], n[5]]);
    RequireCons(n[1], [n[2], n[3], n[4], n[5]]);
    RequireCons(n[0], [n[1], n[2], n[3], n[4], n[5]]);
    assert [n[5]] == [n[5]] + [] && [n[4], n[5]] == [n[4]] + [n[5]] && [n[3], n[4], n[5]] == [n[3]] + [n[4], n[5]];
    assert [n[2], n[3], n[4], n[5]] == [n[2]] + [n[3], n[4], n[5]];
    assert [n[1], n[2], n[3], n[4], n[5]] == [n[1]] + [n[2], n[3], n[4], n[5]];
    assert n == [n[0]] + [n[1], n[2], n[3], n[4], n[5]];
  }

  // ----- assembling front to back -----

  lemma {:induction false} CodeOfAppend(front: seq<Block>, back: seq<Block>)
    ensures CodeOf(front + back) == CodeOf(front) + CodeOf(back)
  {
    if front == [] {
      assert front + back == back;
    } else {
      CodeOfAppend(front[1..], back);
      var all := front + back;
      assert all[0] == front[0] && all[1..] == front[1..] + back;
      Associate(Code(front[0]), CodeOf(front[1..]), CodeOf(back));
    }
  }

  /** Emitting the next block of what remains keeps the whole program in sight. */
  lemma Emitted(code: seq<Instr>, b: Block, rest: seq<Block>, whole: seq<Instr>)
    requires code + CodeOf([b] + rest) == whole
    ensures code + Code(b) + CodeOf(rest) == whole
  {
    assert ([b] + rest)[1..] == rest;
    Associate(code, Code(b), CodeOf(rest));
  }

  lemma EmittedAll(code: seq<Instr>, front: seq<Block>, rest: seq<Block>, whole: seq<Instr>)
    requires code + CodeOf(front + rest) == whole
    ensures code + CodeOf(front) + CodeOf(rest) == whole
  {
    CodeOfAppend(front, rest);
    Associate(code, CodeOf(front), CodeOf(rest));
  }

  class Filter {
    var code: seq<Instr>

    /** Every builder starts from the same four instructions. */
    constructor ()
      ensures code == Prologue(ARCH)
    {
      code := [Stmt(LD_ABS, 4), Jeq(ARCH, 1, 0), Ret(KILL), LoadNr()];
    }

    method Push(i: Instr)
      modifies this
      ensures code == old(code) + [i]
    {
      code := code + [i];
    }

    // ----- the DNS service -----

    method Allow(nr: nat)
      modifies this
      ensures code == old(code) + Code(Block(nr, [Ret(ALLOW)], Plain))
    {
      code := code + [Jeq(nr, 0, 1), Ret(ALLOW)];
    }

    /** The offset must fit its byte: the source aborts otherwise. */
    method AddRule(nr: nat, body: seq<Instr>)
      requires |body| <= 255
      modifies this
      ensures code == old(code) + Code(Rule(nr, body))
    {
      code := code + [Jeq(nr, 0, |body|)];
      code := code + body;
      code := code + [Stmt(LD_ABS, 0)];
    }

    method AllowEach(nrs: seq<nat>)
      modifies this
      ensures code == old(code) + CodeOf(Uniform(nrs, ALLOW, Plain))
    {
      for i := 0 to |nrs|
        invariant code + CodeOf(Uniform(nrs[i..], ALLOW, Plain)) == old(code) + CodeOf(Uniform(nrs, ALLOW, Plain))
      {
        assert nrs[i..][0] == nrs[i] && nrs[i..][1..] == nrs[i + 1..];
        Emitted(code, Block(nrs[i], [Ret(ALLOW)], Plain), Uniform(nrs[i + 1..], ALLOW, Plain),
                old(code) + CodeOf(Uniform(nrs, ALLOW, Plain)));
        Allow(nrs[i]);
      }
    }

    method RefuseEach(nrs: seq<nat>, errno: nat)
      modifies this
      ensures code == old(code) + CodeOf(Uniform(nrs, errno, Reload))
    {
      for i := 0 to |nrs|
        invariant code + CodeOf(Uniform(nrs[i..], errno, Reload)) == old(code) + CodeOf(Uniform(nrs, errno, Reload))
      {
        assert nrs[i..][0] == nrs[i] && nrs[i..][1..] == nrs[i + 1..];
        Emitted(code, Rule(nrs[i], [Ret(errno)]), Uniform(nrs[i + 1..], errno, Reload),
                old(code) + CodeOf(Uniform(nrs, errno, Reload)));
        AddRule(nrs[i], [Ret(errno)]);
      }
    }

    static method FcntlBodyCode() returns (body: seq<Instr>)
      ensures body == FcntlBody()
    {
      body := [Ld(Low(1))];
      for i := 0 to |FCNTL_COMMANDS|
        invariant body + AllowWords(FCNTL_COMMANDS[i..]) == FcntlBody()
      {
        var rest := FCNTL_COMMANDS[i..];
        assert rest[1..] == FCNTL_COMMANDS[i + 1..];
        assert body + AllowWords(rest) == body + [Jeq(rest[0], 0, 1), Ret(ALLOW)] + AllowWords(rest[1..]);
        body := body + [Jeq(FCNTL_COMMANDS[i], 0, 1), Ret(ALLOW)];
      }
      body := body + [Ret(KILL)];
    }

    /** The whole program of the DNS service, in the order it is emitted. */
    method InstallDns(pid: nat)
      requires code == Prologue(ARCH)
      modifies this
      ensures code == Assemble(ARCH, DnsBlocks(pid))
    {
      ghost var table := CodeOf(DnsBlocks(pid));
      ghost var whole := code + table;
      ghost var process := Process(pid, Ordinary());
      ghost var memory := Memory(process);
      EmittedAll(code, Uniform(MISSING_FILES, ERRNO + ENOENT, Reload), Threads(Descriptors(memory)), whole);
      RefuseEach(MISSING_FILES, ERRNO + ENOENT);
      InstallThreads(Descriptors(memory), whole);
      InstallDescriptors(memory, whole);
      InstallMemory(process, whole);
      InstallProcess(pid, Ordinary(), whole);
      EmittedAll(code, Uniform(DNS_ALLOWED, ALLOW, Plain), Uniform(DNS_ALLOWED_X86, ALLOW, Plain), whole);
      AllowEach(DNS_ALLOWED);
      AllowEach(DNS_ALLOWED_X86);
      Push(Ret(KILL));
      Associate(Prologue(ARCH), table, [Ret(KILL)]);
    }

    method InstallThreads(ghost rest: seq<Block>, ghost whole: seq<Instr>)
      requires code + CodeOf(Threads(rest)) == whole
      modifies this
      ensures code + CodeOf(rest) == whole
    {
      ghost var clone := [Rule(SYS_CLONE, OnlyWord(Low(0), THREAD_CLONE_FLAGS))] + rest;
      Emitted(code, Rule(SYS_CLONE3, [Ret(ERRNO + ENOSYS)]), [Rule(SYS_PRCTL, [Ret(ERRNO + EINVAL)])] + clone, whole);
      AddRule(SYS_CLONE3, [Ret(ERRNO + ENOSYS)]);
      Emitted(code, Rule(SYS_PRCTL, [Ret(ERRNO + EINVAL)]), clone, whole);
      AddRule(SYS_PRCTL, [Ret(ERRNO + EINVAL)]);
      Emitted(code, Rule(SYS_CLONE, OnlyWord(Low(0), THREAD_CLONE_FLAGS)), rest, whole);
      AddRule(SYS_CLONE, [Ld(Low(0)), Jeq(THREAD_CLONE_FLAGS, 0, 1), Ret(ALLOW), Ret(KILL)]);
    }

    method InstallDescriptors(ghost rest: seq<Block>, ghost whole: seq<Instr>)
      requires code + CodeOf(Descriptors(rest)) == whole
      modifies this
      ensures code + CodeOf(rest) == whole
    {
      ghost var ioctl := [Rule(SYS_IOCTL, OnlyWord(Low(1), FIONBIO))] + rest;
      ghost var fcntl := [Rule(SYS_FCNTL, FcntlBody())] + ioctl;
      ghost var accept := [Block(SYS_ACCEPT4, [Ret(ALLOW)], Plain)] + fcntl;
      Emitted(code, Rule(SYS_SOCKET, SocketBody()), accept, whole);
      SocketListing();
      AddRule(SYS_SOCKET,
              [Ld(Low(0)), Jeq(AF_INET, 2, 0), Jeq(AF_INET6, 1, 0), Ret(KILL),
               Ld(Low(1)), And(Not32(SOCK_NONBLOCK + SOCK_CLOEXEC)), Jeq(SOCK_STREAM, 1, 0), Jeq(SOCK_DGRAM, 0, 1), Ret(ALLOW), Ret(KILL)]);
      Emitted(code, Block(SYS_ACCEPT4, [Ret(ALLOW)], Plain), fcntl, whole);
      Allow(SYS_ACCEPT4);
      Emitted(code, Rule(SYS_FCNTL, FcntlBody()), ioctl, whole);
      var body := FcntlBodyCode();
      AllowWordsLength(FCNTL_COMMANDS);
      AddRule(SYS_FCNTL, body);
      Emitted(code, Rule(SYS_IOCTL, OnlyWord(Low(1), FIONBIO)), rest, whole);
      AddRule(SYS_IOCTL, [Ld(Low(1)), Jeq(FIONBIO, 0, 1), Ret(ALLOW), Ret(KILL)]);
    }

    method InstallMemory(ghost rest: seq<Block>, ghost whole: seq<Instr>)
      requires code + CodeOf(Memory(rest)) == whole
      modifies this
      ensures code + CodeOf(rest) == whole
    {
      ghost var mprotect := [Rule(SYS_MPROTECT, NoExecBody())] + rest;
      ghost var mremap := [Rule(SYS_MREMAP, MremapBody())] + mprotect;
      Emitted(code, Rule(SYS_MMAP, MmapBody()), mremap, whole);
      AddRule(SYS_MMAP,
              [Ld(Low(3)), Jeq(MAP_DROPPABLE + MAP_ANONYMOUS, 0, 1), Ret(ERRNO + EINVAL),
               Ld(Low(2)), Jset(PROT_EXEC, 0, 1), Ret(KILL),
               Ld(Low(3)), And(Not32(MAP_KNOWN)), Jeq(0, 0, 3),
               Ld(Low(3)), And(MAP_PLAIN), Jeq(MAP_PLAIN, 1, 0), Ret(KILL), Ret(ALLOW)]);
      Emitted(code, Rule(SYS_MREMAP, MremapBody()), mprotect, whole);
      AddRule(SYS_MREMAP, [Ld(Low(3)), And(Not32(MREMAP_MAYMOVE)), Jeq(0, 0, 1), Ret(ALLOW), Ret(KILL)]);
      Emitted(code, Rule(SYS_MPROTECT, NoExecBody()), rest, whole);
      AddRule(SYS_MPROTECT, [Ld(Low(2)), Jset(PROT_EXEC, 0, 1), Ret(KILL), Ret(ALLOW)]);
    }

    method InstallProcess(pid: nat, ghost rest: seq<Block>, ghost whole: seq<Instr>)
      requires code + CodeOf(Process(pid, rest)) == whole
      modifies this
      ensures code + CodeOf(rest) == whole
    {
      ghost var tgkill := [Rule(SYS_TGKILL, OnlyWord(Low(0), pid))] + rest;
      Emitted(code, Rule(SYS_PRLIMIT64, PrlimitBody()), tgkill, whole);
      AddRule(SYS_PRLIMIT64,
              [Ld(Low(0)), Jeq(0, 0, 5), Ld(Low(2)), Jeq(0, 0, 3), Ld(High(2)), Jeq(0, 0, 1), Ret(ALLOW), Ret(KILL)]);
      Emitted(code, Rule(SYS_TGKILL, OnlyWord(Low(0), pid)), rest, whole);
      AddRule(SYS_TGKILL, [Ld(Low(0)), Jeq(pid, 0, 1), Ret(ALLOW), Ret(KILL)]);
    }

    // ----- the network service -----

    method AppendKill(nr: nat)
      modifies this
      ensures code == old(code) + Code(Block(nr, [Ret(KILL)], Plain))
    {
      Push(Jeq(nr, 0, 1));
      Push(Ret(KILL));
    }

    method AppendDatagramFlags(nr: nat, flags: nat)
      modifies this
      ensures code == old(code) + Code(Datagram(nr, flags))
    {
      DatagramListing(nr, flags);
      code := code + [Jeq(nr, 0, 17), Ld(Low(3)), Jeq(flags, 1, 0), Ret(KILL),
                      Ld(Low(4)), Jeq(0, 1, 0), Ret(KILL), Ld(High(4)), Jeq(0, 1, 0), Ret(KILL),
                      Ld(Low(5)), Jeq(0, 1, 0), Ret(KILL), Ld(High(5)), Jeq(0, 0, 1), Ret(ALLOW), Ret(KILL), LoadNr()];
    }

    method AppendMessageFlags(nr: nat, flags: nat)
      modifies this
      ensures code == old(code) + Code(MessageFlags(nr, flags))
    {
      OneNeedListing(nr, Need(Low(2), flags), SkippedReload);
      code := code + [Jeq(nr, 0, 5), Ld(Low(2)), Jeq(flags, 1, 0), Ret(KILL), Ret(ALLOW), LoadNr()];
    }

    method AppendAccept4()
      modifies this
      ensures code == old(code) + Code(Accept4())
    {
      OneNeedListing(SYS_ACCEPT4, Need(Low(3), SOCK_CLOEXEC + SOCK_NONBLOCK), Reload);
      code := code + [Jeq(SYS_ACCEPT4, 0, 4), Ld(Low(3)), Jeq(SOCK_CLOEXEC + SOCK_NONBLOCK, 1, 0), Ret(KILL), Ret(ALLOW), LoadNr()];
    }

    method AppendFcntlCommands()
      modifies this
      ensures code == old(code) + Code(FcntlGetFd())
    {
      OneNeedListing(SYS_FCNTL, Need(Low(1), F_GETFD), SkippedReload);
      code := code + [Jeq(SYS_FCNTL, 0, 5), Ld(Low(1)), Jeq(F_GETFD, 1, 0), Ret(KILL), Ret(ALLOW), LoadNr()];
    }

    method AppendEpollCtl()
      modifies this
      ensures code == old(code) + Code(EpollCtl())
    {
      EpollCtlListing();
      code := code + [Jeq(SYS_EPOLL_CTL, 0, 9), Ld(Low(1)), Jeq(EPOLL_CTL_ADD, 3, 0), Jeq(EPOLL_CTL_MOD, 2, 0),
                      Jeq(EPOLL_CTL_DEL, 1, 0), Ret(KILL), Ld(High(1)), Jeq(0, 1, 0), Ret(KILL), Ret(ALLOW), LoadNr()];
    }

    method AppendEpollPwait()
      modifies this
      ensures code == old(code) + Code(EpollPwait())
    {
      EpollPwaitListing();
      code := code + [Jeq(SYS_EPOLL_PWAIT, 0, 19), Ld(Low(2)), Jeq(EPOLL_EVENT_BATCH, 1, 0), Ret(KILL),
                      Ld(High(2)), Jeq(0, 1, 0), Ret(KILL), Ld(Low(4)), Jeq(0, 1, 0), Ret(KILL),
                      Ld(High(4)), Jeq(0, 1, 0), Ret(KILL), Ld(Low(5)), Jeq(0, 1, 0), Ret(KILL),
                      Ld(High(5)), Jeq(0, 1, 0), Ret(KILL), Ret(ALLOW), LoadNr()];
    }

    method AppendNoExecMemory(nr: nat)
      modifies this
      ensures code == old(code) + Code(NoExec(nr))
    {
      code := code + [Jeq(nr, 0, 5), Ld(Low(2)), Jset(PROT_EXEC, 0, 1), Ret(KILL), Ret(ALLOW), LoadNr()];
    }

    method AppendProviderIoctl()
      modifies this
      ensures code == old(code) + Code(ProviderIoctl())
    {
      AmongLength(PROVIDER_IOCTLS);
      Push(Jeq(SYS_IOCTL, 0, |PROVIDER_IOCTLS| + 3));
      Push(Ld(Low(1)));
      PushAmong(PROVIDER_IOCTLS);
      Push(Ret(ALLOW));
      Push(LoadNr());
    }

    /** Each comparison jumps over the ones that remain and over the kill. */
    method PushAmong(words: seq<nat>)
      modifies this
      ensures code == old(code) + Among(words)
    {
      for i := 0 to |words|
        invariant code + Among(words[i..]) == old(code) + Among(words)
      {
        AmongCons(words[i], words[i + 1..]);
        assert words[i..] == [words[i]] + words[i + 1..];
        ghost var before := code;
        Push(Jeq(words[i], |words| - i, 0));
        assert before + ([Jeq(words[i], |words| - i, 0)] + Among(words[i + 1..])) == code + Among(words[i + 1..]);
      }
      Push(Ret(KILL));
    }

    method AppendMemoryAndPolling(ghost rest: seq<Block>, ghost whole: seq<Instr>)
      requires code + CodeOf(MemoryAndPolling(rest)) == whole
      modifies this
      ensures code + CodeOf(rest) == whole
    {
      ghost var r1 := [NoExec(SYS_MPROTECT)] + rest;
      ghost var r2 := [NoExec(SYS_MMAP)] + r1;
      ghost var r3 := [EpollPwait()] + r2;
      Emitted(code, FcntlGetFd(), [EpollCtl()] + r3, whole);
      AppendFcntlCommands();
      Emitted(code, EpollCtl(), r3, whole);
      AppendEpollCtl();
      Emitted(code, EpollPwait(), r2, whole);
      AppendEpollPwait();
      Emitted(code, NoExec(SYS_MMAP), r1, whole);
      AppendNoExecMemory(SYS_MMAP);
      Emitted(code, NoExec(SYS_MPROTECT), rest, whole);
      AppendNoExecMemory(SYS_MPROTECT);
    }

    method AppendEthernet(on: bool, ghost rest: seq<Block>, ghost whole: seq<Instr>)
      requires code + CodeOf(Ethernet(on, rest)) == whole
      modifies this
      ensures code + CodeOf(rest) == whole
    {
      if on {
        Emitted(code, Datagram(SYS_RECVFROM, RECV_FLAGS), [Datagram(SYS_SENDTO, SEND_FLAGS)] + rest, whole);
        AppendDatagramFlags(SYS_RECVFROM, MSG_DONTWAIT + MSG_TRUNC);
        Emitted(code, Datagram(SYS_SENDTO, SEND_FLAGS), rest, whole);
        AppendDatagramFlags(SYS_SENDTO, MSG_DONTWAIT + MSG_NOSIGNAL);
      }
    }

    method AppendLinkControl(on: bool, ghost rest: seq<Block>, ghost whole: seq<Instr>)
      requires code + CodeOf(LinkControl(on, rest)) == whole
      modifies this
      ensures code + CodeOf(rest) == whole
    {
      if on {
        var flags := MSG_DONTWAIT + MSG_CMSG_CLOEXEC;
        Emitted(code, MessageFlags(SYS_RECVMSG, flags), [MessageFlags(SYS_SENDMSG, SEND_FLAGS)] + rest, whole);
        AppendMessageFlags(SYS_RECVMSG, flags);
        Emitted(code, MessageFlags(SYS_SENDMSG, SEND_FLAGS), rest, whole);
        AppendMessageFlags(SYS_SENDMSG, MSG_DONTWAIT + MSG_NOSIGNAL);
      }
    }

    method ProviderFilter(ethernet: bool, linkControl: bool)
      requires code == Prologue(ARCH)
      modifies this
      ensures code == Assemble(ARCH, ProviderBlocks(ethernet, linkControl))
    {
      ghost var table := CodeOf(ProviderBlocks(ethernet, linkControl));
      ghost var whole := code + table;
      ghost var allowed := Uniform(PROVIDER_ALLOWED, ALLOW, Plain);
      AppendEthernet(ethernet, LinkControl(linkControl, ProviderCore()), whole);
      AppendLinkControl(linkControl, ProviderCore(), whole);
      Emitted(code, ProviderIoctl(), MemoryAndPolling(allowed), whole);
      AppendProviderIoctl();
      AppendMemoryAndPolling(allowed, whole);
      AllowEach(PROVIDER_ALLOWED);
      Push(Ret(KILL));
      Associate(Prologue(ARCH), table, [Ret(KILL)]);
    }

    /** Only a provider that serves the resolver gets the extra block. */
    method SpliceAccept4(resolver: bool)
      requires |code| >= 4
      modifies this
      ensures code == if resolver then Spliced(old(code)) else old(code)
    {
      if resolver {
        var accept := new Filter.Empty();
        accept.AppendAccept4();
        code := code[..4] + accept.code + code[4..];
      }
    }

    constructor Empty()
      ensures code == []
    {
      code := [];
    }

    method NetworkFilter()
      requires code == Prologue(ARCH)
      modifies this
      ensures code == Assemble(ARCH, NetworkBlocks())
    {
      ghost var table := CodeOf(NetworkBlocks());
      ghost var whole := code + table;
      ghost var allowed := Uniform(NETWORK_ALLOWED, ALLOW, Plain);
      ghost var r1 := [Accept4()] + MemoryAndPolling(allowed);
      ghost var r2 := [Datagram(SYS_RECVFROM, RECV_FLAGS)] + r1;
      EmittedAll(code, Uniform(NETWORK_DENIED, KILL, Plain), [Datagram(SYS_SENDTO, SEND_FLAGS)] + r2, whole);
      KillEach(NETWORK_DENIED);
      Emitted(code, Datagram(SYS_SENDTO, SEND_FLAGS), r2, whole);
      AppendDatagramFlags(SYS_SENDTO, SEND_FLAGS);
      Emitted(code, Datagram(SYS_RECVFROM, RECV_FLAGS), r1, whole);
      AppendDatagramFlags(SYS_RECVFROM, RECV_FLAGS);
      Emitted(code, Accept4(), MemoryAndPolling(allowed), whole);
      AppendAccept4();
      AppendMemoryAndPolling(allowed, whole);
      AllowEach(NETWORK_ALLOWED);
      Push(Ret(KILL));
      Associate(Prologue(ARCH), table, [Ret(KILL)]);
    }

    method KillEach(nrs: seq<nat>)
      modifies this
      ensures code == old(code) + CodeOf(Uniform(nrs, KILL, Plain))
    {
      for i := 0 to |nrs|
        invariant code + CodeOf(Uniform(nrs[i..], KILL, Plain)) == old(code) + CodeOf(Uniform(nrs, KILL, Plain))
      {
        assert nrs[i..][0] == nrs[i] && nrs[i..][1..] == nrs[i + 1..];
        Emitted(code, Block(nrs[i], [Ret(KILL)], Plain), Uniform(nrs[i + 1..], KILL, Plain),
                old(code) + CodeOf(Uniform(nrs, KILL, Plain)));
        AppendKill(nrs[i]);
      }
    }
  }

  lemma SocketListing()
    ensures SocketBody()
         == [Ld(Low(0)), Jeq(AF_INET, 2, 0), Jeq(AF_INET6, 1, 0), Ret(KILL),
             Ld(Low(1)), And(Not32(SOCK_NONBLOCK + SOCK_CLOEXEC)), Jeq(SOCK_STREAM, 1, 0), Jeq(SOCK_DGRAM, 0, 1), Ret(ALLOW), Ret(KILL)]
  {
    AmongCons(AF_INET6, []);
    AmongCons(AF_INET, [AF_INET6]);
    assert [AF_INET6] == [AF_INET6] + [] && [AF_INET, AF_INET6] == [AF_INET] + [AF_INET6];
  }
}
