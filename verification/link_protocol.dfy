/** Receiver, netcfg and provider as one transition system: lifecycle records
    arrive at will, either end may lose the link at any moment, and requests and
    replies travel over FIFO channels. Proved for every run without a timeout:
    netcfg and the provider agree on the active generation whenever no request is
    outstanding, every request is applied, and netcfg stops only because the Wi-Fi
    side broke the lifecycle rules. */
module LinkProtocol {
  import opened Common
  import opened LinkGenerations

  /** What netcfg is doing. `Working` waits for the acknowledgement of a request
      made for a lifecycle record, or for a link that hung up (no record). */
  datatype Activity =
    | Starting
    | Idle
    | Working(generation: nat, record: Option<Lifecycle>)
    | Exited
    | Stopped(fault: Fault)

  datatype Sys = Sys(
    provider: Provider,
    netcfg: Netcfg,
    receiver: Receiver,
    activity: Activity,
    toProvider: seq<Request>,
    toNetcfg: seq<Reply>)

  datatype Step =
    | Record(message: Lifecycle)
    | NetcfgReceive
    | MonitorHangup
    | ProviderRead
    | ProviderFlush
    | ProviderReport(snapshot: nat)
    | ProviderLoses
    | ProviderOffers(candidate: nat, taken: bool)

  function Initial(providerGeneration: nat): Sys {
    Sys(FRESH_PROVIDER, Netcfg(providerGeneration, None, None, None, None), Receiver(None, None, None, false),
        Starting, [Watch(providerGeneration)], [])
  }

  predicate Enabled(s: Sys, step: Step) {
    match step
    case Record(_) => s.activity.Idle? && !s.receiver.closed
    case NetcfgReceive => (s.activity.Starting? || s.activity.Idle? || s.activity.Working?) && s.toNetcfg != []
    case MonitorHangup => s.activity.Idle? && s.netcfg.monitor.Some?
    case ProviderRead => s.toProvider != [] && ProviderCan(s.provider, Handle(s.toProvider[0]))
    case ProviderFlush => ProviderCan(s.provider, FlushAck)
    case ProviderReport(_) => s.provider.watching && s.provider.pendingAck.None?
    case ProviderLoses => ProviderCan(s.provider, LoseLink)
    case ProviderOffers(candidate, taken) => ProviderCan(s.provider, Offer(candidate, taken))
  }

  /** The operation behind a record (or a hang-up) has taken effect. */
  function Finish(s: Sys, record: Option<Lifecycle>): Sys {
    if record.None? then s.(activity := Idle)
    else s.(receiver := Settled(s.receiver, record.value),
            activity := if record.value.ChannelClosed? then Exited else Idle)
  }

  function BeginRevoke(s: Sys, generation: nat, record: Option<Lifecycle>): Sys {
    match RevokeKind(s.netcfg, generation)
    case AlreadyOffline => Finish(s, record)
    case Wrong => s.(activity := Stopped(RevokeMismatch))
    case MustDetach => s.(activity := Working(generation, record), toProvider := s.toProvider + [Detach(generation)])
  }

  function Begin(s: Sys, m: Lifecycle): Sys {
    var noted := s.(receiver := Noted(s.receiver, m));
    match Decide(s.receiver, m)
    case Refuse => s.(activity := Stopped(WifiProtocol))
    case JustClose => Finish(noted, Some(m))
    case DoInstall(generation, frame) =>
      noted.(netcfg := s.netcfg.(monitor := Some(frame)), activity := Working(generation, Some(m)),
             toProvider := s.toProvider + [Attach(generation, frame)])
    case DoRevoke(generation) => BeginRevoke(noted, generation, Some(m))
  }

  function Acknowledged(s: Sys): Sys
    requires s.activity.Starting? || s.activity.Working?
  {
    if s.activity.Starting? then s.(activity := Idle)
    else if s.activity.record.Some? && s.activity.record.value.Install? then
      Finish(s.(netcfg := Installed(s.netcfg, s.activity.generation)), s.activity.record)
    else
      Finish(s.(netcfg := Offline(s.netcfg)), s.activity.record)
  }

  function Receive(s: Sys): Sys
    requires Enabled(s, NetcfgReceive)
  {
    var rest := s.(toNetcfg := s.toNetcfg[1..]);
    var awaited := if s.activity.Working? then s.activity.generation else s.netcfg.providerGeneration;
    if s.activity.Idle? && s.toNetcfg[0].Ack? then rest.(activity := Stopped(UnsolicitedAck))
    else
      match OnReply(s.netcfg, awaited, s.toNetcfg[0])
      case Pending(netcfg) => rest.(netcfg := netcfg)
      case Completed => Acknowledged(rest)
      case Failed(fault) => rest.(activity := Stopped(fault))
  }

  function Apply(s: Sys, step: Step): Sys
    requires Enabled(s, step)
  {
    match step
    case Record(m) => Begin(s, m)
    case NetcfgReceive => Receive(s)
    case MonitorHangup =>
      if s.netcfg.activeLink.None? then s.(activity := Stopped(NoLinkToRevoke))
      else BeginRevoke(s, s.netcfg.activeLink.value, None)
    case ProviderRead => s.(provider := Consume(s.provider, s.toProvider[0]), toProvider := s.toProvider[1..])
    case ProviderFlush =>
      s.(provider := SendAck(s.provider),
         toNetcfg := s.toNetcfg + [Ack(s.provider.pendingAck.value.0, s.provider.pendingAck.value.1)])
    case ProviderReport(snapshot) => s.(toNetcfg := s.toNetcfg + [Interface(snapshot)])
    case ProviderLoses => s.(provider := DropDevice(s.provider))
    case ProviderOffers(candidate, taken) => s.(provider := Transmit(s.provider, candidate, taken))
  }

  predicate IsRun(s: Sys, steps: seq<Step>)
    decreases |steps|
  {
    steps == [] || (Enabled(s, steps[0]) && IsRun(Apply(s, steps[0]), steps[1..]))
  }

  function After(s: Sys, steps: seq<Step>): Sys
    requires IsRun(s, steps)
    decreases |steps|
  {
    if steps == [] then s else After(Apply(s, steps[0]), steps[1..])
  }

  // ----- the inductive invariant -----

  function Acks(channel: seq<Reply>): seq<Reply> {
    if channel == [] then [] else (if channel[0].Ack? then [channel[0]] else []) + Acks(channel[1..])
  }

  lemma {:induction false} AcksAppend(channel: seq<Reply>, r: Reply)
    ensures Acks(channel + [r]) == Acks(channel) + Acks([r])
  {
    if channel == [] {
      assert channel + [r] == [r];
    } else {
      AcksAppend(channel[1..], r);
      assert (channel + [r])[1..] == channel[1..] + [r];
    }
  }

  /** How far the one outstanding request has come. */
  datatype Stage = Quiet | Unread | Unsent | Unheard

  function OrZero(o: Option<nat>): nat {
    if o.Some? then o.value else 0
  }

  predicate IsInstall(a: Activity) {
    a.Working? && a.record.Some? && a.record.value.Install?
  }

  /** The descriptor that a record hands over, if any. */
  function Transferred(m: Lifecycle): nat {
    if m.Install? && m.descriptors != [] then m.descriptors[0] else 0
  }

  /** The request that the current activity has outstanding. */
  ghost predicate IsItsRequest(s: Sys, r: Request) {
    match s.activity
    case Starting => r == Watch(s.netcfg.providerGeneration)
    case Working(generation, record) =>
      r == if IsInstall(s.activity) then Attach(generation, Transferred(record.value)) else Detach(generation)
    case _ => false
  }

  function Awaited(s: Sys): nat {
    if s.activity.Working? then s.activity.generation else s.netcfg.providerGeneration
  }

  ghost predicate Channels(s: Sys, stage: Stage) {
    && (stage.Quiet? <==> !s.activity.Starting? && !s.activity.Working?)
    && (if stage.Unread? then |s.toProvider| == 1 && IsItsRequest(s, s.toProvider[0]) else s.toProvider == [])
    && s.provider.pendingAck == (if stage.Unsent? then Some((Awaited(s), Applied)) else None)
    && Acks(s.toNetcfg) == (if stage.Unheard? then [Ack(Awaited(s), Applied)] else [])
  }

  /** The provider mirrors netcfg, ahead of it only by a request it has applied. */
  ghost predicate Agreement(s: Sys, stage: Stage) {
    var ahead := s.activity.Working? && !stage.Unread?;
    && s.provider.activeGeneration ==
         (if !ahead then s.netcfg.activeLink else if IsInstall(s.activity) then Some(s.activity.generation) else None)
    && s.provider.lastGeneration ==
         (if ahead && IsInstall(s.activity) then s.activity.generation else OrZero(s.netcfg.lastLink))
  }

  ghost predicate Local(s: Sys) {
    var n, r := s.netcfg, s.receiver;
    && ProviderInv(s.provider)
    && (n.activeLink.Some? ==> n.lastLink == n.activeLink)
    && (r.active.Some? ==> n.lastLink == Some(r.active.value.1))
    && (!IsInstall(s.activity) ==> r.lastEthernet == n.lastLink && (n.monitor.Some? <==> n.activeLink.Some?))
    && match s.activity
       case Starting => n.lastLink.None?
       case Idle => n.activeLink.Some? ==> r.active.Some?
       case Working(generation, record) =>
         if IsInstall(s.activity) then
           && generation > OrZero(n.lastLink) && n.monitor.Some?
           && r.lastEthernet == Some(generation) && record.value.ethernet == generation
         else
           && n.activeLink == Some(generation)
           && (record.None? ==> r.active.Some?)
       case Exited => true
       case Stopped(fault) => fault.WifiProtocol?
  }

  ghost predicate InvAt(s: Sys, stage: Stage) {
    Channels(s, stage) && Agreement(s, stage) && Local(s)
  }

  ghost predicate Inv(s: Sys) {
    exists stage :: InvAt(s, stage)
  }

  lemma InitialInv(providerGeneration: nat)
    ensures Inv(Initial(providerGeneration))
  {
    assert InvAt(Initial(providerGeneration), Unread);
  }

  lemma RecordStepKeeps(s: Sys, m: Lifecycle) returns (stage: Stage)
    requires InvAt(s, Quiet) && Enabled(s, Record(m))
    ensures stage == (if Apply(s, Record(m)).activity.Working? then Unread else Quiet)
    ensures InvAt(Apply(s, Record(m)), stage)
  {
    stage := if Apply(s, Record(m)).activity.Working? then Unread else Quiet;
  }

  lemma HangupStepKeeps(s: Sys)
    requires InvAt(s, Quiet) && Enabled(s, MonitorHangup)
    ensures InvAt(Apply(s, MonitorHangup), Unread)
  {
  }

  /** A reply that netcfg reads is a report, or the one acknowledgement it awaits. */
  lemma ReceiveStepKeeps(s: Sys, stage: Stage) returns (stage': Stage)
    requires InvAt(s, stage) && Enabled(s, NetcfgReceive)
    ensures InvAt(Apply(s, NetcfgReceive), stage')
  {
    stage' := if s.toNetcfg[0].Ack? then Quiet else stage;
    if s.toNetcfg[0].Ack? {
      assert Acks(s.toNetcfg)[0] == s.toNetcfg[0];
      assert Acks(s.toNetcfg)[1..] == Acks(s.toNetcfg[1..]);
      assert stage.Unheard?;
    }
  }

  /** The outstanding request is always valid at the provider. */
  lemma ReadStepKeeps(s: Sys, stage: Stage)
    requires InvAt(s, stage) && Enabled(s, ProviderRead)
    ensures RequestValid(s.provider, s.toProvider[0])
    ensures InvAt(Apply(s, ProviderRead), Unsent)
  {
    ProviderStepKeeps(s.provider, Handle(s.toProvider[0]));
  }

  lemma FlushStepKeeps(s: Sys, stage: Stage)
    requires InvAt(s, stage) && Enabled(s, ProviderFlush)
    ensures InvAt(Apply(s, ProviderFlush), Unheard)
  {
    ProviderStepKeeps(s.provider, FlushAck);
    AcksAppend(s.toNetcfg, Ack(s.provider.pendingAck.value.0, s.provider.pendingAck.value.1));
  }

  lemma OwnStepKeeps(s: Sys, step: Step, stage: Stage)
    requires InvAt(s, stage) && Enabled(s, step)
    requires step.ProviderReport? || step.ProviderLoses? || step.ProviderOffers?
    ensures InvAt(Apply(s, step), stage)
  {
    match step {
      case ProviderReport(snapshot) => AcksAppend(s.toNetcfg, Interface(snapshot));
      case ProviderLoses => ProviderStepKeeps(s.provider, LoseLink);
      case ProviderOffers(candidate, taken) => ProviderStepKeeps(s.provider, Offer(candidate, taken));
    }
  }

  lemma StepKeeps(s: Sys, step: Step)
    requires Inv(s) && Enabled(s, step)
    ensures Inv(Apply(s, step))
  {
    var stage :| InvAt(s, stage);
    match step {
      case Record(m) => var stage' := RecordStepKeeps(s, m);
      case NetcfgReceive => var stage' := ReceiveStepKeeps(s, stage);
      case MonitorHangup => HangupStepKeeps(s);
      case ProviderRead => ReadStepKeeps(s, stage);
      case ProviderFlush => FlushStepKeeps(s, stage);
      case _ => OwnStepKeeps(s, step, stage);
    }
  }

  lemma {:induction false} RunKeeps(s: Sys, steps: seq<Step>)
    requires Inv(s) && IsRun(s, steps)
    ensures Inv(After(s, steps))
    decreases |steps|
  {
    if steps != [] {
      StepKeeps(s, steps[0]);
      RunKeeps(Apply(s, steps[0]), steps[1..]);
    }
  }

  // ----- what every run guarantees -----

  predicate RequestOutstanding(s: Sys) {
    s.activity.Starting? || s.activity.Working?
  }

  /** Both sides hold the same active generation, and the same last one, whenever no
      request is outstanding; each is recorded as active only while it is the last. */
  lemma GenerationsAgree(providerGeneration: nat, steps: seq<Step>)
    requires IsRun(Initial(providerGeneration), steps)
    ensures var s := After(Initial(providerGeneration), steps);
      && (!RequestOutstanding(s) ==>
            && s.netcfg.activeLink == s.provider.activeGeneration
            && OrZero(s.netcfg.lastLink) == s.provider.lastGeneration
            && s.toProvider == [] && s.provider.pendingAck.None?)
      && (s.netcfg.activeLink.Some? ==> s.netcfg.activeLink == s.netcfg.lastLink)
      && (s.activity.Idle? && s.netcfg.activeLink.Some? ==>
            s.receiver.active.Some? && s.receiver.active.value.1 == s.netcfg.activeLink.value)
      && ProviderInv(s.provider)
  {
    InitialInv(providerGeneration);
    RunKeeps(Initial(providerGeneration), steps);
    var s := After(Initial(providerGeneration), steps);
    var stage :| InvAt(s, stage);
  }

  /** Nothing is refused, mismatched or unsolicited; the link that a hang-up revokes
      is always there; netcfg stops only over a bad lifecycle record. */
  lemma EveryRequestIsApplied(providerGeneration: nat, steps: seq<Step>)
    requires IsRun(Initial(providerGeneration), steps)
    ensures var s := After(Initial(providerGeneration), steps);
      && (s.activity.Stopped? ==> s.activity.fault.WifiProtocol?)
      && (forall r :: r in s.toProvider && s.provider.pendingAck.None? ==> RequestValid(s.provider, r))
      && (s.provider.pendingAck.Some? ==> s.provider.pendingAck.value.1.Applied?)
      && (forall r :: r in Acks(s.toNetcfg) ==> RequestOutstanding(s) && r == Ack(Awaited(s), Applied))
      && (Enabled(s, MonitorHangup) ==> s.netcfg.activeLink.Some?)
  {
    InitialInv(providerGeneration);
    RunKeeps(Initial(providerGeneration), steps);
    var s := After(Initial(providerGeneration), steps);
    var stage :| InvAt(s, stage);
    if s.toProvider != [] && s.provider.pendingAck.None? {
      ReadStepKeeps(s, stage);
    }
    forall r | r in Acks(s.toNetcfg)
      ensures RequestOutstanding(s) && r == Ack(Awaited(s), Applied)
    {
      assert stage.Unheard?;
    }
  }

  /** While a request is outstanding somebody can move it along. */
  lemma RequestsProgress(providerGeneration: nat, steps: seq<Step>)
    requires IsRun(Initial(providerGeneration), steps)
    ensures var s := After(Initial(providerGeneration), steps);
      RequestOutstanding(s) ==> Enabled(s, ProviderRead) || Enabled(s, ProviderFlush) || Enabled(s, NetcfgReceive)
  {
    InitialInv(providerGeneration);
    RunKeeps(Initial(providerGeneration), steps);
    var s := After(Initial(providerGeneration), steps);
    var stage :| InvAt(s, stage);
  }
}
