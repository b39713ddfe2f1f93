/** The three owners of a link generation: the provider that serves frames, the
    netcfg client of its administration channel, and the receiver of Wi-Fi
    lifecycle messages. Descriptors are opaque tokens. Each mutable object is
    proved against functions on its state. */
module LinkGenerations {
  import opened Common

  datatype Request =
    | Attach(generation: nat, frame: nat)
    | Detach(generation: nat)
    | Watch(generation: nat)

  datatype AckStatus = Applied | Refused

  datatype Reply = Ack(generation: nat, status: AckStatus) | Interface(snapshot: nat)

  // ----- provider -----

  /** An outbound frame kept because its device would not take it yet. */
  datatype Retained = Retained(packet: nat, device: nat)

  /** `read` and `acked` record the requests consumed and the answers sent. */
  datatype Provider = Provider(
    device: Option<nat>,
    activeGeneration: Option<nat>,
    lastGeneration: nat,
    watching: bool,
    pendingAck: Option<(nat, AckStatus)>,
    pendingFrame: Option<Retained>,
    read: seq<nat>,
    acked: seq<nat>)

  const FRESH_PROVIDER := Provider(None, None, 0, false, None, None, [], [])

  predicate RequestValid(p: Provider, r: Request) {
    match r
    case Watch(_) => true
    case Attach(generation, _) => generation > p.lastGeneration
    case Detach(generation) => p.activeGeneration == Some(generation)
  }

  function DropDevice(p: Provider): Provider {
    p.(device := None, pendingFrame := if p.device.Some? then None else p.pendingFrame)
  }

  function ApplyRequest(p: Provider, r: Request): Provider {
    match r
    case Watch(_) => p.(watching := true)
    case Attach(generation, frame) =>
      DropDevice(p).(device := Some(frame), activeGeneration := Some(generation), lastGeneration := generation)
    case Detach(_) => DropDevice(p).(activeGeneration := None)
  }

  /** Consume one request; its acknowledgement becomes pending. */
  function Consume(p: Provider, r: Request): Provider {
    var valid := RequestValid(p, r);
    (if valid then ApplyRequest(p, r) else p).(
      pendingAck := Some((r.generation, if valid then Applied else Refused)),
      read := p.read + [r.generation])
  }

  function SendAck(p: Provider): Provider
    requires p.pendingAck.Some?
  {
    p.(pendingAck := None, acked := p.acked + [p.pendingAck.value.0])
  }

  /** The packet a transmit attempt offers: the retained one first. */
  function Offered(p: Provider, candidate: nat): nat {
    if p.pendingFrame.Some? then p.pendingFrame.value.packet else candidate
  }

  function Transmit(p: Provider, candidate: nat, taken: bool): Provider
    requires p.device.Some?
  {
    p.(pendingFrame := if taken then None else Some(Retained(Offered(p, candidate), p.device.value)))
  }

  /** What the provider alone may do; requests come from an arbitrary client. */
  datatype ProviderStep =
    | Handle(request: Request)
    | FlushAck
    | LoseLink
    | Offer(candidate: nat, taken: bool)

  predicate ProviderCan(p: Provider, step: ProviderStep) {
    match step
    case Handle(_) => p.pendingAck.None?
    case FlushAck => p.pendingAck.Some?
    case LoseLink => p.device.Some?
    case Offer(_, _) => p.device.Some?
  }

  function ProviderDo(p: Provider, step: ProviderStep): Provider
    requires ProviderCan(p, step)
  {
    match step
    case Handle(r) => Consume(p, r)
    case FlushAck => SendAck(p)
    case LoseLink => DropDevice(p)
    case Offer(candidate, taken) => Transmit(p, candidate, taken)
  }

  predicate IsProviderRun(p: Provider, steps: seq<ProviderStep>)
    decreases |steps|
  {
    steps == [] || (ProviderCan(p, steps[0]) && IsProviderRun(ProviderDo(p, steps[0]), steps[1..]))
  }

  function ProviderAfter(p: Provider, steps: seq<ProviderStep>): Provider
    requires IsProviderRun(p, steps)
    decreases |steps|
  {
    if steps == [] then p else ProviderAfter(ProviderDo(p, steps[0]), steps[1..])
  }

  predicate ProviderInv(p: Provider) {
    && p.read == p.acked + (if p.pendingAck.Some? then [p.pendingAck.value.0] else [])
    && (p.activeGeneration.Some? ==> p.activeGeneration.value == p.lastGeneration)
    && (p.device.Some? ==> p.activeGeneration.Some?)
    && (p.pendingFrame.Some? ==> p.device == Some(p.pendingFrame.value.device))
  }

  lemma ProviderStepKeeps(p: Provider, step: ProviderStep)
    requires ProviderInv(p) && ProviderCan(p, step)
    ensures ProviderInv(ProviderDo(p, step))
    ensures ProviderDo(p, step).lastGeneration >= p.lastGeneration
  {
    if step.FlushAck? {
      assert p.read == SendAck(p).acked + [];
    }
  }

  /** Against any client: every request read is acknowledged once, in order and
      before the next is read; a live device implies an active generation, which is
      the last one accepted; a retained frame belongs to the device now installed;
      generations never go back. */
  lemma {:induction false} ProviderSafety(p: Provider, steps: seq<ProviderStep>)
    requires ProviderInv(p) && IsProviderRun(p, steps)
    ensures ProviderInv(ProviderAfter(p, steps))
    ensures p.lastGeneration <= ProviderAfter(p, steps).lastGeneration
    decreases |steps|
  {
    if steps != [] {
      ProviderStepKeeps(p, steps[0]);
      ProviderSafety(ProviderDo(p, steps[0]), steps[1..]);
    }
  }

  /** A generation that was superseded or already used cannot become current again. */
  lemma ReplayIsRefused(p: Provider, steps: seq<ProviderStep>, generation: nat, frame: nat)
    requires ProviderInv(p) && IsProviderRun(p, steps) && generation <= p.lastGeneration
    requires ProviderAfter(p, steps).pendingAck.None?
    ensures var q := ProviderAfter(p, steps);
      Consume(q, Attach(generation, frame)) == q.(pendingAck := Some((generation, Refused)), read := q.read + [generation])
  {
    ProviderSafety(p, steps);
  }

  class ProviderLink {
    var ethernet: Option<nat>
    var activeLinkGeneration: Option<nat>
    var lastLinkGeneration: nat
    var watchInterfaces: bool
    var pendingAck: Option<(nat, AckStatus)>
    var pendingFrame: Option<Retained>
    ghost var read: seq<nat>
    ghost var acked: seq<nat>

    ghost function State(): Provider
      reads this
    {
      Provider(ethernet, activeLinkGeneration, lastLinkGeneration, watchInterfaces, pendingAck, pendingFrame, read, acked)
    }

    constructor ()
      ensures State() == FRESH_PROVIDER && ProviderInv(State())
    {
      ethernet, activeLinkGeneration, lastLinkGeneration := None, None, 0;
      watchInterfaces, pendingAck, pendingFrame := false, None, None;
      read, acked := [], [];
    }

    method HandleRequest(request: Request)
      requires pendingAck.None? && ProviderInv(State())
      modifies this
      ensures State() == ProviderDo(old(State()), Handle(request)) && ProviderInv(State())
    {
      ProviderStepKeeps(State(), Handle(request));
      read := read + [request.generation];
      match request {
        case Watch(generation) =>
          watchInterfaces := true;
          pendingAck := Some((generation, Applied));
        case Attach(generation, frame) =>
          if generation <= lastLinkGeneration {
            pendingAck := Some((generation, Refused));
            return;
          }
          if ethernet.Some? {
            ethernet, pendingFrame := None, None;
          }
          ethernet := Some(frame);
          activeLinkGeneration := Some(generation);
          lastLinkGeneration := generation;
          pendingAck := Some((generation, Applied));
        case Detach(generation) =>
          if activeLinkGeneration != Some(generation) {
            pendingAck := Some((generation, Refused));
            return;
          }
          if ethernet.Some? {
            ethernet, pendingFrame := None, None;
          }
          activeLinkGeneration := None;
          pendingAck := Some((generation, Applied));
      }
    }

    /** `writable` is whether the channel takes the acknowledgement now. */
    method TrySendAck(writable: bool) returns (sent: Option<Reply>)
      requires ProviderInv(State())
      modifies this
      ensures sent.Some? <==> writable && old(pendingAck).Some?
      ensures sent.Some? ==> sent.value == Ack(old(pendingAck).value.0, old(pendingAck).value.1)
      ensures State() == (if sent.Some? then ProviderDo(old(State()), FlushAck) else old(State())) && ProviderInv(State())
    {
      sent := None;
      if pendingAck.Some? && writable {
        ProviderStepKeeps(State(), FlushAck);
        sent := Some(Ack(pendingAck.value.0, pendingAck.value.1));
        acked := acked + [pendingAck.value.0];
        pendingAck := None;
      }
    }

    method LinkLost()
      requires ethernet.Some? && ProviderInv(State())
      modifies this
      ensures State() == ProviderDo(old(State()), LoseLink) && ProviderInv(State())
    {
      ProviderStepKeeps(State(), LoseLink);
      pendingFrame := None;
      ethernet := None;
    }

    method TransmitOne(candidate: nat, taken: bool) returns (offered: nat)
      requires ethernet.Some? && ProviderInv(State())
      modifies this
      ensures offered == Offered(old(State()), candidate)
      ensures State() == ProviderDo(old(State()), Offer(candidate, taken)) && ProviderInv(State())
    {
      ProviderStepKeeps(State(), Offer(candidate, taken));
      offered := if pendingFrame.Some? then pendingFrame.value.packet else candidate;
      pendingFrame := None;
      if !taken {
        pendingFrame := Some(Retained(offered, ethernet.value));
      }
    }
  }

  // ----- netcfg -----

  datatype Netcfg = Netcfg(
    providerGeneration: nat,
    activeLink: Option<nat>,
    lastLink: Option<nat>,
    monitor: Option<nat>,
    snapshot: Option<nat>)

  datatype Fault =
    | WifiProtocol
    | RejectedByProvider
    | MismatchedAck
    | UnsolicitedAck
    | RevokeMismatch
    | NoLinkToRevoke
    | Incomplete

  datatype Outcome = Success | Failure(fault: Fault)

  /** One reply met while an operation on `generation` is outstanding. */
  datatype Progress = Pending(netcfg: Netcfg) | Completed | Failed(fault: Fault)

  function OnReply(n: Netcfg, generation: nat, r: Reply): Progress {
    match r
    case Interface(snapshot) => Pending(n.(snapshot := Some(snapshot)))
    case Ack(received, status) =>
      if received != generation then Failed(MismatchedAck)
      else if status.Applied? then Completed
      else Failed(RejectedByProvider)
  }

  /** The wait for an acknowledgement over the replies that arrive. */
  function AwaitAck(n: Netcfg, generation: nat, incoming: seq<Reply>): (Netcfg, nat, Outcome)
    decreases |incoming|
  {
    if incoming == [] then (n, 0, Failure(Incomplete)) else
    match OnReply(n, generation, incoming[0])
    case Pending(next) =>
      var (final, used, result) := AwaitAck(next, generation, incoming[1..]);
      (final, used + 1, result)
    case Completed => (n, 1, Success)
    case Failed(fault) => (n, 1, Failure(fault))
  }

  function Installed(n: Netcfg, generation: nat): Netcfg {
    n.(activeLink := Some(generation), lastLink := Some(generation))
  }

  function Offline(n: Netcfg): Netcfg {
    n.(monitor := None, activeLink := None)
  }

  datatype RevokeNeed = AlreadyOffline | MustDetach | Wrong

  function RevokeKind(n: Netcfg, generation: nat): RevokeNeed {
    if n.activeLink.None? && n.lastLink == Some(generation) then AlreadyOffline
    else if n.activeLink != Some(generation) then Wrong
    else MustDetach
  }

  class ProviderInterfaces {
    const providerGeneration: nat
    var activeLink: Option<nat>
    var lastLink: Option<nat>
    var monitor: Option<nat>
    var snapshot: Option<nat>

    ghost function State(): Netcfg
      reads this
    {
      Netcfg(providerGeneration, activeLink, lastLink, monitor, snapshot)
    }

    constructor (providerGeneration: nat)
      ensures State() == Netcfg(providerGeneration, None, None, None, None)
    {
      this.providerGeneration := providerGeneration;
      activeLink, lastLink, monitor, snapshot := None, None, None, None;
    }

    method AwaitCompletion(generation: nat, incoming: seq<Reply>) returns (used: nat, result: Outcome)
      modifies this`snapshot
      ensures (State(), used, result) == AwaitAck(old(State()), generation, incoming)
    {
      used := 0;
      ghost var start := State();
      while used < |incoming|
        invariant 0 <= used <= |incoming|
        invariant start == old(State())
        invariant var (final, more, outcome) := AwaitAck(State(), generation, incoming[used..]);
          (final, used + more, outcome) == AwaitAck(start, generation, incoming)
      {
        var reply := incoming[used];
        assert incoming[used..][0] == reply && incoming[used..][1..] == incoming[used + 1..];
        used := used + 1;
        match reply {
          case Interface(observed) =>
            snapshot := Some(observed);
          case Ack(received, status) =>
            if received != generation { return used, Failure(MismatchedAck); }
            return used, if status.Applied? then Success else Failure(RejectedByProvider);
        }
      }
      result := Failure(Incomplete);
    }

    method Install(generation: nat, frame: nat, incoming: seq<Reply>)
      returns (sent: Request, used: nat, result: Result<nat, Fault>)
      modifies this
      ensures sent == Attach(generation, frame)
      ensures var (waited, n, outcome) := AwaitAck(old(State()).(monitor := Some(frame)), generation, incoming);
        && used == n
        && State() == (if outcome.Success? then Installed(waited, generation) else waited)
        && result == (if outcome.Success? then Ok(providerGeneration) else Err(outcome.fault))
    {
      sent := Attach(generation, frame);
      monitor := Some(frame);
      var outcome;
      used, outcome := AwaitCompletion(generation, incoming);
      if outcome.Failure? { return sent, used, Err(outcome.fault); }
      activeLink := Some(generation);
      lastLink := Some(generation);
      result := Ok(providerGeneration);
    }

    method Revoke(generation: nat, incoming: seq<Reply>)
      returns (sent: Option<Request>, used: nat, result: Outcome)
      modifies this
      ensures match RevokeKind(old(State()), generation)
        case AlreadyOffline => sent == None && used == 0 && result == Success && State() == old(State())
        case Wrong => sent == None && used == 0 && result == Failure(RevokeMismatch) && State() == old(State())
        case MustDetach =>
          var (waited, n, outcome) := AwaitAck(old(State()), generation, incoming);
          && sent == Some(Detach(generation)) && used == n && result == outcome
          && State() == (if outcome.Success? then Offline(waited) else waited)
    {
      if activeLink.None? && lastLink == Some(generation) { return None, 0, Success; }
      if activeLink != Some(generation) { return None, 0, Failure(RevokeMismatch); }
      sent := Some(Detach(generation));
      used, result := AwaitCompletion(generation, incoming);
      if result.Success? {
        monitor := None;
        activeLink := None;
      }
    }
  }

  // ----- lifecycle receiver -----

  /** A decoded lifecycle record. `macMatches` and `frameValid` are the outcomes of
      the address comparison and of inspecting the transferred descriptor. */
  datatype Lifecycle =
    | Install(wifi: nat, ethernet: nat, descriptors: seq<nat>, macMatches: bool, frameValid: bool)
    | Revoke(wifi: nat, ethernet: nat, descriptors: seq<nat>, macMatches: bool)
    | ChannelClosed

  datatype Receiver = Receiver(
    active: Option<(nat, nat)>,
    wifiIdentity: Option<nat>,
    lastEthernet: Option<nat>,
    closed: bool)

  /** What a valid record asks of the installer. */
  datatype Demand = DoInstall(generation: nat, frame: nat) | DoRevoke(generation: nat) | JustClose | Refuse

  function Decide(r: Receiver, m: Lifecycle): Demand {
    match m
    case ChannelClosed => if r.active.Some? then DoRevoke(r.active.value.1) else JustClose
    case Install(wifi, ethernet, descriptors, macMatches, frameValid) =>
      if !macMatches || |descriptors| != 1 then Refuse
      else if wifi == 0 || (r.wifiIdentity.Some? && wifi != r.wifiIdentity.value) then Refuse
      else if ethernet == 0 || (r.lastEthernet.Some? && ethernet <= r.lastEthernet.value) then Refuse
      else if !frameValid then Refuse
      else DoInstall(ethernet, descriptors[0])
    case Revoke(wifi, ethernet, descriptors, macMatches) =>
      if !macMatches || descriptors != [] || r.active != Some((wifi, ethernet)) then Refuse
      else DoRevoke(ethernet)
  }

  /** Recorded before the installer is asked. */
  function Noted(r: Receiver, m: Lifecycle): Receiver {
    if Decide(r, m).Refuse? then r else
    match m
    case Install(wifi, ethernet, _, _, _) => r.(wifiIdentity := Some(wifi), lastEthernet := Some(ethernet))
    case ChannelClosed => r.(active := None)
    case Revoke(_, _, _, _) => r
  }

  /** Recorded once the installer has succeeded. */
  function Settled(r: Receiver, m: Lifecycle): Receiver {
    match m
    case Install(wifi, ethernet, _, _, _) => r.(active := Some((wifi, ethernet)))
    case ChannelClosed => r.(closed := true)
    case Revoke(_, _, _, _) => r.(active := None)
  }

  class WifiLifecycleReceiver {
    var active: Option<(nat, nat)>
    var wifiIdentity: Option<nat>
    var lastEthernet: Option<nat>
    var closed: bool

    ghost function State(): Receiver
      reads this
    {
      Receiver(active, wifiIdentity, lastEthernet, closed)
    }

    constructor ()
      ensures State() == Receiver(None, None, None, false)
    {
      active, wifiIdentity, lastEthernet, closed := None, None, None, false;
    }

    method Receive(m: Lifecycle, installer: ProviderInterfaces, incoming: seq<Reply>)
      returns (handled: bool, result: Outcome)
      requires !closed
      modifies this, installer
      ensures var demand := Decide(old(State()), m);
        && handled == !demand.Refuse?
        && (demand.Refuse? ==> result == Failure(WifiProtocol) && installer.State() == old(installer.State()))
        && (demand.JustClose? ==> result == Success && installer.State() == old(installer.State()))
        && (demand.DoInstall? ==>
              var (waited, _, outcome) :=
                AwaitAck(old(installer.State()).(monitor := Some(demand.frame)), demand.generation, incoming);
              result == outcome && installer.State() == if outcome.Success? then Installed(waited, demand.generation) else waited)
        && (demand.DoRevoke? ==>
              match RevokeKind(old(installer.State()), demand.generation)
              case AlreadyOffline => result == Success && installer.State() == old(installer.State())
              case Wrong => result == Failure(RevokeMismatch) && installer.State() == old(installer.State())
              case MustDetach =>
                var (waited, _, outcome) := AwaitAck(old(installer.State()), demand.generation, incoming);
                result == outcome && installer.State() == if outcome.Success? then Offline(waited) else waited)
      ensures State() == if result.Success? then Settled(Noted(old(State()), m), m) else Noted(old(State()), m)
    {
      handled, result := true, Success;
      match m {
        case ChannelClosed =>
          if active.Some? {
            var ethernet := active.value.1;
            active := None;
            var sent, used;
            sent, used, result := installer.Revoke(ethernet, incoming);
            if result.Failure? { return; }
          }
          closed := true;
        case Install(wifi, ethernet, descriptors, macMatches, frameValid) =>
          if !macMatches || |descriptors| != 1
            || wifi == 0 || (wifiIdentity.Some? && wifi != wifiIdentity.value)
            || ethernet == 0 || (lastEthernet.Some? && ethernet <= lastEthernet.value)
            || !frameValid
          {
            return false, Failure(WifiProtocol);
          }
          wifiIdentity := Some(wifi);
          lastEthernet := Some(ethernet);
          var sent, used, installed := installer.Install(ethernet, descriptors[0], incoming);
          if installed.Err? { return true, Failure(installed.error); }
          active := Some((wifi, ethernet));
        case Revoke(wifi, ethernet, descriptors, macMatches) =>
          if !macMatches || descriptors != [] || active != Some((wifi, ethernet)) {
            return false, Failure(WifiProtocol);
          }
          var sent, used;
          sent, used, result := installer.Revoke(ethernet, incoming);
          if result.Success? {
            active := None;
          }
      }
    }
  }
}
