/** Which device the provider serves, told from the steps of all three parties alone: the
    descriptor of the latest Install record, from the moment the provider has read it
    until a revocation, a hang-up or a loss. */
module LinkRuns {
  import opened Common
  import opened LinkGenerations
  import opened LinkProtocol

  predicate InstallAt(steps: seq<Step>, i: nat) {
    i < |steps| && steps[i].Record? && steps[i].message.Install?
  }

  ghost predicate LastInstall(steps: seq<Step>, i: Option<nat>) {
    && (i.Some? ==> InstallAt(steps, i.value))
    && forall j :: (if i.Some? then i.value + 1 else 0) <= j < |steps| ==> !InstallAt(steps, j)
  }

  /** The end of a link: a Revoke record, the end of the channel, or a hang-up. */
  predicate Ends(step: Step) {
    step.MonitorHangup? || (step.Record? && !step.message.Install?)
  }

  ghost predicate EndedSince(steps: seq<Step>, i: nat) {
    exists j :: i < j < |steps| && Ends(steps[j])
  }

  ghost predicate UnreadSince(steps: seq<Step>, i: nat) {
    forall j :: i < j < |steps| ==> !steps[j].ProviderRead?
  }

  /** The first read of the provider after this step. */
  ghost predicate ReadAt(steps: seq<Step>, i: nat, r: nat) {
    && i < r < |steps| && steps[r].ProviderRead?
    && forall j :: i < j < r ==> !steps[j].ProviderRead?
  }

  ghost predicate LostSince(steps: seq<Step>, r: nat) {
    exists j :: r < j < |steps| && steps[j].ProviderLoses?
  }

  /** The record's device, in place since the provider read the request for it. */
  ghost predicate Holds(steps: seq<Step>, s: Sys, m: Lifecycle, i: nat, r: nat) {
    ReadAt(steps, i, r) && s.provider.device == if LostSince(steps, r) then None else Some(Transferred(m))
  }

  /** Of a link that nothing has ended: netcfg's part, and the provider's. */
  ghost predicate Up(steps: seq<Step>, s: Sys, stage: Stage, i: nat, r: nat)
    requires InstallAt(steps, i)
  {
    var m := steps[i].message;
    && |m.descriptors| == 1 && s.netcfg.monitor == Some(Transferred(m))
    && (if IsInstall(s.activity) then s.activity.record == Some(m)
        else s.activity.Idle? && s.netcfg.activeLink == Some(m.ethernet) && s.receiver.active == Some((m.wifi, m.ethernet)))
    && (if stage.Unread? then UnreadSince(steps, i) else Holds(steps, s, m, i, r))
  }

  ghost predicate Tells(steps: seq<Step>, s: Sys, stage: Stage, i: Option<nat>, r: nat) {
    && LastInstall(steps, i)
    && (s.activity.Stopped? ||
        if i.Some? && !EndedSince(steps, i.value) then Up(steps, s, stage, i.value, r)
        else !IsInstall(s.activity) && (s.activity.Working? || s.netcfg.activeLink.None?) && (i.None? ==> !s.activity.Working?))
  }

  lemma LastInstallAfter(steps: seq<Step>, i: Option<nat>, step: Step)
    requires LastInstall(steps, i)
    ensures LastInstall(steps + [step], if step.Record? && step.message.Install? then Some(|steps|) else i)
  {
    assert forall j :: 0 <= j < |steps| ==> InstallAt(steps + [step], j) == InstallAt(steps, j);
  }

  lemma SinceAfter(steps: seq<Step>, step: Step, i: nat)
    requires i < |steps|
    ensures EndedSince(steps + [step], i) <==> EndedSince(steps, i) || Ends(step)
    ensures UnreadSince(steps + [step], i) <==> UnreadSince(steps, i) && !step.ProviderRead?
    ensures LostSince(steps + [step], i) <==> LostSince(steps, i) || step.ProviderLoses?
  {
    var more := steps + [step];
    assert more[|steps|] == step;
    assert forall j :: 0 <= j < |steps| ==> more[j] == steps[j];
    if EndedSince(steps, i) {
      var j :| i < j < |steps| && Ends(steps[j]);
      assert more[j] == steps[j];
    }
    if LostSince(steps, i) {
      var j :| i < j < |steps| && steps[j].ProviderLoses?;
      assert more[j] == steps[j];
    }
    if UnreadSince(more, i) {
      forall j | i < j < |steps| ensures !steps[j].ProviderRead? {
        assert more[j] == steps[j];
      }
    }
  }

  lemma HoldsAfter(steps: seq<Step>, s: Sys, m: Lifecycle, i: nat, r: nat, step: Step, s': Sys)
    requires Holds(steps, s, m, i, r)
    requires s'.provider.device == if step.ProviderLoses? then None else s.provider.device
    ensures Holds(steps + [step], s', m, i, r)
  {
    SinceAfter(steps, step, r);
  }

  lemma InstallTells(steps: seq<Step>, s: Sys, i: Option<nat>, r: nat, m: Lifecycle)
    requires InvAt(s, Quiet) && Enabled(s, Record(m)) && Tells(steps, s, Quiet, i, r) && m.Install?
    ensures var s' := Begin(s, m);
      Tells(steps + [Record(m)], s', if s'.activity.Working? then Unread else Quiet, Some(|steps|), r)
  {
    LastInstallAfter(steps, i, Record(m));
  }

  lemma EndTells(steps: seq<Step>, s: Sys, i: Option<nat>, r: nat, m: Lifecycle)
    requires InvAt(s, Quiet) && Enabled(s, Record(m)) && Tells(steps, s, Quiet, i, r) && !m.Install?
    ensures var s' := Begin(s, m);
      Tells(steps + [Record(m)], s', if s'.activity.Working? then Unread else Quiet, i, r)
  {
    LastInstallAfter(steps, i, Record(m));
    if i.Some? { SinceAfter(steps, Record(m), i.value); }
  }

  lemma RecordTells(steps: seq<Step>, s: Sys, i: Option<nat>, r: nat, m: Lifecycle)
    returns (stage': Stage, i': Option<nat>)
    requires InvAt(s, Quiet) && Enabled(s, Record(m)) && Tells(steps, s, Quiet, i, r)
    ensures InvAt(Apply(s, Record(m)), stage') && Tells(steps + [Record(m)], Apply(s, Record(m)), stage', i', r)
  {
    stage' := RecordStepKeeps(s, m);
    if m.Install? {
      i' := Some(|steps|);
      InstallTells(steps, s, i, r, m);
    } else {
      i' := i;
      EndTells(steps, s, i, r, m);
    }
  }

  lemma HangupTells(steps: seq<Step>, s: Sys, i: Option<nat>, r: nat)
    requires InvAt(s, Quiet) && Enabled(s, MonitorHangup) && Tells(steps, s, Quiet, i, r)
    ensures InvAt(Apply(s, MonitorHangup), Unread) && Tells(steps + [MonitorHangup], Apply(s, MonitorHangup), Unread, i, r)
  {
    HangupStepKeeps(s);
    LastInstallAfter(steps, i, MonitorHangup);
    if i.Some? { SinceAfter(steps, MonitorHangup, i.value); }
  }

  lemma ReceiveTells(steps: seq<Step>, s: Sys, stage: Stage, i: Option<nat>, r: nat) returns (stage': Stage)
    requires InvAt(s, stage) && Enabled(s, NetcfgReceive) && Tells(steps, s, stage, i, r)
    ensures InvAt(Apply(s, NetcfgReceive), stage') && Tells(steps + [NetcfgReceive], Apply(s, NetcfgReceive), stage', i, r)
  {
    stage' := ReceiveStepKeeps(s, stage);
    LastInstallAfter(steps, i, NetcfgReceive);
    var s' := Apply(s, NetcfgReceive);
    if i.Some? {
      SinceAfter(steps, NetcfgReceive, i.value);
      if !EndedSince(steps, i.value) && !stage.Unread? && !s.activity.Stopped? {
        HoldsAfter(steps, s, steps[i.value].message, i.value, r, NetcfgReceive, s');
      }
    }
  }

  lemma ReadTells(steps: seq<Step>, s: Sys, stage: Stage, i: Option<nat>, r: nat) returns (r': nat)
    requires InvAt(s, stage) && Enabled(s, ProviderRead) && Tells(steps, s, stage, i, r)
    ensures InvAt(Apply(s, ProviderRead), Unsent) && Tells(steps + [ProviderRead], Apply(s, ProviderRead), Unsent, i, r')
  {
    ReadStepKeeps(s, stage);
    LastInstallAfter(steps, i, ProviderRead);
    r' := |steps|;
    if i.Some? { SinceAfter(steps, ProviderRead, i.value); }
  }

  lemma FlushTells(steps: seq<Step>, s: Sys, stage: Stage, i: Option<nat>, r: nat)
    requires InvAt(s, stage) && Enabled(s, ProviderFlush) && Tells(steps, s, stage, i, r)
    ensures InvAt(Apply(s, ProviderFlush), Unheard) && Tells(steps + [ProviderFlush], Apply(s, ProviderFlush), Unheard, i, r)
  {
    FlushStepKeeps(s, stage);
    LastInstallAfter(steps, i, ProviderFlush);
    if i.Some? {
      SinceAfter(steps, ProviderFlush, i.value);
      if !EndedSince(steps, i.value) && !s.activity.Stopped? {
        HoldsAfter(steps, s, steps[i.value].message, i.value, r, ProviderFlush, Apply(s, ProviderFlush));
      }
    }
  }

  lemma OwnStepTells(steps: seq<Step>, s: Sys, stage: Stage, i: Option<nat>, r: nat, step: Step)
    requires InvAt(s, stage) && Enabled(s, step) && Tells(steps, s, stage, i, r)
    requires step.ProviderReport? || step.ProviderLoses? || step.ProviderOffers?
    ensures InvAt(Apply(s, step), stage) && Tells(steps + [step], Apply(s, step), stage, i, r)
  {
    OwnStepKeeps(s, step, stage);
    LastInstallAfter(steps, i, step);
    if i.Some? {
      SinceAfter(steps, step, i.value);
      if !EndedSince(steps, i.value) && !stage.Unread? && !s.activity.Stopped? {
        HoldsAfter(steps, s, steps[i.value].message, i.value, r, step, Apply(s, step));
      }
    }
  }

  lemma StepTells(steps: seq<Step>, s: Sys, stage: Stage, i: Option<nat>, r: nat, step: Step)
    returns (stage': Stage, i': Option<nat>, r': nat)
    requires InvAt(s, stage) && Enabled(s, step) && Tells(steps, s, stage, i, r)
    ensures InvAt(Apply(s, step), stage') && Tells(steps + [step], Apply(s, step), stage', i', r')
  {
    stage', i', r' := stage, i, r;
    match step {
      case Record(m) => stage', i' := RecordTells(steps, s, i, r, m);
      case NetcfgReceive => stage' := ReceiveTells(steps, s, stage, i, r);
      case MonitorHangup =>
        HangupTells(steps, s, i, r);
        stage' := Unread;
      case ProviderRead =>
        r' := ReadTells(steps, s, stage, i, r);
        stage' := Unsent;
      case ProviderFlush =>
        FlushTells(steps, s, stage, i, r);
        stage' := Unheard;
      case _ => OwnStepTells(steps, s, stage, i, r, step);
    }
  }

  /** What every step keeps, told of the steps so far and the state, holds after any run. */
  lemma {:induction false} Inductively(kept: (seq<Step>, Sys) -> bool, done: seq<Step>, s: Sys, steps: seq<Step>)
    requires kept(done, s) && IsRun(s, steps)
    requires forall d, x, step :: kept(d, x) && Enabled(x, step) ==> kept(d + [step], Apply(x, step))
    ensures kept(done + steps, After(s, steps))
    decreases |steps|
  {
    if steps == [] {
      assert done + steps == done;
    } else {
      Inductively(kept, done + [steps[0]], Apply(s, steps[0]), steps[1..]);
      assert done + [steps[0]] + steps[1..] == done + steps;
    }
  }

  ghost predicate Told(steps: seq<Step>, s: Sys) {
    exists stage, i, r: nat :: InvAt(s, stage) && Tells(steps, s, stage, i, r)
  }

  lemma RunTells(providerGeneration: nat, steps: seq<Step>)
    requires IsRun(Initial(providerGeneration), steps)
    ensures Told(steps, After(Initial(providerGeneration), steps))
  {
    var start := Initial(providerGeneration);
    assert InvAt(start, Unread) && Tells([], start, Unread, None, 0);
    forall d, x, step | Told(d, x) && Enabled(x, step) ensures Told(d + [step], Apply(x, step)) {
      var stage, i, r: nat :| InvAt(x, stage) && Tells(d, x, stage, i, r);
      stage, i, r := StepTells(d, x, stage, i, r, step);
    }
    Inductively((d, x) => Told(d, x), [], start, steps);
    assert [] + steps == steps;
  }

  /** Whenever netcfg is idle: if nothing has ended the link of the latest Install record,
      netcfg and the provider have it active under the record's generation, and the
      provider serves the very descriptor that the record transferred, unless it lost that
      device after reading the request; otherwise there is neither a link nor a device. */
  lemma LinkIsTheLatestInstall(providerGeneration: nat, steps: seq<Step>) returns (i: Option<nat>, r: nat)
    requires IsRun(Initial(providerGeneration), steps)
    requires After(Initial(providerGeneration), steps).activity.Idle?
    ensures LastInstall(steps, i)
    ensures var s := After(Initial(providerGeneration), steps);
      if i.Some? && !EndedSince(steps, i.value) then
        var m := steps[i.value].message;
        && |m.descriptors| == 1 && ReadAt(steps, i.value, r)
        && s.netcfg.activeLink == Some(m.ethernet) && s.provider.activeGeneration == Some(m.ethernet)
        && s.netcfg.monitor == Some(m.descriptors[0]) && s.receiver.active == Some((m.wifi, m.ethernet))
        && s.provider.device == if LostSince(steps, r) then None else Some(m.descriptors[0])
      else
        s.netcfg.activeLink.None? && s.netcfg.monitor.None? && s.provider.activeGeneration.None? && s.provider.device.None?
  {
    RunTells(providerGeneration, steps);
    var s := After(Initial(providerGeneration), steps);
    var stage;
    stage, i, r :| InvAt(s, stage) && Tells(steps, s, stage, i, r);
  }

  /** On the way out, and out. */
  predicate Leaves(s: Sys) {
    match s.activity
    case Exited => s.receiver.closed && s.receiver.active.None?
    case Working(_, Some(m)) => m.ChannelClosed? ==> s.receiver.active.None?
    case _ => true
  }

  lemma {:induction false} RunLeaves(s: Sys, steps: seq<Step>)
    requires Leaves(s) && IsRun(s, steps)
    ensures Leaves(After(s, steps))
    decreases |steps|
  {
    if steps != [] {
      StepLeaves(s, steps[0]);
      RunLeaves(Apply(s, steps[0]), steps[1..]);
    }
  }

  lemma StepLeaves(s: Sys, step: Step)
    requires Leaves(s) && Enabled(s, step)
    ensures Leaves(Apply(s, step))
  {
  }

  /** When the end of the lifecycle channel has been handled, nothing of the link is left
      anywhere. */
  lemma ExitIsClean(providerGeneration: nat, steps: seq<Step>)
    requires IsRun(Initial(providerGeneration), steps)
    requires After(Initial(providerGeneration), steps).activity.Exited?
    ensures var s := After(Initial(providerGeneration), steps);
      && s.receiver.closed && s.receiver.active.None?
      && s.netcfg.activeLink.None? && s.netcfg.monitor.None?
      && s.provider.activeGeneration.None? && s.provider.device.None?
  {
    RunTells(providerGeneration, steps);
    var s := After(Initial(providerGeneration), steps);
    var stage, i, r: nat :| InvAt(s, stage) && Tells(steps, s, stage, i, r);
    RunLeaves(Initial(providerGeneration), steps);
  }

  // ----- which records are accepted -----

  ghost predicate RecordedEnd(steps: seq<Step>, i: nat) {
    exists j :: i < j < |steps| && steps[j].Record? && !steps[j].message.Install?
  }

  /** The rules for a record that meets an idle netcfg, by the records before it: an Install
      is well-formed, of the one Wi-Fi identity, and under a number above all before it; a
      Revoke names the latest Install, which no record has ended. */
  ghost predicate Lawful(steps: seq<Step>, i: Option<nat>, m: Lifecycle)
    requires LastInstall(steps, i)
  {
    match m
    case ChannelClosed => true
    case Install(wifi, ethernet, descriptors, macMatches, frameValid) =>
      && macMatches && |descriptors| == 1 && frameValid && wifi > 0 && ethernet > 0
      && forall j: nat :: InstallAt(steps, j) ==> steps[j].message.wifi == wifi && steps[j].message.ethernet < ethernet
    case Revoke(wifi, ethernet, descriptors, macMatches) =>
      && macMatches && descriptors == []
      && i.Some? && !RecordedEnd(steps, i.value)
      && steps[i.value].message.wifi == wifi && steps[i.value].message.ethernet == ethernet
  }

  ghost predicate Remembers(steps: seq<Step>, r: Receiver, i: Option<nat>)
    requires LastInstall(steps, i)
  {
    if i.None? then r.wifiIdentity.None? && r.lastEthernet.None? else
    var m := steps[i.value].message;
    && r.wifiIdentity == Some(m.wifi) && r.lastEthernet == Some(m.ethernet)
    && forall j: nat :: InstallAt(steps, j) ==> steps[j].message.wifi == m.wifi && steps[j].message.ethernet <= m.ethernet
  }

  ghost predicate Attends(steps: seq<Step>, s: Sys, i: Option<nat>)
    requires LastInstall(steps, i)
  {
    match s.activity
    case Working(_, Some(m)) =>
      i.Some? && (if m.Install? then steps[i.value].message == m && !RecordedEnd(steps, i.value) else RecordedEnd(steps, i.value))
    case Exited => true
    case _ =>
      s.receiver.active ==
        if i.Some? && !RecordedEnd(steps, i.value) then Some((steps[i.value].message.wifi, steps[i.value].message.ethernet))
        else None
  }

  ghost predicate Judges(steps: seq<Step>, s: Sys, i: Option<nat>) {
    LastInstall(steps, i) && (s.activity.Stopped? || (Remembers(steps, s.receiver, i) && Attends(steps, s, i)))
  }

  lemma RecordedEndAfter(steps: seq<Step>, step: Step, i: nat)
    requires i < |steps|
    ensures RecordedEnd(steps + [step], i) <==> RecordedEnd(steps, i) || (step.Record? && !step.message.Install?)
  {
    var more := steps + [step];
    assert more[|steps|] == step;
    if RecordedEnd(steps, i) {
      var j :| i < j < |steps| && steps[j].Record? && !steps[j].message.Install?;
      assert more[j] == steps[j];
    }
  }

  lemma JudgedExactly(steps: seq<Step>, s: Sys, i: Option<nat>, m: Lifecycle)
    requires s.activity.Idle? && Judges(steps, s, i)
    ensures Decide(s.receiver, m).Refuse? <==> !Lawful(steps, i, m)
  {
    if i.Some? { assert InstallAt(steps, i.value); }
  }

  lemma StepJudges(steps: seq<Step>, s: Sys, i: Option<nat>, step: Step) returns (i': Option<nat>)
    requires Enabled(s, step) && Judges(steps, s, i)
    ensures Judges(steps + [step], Apply(s, step), i')
  {
    i' := if step.Record? && step.message.Install? then Some(|steps|) else i;
    LastInstallAfter(steps, i, step);
    assert forall j: nat :: j < |steps| ==> InstallAt(steps + [step], j) == InstallAt(steps, j);
    if i.Some? {
      RecordedEndAfter(steps, step, i.value);
      assert InstallAt(steps, i.value);
    }
    if step.Record? { JudgedExactly(steps, s, i, step.message); }
  }

  lemma {:induction false} RunJudges(done: seq<Step>, s: Sys, i: Option<nat>, steps: seq<Step>) returns (i': Option<nat>)
    requires Judges(done, s, i) && IsRun(s, steps)
    ensures Judges(done + steps, After(s, steps), i')
    decreases |steps|
  {
    if steps == [] {
      i' := i;
      assert done + steps == done;
    } else {
      i' := StepJudges(done, s, i, steps[0]);
      i' := RunJudges(done + [steps[0]], Apply(s, steps[0]), i', steps[1..]);
      assert done + [steps[0]] + steps[1..] == done + steps;
    }
  }

  /** A record stops netcfg exactly if it breaks the rules. */
  lemma OnlyLawfulRecordsPass(providerGeneration: nat, steps: seq<Step>, m: Lifecycle) returns (i: Option<nat>)
    requires IsRun(Initial(providerGeneration), steps)
    requires Enabled(After(Initial(providerGeneration), steps), Record(m))
    ensures LastInstall(steps, i)
    ensures Apply(After(Initial(providerGeneration), steps), Record(m)).activity == Stopped(WifiProtocol)
            <==> !Lawful(steps, i, m)
  {
    var start := Initial(providerGeneration);
    var s := After(start, steps);
    i := RunJudges([], start, None, steps);
    assert [] + steps == steps;
    JudgedExactly(steps, s, i, m);
  }

  // ----- reported snapshots -----

  function Reported(steps: seq<Step>, n: nat): seq<nat>
    requires n <= |steps|
  {
    if n == 0 then []
    else Reported(steps, n - 1) + if steps[n - 1].ProviderReport? then [steps[n - 1].snapshot] else []
  }

  lemma {:induction false} ReportedBefore(steps: seq<Step>, step: Step, n: nat)
    requires n <= |steps|
    ensures Reported(steps + [step], n) == Reported(steps, n)
  {
    if n > 0 { ReportedBefore(steps, step, n - 1); }
  }

  function Snapshots(channel: seq<Reply>): seq<nat> {
    if channel == [] then [] else (if channel[0].Interface? then [channel[0].snapshot] else []) + Snapshots(channel[1..])
  }

  lemma {:induction false} SnapshotsAppend(channel: seq<Reply>, r: Reply)
    ensures Snapshots(channel + [r]) == Snapshots(channel) + if r.Interface? then [r.snapshot] else []
  {
    if channel == [] {
      assert channel + [r] == [r];
      assert Snapshots([r][1..]) == [];
    } else {
      SnapshotsAppend(channel[1..], r);
      assert (channel + [r])[1..] == channel[1..] + [r];
    }
  }

  /** Netcfg has the snapshot reported last among the first `heard`; the others are on
      their way. */
  ghost predicate Follows(reported: seq<nat>, s: Sys, heard: nat) {
    && heard <= |reported| && reported[heard..] == Snapshots(s.toNetcfg)
    && s.netcfg.snapshot == if heard == 0 then None else Some(reported[heard - 1])
  }

  lemma ReceiveFollows(reported: seq<nat>, s: Sys, heard: nat)
    requires Enabled(s, NetcfgReceive) && Follows(reported, s, heard)
    ensures Follows(reported, Receive(s), if s.toNetcfg[0].Interface? then heard + 1 else heard)
  {
    var first := s.toNetcfg[0];
    assert Snapshots(s.toNetcfg) == (if first.Interface? then [first.snapshot] else []) + Snapshots(s.toNetcfg[1..]);
    if first.Interface? {
      assert reported[heard..][0] == first.snapshot;
      assert reported[heard + 1..] == reported[heard..][1..];
    }
  }

  lemma StepFollows(steps: seq<Step>, s: Sys, heard: nat, step: Step) returns (heard': nat)
    requires Enabled(s, step) && Follows(Reported(steps, |steps|), s, heard)
    ensures Follows(Reported(steps + [step], |steps| + 1), Apply(s, step), heard')
  {
    var reported := Reported(steps, |steps|);
    ReportedBefore(steps, step, |steps|);
    heard' := heard;
    match step {
      case NetcfgReceive =>
        ReceiveFollows(reported, s, heard);
        heard' := if s.toNetcfg[0].Interface? then heard + 1 else heard;
        assert reported + [] == reported;
      case ProviderFlush =>
        SnapshotsAppend(s.toNetcfg, Ack(s.provider.pendingAck.value.0, s.provider.pendingAck.value.1));
        assert reported + [] == reported;
      case ProviderReport(snapshot) =>
        SnapshotsAppend(s.toNetcfg, Interface(snapshot));
        assert (reported + [snapshot])[heard..] == reported[heard..] + [snapshot];
      case _ =>
        assert reported + [] == reported;
    }
  }

  lemma {:induction false} RunFollows(done: seq<Step>, s: Sys, heard: nat, steps: seq<Step>) returns (heard': nat)
    requires IsRun(s, steps) && Follows(Reported(done, |done|), s, heard)
    ensures Follows(Reported(done + steps, |done| + |steps|), After(s, steps), heard')
    decreases |steps|
  {
    if steps == [] {
      heard' := heard;
      assert done + steps == done;
    } else {
      heard' := StepFollows(done, s, heard, steps[0]);
      heard' := RunFollows(done + [steps[0]], Apply(s, steps[0]), heard', steps[1..]);
      assert done + [steps[0]] + steps[1..] == done + steps;
    }
  }

  /** Netcfg hears the reported snapshots in order and without a gap, whatever it is waiting
      for meanwhile, and holds the one it heard last. */
  lemma SnapshotsArriveInOrder(providerGeneration: nat, steps: seq<Step>) returns (heard: nat)
    requires IsRun(Initial(providerGeneration), steps)
    ensures Follows(Reported(steps, |steps|), After(Initial(providerGeneration), steps), heard)
  {
    heard := RunFollows([], Initial(providerGeneration), 0, steps);
    assert [] + steps == steps;
  }
}
