/** What a provider holds, told from the list of its steps alone, whatever its client
    sends: which generation is active, which device serves it, which frame waits for that
    device, and how the next request will be answered. */
module ProviderRuns {
  import opened Common
  import opened LinkGenerations

  predicate AttachAt(steps: seq<ProviderStep>, i: nat) {
    i < |steps| && steps[i].Handle? && steps[i].request.Attach?
  }

  /** An Attach under a number above all those before it. */
  ghost predicate Succeeds(steps: seq<ProviderStep>, i: nat) {
    && AttachAt(steps, i) && steps[i].request.generation > 0
    && forall j :: 0 <= j < i && AttachAt(steps, j) ==> steps[j].request.generation < steps[i].request.generation
  }

  /** The latest of these, if there is one. */
  ghost predicate Latest(steps: seq<ProviderStep>, a: Option<nat>) {
    && (a.Some? ==> Succeeds(steps, a.value))
    && forall j :: (if a.Some? then a.value + 1 else 0) <= j < |steps| ==> !Succeeds(steps, j)
  }

  /** A Detach of the generation attached at `i` has followed. */
  ghost predicate Detached(steps: seq<ProviderStep>, i: nat)
    requires AttachAt(steps, i)
  {
    exists j :: i < j < |steps| && steps[j] == Handle(Detach(steps[i].request.generation))
  }

  ghost predicate Lost(steps: seq<ProviderStep>, i: nat) {
    exists j :: i < j < |steps| && steps[j].LoseLink?
  }

  /** No offer from here on was taken. */
  ghost predicate Blocked(steps: seq<ProviderStep>, k: nat) {
    forall j :: k <= j < |steps| && steps[j].Offer? ==> !steps[j].taken
  }

  /** The device attached at `i` has taken no frame since this offer, the first such. */
  ghost predicate Waits(steps: seq<ProviderStep>, i: nat, k: nat) {
    && i < k < |steps| && steps[k].Offer? && Blocked(steps, k)
    && forall j :: i < j < k && steps[j].Offer? ==> !Blocked(steps, j)
  }

  ghost predicate Serving(steps: seq<ProviderStep>, a: Option<nat>)
    requires Latest(steps, a)
  {
    a.Some? && !Detached(steps, a.value) && !Lost(steps, a.value)
  }

  ghost predicate TellsGeneration(steps: seq<ProviderStep>, p: Provider, a: Option<nat>) {
    && Latest(steps, a)
    && (forall j: nat :: AttachAt(steps, j) ==> steps[j].request.generation <= p.lastGeneration)
    && p.lastGeneration == (if a.Some? then steps[a.value].request.generation else 0)
    && p.activeGeneration ==
         (if a.Some? && !Detached(steps, a.value) then Some(steps[a.value].request.generation) else None)
  }

  ghost predicate TellsDevice(steps: seq<ProviderStep>, p: Provider, a: Option<nat>)
    requires Latest(steps, a)
  {
    && p.device == (if Serving(steps, a) then Some(steps[a.value].request.frame) else None)
    && (p.watching <==> exists j :: 0 <= j < |steps| && steps[j].Handle? && steps[j].request.Watch?)
  }

  ghost predicate TellsFrame(steps: seq<ProviderStep>, p: Provider, a: Option<nat>)
    requires Latest(steps, a)
  {
    && (p.pendingFrame.Some? <==> Serving(steps, a) && exists k: nat :: Waits(steps, a.value, k))
    && (Serving(steps, a) ==> forall k: nat :: Waits(steps, a.value, k) ==>
          p.pendingFrame == Some(Retained(steps[k].candidate, steps[a.value].request.frame)))
  }

  ghost predicate Tells(steps: seq<ProviderStep>, p: Provider, a: Option<nat>) {
    TellsGeneration(steps, p, a) && TellsDevice(steps, p, a) && TellsFrame(steps, p, a)
  }

  /** A request that the rules accept: a Watch, an Attach above every earlier number, a
      Detach of the latest generation attached and not yet detached. */
  ghost predicate Accepts(steps: seq<ProviderStep>, a: Option<nat>, r: Request)
    requires Latest(steps, a)
  {
    match r
    case Watch(_) => true
    case Attach(generation, _) =>
      generation > 0 && forall j: nat :: AttachAt(steps, j) ==> steps[j].request.generation < generation
    case Detach(generation) => a.Some? && steps[a.value].request.generation == generation && !Detached(steps, a.value)
  }

  lemma AcceptsExactly(steps: seq<ProviderStep>, p: Provider, a: Option<nat>, r: Request)
    requires TellsGeneration(steps, p, a)
    ensures RequestValid(p, r) <==> Accepts(steps, a, r)
  {
    if r.Attach? && a.Some? {
      assert AttachAt(steps, a.value);
    }
  }

  /** The attachment that is the latest after one more step. */
  function Next(p: Provider, steps: seq<ProviderStep>, a: Option<nat>, step: ProviderStep): Option<nat> {
    if step.Handle? && step.request.Attach? && RequestValid(p, step.request) then Some(|steps|) else a
  }

  lemma SucceedsInPrefix(steps: seq<ProviderStep>, step: ProviderStep, i: nat)
    requires i < |steps|
    ensures Succeeds(steps + [step], i) <==> Succeeds(steps, i)
  {
    assert forall j :: 0 <= j <= i ==> AttachAt(steps + [step], j) == AttachAt(steps, j);
  }

  lemma LatestAfter(steps: seq<ProviderStep>, p: Provider, a: Option<nat>, step: ProviderStep)
    requires TellsGeneration(steps, p, a)
    ensures Latest(steps + [step], Next(p, steps, a, step))
  {
    var more, n := steps + [step], |steps|;
    forall j | 0 <= j < n ensures Succeeds(more, j) <==> Succeeds(steps, j) {
      SucceedsInPrefix(steps, step, j);
    }
    assert forall j :: 0 <= j < n ==> AttachAt(more, j) == AttachAt(steps, j);
    assert Succeeds(more, n) <==> Next(p, steps, a, step) == Some(n) by {
      if step.Handle? && step.request.Attach? { AcceptsExactly(steps, p, a, step.request); }
    }
  }

  lemma DetachedAfter(steps: seq<ProviderStep>, step: ProviderStep, i: nat)
    requires AttachAt(steps, i)
    ensures AttachAt(steps + [step], i)
    ensures Detached(steps + [step], i) <==>
              Detached(steps, i) || step == Handle(Detach(steps[i].request.generation))
    ensures Lost(steps + [step], i) <==> Lost(steps, i) || step.LoseLink?
  {
    var more := steps + [step];
    assert more[|steps|] == step;
    if Detached(steps, i) {
      var j :| i < j < |steps| && steps[j] == Handle(Detach(steps[i].request.generation));
      assert more[j] == steps[j];
    }
    if Lost(steps, i) {
      var j :| i < j < |steps| && steps[j].LoseLink?;
      assert more[j] == steps[j];
    }
  }

  lemma GenerationAfter(steps: seq<ProviderStep>, p: Provider, a: Option<nat>, step: ProviderStep)
    requires TellsGeneration(steps, p, a) && ProviderCan(p, step)
    ensures TellsGeneration(steps + [step], ProviderDo(p, step), Next(p, steps, a, step))
  {
    LatestAfter(steps, p, a, step);
    assert forall j :: 0 <= j < |steps| ==> AttachAt(steps + [step], j) == AttachAt(steps, j);
    if a.Some? { DetachedAfter(steps, step, a.value); }
  }

  lemma DeviceAfter(steps: seq<ProviderStep>, p: Provider, a: Option<nat>, step: ProviderStep)
    requires TellsGeneration(steps, p, a) && TellsDevice(steps, p, a) && ProviderCan(p, step)
    ensures Latest(steps + [step], Next(p, steps, a, step))
    ensures TellsDevice(steps + [step], ProviderDo(p, step), Next(p, steps, a, step))
  {
    var more := steps + [step];
    LatestAfter(steps, p, a, step);
    if a.Some? { DetachedAfter(steps, step, a.value); }
    if p.watching {
      var j :| 0 <= j < |steps| && steps[j].Handle? && steps[j].request.Watch?;
      assert more[j] == steps[j];
    }
    assert more[|steps|] == step;
  }

  /** Another step that is no offer changes nothing about who waits; one that is taken
      leaves nobody; one that is not adds itself if nobody waited. */
  lemma WaitsAfter(steps: seq<ProviderStep>, step: ProviderStep, i: nat, k: nat)
    requires i < |steps|
    ensures Waits(steps + [step], i, k) <==>
      if k < |steps| then Waits(steps, i, k) && (step.Offer? ==> !step.taken)
      else k == |steps| && step.Offer? && !step.taken && forall j :: i < j < k ==> !Waits(steps, i, j)
  {
    var more := steps + [step];
    assert forall j :: 0 <= j < |steps| ==> more[j] == steps[j];
    assert more[|steps|] == step;
    forall j | 0 <= j < |steps| ensures Blocked(more, j) <==> Blocked(steps, j) && (step.Offer? ==> !step.taken) {
      if Blocked(more, j) {
        assert forall m :: j <= m < |steps| ==> more[m] == steps[m];
      }
    }
    if k == |steps| && step.Offer? && !step.taken && (forall j :: i < j < k ==> !Waits(steps, i, j)) {
      NobodyWaits(steps, i, k);
    }
  }

  /** If nobody waits, every offer since was followed by one that was taken. */
  lemma {:induction false} NobodyWaits(steps: seq<ProviderStep>, i: nat, n: nat)
    requires i < n <= |steps| && forall j :: i < j < n ==> !Waits(steps, i, j)
    ensures forall j :: i < j < n && steps[j].Offer? ==> !Blocked(steps, j)
  {
    if n > i + 1 {
      NobodyWaits(steps, i, n - 1);
      assert !Waits(steps, i, n - 1);
    }
  }

  lemma FrameAfter(steps: seq<ProviderStep>, p: Provider, a: Option<nat>, step: ProviderStep)
    requires Tells(steps, p, a) && ProviderCan(p, step) && Next(p, steps, a, step) == a
    ensures Latest(steps + [step], a) && TellsFrame(steps + [step], ProviderDo(p, step), a)
  {
    var more := steps + [step];
    LatestAfter(steps, p, a, step);
    if Serving(steps, a) {
      var i := a.value;
      DetachedAfter(steps, step, i);
      forall k: nat ensures Waits(more, i, k) <==>
        if k < |steps| then Waits(steps, i, k) && (step.Offer? ==> !step.taken)
        else k == |steps| && step.Offer? && !step.taken && forall j :: i < j < k ==> !Waits(steps, i, j)
      {
        WaitsAfter(steps, step, i, k);
      }
      if p.pendingFrame.Some? {
        var k :| Waits(steps, i, k);
        assert (step.Offer? && step.taken) || Waits(more, i, k);
      } else if step.Offer? && !step.taken {
        assert Waits(more, i, |steps|);
      }
    } else if a.Some? {
      DetachedAfter(steps, step, a.value);
    }
  }

  lemma NewDeviceHasNoFrame(steps: seq<ProviderStep>, p: Provider, a: Option<nat>, step: ProviderStep)
    requires Tells(steps, p, a) && ProviderCan(p, step) && Next(p, steps, a, step) == Some(|steps|)
    ensures Latest(steps + [step], Some(|steps|)) && TellsFrame(steps + [step], ProviderDo(p, step), Some(|steps|))
  {
    LatestAfter(steps, p, a, step);
  }

  lemma StepTells(steps: seq<ProviderStep>, p: Provider, a: Option<nat>, step: ProviderStep)
    requires Tells(steps, p, a) && ProviderCan(p, step)
    ensures Tells(steps + [step], ProviderDo(p, step), Next(p, steps, a, step))
  {
    GenerationAfter(steps, p, a, step);
    DeviceAfter(steps, p, a, step);
    if step.Handle? && step.request.Attach? && RequestValid(p, step.request) {
      NewDeviceHasNoFrame(steps, p, a, step);
    } else {
      FrameAfter(steps, p, a, step);
    }
  }

  lemma {:induction false} RunTells(done: seq<ProviderStep>, p: Provider, a: Option<nat>, steps: seq<ProviderStep>)
    returns (b: Option<nat>)
    requires Tells(done, p, a) && IsProviderRun(p, steps)
    ensures Tells(done + steps, ProviderAfter(p, steps), b)
    decreases |steps|
  {
    if steps == [] {
      b := a;
      assert done + steps == done;
    } else {
      StepTells(done, p, a, steps[0]);
      b := RunTells(done + [steps[0]], ProviderDo(p, steps[0]), Next(p, done, a, steps[0]), steps[1..]);
      assert done + [steps[0]] + steps[1..] == done + steps;
    }
  }

  /** After any run of a new provider: the device is the frame of the latest Attach under a
      number above all earlier ones, unless a Detach of that number or a loss of the link
      came after it; and then there is none. Its generation is active until the Detach, and
      is the last one. The retained frame is the oldest that was offered to this device
      since it last took one. */
  lemma DeviceIsTheLatestAttach(steps: seq<ProviderStep>) returns (a: Option<nat>)
    requires IsProviderRun(FRESH_PROVIDER, steps)
    ensures Latest(steps, a)
    ensures var p := ProviderAfter(FRESH_PROVIDER, steps);
      && p.device == (if a.Some? && !Detached(steps, a.value) && !Lost(steps, a.value)
                      then Some(steps[a.value].request.frame) else None)
      && p.activeGeneration == (if a.Some? && !Detached(steps, a.value)
                                then Some(steps[a.value].request.generation) else None)
      && p.lastGeneration == (if a.Some? then steps[a.value].request.generation else 0)
      && Tells(steps, p, a)
  {
    a := RunTells([], FRESH_PROVIDER, None, steps);
    assert [] + steps == steps;
  }

  /** And the next request is acknowledged under its own number, as applied exactly if the
      rules accept it. */
  lemma AnsweredByTheRules(steps: seq<ProviderStep>, r: Request) returns (a: Option<nat>)
    requires IsProviderRun(FRESH_PROVIDER, steps)
    ensures Latest(steps, a)
    ensures Consume(ProviderAfter(FRESH_PROVIDER, steps), r).pendingAck
         == Some((r.generation, if Accepts(steps, a, r) then Applied else Refused))
  {
    a := DeviceIsTheLatestAttach(steps);
    AcceptsExactly(steps, ProviderAfter(FRESH_PROVIDER, steps), a, r);
  }

  /** The frame that a transmit attempt offers: the one that has waited longest for this
      device, or the fresh one if none waits. */
  lemma OldestGoesFirst(steps: seq<ProviderStep>, candidate: nat) returns (a: Option<nat>)
    requires IsProviderRun(FRESH_PROVIDER, steps) && ProviderAfter(FRESH_PROVIDER, steps).device.Some?
    ensures Latest(steps, a) && a.Some?
    ensures var offered := Offered(ProviderAfter(FRESH_PROVIDER, steps), candidate);
      && (forall k: nat :: Waits(steps, a.value, k) ==> offered == steps[k].candidate)
      && ((forall k: nat :: !Waits(steps, a.value, k)) ==> offered == candidate)
  {
    a := DeviceIsTheLatestAttach(steps);
  }
}
