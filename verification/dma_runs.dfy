/** Which handles of the driver host are valid, told from the list of steps alone: a
    handle that was given out is stale exactly if it was dropped, or the device reset,
    after that. */
module DmaRuns {
  import opened Common
  import opened DmaHost

  lemma {:induction false} AfterSplit(h: Host, first: seq<Step>, second: seq<Step>)
    ensures After(h, first + second) == After(After(h, first), second)
    decreases |first|
  {
    if first == [] {
      assert first + second == second;
    } else {
      AfterSplit(Next(h, first[0]), first[1..], second);
      assert (first + second)[1..] == first[1..] + second;
    }
  }

  lemma AfterLast(steps: seq<Step>)
    requires steps != []
    ensures After(START, steps) == Next(After(START, steps[..|steps| - 1]), steps[|steps| - 1])
  {
    var n := |steps| - 1;
    AfterSplit(START, steps[..n], [steps[n]]);
    assert steps[..n] + [steps[n]] == steps;
    assert [steps[n]][1..] == [];
  }

  /** How often a reset of the device was asked for among the first `n` steps. */
  function DeviceResets(steps: seq<Step>, n: nat): nat
    requires n <= |steps|
  {
    if n == 0 then 0 else DeviceResets(steps, n - 1) + if steps[n - 1] == ResetStep(DEVICE) then 1 else 0
  }

  /** This step resets the device: it is the right one, and generations are left. */
  predicate ResetsAt(steps: seq<Step>, j: nat) {
    j < |steps| && steps[j] == ResetStep(DEVICE) && DeviceResets(steps, j) + 2 < U64_LIMIT
  }

  lemma {:induction false} SameResets(steps: seq<Step>, k: nat, n: nat)
    requires n <= k <= |steps|
    ensures DeviceResets(steps[..k], n) == DeviceResets(steps, n)
  {
    if n > 0 { SameResets(steps, k, n - 1); }
  }

  lemma {:induction false} GenerationCountsResets(steps: seq<Step>)
    ensures After(START, steps).generation == 1 + Min(DeviceResets(steps, |steps|), U64_LIMIT - 2)
    decreases |steps|
  {
    if steps != [] {
      var n := |steps| - 1;
      GenerationCountsResets(steps[..n]);
      SameResets(steps, n, n);
      AfterLast(steps);
    }
  }

  lemma ResetsExactly(steps: seq<Step>, j: nat)
    requires j < |steps| && steps[j].ResetStep?
    ensures ResetsAt(steps, j) <==> Reset(After(START, steps[..j]), steps[j].device).1.Ok?
  {
    GenerationCountsResets(steps[..j]);
    SameResets(steps, j, j);
  }

  // ----- arenas -----

  /** This step gave out this arena. */
  predicate GrantedAt(steps: seq<Step>, i: nat, rep: nat) {
    && i < |steps| && steps[i].AllocStep?
    && Alloc(After(START, steps[..i]), steps[i].device, steps[i].size, steps[i].alignment).1 == Ok(rep)
  }

  ghost predicate RevokedSince(steps: seq<Step>, i: nat, rep: nat) {
    exists j :: i < j < |steps| && RevokesAt(steps, j, rep)
  }

  predicate RevokesAt(steps: seq<Step>, j: nat, rep: nat) {
    j < |steps| && (steps[j] == DropArenaStep(rep) || ResetsAt(steps, j))
  }

  /** One step takes a granted handle out of the table exactly if it drops it or resets. */
  lemma StepRevokes(h: Host, step: Step, rep: nat)
    requires Inv(h) && rep < h.nextArena
    ensures rep in Next(h, step).arenas <==>
              rep in h.arenas && step != DropArenaStep(rep) && !(step.ResetStep? && Reset(h, step.device).1.Ok?)
  {
  }

  lemma PrefixOf(steps: seq<Step>, k: nat, n: nat)
    requires n <= k <= |steps|
    ensures steps[..k][..n] == steps[..n]
  {
  }

  lemma RevokesInPrefix(steps: seq<Step>, k: nat, j: nat, rep: nat)
    requires j < k <= |steps|
    ensures RevokesAt(steps[..k], j, rep) <==> RevokesAt(steps, j, rep)
  {
    SameResets(steps, k, j);
  }

  lemma RevokedByTheLast(steps: seq<Step>, i: nat, rep: nat)
    requires i < |steps| - 1
    ensures RevokedSince(steps, i, rep) <==>
              RevokedSince(steps[..|steps| - 1], i, rep) || RevokesAt(steps, |steps| - 1, rep)
  {
    var n := |steps| - 1;
    if RevokedSince(steps, i, rep) {
      var j :| i < j < |steps| && RevokesAt(steps, j, rep);
      if j < n { RevokesInPrefix(steps, n, j, rep); }
    }
    if RevokedSince(steps[..n], i, rep) {
      var j :| i < j < n && RevokesAt(steps[..n], j, rep);
      RevokesInPrefix(steps, n, j, rep);
    }
  }

  lemma {:induction false} ListedExactly(steps: seq<Step>, i: nat, rep: nat)
    requires GrantedAt(steps, i, rep)
    ensures var h := After(START, steps);
      Inv(h) && rep < h.nextArena && (rep in h.arenas <==> !RevokedSince(steps, i, rep))
    decreases |steps|
  {
    var n := |steps| - 1;
    var before := After(START, steps[..n]);
    RunKeeps(START, steps);
    RunKeeps(START, steps[..n]);
    AfterLast(steps);
    if i < n {
      PrefixOf(steps, n, i);
      ListedExactly(steps[..n], i, rep);
      StepRevokes(before, steps[n], rep);
      StepKeeps(before, steps[n]);
      RevokedByTheLast(steps, i, rep);
      if steps[n].ResetStep? { ResetsExactly(steps, n); }
    }
  }

  /** A handle that was given out is stale exactly if it was dropped or the device was
      reset since, whatever else happened. */
  lemma StaleExactly(steps: seq<Step>, i: nat, rep: nat)
    requires GrantedAt(steps, i, rep)
    ensures ArenaOf(After(START, steps), rep) == Err(StaleHandle) <==> RevokedSince(steps, i, rep)
  {
    ListedExactly(steps, i, rep);
  }

  lemma GrantRecordsTheSize(h: Host, step: Step)
    requires step.AllocStep? && Alloc(h, step.device, step.size, step.alignment).1.Ok?
    ensures var rep := Alloc(h, step.device, step.size, step.alignment).1.value;
      rep in Next(h, step).granted && Next(h, step).granted[rep].size == step.size
  {
  }

  /** The arena keeps the size it was allocated with. */
  lemma KeepsItsSize(steps: seq<Step>, i: nat, rep: nat)
    requires GrantedAt(steps, i, rep)
    ensures rep in After(START, steps).granted && After(START, steps).granted[rep].size == steps[i].size
  {
    var before, granted := After(START, steps[..i]), After(START, steps[..i + 1]);
    AfterLast(steps[..i + 1]);
    assert steps[..i + 1][..i] == steps[..i];
    GrantRecordsTheSize(before, steps[i]);
    RunKeeps(START, steps[..i + 1]);
    RunKeeps(granted, steps[i + 1..]);
    AfterSplit(START, steps[..i + 1], steps[i + 1..]);
    assert steps[..i + 1] + steps[i + 1..] == steps;
  }

  /** A write or a read of memory that was given out goes through exactly if the handle is
      not revoked and the range lies within the size that was asked for. */
  lemma AccessExactly(steps: seq<Step>, i: nat, rep: nat, offset: nat, data: seq<byte>, length: nat)
    requires GrantedAt(steps, i, rep)
    ensures var h := After(START, steps);
      && (WriteArena(h, rep, offset, data).1 ==
            if RevokedSince(steps, i, rep) then Some(StaleHandle)
            else if |data| >= U32_LIMIT then Some(Limit)
            else if offset + |data| > steps[i].size then Some(OutOfBounds)
            else None)
      && (ReadArena(h, rep, offset, length).Ok? <==> !RevokedSince(steps, i, rep) && offset + length <= steps[i].size)
      && (ReadArena(h, rep, offset, length).Ok? ==> |ReadArena(h, rep, offset, length).value| == length)
  {
    ListedExactly(steps, i, rep);
    KeepsItsSize(steps, i, rep);
  }

  /** And no other handle was ever given out. */
  lemma {:induction false} GrantedOnlyByAlloc(steps: seq<Step>, rep: nat) returns (i: nat)
    requires rep in After(START, steps).granted
    ensures GrantedAt(steps, i, rep)
    decreases |steps|
  {
    var n := |steps| - 1;
    AfterLast(steps);
    if rep in After(START, steps[..n]).granted {
      i := GrantedOnlyByAlloc(steps[..n], rep);
      PrefixOf(steps, n, i);
    } else {
      i := n;
    }
  }

  // ----- regions -----

  predicate OpenedAt(steps: seq<Step>, i: nat, rep: nat) {
    && i < |steps| && steps[i].OpenStep?
    && OpenRegion(After(START, steps[..i]), steps[i].device, steps[i].index).1 == Ok(rep)
  }

  ghost predicate ClosedSince(steps: seq<Step>, i: nat, rep: nat) {
    exists j :: i < j < |steps| && ClosesAt(steps, j, rep)
  }

  predicate ClosesAt(steps: seq<Step>, j: nat, rep: nat) {
    j < |steps| && (steps[j] == DropRegionStep(rep) || ResetsAt(steps, j))
  }

  lemma StepCloses(h: Host, step: Step, rep: nat)
    requires Inv(h) && rep < h.nextRegion
    ensures rep in Next(h, step).regions <==>
              rep in h.regions && step != DropRegionStep(rep) && !(step.ResetStep? && Reset(h, step.device).1.Ok?)
  {
    if !step.OpenStep? && !step.ResetStep? && !step.DropRegionStep? { MemoryStepsKeepRegions(h, step); }
  }

  lemma MemoryStepsKeepRegions(h: Host, step: Step)
    requires !step.OpenStep? && !step.ResetStep? && !step.DropRegionStep?
    ensures Next(h, step).regions == h.regions
  {
  }

  lemma ClosesInPrefix(steps: seq<Step>, k: nat, j: nat, rep: nat)
    requires j < k <= |steps|
    ensures ClosesAt(steps[..k], j, rep) <==> ClosesAt(steps, j, rep)
  {
    SameResets(steps, k, j);
  }

  lemma ClosedByTheLast(steps: seq<Step>, i: nat, rep: nat)
    requires i < |steps| - 1
    ensures ClosedSince(steps, i, rep) <==>
              ClosedSince(steps[..|steps| - 1], i, rep) || ClosesAt(steps, |steps| - 1, rep)
  {
    var n := |steps| - 1;
    if ClosedSince(steps, i, rep) {
      var j :| i < j < |steps| && ClosesAt(steps, j, rep);
      if j < n { ClosesInPrefix(steps, n, j, rep); }
    }
    if ClosedSince(steps[..n], i, rep) {
      var j :| i < j < n && ClosesAt(steps[..n], j, rep);
      ClosesInPrefix(steps, n, j, rep);
    }
  }

  lemma {:induction false} OpenExactly(steps: seq<Step>, i: nat, rep: nat)
    requires OpenedAt(steps, i, rep)
    ensures var h := After(START, steps);
      Inv(h) && rep < h.nextRegion && (rep in h.regions <==> !ClosedSince(steps, i, rep))
    decreases |steps|
  {
    var n := |steps| - 1;
    var before := After(START, steps[..n]);
    RunKeeps(START, steps);
    RunKeeps(START, steps[..n]);
    AfterLast(steps);
    if i < n {
      PrefixOf(steps, n, i);
      OpenExactly(steps[..n], i, rep);
      StepCloses(before, steps[n], rep);
      StepKeeps(before, steps[n]);
      ClosedByTheLast(steps, i, rep);
      if steps[n].ResetStep? { ResetsExactly(steps, n); }
    }
  }

  /** A region handle is current exactly if it was neither dropped since it was opened nor
      the device reset. */
  lemma CurrentExactly(steps: seq<Step>, i: nat, rep: nat)
    requires OpenedAt(steps, i, rep)
    ensures RegionIsCurrent(After(START, steps), rep) <==> !ClosedSince(steps, i, rep)
  {
    OpenExactly(steps, i, rep);
  }

  // ----- the doorbell -----

  /** With every live arena searched, a doorbell succeeds exactly if the registers name a
      range of bytes within one of them. */
  lemma RingsExactly(h: Host, order: seq<nat>)
    requires Inv(h) && forall r :: r in h.arenas ==> r in order
    ensures Doorbell(h, order).1.None? <==>
      && h.lengthRegister > 0 && h.iovaRegister + h.lengthRegister < U64_LIMIT
      && exists r: nat :: r in h.arenas && Within(h, r, h.iovaRegister) && Within(h, r, h.iovaRegister + h.lengthRegister - 1)
  {
    if h.lengthRegister > 0 {
      if Doorbell(h, order).1.None? {
        var r := Hit(h, order).value;
        assert Within(h, r, h.iovaRegister) && Within(h, r, h.iovaRegister + h.lengthRegister - 1);
      }
      if r: nat :| r in h.arenas && Within(h, r, h.iovaRegister) && Within(h, r, h.iovaRegister + h.lengthRegister - 1) {
        assert h.arenas[r].generation == h.generation;
        HitFinds(h, order, r);
      }
    }
  }

  /** A region is opened exactly for the one region of the device, under a handle that was
      never given out; and a register write is refused, and changes nothing, exactly on a
      stale handle, at an unknown offset, or by a doorbell that is not rung with 1 or fails. */
  lemma RegionsExactly(h: Host, device: nat, index: nat, region: nat, offset: nat, value: nat, order: seq<nat>)
    requires Inv(h)
    ensures OpenRegion(h, device, index).1.Ok? <==> device == DEVICE && index == 0 && h.nextRegion + 1 < U32_LIMIT
    ensures OpenRegion(h, device, index).1.Ok? ==> OpenRegion(h, device, index).1.value !in h.regions
    ensures var (next, error) := WriteRegister(h, region, offset, value, order);
      && (error.Some? ==> next == h)
      && (error.None? <==>
            && RegionIsCurrent(h, region)
            && (offset in {0, 4} || (offset == 8 && value == 1 && Doorbell(h, order).1.None?)))
      && (error == Some(OutOfBounds) <==> RegionIsCurrent(h, region) && offset !in {0, 4, 8})
  {
  }

  // ----- allocation -----

  /** Of two multiples of one number less than that number apart, there is one. */
  lemma {:induction false} MultiplesAreApart(a: nat, b: nat, of: nat)
    requires of > 0 && IsMultiple(a, of) && IsMultiple(b, of) && a <= b < a + of
    ensures a == b
    decreases a
  {
    if a >= of {
      MultiplesAreApart(a - of, b - of, of);
    }
  }

  /** An arena is placed exactly at the first aligned address that is free, and only
      within every limit. */
  lemma PlacedExactly(h: Host, device: nat, size: nat, alignment: nat, iova: nat)
    ensures Place(h, device, size, alignment) == Ok(iova) <==>
      && device == DEVICE
      && 1 <= size <= MAX_ARENA_BYTES && |h.arenas| < MAX_ARENAS
      && 1 <= alignment <= MAX_ALIGNMENT && IsPowerOfTwo(alignment)
      && IsMultiple(iova, alignment) && h.nextIova <= iova < h.nextIova + alignment
      && h.nextIova + alignment <= U64_LIMIT && iova + size < U64_LIMIT
  {
    if alignment > 0 {
      var first := RoundDown(h.nextIova + (alignment - 1), alignment);
      if IsMultiple(iova, alignment) && h.nextIova <= iova < h.nextIova + alignment {
        if first <= iova {
          MultiplesAreApart(first, iova, alignment);
        } else {
          MultiplesAreApart(iova, first, alignment);
        }
      }
    }
  }

  /** A new arena is as long as asked, reads as zeros, and lies behind every arena that was
      ever given out; the others are as they were. */
  lemma NewMemoryIsZero(steps: seq<Step>, device: nat, size: nat, alignment: nat, other: nat)
    requires Alloc(After(START, steps), device, size, alignment).1.Ok?
    ensures var h := After(START, steps);
      var (next, rep) := Alloc(h, device, size, alignment);
      && (exists zeros: seq<byte> :: |zeros| == size && (forall k :: 0 <= k < size ==> zeros[k] == 0)
            && ReadArena(next, rep.value, 0, size) == Ok(zeros))
      && (forall r :: r in h.granted ==> r != rep.value && h.granted[r].iova + h.granted[r].size <= next.granted[rep.value].iova)
      && (other != rep.value ==> ArenaOf(next, other) == ArenaOf(h, other))
  {
    var h := After(START, steps);
    var (next, rep) := Alloc(h, device, size, alignment);
    RunKeeps(START, steps);
    var zeros := next.arenas[rep.value].bytes;
    assert zeros[0..size] == zeros;
  }
}
