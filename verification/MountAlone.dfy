/** The steps of `MountSteps` against the methods of the mount manager: a Mount call and an
    unmount loop that nobody interrupts do in steps what Mount and UnmountAll promise. */
module MountsAlone {
  import opened Basics
  import opened Protocol
  import opened Machines
  import opened Mounts
  import opened MountSteps
  import Paths

  function View(s: State): Mounting
  {
    Mounting(s.tracked, s.machine)
  }

  /** The steps of one Mount call, of which the last two follow only a successful mount. */
  lemma MountAlone(s: State, faults: Faults, m: MountPayload)
    ensures var (next, r) := MountStep(View(s), faults, m, true);
      var mounted, k := Do(s, faults, RunMount(m)), |s.pending|;
      if r.Err? then mounted == s.(machine := next.machine)
      else
        Do(Do(mounted, faults, RunChown(k)), faults, Append(k))
        == s.(tracked := next.tracked, machine := next.machine)
  {
    hide Validate, Paths.Clean, MountArgs, RunCommand;
    var k := |s.pending|;
    var (next, r) := MountStep(View(s), faults, m, true);
    if r.Ok? {
      var mounted := Do(s, faults, RunMount(m));
      assert mounted.pending == s.pending + [Pending(m, false)];
      var owned := Do(mounted, faults, RunChown(k));
      assert owned.pending == s.pending + [Pending(m, true)];
      var tracked := Do(owned, faults, Append(k));
      assert tracked.pending == s.pending;
    }
  }

  function Loops(s: State, faults: Faults, n: nat): State
    decreases n
  {
    if n == 0 then s else Loops(Do(s, faults, LoopNext), faults, n - 1)
  }

  /** The rest of an unmount loop: each step unmounts the last entry that is left. */
  lemma {:induction false} LoopsTearDown(s: State, faults: Faults, n: nat)
    requires s.unmounter.Looping? && s.unmounter.i == n - 1 && n <= |s.tracked|
    ensures Loops(s, faults, n)
      == s.(machine := Teardown(s.machine, faults, s.tracked[..n]), unmounter := Looping(s.unmounter.start, -1))
    decreases n
  {
    hide RunCommand, Paths.Clean;
    if n > 0 {
      assert Last(s.tracked[..n]) == s.tracked[n - 1] && Init(s.tracked[..n]) == s.tracked[..n - 1];
      LoopsTearDown(Do(s, faults, LoopNext), faults, n - 1);
    } else {
      assert s.tracked[..0] == [];
    }
  }

  /** A whole unmount loop by itself is UnmountAll. */
  lemma UnmountAlone(s: State, faults: Faults)
    requires s.unmounter.Idle?
    ensures var t := Do(Loops(Do(s, faults, LoopStart), faults, |s.tracked|), faults, LoopEnd);
      View(t) == UnmountStep(View(s), faults) && t.unmounter.Idle? && t.pending == s.pending && t.lost == s.lost
  {
    hide RunCommand, Paths.Clean, UmountPlan;
    var started := Do(s, faults, LoopStart);
    LoopsTearDown(started, faults, |s.tracked|);
    assert s.tracked[..|s.tracked|] == s.tracked;
    assert s.tracked[|s.tracked|..] == [] && s.lost + [] == s.lost;
  }
}
