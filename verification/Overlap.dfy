/** Shutdown goroutines whose unmount loops overlap: when one of them can read past the end of
    the tracked list, which ends the process. */
module Overlaps {
  import opened Basics
  import opened Protocol
  import opened DaemonSteps

  predicate BeforeLoop(pc: ShutPc)
  {
    pc.SetShutdown? || pc.SendShutdown? || pc.StartUnmount?
  }

  /** The goroutine has not emptied the tracked list yet. */
  predicate Ongoing(pc: ShutPc)
  {
    BeforeLoop(pc) || pc.Unmounting?
  }

  /** The goroutine has still to read the list. */
  predicate EntriesToCome(pc: ShutPc, tracked: seq<MountPayload>)
  {
    if BeforeLoop(pc) then tracked != [] else pc.Unmounting? && pc.left > 0
  }

  /** `i` is going to empty the list, from which `j` is going to read. */
  predicate Pair(d: Downs, i: nat, j: nat)
  {
    && i < |d.shuts| && j < |d.shuts| && i != j
    && Ongoing(d.shuts[i].pc) && EntriesToCome(d.shuts[j].pc, d.tracked)
  }

  ghost predicate AtRisk(d: Downs)
  {
    || d.panicked
    || (exists j: nat :: j < |d.shuts| && Panics(d.shuts[j], d.tracked))
    || (exists i: nat, j: nat :: Pair(d, i, j))
  }

  /** The shutdown goroutines `ids` make one step each, in this order, up to a panic. */
  function Shuts(mode: string, d: Downs, ids: seq<nat>): Downs
    decreases |ids|
  {
    if ids == [] || d.panicked then d
    else Shuts(mode, if ids[0] < |d.shuts| then DoShut(mode, d, ids[0]) else d, ids[1..])
  }

  /** One step, as far as positions and the list are concerned. */
  lemma ShutEffect(mode: string, d: Downs, id: nat)
    requires id < |d.shuts| && !Panics(d.shuts[id], d.tracked)
    ensures var pc, next := d.shuts[id].pc, DoShut(mode, d, id);
      && next.panicked == d.panicked && |next.shuts| == |d.shuts|
      && (forall other: nat :: other < |d.shuts| && other != id ==> next.shuts[other] == d.shuts[other])
      && next.shuts[id].pc == (if pc.StartUnmount? then Unmounting(|d.tracked|) else NextShut(pc, d.once))
      && next.tracked == (if pc == Unmounting(0) then [] else d.tracked)
  {
    hide WhatNow, Acts, NextShut;
  }

  // ----- Without risk no step panics --------------------------------------------------

  lemma SafeStep(mode: string, d: Downs, id: nat)
    requires id < |d.shuts| && !AtRisk(d)
    ensures !AtRisk(DoShut(mode, d, id))
  {
    hide DoShut;
    var next := DoShut(mode, d, id);
    assert !Panics(d.shuts[id], d.tracked);
    ShutEffect(mode, d, id);
    forall j: nat | j < |next.shuts|
      ensures !Panics(next.shuts[j], next.tracked)
    {
      assert !Panics(d.shuts[j], d.tracked) && !Pair(d, id, j);
    }
    forall i: nat, j: nat
      ensures !Pair(next, i, j)
    {
      assert !Pair(d, i, j) && !Pair(d, j, i);
    }
  }

  lemma {:induction false} SafeSteps(mode: string, d: Downs, ids: seq<nat>)
    requires !AtRisk(d)
    ensures !AtRisk(Shuts(mode, d, ids))
    decreases |ids|
  {
    hide AtRisk, DoShut;
    if ids != [] && !d.panicked {
      if ids[0] < |d.shuts| {
        SafeStep(mode, d, ids[0]);
        SafeSteps(mode, DoShut(mode, d, ids[0]), ids[1..]);
      } else {
        SafeSteps(mode, d, ids[1..]);
      }
    }
  }

  // ----- From every risk some steps lead to a panic -----------------------------------

  lemma ShutsFirst(mode: string, d: Downs, id: nat, rest: seq<nat>)
    requires id < |d.shuts| && !d.panicked
    ensures Shuts(mode, d, [id] + rest) == Shuts(mode, DoShut(mode, d, id), rest)
  {
    assert ([id] + rest)[0] == id && ([id] + rest)[1..] == rest;
  }

  lemma PanicsNow(mode: string, d: Downs, id: nat)
    requires id < |d.shuts| && !d.panicked && Panics(d.shuts[id], d.tracked)
    ensures Shuts(mode, d, [id]).panicked
  {
    ShutsFirst(mode, d, id, []);
    assert [id] + [] == [id];
  }

  function Distance(pc: ShutPc): nat
  {
    match pc
    case SetShutdown => 3
    case SendShutdown => 2
    case StartUnmount => 1
    case _ => 0
  }

  function Left(pc: ShutPc): nat
  {
    if pc.Unmounting? then pc.left else 0
  }

  /** `j` goes to its loop, then `i` to its own and through it, which empties the list; then
      `j` reads on. */
  lemma {:induction false} PairCanPanic(mode: string, d: Downs, i: nat, j: nat) returns (ids: seq<nat>)
    requires !d.panicked && Pair(d, i, j)
    ensures Shuts(mode, d, ids).panicked
    decreases Distance(d.shuts[i].pc) + Distance(d.shuts[j].pc), Left(d.shuts[i].pc)
  {
    hide DoShut, Shuts;
    if Panics(d.shuts[i], d.tracked) {
      ids := [i];
      PanicsNow(mode, d, i);
    } else if Panics(d.shuts[j], d.tracked) {
      ids := [j];
      PanicsNow(mode, d, j);
    } else {
      var first := if BeforeLoop(d.shuts[j].pc) then j else i;
      ShutEffect(mode, d, first);
      var next := DoShut(mode, d, first);
      if d.shuts[first].pc == Unmounting(0) {
        ids := [j];
        PanicsNow(mode, next, j);
      } else {
        ids := PairCanPanic(mode, next, i, j);
      }
      ShutsFirst(mode, d, first, ids);
      ids := [first] + ids;
    }
  }

  lemma RiskCanPanic(mode: string, d: Downs) returns (ids: seq<nat>)
    requires AtRisk(d)
    ensures Shuts(mode, d, ids).panicked
  {
    if d.panicked {
      ids := [];
    } else if j: nat :| j < |d.shuts| && Panics(d.shuts[j], d.tracked) {
      ids := [j];
      PanicsNow(mode, d, j);
    } else {
      var i: nat, j: nat :| Pair(d, i, j);
      ids := PairCanPanic(mode, d, i, j);
    }
  }

  /** The shutdowns under way can end the process by a panic exactly when one of them is
      going to empty the list from which another one is going to read, or reads past its end
      with its next step. */
  lemma PanicsIffAtRisk(mode: string, d: Downs)
    ensures (exists ids :: Shuts(mode, d, ids).panicked) <==> AtRisk(d)
  {
    if AtRisk(d) {
      var ids := RiskCanPanic(mode, d);
      assert Shuts(mode, d, ids).panicked;
    } else {
      forall ids
        ensures !Shuts(mode, d, ids).panicked
      {
        SafeSteps(mode, d, ids);
      }
    }
  }

  // ----- In the whole system ----------------------------------------------------------

  lemma {:induction false} AfterFirst(mode: string, s: State, first: Step, rest: seq<Step>)
    ensures After(mode, s, [first] + rest) == After(mode, Do(mode, s, first), rest)
    decreases |rest|
  {
    hide Do;
    var steps := [first] + rest;
    if rest == [] {
      assert steps == [first] && Init(steps) == [];
    } else {
      assert Init(steps) == [first] + Init(rest) && Last(steps) == Last(rest);
      AfterFirst(mode, s, first, Init(rest));
    }
  }

  function ShutSteps(ids: seq<nat>): (steps: seq<Step>)
    ensures |steps| == |ids|
    ensures forall k :: 0 <= k < |ids| ==> steps[k] == ShutNext(ids[k])
  {
    seq(|ids|, k requires 0 <= k < |ids| => ShutNext(ids[k]))
  }

  lemma {:induction false} AfterPanic(mode: string, s: State, steps: seq<Step>)
    requires s.downs.panicked
    ensures After(mode, s, steps) == s
    decreases |steps|
  {
    if steps != [] {
      AfterPanic(mode, s, Init(steps));
    }
  }

  lemma ShutStepsFirst(ids: seq<nat>)
    requires ids != []
    ensures ShutSteps(ids) == [ShutNext(ids[0])] + ShutSteps(ids[1..])
  {
  }

  lemma ShutInSystem(mode: string, s: State, id: nat)
    requires !s.downs.panicked
    ensures Do(mode, s, ShutNext(id)).downs
      == if id < |s.downs.shuts| then DoShut(mode, s.downs, id) else s.downs
  {
    hide DoShut, ShutLife;
  }

  lemma {:induction false} ShutsInSystem(mode: string, s: State, ids: seq<nat>)
    ensures After(mode, s, ShutSteps(ids)).downs == Shuts(mode, s.downs, ids)
    decreases |ids|
  {
    hide Do, DoShut, ShutSteps;
    if s.downs.panicked {
      AfterPanic(mode, s, ShutSteps(ids));
    } else if ids != [] {
      hide After;
      ShutStepsFirst(ids);
      AfterFirst(mode, s, ShutNext(ids[0]), ShutSteps(ids[1..]));
      ShutInSystem(mode, s, ids[0]);
      ShutsInSystem(mode, Do(mode, s, ShutNext(ids[0])), ids[1..]);
    }
  }

  /** The same for every state of the daemon and its continuations by shutdown steps. */
  lemma ShutdownsPanicIffAtRisk(mode: string, s: State)
    ensures (exists ids :: After(mode, s, ShutSteps(ids)).downs.panicked) <==> AtRisk(s.downs)
  {
    PanicsIffAtRisk(mode, s.downs);
    hide After, Shuts, AtRisk;
    if AtRisk(s.downs) {
      var ids :| Shuts(mode, s.downs, ids).panicked;
      ShutsInSystem(mode, s, ids);
      assert After(mode, s, ShutSteps(ids)).downs.panicked;
    } else {
      forall ids
        ensures !After(mode, s, ShutSteps(ids)).downs.panicked
      {
        ShutsInSystem(mode, s, ids);
        assert !Shuts(mode, s.downs, ids).panicked;
      }
    }
  }

  /** `i` is going to empty the list, and `j` has not looked at it yet. */
  predicate LateReader(d: Downs, i: nat, j: nat)
  {
    && i < |d.shuts| && j < |d.shuts| && i != j
    && Ongoing(d.shuts[i].pc) && BeforeLoop(d.shuts[j].pc)
  }

  /** The shutdown request or the mount that makes a run unsafe: a request that comes while a
      mount is tracked and another shutdown has not emptied the list yet, or a mount that is
      tracked while two shutdowns have not, one of them still before its loop. */
  ghost predicate BringsRisk(s: State, step: Step)
  {
    && s.serving
    && match step
      case RequestShutdown(_) =>
        s.downs.tracked != [] && exists i: nat :: i < |s.downs.shuts| && Ongoing(s.downs.shuts[i].pc)
      case Track(_) =>
        exists i: nat, j: nat :: LateReader(s.downs, i, j)
      case _ => false
  }

  lemma RequestBringsRisk(d: Downs, reason: string)
    requires !AtRisk(d)
    ensures AtRisk(Spawn(d, reason))
      <==> d.tracked != [] && exists i: nat :: i < |d.shuts| && Ongoing(d.shuts[i].pc)
  {
    var next, n := Spawn(d, reason), |d.shuts|;
    if i: nat :| i < n && Ongoing(d.shuts[i].pc) && d.tracked != [] {
      assert Pair(next, i, n);
    } else {
      forall j: nat | j < |next.shuts|
        ensures !Panics(next.shuts[j], next.tracked)
      {
        assert j < n ==> !Panics(d.shuts[j], d.tracked);
      }
      forall i: nat, j: nat
        ensures !Pair(next, i, j)
      {
        assert !Pair(d, i, j);
        assert j < n ==> !Panics(d.shuts[j], d.tracked);
      }
    }
  }

  lemma MountBringsRisk(d: Downs, m: MountPayload)
    requires !AtRisk(d)
    ensures AtRisk(d.(tracked := d.tracked + [m]))
      <==> exists i: nat, j: nat :: LateReader(d, i, j)
  {
    var next := d.(tracked := d.tracked + [m]);
    if i: nat, j: nat :| LateReader(d, i, j) {
      assert Pair(next, i, j);
    } else {
      forall j: nat | j < |next.shuts|
        ensures !Panics(next.shuts[j], next.tracked)
      {
        assert !Panics(d.shuts[j], d.tracked);
      }
      forall i: nat, j: nat
        ensures !Pair(next, i, j)
      {
        assert !Pair(d, i, j) && !LateReader(d, i, j);
      }
    }
  }

  lemma OtherStepsKeepDowns(mode: string, s: State, step: Step)
    requires !step.ShutNext? && !step.RequestShutdown? && !step.Track?
    ensures Do(mode, s, step).downs == s.downs
  {
  }

  /** A state without risk is left for one with risk by these steps and by no other. */
  lemma RiskBeginsIff(mode: string, s: State, step: Step)
    requires !AtRisk(s.downs)
    ensures AtRisk(Do(mode, s, step).downs) <==> BringsRisk(s, step)
  {
    hide AtRisk, DoShut, ShutLife, Spawn;
    assert !s.downs.panicked by { NoPanicYet(s.downs); }
    match step
    case RequestShutdown(reason) => RequestBringsRisk(s.downs, reason);
    case Track(m) => MountBringsRisk(s.downs, m);
    case ShutNext(id) =>
      if id < |s.downs.shuts| {
        SafeStep(mode, s.downs, id);
      }
    case _ => OtherStepsKeepDowns(mode, s, step);
  }

  lemma NoPanicYet(d: Downs)
    requires !AtRisk(d)
    ensures !d.panicked
  {
  }

  /** A shutdown that is going to empty the list while another one has entries to come can
      always end the process. */
  lemma OverlapCanPanic(mode: string, s: State, i: nat, j: nat) returns (steps: seq<Step>)
    requires Pair(s.downs, i, j)
    ensures After(mode, s, steps).downs.panicked
  {
    var ids := RiskCanPanic(mode, s.downs);
    ShutsInSystem(mode, s, ids);
    steps := ShutSteps(ids);
  }

  /** A goroutine that has not begun comes to the first entry of its unmount loop. */
  lemma GoToLoop(mode: string, s0: State, steps0: seq<Step>, s1: State, id: nat)
    returns (steps: seq<Step>, s: State)
    requires s1 == After(mode, s0, steps0) && !s1.downs.panicked
    requires id < |s1.downs.shuts| && s1.downs.shuts[id].pc.SetShutdown?
    ensures s == After(mode, s0, steps) && !s.downs.panicked && s.downs.tracked == s1.downs.tracked
    ensures |s.downs.shuts| == |s1.downs.shuts| && s.downs.shuts[id].pc == Unmounting(|s1.downs.tracked|)
    ensures forall other: nat :: other < |s.downs.shuts| && other != id ==>
      s.downs.shuts[other] == s1.downs.shuts[other]
  {
    hide After, ShutLife, WhatNow, Acts;
    steps, s := GoShut(mode, s0, steps0, s1, id);
    steps, s := GoShut(mode, s0, steps, s, id);
    steps, s := GoShut(mode, s0, steps, s, id);
  }

  /** Such a run exists for every mount: it is tracked when two requests for a shutdown
      arrive, both goroutines start their loops, and the process panics. */
  lemma OverlapPanics(mode: string, m: MountPayload) returns (before: seq<Step>, steps: seq<Step>)
    ensures var s := After(mode, Start(false), before);
      && s.downs.tracked == [m] && |s.downs.shuts| == 2
      && s.downs.shuts[0].pc == s.downs.shuts[1].pc == Unmounting(1)
      && After(mode, s, steps).downs.panicked
  {
    hide After, Take;
    var s;
    before, s := BootRun(mode);
    before, s := GoTrack(mode, Start(false), before, s, m);
    before, s := GoRequest(mode, Start(false), before, s);
    before, s := GoRequest(mode, Start(false), before, s);
    before, s := GoToLoop(mode, Start(false), before, s, 0);
    before, s := GoToLoop(mode, Start(false), before, s, 1);
    steps := OverlapCanPanic(mode, s, 0, 1);
  }
}
