/** Shutdown requests over every run of the daemon: what each shutdown goroutine has done at
    each position, and what it means that the shutdown channel is closed. */
module ShutdownRuns {
  import opened Basics
  import opened Protocol
  import opened Machines
  import opened Mounts
  import opened DaemonSteps
  import Shutdowns

  /** The acts of one goroutine, in order. */
  function Of(log: seq<Act>, id: nat): seq<What>
    decreases |log|
  {
    if log == [] then []
    else Of(Init(log), id) + (if Last(log).who == id then [Last(log).what] else [])
  }

  /** The goroutine's unmount loop has started. */
  predicate InLoop(pc: ShutPc)
  {
    !pc.SetShutdown? && !pc.SendShutdown? && !pc.StartUnmount?
  }

  /** The requests issued up to a position. */
  function IssuedBy(mode: string, g: Shutter): seq<Request>
  {
    if !InLoop(g.pc) then []
    else if g.pc.Unmounting? || g.pc.Syncing? then UmountPlan(g.visited)
    else if g.pc.PoweringOff? then UmountPlan(g.visited) + [Command(SyncCmd, [])]
    else Shutdowns.ShutdownPlan(g.visited, mode)
  }

  function Begun(g: Shutter): seq<What>
  {
    if g.pc.SetShutdown? then []
    else if !InLoop(g.pc) then [EnteredShutdown(g.reason)]
    else [EnteredShutdown(g.reason), LoopStarted(g.plan)]
  }

  function DoneBy(mode: string, g: Shutter): seq<What>
  {
    Begun(g) + Issuing(IssuedBy(mode, g))
  }

  /** The loop has read one entry per index it has passed. */
  predicate Counted(g: Shutter)
  {
    InLoop(g.pc) ==> |g.visited| + (if g.pc.Unmounting? then g.pc.left else 0) == |g.plan|
  }

  /** The goroutine has run Execute to its end. */
  predicate Executed(g: Shutter)
  {
    g.pc.Requesting? || g.pc.Closing? || g.pc.Over?
  }

  ghost predicate TraceInv(mode: string, d: Downs)
  {
    && (forall id: nat :: id < |d.shuts| ==>
          Of(d.log, id) == DoneBy(mode, d.shuts[id]) && Counted(d.shuts[id]))
    && (forall k :: 0 <= k < |d.log| ==> d.log[k].who < |d.shuts|)
  }

  ghost predicate OnceInv(d: Downs)
  {
    && (forall id: nat :: id < |d.shuts| ==> (d.shuts[id].pc.Closing? <==> d.once == Busy(id)))
    && (d.once.Busy? ==> d.once.id < |d.shuts|)
    && d.closes == (if d.once.Spent? then 1 else 0)
    && (d.once.Spent? ==> exists id: nat :: id < |d.shuts| && d.shuts[id].pc.Over?)
    && (forall id: nat :: id < |d.shuts| && d.shuts[id].pc.Over? ==> d.once.Spent?)
  }

  lemma OfAppend(log: seq<Act>, a: Act, id: nat)
    ensures Of(log + [a], id) == Of(log, id) + (if a.who == id then [a.what] else [])
  {
    assert Init(log + [a]) == log;
  }

  lemma OfActs(log: seq<Act>, id: nat, whats: seq<What>, other: nat)
    requires |whats| <= 1
    ensures Of(log + Acts(id, whats), other) == Of(log, other) + (if other == id then whats else [])
  {
    if whats == [] {
      assert log + [] == log;
      assert Of(log, other) + [] == Of(log, other);
    } else {
      assert whats == [whats[0]];
      assert Acts(id, whats) == [Act(id, whats[0])];
      OfAppend(log, Act(id, whats[0]), other);
    }
  }

  lemma {:induction false} OfNobody(log: seq<Act>, id: nat)
    requires forall k :: 0 <= k < |log| ==> log[k].who != id
    ensures Of(log, id) == []
    decreases |log|
  {
    if log != [] {
      assert Last(log) == log[|log| - 1];
      OfNobody(Init(log), id);
    }
  }

  lemma IssuedConcat(a: seq<Request>, b: seq<Request>)
    ensures Issuing(a + b) == Issuing(a) + Issuing(b)
  {
  }

  lemma PlanGrows(m: MountPayload, visited: seq<MountPayload>)
    ensures UmountPlan([m] + visited) == UmountPlan(visited) + [UmountOf(m)]
  {
    hide UmountOf;
  }

  /** What is issued now is what the next position's record has more than this one's. */
  lemma RequestsAdvance(mode: string, g: Shutter, tracked: seq<MountPayload>, once: Once)
    requires !Panics(g, tracked)
    ensures IssuedBy(mode, Advanced(g, tracked, once)) == IssuedBy(mode, g) + RequestNow(mode, tracked, g)
  {
    hide UmountPlan, UmountOf, Shutdowns.PoweroffPlan;
    if g.pc.StartUnmount? {
      assert UmountPlan([]) == [];
    } else if g.pc.Unmounting? && g.pc.left > 0 {
      PlanGrows(tracked[g.pc.left - 1], g.visited);
    }
  }

  /** The next position's record is this one's record and what is done now. */
  lemma RecordAdvances(mode: string, g: Shutter, tracked: seq<MountPayload>, once: Once)
    requires !Panics(g, tracked)
    ensures DoneBy(mode, Advanced(g, tracked, once)) == DoneBy(mode, g) + WhatNow(mode, tracked, g)
  {
    hide IssuedBy, RequestNow, NextShut;
    var next := Advanced(g, tracked, once);
    RequestsAdvance(mode, g, tracked, once);
    NothingAtFirst(mode, g, tracked);
    NothingAtFirst(mode, next, tracked);
    BegunAdvances(g, tracked, once);
    IssuedConcat(IssuedBy(mode, g), RequestNow(mode, tracked, g));
  }

  lemma NothingAtFirst(mode: string, g: Shutter, tracked: seq<MountPayload>)
    ensures !InLoop(g.pc) ==> IssuedBy(mode, g) == [] && RequestNow(mode, tracked, g) == []
    ensures g.pc.StartUnmount? ==> IssuedBy(mode, Advanced(g, tracked, Fresh)) == []
  {
  }

  lemma BegunAdvances(g: Shutter, tracked: seq<MountPayload>, once: Once)
    requires !Panics(g, tracked)
    ensures Begun(Advanced(g, tracked, once)) == Begun(g)
      + (if g.pc.SetShutdown? then [EnteredShutdown(g.reason)]
         else if g.pc.StartUnmount? then [LoopStarted(tracked)] else [])
  {
  }

  lemma RecordAfter(mode: string, d: Downs, id: nat, other: nat)
    requires TraceInv(mode, d) && id < |d.shuts| && other < |d.shuts| && !Panics(d.shuts[id], d.tracked)
    ensures Of(d.log + Acts(id, WhatNow(mode, d.tracked, d.shuts[id])), other)
      == DoneBy(mode, if other == id then Advanced(d.shuts[id], d.tracked, d.once) else d.shuts[other])
  {
    hide DoneBy, Advanced, WhatNow;
    WhatNowShort(mode, d.tracked, d.shuts[id]);
    OfActs(d.log, id, WhatNow(mode, d.tracked, d.shuts[id]), other);
    RecordAdvances(mode, d.shuts[id], d.tracked, d.once);
    var before := Of(d.log, other);
    assert before == DoneBy(mode, d.shuts[other]) && before + [] == before;
  }

  lemma WhatNowShort(mode: string, tracked: seq<MountPayload>, g: Shutter)
    ensures |WhatNow(mode, tracked, g)| <= 1
  {
  }

  lemma ShutKeepsTrace(mode: string, d: Downs, id: nat)
    requires TraceInv(mode, d) && id < |d.shuts|
    ensures TraceInv(mode, DoShut(mode, d, id))
  {
    hide DoneBy, WhatNow, Acts, Of, Advanced, Counted;
    var g, next := d.shuts[id], DoShut(mode, d, id);
    if !Panics(g, d.tracked) {
      forall other: nat | other < |next.shuts|
        ensures Of(next.log, other) == DoneBy(mode, next.shuts[other]) && Counted(next.shuts[other])
      {
        RecordAfter(mode, d, id, other);
        CountAdvances(g, d.tracked, d.once);
      }
      ActsAreHis(id, WhatNow(mode, d.tracked, g));
    }
  }

  lemma CountAdvances(g: Shutter, tracked: seq<MountPayload>, once: Once)
    requires Counted(g) && !Panics(g, tracked)
    ensures Counted(Advanced(g, tracked, once))
  {
  }

  lemma {:induction false} ActsAreHis(id: nat, whats: seq<What>)
    ensures forall k :: 0 <= k < |Acts(id, whats)| ==> Acts(id, whats)[k].who == id
    decreases |whats|
  {
    if whats != [] {
      ActsAreHis(id, whats[1..]);
    }
  }

  lemma ShutKeepsOnce(mode: string, d: Downs, id: nat)
    requires OnceInv(d) && id < |d.shuts|
    ensures OnceInv(DoShut(mode, d, id))
  {
    hide WhatNow, Acts;
    var g, next := d.shuts[id], DoShut(mode, d, id);
    if g.pc.Closing? {
      assert next.shuts[id].pc.Over?;
    }
    if d.once.Spent? {
      var over: nat :| over < |d.shuts| && d.shuts[over].pc.Over?;
      assert next.shuts[over].pc.Over?;
    }
  }

  lemma SpawnKeeps(mode: string, d: Downs, reason: string)
    requires TraceInv(mode, d) && OnceInv(d)
    ensures TraceInv(mode, Spawn(d, reason)) && OnceInv(Spawn(d, reason))
  {
    SpawnKeepsTrace(mode, d, reason);
    SpawnKeepsOnce(d, reason);
  }

  lemma SpawnKeepsTrace(mode: string, d: Downs, reason: string)
    requires TraceInv(mode, d)
    ensures TraceInv(mode, Spawn(d, reason))
  {
    hide Of, Shutdowns.Reason;
    var next := Spawn(d, reason);
    OfNobody(d.log, |d.shuts|);
    assert DoneBy(mode, next.shuts[|d.shuts|]) == [];
    forall id: nat | id < |d.shuts|
      ensures next.shuts[id] == d.shuts[id] && Of(d.log, id) == DoneBy(mode, d.shuts[id])
    {
    }
  }

  lemma SpawnKeepsOnce(d: Downs, reason: string)
    requires OnceInv(d)
    ensures OnceInv(Spawn(d, reason))
  {
    hide Shutdowns.Reason;
    var next := Spawn(d, reason);
    assert next.shuts[|d.shuts|].pc.SetShutdown?;
    if d.once.Spent? {
      var over: nat :| over < |d.shuts| && d.shuts[over].pc.Over?;
      assert next.shuts[over].pc.Over?;
    }
  }

  /** Run moves on to its last transition only when it has a reason to. */
  ghost predicate MainInv(s: State)
  {
    (s.main.SetStopping? || s.main.SendStopping? || s.main.CloseIpc? || s.main == Finished(true)) ==>
      s.cancelled || s.downs.closes > 0
  }

  lemma MainKeeps(mode: string, s: State, step: Step)
    requires MainInv(s)
    ensures MainInv(Do(mode, s, step))
  {
  }

  ghost predicate Inv(mode: string, d: Downs)
  {
    TraceInv(mode, d) && OnceInv(d)
  }

  lemma StepKeeps(mode: string, s: State, step: Step)
    requires Inv(mode, s.downs)
    ensures Inv(mode, Do(mode, s, step).downs)
  {
    hide DoShut, Spawn, MainLife, PollLife, ShutLife, Of, DoneBy, Counted;
    if s.downs.panicked { return; }
    match step
    case RequestShutdown(reason) => SpawnKeeps(mode, s.downs, reason);
    case ShutNext(id) =>
      if id < |s.downs.shuts| {
        ShutKeepsTrace(mode, s.downs, id);
        ShutKeepsOnce(mode, s.downs, id);
      }
    case _ =>
  }

  lemma {:induction false} EveryRun(mode: string, sender: bool, steps: seq<Step>)
    ensures Inv(mode, After(mode, Start(sender), steps).downs)
    ensures MainInv(After(mode, Start(sender), steps))
    decreases |steps|
  {
    if steps != [] {
      EveryRun(mode, sender, Init(steps));
      StepKeeps(mode, After(mode, Start(sender), Init(steps)), Last(steps));
      MainKeeps(mode, After(mode, Start(sender), Init(steps)), Last(steps));
    }
  }

  // ----- Loops that do not overlap ----------------------------------------------------

  /** At most one unmount loop is under way. */
  ghost predicate Apart(d: Downs)
  {
    forall i: nat, j: nat :: i < j < |d.shuts| ==> !(d.shuts[i].pc.Unmounting? && d.shuts[j].pc.Unmounting?)
  }

  /** No two unmount loops of the run overlap. */
  ghost predicate LoopsApart(mode: string, sender: bool, steps: seq<Step>)
    decreases |steps|
  {
    && Apart(After(mode, Start(sender), steps).downs)
    && (steps == [] || LoopsApart(mode, sender, Init(steps)))
  }

  /** The list still begins with the loop's plan, of which the loop has read the end. */
  ghost predicate ReadsItsPlan(g: Shutter, tracked: seq<MountPayload>)
  {
    match g.pc
    case Unmounting(left) => left <= |g.plan| && g.plan <= tracked && g.visited == g.plan[left..]
    case _ => InLoop(g.pc) ==> g.visited == g.plan
  }

  ghost predicate PlanInv(d: Downs)
  {
    !d.panicked && forall id: nat :: id < |d.shuts| ==> ReadsItsPlan(d.shuts[id], d.tracked)
  }

  lemma LoopReadsOn(g: Shutter, tracked: seq<MountPayload>, once: Once)
    requires ReadsItsPlan(g, tracked)
    ensures !Panics(g, tracked)
    ensures ReadsItsPlan(Advanced(g, tracked, once), if g.pc == Unmounting(0) then [] else tracked)
  {
    if g.pc.Unmounting? && g.pc.left > 0 {
      var left := g.pc.left;
      assert g.plan[left - 1..] == [g.plan[left - 1]] + g.plan[left..];
    }
  }

  lemma ShutKeepsPlans(mode: string, d: Downs, id: nat)
    requires PlanInv(d) && Apart(d) && id < |d.shuts|
    ensures PlanInv(DoShut(mode, d, id))
  {
    hide Advanced, WhatNow, Acts;
    var g, next := d.shuts[id], DoShut(mode, d, id);
    LoopReadsOn(g, d.tracked, d.once);
    forall other: nat | other < |next.shuts|
      ensures ReadsItsPlan(next.shuts[other], next.tracked)
    {
      if other != id {
        assert ReadsItsPlan(d.shuts[other], d.tracked);
        assert g.pc.Unmounting? ==> !d.shuts[other].pc.Unmounting?;
      }
    }
  }

  lemma StepKeepsPlans(mode: string, s: State, step: Step)
    requires PlanInv(s.downs) && Apart(s.downs)
    ensures PlanInv(Do(mode, s, step).downs)
  {
    hide DoShut, MainLife, PollLife, ShutLife, Apart;
    match step
    case ShutNext(id) =>
      if id < |s.downs.shuts| {
        ShutKeepsPlans(mode, s.downs, id);
      }
    case _ =>
  }

  /** In a run whose unmount loops do not overlap nothing panics, and each loop reads exactly
      the list it started from, newest first. */
  lemma {:induction false} ApartRunsReadTheirPlans(mode: string, sender: bool, steps: seq<Step>)
    requires LoopsApart(mode, sender, steps)
    ensures PlanInv(After(mode, Start(sender), steps).downs)
    decreases |steps|
  {
    if steps != [] {
      ApartRunsReadTheirPlans(mode, sender, Init(steps));
      assert Apart(After(mode, Start(sender), Init(steps)).downs);
      StepKeepsPlans(mode, After(mode, Start(sender), Init(steps)), Last(steps));
    }
  }

  /** Step `k` of the run is where goroutine `id` starts its unmount loop, over `plan`. */
  ghost predicate StartedAt(
      mode: string, sender: bool, steps: seq<Step>, id: nat, plan: seq<MountPayload>, k: nat)
  {
    && k < |steps| && steps[k] == ShutNext(id)
    && var d := After(mode, Start(sender), steps[..k]).downs;
      id < |d.shuts| && d.shuts[id].pc.StartUnmount? && d.tracked == plan
  }

  lemma PlanIsSetOnce(mode: string, s: State, step: Step, id: nat)
    requires id < |Do(mode, s, step).downs.shuts| && InLoop(Do(mode, s, step).downs.shuts[id].pc)
    ensures id < |s.downs.shuts|
    ensures var before, plan := s.downs.shuts[id], Do(mode, s, step).downs.shuts[id].plan;
      || (InLoop(before.pc) && before.plan == plan)
      || (step == ShutNext(id) && before.pc.StartUnmount? && s.downs.tracked == plan)
  {
    hide MainLife, PollLife, ShutLife, WhatNow, Acts;
  }

  /** The plan on record is the list that was tracked when the loop started. */
  lemma {:induction false} PlanWasTracked(mode: string, sender: bool, steps: seq<Step>, id: nat)
    requires id < |After(mode, Start(sender), steps).downs.shuts|
    requires InLoop(After(mode, Start(sender), steps).downs.shuts[id].pc)
    ensures exists k: nat ::
      StartedAt(mode, sender, steps, id, After(mode, Start(sender), steps).downs.shuts[id].plan, k)
    decreases |steps|
  {
    hide Do;
    var before := After(mode, Start(sender), Init(steps));
    var plan := After(mode, Start(sender), steps).downs.shuts[id].plan;
    PlanIsSetOnce(mode, before, Last(steps), id);
    if InLoop(before.downs.shuts[id].pc) {
      PlanWasTracked(mode, sender, Init(steps), id);
      var k: nat :| StartedAt(mode, sender, Init(steps), id, plan, k);
      assert Init(steps)[..k] == steps[..k];
      assert StartedAt(mode, sender, steps, id, plan, k);
    } else {
      assert StartedAt(mode, sender, steps, id, plan, |steps| - 1);
    }
  }

  // ----- What a closed channel means --------------------------------------------------

  /** The complete record of an Execute: the transition, the start of the unmount loop, one
      umount per entry of the list it started from, the sync, and the power-off of the
      configured mode, in this order. The entries are those the loop has read. */
  ghost predicate RanInFull(mode: string, s: State, id: nat)
  {
    && id < |s.downs.shuts|
    && var g := s.downs.shuts[id];
      && Of(s.downs.log, id)
        == [EnteredShutdown(g.reason), LoopStarted(g.plan)] + Issuing(Shutdowns.ShutdownPlan(g.visited, mode))
      && |g.visited| == |g.plan|
  }

  /** A complete record whose umounts are those of the list the loop started from. */
  ghost predicate RanAsPlanned(mode: string, s: State, id: nat)
  {
    RanInFull(mode, s, id) && s.downs.shuts[id].visited == s.downs.shuts[id].plan
  }

  /** How a complete record ends: with the power-off of the configured mode, after the sync. */
  lemma FullRecordEnds(mode: string, s: State, id: nat)
    requires RanInFull(mode, s, id)
    ensures var record := Of(s.downs.log, id);
      var n := |s.downs.shuts[id].plan|;
      && |record| == 2 + n + (if mode in {"", "systemctl", "signal-init"} then 2 else 1)
      && record[0] == EnteredShutdown(s.downs.shuts[id].reason)
      && record[n + 2] == Issue(Command(SyncCmd, []))
      && (mode in {"", "systemctl"} ==> record[n + 3] == Issue(Command(SystemctlCmd, ["poweroff"])))
      && (mode == "signal-init" ==> record[n + 3] == Issue(TermInit))
  {
    hide Shutdowns.ShutdownPlan, Of;
    var g := s.downs.shuts[id];
    var plan := Shutdowns.ShutdownPlan(g.visited, mode);
    Shutdowns.PlanEnds(g.visited, mode);
    if |plan| == |g.plan| + 2 {
      assert plan[|g.plan| + 1..][0] == plan[|g.plan| + 1];
    }
  }

  lemma RequestingRanInFull(mode: string, s: State, id: nat)
    requires Inv(mode, s.downs) && id < |s.downs.shuts| && Executed(s.downs.shuts[id])
    ensures RanInFull(mode, s, id)
  {
  }

  /** In every reachable state the channel has been closed at most once, however many requests
      came in, and if it is closed then some Execute has run in full; as planned, when no two
      unmount loops of the run overlapped. */
  lemma ClosedMeansExecuted(mode: string, sender: bool, steps: seq<Step>)
    ensures var s := After(mode, Start(sender), steps);
      && s.downs.closes <= 1
      && (s.downs.closes == 1 ==> exists id :: RanInFull(mode, s, id))
      && (s.downs.closes == 1 && LoopsApart(mode, sender, steps) ==> exists id :: RanAsPlanned(mode, s, id))
  {
    hide After, Of, DoneBy, TraceInv, LoopsApart, RanInFull;
    var s := After(mode, Start(sender), steps);
    EveryRun(mode, sender, steps);
    if s.downs.closes == 1 {
      var id: nat :| id < |s.downs.shuts| && s.downs.shuts[id].pc.Over?;
      RequestingRanInFull(mode, s, id);
      if LoopsApart(mode, sender, steps) {
        ApartRunsReadTheirPlans(mode, sender, steps);
        assert ReadsItsPlan(s.downs.shuts[id], s.downs.tracked);
        assert RanAsPlanned(mode, s, id);
      }
    }
  }

  lemma RecordIsPrefix(mode: string, g: Shutter)
    requires !g.pc.SetShutdown?
    ensures DoneBy(mode, g) <= [EnteredShutdown(g.reason)]
      + (if InLoop(g.pc) then [LoopStarted(g.plan)] + Issuing(Shutdowns.ShutdownPlan(g.visited, mode)) else [])
  {
    hide UmountPlan, Shutdowns.PoweroffPlan;
    if InLoop(g.pc) {
      var full := Shutdowns.ShutdownPlan(g.visited, mode);
      assert IssuedBy(mode, g) <= full;
      assert Issuing(IssuedBy(mode, g)) <= Issuing(full);
    }
  }

  /** At every moment what a shutdown goroutine has done is a prefix of the complete record of
      what its loop has read so far. */
  lemma AlwaysAPrefix(mode: string, sender: bool, steps: seq<Step>, id: nat)
    requires id < |After(mode, Start(sender), steps).downs.shuts|
    requires !After(mode, Start(sender), steps).downs.shuts[id].pc.SetShutdown?
    ensures var s := After(mode, Start(sender), steps);
      var g := s.downs.shuts[id];
      Of(s.downs.log, id) <= [EnteredShutdown(g.reason)]
        + (if InLoop(g.pc) then [LoopStarted(g.plan)] + Issuing(Shutdowns.ShutdownPlan(g.visited, mode)) else [])
  {
    var s := After(mode, Start(sender), steps);
    EveryRun(mode, sender, steps);
    RecordIsPrefix(mode, s.downs.shuts[id]);
  }

  /** Run ends without an error only if its context was cancelled or some Execute has run in
      full. */
  lemma RunEndsForAReason(mode: string, sender: bool, steps: seq<Step>)
    requires After(mode, Start(sender), steps).main == Finished(true)
    ensures var s := After(mode, Start(sender), steps);
      s.cancelled || exists id :: RanInFull(mode, s, id)
  {
    EveryRun(mode, sender, steps);
    ClosedMeansExecuted(mode, sender, steps);
  }

  // ----- Shutdowns end ----------------------------------------------------------------

  /** A bound on what a goroutine still has to do: its phase, then the umounts left. */
  function Phase(pc: ShutPc): nat
  {
    match pc
    case SetShutdown => 8
    case SendShutdown => 7
    case StartUnmount => 6
    case Unmounting(_) => 5
    case Syncing => 4
    case PoweringOff => 3
    case Requesting => 2
    case Closing => 1
    case Over => 0
  }

  predicate Nearer(next: ShutPc, pc: ShutPc)
  {
    Phase(next) < Phase(pc) || (next.Unmounting? && pc.Unmounting? && next.left < pc.left)
  }

  /** The goroutine waits in the Once for another one that is closing the channel. */
  predicate Waits(d: Downs, id: nat)
    requires id < |d.shuts|
  {
    d.shuts[id].pc.Requesting? && d.once.Busy?
  }

  lemma StepIsNearer(mode: string, d: Downs, id: nat)
    requires id < |d.shuts| && !d.shuts[id].pc.Over? && !Waits(d, id) && !Panics(d.shuts[id], d.tracked)
    ensures Nearer(DoShut(mode, d, id).shuts[id].pc, d.shuts[id].pc)
  {
    hide WhatNow, Acts;
  }

  /** In every reachable state a shutdown goroutine that is not over gets nearer to its end
      with its next step, whatever commands fail, or waits for one that does, or ends the
      process by a panic. It does not panic as long as no two unmount loops overlapped; then
      shutdowns never block each other for good. */
  lemma ShutdownsProgress(mode: string, sender: bool, steps: seq<Step>, id: nat)
    requires id < |After(mode, Start(sender), steps).downs.shuts|
    requires !After(mode, Start(sender), steps).downs.shuts[id].pc.Over?
    ensures var d := After(mode, Start(sender), steps).downs;
      if Waits(d, id) then
        d.once.id < |d.shuts| && d.shuts[d.once.id].pc.Closing? && DoShut(mode, d, d.once.id).once.Spent?
      else
        Panics(d.shuts[id], d.tracked) || Nearer(DoShut(mode, d, id).shuts[id].pc, d.shuts[id].pc)
    ensures LoopsApart(mode, sender, steps) ==>
      var d := After(mode, Start(sender), steps).downs;
      !d.panicked && !Panics(d.shuts[id], d.tracked)
  {
    var d := After(mode, Start(sender), steps).downs;
    EveryRun(mode, sender, steps);
    if Waits(d, id) {
      assert d.shuts[d.once.id].pc.Closing?;
    } else if !Panics(d.shuts[id], d.tracked) {
      StepIsNearer(mode, d, id);
    }
    if LoopsApart(mode, sender, steps) {
      ApartRunsReadTheirPlans(mode, sender, steps);
      LoopReadsOn(d.shuts[id], d.tracked, d.once);
    }
  }
}
