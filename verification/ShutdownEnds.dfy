/** Shutdowns come to their end: under every fair schedule of the goroutines under way, when
    they are not at risk of a panic. */
module ShutdownEnds {
  import opened Basics
  import opened DaemonSteps
  import opened Overlaps
  import ShutdownRuns

  /** A bound on the steps a goroutine has still to make, with `n` entries tracked. */
  function Remaining(pc: ShutPc, n: nat): nat
  {
    match pc
    case SetShutdown => 8 + n
    case SendShutdown => 7 + n
    case StartUnmount => 6 + n
    case Unmounting(left) => 5 + left
    case Syncing => 4
    case PoweringOff => 3
    case Requesting => 2
    case Closing => 1
    case Over => 0
  }

  function WorkOf(shuts: seq<Shutter>, n: nat): nat
    decreases |shuts|
  {
    if shuts == [] then 0 else WorkOf(Init(shuts), n) + Remaining(Last(shuts).pc, n)
  }

  /** A bound on the steps that all goroutines under way have still to make. */
  function Work(d: Downs): nat
  {
    WorkOf(d.shuts, |d.tracked|)
  }

  lemma {:induction false} WorkUpdate(shuts: seq<Shutter>, id: nat, g: Shutter, n: nat)
    requires id < |shuts|
    ensures WorkOf(shuts[id := g], n) + Remaining(shuts[id].pc, n) == WorkOf(shuts, n) + Remaining(g.pc, n)
    decreases |shuts|
  {
    if id == |shuts| - 1 {
      assert Init(shuts[id := g]) == Init(shuts);
    } else {
      assert Init(shuts[id := g]) == Init(shuts)[id := g];
      WorkUpdate(Init(shuts), id, g, n);
    }
  }

  lemma {:induction false} WorkMonotone(shuts: seq<Shutter>, k: nat, n: nat)
    requires k <= n
    ensures WorkOf(shuts, k) <= WorkOf(shuts, n)
    decreases |shuts|
  {
    if shuts != [] {
      WorkMonotone(Init(shuts), k, n);
    }
  }

  /** The goroutine does something with its next step: it is not over, and does not wait for
      the one that closes the channel. */
  predicate Effective(d: Downs, id: nat)
  {
    id < |d.shuts| && !d.shuts[id].pc.Over? && !ShutdownRuns.Waits(d, id)
  }

  lemma StepWorks(mode: string, d: Downs, id: nat)
    requires Effective(d, id) && !Panics(d.shuts[id], d.tracked)
    ensures Work(DoShut(mode, d, id)) < Work(d)
  {
    var next := DoShut(mode, d, id);
    ShutsAs(mode, d, id);
    WorkUpdate(d.shuts, id, next.shuts[id], |d.tracked|);
    WorkMonotone(next.shuts, |next.tracked|, |d.tracked|);
  }

  lemma ShutsAs(mode: string, d: Downs, id: nat)
    requires Effective(d, id) && !Panics(d.shuts[id], d.tracked)
    ensures var next := DoShut(mode, d, id);
      && id < |next.shuts| && next.shuts == d.shuts[id := next.shuts[id]] && |next.tracked| <= |d.tracked|
      && Remaining(next.shuts[id].pc, |d.tracked|) < Remaining(d.shuts[id].pc, |d.tracked|)
  {
    hide WhatNow, Acts;
  }

  lemma IdleStep(mode: string, d: Downs, id: nat)
    requires id < |d.shuts| && !Effective(d, id)
    ensures DoShut(mode, d, id) == d
  {
    assert d.log + [] == d.log;
    assert WhatNow(mode, d.tracked, d.shuts[id]) == [];
  }

  // ----- Schedules --------------------------------------------------------------------

  ghost predicate Good(mode: string, d: Downs)
  {
    !AtRisk(d) && ShutdownRuns.Inv(mode, d)
  }

  lemma GoodStep(mode: string, d: Downs, id: nat)
    requires Good(mode, d) && id < |d.shuts|
    ensures Good(mode, DoShut(mode, d, id)) && |DoShut(mode, d, id).shuts| == |d.shuts|
    ensures !d.panicked && !Panics(d.shuts[id], d.tracked)
  {
    hide DoShut;
    SafeStep(mode, d, id);
    ShutdownRuns.ShutKeepsTrace(mode, d, id);
    ShutdownRuns.ShutKeepsOnce(mode, d, id);
    assert !Panics(d.shuts[id], d.tracked);
    ShutEffect(mode, d, id);
  }

  /** No schedule adds to the work. */
  lemma {:induction false} ShutsKeep(mode: string, d: Downs, ids: seq<nat>)
    requires Good(mode, d)
    ensures var end := Shuts(mode, d, ids);
      Good(mode, end) && |end.shuts| == |d.shuts| && Work(end) <= Work(d)
    decreases |ids|
  {
    hide DoShut, Good, Work;
    if ids != [] && !d.panicked {
      if ids[0] < |d.shuts| {
        GoodStep(mode, d, ids[0]);
        if Effective(d, ids[0]) {
          StepWorks(mode, d, ids[0]);
        } else {
          IdleStep(mode, d, ids[0]);
        }
        ShutsKeep(mode, DoShut(mode, d, ids[0]), ids[1..]);
      } else {
        ShutsKeep(mode, d, ids[1..]);
      }
    }
  }

  /** A schedule in which a goroutine that can act has a turn does some of the work. */
  lemma {:induction false} ShutsWork(mode: string, d: Downs, ids: seq<nat>, id: nat)
    requires Good(mode, d) && Effective(d, id) && id in ids
    ensures Work(Shuts(mode, d, ids)) < Work(d)
    decreases |ids|
  {
    hide DoShut, Good, Work, Effective;
    GoodStep(mode, d, id) by { assert id < |d.shuts| by { IsThere(d, id); } }
    if ids[0] < |d.shuts| {
      GoodStep(mode, d, ids[0]);
    }
    if Effective(d, ids[0]) {
      IsThere(d, ids[0]);
      StepWorks(mode, d, ids[0]);
      ShutsKeep(mode, DoShut(mode, d, ids[0]), ids[1..]);
    } else {
      if ids[0] < |d.shuts| {
        IdleStep(mode, d, ids[0]);
      }
      ShutsWork(mode, d, ids[1..], id);
    }
  }

  lemma IsThere(d: Downs, id: nat)
    requires Effective(d, id)
    ensures id < |d.shuts|
  {
  }

  ghost predicate AllOver(d: Downs)
  {
    forall id: nat :: id < |d.shuts| ==> d.shuts[id].pc.Over?
  }

  /** As long as a goroutine is not over, one of them can act. */
  lemma SomeoneActs(mode: string, d: Downs) returns (id: nat)
    requires Good(mode, d) && !AllOver(d)
    ensures Effective(d, id)
  {
    id :| id < |d.shuts| && !d.shuts[id].pc.Over?;
    if ShutdownRuns.Waits(d, id) {
      id := d.once.id;
      assert d.shuts[id].pc.Closing?;
    }
  }

  lemma {:induction false} OverForGood(mode: string, d: Downs, ids: seq<nat>)
    requires AllOver(d)
    ensures Shuts(mode, d, ids) == d
    decreases |ids|
  {
    if ids != [] {
      if ids[0] < |d.shuts| {
        IdleStep(mode, d, ids[0]);
      }
      OverForGood(mode, d, ids[1..]);
    }
  }

  /** Every goroutine has a turn. */
  ghost predicate Covers(round: seq<nat>, n: nat)
  {
    forall id: nat :: id < n ==> id in round
  }

  function Flatten(rounds: seq<seq<nat>>): seq<nat>
  {
    if rounds == [] then [] else rounds[0] + Flatten(rounds[1..])
  }

  lemma {:induction false} ShutsConcat(mode: string, d: Downs, a: seq<nat>, b: seq<nat>)
    ensures Shuts(mode, d, a + b) == Shuts(mode, Shuts(mode, d, a), b)
    decreases |a|
  {
    hide DoShut;
    if a == [] {
      assert a + b == b;
    } else {
      assert (a + b)[0] == a[0] && (a + b)[1..] == a[1..] + b;
      if !d.panicked {
        ShutsConcat(mode, if a[0] < |d.shuts| then DoShut(mode, d, a[0]) else d, a[1..], b);
      }
    }
  }

  lemma {:induction false} FairSchedulesEnd(mode: string, d: Downs, rounds: seq<seq<nat>>)
    requires Good(mode, d)
    requires forall k :: 0 <= k < |rounds| ==> Covers(rounds[k], |d.shuts|)
    requires |rounds| >= Work(d)
    ensures var end := Shuts(mode, d, Flatten(rounds));
      Good(mode, end) && AllOver(end) && |end.shuts| == |d.shuts|
    decreases |rounds|
  {
    hide Good, AllOver, Work, Shuts, Effective;
    if AllOver(d) {
      OverForGood(mode, d, Flatten(rounds));
    } else {
      var id := SomeoneActs(mode, d);
      IsThere(d, id);
      ShutsWork(mode, d, [id], id);
      var next := Shuts(mode, d, rounds[0]);
      assert Covers(rounds[0], |d.shuts|);
      ShutsWork(mode, d, rounds[0], id);
      ShutsKeep(mode, d, rounds[0]);
      ShutsConcat(mode, d, rounds[0], Flatten(rounds[1..]));
      FairSchedulesEnd(mode, next, rounds[1..]);
    }
  }

  /** From every reachable state whose shutdowns are not at risk, and under every schedule that
      gives each of them a turn in sufficiently many rounds: all of them end, nothing panics,
      each has run in full, and the channel is closed exactly once if there was any. */
  lemma ShutdownsEnd(mode: string, sender: bool, steps: seq<Step>, rounds: seq<seq<nat>>)
    requires !AtRisk(After(mode, Start(sender), steps).downs)
    requires forall k :: 0 <= k < |rounds| ==>
      Covers(rounds[k], |After(mode, Start(sender), steps).downs.shuts|)
    requires |rounds| >= Work(After(mode, Start(sender), steps).downs)
    ensures var s := After(mode, Start(sender), steps);
      var t := After(mode, s, ShutSteps(Flatten(rounds)));
      && !t.downs.panicked && |t.downs.shuts| == |s.downs.shuts|
      && (forall id: nat :: id < |t.downs.shuts| ==>
            t.downs.shuts[id].pc.Over? && ShutdownRuns.RanInFull(mode, t, id))
      && t.downs.closes == (if s.downs.shuts == [] then 0 else 1)
  {
    hide After, Work, AtRisk, Shuts;
    var s := After(mode, Start(sender), steps);
    var t := After(mode, s, ShutSteps(Flatten(rounds)));
    ShutdownRuns.EveryRun(mode, sender, steps);
    FairSchedulesEnd(mode, s.downs, rounds);
    ShutsInSystem(mode, s, Flatten(rounds));
    NoPanicYet(t.downs);
    forall id: nat | id < |t.downs.shuts|
      ensures ShutdownRuns.RanInFull(mode, t, id)
    {
      ShutdownRuns.RequestingRanInFull(mode, t, id);
    }
    if s.downs.shuts != [] {
      assert t.downs.shuts[0].pc.Over?;
    }
  }
}
