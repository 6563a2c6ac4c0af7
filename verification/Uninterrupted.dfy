/** The step system agrees with the sequential methods: a poll or a shutdown that nobody
    interrupts does in steps what AgentdPoller.Poll and ShutdownCoordinator.Execute promise. */
module Uninterrupted {
  import opened Basics
  import opened Protocol
  import opened DaemonSteps
  import Agentd
  import ShutdownRuns

  /** The steps of one poll that fetches `fetched` and runs to its end. */
  function PollSteps(fetched: seq<AgentStatus>): seq<Step>
  {
    [PollFetches(Some(fetched)), PollNext, PollNext, PollNext, PollNext]
  }

  lemma PollUnrolled(mode: string, s: State, fetched: seq<AgentStatus>)
    ensures var s1 := Do(mode, s, PollFetches(Some(fetched)));
      var s2 := Do(mode, s1, PollNext);
      var s3 := Do(mode, s2, PollNext);
      var s4 := Do(mode, s3, PollNext);
      After(mode, s, PollSteps(fetched)) == Do(mode, s4, PollNext)
  {
    var first := [PollFetches(Some(fetched))];
    assert [] + first == first;
    OneMore(mode, s, [], PollFetches(Some(fetched)));
    OneMore(mode, s, first, PollNext);
    OneMore(mode, s, first + [PollNext], PollNext);
    OneMore(mode, s, first + [PollNext] + [PollNext], PollNext);
    OneMore(mode, s, first + [PollNext] + [PollNext] + [PollNext], PollNext);
    assert PollSteps(fetched) == first + [PollNext] + [PollNext] + [PollNext] + [PollNext];
  }

  /** An uninterrupted poll stores the fetched list, and promotes exactly when Poll does. */
  lemma PollAlone(mode: string, s: State, fetched: seq<AgentStatus>)
    requires s.poll.Resting? && PollThread !in s.life.inflight && !s.downs.panicked
    ensures var l := After(mode, s, PollSteps(fetched)).life;
      && After(mode, s, PollSteps(fetched)).poll.Resting?
      && l.agents == fetched && l.inflight == s.life.inflight
      && if Agentd.Promotes(fetched, s.life.state) then
           && l.state == Healthy
           && l.sent == s.life.sent +
                (if s.life.sender
                 then [Change(PollThread, Ready, Healthy, Agentd.PROMOTION, true, fetched)]
                 else [])
         else l.state == s.life.state && l.sent == s.life.sent
  {
    PollUnrolled(mode, s, fetched);
    assert s.life.sent + [] == s.life.sent;
  }

  /** `n` steps of one shutdown goroutine. */
  function Alone(mode: string, s: State, id: nat, n: nat): State
  {
    if n == 0 then s else Do(mode, Alone(mode, s, id, n - 1), ShutNext(id))
  }

  /** The goroutine stands at `pc` in a live process, and its loop over `plan` has read all
      but the first `left` entries. */
  ghost predicate Stands(s: State, id: nat, pc: ShutPc, plan: seq<MountPayload>, left: nat)
  {
    && id < |s.downs.shuts| && !s.downs.panicked && s.life.state == Shutdown && left <= |plan|
    && s.downs.shuts[id].pc == pc && s.downs.shuts[id].plan == plan && s.downs.shuts[id].visited == plan[left..]
  }

  lemma OneShutStep(mode: string, s: State, id: nat)
    requires id < |s.downs.shuts| && !s.downs.panicked && !Panics(s.downs.shuts[id], s.downs.tracked)
    ensures var g, t := s.downs.shuts[id], Do(mode, s, ShutNext(id));
      && id < |t.downs.shuts| && !t.downs.panicked
      && t.downs.shuts[id] == Advanced(g, s.downs.tracked, s.downs.once)
      && t.downs.tracked == (if g.pc == Unmounting(0) then [] else s.downs.tracked)
      && t.life.state == (if g.pc.SetShutdown? then Shutdown else s.life.state)
  {
    hide Advanced, WhatNow, Acts;
  }

  lemma OneUmount(mode: string, s: State, id: nat, left: nat)
    requires Stands(s, id, Unmounting(left), s.downs.tracked, left) && left > 0
    ensures var t := Do(mode, s, ShutNext(id));
      Stands(t, id, Unmounting(left - 1), s.downs.tracked, left - 1) && t.downs.tracked == s.downs.tracked
  {
    hide Do;
    OneShutStep(mode, s, id);
    var plan := s.downs.tracked;
    assert plan[left - 1..] == [plan[left - 1]] + plan[left..];
  }

  lemma Began(mode: string, s: State, id: nat)
    requires id < |s.downs.shuts| && s.downs.shuts[id].pc.SetShutdown? && !s.downs.panicked
    ensures var t := Alone(mode, s, id, 3);
      HasUnmounted(t, id, 0, s.downs.tracked)
  {
    hide Do;
    OneShutStep(mode, s, id);
    var s1 := Do(mode, s, ShutNext(id));
    OneShutStep(mode, s1, id);
    var s2 := Do(mode, s1, ShutNext(id));
    OneShutStep(mode, s2, id);
    assert Alone(mode, s, id, 1) == s1;
    assert Alone(mode, s, id, 2) == s2;
  }

  ghost predicate HasUnmounted(t: State, id: nat, n: nat, plan: seq<MountPayload>)
  {
    n <= |plan| && t.downs.tracked == plan && Stands(t, id, Unmounting(|plan| - n), plan, |plan| - n)
  }

  lemma {:induction false} UnmountsAlone(mode: string, s: State, id: nat, n: nat)
    requires id < |s.downs.shuts| && s.downs.shuts[id].pc.SetShutdown? && !s.downs.panicked
    requires n <= |s.downs.tracked|
    ensures HasUnmounted(Alone(mode, s, id, n + 3), id, n, s.downs.tracked)
    decreases n
  {
    hide Do;
    if n == 0 {
      Began(mode, s, id);
    } else {
      UnmountsAlone(mode, s, id, n - 1);
      OneUmount(mode, Alone(mode, s, id, n + 2), id, |s.downs.tracked| - (n - 1));
    }
  }

  lemma {:induction false} AloneIsRun(mode: string, s: State, before: seq<Step>, id: nat, n: nat)
    returns (steps: seq<Step>)
    ensures After(mode, s, steps) == Alone(mode, After(mode, s, before), id, n)
    decreases n
  {
    hide Do, After;
    if n == 0 {
      steps := before;
    } else {
      var most := AloneIsRun(mode, s, before, id, n - 1);
      OneMore(mode, s, most, ShutNext(id));
      steps := most + [ShutNext(id)];
    }
  }

  /** The last three steps of Execute: the end of the unmount loop, the sync, the power-off. */
  lemma EndsAlone(mode: string, s: State, id: nat, plan: seq<MountPayload>)
    requires Stands(s, id, Unmounting(0), plan, 0)
    ensures var t := Do(mode, Do(mode, Do(mode, s, ShutNext(id)), ShutNext(id)), ShutNext(id));
      Stands(t, id, Requesting, plan, 0) && t.downs.tracked == []
  {
    hide Do;
    OneShutStep(mode, s, id);
    var s1 := Do(mode, s, ShutNext(id));
    OneShutStep(mode, s1, id);
    OneShutStep(mode, Do(mode, s1, ShutNext(id)), id);
  }

  /** An uninterrupted shutdown, from any reachable state of a live process, ends with the
      state `shutdown` and nothing tracked, having done the transition and then exactly the
      requests that Execute issues for the mounts tracked when it started. */
  lemma ShutdownAlone(mode: string, sender: bool, before: seq<Step>, id: nat)
    requires id < |After(mode, Start(sender), before).downs.shuts|
    requires After(mode, Start(sender), before).downs.shuts[id].pc.SetShutdown?
    requires !After(mode, Start(sender), before).downs.panicked
    ensures var s := After(mode, Start(sender), before);
      var t := Alone(mode, s, id, |s.downs.tracked| + 6);
      && Stands(t, id, Requesting, s.downs.tracked, 0)
      && t.life.state == Shutdown && t.downs.tracked == []
      && ShutdownRuns.RanAsPlanned(mode, t, id)
  {
    hide Do, After, Alone;
    var s := After(mode, Start(sender), before);
    var n := |s.downs.tracked|;
    UnmountsAlone(mode, s, id, n);
    EndsAlone(mode, Alone(mode, s, id, n + 3), id, s.downs.tracked);
    LastThree(mode, s, id, n + 3);
    var steps := AloneIsRun(mode, Start(sender), before, id, n + 6);
    ShutdownRuns.EveryRun(mode, sender, steps);
    ShutdownRuns.RequestingRanInFull(mode, Alone(mode, s, id, n + 6), id);
  }

  lemma LastThree(mode: string, s: State, id: nat, n: nat)
    ensures Alone(mode, s, id, n + 3)
      == Do(mode, Do(mode, Do(mode, Alone(mode, s, id, n), ShutNext(id)), ShutNext(id)), ShutNext(id))
  {
    assert Alone(mode, s, id, n + 1) == Do(mode, Alone(mode, s, id, n), ShutNext(id));
    assert Alone(mode, s, id, n + 2) == Do(mode, Alone(mode, s, id, n + 1), ShutNext(id));
  }
}
