/** The accept loop of pkg/server.go as a step system: the loop, the goroutine that closes
    the listener, and one handler per accepted connection, counted by a wait group. */
module AcceptLoop {
  import opened Basics

  /** Where Serve stands; connections are numbered in the order of their acceptance. */
  datatype Pc =
    | Accepting
    | Adding(id: nat)
    | Spawning(id: nat)
    | Checking
    | Waiting
    | ReturnedNil
    | ReturnedError

  datatype State = State(
    pc: Pc,
    accepted: nat,
    running: set<nat>,
    finished: set<nat>,
    count: int,
    cancelled: bool,
    closed: bool)

  datatype Step =
    | Cancel
    | CloseListener
    | AcceptOk
    | AcceptFails
    | LoopNext
    | HandlerDone(id: nat)

  const START := State(Accepting, 0, {}, {}, 0, false, false)

  /** One step; a step that is not enabled changes nothing. Accept may fail at any time. */
  function Do(s: State, step: Step): State
  {
    match step
    case Cancel => s.(cancelled := true)
    case CloseListener => if s.cancelled then s.(closed := true) else s
    case AcceptOk =>
      if s.pc.Accepting? && !s.closed then s.(pc := Adding(s.accepted), accepted := s.accepted + 1) else s
    case AcceptFails => if s.pc.Accepting? then s.(pc := Checking) else s
    case HandlerDone(id) =>
      if id in s.running then
        s.(running := s.running - {id}, finished := s.finished + {id}, count := s.count - 1)
      else s
    case LoopNext => (
      match s.pc
      case Adding(id) => s.(pc := Spawning(id), count := s.count + 1)
      case Spawning(id) => s.(pc := Accepting, running := s.running + {id})
      case Checking => s.(pc := if s.cancelled then Waiting else ReturnedError)
      case Waiting => if s.count == 0 then s.(pc := ReturnedNil) else s
      case _ => s)
  }

  function After(s: State, steps: seq<Step>): State
    decreases |steps|
  {
    if steps == [] then s else Do(After(s, Init(steps)), Last(steps))
  }

  /** The connection that is accepted but whose handler has not started. */
  function Pending(s: State): set<nat>
  {
    match s.pc
    case Adding(id) => {id}
    case Spawning(id) => {id}
    case _ => {}
  }

  ghost predicate Inv(s: State)
  {
    && s.running !! s.finished
    && Pending(s) !! s.running && Pending(s) !! s.finished
    && (forall id: nat :: id < s.accepted <==> id in s.running || id in s.finished || id in Pending(s))
    && s.count == |s.running| + (if s.pc.Spawning? then 1 else 0)
    && (s.pc.Waiting? || s.pc.ReturnedNil? || s.closed ==> s.cancelled)
    && (s.pc.ReturnedNil? ==> s.count == 0)
  }

  lemma StepKeeps(s: State, step: Step)
    requires Inv(s)
    ensures Inv(Do(s, step))
  {
    if step.HandlerDone? && step.id in s.running {
      assert |s.running - {step.id}| == |s.running| - 1;
    }
  }

  lemma {:induction false} EveryRun(s: State, steps: seq<Step>)
    requires Inv(s)
    ensures Inv(After(s, steps))
    decreases |steps|
  {
    if steps != [] {
      EveryRun(s, Init(steps));
      StepKeeps(After(s, Init(steps)), Last(steps));
    }
  }

  /** In every interleaving the wait group counts the handlers that are spawned, or about to
      be, and not finished; and Serve returns nil only after cancellation, with every accepted
      connection finished. */
  lemma NilMeansAllFinished(steps: seq<Step>)
    ensures var s := After(START, steps);
      && s.count == |s.running| + (if s.pc.Spawning? then 1 else 0)
      && (s.pc.ReturnedNil? ==>
            s.cancelled && s.running == {} && forall id: nat :: id < s.accepted <==> id in s.finished)
      && (s.closed ==> s.cancelled)
  {
    EveryRun(START, steps);
  }

  /** Once Wait has started, no connection is added any more, in any continuation. */
  lemma {:induction false} NoAddAfterWait(s: State, steps: seq<Step>)
    requires s.pc.Waiting? || s.pc.ReturnedNil?
    ensures After(s, steps).pc.Waiting? || After(s, steps).pc.ReturnedNil?
    ensures After(s, steps).accepted == s.accepted && After(s, steps).running <= s.running
    decreases |steps|
  {
    if steps != [] {
      NoAddAfterWait(s, Init(steps));
    }
  }

  function Dones(order: seq<nat>): (steps: seq<Step>)
    ensures |steps| == |order|
    ensures forall k :: 0 <= k < |order| ==> steps[k] == HandlerDone(order[k])
  {
    seq(|order|, k requires 0 <= k < |order| => HandlerDone(order[k]))
  }

  lemma {:induction false} AfterDones(s: State, order: seq<nat>)
    ensures var t := After(s, Dones(order));
      t.pc == s.pc && t.running == set id | id in s.running && id !in order
    decreases |order|
  {
    if order != [] {
      assert Init(Dones(order)) == Dones(Init(order));
      assert order == Init(order) + [Last(order)];
      AfterDones(s, Init(order));
    } else {
      assert s.running == set id | id in s.running && id !in order;
    }
  }

  /** After a cancelled accept Serve waits for the handlers and for nothing else: once they
      have finished, in any order, it returns nil, and with one left it does not. */
  lemma ReturnsOnceFinished(before: seq<Step>, order: seq<nat>)
    requires After(START, before).pc.Waiting?
    ensures var s := After(START, before);
      Do(After(s, Dones(order)), LoopNext).pc.ReturnedNil? <==> forall id :: id in s.running ==> id in order
  {
    hide Do, After;
    var s := After(START, before);
    var t := After(s, Dones(order));
    EveryRun(START, before);
    EveryRun(s, Dones(order));
    AfterDones(s, order);
    ReturnsIffNoneRuns(t);
    if id :| id in s.running && id !in order {
      assert id in t.running;
    }
  }

  lemma ReturnsIffNoneRuns(s: State)
    requires Inv(s) && s.pc.Waiting?
    ensures Do(s, LoopNext).pc.ReturnedNil? <==> s.running == {}
  {
  }

  /** A closed listener accepts no more connections, and only a cancelled one is closed. */
  lemma {:induction false} ClosedAcceptsNone(s: State, steps: seq<Step>)
    requires s.closed
    ensures After(s, steps).closed && After(s, steps).accepted == s.accepted
    decreases |steps|
  {
    if steps != [] {
      ClosedAcceptsNone(s, Init(steps));
    }
  }

  ghost predicate Returned(s: State)
  {
    s.pc.ReturnedNil? || s.pc.ReturnedError?
  }

  /** When an accept has failed while a connection is active: Serve can return with an active
      connection iff the context is not cancelled at that point. The promise to block until
      all connections have finished holds only on the cancelled path. */
  lemma LeavesActiveIffNotCancelled(before: seq<Step>, id: nat)
    requires After(START, before).pc.Checking? && id in After(START, before).running
    ensures !After(START, before).cancelled <==>
      CanReturnActive(Do(After(START, before), LoopNext))
  {
    var s := After(START, before);
    var next := Do(s, LoopNext);
    EveryRun(START, before);
    StepKeeps(s, LoopNext);
    if s.cancelled {
      forall steps
        ensures !(Returned(After(next, steps)) && After(next, steps).running != {})
      {
        NoAddAfterWait(next, steps);
        EveryRun(next, steps);
      }
    } else {
      assert After(next, []) == next;
    }
  }

  ghost predicate CanReturnActive(s: State)
  {
    exists steps: seq<Step> :: Returned(After(s, steps)) && After(s, steps).running != {}
  }

  /** Such a run exists: one connection is being served when an accept fails. */
  lemma ErrorReturnLeavesConnection()
    ensures var s := After(START, [AcceptOk, LoopNext, LoopNext, AcceptFails, LoopNext]);
      s.pc.ReturnedError? && s.running == {0}
  {
    var steps := [AcceptOk, LoopNext, LoopNext, AcceptFails, LoopNext];
    assert Init(steps) == steps[..4] && Init(steps[..4]) == steps[..3];
    assert Init(steps[..3]) == steps[..2] && Init(steps[..2]) == steps[..1] && Init(steps[..1]) == [];
    assert After(START, steps[..1]) == START.(pc := Adding(0), accepted := 1);
    assert After(START, steps[..2]) == START.(pc := Spawning(0), accepted := 1, count := 1);
    assert After(START, steps[..3]) == START.(pc := Accepting, accepted := 1, count := 1, running := {0});
  }

  lemma OneMore(s: State, steps: seq<Step>, step: Step)
    ensures After(s, steps + [step]) == Do(After(s, steps), step)
  {
    assert Init(steps + [step]) == steps;
  }

  lemma Go(steps0: seq<Step>, s1: State, step: Step) returns (steps: seq<Step>, s: State)
    requires s1 == After(START, steps0)
    ensures s == After(START, steps) && s == Do(s1, step)
  {
    OneMore(START, steps0, step);
    steps, s := steps0 + [step], Do(s1, step);
  }

  /** The promised run: a connection is served when the context is cancelled, which closes the
      listener; Serve waits for the connection and returns nil. */
  lemma CancelledServeReturnsNil() returns (steps: seq<Step>)
    ensures var s := After(START, steps);
      s.pc.ReturnedNil? && s.cancelled && s.closed && s.accepted == 1 && s.finished == {0}
  {
    hide After;
    var s;
    steps, s := ServingOne();
    steps, s := Go(steps, s, Cancel);
    steps, s := Go(steps, s, CloseListener);
    steps, s := Go(steps, s, AcceptFails);
    steps, s := Go(steps, s, LoopNext);
    assert s.pc.Waiting? && s.running == {0};
    steps, s := Go(steps, s, HandlerDone(0));
    steps, s := Go(steps, s, LoopNext);
  }

  lemma ServingOne() returns (steps: seq<Step>, s: State)
    ensures s == After(START, steps)
    ensures s == START.(accepted := 1, count := 1, running := {0})
  {
    hide After;
    steps, s := [], START;
    assert s == After(START, steps) by { NoSteps(); }
    steps, s := Go(steps, s, AcceptOk);
    steps, s := Go(steps, s, LoopNext);
    steps, s := Go(steps, s, LoopNext);
  }

  lemma NoSteps()
    ensures After(START, []) == START
  {
  }
}
