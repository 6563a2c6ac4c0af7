/** One UnmountAll interleaved with any number of Mount calls. Each command, each append to
    the tracked list and each loop iteration is one step; reads and writes of the list header
    are atomic, and two UnmountAll calls do not overlap. */
module MountSteps {
  import opened Basics
  import opened Protocol
  import opened Machines
  import opened Mounts
  import opened MountHistory
  import Paths

  /** A Mount call whose mount command has succeeded and that has not appended yet. */
  datatype Pending = Pending(m: MountPayload, owned: bool)

  datatype Unmounter = Idle | Looping(start: seq<MountPayload>, i: int)

  /** `torn` and `lost` are history: the umounts of the finished loops, and the entries that
      a finished loop dropped from the list without having started from them. */
  datatype State = State(
    tracked: seq<MountPayload>,
    machine: Machine,
    pending: seq<Pending>,
    unmounter: Unmounter,
    outOfBounds: bool,
    torn: seq<Request>,
    lost: seq<MountPayload>)

  datatype Step =
    | RunMount(m: MountPayload)
    | RunChown(k: nat)
    | Append(k: nat)
    | LoopStart
    | LoopNext
    | LoopEnd

  /** One step; a step that is not enabled changes nothing. */
  function Do(s: State, faults: Faults, step: Step): State
  {
    match step
    case RunMount(m) =>
      if Validate(m).Some? then s
      else
        var (next, ok) := RunCommand(s.machine, faults, MountCmd, MountArgs(m, Paths.Clean(m.guestPath)));
        s.(machine := next, pending := if ok then s.pending + [Pending(m, false)] else s.pending)
    case RunChown(k) =>
      if k >= |s.pending| || s.pending[k].owned then s
      else
        var path := Paths.Clean(s.pending[k].m.guestPath);
        s.(machine := RunCommand(s.machine, faults, ChownCmd, ["agent:agent", path]).0,
           pending := s.pending[k := Pending(s.pending[k].m, true)])
    case Append(k) =>
      if k >= |s.pending| || !s.pending[k].owned then s
      else s.(tracked := s.tracked + [s.pending[k].m], pending := s.pending[..k] + s.pending[k + 1..])
    case LoopStart =>
      if !s.unmounter.Idle? then s
      else s.(unmounter := Looping(s.tracked, |s.tracked| - 1))
    case LoopNext => Iterate(s, faults)
    case LoopEnd =>
      if s.unmounter.Idle? || s.unmounter.i >= 0 then s
      else s.(tracked := [], unmounter := Idle,
              torn := s.torn + UmountPlan(s.unmounter.start),
              lost := s.lost
                + (if |s.unmounter.start| <= |s.tracked| then s.tracked[|s.unmounter.start|..] else []))
  }

  /** The loop body re-reads the list and indexes it with `i`. */
  function Iterate(s: State, faults: Faults): State
  {
    if s.unmounter.Idle? || s.unmounter.i < 0 then s
    else if s.unmounter.i >= |s.tracked| then s.(outOfBounds := true)
    else
      var path := Paths.Clean(s.tracked[s.unmounter.i].guestPath);
      s.(machine := RunCommand(s.machine, faults, UmountCmd, [path]).0,
         unmounter := Looping(s.unmounter.start, s.unmounter.i - 1))
  }

  function After(base: seq<Mnt>, faults: Faults, steps: seq<Step>): State
    decreases |steps|
  {
    if steps == [] then State([], Machine(base, []), [], Idle, false, [], [])
    else Do(After(base, faults, Init(steps)), faults, Last(steps))
  }

  // ----- The invariant ----------------------------------------------------------------

  function Payloads(pending: seq<Pending>): (ms: seq<MountPayload>)
    ensures |ms| == |pending|
    ensures forall i :: 0 <= i < |pending| ==> ms[i] == pending[i].m
  {
    seq(|pending|, i requires 0 <= i < |pending| => pending[i].m)
  }

  /** The loop's index and start list fit the current list. */
  ghost predicate LoopInBounds(s: State)
  {
    && !s.outOfBounds
    && (s.unmounter.Looping? ==>
          s.unmounter.start <= s.tracked && -1 <= s.unmounter.i < |s.unmounter.start|)
  }

  /** The tracked mounts whose umount is not yet issued by a running loop. */
  function Unvisited(s: State): seq<MountPayload>
    requires LoopInBounds(s)
  {
    match s.unmounter
    case Idle => s.tracked
    case Looping(start, i) => s.tracked[..i + 1] + s.tracked[|start|..]
  }

  function Owing(s: State): seq<MountPayload>
    requires LoopInBounds(s)
  {
    Unvisited(s) + Payloads(s.pending) + s.lost
  }

  /** The umounts among the requests of a log. */
  function Umounts(log: seq<Event>): seq<Request>
    decreases |log|
  {
    if log == [] then []
    else
      var e := Last(log);
      Umounts(Init(log)) + (if e.Ran? && e.program == UmountCmd then [RequestOf(e)] else [])
  }

  lemma UmountsAppend(log: seq<Event>, e: Event)
    ensures Umounts(log + [e])
      == Umounts(log) + (if e.Ran? && e.program == UmountCmd then [RequestOf(e)] else [])
  {
    assert Init(log + [e]) == log;
  }

  /** Every umount ever issued belongs to a loop, which goes through its start list backwards. */
  ghost predicate ReverseOrder(s: State)
    requires LoopInBounds(s)
  {
    Umounts(s.machine.log) == s.torn +
      match s.unmounter
      case Idle => []
      case Looping(start, i) => UmountPlan(start)[..|start| - 1 - i]
  }

  ghost predicate Accounted(base: seq<Mnt>, s: State)
    requires LoopInBounds(s)
  {
    && AllAbsolute(Owing(s))
    && Balanced(base, s.machine.table, multiset(Targets(Owing(s))) + multiset(Refused(s.machine.log)))
  }

  ghost predicate Inv(base: seq<Mnt>, s: State)
  {
    LoopInBounds(s) && ReverseOrder(s) && Accounted(base, s)
  }

  // ----- Each step keeps it -----------------------------------------------------------

  lemma SamePayloadsAbsolute(a: seq<MountPayload>, b: seq<MountPayload>)
    requires multiset(a) == multiset(b) && AllAbsolute(a)
    ensures AllAbsolute(b)
  {
    forall k | 0 <= k < |b|
      ensures Paths.IsAbs(b[k].guestPath)
    {
      assert b[k] in multiset(a);
    }
  }

  /** Owing the same payloads in another order is owing the same places. */
  lemma {:induction false} SamePayloadsSameTargets(a: seq<MountPayload>, b: seq<MountPayload>)
    requires multiset(a) == multiset(b)
    ensures multiset(Targets(a)) == multiset(Targets(b))
    decreases |a|
  {
    hide Targets, Paths.Components;
    if a == [] {
      NoElements(b);
    } else {
      var k := FindFirst(a, b);
      SamePayloadsSameTargets(a[1..], b[..k] + b[k + 1..]);
      TargetsFirst(a);
      TargetsExtract(b, k);
    }
  }

  lemma NoElements<T>(b: seq<T>)
    requires multiset(b) == multiset{}
    ensures b == []
  {
    assert |multiset(b)| == |b|;
  }

  /** The first element of one list stands somewhere in the other; the rests match. */
  lemma FindFirst<T>(a: seq<T>, b: seq<T>) returns (k: nat)
    requires multiset(a) == multiset(b) && a != []
    ensures k < |b| && b[k] == a[0] && multiset(a[1..]) == multiset(b[..k] + b[k + 1..])
  {
    assert a[0] in multiset(b);
    k :| 0 <= k < |b| && b[k] == a[0];
    ExtractOne(b, k);
    assert a == [a[0]] + a[1..];
    CancelOne(multiset(a[1..]), multiset(b[..k] + b[k + 1..]), a[0]);
  }

  lemma ExtractOne<T>(xs: seq<T>, k: nat)
    requires k < |xs|
    ensures multiset(xs) == multiset(xs[..k] + xs[k + 1..]) + multiset{xs[k]}
  {
    assert xs == xs[..k] + [xs[k]] + xs[k + 1..];
  }

  lemma TargetsFirst(ms: seq<MountPayload>)
    requires ms != []
    ensures multiset(Targets(ms)) == multiset(Targets(ms[1..])) + multiset{Paths.Components(ms[0].guestPath)}
  {
    hide Paths.Components;
    assert Targets(ms) == [Paths.Components(ms[0].guestPath)] + Targets(ms[1..]);
  }

  lemma TargetsExtract(ms: seq<MountPayload>, k: nat)
    requires k < |ms|
    ensures multiset(Targets(ms))
      == multiset(Targets(ms[..k] + ms[k + 1..])) + multiset{Paths.Components(ms[k].guestPath)}
  {
    assert ms == ms[..k] + [ms[k]] + ms[k + 1..];
    TargetsConcat(ms[..k] + [ms[k]], ms[k + 1..]);
    TargetsConcat(ms[..k], [ms[k]]);
    TargetsConcat(ms[..k], ms[k + 1..]);
    assert Targets([ms[k]]) == [Paths.Components(ms[k].guestPath)];
  }

  lemma TargetsConcat(a: seq<MountPayload>, b: seq<MountPayload>)
    ensures Targets(a + b) == Targets(a) + Targets(b)
  {
  }

  /** A step that runs no umount and settles nothing keeps the books when it owes the same. */
  lemma SameOwing(base: seq<Mnt>, s: State, next: State)
    requires LoopInBounds(s) && Accounted(base, s) && LoopInBounds(next)
    requires next.machine.table == s.machine.table
    requires Refused(next.machine.log) == Refused(s.machine.log)
    requires multiset(Owing(next)) == multiset(Owing(s))
    ensures Accounted(base, next)
  {
    SamePayloadsSameTargets(Owing(s), Owing(next));
    SamePayloadsAbsolute(Owing(s), Owing(next));
  }

  lemma MountCommand(machine: Machine, faults: Faults, m: MountPayload)
    requires Validate(m).None?
    ensures var (next, ok) := RunCommand(machine, faults, MountCmd, MountArgs(m, Paths.Clean(m.guestPath)));
      && Paths.IsAbs(m.guestPath)
      && next.table == machine.table + (if ok then [Wanted(m)] else [])
      && Refused(next.log) == Refused(machine.log)
      && Umounts(next.log) == Umounts(machine.log)
      && (ok <==> !faults(|machine.log|))
  {
    Paths.CleanKeepsMeaning(m.guestPath);
    MountArgsMeanPayload(m);
    hide Wanted, MountArgs, Paths.Clean, ReadMountArgs;
    var args := MountArgs(m, Paths.Clean(m.guestPath));
    var ok := RunCommand(machine, faults, MountCmd, args).1;
    RefusedAppend(machine.log, Ran(MountCmd, args, ok));
    UmountsAppend(machine.log, Ran(MountCmd, args, ok));
    assert machine.table + [] == machine.table;
  }

  lemma RunMountKeeps(base: seq<Mnt>, s: State, faults: Faults, m: MountPayload)
    requires Inv(base, s)
    ensures Inv(base, Do(s, faults, RunMount(m)))
  {
    hide RunCommand, MountArgs, Validate, Paths.Clean, Wanted, Refused, Umounts, Accounted, UmountPlan;
    if Validate(m).None? {
      MountCommand(s.machine, faults, m);
      var (machine, ok) := RunCommand(s.machine, faults, MountCmd, MountArgs(m, Paths.Clean(m.guestPath)));
      var next := s.(machine := machine, pending := if ok then s.pending + [Pending(m, false)] else s.pending);
      if ok {
        ArrivalKeeps(base, s, next, m);
      } else {
        QuietStep(base, s, next);
      }
    }
  }

  lemma ArrivalKeeps(base: seq<Mnt>, s: State, next: State, m: MountPayload)
    requires LoopInBounds(s) && Accounted(base, s) && Paths.IsAbs(m.guestPath)
    requires next == s.(machine := next.machine, pending := s.pending + [Pending(m, false)])
    requires next.machine.table == s.machine.table + [Wanted(m)]
    requires Refused(next.machine.log) == Refused(s.machine.log)
    ensures Accounted(base, next)
  {
    hide Wanted, Paths.Components, Refused;
    var owed, refused := multiset(Targets(Owing(s))), multiset(Refused(s.machine.log));
    ArrivalOwes(base, s.machine.table, Wanted(m), owed + refused);
    assert owed + refused + multiset{Wanted(m).at} == owed + multiset{Wanted(m).at} + refused;
    var plus := Owing(s) + [m];
    TargetsPlus(Owing(s), m);
    assert AllAbsolute(plus);
    OwingArrived(s, next, m);
    SamePayloadsSameTargets(plus, Owing(next));
    SamePayloadsAbsolute(plus, Owing(next));
  }

  lemma TargetsPlus(ms: seq<MountPayload>, m: MountPayload)
    ensures Targets(ms + [m]) == Targets(ms) + [Wanted(m).at]
  {
  }

  lemma OwingArrived(s: State, next: State, m: MountPayload)
    requires LoopInBounds(s)
    requires next == s.(machine := next.machine, pending := s.pending + [Pending(m, false)])
    ensures LoopInBounds(next) && multiset(Owing(next)) == multiset(Owing(s) + [m])
  {
    PayloadsArrived(s.pending, m);
    assert Unvisited(next) == Unvisited(s);
    ArrivesBefore(Unvisited(s), Payloads(s.pending), m, s.lost);
  }

  lemma PayloadsArrived(pending: seq<Pending>, m: MountPayload)
    ensures Payloads(pending + [Pending(m, false)]) == Payloads(pending) + [m]
  {
  }

  lemma ArrivesBefore<T>(a: seq<T>, p: seq<T>, x: T, l: seq<T>)
    ensures multiset(a + (p + [x]) + l) == multiset(a + p + l + [x])
  {
    var m := multiset(a) + multiset(p) + multiset(l) + multiset{x};
    assert multiset(a + (p + [x]) + l) == m;
    assert multiset(a + p + l + [x]) == m;
  }

  /** One entry may stand anywhere in a list: the multiset is the same. */
  lemma Regroup<T>(a: seq<T>, b: seq<T>, x: seq<T>, c: seq<T>, d: seq<T>)
    ensures multiset(a + x + (b + c) + d) == multiset(a + (b + x + c) + d)
  {
    var m := multiset(a) + multiset(b) + multiset(c) + multiset(d) + multiset(x);
    assert multiset(a + (b + x + c) + d) == m;
    assert multiset(a + x + (b + c) + d) == m;
  }

  lemma RunChownKeeps(base: seq<Mnt>, s: State, faults: Faults, k: nat)
    requires Inv(base, s)
    ensures Inv(base, Do(s, faults, RunChown(k)))
  {
    hide RunCommand, Paths.Clean, Inv, Refused, Umounts, Payloads;
    if k < |s.pending| && !s.pending[k].owned {
      ChownCommand(s.machine, faults, ["agent:agent", Paths.Clean(s.pending[k].m.guestPath)]);
      PayloadsOwned(s.pending, k);
      QuietStep(base, s, Do(s, faults, RunChown(k)));
    }
  }

  lemma PayloadsOwned(pending: seq<Pending>, k: nat)
    requires k < |pending|
    ensures Payloads(pending[k := Pending(pending[k].m, true)]) == Payloads(pending)
  {
  }

  /** A step that neither mounts nor unmounts, and after which the same calls are pending. */
  lemma QuietStep(base: seq<Mnt>, s: State, next: State)
    requires Inv(base, s)
    requires next == s.(machine := next.machine, pending := next.pending)
    requires Payloads(next.pending) == Payloads(s.pending) && next.machine.table == s.machine.table
    requires Refused(next.machine.log) == Refused(s.machine.log)
    requires Umounts(next.machine.log) == Umounts(s.machine.log)
    ensures Inv(base, next)
  {
    SameLoop(s, next);
    hide Accounted, LoopInBounds, ReverseOrder, Owing, Refused, Umounts;
    SameOwing(base, s, next);
  }

  lemma SameLoop(s: State, next: State)
    requires LoopInBounds(s) && ReverseOrder(s)
    requires next == s.(machine := next.machine, pending := next.pending)
    requires Payloads(next.pending) == Payloads(s.pending)
    requires Umounts(next.machine.log) == Umounts(s.machine.log)
    ensures LoopInBounds(next) && ReverseOrder(next) && Owing(next) == Owing(s)
  {
    hide Umounts, UmountPlan, Payloads;
  }

  lemma ChownCommand(machine: Machine, faults: Faults, args: seq<string>)
    ensures var next := RunCommand(machine, faults, ChownCmd, args).0;
      && next.table == machine.table
      && Refused(next.log) == Refused(machine.log)
      && Umounts(next.log) == Umounts(machine.log)
  {
    var ok := RunCommand(machine, faults, ChownCmd, args).1;
    RefusedAppend(machine.log, Ran(ChownCmd, args, ok));
    UmountsAppend(machine.log, Ran(ChownCmd, args, ok));
  }

  lemma AppendKeeps(base: seq<Mnt>, s: State, faults: Faults, k: nat)
    requires Inv(base, s)
    ensures Inv(base, Do(s, faults, Append(k)))
  {
    if k < |s.pending| && s.pending[k].owned {
      var next := Do(s, faults, Append(k));
      OwingAppended(s, next, k);
      SameOwing(base, s, next);
    }
  }

  lemma OwingAppended(s: State, next: State, k: nat)
    requires k < |s.pending| && LoopInBounds(s) && LoopInBounds(next)
    requires next == s.(tracked := s.tracked + [s.pending[k].m], pending := s.pending[..k] + s.pending[k + 1..])
    ensures multiset(Owing(next)) == multiset(Owing(s))
  {
    var ps := Payloads(s.pending);
    assert ps == ps[..k] + [ps[k]] + ps[k + 1..];
    assert Payloads(next.pending) == ps[..k] + ps[k + 1..];
    assert Unvisited(next) == Unvisited(s) + [ps[k]];
    Regroup(Unvisited(s), ps[..k], [ps[k]], ps[k + 1..], s.lost);
  }

  lemma LoopStartKeeps(base: seq<Mnt>, s: State, faults: Faults)
    requires Inv(base, s)
    ensures Inv(base, Do(s, faults, LoopStart))
  {
    var next := Do(s, faults, LoopStart);
    if s.unmounter.Idle? {
      assert Unvisited(next) == s.tracked;
      SameOwing(base, s, next);
    }
  }

  lemma SwapsEnds<T>(a: seq<T>, p: seq<T>, l: seq<T>)
    ensures multiset(a + p + l) == multiset([] + p + (l + a))
  {
    var m := multiset(a) + multiset(p) + multiset(l);
    assert multiset(a + p + l) == m;
    assert multiset([] + p + (l + a)) == m;
  }

  lemma LoopEndKeeps(base: seq<Mnt>, s: State, faults: Faults)
    requires Inv(base, s)
    ensures Inv(base, Do(s, faults, LoopEnd))
  {
    hide Accounted, Refused, Umounts, UmountPlan, Unvisited, Payloads;
    var next := Do(s, faults, LoopEnd);
    if s.unmounter.Looping? && s.unmounter.i < 0 {
      var start := s.unmounter.start;
      assert UmountPlan(start)[..|start|] == UmountPlan(start);
      UnvisitedAtEnd(s, next);
      SwapsEnds(Unvisited(s), Payloads(s.pending), s.lost);
      SameOwing(base, s, next);
    }
  }

  lemma UnvisitedAtEnd(s: State, next: State)
    requires LoopInBounds(s) && LoopInBounds(next)
    requires s.unmounter.Looping? && s.unmounter.i < 0 && next.unmounter.Idle? && next.tracked == []
    ensures Unvisited(s) == s.tracked[|s.unmounter.start|..] && Unvisited(next) == []
  {
    assert s.tracked[..0] == [];
  }

  lemma PlanAdvances<T>(done: seq<T>, plan: seq<T>, n: nat)
    requires n < |plan|
    ensures done + plan[..n] + [plan[n]] == done + plan[..n + 1]
  {
  }

  lemma LoopNextKeeps(base: seq<Mnt>, s: State, faults: Faults)
    requires Inv(base, s)
    requires s.unmounter.Looping? && s.unmounter.i >= 0
    ensures Inv(base, Do(s, faults, LoopNext))
  {
    hide Effect, Paths.Clean, Accounted;
    var Looping(start, i) := s.unmounter;
    var next := Iterate(s, faults);
    VisitsInOrder(s, faults, next);
    VisitSettles(base, s, faults, next);
  }

  lemma VisitsInOrder(s: State, faults: Faults, next: State)
    requires LoopInBounds(s) && ReverseOrder(s) && LoopInBounds(next)
    requires s.unmounter.Looping? && s.unmounter.i >= 0
    requires next == s.(
      machine := RunCommand(s.machine, faults, UmountCmd, [Paths.Clean(s.tracked[s.unmounter.i].guestPath)]).0,
      unmounter := Looping(s.unmounter.start, s.unmounter.i - 1))
    ensures ReverseOrder(next)
  {
    hide Effect, Paths.Clean;
    var Looping(start, i) := s.unmounter;
    var args := [Paths.Clean(s.tracked[i].guestPath)];
    var ok := RunCommand(s.machine, faults, UmountCmd, args).1;
    UmountsAppend(s.machine.log, Ran(UmountCmd, args, ok));
    PlanAdvances(s.torn, UmountPlan(start), |start| - 1 - i);
    assert UmountPlan(start)[|start| - 1 - i] == Command(UmountCmd, args);
  }

  lemma VisitSettles(base: seq<Mnt>, s: State, faults: Faults, next: State)
    requires LoopInBounds(s) && Accounted(base, s) && LoopInBounds(next)
    requires s.unmounter.Looping? && s.unmounter.i >= 0
    requires next == s.(
      machine := RunCommand(s.machine, faults, UmountCmd, [Paths.Clean(s.tracked[s.unmounter.i].guestPath)]).0,
      unmounter := Looping(s.unmounter.start, s.unmounter.i - 1))
    ensures Accounted(base, next)
  {
    hide RunCommand, Balanced, Refused, Paths.Clean, Paths.Components;
    var m := s.tracked[s.unmounter.i];
    var owing := Owing(next);
    OwingVisited(s, next);
    SamePayloadsSameTargets(Owing(s), [m] + owing);
    SamePayloadsAbsolute(Owing(s), [m] + owing);
    FirstAndRest(m, owing);
    UmountSettles(base, s.machine, faults, m.guestPath, multiset(Targets(owing)));
  }

  lemma FirstAndRest(m: MountPayload, rest: seq<MountPayload>)
    ensures multiset(Targets([m] + rest)) == multiset(Targets(rest)) + multiset{Paths.Components(m.guestPath)}
    ensures AllAbsolute([m] + rest) ==> Paths.IsAbs(m.guestPath) && AllAbsolute(rest)
  {
    hide Paths.Components, Paths.IsAbs, Targets;
    FirstTarget(m, rest);
    if AllAbsolute([m] + rest) {
      FirstAbsolute(m, rest);
    }
  }

  lemma FirstTarget(m: MountPayload, rest: seq<MountPayload>)
    ensures multiset(Targets([m] + rest)) == multiset(Targets(rest)) + multiset{Paths.Components(m.guestPath)}
  {
    hide Paths.Components;
    TargetsConcat([m], rest);
    assert Targets([m]) == [Paths.Components(m.guestPath)];
  }

  lemma FirstAbsolute(m: MountPayload, rest: seq<MountPayload>)
    requires AllAbsolute([m] + rest)
    ensures Paths.IsAbs(m.guestPath) && AllAbsolute(rest)
  {
    hide Paths.IsAbs;
    assert ([m] + rest)[0] == m;
    assert forall i :: 0 <= i < |rest| ==> ([m] + rest)[i + 1] == rest[i];
  }

  lemma OwingVisited(s: State, next: State)
    requires LoopInBounds(s) && LoopInBounds(next)
    requires s.unmounter.Looping? && s.unmounter.i >= 0
    requires next == s.(machine := next.machine, unmounter := Looping(s.unmounter.start, s.unmounter.i - 1))
    ensures multiset(Owing(s)) == multiset([s.tracked[s.unmounter.i]] + Owing(next))
  {
    var i, start := s.unmounter.i, s.unmounter.start;
    VisitedParts(s.tracked, i, s.tracked[|start|..], Payloads(s.pending), s.lost);
  }

  lemma VisitedParts<T>(xs: seq<T>, i: nat, rest: seq<T>, p: seq<T>, l: seq<T>)
    requires i < |xs|
    ensures multiset(xs[..i + 1] + rest + p + l) == multiset([xs[i]] + (xs[..i] + rest + p + l))
  {
    assert xs[..i + 1] == xs[..i] + [xs[i]];
    var m := multiset(xs[..i]) + multiset{xs[i]} + multiset(rest) + multiset(p) + multiset(l);
    assert multiset(xs[..i + 1] + rest + p + l) == m;
    assert multiset([xs[i]] + (xs[..i] + rest + p + l)) == m;
  }

  lemma StepKeeps(base: seq<Mnt>, s: State, faults: Faults, step: Step)
    requires Inv(base, s)
    ensures Inv(base, Do(s, faults, step))
  {
    match step
    case RunMount(m) => RunMountKeeps(base, s, faults, m);
    case RunChown(k) => RunChownKeeps(base, s, faults, k);
    case Append(k) => AppendKeeps(base, s, faults, k);
    case LoopStart => LoopStartKeeps(base, s, faults);
    case LoopEnd => LoopEndKeeps(base, s, faults);
    case LoopNext =>
      if s.unmounter.Looping? && s.unmounter.i >= 0 {
        LoopNextKeeps(base, s, faults);
      }
  }

  // ----- Every run --------------------------------------------------------------------

  /** In every interleaving and under every failure pattern: the loop never reads out of
      bounds; the umounts issued are, loop by loop, the start list backwards, each entry once;
      no base mount goes; and what is mounted beyond the base is the unvisited, the pending,
      the dropped appends and the failed umounts, place by place. */
  lemma {:induction false} EveryRun(base: seq<Mnt>, faults: Faults, steps: seq<Step>)
    ensures Inv(base, After(base, faults, steps))
    decreases |steps|
  {
    if steps == [] {
      assert Owing(After(base, faults, steps)) == [];
    } else {
      EveryRun(base, faults, Init(steps));
      StepKeeps(base, After(base, faults, Init(steps)), faults, Last(steps));
    }
  }

  /** What a step appends to the list behind the back of a running loop. */
  function AppendedLate(s: State, step: Step): seq<MountPayload>
  {
    if step.Append? && step.k < |s.pending| && s.pending[step.k].owned && s.unmounter.Looping?
    then [s.pending[step.k].m] else []
  }

  /** All mounts of the run that were appended while a loop was under way, in order. */
  function Late(base: seq<Mnt>, faults: Faults, steps: seq<Step>): seq<MountPayload>
    decreases |steps|
  {
    if steps == [] then []
    else Late(base, faults, Init(steps)) + AppendedLate(After(base, faults, Init(steps)), Last(steps))
  }

  /** The lost entries, and those a running loop is going to lose. */
  function Behind(s: State): seq<MountPayload>
    requires LoopInBounds(s)
  {
    s.lost + (if s.unmounter.Looping? then s.tracked[|s.unmounter.start|..] else [])
  }

  lemma StepLeavesBehind(s: State, faults: Faults, step: Step)
    requires LoopInBounds(s) && LoopInBounds(Do(s, faults, step))
    ensures Behind(Do(s, faults, step)) == Behind(s) + AppendedLate(s, step)
  {
    hide RunCommand, MountArgs, Paths.Clean, Validate, UmountPlan;
    if step.Append? && AppendedLate(s, step) != [] {
      var m, n := s.pending[step.k].m, |s.unmounter.start|;
      assert (s.tracked + [m])[n..] == s.tracked[n..] + [m];
    }
  }

  /** What the loops lose is what was appended while they ran, no more and no less. */
  lemma {:induction false} LostIsLate(base: seq<Mnt>, faults: Faults, steps: seq<Step>)
    ensures var s := After(base, faults, steps);
      LoopInBounds(s) && Behind(s) == Late(base, faults, steps)
    decreases |steps|
  {
    hide Do, Accounted, ReverseOrder, AppendedLate, Behind;
    EveryRun(base, faults, steps);
    if steps == [] {
      NothingBehind(After(base, faults, steps));
    } else {
      LostIsLate(base, faults, Init(steps));
      StepLeavesBehind(After(base, faults, Init(steps)), faults, Last(steps));
    }
  }

  lemma NothingBehind(s: State)
    requires s.unmounter.Idle? && LoopInBounds(s)
    ensures Behind(s) == s.lost
  {
  }

  lemma BalancedIsBase(base: seq<Mnt>, table: seq<Mnt>, owed: multiset<Place>)
    requires Balanced(base, table, owed)
    ensures table == base <==> owed == multiset{}
  {
    if table == base {
      forall p
        ensures owed[p] == 0
      {
        assert multiset(Places(base))[p] == multiset(Places(base))[p] + owed[p];
      }
      assert owed == multiset{};
    }
    if owed == multiset{} {
      assert |multiset(Places(table))| == |multiset(Places(base))|;
      assert table == base;
    }
  }

  /** Right after a loop has ended, with no Mount call under way, the mounts that nobody
      tracks are exactly the ones appended behind a loop's back and the failed umounts; so the
      base table is back exactly when there were none of either. */
  lemma AfterLoop(base: seq<Mnt>, faults: Faults, steps: seq<Step>)
    requires After(base, faults, steps).unmounter.Idle?
    requires After(base, faults, steps).tracked == [] && After(base, faults, steps).pending == []
    ensures var s := After(base, faults, steps);
      && s.lost == Late(base, faults, steps)
      && multiset(Places(s.machine.table))
        == multiset(Places(base)) + multiset(Targets(s.lost)) + multiset(Refused(s.machine.log))
      && base <= s.machine.table
      && (s.machine.table == base <==> s.lost == [] && Refused(s.machine.log) == [])
      && Umounts(s.machine.log) == s.torn
  {
    hide After, Refused, Umounts, Late;
    var s := After(base, faults, steps);
    EveryRun(base, faults, steps);
    LostIsLate(base, faults, steps);
    NothingBehind(s);
    assert Owing(s) == s.lost;
    BalancedIsBase(base, s.machine.table, multiset(Targets(s.lost)) + multiset(Refused(s.machine.log)));
    NoneOwed(Targets(s.lost), Refused(s.machine.log));
    assert |Targets(s.lost)| == |s.lost|;
  }

  lemma NoneOwed<T>(a: seq<T>, b: seq<T>)
    ensures multiset(a) + multiset(b) == multiset{} <==> a == [] && b == []
  {
    assert |multiset(a) + multiset(b)| == |a| + |b|;
  }

  lemma OneMore(base: seq<Mnt>, faults: Faults, steps: seq<Step>, step: Step)
    ensures After(base, faults, steps + [step]) == Do(After(base, faults, steps), faults, step)
  {
    assert Init(steps + [step]) == steps;
  }

  lemma Go(base: seq<Mnt>, faults: Faults, steps0: seq<Step>, s1: State, step: Step)
    returns (steps: seq<Step>, s: State)
    requires s1 == After(base, faults, steps0)
    ensures steps == steps0 + [step] && s == After(base, faults, steps) && s == Do(s1, faults, step)
  {
    OneMore(base, faults, steps0, step);
    steps, s := steps0 + [step], Do(s1, faults, step);
  }

  /** A Mount call that runs its two commands right after a loop over nothing has started. */
  lemma MountDuringLoop(faults: Faults, m: MountPayload) returns (s: State)
    requires Validate(m).None? && !faults(0)
    ensures s == After([], faults, [LoopStart] + [RunMount(m)] + [RunChown(0)])
    ensures s.tracked == [] && s.pending == [Pending(m, true)] && s.unmounter == Looping([], -1)
    ensures s.lost == [] && s.machine.table == [Wanted(m)]
  {
    hide Validate, MountArgs, Paths.Clean, Wanted, RunCommand, Refused, Umounts;
    OneMore([], faults, [], LoopStart);
    assert [] + [LoopStart] == [LoopStart];
    MountCommand(Machine([], []), faults, m);
    OneMore([], faults, [LoopStart], RunMount(m));
    var mounted := After([], faults, [LoopStart] + [RunMount(m)]);
    ChownCommand(mounted.machine, faults, ["agent:agent", Paths.Clean(m.guestPath)]);
    OneMore([], faults, [LoopStart] + [RunMount(m)], RunChown(0));
    s := Do(mounted, faults, RunChown(0));
  }

  /** Not every mount made before the machine goes down is unmounted: one appended while the
      loop runs is dropped from the list and stays mounted. */
  lemma AppendDuringLoopIsLost(faults: Faults, m: MountPayload) returns (steps: seq<Step>)
    requires Validate(m).None? && !faults(0)
    ensures steps == [LoopStart, RunMount(m), RunChown(0), Append(0), LoopEnd]
    ensures var s := After([], faults, steps);
      s.tracked == [] && s.unmounter.Idle? && s.lost == [m] && s.machine.table == [Wanted(m)]
  {
    hide Validate, Wanted, After, RunCommand;
    var s := MountDuringLoop(faults, m);
    steps := [LoopStart] + [RunMount(m)] + [RunChown(0)];
    steps, s := Go([], faults, steps, s, Append(0));
    assert s.tracked == [m];
    steps, s := Go([], faults, steps, s, LoopEnd);
  }
}
