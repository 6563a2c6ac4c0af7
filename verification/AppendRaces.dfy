/** Mount calls that append to the tracked list in two accesses, as the program does: the list
    is read, and the list read with the new entry is written back, without a lock. */
module AppendRaces {
  import opened Basics
  import opened Protocol
  import opened Machines
  import opened Mounts
  import opened MountHistory
  import MountSteps
  import Paths

  /** The state of `MountSteps`, and per pending Mount call the list it has read, if any. */
  datatype Races = Races(s: MountSteps.State, read: seq<Option<seq<MountPayload>>>)

  /** A step of `MountSteps` other than the append, or one of the two accesses of an append. */
  datatype Access = Other(step: MountSteps.Step) | ReadList(k: nat) | WriteList(k: nat)

  predicate CanRead(r: Races, k: nat)
  {
    k < |r.s.pending| && k < |r.read| && r.s.pending[k].owned && r.read[k].None?
  }

  predicate CanWrite(r: Races, k: nat)
  {
    k < |r.s.pending| && k < |r.read| && r.read[k].Some?
  }

  function Removed<T>(xs: seq<T>, k: nat): seq<T>
    requires k < |xs|
  {
    xs[..k] + xs[k + 1..]
  }

  /** One access; one that is not enabled changes nothing. */
  function Do(r: Races, faults: Faults, access: Access): Races
  {
    match access
    case Other(step) =>
      if step.Append? then r
      else
        var next := MountSteps.Do(r.s, faults, step);
        Races(next, if |next.pending| > |r.s.pending| then r.read + [None] else r.read)
    case ReadList(k) => if CanRead(r, k) then r.(read := r.read[k := Some(r.s.tracked)]) else r
    case WriteList(k) =>
      if !CanWrite(r, k) then r
      else
        var list := r.read[k].value + [r.s.pending[k].m];
        Races(r.s.(tracked := list, pending := Removed(r.s.pending, k)), Removed(r.read, k))
  }

  function After(base: seq<Mnt>, faults: Faults, accesses: seq<Access>): Races
    decreases |accesses|
  {
    if accesses == [] then Races(MountSteps.After(base, faults, []), [])
    else Do(After(base, faults, Init(accesses)), faults, Last(accesses))
  }

  // ----- Fresh writes are one-step appends --------------------------------------------

  ghost predicate Matched(r: Races)
  {
    && |r.read| == |r.s.pending|
    && forall k :: 0 <= k < |r.read| && r.read[k].Some? ==> r.s.pending[k].owned
  }

  lemma StepKeepsMatched(r: Races, faults: Faults, access: Access)
    requires Matched(r)
    ensures Matched(Do(r, faults, access))
  {
    hide RunCommand, MountArgs, Validate, Paths.Clean, UmountPlan;
  }

  lemma {:induction false} AlwaysMatched(base: seq<Mnt>, faults: Faults, accesses: seq<Access>)
    ensures Matched(After(base, faults, accesses))
    decreases |accesses|
  {
    hide Do;
    if accesses != [] {
      AlwaysMatched(base, faults, Init(accesses));
      StepKeepsMatched(After(base, faults, Init(accesses)), faults, Last(accesses));
    }
  }

  /** A write finds another list than the call has read. */
  predicate Stale(r: Races, access: Access)
  {
    access.WriteList? && CanWrite(r, access.k) && r.read[access.k].value != r.s.tracked
  }

  /** No write of the run is stale. */
  ghost predicate Fresh(base: seq<Mnt>, faults: Faults, accesses: seq<Access>)
    decreases |accesses|
  {
    accesses == [] ||
    (Fresh(base, faults, Init(accesses)) && !Stale(After(base, faults, Init(accesses)), Last(accesses)))
  }

  function Erased(r: Races, access: Access): (steps: seq<MountSteps.Step>)
    ensures |steps| <= 1
  {
    match access
    case Other(step) => if step.Append? then [] else [step]
    case ReadList(_) => []
    case WriteList(k) => if CanWrite(r, k) then [MountSteps.Append(k)] else []
  }

  /** The run with one-step appends in the place of the writes. */
  function Erase(base: seq<Mnt>, faults: Faults, accesses: seq<Access>): seq<MountSteps.Step>
    decreases |accesses|
  {
    if accesses == [] then []
    else Erase(base, faults, Init(accesses)) + Erased(After(base, faults, Init(accesses)), Last(accesses))
  }

  function OneStep(s: MountSteps.State, faults: Faults, steps: seq<MountSteps.Step>): MountSteps.State
    requires |steps| <= 1
  {
    if steps == [] then s else MountSteps.Do(s, faults, steps[0])
  }

  lemma EraseOne(base: seq<Mnt>, faults: Faults, steps: seq<MountSteps.Step>, more: seq<MountSteps.Step>)
    requires |more| <= 1
    ensures MountSteps.After(base, faults, steps + more)
      == OneStep(MountSteps.After(base, faults, steps), faults, more)
  {
    hide MountSteps.Do;
    if more == [] {
      assert steps + more == steps;
    } else {
      assert more == [more[0]];
      MountSteps.OneMore(base, faults, steps, more[0]);
    }
  }

  lemma FreshAccess(r: Races, faults: Faults, access: Access)
    requires Matched(r)
    ensures Do(r, faults, access).s == OneStep(r.s, faults, Erased(r, access)) <==> !Stale(r, access)
  {
    hide RunCommand, MountArgs, Validate, Paths.Clean, UmountPlan;
    if access.WriteList? && CanWrite(r, access.k) {
      SameTail(r.read[access.k].value, r.s.tracked, r.s.pending[access.k].m);
    }
  }

  lemma SameTail<T>(a: seq<T>, b: seq<T>, x: T)
    ensures a + [x] == b + [x] <==> a == b
  {
    assert (a + [x])[..|a|] == a && (b + [x])[..|b|] == b;
  }

  lemma {:induction false} FreshRunIsOneStep(base: seq<Mnt>, faults: Faults, accesses: seq<Access>)
    requires Fresh(base, faults, accesses)
    ensures After(base, faults, accesses).s == MountSteps.After(base, faults, Erase(base, faults, accesses))
    decreases |accesses|
  {
    hide Do, Erased, Stale, OneStep;
    if accesses != [] {
      var most, access := Init(accesses), Last(accesses);
      var r := After(base, faults, most);
      FreshRunIsOneStep(base, faults, most);
      AlwaysMatched(base, faults, most);
      FreshAccess(r, faults, access);
      EraseOne(base, faults, Erase(base, faults, most), Erased(r, access));
    }
  }

  ghost predicate OneStepSoFar(base: seq<Mnt>, faults: Faults, accesses: seq<Access>)
  {
    After(base, faults, accesses).s == MountSteps.After(base, faults, Erase(base, faults, accesses))
  }

  ghost predicate OneStepThroughout(base: seq<Mnt>, faults: Faults, accesses: seq<Access>)
    decreases |accesses|
  {
    && OneStepSoFar(base, faults, accesses)
    && (accesses == [] || OneStepThroughout(base, faults, Init(accesses)))
  }

  /** At every point of a run the state is the one that one-step appends would give exactly
      when each write finds the list that its call has read. */
  lemma {:induction false} OneStepIffFresh(base: seq<Mnt>, faults: Faults, accesses: seq<Access>)
    ensures OneStepThroughout(base, faults, accesses) <==> Fresh(base, faults, accesses)
    decreases |accesses|
  {
    hide Do, Erased, Stale, OneStep;
    if accesses != [] {
      var most := Init(accesses);
      OneStepIffFresh(base, faults, most);
      if Fresh(base, faults, most) {
        FreshRunIsOneStep(base, faults, most);
        AlwaysMatched(base, faults, most);
        var r := After(base, faults, most);
        FreshAccess(r, faults, Last(accesses));
        EraseOne(base, faults, Erase(base, faults, most), Erased(r, Last(accesses)));
      }
    }
  }

  /** So whatever holds of every run with one-step appends holds of every run without a stale
      write: bounds, reverse order and accounting, and what a loop leaves behind. */
  lemma FreshRunsAreAccounted(base: seq<Mnt>, faults: Faults, accesses: seq<Access>)
    requires Fresh(base, faults, accesses)
    ensures var s := After(base, faults, accesses).s;
      && MountSteps.Inv(base, s)
      && (s.unmounter.Idle? && s.tracked == [] && s.pending == [] ==>
            (s.machine.table == base <==> s.lost == [] && Refused(s.machine.log) == []))
  {
    hide After, MountSteps.After, MountSteps.Inv, Erase, Refused, MountSteps.Late, MountSteps.Umounts;
    FreshRunIsOneStep(base, faults, accesses);
    MountSteps.EveryRun(base, faults, Erase(base, faults, accesses));
    var s := After(base, faults, accesses).s;
    if s.unmounter.Idle? && s.tracked == [] && s.pending == [] {
      MountSteps.AfterLoop(base, faults, Erase(base, faults, accesses));
    }
  }

  // ----- Every run, stale writes included ---------------------------------------------

  /** The entries that the access appends. */
  function WrittenBy(r: Races, access: Access): seq<MountPayload>
  {
    if access.WriteList? && CanWrite(r, access.k) then [r.s.pending[access.k].m] else []
  }

  /** The entries that a stale write takes off the list. */
  function DroppedBy(r: Races, access: Access): multiset<MountPayload>
  {
    if access.WriteList? && CanWrite(r, access.k)
    then multiset(r.s.tracked) - multiset(r.read[access.k].value) else multiset{}
  }

  /** The entries that a stale write brings back to the list. */
  function RevivedBy(r: Races, access: Access): multiset<MountPayload>
  {
    if access.WriteList? && CanWrite(r, access.k)
    then multiset(r.read[access.k].value) - multiset(r.s.tracked) else multiset{}
  }

  /** The list that the end of a loop empties. */
  function ClearedBy(r: Races, access: Access): seq<MountPayload>
  {
    if access == Other(MountSteps.LoopEnd) && r.s.unmounter.Looping? && r.s.unmounter.i < 0
    then r.s.tracked else []
  }

  /** What became of the list over a run: appended, dropped and brought back, and emptied. */
  datatype Fate = Fate(
    written: seq<MountPayload>,
    dropped: multiset<MountPayload>,
    revived: multiset<MountPayload>,
    cleared: multiset<MountPayload>)

  function FateOf(base: seq<Mnt>, faults: Faults, accesses: seq<Access>): Fate
    decreases |accesses|
  {
    if accesses == [] then Fate([], multiset{}, multiset{}, multiset{})
    else
      var f, r := FateOf(base, faults, Init(accesses)), After(base, faults, Init(accesses));
      var access := Last(accesses);
      Fate(
        f.written + WrittenBy(r, access),
        f.dropped + DroppedBy(r, access),
        f.revived + RevivedBy(r, access),
        f.cleared + multiset(ClearedBy(r, access)))
  }

  lemma WriteMovesEntries<T>(read: seq<T>, tracked: seq<T>, x: T)
    ensures multiset(read + [x]) + (multiset(tracked) - multiset(read))
      == multiset(tracked) + multiset([x]) + (multiset(read) - multiset(tracked))
  {
    assert multiset(read + [x]) == multiset(read) + multiset([x]);
  }

  lemma OtherMovesEntries(s: MountSteps.State, faults: Faults, step: MountSteps.Step)
    requires !step.Append?
    ensures MountSteps.Do(s, faults, step).tracked
      == if step.LoopEnd? && s.unmounter.Looping? && s.unmounter.i < 0 then [] else s.tracked
  {
    hide RunCommand, MountArgs, Validate, Paths.Clean, UmountPlan;
  }

  lemma AccessMovesEntries(r: Races, faults: Faults, access: Access)
    ensures multiset(Do(r, faults, access).s.tracked) + DroppedBy(r, access) + multiset(ClearedBy(r, access))
      == multiset(r.s.tracked) + multiset(WrittenBy(r, access)) + RevivedBy(r, access)
  {
    hide MountSteps.Do, CanRead;
    if access.WriteList? && CanWrite(r, access.k) {
      WriteMovesEntries(r.read[access.k].value, r.s.tracked, r.s.pending[access.k].m);
      AddsNothing(multiset(Do(r, faults, access).s.tracked) + DroppedBy(r, access));
    } else {
      if access.Other? && !access.step.Append? {
        OtherMovesEntries(r.s, faults, access.step);
      }
      AddsNothing(multiset(r.s.tracked));
    }
  }

  lemma AddsNothing<T>(a: multiset<T>)
    ensures a + multiset([]) == a && a + multiset{} == a && multiset([]) + a == a
  {
  }

  lemma AddUp<T>(t: multiset<T>, d: multiset<T>, c: multiset<T>, w: multiset<T>, v: multiset<T>,
                 t1: multiset<T>, d1: multiset<T>, c1: multiset<T>, w1: multiset<T>, v1: multiset<T>)
    requires t + d + c == w + v && t1 + d1 + c1 == t + w1 + v1
    ensures t1 + (d + d1) + (c + c1) == (w + w1) + (v + v1)
  {
    forall x
      ensures (t1 + (d + d1) + (c + c1))[x] == ((w + w1) + (v + v1))[x]
    {
      assert (t + d + c)[x] == (w + v)[x] && (t1 + d1 + c1)[x] == (t + w1 + v1)[x];
    }
  }

  /** In every run whatsoever: the entries on the list, the dropped and the emptied ones are the
      appended ones and those brought back. */
  lemma {:induction false} EntriesConserved(base: seq<Mnt>, faults: Faults, accesses: seq<Access>)
    ensures var f := FateOf(base, faults, accesses);
      multiset(After(base, faults, accesses).s.tracked) + f.dropped + f.cleared
        == multiset(f.written) + f.revived
    decreases |accesses|
  {
    hide Do, WrittenBy, DroppedBy, RevivedBy, ClearedBy;
    if accesses == [] {
      assert After(base, faults, accesses).s.tracked == [];
    } else {
      var f, r := FateOf(base, faults, Init(accesses)), After(base, faults, Init(accesses));
      var access := Last(accesses);
      EntriesConserved(base, faults, Init(accesses));
      AccessMovesEntries(r, faults, access);
      assert multiset(f.written + WrittenBy(r, access)) == multiset(f.written) + multiset(WrittenBy(r, access));
      AddUp(multiset(r.s.tracked), f.dropped, f.cleared, multiset(f.written), f.revived,
            multiset(Do(r, faults, access).s.tracked), DroppedBy(r, access), multiset(ClearedBy(r, access)),
            multiset(WrittenBy(r, access)), RevivedBy(r, access));
    }
  }

  /** A write drops or brings back entries exactly when the list holds others than the call has
      read. */
  lemma MovesIffOthers(r: Races, k: nat)
    requires CanWrite(r, k)
    ensures DroppedBy(r, WriteList(k)) == RevivedBy(r, WriteList(k)) == multiset{}
      <==> multiset(r.s.tracked) == multiset(r.read[k].value)
  {
    NoDifference(multiset(r.s.tracked), multiset(r.read[k].value));
  }

  lemma NoDifference<T>(a: multiset<T>, b: multiset<T>)
    ensures a - b == b - a == multiset{} <==> a == b
  {
    if a - b == b - a == multiset{} {
      forall x
        ensures a[x] == b[x]
      {
        assert (a - b)[x] == 0 && (b - a)[x] == 0;
      }
    }
  }

  // ----- What is mounted in every run -------------------------------------------------

  /** The places of the successful mounts of a log. */
  function Mounted(log: seq<Event>): seq<Place>
    decreases |log|
  {
    if log == [] then []
    else
      var e := Last(log);
      Mounted(Init(log))
      + (if e.Ran? && e.program == MountCmd && e.ok && ReadMountArgs(e.args).Some?
         then [ReadMountArgs(e.args).value.at] else [])
  }

  /** The places of the successful umounts of a log. */
  function Unmounted(log: seq<Event>): seq<Place>
    decreases |log|
  {
    if log == [] then []
    else
      var e := Last(log);
      Unmounted(Init(log))
      + (if e.Ran? && e.program == UmountCmd && e.ok && |e.args| == 1 then [Locate(e.args[0])] else [])
  }

  /** The table is what the successful commands of the log have made of the base. */
  ghost predicate TableLaw(base: seq<Mnt>, m: Machine)
  {
    multiset(Places(m.table)) + multiset(Unmounted(m.log))
    == multiset(Places(base)) + multiset(Mounted(m.log))
  }

  lemma LogGrows(log: seq<Event>, e: Event)
    ensures multiset(Mounted(log + [e])) == multiset(Mounted(log))
      + (if e.Ran? && e.program == MountCmd && e.ok && ReadMountArgs(e.args).Some?
         then multiset{ReadMountArgs(e.args).value.at} else multiset{})
    ensures multiset(Unmounted(log + [e])) == multiset(Unmounted(log))
      + (if e.Ran? && e.program == UmountCmd && e.ok && |e.args| == 1
         then multiset{Locate(e.args[0])} else multiset{})
  {
    hide ReadMountArgs, Locate;
    assert Init(log + [e]) == log;
  }

  /** The table after a successful command. */
  lemma TableAfter(m: Machine, faults: Faults, program: Program, args: seq<string>)
    requires RunCommand(m, faults, program, args).1
    ensures var table := RunCommand(m, faults, program, args).0.table;
      && (program == MountCmd ==> ReadMountArgs(args).Some? && table == m.table + [ReadMountArgs(args).value])
      && (program == UmountCmd ==> |args| == 1 && Umount(m.table, Locate(args[0])) == Some(table))
      && (program != MountCmd && program != UmountCmd ==> table == m.table)
  {
    hide ReadMountArgs, Locate, Umount;
  }

  lemma CommandKeepsLaw(base: seq<Mnt>, m: Machine, faults: Faults, program: Program, args: seq<string>)
    requires TableLaw(base, m)
    ensures TableLaw(base, RunCommand(m, faults, program, args).0)
  {
    hide RunCommand, Effect, ReadMountArgs, Locate, Umount, Mounted, Unmounted;
    var (next, ok) := RunCommand(m, faults, program, args);
    LogGrows(m.log, Ran(program, args, ok));
    if ok {
      TableAfter(m, faults, program, args);
      if program == MountCmd {
        OnePlaceMore(m.table, ReadMountArgs(args).value);
      } else if program == UmountCmd {
        OnePlaceLess(m.table, Locate(args[0]));
      }
    }
    var up := if ok && program == MountCmd then multiset{ReadMountArgs(args).value.at} else multiset{};
    var down := if ok && program == UmountCmd then multiset{Locate(args[0])} else multiset{};
    assert multiset(Mounted(next.log)) == multiset(Mounted(m.log)) + up;
    assert multiset(Unmounted(next.log)) == multiset(Unmounted(m.log)) + down;
    assert multiset(Places(next.table)) + down == multiset(Places(m.table)) + up;
    StillBalanced(multiset(Places(m.table)), multiset(Unmounted(m.log)), multiset(Places(base)),
                  multiset(Mounted(m.log)), multiset(Places(next.table)), up, down);
  }

  lemma StillBalanced<T>(table: multiset<T>, off: multiset<T>, base: multiset<T>, on: multiset<T>,
                         next: multiset<T>, up: multiset<T>, down: multiset<T>)
    requires table + off == base + on && next + down == table + up
    ensures next + (off + down) == base + (on + up)
  {
    forall x
      ensures (next + (off + down))[x] == (base + (on + up))[x]
    {
      assert (table + off)[x] == (base + on)[x] && (next + down)[x] == (table + up)[x];
    }
  }

  lemma OnePlaceMore(table: seq<Mnt>, m: Mnt)
    ensures multiset(Places(table + [m])) == multiset(Places(table)) + multiset{m.at}
  {
    PlacesConcat(table, [m]);
    assert Places([m]) == [m.at];
  }

  lemma OnePlaceLess(table: seq<Mnt>, at: Place)
    requires Umount(table, at).Some?
    ensures multiset(Places(table)) == multiset(Places(Umount(table, at).value)) + multiset{at}
  {
    WithoutOne(table, Top(table, at));
  }

  lemma AccessKeepsLaw(base: seq<Mnt>, r: Races, faults: Faults, access: Access)
    requires TableLaw(base, r.s.machine)
    ensures TableLaw(base, Do(r, faults, access).s.machine)
  {
    hide RunCommand, MountArgs, Validate, Paths.Clean, UmountPlan, TableLaw;
    if access.Other? {
      match access.step
      case RunMount(m) =>
        CommandKeepsLaw(base, r.s.machine, faults, MountCmd, MountArgs(m, Paths.Clean(m.guestPath)));
      case RunChown(k) =>
        if k < |r.s.pending| {
          CommandKeepsLaw(base, r.s.machine, faults, ChownCmd,
            ["agent:agent", Paths.Clean(r.s.pending[k].m.guestPath)]);
        }
      case LoopNext =>
        if r.s.unmounter.Looping? && 0 <= r.s.unmounter.i < |r.s.tracked| {
          CommandKeepsLaw(base, r.s.machine, faults, UmountCmd,
            [Paths.Clean(r.s.tracked[r.s.unmounter.i].guestPath)]);
        }
      case _ =>
    }
  }

  /** In every run whatsoever: place by place, what is mounted and what the umounts took away
      are the base and what the mounts put there. */
  lemma {:induction false} MountsConserved(base: seq<Mnt>, faults: Faults, accesses: seq<Access>)
    ensures TableLaw(base, After(base, faults, accesses).s.machine)
    decreases |accesses|
  {
    hide Do;
    if accesses == [] {
      assert After(base, faults, accesses).s.machine == Machine(base, []);
    } else {
      MountsConserved(base, faults, Init(accesses));
      AccessKeepsLaw(base, After(base, faults, Init(accesses)), faults, Last(accesses));
    }
  }

  /** Every successful mount belongs to an appended entry or to a call still under way. */
  ghost predicate MountsOwned(r: Races, written: seq<MountPayload>)
  {
    multiset(Mounted(r.s.machine.log))
    == multiset(Targets(written)) + multiset(Targets(MountSteps.Payloads(r.s.pending)))
  }

  lemma QuietLog(m: Machine, faults: Faults, program: Program, args: seq<string>)
    requires program != MountCmd
    ensures multiset(Mounted(RunCommand(m, faults, program, args).0.log)) == multiset(Mounted(m.log))
  {
    hide RunCommand, ReadMountArgs, Locate, Mounted, Unmounted;
    LogGrows(m.log, Ran(program, args, RunCommand(m, faults, program, args).1));
    AddsNothing(multiset(Mounted(m.log)));
  }

  lemma MountLog(m: Machine, faults: Faults, p: MountPayload)
    requires Validate(p).None?
    ensures var (next, ok) := RunCommand(m, faults, MountCmd, MountArgs(p, Paths.Clean(p.guestPath)));
      multiset(Mounted(next.log))
        == multiset(Mounted(m.log)) + (if ok then multiset(Targets([p])) else multiset{})
  {
    ValidateMeaning(p);
    MountArgsMeanPayload(p);
    hide RunCommand, ReadMountArgs, MountArgs, Locate, Mounted, Unmounted, Validate;
    hide Paths.Clean, Paths.Components;
    var args := MountArgs(p, Paths.Clean(p.guestPath));
    LogGrows(m.log, Ran(MountCmd, args, RunCommand(m, faults, MountCmd, args).1));
    assert Targets([p]) == [Paths.Components(p.guestPath)];
    assert multiset(Targets([p])) == multiset{Paths.Components(p.guestPath)};
  }

  lemma MountOwned(r: Races, faults: Faults, m: MountPayload, written: seq<MountPayload>)
    requires MountsOwned(r, written)
    ensures MountsOwned(Do(r, faults, Other(MountSteps.RunMount(m))), written)
  {
    hide RunCommand, MountArgs, Validate, Paths.Clean, Mounted, Targets, MountSteps.Payloads;
    if Validate(m).None? {
      MountLog(r.s.machine, faults, m);
      MountSteps.PayloadsArrived(r.s.pending, m);
      MountSteps.TargetsConcat(MountSteps.Payloads(r.s.pending), [m]);
    }
  }

  lemma WriteOwned(r: Races, faults: Faults, k: nat, written: seq<MountPayload>)
    requires MountsOwned(r, written) && CanWrite(r, k)
    ensures MountsOwned(Do(r, faults, WriteList(k)), written + [r.s.pending[k].m])
  {
    hide Mounted, Targets, Paths.Components;
    var pending, m := MountSteps.Payloads(r.s.pending), r.s.pending[k].m;
    MountSteps.TargetsExtract(pending, k);
    assert MountSteps.Payloads(Removed(r.s.pending, k)) == pending[..k] + pending[k + 1..];
    MountSteps.TargetsConcat(written, [m]);
    OneTarget(m);
  }

  lemma OneTarget(m: MountPayload)
    ensures multiset(Targets([m])) == multiset{Paths.Components(m.guestPath)}
  {
    assert Targets([m]) == [Paths.Components(m.guestPath)];
  }

  lemma ChownOwned(r: Races, faults: Faults, k: nat, written: seq<MountPayload>)
    requires MountsOwned(r, written)
    ensures MountsOwned(Do(r, faults, Other(MountSteps.RunChown(k))), written)
  {
    hide RunCommand, Paths.Clean, Mounted, Targets, MountSteps.Payloads;
    if k < |r.s.pending| {
      QuietLog(r.s.machine, faults, ChownCmd, ["agent:agent", Paths.Clean(r.s.pending[k].m.guestPath)]);
      MountSteps.PayloadsOwned(r.s.pending, k);
    }
  }

  lemma LoopOwned(r: Races, faults: Faults, step: MountSteps.Step, written: seq<MountPayload>)
    requires MountsOwned(r, written) && (step.LoopStart? || step.LoopNext? || step.LoopEnd?)
    ensures MountsOwned(Do(r, faults, Other(step)), written)
  {
    hide RunCommand, Paths.Clean, Mounted, Targets, MountSteps.Payloads, UmountPlan;
    if step.LoopNext? && r.s.unmounter.Looping? && 0 <= r.s.unmounter.i < |r.s.tracked| {
      QuietLog(r.s.machine, faults, UmountCmd, [Paths.Clean(r.s.tracked[r.s.unmounter.i].guestPath)]);
    }
  }

  lemma AccessKeepsOwned(r: Races, faults: Faults, access: Access, written: seq<MountPayload>)
    requires MountsOwned(r, written)
    ensures MountsOwned(Do(r, faults, access), written + WrittenBy(r, access))
  {
    hide MountsOwned, MountSteps.Do, Removed;
    if access.WriteList? && CanWrite(r, access.k) {
      WriteOwned(r, faults, access.k, written);
    } else {
      assert written + WrittenBy(r, access) == written;
      if access.Other? {
        match access.step
        case RunMount(m) => MountOwned(r, faults, m, written);
        case RunChown(k) => ChownOwned(r, faults, k, written);
        case Append(_) =>
        case _ => LoopOwned(r, faults, access.step, written);
      } else if access.ReadList? {
        ReadOwned(r, faults, access.k, written);
      }
    }
  }

  lemma ReadOwned(r: Races, faults: Faults, k: nat, written: seq<MountPayload>)
    requires MountsOwned(r, written)
    ensures MountsOwned(Do(r, faults, ReadList(k)), written)
  {
  }

  lemma {:induction false} MountsAreOwned(base: seq<Mnt>, faults: Faults, accesses: seq<Access>)
    ensures MountsOwned(After(base, faults, accesses), FateOf(base, faults, accesses).written)
    decreases |accesses|
  {
    hide Do, WrittenBy;
    if accesses == [] {
      assert After(base, faults, accesses).s.machine.log == [];
      assert After(base, faults, accesses).s.pending == [];
    } else {
      MountsAreOwned(base, faults, Init(accesses));
      AccessKeepsOwned(After(base, faults, Init(accesses)), faults, Last(accesses),
                       FateOf(base, faults, Init(accesses)).written);
    }
  }

  /** What is mounted and what is tracked, in every run and with stale writes: with no call under
      way the mounts and what the umounts took away are the base and the appended entries; the
      entries on the list are the appended and brought back ones without the dropped and the
      emptied ones. So what ends up mounted and untracked is known place by place. */
  lemma WhatIsMounted(base: seq<Mnt>, faults: Faults, accesses: seq<Access>)
    requires After(base, faults, accesses).s.pending == []
    ensures var s, f := After(base, faults, accesses).s, FateOf(base, faults, accesses);
      && multiset(Places(s.machine.table)) + multiset(Unmounted(s.machine.log))
        == multiset(Places(base)) + multiset(Targets(f.written))
      && multiset(s.tracked) + f.dropped + f.cleared == multiset(f.written) + f.revived
  {
    hide After, FateOf, Mounted, Unmounted, Places;
    MountsConserved(base, faults, accesses);
    MountsAreOwned(base, faults, accesses);
    EntriesConserved(base, faults, accesses);
    assert Targets(MountSteps.Payloads([])) == [];
    AddsNothing(multiset(Targets(FateOf(base, faults, accesses).written)));
  }

  // ----- What a stale write can do ----------------------------------------------------

  /** A stale write can take the list from under a running loop: the next index is past its end
      exactly when the list written is no longer than that index. */
  lemma ShortWritePanicsIff(r: Races, faults: Faults, k: nat)
    requires CanWrite(r, k) && !r.s.outOfBounds
    requires r.s.unmounter.Looping? && r.s.unmounter.i >= 0
    ensures Do(Do(r, faults, WriteList(k)), faults, Other(MountSteps.LoopNext)).s.outOfBounds
      <==> |r.read[k].value| + 1 <= r.s.unmounter.i
  {
    hide RunCommand, Paths.Clean;
  }

  lemma OneMore(base: seq<Mnt>, faults: Faults, accesses: seq<Access>, access: Access)
    ensures After(base, faults, accesses + [access]) == Do(After(base, faults, accesses), faults, access)
  {
    assert Init(accesses + [access]) == accesses;
  }

  lemma Go(base: seq<Mnt>, faults: Faults, accesses0: seq<Access>, r1: Races, access: Access)
    returns (accesses: seq<Access>, r: Races)
    requires r1 == After(base, faults, accesses0)
    ensures accesses == accesses0 + [access]
    ensures r == After(base, faults, accesses) && r == Do(r1, faults, access)
  {
    OneMore(base, faults, accesses0, access);
    accesses, r := accesses0 + [access], Do(r1, faults, access);
  }

  /** A Mount call up to its append, when nothing fails from outside. */
  lemma MountUpToAppend(
      base: seq<Mnt>, faults: Faults, accesses0: seq<Access>, r1: Races, m: MountPayload)
    returns (accesses: seq<Access>, r: Races)
    requires r1 == After(base, faults, accesses0) && Validate(m).None? && |r1.read| == |r1.s.pending|
    requires forall n :: !faults(n)
    ensures r == After(base, faults, accesses)
    ensures r.s.tracked == r1.s.tracked && r.s.unmounter == r1.s.unmounter
    ensures r.s.pending == r1.s.pending + [MountSteps.Pending(m, true)] && r.read == r1.read + [None]
    ensures r.s.machine.table == r1.s.machine.table + [Wanted(m)]
  {
    hide After, Validate, MountArgs, Paths.Clean, Wanted, RunCommand, Refused, MountSteps.Umounts;
    MountSteps.MountCommand(r1.s.machine, faults, m);
    accesses, r := Go(base, faults, accesses0, r1, Other(MountSteps.RunMount(m)));
    var k := |r1.s.pending|;
    assert r.s.pending[k] == MountSteps.Pending(m, false);
    MountSteps.ChownCommand(r.s.machine, faults, ["agent:agent", Paths.Clean(m.guestPath)]);
    accesses, r := Go(base, faults, accesses, r, Other(MountSteps.RunChown(k)));
  }

  /** Two Mount calls that read the list before either writes it: both mounts are made, and one
      of them is not tracked. */
  lemma OverlappingAppendsLoseOne(faults: Faults, m1: MountPayload, m2: MountPayload)
    returns (accesses: seq<Access>)
    requires Validate(m1).None? && Validate(m2).None? && forall n :: !faults(n)
    ensures var s := After([], faults, accesses).s;
      && s.tracked == [m2] && s.pending == [] && s.unmounter.Idle?
      && s.machine.table == [Wanted(m1), Wanted(m2)]
  {
    hide After, Validate, Wanted;
    var r := Start(faults);
    accesses, r := MountUpToAppend([], faults, [], r, m1);
    accesses, r := MountUpToAppend([], faults, accesses, r, m2);
    accesses, r := Go([], faults, accesses, r, ReadList(0));
    accesses, r := Go([], faults, accesses, r, ReadList(1));
    accesses, r := Go([], faults, accesses, r, WriteList(0));
    accesses, r := Go([], faults, accesses, r, WriteList(0));
  }

  lemma Start(faults: Faults) returns (r: Races)
    ensures r == After([], faults, []) && r.s.tracked == [] && r.s.pending == [] && r.read == []
    ensures r.s.machine == Machine([], []) && r.s.unmounter.Idle?
  {
    r := After([], faults, []);
  }

  /** One mount is tracked, and the call for another one has read the list. */
  lemma SecondHasRead(faults: Faults, m1: MountPayload, m2: MountPayload)
    returns (accesses: seq<Access>, r: Races)
    requires Validate(m1).None? && Validate(m2).None? && forall n :: !faults(n)
    ensures r == After([], faults, accesses)
    ensures r.s.tracked == [m1] && r.s.pending == [MountSteps.Pending(m2, true)] && r.read == [Some([m1])]
    ensures r.s.unmounter.Idle? && r.s.machine.table == [Wanted(m1), Wanted(m2)]
  {
    hide After, Validate, Wanted;
    r := Start(faults);
    accesses, r := MountUpToAppend([], faults, [], r, m1);
    accesses, r := Go([], faults, accesses, r, ReadList(0));
    accesses, r := Go([], faults, accesses, r, WriteList(0));
    assert r.s.tracked == [m1];
    accesses, r := MountUpToAppend([], faults, accesses, r, m2);
    accesses, r := Go([], faults, accesses, r, ReadList(0));
  }

  /** A write after the end of a loop that its call has read the list before: an entry that is
      unmounted is back on the list. */
  lemma LateWriteBringsBack(faults: Faults, m1: MountPayload, m2: MountPayload)
    returns (accesses: seq<Access>)
    requires Validate(m1).None? && Validate(m2).None? && forall n :: !faults(n)
    requires !Related(Wanted(m1).at, Wanted(m2).at)
    ensures var s := After([], faults, accesses).s;
      && s.tracked == [m1, m2] && s.pending == [] && s.unmounter.Idle?
      && s.machine.table == [Wanted(m2)]
  {
    hide After, Validate, Wanted, RunCommand, Related;
    var r;
    accesses, r := SecondHasRead(faults, m1, m2);
    UmountFirst(r.s.machine, faults, m1, m2);
    accesses, r := LoopOverOne(faults, accesses, r, m1);
    accesses, r := Go([], faults, accesses, r, WriteList(0));
  }

  /** A whole unmount loop over one tracked mount. */
  lemma LoopOverOne(faults: Faults, accesses0: seq<Access>, r1: Races, m: MountPayload)
    returns (accesses: seq<Access>, r: Races)
    requires r1 == After([], faults, accesses0) && r1.s.unmounter.Idle? && r1.s.tracked == [m]
    ensures r == After([], faults, accesses) && r.s.unmounter.Idle? && r.s.tracked == []
    ensures r.s.pending == r1.s.pending && r.read == r1.read
    ensures r.s.machine == RunCommand(r1.s.machine, faults, UmountCmd, [Paths.Clean(m.guestPath)]).0
  {
    hide After, RunCommand, Paths.Clean, UmountPlan;
    accesses, r := Go([], faults, accesses0, r1, Other(MountSteps.LoopStart));
    accesses, r := Go([], faults, accesses, r, Other(MountSteps.LoopNext));
    accesses, r := Go([], faults, accesses, r, Other(MountSteps.LoopEnd));
  }

  lemma UmountFirst(m: Machine, faults: Faults, m1: MountPayload, m2: MountPayload)
    requires Validate(m1).None? && m.table == [Wanted(m1), Wanted(m2)] && forall n :: !faults(n)
    requires !Related(Wanted(m1).at, Wanted(m2).at)
    ensures RunCommand(m, faults, UmountCmd, [Paths.Clean(m1.guestPath)]).0.table == [Wanted(m2)]
  {
    ValidateMeaning(m1);
    LocateCleaned(m1.guestPath);
    hide Validate, Paths.Clean, Paths.Components, Locate;
    assert Top(m.table, Wanted(m1).at) == 0;
    assert Without(m.table, 0) == [Wanted(m2)];
    assert !Pinned(m.table, 0);
  }
}
