/** Shared directory mounting (pkg/mounts.go): validation, the mount command, and the
    teardown in reverse order, against the mount table of `Machines`. */
module Mounts {
  import opened Basics
  import opened Protocol
  import opened Machines
  import Paths

  const OPTIONS_9P := "trans=virtio,version=9p2000.L"

  function Options(m: MountPayload): seq<string>
  {
    (if m.fsType == "9p" then [OPTIONS_9P] else []) + (if m.readOnly then ["ro"] else [])
  }

  function MountArgs(m: MountPayload, guestPath: string): seq<string>
  {
    ["-t", m.fsType]
    + (if Options(m) == [] then [] else ["-o", Paths.Join(Options(m), ',')])
    + [m.tag, guestPath]
  }

  predicate Supported(fsType: string)
  {
    fsType == "virtiofs" || fsType == "9p"
  }

  /** The checks made before anything is touched. */
  function Validate(m: MountPayload): Option<Failure>
  {
    var guestPath := Paths.Clean(m.guestPath);
    if m.tag == "" then Some(EmptyTag)
    else if m.guestPath == "" then Some(EmptyGuestPath)
    else if m.fsType == "" then Some(EmptyFsType)
    else if !Supported(m.fsType) then Some(UnsupportedFsType)
    else if !Paths.IsAbs(guestPath) then Some(NotAbsolute)
    else if Paths.Guarded(guestPath) then Some(SystemDirectory)
    else None
  }

  /** The mount manager together with the machine its commands run on. */
  datatype Mounting = Mounting(tracked: seq<MountPayload>, machine: Machine)

  function MountStep(s: Mounting, faults: Faults, m: MountPayload, mkdirOk: bool): (Mounting, Result)
  {
    var guestPath := Paths.Clean(m.guestPath);
    if Validate(m).Some? then (s, Err(Validate(m).value))
    else if !mkdirOk then (s, Err(MkdirFailed))
    else
      var (mounted, ok) := RunCommand(s.machine, faults, MountCmd, MountArgs(m, guestPath));
      if !ok then (s.(machine := mounted), Err(MountFailed))
      else
        var (owned, _) := RunCommand(mounted, faults, ChownCmd, ["agent:agent", guestPath]);
        (Mounting(s.tracked + [m], owned), Ok)
  }

  /** The machine after one umount per tracked mount, newest first, failures ignored. */
  function Teardown(machine: Machine, faults: Faults, tracked: seq<MountPayload>): Machine
    decreases |tracked|
  {
    if tracked == [] then machine
    else
      var (next, _) := RunCommand(machine, faults, UmountCmd, [Paths.Clean(Last(tracked).guestPath)]);
      Teardown(next, faults, Init(tracked))
  }

  function UmountOf(m: MountPayload): Request
  {
    Command(UmountCmd, [Paths.Clean(m.guestPath)])
  }

  /** One umount per tracked mount, newest first. */
  function UmountPlan(tracked: seq<MountPayload>): (plan: seq<Request>)
    ensures |plan| == |tracked|
    ensures forall i :: 0 <= i < |tracked| ==> plan[i] == UmountOf(tracked[|tracked| - 1 - i])
  {
    seq(|tracked|, i requires 0 <= i < |tracked| => UmountOf(tracked[|tracked| - 1 - i]))
  }

  function UnmountStep(s: Mounting, faults: Faults): Mounting
  {
    Mounting([], Teardown(s.machine, faults, s.tracked))
  }

  /** MountManager: `mounts` is appended to by Mount and emptied by UnmountAll. */
  class MountManager {
    var mounts: seq<MountPayload>
    const commander: Commander

    constructor (commander: Commander)
      ensures mounts == [] && this.commander == commander
    {
      mounts := [];
      this.commander := commander;
    }

    ghost function View(): Mounting
      reads this, commander
    {
      Mounting(mounts, commander.machine)
    }

    method Mount(m: MountPayload, mkdirOk: bool) returns (r: Result)
      modifies this, commander
      ensures (View(), r) == MountStep(old(View()), commander.faults, m, mkdirOk)
    {
      if m.tag == "" { return Err(EmptyTag); }
      if m.guestPath == "" { return Err(EmptyGuestPath); }
      if m.fsType == "" { return Err(EmptyFsType); }
      if !(m.fsType == "virtiofs" || m.fsType == "9p") { return Err(UnsupportedFsType); }

      var guestPath := Paths.Clean(m.guestPath);
      if !Paths.IsAbs(guestPath) { return Err(NotAbsolute); }
      for i := 0 to |Paths.BLOCKED|
        invariant forall j :: 0 <= j < i ==> !Paths.Covers(Paths.BLOCKED[j], guestPath)
        invariant View() == old(View())
      {
        if Paths.Covers(Paths.BLOCKED[i], guestPath) { return Err(SystemDirectory); }
      }
      if !mkdirOk { return Err(MkdirFailed); }

      var opts := [];
      if m.fsType == "9p" { opts := opts + [OPTIONS_9P]; }
      if m.readOnly { opts := opts + ["ro"]; }
      assert opts == Options(m);
      var args := ["-t", m.fsType];
      if |opts| > 0 { args := args + ["-o", Paths.Join(opts, ',')]; }
      args := args + [m.tag, guestPath];
      assert args == MountArgs(m, guestPath);

      var ok := commander.Run(MountCmd, args);
      if !ok { return Err(MountFailed); }
      var _ := commander.Run(ChownCmd, ["agent:agent", guestPath]);
      mounts := mounts + [m];
      return Ok;
    }

    method UnmountAll()
      modifies this, commander
      ensures View() == UnmountStep(old(View()), commander.faults)
    {
      var i := |mounts| - 1;
      assert mounts[..i + 1] == mounts;
      while i >= 0
        invariant -1 <= i < |mounts|
        invariant mounts == old(mounts)
        invariant Teardown(commander.machine, commander.faults, mounts[..i + 1])
          == Teardown(old(commander.machine), commander.faults, old(mounts))
      {
        assert Last(mounts[..i + 1]) == mounts[i] && Init(mounts[..i + 1]) == mounts[..i];
        var guestPath := Paths.Clean(mounts[i].guestPath);
        var _ := commander.Run(UmountCmd, [guestPath]);
        i := i - 1;
      }
      mounts := [];
    }

    /** The caller's own copy of the list. */
    method ActiveMounts() returns (result: array<MountPayload>)
      ensures fresh(result) && result[..] == mounts
    {
      result := new MountPayload[|mounts|](k requires 0 <= k < |mounts| reads this => mounts[k]);
    }
  }

  // ----- What one accepted payload mounts ---------------------------------------------

  /** The single options that a payload asks for. */
  function WantedOptions(m: MountPayload): seq<string>
  {
    (if m.fsType == "9p" then ["trans=virtio", "version=9p2000.L"] else [])
    + (if m.readOnly then ["ro"] else [])
  }

  /** The table entry a payload asks for. */
  function Wanted(m: MountPayload): Mnt
  {
    Mnt(Paths.Components(m.guestPath), m.tag, m.fsType, WantedOptions(m))
  }

  lemma OptionsRead(m: MountPayload)
    ensures Options(m) == [] <==> WantedOptions(m) == []
    ensures Options(m) != [] ==> Paths.Split(Paths.Join(Options(m), ','), ',') == WantedOptions(m)
  {
    hide Paths.Split;
    Paths.SplitSingle("ro", ',');
    if m.fsType == "9p" {
      Split9p();
      if m.readOnly {
        assert Options(m) == [OPTIONS_9P, "ro"] && Options(m)[1..] == ["ro"];
        assert Paths.Join(["ro"], ',') == "ro";
        Paths.SplitConcat(OPTIONS_9P, "ro", ',');
      } else {
        assert Options(m) == [OPTIONS_9P];
      }
    } else if m.readOnly {
      assert Options(m) == ["ro"];
    }
  }

  lemma Split9p()
    ensures Paths.Split(OPTIONS_9P, ',') == ["trans=virtio", "version=9p2000.L"]
  {
    hide Paths.Split;
    assert OPTIONS_9P == "trans=virtio" + "," + "version=9p2000.L";
    Paths.SplitConcat("trans=virtio", "version=9p2000.L", ',');
    Paths.SplitSingle("trans=virtio", ',');
    Paths.SplitSingle("version=9p2000.L", ',');
  }

  lemma LocateCleaned(path: string)
    requires Paths.IsAbs(path)
    ensures Locate(Paths.Clean(path)) == Paths.Components(path)
  {
    Paths.CleanKeepsMeaning(path);
  }

  lemma ArgsShape(m: MountPayload, guestPath: string)
    ensures Options(m) == [] ==> MountArgs(m, guestPath) == ["-t", m.fsType, m.tag, guestPath]
    ensures Options(m) != [] ==>
      MountArgs(m, guestPath) == ["-t", m.fsType, "-o", Paths.Join(Options(m), ','), m.tag, guestPath]
  {
  }

  lemma ReadArgs(fsType: string, options: string, tag: string, target: string)
    ensures ReadMountArgs(["-t", fsType, tag, target]) == Some(Mnt(Locate(target), tag, fsType, []))
    ensures ReadMountArgs(["-t", fsType, "-o", options, tag, target])
      == Some(Mnt(Locate(target), tag, fsType, Paths.Split(options, ',')))
  {
  }

  /** mount(8) reads back from the built arguments exactly the payload: its tag, its type, the
      options for these and for read-only, and the place its path denotes. */
  lemma MountArgsMeanPayload(m: MountPayload)
    requires Paths.IsAbs(m.guestPath)
    ensures ReadMountArgs(MountArgs(m, Paths.Clean(m.guestPath))) == Some(Wanted(m))
  {
    var guestPath := Paths.Clean(m.guestPath);
    LocateCleaned(m.guestPath);
    ArgsShape(m, guestPath);
    ReadArgs(m.fsType, Paths.Join(Options(m), ','), m.tag, guestPath);
    OptionsRead(m);
  }

  /** Mount reaches the machine exactly for named sources of a supported type whose path is
      absolute, not the root, and outside the system directories; and what it says otherwise. */
  lemma ValidateMeaning(m: MountPayload)
    ensures Validate(m).None? <==>
      && m.tag != "" && m.fsType in {"virtiofs", "9p"}
      && Paths.IsAbs(m.guestPath) && Paths.Components(m.guestPath) != []
      && Paths.Components(m.guestPath)[0] !in {"nix", "etc", "bin", "boot", "dev", "proc", "sys", "run"}
    ensures Validate(m) == Some(EmptyTag) <==> m.tag == ""
    ensures Validate(m) == Some(EmptyGuestPath) <==> m.tag != "" && m.guestPath == ""
    ensures Validate(m) == Some(EmptyFsType) <==> m.tag != "" && m.guestPath != "" && m.fsType == ""
    ensures Validate(m) == Some(UnsupportedFsType)
      <==> m.tag != "" && m.guestPath != "" && m.fsType !in {"", "virtiofs", "9p"}
    ensures Validate(m) == Some(NotAbsolute)
      <==> m.tag != "" && m.guestPath != "" && m.fsType in {"virtiofs", "9p"} && !Paths.IsAbs(m.guestPath)
    ensures Validate(m).Some? && Paths.IsAbs(m.guestPath) && m.tag != "" && m.fsType in {"virtiofs", "9p"}
      ==> Validate(m) == Some(SystemDirectory)
  {
    hide Paths.Clean, Paths.Components, Paths.Guarded;
    Paths.GuardOnComponents(m.guestPath);
    Paths.CleanKeepsMeaning(m.guestPath);
  }

  /** The commands of one Mount call: none unless the payload passes the checks and the
      directory is there, then the mount as the payload asks for it, and after a successful
      mount the change of owner, whose failure changes nothing. The options are those of the
      9p transport iff the type is 9p, and "ro" iff the mount is read-only. */
  lemma MountCommands(s: Mounting, faults: Faults, m: MountPayload, mkdirOk: bool)
    ensures var (next, r) := MountStep(s, faults, m, mkdirOk);
      var reached := Validate(m).None? && mkdirOk;
      var n := |s.machine.log|;
      && s.machine.log <= next.machine.log
      && |next.machine.log| == n + (if !reached then 0 else if r.Err? then 1 else 2)
      && (r.Ok? <==> reached && !faults(n))
      && (r == Err(MkdirFailed) <==> Validate(m).None? && !mkdirOk)
      && (r == Err(MountFailed) <==> reached && faults(n))
      && (Validate(m).Some? ==> r == Err(Validate(m).value))
      && (reached ==> IsMountOf(next.machine.log[n], m, r.Ok?))
      && (r.Ok? ==>
            next.machine.log[n + 1] == Ran(ChownCmd, ["agent:agent", Paths.Clean(m.guestPath)], !faults(n + 1)))
  {
    var guestPath := Paths.Clean(m.guestPath);
    RefusedEarly(m);
    hide Validate, Paths.Clean, MountArgs, ReadMountArgs;
    if Validate(m).None? && mkdirOk {
      ValidAbsolute(m);
      MountArgsMeanPayload(m);
      MountedAsWanted(m, !faults(|s.machine.log|));
      MountCanSucceed(s.machine.table, m);
      var mounted := RunCommand(s.machine, faults, MountCmd, MountArgs(m, guestPath)).0;
      ChownCanSucceed(mounted.table, ["agent:agent", guestPath]);
      hide Effect, IsMountOf;
    }
  }

  lemma RefusedEarly(m: MountPayload)
    ensures Validate(m) != Some(MkdirFailed) && Validate(m) != Some(MountFailed)
  {
  }

  lemma MountCanSucceed(table: seq<Mnt>, m: MountPayload)
    requires Paths.IsAbs(m.guestPath)
    ensures Effect(table, MountCmd, MountArgs(m, Paths.Clean(m.guestPath))).Some?
  {
    MountArgsMeanPayload(m);
  }

  lemma ChownCanSucceed(table: seq<Mnt>, args: seq<string>)
    ensures Effect(table, ChownCmd, args).Some?
  {
  }

  lemma MountedAsWanted(m: MountPayload, ok: bool)
    requires Paths.IsAbs(m.guestPath)
    ensures IsMountOf(Ran(MountCmd, MountArgs(m, Paths.Clean(m.guestPath)), ok), m, ok)
  {
    hide ReadMountArgs, MountArgs, Paths.Clean, Paths.Components;
    ArgsShape(m, Paths.Clean(m.guestPath));
    MountArgsMeanPayload(m);
    OptionsWanted(m);
    OptionsIffWanted(m);
  }

  lemma OptionsIffWanted(m: MountPayload)
    ensures Options(m) == [] <==> m.fsType != "9p" && !m.readOnly
  {
  }

  lemma OptionsWanted(m: MountPayload)
    ensures "trans=virtio" in WantedOptions(m) <==> m.fsType == "9p"
    ensures "version=9p2000.L" in WantedOptions(m) <==> m.fsType == "9p"
    ensures "ro" in WantedOptions(m) <==> m.readOnly
    ensures forall o :: o in WantedOptions(m) ==> o in {"trans=virtio", "version=9p2000.L", "ro"}
  {
    assert |"ro"| != |"trans=virtio"| && |"ro"| != |"version=9p2000.L"|;
  }

  lemma ValidAbsolute(m: MountPayload)
    requires Validate(m).None?
    ensures Paths.IsAbs(m.guestPath) && m.tag != "" && m.fsType in {"virtiofs", "9p"}
  {
    ValidateMeaning(m);
  }

  /** The event is the mount command that the payload asks for. */
  ghost predicate IsMountOf(e: Event, m: MountPayload, ok: bool)
  {
    && e.Ran? && e.program == MountCmd && e.ok == ok
    && var mnt := ReadMountArgs(e.args);
      && mnt.Some? && mnt.value.at == Paths.Components(m.guestPath)
      && mnt.value.source == m.tag && mnt.value.fsType == m.fsType
      && ("trans=virtio" in mnt.value.options <==> m.fsType == "9p")
      && ("version=9p2000.L" in mnt.value.options <==> m.fsType == "9p")
      && ("ro" in mnt.value.options <==> m.readOnly)
      && (forall o :: o in mnt.value.options ==> o in {"trans=virtio", "version=9p2000.L", "ro"})
      && (|e.args| == 6 <==> m.fsType == "9p" || m.readOnly)
      && (|e.args| == 6 ==> e.args[2] == "-o") && (|e.args| != 6 ==> |e.args| == 4)
  }
}
