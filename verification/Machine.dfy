/** The guest as the daemon's commands see it: a mount table and a log of what was run.
    A command may fail from outside; `faults` says for each position of the log whether
    the command run there does. Every failure pattern of a run is some `faults`. */
module Machines {
  import opened Basics
  import Paths

  /** A place in the directory tree, as its list of components from the root. */
  type Place = seq<string>

  datatype Mnt = Mnt(at: Place, source: string, fsType: string, options: seq<string>)

  /** The commands the daemon runs: mount, umount, chown, sync, systemctl. */
  datatype Program = MountCmd | UmountCmd | ChownCmd | SyncCmd | SystemctlCmd

  datatype Event =
    | Ran(program: Program, args: seq<string>, ok: bool)
    | Signalled(ok: bool)  // SIGTERM to process 1

  /** `table` lists the mounts, oldest first. */
  datatype Machine = Machine(table: seq<Mnt>, log: seq<Event>)

  type Faults = nat -> bool

  /** The place a command-line path names. */
  function Locate(path: string): Place
  {
    Paths.Resolve(Paths.Split(path, '/'), [], true)
  }

  /** Index of the newest mount at `at`, or -1. */
  function Top(table: seq<Mnt>, at: Place): (i: int)
    ensures -1 <= i < |table|
    ensures i >= 0 ==> table[i].at == at
    ensures forall j :: i < j < |table| ==> table[j].at != at
  {
    if table == [] then -1
    else if Last(table).at == at then |table| - 1
    else Top(Init(table), at)
  }

  predicate Related(p: Place, q: Place)
  {
    p <= q || q <= p
  }

  /** A later mount above or below keeps the mount at index `i` from being taken away: it
      hides its mount point or makes it busy. */
  predicate Pinned(table: seq<Mnt>, i: nat)
    requires i < |table|
  {
    exists j :: i < j < |table| && Related(table[i].at, table[j].at)
  }

  function Without(table: seq<Mnt>, i: nat): seq<Mnt>
    requires i < |table|
  {
    table[..i] + table[i + 1..]
  }

  /** umount(8): removes the newest mount at `at`, unless there is none or it is pinned. */
  function Umount(table: seq<Mnt>, at: Place): Option<seq<Mnt>>
  {
    var i := Top(table, at);
    if i < 0 || Pinned(table, i) then None else Some(Without(table, i))
  }

  /** mount(8) as it reads its arguments: -t TYPE [-o OPTIONS] SOURCE TARGET. */
  function ReadMountArgs(args: seq<string>): Option<Mnt>
  {
    if |args| == 4 && args[0] == "-t" then
      Some(Mnt(Locate(args[3]), args[2], args[1], []))
    else if |args| == 6 && args[0] == "-t" && args[2] == "-o" then
      Some(Mnt(Locate(args[5]), args[4], args[1], Paths.Split(args[3], ',')))
    else None
  }

  /** The new mount table, or None when the command refuses; other commands leave the table. */
  function Effect(table: seq<Mnt>, program: Program, args: seq<string>): Option<seq<Mnt>>
  {
    match program
    case MountCmd => (
      match ReadMountArgs(args)
      case Some(m) => Some(table + [m])
      case None => None)
    case UmountCmd => if |args| == 1 then Umount(table, Locate(args[0])) else None
    case _ => Some(table)
  }

  function RunCommand(m: Machine, faults: Faults, program: Program, args: seq<string>): (r: (Machine, bool))
    ensures r.0.log == m.log + [Ran(program, args, r.1)]
    ensures !r.1 ==> r.0.table == m.table
    ensures r.1 <==> !faults(|m.log|) && Effect(m.table, program, args).Some?
  {
    var effect := Effect(m.table, program, args);
    if faults(|m.log|) || effect.None? then (Machine(m.table, m.log + [Ran(program, args, false)]), false)
    else (Machine(effect.value, m.log + [Ran(program, args, true)]), true)
  }

  function SignalInit(m: Machine, faults: Faults): (Machine, bool)
  {
    var ok := !faults(|m.log|);
    (Machine(m.table, m.log + [Signalled(ok)]), ok)
  }

  /** Commander: runs system commands on the machine. */
  class Commander {
    var machine: Machine
    const faults: Faults

    constructor (base: seq<Mnt>, faults: Faults)
      ensures machine == Machine(base, []) && this.faults == faults
    {
      machine := Machine(base, []);
      this.faults := faults;
    }

    method Run(program: Program, args: seq<string>) returns (ok: bool)
      modifies this
      ensures (machine, ok) == RunCommand(old(machine), faults, program, args)
    {
      var result := RunCommand(machine, faults, program, args);
      machine, ok := result.0, result.1;
    }

    method KillPid1() returns (ok: bool)
      modifies this
      ensures (machine, ok) == SignalInit(old(machine), faults)
    {
      var result := SignalInit(machine, faults);
      machine, ok := result.0, result.1;
    }
  }

  // ----- What was asked for, apart from how it went -----------------------------------

  datatype Request = Command(program: Program, args: seq<string>) | TermInit

  function RequestOf(e: Event): Request
  {
    match e
    case Ran(program, args, _) => Command(program, args)
    case Signalled(_) => TermInit
  }

  function Issued(log: seq<Event>): (requests: seq<Request>)
    ensures |requests| == |log|
    ensures forall i :: 0 <= i < |log| ==> requests[i] == RequestOf(log[i])
  {
    seq(|log|, i requires 0 <= i < |log| => RequestOf(log[i]))
  }

  lemma IssuedAppend(log: seq<Event>, e: Event)
    ensures Issued(log + [e]) == Issued(log) + [RequestOf(e)]
  {
  }

  // ----- Laws of the mount table ------------------------------------------------------

  function Places(table: seq<Mnt>): (ps: seq<Place>)
    ensures |ps| == |table|
    ensures forall i :: 0 <= i < |table| ==> ps[i] == table[i].at
  {
    seq(|table|, i requires 0 <= i < |table| => table[i].at)
  }

  lemma PlacesConcat(a: seq<Mnt>, b: seq<Mnt>)
    ensures Places(a + b) == Places(a) + Places(b)
  {
  }

  /** Removing one mount takes exactly one occurrence of its place away. */
  lemma WithoutOne(table: seq<Mnt>, i: nat)
    requires i < |table|
    ensures multiset(Places(table)) == multiset(Places(Without(table, i))) + multiset{table[i].at}
  {
    assert table == table[..i] + [table[i]] + table[i + 1..];
    PlacesConcat(table[..i] + [table[i]], table[i + 1..]);
    PlacesConcat(table[..i], [table[i]]);
    PlacesConcat(table[..i], table[i + 1..]);
    assert Places([table[i]]) == [table[i].at];
  }

  /** A place occurring more often in the table than in `base` occurs above `base`. */
  lemma SurplusIsAbove(base: seq<Mnt>, table: seq<Mnt>, at: Place)
    requires base <= table
    requires multiset(Places(table))[at] > multiset(Places(base))[at]
    ensures Top(table, at) >= |base|
  {
    var ext := table[|base|..];
    assert table == base + ext;
    PlacesConcat(base, ext);
    assert at in Places(ext);
    var k :| 0 <= k < |ext| && Places(ext)[k] == at;
    assert table[|base| + k].at == at;
  }

  /** While some mount at `at` lies above `base`, unmounting `at` cannot reach into `base`. */
  lemma UmountSparesBase(base: seq<Mnt>, table: seq<Mnt>, at: Place)
    requires base <= table
    requires multiset(Places(table))[at] > multiset(Places(base))[at]
    requires Umount(table, at).Some?
    ensures base <= Umount(table, at).value
    ensures multiset(Places(table)) == multiset(Places(Umount(table, at).value)) + multiset{at}
  {
    SurplusIsAbove(base, table, at);
    WithoutOne(table, Top(table, at));
  }

  /** The newest mount of all can always be taken away. */
  lemma UmountNewest(rest: seq<Mnt>, m: Mnt)
    ensures Umount(rest + [m], m.at) == Some(rest)
  {
    var table := rest + [m];
    assert table[|rest|].at == m.at;
    assert Without(table, |rest|) == rest;
  }
}
