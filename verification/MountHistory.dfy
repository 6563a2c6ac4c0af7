/** What every history of Mount and UnmountAll calls keeps, under arbitrary failures of the
    commands: a conservation law for mounts, and when the machine is restored. */
module MountHistory {
  import opened Basics
  import opened Protocol
  import opened Machines
  import opened Mounts
  import Paths

  datatype Op = DoMount(m: MountPayload, mkdirOk: bool) | DoUnmountAll

  function Apply(s: Mounting, faults: Faults, op: Op): Mounting
  {
    match op
    case DoMount(m, mkdirOk) => MountStep(s, faults, m, mkdirOk).0
    case DoUnmountAll => UnmountStep(s, faults)
  }

  /** The state after `ops`, starting with nothing tracked on a machine with table `base`. */
  function After(base: seq<Mnt>, faults: Faults, ops: seq<Op>): Mounting
    decreases |ops|
  {
    if ops == [] then Mounting([], Machine(base, []))
    else Apply(After(base, faults, Init(ops)), faults, Last(ops))
  }

  // ----- Accounting -------------------------------------------------------------------

  /** The places whose umount failed, in the order of the log. */
  function Refused(log: seq<Event>): seq<Place>
    decreases |log|
  {
    if log == [] then []
    else
      var e := Last(log);
      Refused(Init(log))
      + (if e.Ran? && e.program == UmountCmd && !e.ok && |e.args| == 1 then [Locate(e.args[0])] else [])
  }

  function Targets(tracked: seq<MountPayload>): (ps: seq<Place>)
    ensures |ps| == |tracked|
    ensures forall i :: 0 <= i < |tracked| ==> ps[i] == Paths.Components(tracked[i].guestPath)
  {
    seq(|tracked|, i requires 0 <= i < |tracked| => Paths.Components(tracked[i].guestPath))
  }

  ghost predicate AllAbsolute(tracked: seq<MountPayload>)
  {
    forall i :: 0 <= i < |tracked| ==> Paths.IsAbs(tracked[i].guestPath)
  }

  /** Nothing of `base` is lost, and place by place the table holds exactly the base mounts,
      the tracked mounts, and one mount per umount that failed. */
  ghost predicate Balanced(base: seq<Mnt>, table: seq<Mnt>, owed: multiset<Place>)
  {
    && base <= table
    && multiset(Places(table)) == multiset(Places(base)) + owed
  }

  ghost predicate Conserved(base: seq<Mnt>, s: Mounting)
  {
    && AllAbsolute(s.tracked)
    && Balanced(base, s.machine.table, multiset(Targets(s.tracked)) + multiset(Refused(s.machine.log)))
  }

  lemma RefusedAppend(log: seq<Event>, e: Event)
    ensures Refused(log + [e]) == Refused(log)
      + (if e.Ran? && e.program == UmountCmd && !e.ok && |e.args| == 1 then [Locate(e.args[0])] else [])
  {
    assert Init(log + [e]) == log;
  }

  lemma CancelOne<T>(a: multiset<T>, b: multiset<T>, x: T)
    requires a + multiset{x} == b + multiset{x}
    ensures a == b
  {
    forall y
      ensures a[y] == b[y]
    {
      assert (a + multiset{x})[y] == (b + multiset{x})[y];
    }
  }

  lemma RemovalSettles(base: seq<Mnt>, table: seq<Mnt>, at: Place, owed: multiset<Place>)
    requires Balanced(base, table, owed + multiset{at})
    requires Umount(table, at).Some?
    ensures Balanced(base, Umount(table, at).value, owed)
  {
    UmountSparesBase(base, table, at);
    CancelOne(multiset(Places(Umount(table, at).value)), multiset(Places(base)) + owed, at);
  }

  lemma ArrivalOwes(base: seq<Mnt>, table: seq<Mnt>, m: Mnt, owed: multiset<Place>)
    requires Balanced(base, table, owed)
    ensures Balanced(base, table + [m], owed + multiset{m.at})
  {
    PlacesConcat(table, [m]);
    assert Places([m]) == [m.at];
  }

  lemma UmountCommand(m: Machine, faults: Faults, path: string)
    requires Paths.IsAbs(path)
    ensures var (next, ok) := RunCommand(m, faults, UmountCmd, [Paths.Clean(path)]);
      var at := Paths.Components(path);
      && (ok ==> Umount(m.table, at) == Some(next.table))
      && (!ok ==> next.table == m.table)
      && Refused(next.log) == Refused(m.log) + (if ok then [] else [at])
  {
    LocateCleaned(path);
    var (next, ok) := RunCommand(m, faults, UmountCmd, [Paths.Clean(path)]);
    RefusedAppend(m.log, Ran(UmountCmd, [Paths.Clean(path)], ok));
  }

  /** One umount settles one debt: either the mount goes, or the failure is on record. */
  lemma UmountSettles(base: seq<Mnt>, m: Machine, faults: Faults, path: string, owed: multiset<Place>)
    requires Paths.IsAbs(path)
    requires Balanced(base, m.table, owed + multiset{Paths.Components(path)} + multiset(Refused(m.log)))
    ensures var next := RunCommand(m, faults, UmountCmd, [Paths.Clean(path)]).0;
      Balanced(base, next.table, owed + multiset(Refused(next.log)))
  {
    hide RunCommand, Refused, Paths.Components, Paths.Clean;
    var at := Paths.Components(path);
    var (next, ok) := RunCommand(m, faults, UmountCmd, [Paths.Clean(path)]);
    UmountCommand(m, faults, path);
    var refused := multiset(Refused(m.log));
    assert owed + multiset{at} + refused == owed + refused + multiset{at};
    if ok {
      RemovalSettles(base, m.table, at, owed + refused);
    }
  }

  lemma {:induction false} TeardownSettles(base: seq<Mnt>, m: Machine, faults: Faults, tracked: seq<MountPayload>)
    requires AllAbsolute(tracked)
    requires Balanced(base, m.table, multiset(Targets(tracked)) + multiset(Refused(m.log)))
    ensures var end := Teardown(m, faults, tracked);
      Balanced(base, end.table, multiset(Refused(end.log)))
    decreases |tracked|
  {
    hide RunCommand, Balanced, Refused, Paths.Components, Paths.Clean;
    if tracked == [] {
      assert Targets(tracked) == [];
      assert multiset(Targets(tracked)) + multiset(Refused(m.log)) == multiset(Refused(m.log));
    } else {
      var path := Last(tracked).guestPath;
      assert Targets(tracked) == Targets(Init(tracked)) + [Paths.Components(path)];
      UmountSettles(base, m, faults, path, multiset(Targets(Init(tracked))));
      TeardownSettles(base, RunCommand(m, faults, UmountCmd, [Paths.Clean(path)]).0, faults, Init(tracked));
    }
  }

  /** A Mount call seen from the table, the tracked list and the failed umounts. */
  ghost predicate MountDelta(s: Mounting, next: Mounting, m: MountPayload, ok: bool)
  {
    && Refused(next.machine.log) == Refused(s.machine.log)
    && s.machine.log <= next.machine.log
    && (ok ==> Paths.IsAbs(m.guestPath))
    && next.tracked == s.tracked + (if ok then [m] else [])
    && next.machine.table == s.machine.table + (if ok then [Wanted(m)] else [])
  }

  lemma ValidIsAbsolute(m: MountPayload)
    requires Validate(m).None?
    ensures Paths.IsAbs(m.guestPath)
  {
    Paths.CleanKeepsMeaning(m.guestPath);
  }

  lemma MountEffect(s: Mounting, faults: Faults, m: MountPayload, mkdirOk: bool)
    ensures var (next, r) := MountStep(s, faults, m, mkdirOk); MountDelta(s, next, m, r.Ok?)
  {
    hide MountArgs, ReadMountArgs, Paths.Clean, Wanted, Umount;
    if Validate(m).None? && mkdirOk {
      var guestPath := Paths.Clean(m.guestPath);
      ValidIsAbsolute(m);
      MountArgsMeanPayload(m);
      hide Validate, Refused;
      var args := MountArgs(m, guestPath);
      var (mounted, ok) := RunCommand(s.machine, faults, MountCmd, args);
      RefusedAppend(s.machine.log, Ran(MountCmd, args, ok));
      if ok {
        var (owned, chowned) := RunCommand(mounted, faults, ChownCmd, ["agent:agent", guestPath]);
        RefusedAppend(mounted.log, Ran(ChownCmd, ["agent:agent", guestPath], chowned));
      }
    }
  }

  lemma MountConserves(base: seq<Mnt>, s: Mounting, next: Mounting, m: MountPayload, ok: bool)
    requires Conserved(base, s) && MountDelta(s, next, m, ok)
    ensures Conserved(base, next)
  {
    if ok {
      var owed, at := multiset(Targets(s.tracked)), Wanted(m).at;
      var refused := multiset(Refused(s.machine.log));
      ArrivalOwes(base, s.machine.table, Wanted(m), owed + refused);
      assert Targets(s.tracked + [m]) == Targets(s.tracked) + [at];
      assert owed + refused + multiset{at} == owed + multiset{at} + refused;
    } else {
      assert next.tracked == s.tracked && next.machine.table == s.machine.table;
    }
  }

  /** Conservation over every history: no call sequence and no pattern of failures removes a
      base mount, and the surplus over the base is, place by place, what is tracked plus what
      could not be unmounted. */
  lemma {:induction false} HistoryConserves(base: seq<Mnt>, faults: Faults, ops: seq<Op>)
    ensures Conserved(base, After(base, faults, ops))
    decreases |ops|
  {
    if ops != [] {
      var s := After(base, faults, Init(ops));
      HistoryConserves(base, faults, Init(ops));
      match Last(ops)
      case DoMount(m, mkdirOk) =>
        var (next, r) := MountStep(s, faults, m, mkdirOk);
        MountEffect(s, faults, m, mkdirOk);
        MountConserves(base, s, next, m, r.Ok?);
      case DoUnmountAll =>
        TeardownSettles(base, s.machine, faults, s.tracked);
        assert Targets([]) == [];
    }
  }

  // ----- Teardown ---------------------------------------------------------------------

  /** The table without the mounts that are still tracked: what a teardown should leave. */
  ghost predicate TrackedOnTop(floor: seq<Mnt>, s: Mounting)
  {
    s.machine.table == floor + WantedAll(s.tracked)
  }

  function WantedAll(tracked: seq<MountPayload>): (ms: seq<Mnt>)
    ensures |ms| == |tracked|
    ensures forall i :: 0 <= i < |tracked| ==> ms[i] == Wanted(tracked[i])
  {
    seq(|tracked|, i requires 0 <= i < |tracked| => Wanted(tracked[i]))
  }

  /** The commands of a teardown and nothing else: one umount per tracked mount, newest
      first, whatever fails. */
  lemma {:induction false} TeardownCommands(m: Machine, faults: Faults, tracked: seq<MountPayload>)
    ensures Issued(Teardown(m, faults, tracked).log) == Issued(m.log) + UmountPlan(tracked)
    decreases |tracked|
  {
    hide Effect, Paths.Clean;
    if tracked != [] {
      var args := [Paths.Clean(Last(tracked).guestPath)];
      var (next, ok) := RunCommand(m, faults, UmountCmd, args);
      IssuedAppend(m.log, Ran(UmountCmd, args, ok));
      TeardownCommands(next, faults, Init(tracked));
      assert Issued(m.log) + [Command(UmountCmd, args)] + UmountPlan(Init(tracked))
        == Issued(m.log) + ([Command(UmountCmd, args)] + UmountPlan(Init(tracked)));
    }
  }

  /** Without outside failures every umount of a teardown meets the newest mount, so none is
      refused as hidden or busy, and exactly the floor is left: duplicate and nested paths
      included. */
  lemma {:induction false} TeardownRestores(floor: seq<Mnt>, m: Machine, faults: Faults, tracked: seq<MountPayload>)
    requires AllAbsolute(tracked)
    requires m.table == floor + WantedAll(tracked)
    requires forall k :: |m.log| <= k < |m.log| + |tracked| ==> !faults(k)
    ensures Teardown(m, faults, tracked).table == floor
    ensures Refused(Teardown(m, faults, tracked).log) == Refused(m.log)
    decreases |tracked|
  {
    hide Umount, Paths.Clean, Locate, Paths.Components;
    if tracked == [] {
      assert floor + WantedAll(tracked) == floor;
    } else {
      var newest := Last(tracked);
      assert WantedAll(tracked) == WantedAll(Init(tracked)) + [Wanted(newest)];
      assert m.table == (floor + WantedAll(Init(tracked))) + [Wanted(newest)];
      UmountNewest(floor + WantedAll(Init(tracked)), Wanted(newest));
      LocateCleaned(newest.guestPath);
      var (next, ok) := RunCommand(m, faults, UmountCmd, [Paths.Clean(newest.guestPath)]);
      RefusedAppend(m.log, Ran(UmountCmd, [Paths.Clean(newest.guestPath)], ok));
      TeardownRestores(floor, next, faults, Init(tracked));
    }
  }

  /** An outside failure during the teardown is on record as a refused umount. */
  lemma {:induction false} FaultIsRefusal(m: Machine, faults: Faults, tracked: seq<MountPayload>)
    ensures |Refused(Teardown(m, faults, tracked).log)| >= |Refused(m.log)|
    ensures (exists k :: |m.log| <= k < |m.log| + |tracked| && faults(k)) ==>
      |Refused(Teardown(m, faults, tracked).log)| > |Refused(m.log)|
    decreases |tracked|
  {
    hide Effect, Paths.Clean, Locate;
    if tracked != [] {
      var path := Paths.Clean(Last(tracked).guestPath);
      var (next, ok) := RunCommand(m, faults, UmountCmd, [path]);
      RefusedAppend(m.log, Ran(UmountCmd, [path], ok));
      FaultIsRefusal(next, faults, Init(tracked));
    }
  }

  /** After any history the tracked mounts are the newest ones of the table, in order. */
  lemma {:induction false} HistoryTracksNewest(base: seq<Mnt>, faults: Faults, ops: seq<Op>)
    returns (floor: seq<Mnt>)
    ensures TrackedOnTop(floor, After(base, faults, ops))
    ensures DoUnmountAll !in ops ==> floor == base
    decreases |ops|
  {
    hide MountStep, Wanted, Teardown, Refused;
    if ops == [] {
      floor := base;
      assert base + WantedAll([]) == base;
    } else {
      var s := After(base, faults, Init(ops));
      floor := HistoryTracksNewest(base, faults, Init(ops));
      match Last(ops)
      case DoMount(m, mkdirOk) =>
        MountEffect(s, faults, m, mkdirOk);
        if MountStep(s, faults, m, mkdirOk).1.Ok? {
          assert WantedAll(s.tracked + [m]) == WantedAll(s.tracked) + [Wanted(m)];
          assert floor + (WantedAll(s.tracked) + [Wanted(m)]) == s.machine.table + [Wanted(m)];
        }
      case DoUnmountAll =>
        floor := UnmountStep(s, faults).machine.table;
        assert floor + WantedAll([]) == floor;
    }
  }

  lemma SizeIsOwed(base: seq<Mnt>, table: seq<Mnt>, owed: seq<Place>)
    requires Balanced(base, table, multiset(owed))
    ensures |table| == |base| + |owed|
  {
    assert |multiset(Places(table))| == |multiset(Places(base))| + |multiset(owed)|;
  }

  /** Restoration, exactly: mount anything any number of times and tear down; the machine has
      its old table back iff no command of the teardown failed from outside. */
  lemma RestoredIffNoFault(base: seq<Mnt>, faults: Faults, ops: seq<Op>)
    requires DoUnmountAll !in ops
    ensures var s := After(base, faults, ops);
      UnmountStep(s, faults).machine.table == base
      <==> forall k :: |s.machine.log| <= k < |s.machine.log| + |s.tracked| ==> !faults(k)
  {
    var s := After(base, faults, ops);
    var end := UnmountStep(s, faults);
    var floor := HistoryTracksNewest(base, faults, ops);
    HistoryConserves(base, faults, ops);
    if forall k :: |s.machine.log| <= k < |s.machine.log| + |s.tracked| ==> !faults(k) {
      TeardownRestores(base, s.machine, faults, s.tracked);
    } else {
      FaultIsRefusal(s.machine, faults, s.tracked);
      TeardownSettles(base, s.machine, faults, s.tracked);
      SizeIsOwed(base, end.machine.table, Refused(end.machine.log));
    }
  }

  /** Over a whole history with any number of teardowns: after the last one, the machine has
      its first table back iff no umount of the history was ever refused. */
  lemma RestoredIffNoneRefused(base: seq<Mnt>, faults: Faults, ops: seq<Op>)
    requires ops != [] && Last(ops) == DoUnmountAll
    ensures var end := After(base, faults, ops);
      end.machine.table == base <==> Refused(end.machine.log) == []
  {
    var end := After(base, faults, ops);
    HistoryConserves(base, faults, ops);
    assert Targets(end.tracked) == [];
    SizeIsOwed(base, end.machine.table, Refused(end.machine.log));
  }

  /** A successful mount whose target argument is the clean path `path`. */
  ghost predicate MountedAt(e: Event, path: string)
  {
    e.Ran? && e.program == MountCmd && e.ok && e.args != [] && Last(e.args) == path && Paths.Clean(path) == path
  }

  lemma MountIsLogged(s: Mounting, faults: Faults, m: MountPayload, mkdirOk: bool)
    ensures var (next, r) := MountStep(s, faults, m, mkdirOk);
      r.Ok? ==>
        && |next.machine.log| > |s.machine.log|
        && MountedAt(next.machine.log[|s.machine.log|], Paths.Clean(m.guestPath))
  {
    Paths.CleanIdempotent(m.guestPath);
    assert Last(MountArgs(m, Paths.Clean(m.guestPath))) == Paths.Clean(m.guestPath);
  }

  ghost predicate WasMounted(log: seq<Event>, guestPath: string)
  {
    exists e :: e in log && MountedAt(e, Paths.Clean(guestPath))
  }

  ghost predicate EveryTrackedWasMounted(s: Mounting)
  {
    forall i :: 0 <= i < |s.tracked| ==> WasMounted(s.machine.log, s.tracked[i].guestPath)
  }

  lemma MountKeepsMounted(s: Mounting, next: Mounting, m: MountPayload, ok: bool)
    requires EveryTrackedWasMounted(s) && MountDelta(s, next, m, ok)
    requires ok ==> |next.machine.log| > |s.machine.log|
    requires ok ==> MountedAt(next.machine.log[|s.machine.log|], Paths.Clean(m.guestPath))
    ensures EveryTrackedWasMounted(next)
  {
    forall i | 0 <= i < |next.tracked|
      ensures WasMounted(next.machine.log, next.tracked[i].guestPath)
    {
      if i < |s.tracked| {
        assert WasMounted(s.machine.log, s.tracked[i].guestPath);
        var e :| e in s.machine.log && MountedAt(e, Paths.Clean(s.tracked[i].guestPath));
        assert e in next.machine.log;
      } else {
        assert next.machine.log[|s.machine.log|] in next.machine.log;
      }
    }
  }

  /** The path a teardown will use for a tracked mount is the very string mount(8) was given,
      in every history. */
  lemma {:induction false} TeardownPathIsMountPath(base: seq<Mnt>, faults: Faults, ops: seq<Op>)
    ensures EveryTrackedWasMounted(After(base, faults, ops))
    decreases |ops|
  {
    if ops != [] {
      var s := After(base, faults, Init(ops));
      TeardownPathIsMountPath(base, faults, Init(ops));
      match Last(ops)
      case DoMount(m, mkdirOk) =>
        var (next, r) := MountStep(s, faults, m, mkdirOk);
        MountEffect(s, faults, m, mkdirOk);
        if r.Ok? {
          MountIsLogged(s, faults, m, mkdirOk);
        }
        MountKeepsMounted(s, next, m, r.Ok?);
      case DoUnmountAll =>
    }
  }

  // ----- Why backwards ----------------------------------------------------------------

  /** Of two mounts at the top the older can be unmounted first exactly when the newer is
      neither above nor below its place: else the newer one makes it busy or hides it. With
      both at one place the newer one goes. Backwards, both always can. */
  lemma OlderFirstIsRefused(base: seq<Mnt>, older: Mnt, newer: Mnt)
    ensures Umount(base + [older, newer], older.at) ==
      if older.at == newer.at then Some(base + [older])
      else if older.at <= newer.at || newer.at <= older.at then None
      else Some(base + [newer])
    ensures Umount(base + [older, newer], newer.at) == Some(base + [older])
    ensures Umount(base + [older], older.at) == Some(base)
  {
    var table := base + [older, newer];
    assert table[|base|] == older && table[|base| + 1] == newer;
    assert table == (base + [older]) + [newer];
    UmountNewest(base + [older], newer);
    UmountNewest(base, older);
    if older.at != newer.at {
      assert Top(table, older.at) == |base|;
      assert Without(table, |base|) == base + [newer];
      assert Pinned(table, |base|) <==> Related(table[|base|].at, table[|base| + 1].at);
    }
  }
}
