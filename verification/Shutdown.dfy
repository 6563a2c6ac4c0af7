/** Graceful shutdown (pkg/shutdown.go): transition, unmount, sync, power off. */
module Shutdowns {
  import opened Basics
  import opened Protocol
  import opened Machines
  import opened Mounts
  import opened MountHistory
  import opened Lifecycle

  /** The final step, selected by the configured mode. */
  datatype Poweroff = Systemctl | SignalPid1 | Unsupported

  function PoweroffFor(mode: string): Poweroff
  {
    if mode == "" || mode == "systemctl" then Systemctl
    else if mode == "signal-init" then SignalPid1
    else Unsupported
  }

  function ValidatePoweroffMode(mode: string): Result
  {
    if mode in {"", "systemctl", "signal-init"} then Ok else Err(UnknownPoweroffMode)
  }

  function RunPoweroff(m: Machine, faults: Faults, mode: string): (Machine, Result)
  {
    match PoweroffFor(mode)
    case Systemctl =>
      var (next, ok) := RunCommand(m, faults, SystemctlCmd, ["poweroff"]);
      (next, if ok then Ok else Err(PoweroffFailed))
    case SignalPid1 =>
      var (next, ok) := SignalInit(m, faults);
      (next, if ok then Ok else Err(PoweroffFailed))
    case Unsupported => (m, ValidatePoweroffMode(mode))
  }

  /** The machine and the result after one uninterrupted Execute. */
  function ShutDown(m: Machine, faults: Faults, tracked: seq<MountPayload>, mode: string): (Machine, Result)
  {
    RunPoweroff(RunCommand(Teardown(m, faults, tracked), faults, SyncCmd, []).0, faults, mode)
  }

  const DEFAULT_REASON := "host requested shutdown"

  function Reason(payload: Option<ShutdownPayload>): string
  {
    if payload.Some? && payload.value.reason != "" then payload.value.reason else DEFAULT_REASON
  }

  class ShutdownCoordinator {
    const mounts: MountManager
    const lifecycle: LifecycleManager
    const mode: string

    constructor (mounts: MountManager, lifecycle: LifecycleManager, mode: string)
      ensures this.mounts == mounts && this.lifecycle == lifecycle && this.mode == mode
    {
      this.mounts := mounts;
      this.lifecycle := lifecycle;
      this.mode := mode;
    }

    method Execute(payload: Option<ShutdownPayload>) returns (r: Result)
      modifies lifecycle`state, lifecycle`message, lifecycle.vsockSend, mounts, mounts.commander
      ensures lifecycle.state == Shutdown && lifecycle.message == Reason(payload)
      ensures lifecycle.vsockSend != null ==>
        lifecycle.vsockSend.received
        == old(lifecycle.vsockSend.received) + [LifecyclePayload(Shutdown, Reason(payload))]
      ensures mounts.mounts == []
      ensures (mounts.commander.machine, r)
        == ShutDown(old(mounts.commander.machine), mounts.commander.faults, old(mounts.mounts), mode)
    {
      var reason := DEFAULT_REASON;
      if payload.Some? && payload.value.reason != "" {
        reason := payload.value.reason;
      }
      lifecycle.Transition(Shutdown, reason);
      mounts.UnmountAll();
      var _ := mounts.commander.Run(SyncCmd, []);
      r := PowerOff();
    }

    method PowerOff() returns (r: Result)
      modifies mounts.commander
      ensures (mounts.commander.machine, r)
        == RunPoweroff(old(mounts.commander.machine), mounts.commander.faults, mode)
    {
      match PoweroffFor(mode)
      case Systemctl =>
        var ok := mounts.commander.Run(SystemctlCmd, ["poweroff"]);
        r := if ok then Ok else Err(PoweroffFailed);
      case SignalPid1 =>
        var ok := mounts.commander.KillPid1();
        r := if ok then Ok else Err(PoweroffFailed);
      case Unsupported =>
        r := ValidatePoweroffMode(mode);
    }
  }

  // ----- What every shutdown does -----------------------------------------------------

  function PoweroffPlan(mode: string): seq<Request>
  {
    match PoweroffFor(mode)
    case Systemctl => [Command(SystemctlCmd, ["poweroff"])]
    case SignalPid1 => [TermInit]
    case Unsupported => []
  }

  /** The requests of a shutdown: all tracked mounts backwards, one sync, one power-off. */
  function ShutdownPlan(tracked: seq<MountPayload>, mode: string): seq<Request>
  {
    UmountPlan(tracked) + [Command(SyncCmd, [])] + PoweroffPlan(mode)
  }

  /** Whatever commands fail, a shutdown issues the same requests in the same order. */
  lemma ShutdownIssuesPlan(m: Machine, faults: Faults, tracked: seq<MountPayload>, mode: string)
    ensures Issued(ShutDown(m, faults, tracked, mode).0.log) == Issued(m.log) + ShutdownPlan(tracked, mode)
  {
    hide RunCommand, Teardown, UmountPlan, Issued;
    var torn := Teardown(m, faults, tracked);
    var (synced, ok) := RunCommand(torn, faults, SyncCmd, []);
    TeardownCommands(m, faults, tracked);
    IssuedAppend(torn.log, Ran(SyncCmd, [], ok));
    match PoweroffFor(mode)
    case Systemctl =>
      var (_, off) := RunCommand(synced, faults, SystemctlCmd, ["poweroff"]);
      IssuedAppend(synced.log, Ran(SystemctlCmd, ["poweroff"], off));
    case SignalPid1 =>
      IssuedAppend(synced.log, Signalled(!faults(|synced.log|)));
    case Unsupported =>
  }

  /** How a shutdown ends, by the configured mode: with `systemctl poweroff` for "" and
      "systemctl", with SIGTERM to process 1 for "signal-init", and with the sync for any other
      mode. These last requests leave the mount table as the umounts left it. */
  lemma LastRequest(m: Machine, faults: Faults, tracked: seq<MountPayload>, mode: string)
    ensures var end := ShutDown(m, faults, tracked, mode).0;
      && end.table == Teardown(m, faults, tracked).table
      && |end.log| == |m.log| + |tracked| + (if mode in {"", "systemctl", "signal-init"} then 2 else 1)
      && var issued := Issued(end.log);
        && issued[|m.log| + |tracked|] == Command(SyncCmd, [])
        && (Last(issued) == Command(SystemctlCmd, ["poweroff"]) <==> mode in {"", "systemctl"})
        && (Last(issued) == TermInit <==> mode == "signal-init")
        && (Last(issued) == Command(SyncCmd, []) <==> mode !in {"", "systemctl", "signal-init"})
  {
    OneEventPerUmount(m, faults, tracked);
    ShutdownIssuesPlan(m, faults, tracked, mode);
    hide Teardown, UmountPlan;
    var end := ShutDown(m, faults, tracked, mode).0;
    assert |Issued(end.log)| == |end.log|;
  }

  /** The same for the plan itself. */
  lemma PlanEnds(tracked: seq<MountPayload>, mode: string)
    ensures var plan := ShutdownPlan(tracked, mode);
      && |plan| == |tracked| + (if mode in {"", "systemctl", "signal-init"} then 2 else 1)
      && plan[|tracked|] == Command(SyncCmd, [])
      && plan[|tracked| + 1..] ==
        if mode in {"", "systemctl"} then [Command(SystemctlCmd, ["poweroff"])]
        else if mode == "signal-init" then [TermInit] else []
  {
  }

  /** The reason a shutdown is announced with is the payload's own, if it has one. */
  lemma ReasonMeaning(payload: Option<ShutdownPayload>)
    ensures Reason(payload) == "host requested shutdown"
      || (payload.Some? && Reason(payload) == payload.value.reason)
    ensures payload.Some? && payload.value.reason != "" ==> Reason(payload) == payload.value.reason
    ensures Reason(payload) != ""
  {
  }

  /** A shutdown reports an error exactly when its power-off step fails: the mode is not
      supported, or the command after the umounts and the sync fails. No umount and no sync
      failure shows in the result. */
  lemma ErrorIffPoweroffFails(m: Machine, faults: Faults, tracked: seq<MountPayload>, mode: string)
    ensures ShutDown(m, faults, tracked, mode).1 == Err(UnknownPoweroffMode)
      <==> mode !in {"", "systemctl", "signal-init"}
    ensures ShutDown(m, faults, tracked, mode).1.Ok?
      <==> mode in {"", "systemctl", "signal-init"} && !faults(|m.log| + |tracked| + 1)
  {
    OneEventPerUmount(m, faults, tracked);
    hide Teardown, UmountPlan, Issued;
  }

  lemma OneEventPerUmount(m: Machine, faults: Faults, tracked: seq<MountPayload>)
    ensures |Teardown(m, faults, tracked).log| == |m.log| + |tracked|
  {
    hide Teardown, UmountPlan, Issued;
    TeardownCommands(m, faults, tracked);
    assert |Issued(Teardown(m, faults, tracked).log)| == |Issued(m.log)| + |UmountPlan(tracked)|;
  }
}
