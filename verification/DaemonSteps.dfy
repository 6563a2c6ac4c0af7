/** The daemon as a concurrent step system: Run, the agentd poller, and any number of
    shutdown goroutines started from either surface (pkg/stereosd.go, pkg/agentd.go,
    pkg/shutdown.go, pkg/ipc.go). A transition is two steps, the locked update and the
    unlocked send; the poller's test of the state and its transition are separate steps. */
module DaemonSteps {
  import opened Basics
  import opened Protocol
  import opened Machines
  import opened Mounts
  import Shutdowns

  datatype Thread = MainThread | PollThread | ShutThread(id: nat)

  /** One transition as made under the lock; `notify` says whether a sender was installed,
      and `agents` is the stored agent list at that moment. */
  datatype Change = Change(
    who: Thread, source: LifecycleState, target: LifecycleState, message: string,
    notify: bool, agents: seq<AgentStatus>)

  /** The lifecycle manager. `inflight` holds, per thread, an envelope captured and not yet
      sent; `made` and `sent` are the histories of transitions and of envelopes. */
  datatype Life = Life(
    state: LifecycleState,
    agents: seq<AgentStatus>,
    sender: bool,
    inflight: map<Thread, Change>,
    made: seq<Change>,
    sent: seq<Change>)

  datatype MainPc =
    | MakeDirs | SetBooting | SendBooting | Listen
    | StartServer | StartIpc | StartPoller
    | SetReady | SendReady | Select
    | SetStopping | SendStopping | CloseIpc
    | Finished(ok: bool)
    | Aborted

  datatype PollPc =
    | NotStarted
    | Resting
    | Replacing(fetched: seq<AgentStatus>)
    | Testing(fetched: seq<AgentStatus>)
    | Promoting(fetched: seq<AgentStatus>)
    | Telling
    | Stopped

  /** `Unmounting(left)`: the first `left` entries of the list are still to come. */
  datatype ShutPc =
    | SetShutdown | SendShutdown | StartUnmount
    | Unmounting(left: nat)
    | Syncing | PoweringOff
    | Requesting | Closing | Over

  /** A shutdown goroutine; `plan` is the list its unmount loop started from, and `visited`
      the entries that the loop has read since, in the order of the list. */
  datatype Shutter = Shutter(pc: ShutPc, reason: string, plan: seq<MountPayload>, visited: seq<MountPayload>)

  /** sync.Once: its function runs once, and later callers wait for it. */
  datatype Once = Fresh | Busy(id: nat) | Spent

  datatype What =
    | EnteredShutdown(reason: string)
    | LoopStarted(tracked: seq<MountPayload>)
    | Issue(request: Request)

  datatype Act = Act(who: nat, what: What)

  /** The shutdown goroutines, what they share, and the histories of their acts and of the
      closings of the channel. `panicked` says that a goroutine has read past the end of the
      tracked list, which ends the whole process. */
  datatype Downs = Downs(
    shuts: seq<Shutter>,
    tracked: seq<MountPayload>,
    once: Once,
    log: seq<Act>,
    closes: nat,
    panicked: bool)

  datatype State = State(
    life: Life,
    main: MainPc,
    poll: PollPc,
    downs: Downs,
    serving: bool,
    cancelled: bool,
    serverFailed: bool,
    ipcClosed: bool)

  datatype Branch = OnCancel | OnRequest | OnServerError

  datatype Step =
    | MainNext
    | MainFails
    | MainSelects(branch: Branch)
    | PollFetches(answer: Option<seq<AgentStatus>>)
    | PollNext
    | PollStops
    | RequestShutdown(reason: string)
    | ShutNext(id: nat)
    | Track(m: MountPayload)
    | CancelContext
    | ServerFails
    | InstallSender

  function Start(sender: bool): State
  {
    State(Life(Booting, [], sender, map[], [], []), MakeDirs, NotStarted,
          Downs([], [], Fresh, [], 0, false), false, false, false, false)
  }

  // ----- Transitions ------------------------------------------------------------------

  function ChangeNow(l: Life, who: Thread, target: LifecycleState, message: string): Change
  {
    Change(who, l.state, target, message, l.sender, l.agents)
  }

  /** The critical section of Transition. */
  function Set(l: Life, who: Thread, target: LifecycleState, message: string): Life
  {
    var c := ChangeNow(l, who, target, message);
    l.(state := target, inflight := if l.sender then l.inflight[who := c] else l.inflight, made := l.made + [c])
  }

  /** The rest of Transition, outside the lock. */
  function Send(l: Life, who: Thread): Life
  {
    if who in l.inflight then
      l.(sent := l.sent + [l.inflight[who]], inflight := l.inflight - {who})
    else l
  }

  // ----- Run --------------------------------------------------------------------------

  function NextMain(pc: MainPc): MainPc
  {
    match pc
    case MakeDirs => SetBooting
    case SetBooting => SendBooting
    case SendBooting => Listen
    case Listen => StartServer
    case StartServer => StartIpc
    case StartIpc => StartPoller
    case StartPoller => SetReady
    case SetReady => SendReady
    case SendReady => Select
    case SetStopping => SendStopping
    case SendStopping => CloseIpc
    case CloseIpc => Finished(true)
    case _ => pc
  }

  function MainLife(l: Life, pc: MainPc): Life
  {
    match pc
    case SetBooting => Set(l, MainThread, Booting, "runtime directories ready")
    case SetReady => Set(l, MainThread, Ready, "all subsystems started")
    case SetStopping => Set(l, MainThread, Shutdown, "shutting down")
    case SendBooting => Send(l, MainThread)
    case SendReady => Send(l, MainThread)
    case SendStopping => Send(l, MainThread)
    case _ => l
  }

  function DoMain(s: State): State
  {
    s.(life := MainLife(s.life, s.main),
       main := NextMain(s.main),
       poll := if s.main.StartPoller? then Resting else s.poll,
       serving := s.serving || s.main.StartServer?,
       ipcClosed := s.ipcClosed || s.main.CloseIpc?)
  }

  function DoSelect(s: State, branch: Branch): State
  {
    if !s.main.Select? then s
    else match branch
      case OnCancel => if s.cancelled then s.(main := SetStopping) else s
      case OnRequest => if s.downs.closes > 0 then s.(main := SetStopping) else s
      case OnServerError => if s.serverFailed then s.(main := Finished(false)) else s
  }

  // ----- The poller -------------------------------------------------------------------

  function NextPoll(l: Life, pc: PollPc): PollPc
  {
    match pc
    case Replacing(fetched) => if HasRunning(fetched) then Testing(fetched) else Resting
    case Testing(fetched) => if l.state == Ready then Promoting(fetched) else Resting
    case Promoting(_) => Telling
    case Telling => Resting
    case _ => pc
  }

  function PollLife(l: Life, pc: PollPc): Life
  {
    match pc
    case Replacing(fetched) => l.(agents := fetched)
    case Promoting(_) => Set(l, PollThread, Healthy, "agents running")
    case Telling => Send(l, PollThread)
    case _ => l
  }

  // ----- Shutdown goroutines ----------------------------------------------------------

  function ShutLife(l: Life, g: Shutter, id: nat): Life
  {
    match g.pc
    case SetShutdown => Set(l, ShutThread(id), Shutdown, g.reason)
    case SendShutdown => Send(l, ShutThread(id))
    case _ => l
  }

  function Acts(id: nat, whats: seq<What>): seq<Act>
  {
    if whats == [] then [] else [Act(id, whats[0])] + Acts(id, whats[1..])
  }

  function Issuing(requests: seq<Request>): (whats: seq<What>)
    ensures |whats| == |requests|
    ensures forall i :: 0 <= i < |requests| ==> whats[i] == Issue(requests[i])
  {
    seq(|requests|, i requires 0 <= i < |requests| => Issue(requests[i]))
  }

  /** The request a goroutine issues at its position, with the list it finds. */
  function RequestNow(mode: string, tracked: seq<MountPayload>, g: Shutter): (requests: seq<Request>)
    ensures |requests| <= 1
  {
    match g.pc
    case Unmounting(left) => if 0 < left <= |tracked| then [UmountOf(tracked[left - 1])] else []
    case Syncing => [Command(SyncCmd, [])]
    case PoweringOff => Shutdowns.PoweroffPlan(mode)
    case _ => []
  }

  function WhatNow(mode: string, tracked: seq<MountPayload>, g: Shutter): seq<What>
  {
    if g.pc.SetShutdown? then [EnteredShutdown(g.reason)]
    else if g.pc.StartUnmount? then [LoopStarted(tracked)]
    else Issuing(RequestNow(mode, tracked, g))
  }

  function NextShut(pc: ShutPc, once: Once): ShutPc
  {
    match pc
    case SetShutdown => SendShutdown
    case SendShutdown => StartUnmount
    case StartUnmount => pc
    case Unmounting(left) => if left > 0 then Unmounting(left - 1) else Syncing
    case Syncing => PoweringOff
    case PoweringOff => Requesting
    case Requesting => (
      match once
      case Fresh => Closing
      case Busy(_) => Requesting
      case Spent => Over)
    case Closing => Over
    case Over => Over
  }

  /** The goroutine after its next step, with the list and the Once it finds. */
  function Advanced(g: Shutter, tracked: seq<MountPayload>, once: Once): Shutter
  {
    if g.pc.StartUnmount? then Shutter(Unmounting(|tracked|), g.reason, tracked, [])
    else if g.pc.Unmounting? && 0 < g.pc.left <= |tracked| then
      g.(pc := NextShut(g.pc, once), visited := [tracked[g.pc.left - 1]] + g.visited)
    else g.(pc := NextShut(g.pc, once))
  }

  /** The loop body reads the list anew each time, by index. */
  predicate Panics(g: Shutter, tracked: seq<MountPayload>)
  {
    g.pc.Unmounting? && g.pc.left > |tracked|
  }

  function DoShut(mode: string, d: Downs, id: nat): Downs
    requires id < |d.shuts|
  {
    var g := d.shuts[id];
    if Panics(g, d.tracked) then d.(panicked := true)
    else
      Downs(
        d.shuts[id := Advanced(g, d.tracked, d.once)],
        if g.pc == Unmounting(0) then [] else d.tracked,
        if g.pc.Requesting? && d.once.Fresh? then Busy(id) else if g.pc.Closing? then Spent else d.once,
        d.log + Acts(id, WhatNow(mode, d.tracked, g)),
        if g.pc.Closing? then d.closes + 1 else d.closes,
        d.panicked)
  }

  // ----- The system -------------------------------------------------------------------

  /** One step of the system; a step that is not enabled changes nothing, and after a panic
      there are no more steps. */
  function Do(mode: string, s: State, step: Step): State
  {
    if s.downs.panicked then s else Take(mode, s, step)
  }

  function Take(mode: string, s: State, step: Step): State
  {
    match step
    case MainNext => DoMain(s)
    case MainFails => if s.main.MakeDirs? || s.main.Listen? then s.(main := Aborted) else s
    case MainSelects(branch) => DoSelect(s, branch)
    case PollFetches(answer) =>
      if s.poll.Resting? && answer.Some? then s.(poll := Replacing(answer.value)) else s
    case PollNext => s.(life := PollLife(s.life, s.poll), poll := NextPoll(s.life, s.poll))
    case PollStops => if s.poll.Resting? && s.cancelled then s.(poll := Stopped) else s
    case RequestShutdown(reason) => if s.serving then s.(downs := Spawn(s.downs, reason)) else s
    case ShutNext(id) =>
      if id < |s.downs.shuts| then
        s.(life := ShutLife(s.life, s.downs.shuts[id], id), downs := DoShut(mode, s.downs, id))
      else s
    case Track(m) => if s.serving then s.(downs := s.downs.(tracked := s.downs.tracked + [m])) else s
    case CancelContext => s.(cancelled := true)
    case ServerFails => if s.serving then s.(serverFailed := true) else s
    case InstallSender => s.(life := s.life.(sender := true))
  }

  /** Either surface starts one more shutdown goroutine. */
  function Spawn(d: Downs, reason: string): Downs
  {
    d.(shuts := d.shuts + [Shutter(SetShutdown, Shutdowns.Reason(Some(ShutdownPayload(reason))), [], [])])
  }

  function After(mode: string, s: State, steps: seq<Step>): State
    decreases |steps|
  {
    if steps == [] then s else Do(mode, After(mode, s, Init(steps)), Last(steps))
  }

  // ----- Reading a history of transitions ---------------------------------------------

  function CountTo(made: seq<Change>, target: LifecycleState): nat
    decreases |made|
  {
    if made == [] then 0 else CountTo(Init(made), target) + (if Last(made).target == target then 1 else 0)
  }

  predicate Leaves(c: Change)
  {
    c.source == Shutdown && c.target != Shutdown
  }

  /** How often `who` takes the state out of shutdown. */
  function LeavesBy(made: seq<Change>, who: Thread): nat
    decreases |made|
  {
    if made == [] then 0
    else LeavesBy(Init(made), who) + (if Last(made).who == who && Leaves(Last(made)) then 1 else 0)
  }

  function LeavesTotal(made: seq<Change>): nat
    decreases |made|
  {
    if made == [] then 0 else LeavesTotal(Init(made)) + (if Leaves(Last(made)) then 1 else 0)
  }

  /** Who makes which transition. */
  predicate InCharacter(c: Change)
  {
    match c.who
    case MainThread =>
      c.target == Ready || c.target == Shutdown || (c.target == Booting && c.source == Booting)
    case PollThread => c.target == Healthy
    case ShutThread(_) => c.target == Shutdown
  }

  /** The transition that enters `healthy` is the poller's, follows a `ready`, and stores
      nothing but the list that poll fetched, which has a running agent. */
  ghost predicate HealthyJustified(made: seq<Change>, j: nat)
    requires j < |made|
  {
    made[j].target == Healthy ==>
      made[j].who == PollThread && HasRunning(made[j].agents) && CountTo(made[..j], Ready) >= 1
  }

  // ----- The invariant on states ------------------------------------------------------

  predicate BeforeServing(pc: MainPc)
  {
    pc.MakeDirs? || pc.SetBooting? || pc.SendBooting? || pc.Listen? || pc.StartServer? || pc.Aborted?
  }

  predicate PastReady(pc: MainPc)
  {
    pc.SendReady? || pc.Select? || pc.SetStopping? || pc.SendStopping? || pc.CloseIpc? || pc.Finished?
  }

  ghost predicate MadeInv(made: seq<Change>)
  {
    && (forall i :: 0 <= i < |made| ==> InCharacter(made[i]))
    && (forall j :: 0 <= j < |made| ==> HealthyJustified(made, j))
  }

  /** The history fits the positions of Run and of the poller. */
  ghost predicate LifeInv(l: Life, main: MainPc, poll: PollPc)
  {
    && MadeInv(l.made)
    && l.state == (if l.made == [] then Booting else Last(l.made).target)
    && CountTo(l.made, Ready) == (if PastReady(main) then 1 else 0)
    && CountTo(l.made, Healthy) <= CountTo(l.made, Ready)
    && (l.state == Ready || poll.Promoting? ==> CountTo(l.made, Ready) == 1 && CountTo(l.made, Healthy) == 0)
    && (poll.Testing? || poll.Promoting? ==> l.agents == poll.fetched && HasRunning(l.agents))
  }

  ghost predicate StateInv(s: State)
  {
    && LifeInv(s.life, s.main, s.poll)
    && (s.serving <==> !BeforeServing(s.main))
    && (!s.serving ==> s.downs.shuts == [] && s.life.state == Booting)
    && (BeforeServing(s.main) || s.main.StartIpc? || s.main.StartPoller? ==> s.poll.NotStarted?)
  }

  lemma CountAppend(made: seq<Change>, c: Change, target: LifecycleState)
    ensures CountTo(made + [c], target) == CountTo(made, target) + (if c.target == target then 1 else 0)
  {
    assert Init(made + [c]) == made;
  }

  lemma SetKeeps(l: Life, who: Thread, target: LifecycleState, message: string)
    requires MadeInv(l.made) && InCharacter(ChangeNow(l, who, target, message))
    requires target == Healthy ==> HasRunning(l.agents) && CountTo(l.made, Ready) >= 1
    ensures var made := Set(l, who, target, message).made;
      && MadeInv(made)
      && made != [] && Last(made).target == target
      && CountTo(made, Ready) == CountTo(l.made, Ready) + (if target == Ready then 1 else 0)
      && CountTo(made, Healthy) == CountTo(l.made, Healthy) + (if target == Healthy then 1 else 0)
  {
    var c := ChangeNow(l, who, target, message);
    CountAppend(l.made, c, Ready);
    CountAppend(l.made, c, Healthy);
    forall j | 0 <= j < |l.made| + 1
      ensures HealthyJustified(l.made + [c], j)
    {
      assert (l.made + [c])[..j] == l.made[..j];
      assert l.made[..|l.made|] == l.made;
      assert j < |l.made| ==> HealthyJustified(l.made, j);
    }
  }

  lemma MainKeepsLife(l: Life, main: MainPc, poll: PollPc)
    requires LifeInv(l, main, poll) && !main.StartPoller?
    requires main.SetBooting? ==> l.state == Booting && !poll.Promoting?
    ensures LifeInv(MainLife(l, main), NextMain(main), poll)
  {
    hide MadeInv, CountTo, HasRunning;
    match main
    case SetBooting => SetKeeps(l, MainThread, Booting, "runtime directories ready");
    case SetReady => SetKeeps(l, MainThread, Ready, "all subsystems started");
    case SetStopping => SetKeeps(l, MainThread, Shutdown, "shutting down");
    case _ =>
  }

  lemma PollKeepsLife(l: Life, main: MainPc, poll: PollPc)
    requires LifeInv(l, main, poll)
    ensures LifeInv(PollLife(l, poll), main, NextPoll(l, poll))
  {
    if poll.Promoting? {
      SetKeeps(l, PollThread, Healthy, "agents running");
    }
  }

  lemma ShutKeepsLife(l: Life, main: MainPc, poll: PollPc, g: Shutter, id: nat)
    requires LifeInv(l, main, poll)
    ensures LifeInv(ShutLife(l, g, id), main, poll)
  {
    if g.pc.SetShutdown? {
      SetKeeps(l, ShutThread(id), Shutdown, g.reason);
    }
  }

  lemma MainKeepsState(s: State)
    requires StateInv(s)
    ensures StateInv(DoMain(s))
  {
    hide MadeInv, CountTo, HasRunning;
    if !s.main.StartPoller? {
      MainKeepsLife(s.life, s.main, s.poll);
    }
  }

  lemma PollKeepsState(mode: string, s: State)
    requires StateInv(s)
    ensures StateInv(Take(mode, s, PollNext))
  {
    hide LifeInv, Set, Send;
    PollKeepsLife(s.life, s.main, s.poll);
  }

  lemma ShutKeepsState(mode: string, s: State, id: nat)
    requires StateInv(s) && id < |s.downs.shuts|
    ensures StateInv(Take(mode, s, ShutNext(id)))
  {
    hide LifeInv, DoShut, ShutLife;
    ShutKeepsLife(s.life, s.main, s.poll, s.downs.shuts[id], id);
  }

  lemma OtherKeepsState(mode: string, s: State, step: Step)
    requires StateInv(s) && !step.MainNext? && !step.PollNext? && !step.ShutNext?
    ensures StateInv(Take(mode, s, step))
  {
    hide MadeInv, CountTo, HasRunning;
  }

  lemma StepKeepsState(mode: string, s: State, step: Step)
    requires StateInv(s)
    ensures StateInv(Do(mode, s, step))
  {
    hide StateInv, DoMain, DoShut, PollLife, NextPoll, ShutLife;
    if s.downs.panicked { return; }
    match step
    case MainNext => MainKeepsState(s);
    case PollNext => PollKeepsState(mode, s);
    case ShutNext(id) =>
      if id < |s.downs.shuts| {
        ShutKeepsState(mode, s, id);
      }
    case _ => OtherKeepsState(mode, s, step);
  }

  lemma {:induction false} EveryRunState(mode: string, s: State, steps: seq<Step>)
    requires StateInv(s)
    ensures StateInv(After(mode, s, steps))
    decreases |steps|
  {
    if steps != [] {
      EveryRunState(mode, s, Init(steps));
      StepKeepsState(mode, After(mode, s, Init(steps)), Last(steps));
    }
  }

  lemma ReachableInv(mode: string, sender: bool, steps: seq<Step>)
    ensures StateInv(After(mode, Start(sender), steps))
  {
    hide Do;
    EveryRunState(mode, Start(sender), steps);
  }

  // ----- Ready, healthy and shutdown over every run -----------------------------------

  /** In every run `ready` is entered at most once, and `healthy` at most once; each entry of
      `healthy` follows `ready`, and the agent list stored then has a running agent. */
  lemma ReadyAndHealthyOnce(mode: string, sender: bool, steps: seq<Step>)
    ensures var made := After(mode, Start(sender), steps).life.made;
      && CountTo(made, Ready) <= 1 && CountTo(made, Healthy) <= 1
      && forall j :: 0 <= j < |made| ==> HealthyJustified(made, j)
  {
    ReachableInv(mode, sender, steps);
  }

  /** A promotion stores the list its own poll fetched. */
  lemma PromotionStoresFetched(mode: string, sender: bool, steps: seq<Step>)
    requires After(mode, Start(sender), steps).poll.Promoting?
    requires !After(mode, Start(sender), steps).downs.panicked
    ensures var s := After(mode, Start(sender), steps);
      var next := Do(mode, s, PollNext);
      && next.life.state == Healthy && next.life.agents == s.poll.fetched && HasRunning(s.poll.fetched)
      && Last(next.life.made).target == Healthy && Last(next.life.made).agents == s.poll.fetched
  {
    ReachableInv(mode, sender, steps);
  }

  lemma {:induction false} LeavesBounded(made: seq<Change>)
    requires forall i :: 0 <= i < |made| ==> InCharacter(made[i])
    ensures LeavesBy(made, MainThread) <= CountTo(made, Ready)
    ensures LeavesBy(made, PollThread) <= CountTo(made, Healthy)
    ensures LeavesTotal(made) == LeavesBy(made, MainThread) + LeavesBy(made, PollThread)
    decreases |made|
  {
    if made != [] {
      LeavesBounded(Init(made));
    }
  }

  /** In every interleaving the state leaves `shutdown` at most twice: at most once by Run,
      with its ready transition, and at most once by the poller, towards `healthy` and after
      `ready` had been entered. */
  lemma ShutdownLeftAtMostTwice(mode: string, sender: bool, steps: seq<Step>)
    ensures var made := After(mode, Start(sender), steps).life.made;
      && LeavesBy(made, MainThread) <= 1 && LeavesBy(made, PollThread) <= 1
      && LeavesTotal(made) == LeavesBy(made, MainThread) + LeavesBy(made, PollThread)
      && forall j :: 0 <= j < |made| && Leaves(made[j]) ==> LeavesAs(made, j)
  {
    hide MadeInv, Leaves;
    var made := After(mode, Start(sender), steps).life.made;
    ReachableInv(mode, sender, steps);
    OnlyInCharacter(made);
    LeavesBounded(made);
    forall j | 0 <= j < |made| && Leaves(made[j])
      ensures LeavesAs(made, j)
    {
      HowItLeaves(made, j);
    }
  }

  lemma OnlyInCharacter(made: seq<Change>)
    requires MadeInv(made)
    ensures forall i :: 0 <= i < |made| ==> InCharacter(made[i])
  {
  }

  /** `shutdown` is left by Run for `ready`, or by the poller for `healthy` after `ready` had
      been entered. */
  predicate LeavesAs(made: seq<Change>, j: nat)
    requires j < |made|
  {
    || (made[j].who == MainThread && made[j].target == Ready)
    || (made[j].who == PollThread && made[j].target == Healthy && CountTo(made[..j], Ready) == 1)
  }

  lemma HowItLeaves(made: seq<Change>, j: nat)
    requires MadeInv(made) && CountTo(made, Ready) <= 1
    requires j < |made| && Leaves(made[j])
    ensures LeavesAs(made, j)
  {
    CountOfPrefix(made, j, Ready);
    assert InCharacter(made[j]) && HealthyJustified(made, j);
  }

  lemma {:induction false} CountOfPrefix(made: seq<Change>, j: nat, target: LifecycleState)
    requires j <= |made|
    ensures CountTo(made[..j], target) <= CountTo(made, target)
    decreases |made|
  {
    if j == |made| {
      assert made[..j] == made;
    } else {
      CountOfPrefix(Init(made), j, target);
      assert Init(made)[..j] == made[..j];
    }
  }

  /** Step `k` of the run is a poller's look at the state, which was `ready`. */
  ghost predicate SawReadyAt(mode: string, sender: bool, steps: seq<Step>, fetched: seq<AgentStatus>, k: nat)
  {
    && k < |steps| && steps[k] == PollNext
    && var s := After(mode, Start(sender), steps[..k]);
      s.poll == Testing(fetched) && s.life.state == Ready
  }

  lemma PromotingBegins(mode: string, s: State, step: Step)
    requires Do(mode, s, step).poll.Promoting?
    ensures s.poll == Do(mode, s, step).poll
      || (step == PollNext && s.poll == Testing(Do(mode, s, step).poll.fetched) && s.life.state == Ready)
  {
    hide DoShut, ShutLife, PollLife, MainLife;
  }

  /** A poller about to promote the instance has seen `ready` at an earlier step of the run,
      with the list it still holds. */
  lemma {:induction false} PromoterSawReady(mode: string, sender: bool, steps: seq<Step>)
    requires After(mode, Start(sender), steps).poll.Promoting?
    ensures exists k: nat ::
      SawReadyAt(mode, sender, steps, After(mode, Start(sender), steps).poll.fetched, k)
    decreases |steps|
  {
    hide Do;
    var before := After(mode, Start(sender), Init(steps));
    var fetched := After(mode, Start(sender), steps).poll.fetched;
    PromotingBegins(mode, before, Last(steps));
    if before.poll.Promoting? {
      PromoterSawReady(mode, sender, Init(steps));
      var k: nat :| SawReadyAt(mode, sender, Init(steps), fetched, k);
      assert Init(steps)[..k] == steps[..k];
      assert SawReadyAt(mode, sender, steps, fetched, k);
    } else {
      assert SawReadyAt(mode, sender, steps, fetched, |steps| - 1);
    }
  }

  /** Nobody is left who would take the state out of shutdown: Run has made its ready
      transition or will not come to it, and no poller sits on an observation of `ready`; or
      the process has ended. */
  predicate Settled(s: State)
  {
    s.downs.panicked || ((PastReady(s.main) || s.main.Aborted?) && !s.poll.Promoting?)
  }

  lemma SettledStep(mode: string, s: State, step: Step)
    requires s.life.state == Shutdown && Settled(s)
    ensures Do(mode, s, step).life.state == Shutdown && Settled(Do(mode, s, step))
  {
    hide DoShut, Spawn, DoMain, ChangeNow;
    if step.MainNext? && !s.downs.panicked {
      SettledMain(s);
    }
  }

  lemma SettledMain(s: State)
    requires s.life.state == Shutdown && Settled(s) && !s.downs.panicked
    ensures DoMain(s).life.state == Shutdown && Settled(DoMain(s))
  {
    hide ChangeNow;
  }

  lemma {:induction false} SettledStays(mode: string, s: State, steps: seq<Step>)
    requires s.life.state == Shutdown && Settled(s)
    ensures After(mode, s, steps).life.state == Shutdown && Settled(After(mode, s, steps))
    decreases |steps|
  {
    if steps != [] {
      SettledStays(mode, s, Init(steps));
      SettledStep(mode, After(mode, s, Init(steps)), Last(steps));
    }
  }

  ghost predicate CanLeaveShutdown(mode: string, s: State)
  {
    exists steps :: After(mode, s, steps).life.state != Shutdown
  }

  lemma OneMore(mode: string, s: State, steps: seq<Step>, step: Step)
    ensures After(mode, s, steps + [step]) == Do(mode, After(mode, s, steps), step)
  {
    assert Init(steps + [step]) == steps;
  }

  lemma AfterNothing(mode: string, s: State)
    ensures After(mode, s, []) == s
  {
  }

  /** One more step of a run. */
  lemma Go(mode: string, s0: State, steps0: seq<Step>, s1: State, step: Step)
    returns (steps: seq<Step>, s: State)
    requires s1 == After(mode, s0, steps0)
    ensures s == After(mode, s0, steps) && s == Do(mode, s1, step)
  {
    hide Do;
    OneMore(mode, s0, steps0, step);
    steps, s := steps0 + [step], Do(mode, s1, step);
  }

  /** One more step of Run. */
  lemma GoMain(mode: string, s0: State, steps0: seq<Step>, s1: State)
    returns (steps: seq<Step>, s: State)
    requires s1 == After(mode, s0, steps0) && !s1.downs.panicked
    ensures s == After(mode, s0, steps) && s == DoMain(s1)
  {
    hide DoMain;
    steps, s := Go(mode, s0, steps0, s1, MainNext);
  }

  /** From the first served request on, Run comes to its ready transition by itself. */
  lemma RunToReady(mode: string, s: State) returns (steps: seq<Step>)
    requires !s.downs.panicked && (s.main.StartIpc? || s.main.StartPoller? || s.main.SetReady?)
    ensures After(mode, s, steps).life.state == Ready
  {
    hide After;
    AfterNothing(mode, s);
    var t;
    steps, t := GoMain(mode, s, [], s);
    if !s.main.SetReady? {
      steps, t := GoMain(mode, s, steps, t);
      if s.main.StartIpc? {
        steps, t := GoMain(mode, s, steps, t);
      }
    }
  }

  /** Shutdown is absorbing exactly from the settled states on: in every reachable state that
      is `shutdown`, some continuation leaves it iff the process is alive and Run is still
      before its ready transition or a poller's observation of `ready` is pending. */
  lemma AbsorbingIffSettled(mode: string, sender: bool, before: seq<Step>)
    requires After(mode, Start(sender), before).life.state == Shutdown
    ensures CanLeaveShutdown(mode, After(mode, Start(sender), before))
      <==> !Settled(After(mode, Start(sender), before))
  {
    var s := After(mode, Start(sender), before);
    ReachableInv(mode, sender, before);
    if Settled(s) {
      forall steps
        ensures After(mode, s, steps).life.state == Shutdown
      {
        SettledStays(mode, s, steps);
      }
    } else if s.poll.Promoting? {
      OneMore(mode, s, [], PollNext);
      assert After(mode, s, [PollNext]).life.state == Healthy;
    } else {
      var steps := RunToReady(mode, s);
      assert After(mode, s, steps).life.state != Shutdown;
    }
  }

  // ----- The bound is reached ---------------------------------------------------------

  function BootOrder(i: nat): MainPc
  {
    match i
    case 0 => MakeDirs
    case 1 => SetBooting
    case 2 => SendBooting
    case 3 => Listen
    case 4 => StartServer
    case 5 => StartIpc
    case 6 => StartPoller
    case _ => SetReady
  }

  /** Run has made `i` steps and nobody else any. */
  ghost predicate BootedTo(s: State, i: nat)
  {
    && s.main == BootOrder(i) && s.downs == Start(false).downs
    && s.serving == (i > 4) && (i == 7 ==> s.poll.Resting?)
    && s.life.state == Booting && !s.life.sender && LeavesTotal(s.life.made) == 0
    && s.life.inflight == map[] && s.life.sent == []
  }

  lemma BootStep(s: State, i: nat)
    requires BootedTo(s, i) && i < 7
    ensures BootedTo(DoMain(s), i + 1)
  {
    hide LeavesTotal;
    LeavesAppend(s.life.made, ChangeNow(s.life, MainThread, Booting, "runtime directories ready"));
  }

  /** Run has served since `StartServer` and comes to its ready transition. */
  lemma BootRun(mode: string) returns (steps: seq<Step>, s: State)
    ensures s == After(mode, Start(false), steps) && BootedTo(s, 7)
  {
    hide After, DoMain;
    AfterNothing(mode, Start(false));
    steps, s := [], Start(false);
    for i := 0 to 7
      invariant s == After(mode, Start(false), steps) && BootedTo(s, i)
    {
      BootStep(s, i);
      steps, s := GoMain(mode, Start(false), steps, s);
    }
  }

  lemma LeavesAppend(made: seq<Change>, c: Change)
    ensures LeavesTotal(made + [c]) == LeavesTotal(made) + (if Leaves(c) then 1 else 0)
  {
    assert Init(made + [c]) == made;
  }

  /** One more step of one shutdown goroutine. */
  lemma GoShut(mode: string, s0: State, steps0: seq<Step>, s1: State, id: nat)
    returns (steps: seq<Step>, s: State)
    requires s1 == After(mode, s0, steps0) && !s1.downs.panicked && id < |s1.downs.shuts|
    ensures s == After(mode, s0, steps)
    ensures s == s1.(life := ShutLife(s1.life, s1.downs.shuts[id], id), downs := DoShut(mode, s1.downs, id))
  {
    hide DoShut, ShutLife;
    steps, s := Go(mode, s0, steps0, s1, ShutNext(id));
  }

  /** One more request for a shutdown. */
  lemma GoRequest(mode: string, s0: State, steps0: seq<Step>, s1: State)
    returns (steps: seq<Step>, s: State)
    requires s1 == After(mode, s0, steps0) && !s1.downs.panicked && s1.serving
    ensures s == After(mode, s0, steps) && s == s1.(downs := Spawn(s1.downs, ""))
  {
    hide Spawn;
    steps, s := Go(mode, s0, steps0, s1, RequestShutdown(""));
  }

  /** One more tracked mount. */
  lemma GoTrack(mode: string, s0: State, steps0: seq<Step>, s1: State, m: MountPayload)
    returns (steps: seq<Step>, s: State)
    requires s1 == After(mode, s0, steps0) && !s1.downs.panicked && s1.serving
    ensures s == After(mode, s0, steps) && s == s1.(downs := s1.downs.(tracked := s1.downs.tracked + [m]))
  {
    steps, s := Go(mode, s0, steps0, s1, Track(m));
  }

  /** One more request whose goroutine makes its transition. */
  lemma ShutDownOnce(mode: string, s0: State, steps0: seq<Step>, s1: State)
    returns (steps: seq<Step>, s: State)
    requires s1 == After(mode, s0, steps0) && s1.serving && s1.life.state != Shutdown && !s1.downs.panicked
    ensures s == After(mode, s0, steps) && s.main == s1.main && s.poll == s1.poll && s.serving
    ensures !s.downs.panicked
    ensures s.life.state == Shutdown && LeavesTotal(s.life.made) == LeavesTotal(s1.life.made)
  {
    hide After;
    var id := |s1.downs.shuts|;
    steps, s := GoRequest(mode, s0, steps0, s1);
    LeavesAppend(s1.life.made, ChangeNow(s1.life, ShutThread(id), Shutdown, s.downs.shuts[id].reason));
    steps, s := GoShut(mode, s0, steps, s, id);
  }

  /** Run makes its ready transition out of `shutdown`. */
  lemma ReadyAfterShutdown(mode: string, s0: State, steps0: seq<Step>, s1: State)
    returns (steps: seq<Step>, s: State)
    requires s1 == After(mode, s0, steps0) && s1.main.SetReady?
    requires s1.life.state == Shutdown && !s1.downs.panicked
    ensures s == After(mode, s0, steps) && s.life.state == Ready && s.poll == s1.poll && s.serving == s1.serving
    ensures !s.downs.panicked && LeavesTotal(s.life.made) == LeavesTotal(s1.life.made) + 1
  {
    hide After;
    LeavesAppend(s1.life.made, ChangeNow(s1.life, MainThread, Ready, "all subsystems started"));
    steps, s := GoMain(mode, s0, steps0, s1);
  }

  /** One more step of a poll. */
  lemma GoPoll(mode: string, s0: State, steps0: seq<Step>, s1: State)
    returns (steps: seq<Step>, s: State)
    requires s1 == After(mode, s0, steps0) && !s1.downs.panicked
    ensures s == After(mode, s0, steps)
    ensures s == s1.(life := PollLife(s1.life, s1.poll), poll := NextPoll(s1.life, s1.poll))
  {
    hide PollLife, NextPoll;
    steps, s := Go(mode, s0, steps0, s1, PollNext);
  }

  /** A poll fetches one running agent and finds the state `ready`. */
  lemma PollSeesReady(mode: string, s0: State, steps0: seq<Step>, s1: State, agent: AgentStatus)
    returns (steps: seq<Step>, s: State)
    requires s1 == After(mode, s0, steps0) && s1.poll.Resting? && s1.life.state == Ready && agent.running
    requires !s1.downs.panicked
    ensures s == After(mode, s0, steps) && s.poll.Promoting? && s.serving == s1.serving && s.downs == s1.downs
    ensures s.life.state == Ready && s.life.made == s1.life.made
  {
    hide After;
    assert [agent][0].running;
    steps, s := Go(mode, s0, steps0, s1, PollFetches(Some([agent])));
    steps, s := GoPoll(mode, s0, steps, s);
    steps, s := GoPoll(mode, s0, steps, s);
  }

  /** The order booting, ready, healthy, shutdown is not kept by every run: one run leaves
      `shutdown` twice, and ends in `healthy` with two shutdowns under way. */
  lemma ShutdownCanBeLeftTwice(mode: string, agent: AgentStatus) returns (steps: seq<Step>)
    requires agent.running
    ensures var s := After(mode, Start(false), steps);
      LeavesTotal(s.life.made) == 2 && s.life.state == Healthy
  {
    hide After;
    var s0 := Start(false);
    var s;
    steps, s := BootRun(mode);
    steps, s := ShutDownOnce(mode, s0, steps, s);
    steps, s := ReadyAfterShutdown(mode, s0, steps, s);
    steps, s := PollSeesReady(mode, s0, steps, s, agent);
    steps, s := ShutDownOnce(mode, s0, steps, s);
    LeavesAppend(s.life.made, ChangeNow(s.life, PollThread, Healthy, "agents running"));
    steps, s := GoPoll(mode, s0, steps, s);
  }
}
