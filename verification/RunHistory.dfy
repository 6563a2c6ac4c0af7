/** What each thread announces over every run of the daemon, in which order and with which
    words, and how Run ends. */
module RunHistory {
  import opened Basics
  import opened Protocol
  import opened DaemonSteps

  datatype Told = Told(target: LifecycleState, message: string)

  /** The transitions of one thread, in order. */
  function ToldBy(made: seq<Change>, who: Thread): seq<Told>
    decreases |made|
  {
    if made == [] then []
    else
      var c := Last(made);
      ToldBy(Init(made), who) + (if c.who == who then [Told(c.target, c.message)] else [])
  }

  lemma ToldAppend(made: seq<Change>, c: Change, who: Thread)
    ensures ToldBy(made + [c], who)
      == if c.who == who then ToldBy(made, who) + [Told(c.target, c.message)] else ToldBy(made, who)
  {
    assert Init(made + [c]) == made;
    assert ToldBy(made, who) + [] == ToldBy(made, who);
  }

  const BOOTED := Told(Booting, "runtime directories ready")
  const STARTED := Told(Ready, "all subsystems started")
  const STOPPING := Told(Shutdown, "shutting down")

  /** The transitions of Run at each of its positions. */
  predicate RunTold(pc: MainPc, told: seq<Told>)
  {
    match pc
    case MakeDirs => told == []
    case SetBooting => told == []
    case SendBooting => told == [BOOTED]
    case Listen => told == [BOOTED]
    case StartServer => told == [BOOTED]
    case StartIpc => told == [BOOTED]
    case StartPoller => told == [BOOTED]
    case SetReady => told == [BOOTED]
    case SendReady => told == [BOOTED, STARTED]
    case Select => told == [BOOTED, STARTED]
    case SetStopping => told == [BOOTED, STARTED]
    case SendStopping => told == [BOOTED, STARTED, STOPPING]
    case CloseIpc => told == [BOOTED, STARTED, STOPPING]
    case Finished(ok) => told == if ok then [BOOTED, STARTED, STOPPING] else [BOOTED, STARTED]
    case Aborted => told == [] || told == [BOOTED]
  }

  /** The transitions of a shutdown goroutine: one, with its reason, once it has begun. */
  ghost predicate ShutTold(d: Downs, id: nat, told: seq<Told>)
  {
    told == if id < |d.shuts| && !d.shuts[id].pc.SetShutdown? then [Told(Shutdown, d.shuts[id].reason)] else []
  }

  ghost predicate PollTold(told: seq<Told>)
  {
    forall i :: 0 <= i < |told| ==> told[i] == Told(Healthy, "agents running")
  }

  ghost predicate Inv(s: State)
  {
    && RunTold(s.main, ToldBy(s.life.made, MainThread))
    && PollTold(ToldBy(s.life.made, PollThread))
    && (forall id: nat :: ShutTold(s.downs, id, ToldBy(s.life.made, ShutThread(id))))
  }

  lemma SetTells(l: Life, who: Thread, target: LifecycleState, message: string, other: Thread)
    ensures ToldBy(Set(l, who, target, message).made, other)
      == if who == other then ToldBy(l.made, other) + [Told(target, message)] else ToldBy(l.made, other)
  {
    hide ToldBy;
    ToldAppend(l.made, ChangeNow(l, who, target, message), other);
  }

  lemma MainTells(s: State)
    requires Inv(s)
    ensures Inv(DoMain(s))
  {
    hide ToldBy, Set, Send;
    forall other
      ensures ToldBy(DoMain(s).life.made, other) == ToldBy(s.life.made, other)
        + (if other != MainThread then []
           else if s.main.SetBooting? then [BOOTED]
           else if s.main.SetReady? then [STARTED]
           else if s.main.SetStopping? then [STOPPING] else [])
    {
      MainLifeTells(s.life, s.main, other);
    }
  }

  lemma MainLifeTells(l: Life, pc: MainPc, other: Thread)
    ensures ToldBy(MainLife(l, pc).made, other) == ToldBy(l.made, other)
      + (if other != MainThread then []
         else if pc.SetBooting? then [BOOTED]
         else if pc.SetReady? then [STARTED]
         else if pc.SetStopping? then [STOPPING] else [])
  {
    hide ToldBy;
    SetTells(l, MainThread, Booting, "runtime directories ready", other);
    SetTells(l, MainThread, Ready, "all subsystems started", other);
    SetTells(l, MainThread, Shutdown, "shutting down", other);
    assert ToldBy(l.made, other) + [] == ToldBy(l.made, other);
  }

  lemma PollTells(mode: string, s: State)
    requires Inv(s) && !s.downs.panicked
    ensures Inv(Do(mode, s, PollNext))
  {
    hide ToldBy, Set, Send, RunTold, NextPoll;
    if s.poll.Promoting? {
      forall other
        ensures ToldBy(Do(mode, s, PollNext).life.made, other)
          == if other == PollThread then ToldBy(s.life.made, other) + [Told(Healthy, "agents running")]
             else ToldBy(s.life.made, other)
      {
        SetTells(s.life, PollThread, Healthy, "agents running", other);
      }
    } else {
      PollIsSilent(s.life, s.poll);
    }
  }

  lemma PollIsSilent(l: Life, pc: PollPc)
    requires !pc.Promoting?
    ensures PollLife(l, pc).made == l.made
  {
  }

  lemma ShutTells(mode: string, s: State, id: nat)
    requires Inv(s) && !s.downs.panicked && id < |s.downs.shuts|
    ensures Inv(Do(mode, s, ShutNext(id)))
  {
    hide ToldBy, Set, Send, RunTold, WhatNow, Acts;
    var g, next := s.downs.shuts[id], Do(mode, s, ShutNext(id));
    ShutMoves(mode, s.downs, id);
    forall other
      ensures ToldBy(next.life.made, other)
        == if other == ShutThread(id) && g.pc.SetShutdown?
           then ToldBy(s.life.made, other) + [Told(Shutdown, g.reason)]
           else ToldBy(s.life.made, other)
    {
      SetTells(s.life, ShutThread(id), Shutdown, g.reason, other);
      ShutIsSilent(s.life, g, id);
    }
    hide DoShut, ShutLife;
    forall k: nat
      ensures ShutTold(next.downs, k, ToldBy(next.life.made, ShutThread(k)))
    {
      assert ShutTold(s.downs, k, ToldBy(s.life.made, ShutThread(k)));
    }
  }

  lemma ShutIsSilent(l: Life, g: Shutter, id: nat)
    ensures !g.pc.SetShutdown? ==> ShutLife(l, g, id).made == l.made
    ensures g.pc.SetShutdown? ==> ShutLife(l, g, id) == Set(l, ShutThread(id), Shutdown, g.reason)
  {
    hide Set;
  }

  lemma ShutMoves(mode: string, d: Downs, id: nat)
    requires id < |d.shuts|
    ensures var next := DoShut(mode, d, id);
      && |next.shuts| == |d.shuts|
      && (forall k: nat :: k < |d.shuts| && k != id ==> next.shuts[k] == d.shuts[k])
      && next.shuts[id].reason == d.shuts[id].reason && !next.shuts[id].pc.SetShutdown?
  {
    hide WhatNow, Acts;
  }

  lemma OthersTellNothing(mode: string, s: State, step: Step)
    requires Inv(s) && !step.MainNext? && !step.PollNext? && !step.ShutNext?
    ensures Inv(Take(mode, s, step))
  {
    hide ToldBy, PollTold, DoSelect;
    var next := Take(mode, s, step);
    assert next.life.made == s.life.made by { OthersMakeNothing(mode, s, step); }
    if step.MainSelects? {
      SelectMeaning(s, step.branch);
    }
    forall k: nat
      ensures ShutTold(next.downs, k, ToldBy(next.life.made, ShutThread(k)))
    {
      assert ShutTold(s.downs, k, ToldBy(s.life.made, ShutThread(k)));
    }
  }

  lemma OthersMakeNothing(mode: string, s: State, step: Step)
    requires !step.MainNext? && !step.PollNext? && !step.ShutNext?
    ensures Take(mode, s, step).life.made == s.life.made
  {
    hide Spawn;
  }

  /** Which way Run's select goes: to the shutdown transition for a cancelled context or a closed
      channel, and out with an error, without a transition, for a failed server. */
  lemma SelectMeaning(s: State, branch: Branch)
    ensures var next := DoSelect(s, branch);
      && next == s.(main := next.main)
      && (next.main != s.main <==>
            && s.main == Select
            && match branch
               case OnCancel => s.cancelled
               case OnRequest => s.downs.closes > 0
               case OnServerError => s.serverFailed)
      && (next.main != s.main ==> next.main == if branch.OnServerError? then Finished(false) else SetStopping)
  {
  }

  lemma StepKeeps(mode: string, s: State, step: Step)
    requires Inv(s)
    ensures Inv(Do(mode, s, step))
  {
    hide Inv, DoMain, PollLife, NextPoll, ShutLife, DoShut;
    if s.downs.panicked { return; }
    match step
    case MainNext => MainTells(s);
    case PollNext => PollTells(mode, s);
    case ShutNext(id) =>
      if id < |s.downs.shuts| {
        ShutTells(mode, s, id);
      }
    case _ => OthersTellNothing(mode, s, step);
  }

  lemma {:induction false} EveryRun(mode: string, sender: bool, steps: seq<Step>)
    ensures Inv(After(mode, Start(sender), steps))
    decreases |steps|
  {
    hide Do;
    if steps != [] {
      EveryRun(mode, sender, Init(steps));
      StepKeeps(mode, After(mode, Start(sender), Init(steps)), Last(steps));
    }
  }

  /** In every run: Run has made its transitions in the order booting, ready, shutdown, each once
      and with its own message, as far as it has come; the shutdown transition stands at the
      end of every run that returns without an error, and of no other. */
  lemma RunAnnounces(mode: string, sender: bool, steps: seq<Step>)
    ensures var s := After(mode, Start(sender), steps);
      var told := ToldBy(s.life.made, MainThread);
      var all := [Told(Booting, "runtime directories ready"), Told(Ready, "all subsystems started"),
                  Told(Shutdown, "shutting down")];
      && told <= all
      && (s.main.SendStopping? || s.main.CloseIpc? || s.main == Finished(true) <==> told == all)
      && (s.main.SendReady? || s.main.Select? || s.main.SetStopping? || s.main == Finished(false)
          <==> told == all[..2])
  {
    hide After, ToldBy;
    EveryRun(mode, sender, steps);
  }

  /** In every run: the poller announces only that agents are running, and a shutdown goroutine
      announces the shutdown once, with its own reason. */
  lemma OthersAnnounce(mode: string, sender: bool, steps: seq<Step>, id: nat)
    ensures var s := After(mode, Start(sender), steps);
      && (forall told :: told in ToldBy(s.life.made, PollThread) ==> told == Told(Healthy, "agents running"))
      && ToldBy(s.life.made, ShutThread(id))
        == if id < |s.downs.shuts| && !s.downs.shuts[id].pc.SetShutdown?
           then [Told(Shutdown, s.downs.shuts[id].reason)] else []
  {
    hide After, ToldBy;
    EveryRun(mode, sender, steps);
    var s := After(mode, Start(sender), steps);
    assert ShutTold(s.downs, id, ToldBy(s.life.made, ShutThread(id)));
  }

  lemma LastTold(made: seq<Change>)
    requires made != []
    ensures ToldBy(made, Last(made).who) != []
    ensures Last(ToldBy(made, Last(made).who)) == Told(Last(made).target, Last(made).message)
  {
  }

  /** Once Run has returned without an error, the state is `shutdown`, unless the poller has
      promoted the instance since. */
  lemma RunEndsShutDown(mode: string, sender: bool, steps: seq<Step>)
    requires After(mode, Start(sender), steps).main == Finished(true)
    ensures var l := After(mode, Start(sender), steps).life;
      && l.made != []
      && (l.state == Shutdown <==> Last(l.made).who != PollThread)
      && (l.state != Shutdown ==> l.state == Healthy)
  {
    hide After, ToldBy;
    var l := After(mode, Start(sender), steps).life;
    EveryRun(mode, sender, steps);
    ReachableInv(mode, sender, steps);
    assert ToldBy([], MainThread) == [] by { NothingTold(); }
    LastTold(l.made);
    match Last(l.made).who
    case MainThread =>
    case PollThread =>
    case ShutThread(id) =>
      var d := After(mode, Start(sender), steps).downs;
      assert ShutTold(d, id, ToldBy(l.made, ShutThread(id)));
  }

  lemma NothingTold()
    ensures ToldBy([], MainThread) == []
  {
  }

  /** From its select on, Run returns: with a cancelled context or a closed channel by way of the
      shutdown transition, with a failed server with an error. */
  lemma RunReturns(mode: string, s: State, branch: Branch)
    requires s.main.Select? && !s.downs.panicked
    requires match branch
      case OnCancel => s.cancelled
      case OnRequest => s.downs.closes > 0
      case OnServerError => s.serverFailed
    ensures var chosen := Do(mode, s, MainSelects(branch));
      if branch.OnServerError? then chosen.main == Finished(false) && chosen.life == s.life
      else
        var sent := Do(mode, Do(mode, chosen, MainNext), MainNext);
        var t := Do(mode, sent, MainNext);
        && sent.main == CloseIpc && MainThread !in sent.life.inflight
        && t.main == Finished(true) && t.ipcClosed && t.life.state == Shutdown
        && ToldBy(t.life.made, MainThread) == ToldBy(s.life.made, MainThread) + [Told(Shutdown, "shutting down")]
  {
    SelectMeaning(s, branch);
    SetTells(s.life, MainThread, Shutdown, "shutting down", MainThread);
    hide ToldBy, DoSelect;
  }

  /** A request starts one more goroutine with the reason of its payload, or the default one for
      an empty reason; before the daemon serves it starts none. */
  lemma RequestMeaning(mode: string, s: State, reason: string)
    requires !s.downs.panicked
    ensures var next := Do(mode, s, RequestShutdown(reason));
      if !s.serving then next == s
      else
        && next == s.(downs := next.downs) && next.downs == s.downs.(shuts := next.downs.shuts)
        && |next.downs.shuts| == |s.downs.shuts| + 1 && s.downs.shuts <= next.downs.shuts
        && Last(next.downs.shuts).pc == SetShutdown
        && Last(next.downs.shuts).reason == if reason == "" then "host requested shutdown" else reason
  {
  }

  /** Run gives up only where the directories or the listener can fail. */
  lemma FailMeaning(mode: string, s: State)
    requires !s.downs.panicked
    ensures var next := Do(mode, s, MainFails);
      next == if s.main == MakeDirs || s.main == Listen then s.(main := Aborted) else s
  {
  }

  /** What the surroundings must have done before a thread ends or begins. */
  ghost predicate Facts(s: State)
  {
    && (s.main == Finished(false) ==> s.serverFailed)
    && (s.poll.Stopped? ==> s.cancelled)
    && (s.poll.NotStarted? <==> BeforeServing(s.main) || s.main.StartIpc? || s.main.StartPoller?)
    && (s.serving <==> !BeforeServing(s.main))
    && (s.serverFailed ==> s.serving)
    && (s.ipcClosed <==> s.main == Finished(true))
  }

  lemma StepKeepsFacts(mode: string, s: State, step: Step)
    requires Facts(s)
    ensures Facts(Do(mode, s, step))
  {
    hide DoShut, ShutLife, MainLife, PollLife, Spawn, HasRunning;
  }

  /** In every run: Run returns an error only for a failed server, the poller stops only for a
      cancelled context, and it has started when Run is past its start and not before; the HTTP
      surface is closed exactly when Run has returned without an error. */
  lemma {:induction false} EveryRunFacts(mode: string, sender: bool, steps: seq<Step>)
    ensures Facts(After(mode, Start(sender), steps))
    decreases |steps|
  {
    hide Do;
    if steps != [] {
      EveryRunFacts(mode, sender, Init(steps));
      StepKeepsFacts(mode, After(mode, Start(sender), Init(steps)), Last(steps));
    }
  }

  /** Run has come to its select, and nothing else has happened. */
  lemma BootToSelect(mode: string) returns (steps: seq<Step>, s: State)
    ensures s == After(mode, Start(false), steps)
    ensures s.main.Select? && s.serving && s.life.state == Ready && s.downs == Start(false).downs
  {
    hide After;
    steps, s := BootRun(mode);
    steps, s := GoMain(mode, Start(false), steps, s);
    steps, s := GoMain(mode, Start(false), steps, s);
  }

  /** Both ways out are taken by some run: after a cancellation Run returns nil with the state
      `shutdown`, and after the failure of a server it returns an error and leaves `ready`. */
  lemma RunCanReturn(mode: string) returns (cancelled: seq<Step>, failed: seq<Step>)
    ensures var s := After(mode, Start(false), cancelled);
      s.main == Finished(true) && s.cancelled && s.life.state == Shutdown && s.ipcClosed
    ensures var s := After(mode, Start(false), failed);
      s.main == Finished(false) && s.serverFailed && s.life.state == Ready && !s.ipcClosed
  {
    hide After;
    var s, t;
    cancelled, s := BootToSelect(mode);
    EveryRunFacts(mode, false, cancelled);
    failed, t := Go(mode, Start(false), cancelled, s, ServerFails);
    failed, t := Go(mode, Start(false), failed, t, MainSelects(OnServerError));
    cancelled, s := Go(mode, Start(false), cancelled, s, CancelContext);
    RunReturns(mode, s, OnCancel);
    cancelled, s := Go(mode, Start(false), cancelled, s, MainSelects(OnCancel));
    cancelled, s := Go(mode, Start(false), cancelled, s, MainNext);
    cancelled, s := Go(mode, Start(false), cancelled, s, MainNext);
    cancelled, s := Go(mode, Start(false), cancelled, s, MainNext);
  }
}
