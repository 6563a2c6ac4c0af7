/** Lifecycle notifications over every run of the daemon: what is made under the lock is what
    is sent outside it, thread by thread, and no more. */
module Notifications {
  import opened Basics
  import opened Protocol
  import opened DaemonSteps
  import Shutdowns

  /** The changes of one thread, in order. */
  function Of(changes: seq<Change>, who: Thread): seq<Change>
    decreases |changes|
  {
    if changes == [] then []
    else Of(Init(changes), who) + (if Last(changes).who == who then [Last(changes)] else [])
  }

  /** The transitions that found a sender installed. */
  function Notified(made: seq<Change>): seq<Change>
    decreases |made|
  {
    if made == [] then [] else Notified(Init(made)) + (if Last(made).notify then [Last(made)] else [])
  }

  function Captured(l: Life, who: Thread): seq<Change>
  {
    if who in l.inflight then [l.inflight[who]] else []
  }

  /** The thread's sent envelopes, then the one it has in hand, are its notified transitions. */
  ghost predicate Kept(l: Life, who: Thread)
  {
    Of(l.sent, who) + Captured(l, who) == Of(Notified(l.made), who)
  }

  /** The thread stands between the two halves of a transition. */
  predicate Sending(s: State, who: Thread)
  {
    match who
    case MainThread => s.main.SendBooting? || s.main.SendReady? || s.main.SendStopping?
    case PollThread => s.poll.Telling?
    case ShutThread(id) => id < |s.downs.shuts| && s.downs.shuts[id].pc.SendShutdown?
  }

  ghost predicate LifeKept(l: Life)
  {
    && (forall who :: Kept(l, who))
    && (forall who :: who in l.inflight ==> l.inflight[who].who == who)
  }

  ghost predicate NoteInv(s: State)
  {
    LifeKept(s.life) && forall who :: who in s.life.inflight ==> Sending(s, who)
  }

  lemma OfAppend(changes: seq<Change>, c: Change, who: Thread)
    ensures Of(changes + [c], who) == Of(changes, who) + (if c.who == who then [c] else [])
  {
    assert Init(changes + [c]) == changes;
  }

  lemma NotifiedAppend(made: seq<Change>, c: Change)
    ensures Notified(made + [c]) == Notified(made) + (if c.notify then [c] else [])
  {
    assert Init(made + [c]) == made;
  }

  lemma SetKeepsOne(l: Life, who: Thread, target: LifecycleState, message: string, t: Thread)
    requires Kept(l, t) && who !in l.inflight
    ensures Kept(Set(l, who, target, message), t)
  {
    hide Of, Notified;
    var c, next := ChangeNow(l, who, target, message), Set(l, who, target, message);
    var told := Of(Notified(l.made), t);
    NotifiedAppend(l.made, c);
    OfAppend(Notified(l.made), c, t);
    assert Notified(l.made) + [] == Notified(l.made) && told + [] == told;
    if t == who {
      assert Captured(l, t) == [] && Of(l.sent, t) + [] == Of(l.sent, t);
    }
  }

  lemma SetKeepsNotes(l: Life, who: Thread, target: LifecycleState, message: string)
    requires LifeKept(l) && who !in l.inflight
    ensures LifeKept(Set(l, who, target, message))
    ensures Set(l, who, target, message).inflight.Keys <= l.inflight.Keys + {who}
  {
    hide Kept;
    forall t
      ensures Kept(Set(l, who, target, message), t)
    {
      SetKeepsOne(l, who, target, message, t);
    }
  }

  lemma SendKeepsOne(l: Life, who: Thread, t: Thread)
    requires Kept(l, t) && who in l.inflight && l.inflight[who].who == who
    ensures Kept(Send(l, who), t)
  {
    hide Of, Notified;
    OfAppend(l.sent, l.inflight[who], t);
    assert t != who ==> Captured(Send(l, who), t) == Captured(l, t);
    var sent := Of(l.sent, t);
    assert t == who ==> sent + [l.inflight[who]] + [] == sent + [l.inflight[who]];
    assert sent + [] == sent;
  }

  lemma SendKeepsNotes(l: Life, who: Thread)
    requires LifeKept(l)
    ensures LifeKept(Send(l, who))
    ensures Send(l, who).inflight.Keys == l.inflight.Keys - {who}
  {
    hide Kept;
    if who in l.inflight {
      forall t
        ensures Kept(Send(l, who), t)
      {
        SendKeepsOne(l, who, t);
      }
    }
  }

  lemma SameNotes(l: Life, next: Life)
    requires LifeKept(l)
    requires next.inflight == l.inflight && next.made == l.made && next.sent == l.sent
    ensures LifeKept(next)
  {
    forall who
      ensures Kept(next, who)
    {
      assert Kept(l, who);
    }
  }

  /** Between the two halves of Run's transitions. */
  predicate MainSending(pc: MainPc)
  {
    pc.SendBooting? || pc.SendReady? || pc.SendStopping?
  }

  lemma MainLifeKept(l: Life, pc: MainPc)
    requires LifeKept(l) && (MainThread in l.inflight ==> MainSending(pc))
    ensures var next := MainLife(l, pc);
      && LifeKept(next) && next.inflight.Keys <= l.inflight.Keys + {MainThread}
      && (MainThread in next.inflight ==> MainSending(NextMain(pc)))
  {
    hide LifeKept, Set, Send, ChangeNow;
    match pc
    case SetBooting => SetKeepsNotes(l, MainThread, Booting, "runtime directories ready");
    case SetReady => SetKeepsNotes(l, MainThread, Ready, "all subsystems started");
    case SetStopping => SetKeepsNotes(l, MainThread, Shutdown, "shutting down");
    case SendBooting => SendKeepsNotes(l, MainThread);
    case SendReady => SendKeepsNotes(l, MainThread);
    case SendStopping => SendKeepsNotes(l, MainThread);
    case _ =>
  }

  lemma MainKeepsNotes(s: State)
    requires NoteInv(s) && StateInv(s)
    ensures NoteInv(DoMain(s))
  {
    hide LifeKept, MainLife, LifeInv;
    assert MainThread in s.life.inflight ==> Sending(s, MainThread);
    MainLifeKept(s.life, s.main);
    OthersStillSending(s, DoMain(s), MainThread);
  }

  lemma PollLifeKept(l: Life, pc: PollPc)
    requires LifeKept(l) && (PollThread in l.inflight ==> pc.Telling?)
    ensures var next := PollLife(l, pc);
      && LifeKept(next) && next.inflight.Keys <= l.inflight.Keys + {PollThread}
      && (PollThread in next.inflight ==> NextPoll(l, pc).Telling?)
  {
    hide LifeKept, Set, Send, ChangeNow, HasRunning;
    match pc
    case Promoting(_) => SetKeepsNotes(l, PollThread, Healthy, "agents running");
    case Telling => SendKeepsNotes(l, PollThread);
    case _ => SameNotes(l, PollLife(l, pc));
  }

  lemma PollKeepsNotes(s: State)
    requires NoteInv(s)
    ensures NoteInv(s.(life := PollLife(s.life, s.poll), poll := NextPoll(s.life, s.poll)))
  {
    hide LifeKept, PollLife, NextPoll;
    assert PollThread in s.life.inflight ==> Sending(s, PollThread);
    PollLifeKept(s.life, s.poll);
    OthersStillSending(s, s.(life := PollLife(s.life, s.poll), poll := NextPoll(s.life, s.poll)), PollThread);
  }

  lemma ShutLifeKept(l: Life, g: Shutter, id: nat)
    requires LifeKept(l) && (ShutThread(id) in l.inflight ==> g.pc.SendShutdown?)
    ensures var next := ShutLife(l, g, id);
      && LifeKept(next) && next.inflight.Keys <= l.inflight.Keys + {ShutThread(id)}
      && (ShutThread(id) in next.inflight ==> g.pc.SetShutdown?)
  {
    hide LifeKept, Set, Send, ChangeNow;
    match g.pc
    case SetShutdown => SetKeepsNotes(l, ShutThread(id), Shutdown, g.reason);
    case SendShutdown => SendKeepsNotes(l, ShutThread(id));
    case _ =>
  }

  lemma ShutKeepsNotes(mode: string, s: State, id: nat)
    requires NoteInv(s) && id < |s.downs.shuts|
    ensures NoteInv(s.(life := ShutLife(s.life, s.downs.shuts[id], id), downs := DoShut(mode, s.downs, id)))
  {
    hide LifeKept, ShutLife, WhatNow, Acts;
    var next := s.(life := ShutLife(s.life, s.downs.shuts[id], id), downs := DoShut(mode, s.downs, id));
    assert ShutThread(id) in s.life.inflight ==> Sending(s, ShutThread(id));
    ShutLifeKept(s.life, s.downs.shuts[id], id);
    OthersStillSending(s, next, ShutThread(id));
  }

  /** A step of one thread leaves the others where they are. */
  lemma OthersStillSending(s: State, next: State, who: Thread)
    requires NoteInv(s) && LifeKept(next.life)
    requires next.life.inflight.Keys <= s.life.inflight.Keys + {who}
    requires who in next.life.inflight ==> Sending(next, who)
    requires who.MainThread? || next.main == s.main
    requires who.PollThread? || next.poll == s.poll || (s.poll.NotStarted? && who.MainThread?)
    requires |s.downs.shuts| <= |next.downs.shuts|
    requires forall id: nat :: id < |s.downs.shuts| && who != ShutThread(id) ==>
      next.downs.shuts[id] == s.downs.shuts[id]
    ensures NoteInv(next)
  {
    hide LifeKept;
    forall t | t in next.life.inflight
      ensures Sending(next, t)
    {
      if t != who {
        assert t in s.life.inflight && Sending(s, t);
      }
    }
  }

  lemma OtherKeepsNotes(mode: string, s: State, step: Step)
    requires NoteInv(s) && !step.MainNext? && !step.PollNext? && !step.ShutNext?
    ensures NoteInv(Take(mode, s, step))
  {
    hide LifeKept, Shutdowns.Reason;
    var next := Take(mode, s, step);
    SameNotes(s.life, next.life);
    forall who | who in s.life.inflight
      ensures Sending(next, who)
    {
      assert Sending(s, who);
    }
  }

  lemma StepKeepsNotes(mode: string, s: State, step: Step)
    requires NoteInv(s) && StateInv(s)
    ensures NoteInv(Do(mode, s, step))
  {
    hide NoteInv, StateInv, DoMain, PollLife, NextPoll, ShutLife, DoShut;
    if s.downs.panicked { return; }
    match step
    case MainNext => MainKeepsNotes(s);
    case PollNext => PollKeepsNotes(s);
    case ShutNext(id) =>
      if id < |s.downs.shuts| {
        ShutKeepsNotes(mode, s, id);
      }
    case _ => OtherKeepsNotes(mode, s, step);
  }

  lemma {:induction false} EveryRunNotes(mode: string, sender: bool, steps: seq<Step>)
    ensures NoteInv(After(mode, Start(sender), steps))
    decreases |steps|
  {
    if steps == [] {
      forall who
        ensures Kept(Start(sender).life, who)
      {
      }
    } else {
      EveryRunNotes(mode, sender, Init(steps));
      EveryRunState(mode, Start(sender), Init(steps));
      StepKeepsNotes(mode, After(mode, Start(sender), Init(steps)), Last(steps));
    }
  }

  lemma CountAppend<T>(xs: seq<T>, x: T, c: T)
    ensures multiset(xs + [x])[c] == multiset(xs)[c] + (if x == c then 1 else 0)
  {
  }

  lemma OfLast(changes: seq<Change>, who: Thread)
    requires changes != []
    ensures Of(changes, who)
      == if Last(changes).who == who then Of(Init(changes), who) + [Last(changes)] else Of(Init(changes), who)
  {
    assert Of(Init(changes), who) + [] == Of(Init(changes), who);
  }

  lemma CountLast<T>(xs: seq<T>, c: T)
    requires xs != []
    ensures multiset(xs)[c] == multiset(Init(xs))[c] + (if Last(xs) == c then 1 else 0)
  {
    assert xs == Init(xs) + [Last(xs)];
  }

  lemma {:induction false} OfKeepsCount(changes: seq<Change>, c: Change)
    ensures multiset(Of(changes, c.who))[c] == multiset(changes)[c]
    decreases |changes|
  {
    if changes != [] {
      hide Of, Init, Last;
      OfKeepsCount(Init(changes), c);
      OfLast(changes, c.who);
      CountLast(changes, c);
      CountAppend(Of(Init(changes), c.who), Last(changes), c);
    }
  }

  /** Conservation at every point of every run: thread by thread and in order, the envelopes
      sent and the one in hand are the transitions made with a sender installed; so each
      envelope is sent or in flight exactly as often as its transition was made. */
  lemma NotesConserved(mode: string, sender: bool, steps: seq<Step>, who: Thread, c: Change)
    ensures var l := After(mode, Start(sender), steps).life;
      && Of(l.sent, who) + Captured(l, who) == Of(Notified(l.made), who)
      && multiset(l.sent)[c] + multiset(Captured(l, c.who))[c] == multiset(Notified(l.made))[c]
  {
    var l := After(mode, Start(sender), steps).life;
    EveryRunNotes(mode, sender, steps);
    assert Kept(l, who) && Kept(l, c.who);
    OfKeepsCount(l.sent, c);
    OfKeepsCount(Notified(l.made), c);
  }

  // ----- Runs without overlapping transitions -----------------------------------------

  /** The step is the locked half of a transition. */
  predicate IsSet(s: State, step: Step)
  {
    match step
    case MainNext => s.main.SetBooting? || s.main.SetReady? || s.main.SetStopping?
    case PollNext => s.poll.Promoting?
    case ShutNext(id) => id < |s.downs.shuts| && s.downs.shuts[id].pc.SetShutdown?
    case _ => false
  }

  /** No transition starts while another one's send is outstanding. */
  ghost predicate Quiet(mode: string, s: State, steps: seq<Step>)
    decreases |steps|
  {
    steps == [] ||
    (Quiet(mode, s, Init(steps)) &&
     (IsSet(After(mode, s, Init(steps)), Last(steps)) ==> After(mode, s, Init(steps)).life.inflight == map[]))
  }

  /** At most one envelope is in flight, and it is the newest of the history. */
  ghost predicate InStep(l: Life)
  {
    && l.sender
    && (l.inflight == map[] ==> l.sent == l.made)
    && (l.inflight != map[] ==>
          l.made != [] && l.sent == Init(l.made) && exists who :: l.inflight == map[who := Last(l.made)])
  }

  lemma SetInStep(l: Life, who: Thread, target: LifecycleState, message: string)
    requires InStep(l) && l.inflight == map[]
    ensures InStep(Set(l, who, target, message))
  {
    var c, next := ChangeNow(l, who, target, message), Set(l, who, target, message);
    assert Last(next.made) == c && Init(next.made) == l.made;
    assert next.inflight == map[who := Last(next.made)];
    assert who in next.inflight;
  }

  lemma SendInStep(l: Life, who: Thread)
    requires InStep(l)
    ensures InStep(Send(l, who))
  {
    if who in l.inflight {
      var next := Send(l, who);
      assert l.inflight != map[];
      var w :| l.inflight == map[w := Last(l.made)];
      assert next.inflight == map[];
      assert l.made == Init(l.made) + [Last(l.made)];
    }
  }

  lemma MainInStep(l: Life, pc: MainPc)
    requires InStep(l) && (pc.SetBooting? || pc.SetReady? || pc.SetStopping? ==> l.inflight == map[])
    ensures InStep(MainLife(l, pc))
  {
    hide InStep, Set, Send;
    match pc
    case SetBooting => SetInStep(l, MainThread, Booting, "runtime directories ready");
    case SetReady => SetInStep(l, MainThread, Ready, "all subsystems started");
    case SetStopping => SetInStep(l, MainThread, Shutdown, "shutting down");
    case _ => SendInStep(l, MainThread);
  }

  lemma PollInStep(l: Life, pc: PollPc)
    requires InStep(l) && (pc.Promoting? ==> l.inflight == map[])
    ensures InStep(PollLife(l, pc))
  {
    hide Set, Send;
    match pc
    case Promoting(_) => SetInStep(l, PollThread, Healthy, "agents running");
    case _ => SendInStep(l, PollThread);
  }

  lemma ShutInStep(l: Life, g: Shutter, id: nat)
    requires InStep(l) && (g.pc.SetShutdown? ==> l.inflight == map[])
    ensures InStep(ShutLife(l, g, id))
  {
    hide InStep, Set, Send;
    match g.pc
    case SetShutdown => SetInStep(l, ShutThread(id), Shutdown, g.reason);
    case _ => SendInStep(l, ShutThread(id));
  }

  lemma StepInStep(mode: string, s: State, step: Step)
    requires InStep(s.life) && (IsSet(s, step) ==> s.life.inflight == map[])
    ensures InStep(Do(mode, s, step).life)
  {
    hide MainLife, PollLife, ShutLife, DoShut, NextMain, NextPoll, DoSelect;
    match step
    case MainNext => MainInStep(s.life, s.main);
    case PollNext => PollInStep(s.life, s.poll);
    case ShutNext(id) =>
      if id < |s.downs.shuts| {
        ShutInStep(s.life, s.downs.shuts[id], id);
      }
    case MainSelects(branch) => SelectKeepsLife(s, branch);
    case _ =>
  }

  lemma SelectKeepsLife(s: State, branch: Branch)
    ensures DoSelect(s, branch).life == s.life
  {
  }

  lemma {:induction false} QuietRunInStep(mode: string, steps: seq<Step>)
    requires Quiet(mode, Start(true), steps)
    ensures InStep(After(mode, Start(true), steps).life)
    decreases |steps|
  {
    if steps != [] {
      QuietRunInStep(mode, Init(steps));
      StepInStep(mode, After(mode, Start(true), Init(steps)), Last(steps));
    }
  }

  /** With a sender installed from the start and no two transitions overlapping, whenever no
      send is outstanding the host has received exactly the history of transitions, and the
      last state it was told is the current one. */
  lemma QuietHostIsUpToDate(mode: string, steps: seq<Step>)
    requires Quiet(mode, Start(true), steps)
    requires After(mode, Start(true), steps).life.inflight == map[]
    ensures var l := After(mode, Start(true), steps).life;
      l.sent == l.made && (l.sent != [] ==> Last(l.sent).target == l.state)
  {
    QuietRunInStep(mode, steps);
    EveryRunState(mode, Start(true), steps);
  }

  // ----- What the host hears last -----------------------------------------------------

  /** The last envelope of a thread that has nothing in hand is its newest notified transition;
      so with nothing in flight the host's last word is the current state exactly when the
      thread that sent last made its own newest transition into that state. */
  lemma LastWordIff(mode: string, sender: bool, steps: seq<Step>)
    requires After(mode, Start(sender), steps).life.inflight == map[]
    requires After(mode, Start(sender), steps).life.sent != []
    ensures var l := After(mode, Start(sender), steps).life;
      var own := Of(Notified(l.made), Last(l.sent).who);
      && own != [] && l.made != []
      && (Last(l.sent).target == l.state <==> Last(own).target == Last(l.made).target)
  {
    var l := After(mode, Start(sender), steps).life;
    var who := Last(l.sent).who;
    EveryRunNotes(mode, sender, steps);
    EveryRunState(mode, Start(sender), steps);
    assert Kept(l, who);
    OfLast(l.sent, who);
    var own := Of(Notified(l.made), who);
    assert own == Of(l.sent, who) + [] == Of(l.sent, who);
  }

  /** The envelopes in flight are sent, in the order of their threads in `order`. */
  function Sends(l: Life, order: seq<Thread>): Life
    decreases |order|
  {
    if order == [] then l else Sends(Send(l, order[0]), order[1..])
  }

  predicate Outdated(l: Life, state: LifecycleState)
  {
    l.inflight == map[] && l.sent != [] && Last(l.sent).target != state
  }

  /** Once the threads have sent in this order, the host's last word is an old state. */
  predicate EndsOutdated(l: Life, order: seq<Thread>)
  {
    Outdated(Sends(l, order), l.state)
  }

  /** An envelope in flight, or the last one sent when there is none, names another state. */
  ghost predicate OldInHand(l: Life)
  {
    Outdated(l, l.state) || exists who :: who in l.inflight && l.inflight[who].target != l.state
  }

  lemma {:induction false} FlushOthers(l: Life, who: Thread) returns (order: seq<Thread>)
    requires who in l.inflight
    ensures Sends(l, order).inflight == map[who := l.inflight[who]]
    decreases |l.inflight|
  {
    if other :| other in l.inflight && other != who {
      var rest := FlushOthers(Send(l, other), who);
      order := [other] + rest;
      assert order[0] == other && order[1..] == rest;
    } else {
      order := [];
      assert l.inflight == map[who := l.inflight[who]];
    }
  }

  lemma {:induction false} SendsConcat(l: Life, a: seq<Thread>, b: seq<Thread>)
    ensures Sends(l, a + b) == Sends(Sends(l, a), b)
    decreases |a|
  {
    hide Send;
    if a == [] {
      assert a + b == b;
    } else {
      assert (a + b)[0] == a[0] && (a + b)[1..] == a[1..] + b;
      SendsConcat(Send(l, a[0]), a[1..], b);
    }
  }

  lemma OldCanBeLast(l: Life, who: Thread) returns (order: seq<Thread>)
    requires who in l.inflight && l.inflight[who].target != l.state
    ensures EndsOutdated(l, order)
  {
    var most := FlushOthers(l, who);
    order := most + [who];
    SendsConcat(l, most, [who]);
    var flushed := Sends(l, most);
    assert who in flushed.inflight && flushed.inflight[who] == l.inflight[who];
    assert Sends(flushed, [who]) == Send(flushed, who);
    assert Send(flushed, who).inflight == map[];
  }

  lemma NothingMore(l: Life) returns (order: seq<Thread>)
    ensures Sends(l, order) == l
  {
    order := [];
  }

  lemma {:induction false} NewStaysLast(l: Life, order: seq<Thread>, state: LifecycleState)
    requires forall who :: who in l.inflight ==> l.inflight[who].target == state
    requires !Outdated(l, state)
    ensures !Outdated(Sends(l, order), state)
    decreases |order|
  {
    if order != [] {
      NewStaysLast(Send(l, order[0]), order[1..], state);
    }
  }

  /** While no transition is made, the outstanding sends can leave the host with an old state
      as its last word exactly when an envelope in flight names one, or none is in flight and
      the last one sent does. */
  lemma OutdatedIffOldInHand(l: Life)
    ensures (exists order :: EndsOutdated(l, order)) <==> OldInHand(l)
  {
    if OldInHand(l) {
      if Outdated(l, l.state) {
        var order := NothingMore(l);
        assert EndsOutdated(l, order);
      } else {
        var who :| who in l.inflight && l.inflight[who].target != l.state;
        var order := OldCanBeLast(l, who);
        assert EndsOutdated(l, order);
      }
    } else {
      forall order
        ensures !EndsOutdated(l, order)
      {
        NewStaysLast(l, order, l.state);
      }
    }
  }

  function StepOf(who: Thread): Step
  {
    match who
    case MainThread => MainNext
    case PollThread => PollNext
    case ShutThread(id) => ShutNext(id)
  }

  /** The threads in `order` that have an envelope in hand make the step that sends it. */
  function SendInTurn(mode: string, s: State, order: seq<Thread>): State
    decreases |order|
  {
    if order == [] then s
    else if order[0] in s.life.inflight then SendInTurn(mode, Do(mode, s, StepOf(order[0])), order[1..])
    else SendInTurn(mode, s, order[1..])
  }

  lemma SendingStepSends(mode: string, s: State, who: Thread)
    requires Sending(s, who) && !s.downs.panicked
    ensures var next := Do(mode, s, StepOf(who));
      next.life == Send(s.life, who) && !next.downs.panicked
  {
    hide Send, WhatNow, Acts;
  }

  lemma {:induction false} SendsInSystem(mode: string, s: State, order: seq<Thread>)
    requires NoteInv(s) && StateInv(s) && !s.downs.panicked
    ensures SendInTurn(mode, s, order).life == Sends(s.life, order)
    decreases |order|
  {
    hide Send, NoteInv, StateInv, Do, Sending;
    if order != [] {
      if order[0] in s.life.inflight {
        StandsSending(s, order[0]);
        SendingStepSends(mode, s, order[0]);
        StepKeepsNotes(mode, s, StepOf(order[0]));
        StepKeepsState(mode, s, StepOf(order[0]));
        SendsInSystem(mode, Do(mode, s, StepOf(order[0])), order[1..]);
      } else {
        NothingToSend(s.life, order[0]);
        SendsInSystem(mode, s, order[1..]);
      }
    }
  }

  lemma StandsSending(s: State, who: Thread)
    requires NoteInv(s) && who in s.life.inflight
    ensures Sending(s, who)
  {
  }

  lemma NothingToSend(l: Life, who: Thread)
    requires who !in l.inflight
    ensures Send(l, who) == l
  {
  }

  /** In every reachable state of a live process: the threads' outstanding sends can leave the
      host with an old state exactly when there is an old envelope in hand. */
  lemma HostCanBeOutdatedIff(mode: string, sender: bool, steps: seq<Step>)
    requires !After(mode, Start(sender), steps).downs.panicked
    ensures var s := After(mode, Start(sender), steps);
      (exists order :: Outdated(SendInTurn(mode, s, order).life, s.life.state)) <==> OldInHand(s.life)
  {
    hide After, Sends, SendInTurn, OldInHand, Outdated, NoteInv, StateInv;
    var s := After(mode, Start(sender), steps);
    EveryRunNotes(mode, sender, steps);
    ReachableInv(mode, sender, steps);
    OutdatedIffOldInHand(s.life);
    if OldInHand(s.life) {
      var order :| EndsOutdated(s.life, order);
      SendsInSystem(mode, s, order);
      assert Outdated(SendInTurn(mode, s, order).life, s.life.state);
    } else {
      forall order
        ensures !Outdated(SendInTurn(mode, s, order).life, s.life.state)
      {
        SendsInSystem(mode, s, order);
        assert !EndsOutdated(s.life, order);
      }
    }
  }

  /** Run has made its ready transition, with a sender installed just before, and has not sent
      it yet. */
  lemma ReadyInHand(mode: string) returns (steps: seq<Step>, s: State)
    ensures s == After(mode, Start(false), steps)
    ensures s.main.SendReady? && s.serving && s.downs == Start(false).downs && s.life.sender
    ensures s.life.inflight.Keys == {MainThread} && s.life.inflight[MainThread].target == Ready
    ensures s.life.sent == []
  {
    hide After;
    steps, s := BootRun(mode);
    steps, s := Go(mode, Start(false), steps, s, InstallSender);
    steps, s := GoMain(mode, Start(false), steps, s);
  }

  /** Such a run: the shutdown transition is made and sent between the two halves of Run's
      ready transition; then nothing is in flight, and the host's last word is `ready`. */
  lemma OldStateIsLastWord(mode: string) returns (steps: seq<Step>)
    ensures var l := After(mode, Start(false), steps).life;
      && l.sender && l.state == Shutdown && Outdated(l, Shutdown) && Last(l.sent).target == Ready
  {
    hide After;
    var s;
    steps, s := ReadyInHand(mode);
    steps, s := GoRequest(mode, Start(false), steps, s);
    steps, s := GoShut(mode, Start(false), steps, s, 0);
    steps, s := GoShut(mode, Start(false), steps, s, 0);
    steps, s := GoMain(mode, Start(false), steps, s);
  }
}
