/** Injects and removes that run at the same time. An inject is taken apart into its file
    operations: open and truncate the temporary file, write it piece by piece, rename it, clean
    up. Two injects of one name do not overlap; everything else may. */
module SecretSteps {
  import opened Basics
  import opened Secrets

  /** Where a running Inject stands. */
  datatype Pc = Filling(value: string, n: nat) | Filled(value: string) | CleaningUp(value: string)

  /** `running` holds the injects under way by name, and `finished` the calls that are over,
      in the order of their last file operations. */
  datatype State = State(files: Files, running: map<string, Pc>, finished: seq<Op>)

  datatype Action =
    | Open(value: string, ok: bool)
    | WriteMore(k: nat)
    | WriteFails
    | Close
    | TryRename(ok: bool)
    | Cleanup(ok: bool)
    | Unlink(ok: bool)

  /** One file operation of a call for `name`: an inject's, or a remove's only one. */
  datatype Step = Step(name: string, action: Action)

  datatype Move = Move(files: Files, pc: Option<Pc>, over: seq<Op>)

  /** The names of files that are not temporary names. */
  predicate Proper(name: string)
  {
    FileName(name) && !IsTemp(name)
  }

  function Failed(name: string, value: string, write: WriteOutcome, cleaned: bool): Op
  {
    Inject(name, value, InjectOutcome(write, false, cleaned))
  }

  /** An operation of the inject for `name` that is under way. */
  function Advance(files: Files, name: string, pc: Pc, action: Action): Move
  {
    var tmp := Temp(name);
    match (pc, action)
    case (Filling(value, n), WriteMore(k)) =>
      if n + k <= |value| then Move(files[tmp := value[..n + k]], Some(Filling(value, n + k)), [])
      else Move(files, Some(pc), [])
    case (Filling(value, n), WriteFails) => Move(files, None, [Failed(name, value, Cut(n), false)])
    case (Filling(value, n), Close) => Move(files, Some(if n == |value| then Filled(value) else pc), [])
    case (Filled(value), TryRename(ok)) =>
      if ok && tmp in files then
        Move(Rename(files, tmp, name), None, [Inject(name, value, InjectOutcome(Written, true, false))])
      else Move(files, Some(CleaningUp(value)), [])
    case (CleaningUp(value), Cleanup(ok)) =>
      Move(if ok then files - {tmp} else files, None, [Failed(name, value, Written, ok)])
    case _ => Move(files, Some(pc), [])
  }

  /** Any operation for `name`; one out of turn changes nothing. */
  function Act(files: Files, name: string, pc: Option<Pc>, action: Action): Move
  {
    match action
    case Open(value, ok) =>
      if pc.Some? || !Simple(name) then Move(files, pc, [])
      else if ok then Move(files[Temp(name) := ""], Some(Filling(value, 0)), [])
      else Move(files, None, [Failed(name, value, NotOpened, false)])
    case Unlink(ok) => Move(if ok then files - {name} else files, pc, [Remove(name, ok)])
    case _ => if pc.None? then Move(files, pc, []) else Advance(files, name, pc.value, action)
  }

  function Do(s: State, step: Step): State
  {
    if !Proper(step.name) then s
    else
      var move := Act(s.files, step.name, Get(s.running, step.name), step.action);
      State(
        move.files,
        if move.pc.Some? then s.running[step.name := move.pc.value] else s.running - {step.name},
        s.finished + move.over)
  }

  function Run(files0: Files, steps: seq<Step>): State
    decreases |steps|
  {
    if steps == [] then State(files0, map[], []) else Do(Run(files0, Init(steps)), Last(steps))
  }

  // ----- One file under one operation -------------------------------------------------

  function At(root: Root, n: string): Option<string>
  {
    if root.Dir? then Get(root.files, n) else None
  }

  /** What a whole operation makes of the content of file `n`. */
  function FileEffect(op: Op, n: string, was: Option<string>): Option<string>
  {
    match op
    case Remove(name, removed) => if n == name && removed then None else was
    case Inject(name, value, o) =>
      if !Simple(name) then was
      else if n == name then (if Succeeds(o) then Some(value) else was)
      else if n == Temp(name) then TempLeft(was, value, o)
      else was
  }

  lemma ProperBase(name: string)
    requires FileName(name)
    ensures Base(name) == name && !IsSelf(name) && name != ".."
    ensures Simple(name) <==> !HasDotDot(name)
  {
    BaseFixed(name);
    assert "/"[0] == '/';
  }

  lemma ApplyAt(root: Root, op: Op, n: string)
    requires root.Dir? && Proper(op.name)
    ensures Apply(root, op).0.Dir?
    ensures At(Apply(root, op).0, n) == FileEffect(op, n, At(root, n))
  {
    hide Base, HasDotDot, IsTemp, WriteFile, Rename, IsSelf;
    ProperBase(op.name);
    if op.Inject? {
      StoreFileByFile(root.files, op.name, op.value, op.o, n);
    }
  }

  // ----- The invariant ----------------------------------------------------------------

  /** The secret a temporary name belongs to. */
  function Untemp(n: string): string
    requires IsTemp(n)
  {
    n[..|n| - |TMP|]
  }

  lemma UntempTemp(n: string, name: string)
    ensures IsTemp(n) ==> (Untemp(n) == name <==> n == Temp(name))
    ensures IsTemp(Temp(name)) && Untemp(Temp(name)) == name
  {
    TempIsTemp(name);
    if IsTemp(n) {
      assert n == Untemp(n) + TMP;
    }
  }

  /** The content an inject under way has put into its temporary file. */
  function Partial(pc: Pc): string
  {
    match pc
    case Filling(value, n) => Prefix(value, n)
    case Filled(value) => value
    case CleaningUp(value) => value
  }

  /** A file holds what the finished calls left, run one after the other, except that the
      temporary file of an inject under way is its own. */
  function Now(serial: Root, running: map<string, Pc>, n: string): Option<string>
  {
    if IsTemp(n) && Untemp(n) in running then Some(Partial(running[Untemp(n)])) else At(serial, n)
  }

  ghost predicate AllProper(ops: seq<Op>)
  {
    forall i :: 0 <= i < |ops| ==> Proper(ops[i].name)
  }

  ghost predicate Fits(name: string, pc: Pc)
  {
    Simple(name) && (pc.Filling? ==> pc.n <= |pc.value|)
  }

  ghost predicate Inv(files0: Files, s: State)
  {
    var serial := After(Dir(files0), s.finished);
    && serial.Dir? && AllProper(s.finished)
    && (forall name :: name in s.running ==> Fits(name, s.running[name]))
    && (forall n :: Get(s.files, n) == Now(serial, s.running, n))
  }

  function SerialNow(pc: Option<Pc>, was: Option<string>): Option<string>
  {
    if pc.Some? then Some(Partial(pc.value)) else was
  }

  function Effects(over: seq<Op>, n: string, was: Option<string>): Option<string>
    requires |over| <= 1
  {
    if over == [] then was else FileEffect(over[0], n, was)
  }

  /** An operation moves its own two files, as the calls it ends say, and no others. */
  lemma ActEffect(
      files: Files, name: string, pc: Option<Pc>, action: Action, n: string,
      target: Option<string>, tmp: Option<string>)
    requires Proper(name) && (pc.Some? ==> Fits(name, pc.value))
    requires Get(files, name) == target && Get(files, Temp(name)) == SerialNow(pc, tmp)
    ensures var move := Act(files, name, pc, action);
      && |move.over| <= 1 && (move.over != [] ==> move.over[0].name == name)
      && (move.pc.Some? ==> Fits(name, move.pc.value))
      && Get(move.files, name) == Effects(move.over, name, target)
      && Get(move.files, Temp(name)) == SerialNow(move.pc, Effects(move.over, Temp(name), tmp))
      && (n != name && n != Temp(name) ==> Get(move.files, n) == Get(files, n))
  {
    assert Temp(name) != name;
    if pc.Some? {
      assert pc.value.value[..|pc.value.value|] == pc.value.value;
    } else if action.Open? {
      assert Prefix(action.value, 0) == "";
    }
  }

  lemma OneMoreCall(files0: Files, finished: seq<Op>, over: seq<Op>)
    requires |over| <= 1
    ensures After(Dir(files0), finished + over)
      == if over == [] then After(Dir(files0), finished) else Apply(After(Dir(files0), finished), over[0]).0
  {
    if over == [] {
      assert finished + over == finished;
    } else {
      assert Init(finished + over) == finished && Last(finished + over) == over[0];
    }
  }

  lemma EffectsAt(files0: Files, finished: seq<Op>, over: seq<Op>, n: string)
    requires |over| <= 1 && AllProper(finished + over) && After(Dir(files0), finished).Dir?
    ensures var after := After(Dir(files0), finished + over);
      after.Dir? && At(after, n) == Effects(over, n, At(After(Dir(files0), finished), n))
  {
    hide Apply, At, FileEffect;
    OneMoreCall(files0, finished, over);
    if over != [] {
      assert (finished + over)[|finished|] == over[0];
      ApplyAt(After(Dir(files0), finished), over[0], n);
    }
  }

  lemma EffectsElsewhere(over: seq<Op>, name: string, n: string, was: Option<string>)
    requires |over| <= 1 && (over != [] ==> over[0].name == name)
    requires n != name && n != Temp(name)
    ensures Effects(over, n, was) == was
  {
  }

  lemma NowOf(serial: Root, running: map<string, Pc>, name: string)
    requires Proper(name)
    ensures Now(serial, running, name) == At(serial, name)
    ensures Now(serial, running, Temp(name)) == SerialNow(Get(running, name), At(serial, Temp(name)))
  {
    UntempTemp(name, name);
  }

  /** An operation for `name` leaves every file as the finished calls and the injects under
      way then say. */
  lemma ActKeeps(files0: Files, s: State, step: Step, n: string)
    requires Inv(files0, s) && Proper(step.name)
    requires AllProper(Do(s, step).finished)
    ensures Get(Do(s, step).files, n) == Now(After(Dir(files0), Do(s, step).finished), Do(s, step).running, n)
  {
    hide Act, After, At, Effects, Proper, FileEffect, Fits, Partial, Now, SerialNow, AllProper, IsTemp, Untemp;
    var name, next := step.name, Do(s, step);
    var pc := Get(s.running, name);
    var move := Act(s.files, name, pc, step.action);
    var serial, after := After(Dir(files0), s.finished), After(Dir(files0), next.finished);
    NowOf(serial, s.running, name);
    ActEffect(s.files, name, pc, step.action, n, At(serial, name), At(serial, Temp(name)));
    EffectsAt(files0, s.finished, move.over, n);
    NowOf(after, next.running, name);
    assert Get(next.running, name) == move.pc;
    if n != name && n != Temp(name) {
      EffectsElsewhere(move.over, name, n, At(serial, n));
      NowElsewhere(serial, after, s.running, next.running, name, n);
    }
  }

  lemma NowElsewhere(
      serial: Root, after: Root, running: map<string, Pc>, next: map<string, Pc>, name: string, n: string)
    requires At(after, n) == At(serial, n) && n != Temp(name)
    requires running - {name} == next - {name}
    ensures Now(after, next, n) == Now(serial, running, n)
  {
    UntempTemp(n, name);
    if IsTemp(n) {
      assert Untemp(n) in running <==> Untemp(n) in running - {name};
      assert Untemp(n) in next <==> Untemp(n) in next - {name};
      if Untemp(n) in running {
        assert running[Untemp(n)] == (running - {name})[Untemp(n)];
        assert next[Untemp(n)] == (next - {name})[Untemp(n)];
      }
    }
  }

  /** The calls that finish and the injects that go on are for proper names. */
  lemma ActKeepsNames(files0: Files, s: State, step: Step)
    requires Inv(files0, s)
    ensures AllProper(Do(s, step).finished) && After(Dir(files0), Do(s, step).finished).Dir?
    ensures forall name :: name in Do(s, step).running ==> Fits(name, Do(s, step).running[name])
  {
    hide Act, After, At, Effects, Proper, FileEffect, Fits, Partial, Now, SerialNow, IsTemp, Untemp;
    var name, serial := step.name, After(Dir(files0), s.finished);
    if Proper(name) {
      var pc := Get(s.running, name);
      NowOf(serial, s.running, name);
      ActEffect(s.files, name, pc, step.action, name, At(serial, name), At(serial, Temp(name)));
      EffectsAt(files0, s.finished, Act(s.files, name, pc, step.action).over, name);
    }
  }

  lemma StepKeeps(files0: Files, s: State, step: Step)
    requires Inv(files0, s)
    ensures Inv(files0, Do(s, step))
  {
    hide Act, After, At, Now, Fits, AllProper;
    ActKeepsNames(files0, s, step);
    if Proper(step.name) {
      forall n
        ensures Get(Do(s, step).files, n)
          == Now(After(Dir(files0), Do(s, step).finished), Do(s, step).running, n)
      {
        ActKeeps(files0, s, step, n);
      }
    }
  }

  /** At every step of every interleaving each file is as the finished calls left it, or as
      the inject under way that owns it has filled it so far. */
  lemma {:induction false} EveryRun(files0: Files, steps: seq<Step>)
    ensures Inv(files0, Run(files0, steps))
    decreases |steps|
  {
    if steps == [] {
      var serial := After(Dir(files0), []);
      forall n
        ensures Get(files0, n) == Now(serial, map[], n)
      {
      }
    } else {
      EveryRun(files0, Init(steps));
      StepKeeps(files0, Run(files0, Init(steps)), Last(steps));
    }
  }

  // ----- What a reader sees meanwhile -------------------------------------------------

  /** Atomicity: whatever is interleaved and whatever fails, at each moment the visible store
      is the plain map that the calls finished so far make, one after the other. So a secret
      is what its last inject reported as done gave it, in full, or as it was, or removed. */
  lemma OldOrNew(files0: Files, steps: seq<Step>)
    ensures var s := Run(files0, steps);
      Visible(Dir(s.files)) == MapAfter(Dir(files0), s.finished)
  {
    hide After, MapAfter, Proper;
    var s := Run(files0, steps);
    var serial := After(Dir(files0), s.finished);
    EveryRun(files0, steps);
    assert AllProper(s.finished);
    ProperNeverHides(Dir(files0), s.finished);
    HistoryRefines(Dir(files0), s.finished);
    forall n
      ensures Get(Visible(Dir(s.files)), n) == Get(Visible(serial), n)
    {
      VisibleGet(Dir(s.files), n);
      VisibleGet(serial, n);
    }
    SameMap(Visible(Dir(s.files)), Visible(serial));
  }

  lemma {:induction false} ProperNeverHides(root: Root, ops: seq<Op>)
    requires AllProper(ops)
    ensures NeverHides(root, ops)
    decreases |ops|
  {
    if ops != [] {
      assert Last(ops) == ops[|ops| - 1];
      ProperBase(Last(ops).name);
      ProperNeverHides(root, Init(ops));
    }
  }

  /** A file operation changes what a reader sees of a secret only by ending a call for it,
      and then to its whole new value, or to nothing. */
  lemma ChangesAtOnce(files0: Files, steps: seq<Step>, step: Step, n: string)
    ensures var s, next := Run(files0, steps), Do(Run(files0, steps), step);
      var before, after := Get(Visible(Dir(s.files)), n), Get(Visible(Dir(next.files)), n);
      after != before ==>
        && n == step.name && |next.finished| == |s.finished| + 1
        && Last(next.finished).name == n
        && after == if Last(next.finished).Inject? then Some(Last(next.finished).value) else None
  {
    hide Act, After, Proper, IsTemp, Fits;
    var s, name, next := Run(files0, steps), step.name, Do(Run(files0, steps), step);
    EveryRun(files0, steps);
    VisibleGet(Dir(s.files), n);
    VisibleGet(Dir(next.files), n);
    if Proper(name) {
      var serial, pc := After(Dir(files0), s.finished), Get(s.running, name);
      var move := Act(s.files, name, pc, step.action);
      NowOf(serial, s.running, name);
      ActEffect(s.files, name, pc, step.action, n, At(serial, name), At(serial, Temp(name)));
      UntempTemp(n, name);
      assert move.over != [] ==> Last(next.finished) == move.over[0];
    }
  }

  // ----- Every interleaving equals every serial order ---------------------------------

  /** The calls for one name, in order. */
  function About(ops: seq<Op>, name: string): seq<Op>
    decreases |ops|
  {
    if ops == [] then []
    else About(Init(ops), name) + (if Last(ops).name == name then [Last(ops)] else [])
  }

  lemma {:induction false} AboutMembers(ops: seq<Op>, name: string, op: Op)
    ensures op in About(ops, name) <==> op in ops && op.name == name
    decreases |ops|
  {
    if ops != [] {
      AboutMembers(Init(ops), name, op);
      assert ops == Init(ops) + [Last(ops)];
    }
  }

  /** The secret whose calls can touch file `n`. */
  function Owner(n: string): string
  {
    if IsTemp(n) then Untemp(n) else n
  }

  function Folded(ops: seq<Op>, n: string, was: Option<string>): Option<string>
    decreases |ops|
  {
    if ops == [] then was else FileEffect(Last(ops), n, Folded(Init(ops), n, was))
  }

  /** Each secret by itself: what calls run one after the other leave in a file depends only
      on the calls for the secret it belongs to. */
  lemma {:induction false} EachSecretByItself(files0: Files, ops: seq<Op>, n: string)
    requires AllProper(ops)
    ensures After(Dir(files0), ops).Dir?
    ensures At(After(Dir(files0), ops), n) == Folded(About(ops, Owner(n)), n, Get(files0, n))
    decreases |ops|
  {
    hide Apply, FileEffect, Proper, IsTemp, Untemp;
    if ops != [] {
      var op := Last(ops);
      assert op == ops[|ops| - 1];
      EachSecretByItself(files0, Init(ops), n);
      ApplyAt(After(Dir(files0), Init(ops)), op, n);
      if op.name != Owner(n) {
        OwnsOnly(op, n, At(After(Dir(files0), Init(ops)), n));
      }
      var most := About(Init(ops), Owner(n));
      assert Init(most + [op]) == most && Last(most + [op]) == op && most + [] == most;
    }
  }

  lemma OwnsOnly(op: Op, n: string, was: Option<string>)
    requires Proper(op.name) && op.name != Owner(n)
    ensures FileEffect(op, n, was) == was
  {
    UntempTemp(n, op.name);
  }

  /** Serializability: once no inject is under way, the directory, leftovers included, is the
      one that the same calls with the same outcomes leave one after the other, in every order
      that keeps the calls for each single secret in theirs. */
  lemma EqualsEverySerialOrder(files0: Files, steps: seq<Step>, order: seq<Op>)
    requires Run(files0, steps).running == map[]
    requires forall name :: About(order, name) == About(Run(files0, steps).finished, name)
    ensures After(Dir(files0), order) == Dir(Run(files0, steps).files)
  {
    hide After, Proper, About, Folded;
    var s := Run(files0, steps);
    EveryRun(files0, steps);
    forall i | 0 <= i < |order|
      ensures Proper(order[i].name)
    {
      AboutMembers(order, order[i].name, order[i]);
      AboutMembers(s.finished, order[i].name, order[i]);
    }
    EachSecretByItself(files0, order, "");
    var serial := After(Dir(files0), order);
    forall n
      ensures Get(serial.files, n) == Get(s.files, n)
    {
      EachSecretByItself(files0, order, n);
      EachSecretByItself(files0, s.finished, n);
    }
    SameMap(serial.files, s.files);
  }

  ghost predicate DistinctNames(ops: seq<Op>)
  {
    forall i, j :: 0 <= i < j < |ops| ==> ops[i].name != ops[j].name
  }

  lemma {:induction false} AboutAtMostOne(ops: seq<Op>, name: string)
    requires DistinctNames(ops)
    ensures |About(ops, name)| <= 1
    decreases |ops|
  {
    if ops != [] {
      AboutAtMostOne(Init(ops), name);
      var most := About(Init(ops), name);
      if most != [] {
        AboutMembers(Init(ops), name, most[0]);
      }
    }
  }

  /** Calls for distinct secrets may be put in any order. */
  lemma DistinctNamesAnyOrder(files0: Files, steps: seq<Step>, order: seq<Op>)
    requires Run(files0, steps).running == map[]
    requires DistinctNames(Run(files0, steps).finished) && DistinctNames(order)
    requires forall op :: op in order <==> op in Run(files0, steps).finished
    ensures After(Dir(files0), order) == Dir(Run(files0, steps).files)
  {
    hide After, About, Run;
    var finished := Run(files0, steps).finished;
    forall name
      ensures About(order, name) == About(finished, name)
    {
      var a, b := About(order, name), About(finished, name);
      AboutAtMostOne(order, name);
      AboutAtMostOne(finished, name);
      if a != [] {
        AboutMembers(order, name, a[0]);
        AboutMembers(finished, name, a[0]);
      } else if b != [] {
        AboutMembers(order, name, b[0]);
        AboutMembers(finished, name, b[0]);
      }
    }
    EqualsEverySerialOrder(files0, steps, order);
  }

  // ----- One call by itself -----------------------------------------------------------

  /** The file operations of one inject that goes as `o` says. */
  function CallOf(value: string, o: InjectOutcome): seq<Action>
  {
    match o.write
    case NotOpened => [Open(value, false)]
    case Cut(n) => [Open(value, true), WriteMore(if n < |value| then n else |value|), WriteFails]
    case Written =>
      [Open(value, true), WriteMore(|value|), Close]
      + (if o.renamed then [TryRename(true)] else [TryRename(false), Cleanup(o.cleaned)])
  }

  function Acts(s: State, name: string, actions: seq<Action>): State
    decreases |actions|
  {
    if actions == [] then s else Acts(Do(s, Step(name, actions[0])), name, actions[1..])
  }

  lemma ActsFirst(s: State, name: string, action: Action, rest: seq<Action>)
    ensures Acts(s, name, [action] + rest) == Acts(Do(s, Step(name, action)), name, rest)
  {
    hide Do;
    assert ([action] + rest)[0] == action && ([action] + rest)[1..] == rest;
  }

  /** The inject for `name` is under way in `t`, and nothing else differs from `s`. */
  ghost predicate Underway(s: State, t: State, name: string, tmp: Option<string>, pc: Pc)
  {
    && name in t.running && t.running[name] == pc && t.running - {name} == s.running
    && t.finished == s.finished
    && t.files == (if tmp.Some? then s.files[Temp(name) := tmp.value] else s.files - {Temp(name)})
  }

  lemma Opens(s: State, name: string, value: string)
    requires Proper(name) && Simple(name) && name !in s.running
    ensures Underway(s, Do(s, Step(name, Open(value, true))), name, Some(""), Filling(value, 0))
  {
    hide Simple, Proper;
  }

  lemma Writes(s: State, t: State, name: string, value: string, k: nat)
    requires Proper(name) && Underway(s, t, name, Some(""), Filling(value, 0)) && k <= |value|
    ensures Underway(s, Do(t, Step(name, WriteMore(k))), name, Some(value[..k]), Filling(value, k))
  {
    hide Simple, Proper;
  }

  lemma Closes(s: State, t: State, name: string, value: string)
    requires Proper(name) && Underway(s, t, name, Some(value), Filling(value, |value|))
    ensures Underway(s, Do(t, Step(name, Close)), name, Some(value), Filled(value))
  {
    hide Simple, Proper;
  }

  /** The call is over in `u`, with this operation, and nothing else differs from `s`. */
  ghost predicate EndsWith(s: State, u: State, files: Files, op: Op)
  {
    u == State(files, s.running, s.finished + [op])
  }

  lemma Ends(s: State, t: State, name: string, tmp: string, pc: Pc, action: Action)
    requires Proper(name) && Underway(s, t, name, Some(tmp), pc)
    requires (pc.Filling? && action.WriteFails?) || (pc.Filled? && action == TryRename(true))
      || (pc.CleaningUp? && action.Cleanup?)
    ensures var u := Do(t, Step(name, action));
      match action
      case WriteFails => EndsWith(s, u, t.files, Failed(name, pc.value, Cut(pc.n), false))
      case TryRename(_) =>
        EndsWith(s, u, Rename(t.files, Temp(name), name), Inject(name, pc.value, InjectOutcome(Written, true, false)))
      case Cleanup(ok) =>
        EndsWith(s, u, if ok then t.files - {Temp(name)} else t.files, Failed(name, pc.value, Written, ok))
  {
    hide Simple, Proper;
  }

  lemma NotOpenedAlone(s: State, name: string, value: string)
    requires Proper(name) && Simple(name) && name !in s.running
    ensures EndsWith(s, Acts(s, name, [Open(value, false)]), s.files, Failed(name, value, NotOpened, false))
  {
    ActsFirst(s, name, Open(value, false), []);
    assert [Open(value, false)] + [] == [Open(value, false)];
    hide Simple, Proper;
    assert s.running - {name} == s.running;
  }

  lemma ThreeActs(s: State, name: string, a: Action, b: Action, c: Action, rest: seq<Action>)
    ensures Acts(s, name, [a, b, c] + rest)
      == Acts(Do(Do(Do(s, Step(name, a)), Step(name, b)), Step(name, c)), name, rest)
  {
    hide Do, Acts;
    assert [a, b, c] + rest == [a] + ([b] + ([c] + rest));
    ActsFirst(s, name, a, [b] + ([c] + rest));
    ActsFirst(Do(s, Step(name, a)), name, b, [c] + rest);
    ActsFirst(Do(Do(s, Step(name, a)), Step(name, b)), name, c, rest);
  }

  lemma NoActs(s: State, name: string)
    ensures Acts(s, name, []) == s
  {
  }

  /** Open, and write `k` bytes. */
  lemma Fills(s: State, name: string, value: string, k: nat)
    requires Proper(name) && Simple(name) && name !in s.running && k <= |value|
    ensures var t := Do(Do(s, Step(name, Open(value, true))), Step(name, WriteMore(k)));
      Underway(s, t, name, Some(value[..k]), Filling(value, k))
  {
    hide Do, Underway;
    Opens(s, name, value);
    Writes(s, Do(s, Step(name, Open(value, true))), name, value, k);
  }

  lemma CutAlone(s: State, name: string, value: string, n: nat)
    requires Proper(name) && Simple(name) && name !in s.running && n <= |value|
    ensures EndsWith(s, Acts(s, name, [Open(value, true), WriteMore(n), WriteFails]),
                     s.files[Temp(name) := value[..n]], Failed(name, value, Cut(n), false))
  {
    hide Do, Acts, Proper, Simple;
    var actions := [Open(value, true), WriteMore(n), WriteFails];
    Fills(s, name, value, n);
    var t := Do(Do(s, Step(name, Open(value, true))), Step(name, WriteMore(n)));
    Ends(s, t, name, value[..n], Filling(value, n), WriteFails);
    ThreeActs(s, name, Open(value, true), WriteMore(n), WriteFails, []);
    NoActs(Do(t, Step(name, WriteFails)), name);
    assert actions + [] == actions;
  }

  /** Open, write it all, and close. */
  lemma FillsUp(s: State, name: string, value: string, rest: seq<Action>)
    returns (t: State)
    requires Proper(name) && Simple(name) && name !in s.running
    ensures Acts(s, name, [Open(value, true), WriteMore(|value|), Close] + rest) == Acts(t, name, rest)
    ensures Underway(s, t, name, Some(value), Filled(value))
  {
    hide Do, Acts, Proper, Simple;
    Fills(s, name, value, |value|);
    assert value[..|value|] == value;
    var full := Do(Do(s, Step(name, Open(value, true))), Step(name, WriteMore(|value|)));
    Closes(s, full, name, value);
    ThreeActs(s, name, Open(value, true), WriteMore(|value|), Close, rest);
    t := Do(full, Step(name, Close));
  }

  lemma RenamedAlone(s: State, name: string, value: string)
    requires Proper(name) && Simple(name) && name !in s.running
    ensures EndsWith(s, Acts(s, name, [Open(value, true), WriteMore(|value|), Close] + [TryRename(true)]),
                     Rename(s.files[Temp(name) := value], Temp(name), name),
                     Inject(name, value, InjectOutcome(Written, true, false)))
  {
    hide Do, Acts, Proper, Simple;
    var t := FillsUp(s, name, value, [TryRename(true)]);
    Ends(s, t, name, value, Filled(value), TryRename(true));
    ActsFirst(t, name, TryRename(true), []);
    assert [TryRename(true)] + [] == [TryRename(true)];
    NoActs(Do(t, Step(name, TryRename(true))), name);
  }

  lemma RenameFails(s: State, t: State, name: string, value: string)
    requires Proper(name) && Underway(s, t, name, Some(value), Filled(value))
    ensures Underway(s, Do(t, Step(name, TryRename(false))), name, Some(value), CleaningUp(value))
  {
    hide Proper;
  }

  lemma UncleanAlone(s: State, name: string, value: string, cleaned: bool)
    requires Proper(name) && Simple(name) && name !in s.running
    ensures var written := s.files[Temp(name) := value];
      var actions := [Open(value, true), WriteMore(|value|), Close] + [TryRename(false), Cleanup(cleaned)];
      EndsWith(s, Acts(s, name, actions),
               if cleaned then written - {Temp(name)} else written, Failed(name, value, Written, cleaned))
  {
    hide Do, Acts, Proper, Simple;
    var t := FillsUp(s, name, value, [TryRename(false), Cleanup(cleaned)]);
    RenameFails(s, t, name, value);
    var u := Do(t, Step(name, TryRename(false)));
    Ends(s, u, name, value, CleaningUp(value), Cleanup(cleaned));
    assert [TryRename(false), Cleanup(cleaned)] == [TryRename(false)] + ([Cleanup(cleaned)] + []);
    ActsFirst(t, name, TryRename(false), [Cleanup(cleaned)] + []);
    ActsFirst(u, name, Cleanup(cleaned), []);
    NoActs(Do(u, Step(name, Cleanup(cleaned))), name);
  }

  /** An inject that nobody interrupts leaves in steps the files that Inject leaves, and ends as
      one call for its name and value that succeeds exactly when Inject does. */
  lemma CallAlone(s: State, name: string, value: string, o: InjectOutcome) returns (op: Op)
    requires Simple(name) && !IsTemp(name) && name !in s.running
    ensures var t := Acts(s, name, CallOf(value, o));
      && InjectStep(Dir(s.files), name, value, o).0 == Dir(t.files)
      && t.running == s.running && t.finished == s.finished + [op]
    ensures op.Inject? && op.name == name && op.value == value && (Succeeds(op.o) <==> Succeeds(o))
  {
    NotSelf(name);
    InjectIsStore(s.files, name, value, o);
    assert value[..|value|] == value;
    hide InjectStep, HasDotDot, IsTemp, Simple, Base, Acts, Proper;
    match o.write
    case NotOpened =>
      op := Failed(name, value, NotOpened, false);
      assert Proper(name) by { IsProper(name); }
      NotOpenedAlone(s, name, value);
    case Cut(n) =>
      op := Failed(name, value, Cut(if n < |value| then n else |value|), false);
      assert Proper(name) by { IsProper(name); }
      CutAlone(s, name, value, if n < |value| then n else |value|);
    case Written =>
      assert Proper(name) by { IsProper(name); }
      if o.renamed {
        op := Inject(name, value, InjectOutcome(Written, true, false));
        RenamedAlone(s, name, value);
      } else {
        op := Failed(name, value, Written, o.cleaned);
        UncleanAlone(s, name, value, o.cleaned);
      }
  }

  lemma IsProper(name: string)
    requires FileName(name) && !IsTemp(name)
    ensures Proper(name)
  {
  }
}
