/** Secret injection (pkg/secrets.go): files in one flat directory, each written to a
    temporary name first and renamed, against the plain map the store stands for. */
module Secrets {
  import opened Basics
  import opened Protocol

  // ----- Names ------------------------------------------------------------------------

  function StripSlashes(path: string): string
  {
    if path != "" && Last(path) == '/' then StripSlashes(Init(path)) else path
  }

  function AfterLastSlash(path: string): string
  {
    if path == "" || Last(path) == '/' then "" else AfterLastSlash(Init(path)) + [Last(path)]
  }

  /** filepath.Base. */
  function Base(path: string): string
  {
    if path == "" then "."
    else if StripSlashes(path) == "" then "/"
    else AfterLastSlash(StripSlashes(path))
  }

  predicate HasDotDot(name: string)
  {
    exists i :: 0 <= i < |name| - 1 && name[i] == '.' && name[i + 1] == '.'
  }

  const TMP: string := ".tmp"

  predicate IsTemp(name: string)
  {
    |name| >= |TMP| && name[|name| - |TMP|..] == TMP
  }

  function Temp(name: string): string
  {
    name + TMP
  }

  /** The names Inject takes for files of the directory. */
  predicate Simple(name: string)
  {
    name != "" && '/' !in name && !HasDotDot(name) && name != "."
  }

  /** The names a file of the directory can have. */
  predicate FileName(name: string)
  {
    name != "" && '/' !in name && name != "." && name != ".."
  }

  lemma {:induction false} LastPart(path: string)
    ensures '/' !in AfterLastSlash(path)
    ensures '/' !in path ==> AfterLastSlash(path) == path
    decreases |path|
  {
    if path != "" && Last(path) != '/' {
      LastPart(Init(path));
      assert path == Init(path) + [Last(path)];
    }
  }

  /** A name is its own base exactly when it is one component, or the root. */
  lemma BaseFixed(name: string)
    ensures Base(name) == name <==> name != "" && ('/' !in name || name == "/")
  {
    LastPart(StripSlashes(name));
    if name != "" && '/' !in name {
      assert Last(name) in name;
      assert StripSlashes(name) == name;
    }
    if name == "/" {
      assert StripSlashes(name) == "";
    }
  }

  lemma TempIsTemp(name: string)
    ensures IsTemp(Temp(name))
  {
    assert Temp(name)[|name|..] == TMP;
  }

  // ----- Files ------------------------------------------------------------------------

  /** The regular files of the secret directory, by name. */
  type Files = map<string, string>

  function Get<V>(files: map<string, V>, name: string): Option<V>
  {
    if name in files then Some(files[name]) else None
  }

  /** How a write went: complete, refused before touching the file, or cut short. */
  datatype WriteOutcome = Written | NotOpened | Cut(n: nat)

  function Prefix(value: string, n: nat): string
  {
    if n < |value| then value[..n] else value
  }

  function WriteFile(files: Files, name: string, value: string, outcome: WriteOutcome): Files
  {
    match outcome
    case Written => files[name := value]
    case NotOpened => files
    case Cut(n) => files[name := Prefix(value, n)]
  }

  function Rename(files: Files, source: string, target: string): Files
    requires source in files
  {
    (files - {source})[target := files[source]]
  }

  // ----- Operations -------------------------------------------------------------------

  /** What stands at the path of the secret directory: nothing, the directory with its files,
      or a plain file that has taken its place. */
  datatype Root = Gone | Dir(files: Files) | Plain(content: string)

  /** The names that denote the directory itself. */
  predicate IsSelf(name: string)
  {
    name == "." || name == "/"
  }

  /** What reading the path of `name` gives. */
  function Read(root: Root, name: string): Option<string>
  {
    match root
    case Gone => None
    case Dir(files) => if IsSelf(name) then None else Get(files, name)
    case Plain(content) => if IsSelf(name) then Some(content) else None
  }

  /** How the file steps of one Inject go, as far as they are reached and the directory does
      not itself make them fail. */
  datatype InjectOutcome = InjectOutcome(write: WriteOutcome, renamed: bool, cleaned: bool)

  predicate Succeeds(o: InjectOutcome)
  {
    o.write.Written? && o.renamed
  }

  /** Inject of a simple name into the directory. */
  function Store(files: Files, name: string, value: string, o: InjectOutcome): (Files, Result)
  {
    var tmp := Temp(name);
    var written := WriteFile(files, tmp, value, o.write);
    if !o.write.Written? then (written, Err(WriteFailed))
    else if o.renamed then (Rename(written, tmp, name), Ok)
    else (if o.cleaned then written - {tmp} else written, Err(RenameFailed))
  }

  /** For `.` and `/` the temporary file stands beside the directory, and the rename fails
      exactly as long as there is a directory. */
  function InjectStep(root: Root, name: string, value: string, o: InjectOutcome): (r: (Root, Result))
    ensures root.Dir? ==> r.0.Dir?
  {
    if name == "" then (root, Err(EmptySecretName))
    else if Base(name) != name || HasDotDot(name) then (root, Err(InvalidSecretName))
    else if IsSelf(name) then
      if !o.write.Written? then (root, Err(WriteFailed))
      else if root.Dir? || !o.renamed then (root, Err(RenameFailed))
      else (Plain(value), Ok)
    else if !root.Dir? then (root, Err(WriteFailed))
    else
      var (files, r) := Store(root.files, name, value, o);
      (Dir(files), r)
  }

  /** os.Remove, with a missing file counted as removed; None when it cannot succeed: the
      directory is not empty, or a plain file stands in for it. */
  function Unlinked(root: Root, name: string): Option<Root>
  {
    if IsSelf(name) then (if root.Dir? && root.files != map[] then None else Some(Gone))
    else if name == ".." then (if root.Gone? then Some(Gone) else None)
    else match root
      case Gone => Some(Gone)
      case Dir(files) => Some(Dir(files - {name}))
      case Plain(_) => None
  }

  /** `removed` says whether the system lets a possible removal happen. */
  function RemoveStep(root: Root, name: string, removed: bool): (Root, Result)
  {
    if Base(name) != name then (root, Err(InvalidSecretName))
    else if removed && Unlinked(root, name).Some? then (Unlinked(root, name).value, Ok)
    else (root, Err(RemoveFailed))
  }

  // ----- The manager ------------------------------------------------------------------

  /** The secret directory. Each method is one file operation; what the file system decides
      is the caller's parameter. */
  class Directory {
    var root: Root
    var beside: string  // the last content of the temporary file next to the directory

    constructor (root: Root)
      ensures this.root == root
    {
      this.root, beside := root, "";
    }

    method WriteTemp(name: string, value: string, outcome: WriteOutcome) returns (ok: bool)
      modifies this
      ensures ok == (outcome.Written? && (IsSelf(name) || old(root).Dir?))
      ensures root == if !IsSelf(name) && old(root).Dir?
        then Dir(WriteFile(old(root).files, Temp(name), value, outcome)) else old(root)
      ensures ok && IsSelf(name) ==> beside == value
    {
      ok := outcome.Written?;
      if IsSelf(name) {
        beside := value;
      } else if root.Dir? {
        root := Dir(WriteFile(root.files, Temp(name), value, outcome));
      } else {
        ok := false;
      }
    }

    method RenameTemp(name: string, renamed: bool) returns (ok: bool)
      requires IsSelf(name) || (root.Dir? && Temp(name) in root.files)
      modifies this`root
      ensures ok == (renamed && !(IsSelf(name) && old(root).Dir?))
      ensures root == if !ok then old(root)
        else if IsSelf(name) then Plain(beside) else Dir(Rename(old(root).files, Temp(name), name))
    {
      ok := renamed && !(IsSelf(name) && root.Dir?);
      if ok {
        root := if IsSelf(name) then Plain(beside) else Dir(Rename(root.files, Temp(name), name));
      }
    }

    method DeleteTemp(name: string)
      modifies this`root
      ensures root == if !IsSelf(name) && old(root).Dir? then Dir(old(root).files - {Temp(name)}) else old(root)
    {
      if !IsSelf(name) && root.Dir? {
        root := Dir(root.files - {Temp(name)});
      }
    }

    method Delete(name: string, removed: bool) returns (ok: bool)
      modifies this`root
      ensures ok == (removed && Unlinked(old(root), name).Some?)
      ensures root == if ok then Unlinked(old(root), name).value else old(root)
    {
      ok := removed && Unlinked(root, name).Some?;
      if ok {
        root := Unlinked(root, name).value;
      }
    }

    /** The entries of the directory, each once. */
    method ReadDir(readable: bool) returns (entries: Option<seq<string>>)
      ensures entries.Some? <==> readable && root.Dir?
      ensures entries.Some? ==>
        && (forall i, j :: 0 <= i < j < |entries.value| ==> entries.value[i] != entries.value[j])
        && (forall name :: name in entries.value <==> name in root.files)
    {
      if !readable || !root.Dir? { return None; }
      var found := [];
      var rest := root.files.Keys;
      while rest != {}
        invariant forall i, j :: 0 <= i < j < |found| ==> found[i] != found[j]
        invariant forall name :: name in root.files <==> name in found || name in rest
        invariant forall name :: name in found ==> name !in rest
        decreases rest
      {
        var name :| name in rest;
        rest := rest - {name};
        found := found + [name];
      }
      return Some(found);
    }
  }

  /** The payload of an inject message, which Inject clears once it is stored. */
  class Secret {
    const name: string
    var value: string

    constructor (payload: SecretPayload)
      ensures name == payload.name && value == payload.value
    {
      name := payload.name;
      value := payload.value;
    }
  }

  class SecretManager {
    const dir: Directory

    constructor (dir: Directory)
      ensures this.dir == dir
    {
      this.dir := dir;
    }

    method Inject(secret: Secret, o: InjectOutcome) returns (r: Result)
      modifies dir, secret
      ensures (dir.root, r) == InjectStep(old(dir.root), secret.name, old(secret.value), o)
      ensures secret.value == if r.Ok? then "" else old(secret.value)
    {
      hide HasDotDot, Base;
      if secret.name == "" { return Err(EmptySecretName); }
      var cleanName := Base(secret.name);
      if cleanName != secret.name || HasDotDot(cleanName) { return Err(InvalidSecretName); }

      var written := dir.WriteTemp(cleanName, secret.value, o.write);
      if !written { return Err(WriteFailed); }
      var renamed := dir.RenameTemp(cleanName, o.renamed);
      if !renamed {
        if o.cleaned { dir.DeleteTemp(cleanName); }
        return Err(RenameFailed);
      }
      secret.value := "";
      return Ok;
    }

    /** The names of the secrets: every stored name but the temporary ones, each once; None
        when the directory cannot be read. */
    method List(readable: bool) returns (names: Option<seq<string>>)
      ensures names.Some? <==> readable && dir.root.Dir?
      ensures names.Some? ==>
        && (forall i, j :: 0 <= i < j < |names.value| ==> names.value[i] != names.value[j])
        && (forall name :: name in names.value <==> name in Visible(dir.root))
    {
      var entries := dir.ReadDir(readable);
      if entries.None? { return None; }
      var listed := [];
      for k := 0 to |entries.value|
        invariant forall i, j :: 0 <= i < j < |listed| ==> listed[i] != listed[j]
        invariant forall name :: name in listed <==> name in entries.value[..k] && !IsTemp(name)
      {
        assert entries.value[..k + 1] == entries.value[..k] + [entries.value[k]];
        if !IsTemp(entries.value[k]) { listed := listed + [entries.value[k]]; }
      }
      assert entries.value[..|entries.value|] == entries.value;
      return Some(listed);
    }

    method Remove(name: string, removed: bool) returns (r: Result)
      modifies dir
      ensures (dir.root, r) == RemoveStep(old(dir.root), name, removed)
    {
      var cleanName := Base(name);
      if cleanName != name { return Err(InvalidSecretName); }
      var ok := dir.Delete(cleanName, removed);
      return if ok then Ok else Err(RemoveFailed);
    }
  }

  // ----- The map it stands for --------------------------------------------------------

  /** What List and a reader of the listed names see. */
  function Visible(root: Root): Files
  {
    match root
    case Dir(files) => map name | name in files && !IsTemp(name) :: files[name]
    case _ => map[]
  }

  /** The names under which a stored secret can be listed. */
  predicate Listable(name: string)
  {
    !IsTemp(name) && !IsSelf(name)
  }

  datatype Op = Inject(name: string, value: string, o: InjectOutcome) | Remove(name: string, removed: bool)

  function Apply(root: Root, op: Op): (Root, Result)
  {
    match op
    case Inject(name, value, o) => InjectStep(root, name, value, o)
    case Remove(name, removed) => RemoveStep(root, name, removed)
  }

  /** The same operation on a plain map, given only whether it was reported as done. */
  function ApplyToMap(m: Files, op: Op, done: bool): Files
  {
    if !done then m
    else match op
      case Inject(name, value, _) => m[name := value]
      case Remove(name, _) => m - {name}
  }

  function After(root: Root, ops: seq<Op>): Root
    decreases |ops|
  {
    if ops == [] then root else Apply(After(root, Init(ops)), Last(ops)).0
  }

  function MapAfter(root: Root, ops: seq<Op>): Files
    decreases |ops|
  {
    if ops == [] then Visible(root)
    else ApplyToMap(MapAfter(root, Init(ops)), Last(ops), Apply(After(root, Init(ops)), Last(ops)).1.Ok?)
  }

  /** The operation stores a value under a name that List does not show. */
  predicate Hides(root: Root, op: Op)
  {
    op.Inject? && Apply(root, op).1.Ok? && !Listable(op.name)
  }

  ghost predicate NeverHides(root: Root, ops: seq<Op>)
    decreases |ops|
  {
    ops == [] || (NeverHides(root, Init(ops)) && !Hides(After(root, Init(ops)), Last(ops)))
  }

  /** File by file, what Inject of a simple name leaves. */
  lemma StoreFileByFile(files: Files, name: string, value: string, o: InjectOutcome, n: string)
    ensures var after := Store(files, name, value, o).0;
      Get(after, n) ==
        if n == name then (if Succeeds(o) then Some(value) else Get(files, n))
        else if n == Temp(name) then TempLeft(Get(files, n), value, o)
        else Get(files, n)
  {
    assert Temp(name) != name;
  }

  /** What is left under the temporary name, which held `was`. */
  function TempLeft(was: Option<string>, value: string, o: InjectOutcome): Option<string>
  {
    match o.write
    case NotOpened => was
    case Cut(n) => Some(Prefix(value, n))
    case Written => if o.renamed || o.cleaned then None else Some(value)
  }

  lemma SameMap(a: Files, b: Files)
    requires forall n :: Get(a, n) == Get(b, n)
    ensures a == b
  {
    forall n
      ensures n in a <==> n in b
      ensures n in a ==> a[n] == b[n]
    {
      assert Get(a, n) == Get(b, n);
    }
    assert a.Keys == b.Keys;
  }

  lemma VisibleGet(root: Root, n: string)
    ensures Get(Visible(root), n) == if root.Dir? && !IsTemp(n) then Get(root.files, n) else None
  {
  }

  /** Name by name, what an operation changes for the readers of the store. */
  lemma VisibleAfter(root: Root, op: Op, n: string)
    ensures var (after, r) := Apply(root, op);
      Get(Visible(after), n) ==
        if r.Ok? && n == op.name && Listable(n) then (if op.Inject? then Some(op.value) else None)
        else Get(Visible(root), n)
  {
    hide HasDotDot, Base, Visible;
    var after := Apply(root, op).0;
    VisibleGet(root, n);
    VisibleGet(after, n);
    if op.Inject? {
      TempIsTemp(op.name);
      if root.Dir? {
        StoreFileByFile(root.files, op.name, op.value, op.o, n);
      }
    }
  }

  lemma MapAt(m: Files, op: Op, done: bool, n: string)
    ensures Get(ApplyToMap(m, op, done), n) ==
      if done && n == op.name then (if op.Inject? then Some(op.value) else None) else Get(m, n)
  {
  }

  /** One operation on the directory is that operation on the map, a failed one changing
      nothing visible, unless it stores a value under a name that is not listed. */
  lemma StepRefines(root: Root, op: Op)
    ensures var (after, r) := Apply(root, op);
      (Visible(after) == ApplyToMap(Visible(root), op, r.Ok?)) <==> !Hides(root, op)
  {
    hide Apply, Visible, ApplyToMap;
    var (after, r) := Apply(root, op);
    var spec := ApplyToMap(Visible(root), op, r.Ok?);
    if r.Ok? && !Listable(op.name) {
      HiddenUnseen(root, op);
    }
    if Hides(root, op) {
      MapAt(Visible(root), op, r.Ok?, op.name);
    } else {
      forall n
        ensures Get(Visible(after), n) == Get(spec, n)
      {
        VisibleAfter(root, op, n);
        MapAt(Visible(root), op, r.Ok?, n);
      }
      SameMap(Visible(after), spec);
    }
  }

  lemma HiddenUnseen(root: Root, op: Op)
    requires Apply(root, op).1.Ok? && !Listable(op.name)
    ensures Get(Visible(Apply(root, op).0), op.name) == None
  {
    hide HasDotDot, Base, Visible;
    VisibleGet(Apply(root, op).0, op.name);
  }

  /** Refinement over every history: whatever fails or is cut short, at whatever file step,
      the visible store agrees, on every name that can be listed, with the plain map that
      only the operations reported as done changed. It is that map as long as none of them
      stored a value under a name that is not listed. */
  lemma {:induction false} HistoryRefines(root: Root, ops: seq<Op>)
    ensures forall n :: Listable(n) ==> Get(Visible(After(root, ops)), n) == Get(MapAfter(root, ops), n)
    ensures NeverHides(root, ops) ==> Visible(After(root, ops)) == MapAfter(root, ops)
    decreases |ops|
  {
    hide Apply, Visible, ApplyToMap, Listable;
    if ops != [] {
      var before, op := After(root, Init(ops)), Last(ops);
      HistoryRefines(root, Init(ops));
      StepRefines(before, op);
      forall n | Listable(n)
        ensures Get(Visible(After(root, ops)), n) == Get(MapAfter(root, ops), n)
      {
        VisibleAfter(before, op, n);
        MapAt(MapAfter(root, Init(ops)), op, Apply(before, op).1.Ok?, n);
      }
    }
  }

  /** The names Inject refuses: the empty one, and those with a separator or two dots in a
      row. No other name is stored in the directory than a simple one: `.` and `/` pass the
      check, and put a plain file in its place exactly when there is no directory. */
  lemma RefusedNames(root: Root, name: string, value: string, o: InjectOutcome)
    ensures var (after, r) := InjectStep(root, name, value, o);
      && (r == Err(InvalidSecretName) <==> (name != "" && name != "/" && '/' in name) || HasDotDot(name))
      && (!Simple(name) ==>
            && (r.Ok? <==> IsSelf(name) && !root.Dir? && Succeeds(o))
            && after == if r.Ok? then Plain(value) else root)
  {
    BaseFixed(name);
    hide Base, WriteFile, Rename;
    if HasDotDot(name) {
      var i :| 0 <= i < |name| - 1 && name[i] == '.' && name[i + 1] == '.';
      assert |name| >= 2;
    }
  }

  lemma NotSelf(name: string)
    requires Simple(name)
    ensures !IsSelf(name) && Base(name) == name && FileName(name)
  {
    BaseFixed(name);
    assert "/"[0] == '/';
    assert ".."[0] == '.' && ".."[1] == '.';
  }

  lemma InjectIsStore(files: Files, name: string, value: string, o: InjectOutcome)
    requires Simple(name)
    ensures InjectStep(Dir(files), name, value, o)
      == (Dir(Store(files, name, value, o).0), Store(files, name, value, o).1)
  {
    NotSelf(name);
    hide Base;
  }

  /** Leftovers of earlier failures do not reach a later inject: once it succeeds, reading the
      name gives its own value, whatever the temporary name held before. */
  lemma InjectStoresItsValue(root: Root, name: string, value: string, o: InjectOutcome)
    ensures var (after, r) := InjectStep(root, name, value, o);
      r.Ok? ==> Read(after, name) == Some(value) && Read(after, Temp(name)) == None
  {
    hide InjectStep, Store, HasDotDot, Base, WriteFile;
    assert |Temp(name)| >= |TMP|;
    RefusedNames(root, name, value, o);
    if Simple(name) && InjectStep(root, name, value, o).1.Ok? {
      StoresInDirectory(root, name, value, o);
      StoreFileByFile(root.files, name, value, o, name);
      StoreFileByFile(root.files, name, value, o, Temp(name));
    }
  }

  lemma StoresInDirectory(root: Root, name: string, value: string, o: InjectOutcome)
    requires InjectStep(root, name, value, o).1.Ok? && Simple(name)
    ensures root.Dir? && !IsSelf(name) && Succeeds(o)
    ensures InjectStep(root, name, value, o).0 == Dir(Store(root.files, name, value, o).0)
  {
    NotSelf(name);
    hide Base, HasDotDot, Rename, WriteFile;
  }

  /** Two dots in a row, anywhere in the name. */
  lemma DotDotMeaning(name: string)
    ensures HasDotDot(name) <==> exists a: string, b: string :: name == a + ".." + b
  {
    if HasDotDot(name) {
      var i :| 0 <= i < |name| - 1 && name[i] == '.' && name[i + 1] == '.';
      assert name == name[..i] + ".." + name[i + 2..];
    }
    if a: string, b: string :| name == a + ".." + b {
      assert name[|a|] == '.' && name[|a| + 1] == '.';
    }
  }

  /** The temporary names are those that end in ".tmp", and each name's own is made by putting
      that at its end. */
  lemma TempMeaning(name: string)
    ensures Temp(name) == name + ".tmp"
    ensures IsTemp(name) <==> exists a: string :: name == a + ".tmp"
    ensures IsTemp(name) <==>
      && |name| >= 4 && name[|name| - 4] == '.'
      && name[|name| - 3] == 't' && name[|name| - 2] == 'm' && name[|name| - 1] == 'p'
  {
    if IsTemp(name) {
      assert name == name[..|name| - 4] + ".tmp";
      assert name[|name| - 4..][0] == '.' && name[|name| - 4..][1] == 't';
      assert name[|name| - 4..][2] == 'm' && name[|name| - 4..][3] == 'p';
    }
    if a: string :| name == a + ".tmp" {
      assert name[|a|..] == ".tmp";
    }
    if |name| >= 4 && name[|name| - 4] == '.'
      && name[|name| - 3] == 't' && name[|name| - 2] == 'm' && name[|name| - 1] == 'p' {
      assert name[|name| - 4..] == ".tmp";
    }
  }

  /** How an inject of a simple name into the directory ends: it succeeds iff the write and the
      rename do, and says which of them failed. */
  lemma InjectEnds(files: Files, name: string, value: string, o: InjectOutcome)
    requires Simple(name)
    ensures var (after, r) := InjectStep(Dir(files), name, value, o);
      && (r == Ok <==> o.write == Written && o.renamed)
      && (r == Err(WriteFailed) <==> o.write != Written)
      && (r == Err(RenameFailed) <==> o.write == Written && !o.renamed)
      && (r == Ok ==> after == Dir(files[name := value] - {name + ".tmp"}))
      && (r.Err? ==> after.files - {name + ".tmp"} == files - {name + ".tmp"})
      && (r.Err? && o.write == Written && o.cleaned ==> name + ".tmp" !in after.files)
  {
    InjectIsStore(files, name, value, o);
    hide InjectStep, Simple, HasDotDot;
    StoreResult(files, name, value, o);
    var after, tmp := Store(files, name, value, o).0, name + ".tmp";
    StoreFileByFile(files, name, value, o, tmp);
    hide Store;
    if Succeeds(o) {
      forall n
        ensures Get(after, n) == Get(files[name := value] - {tmp}, n)
      {
        StoreFileByFile(files, name, value, o, n);
      }
      SameMap(after, files[name := value] - {tmp});
    } else {
      forall n
        ensures Get(after - {tmp}, n) == Get(files - {tmp}, n)
      {
        StoreFileByFile(files, name, value, o, n);
      }
      SameMap(after - {tmp}, files - {tmp});
    }
  }

  lemma StoreResult(files: Files, name: string, value: string, o: InjectOutcome)
    ensures Store(files, name, value, o).1
      == if o.write != Written then Err(WriteFailed) else if o.renamed then Ok else Err(RenameFailed)
  {
  }

  /** Remove refuses as invalid exactly the empty name and those with a separator other than
      "/" itself, and then changes nothing. */
  lemma RemoveRefuses(root: Root, name: string, removed: bool)
    ensures var (after, r) := RemoveStep(root, name, removed);
      && (r == Err(InvalidSecretName) <==> name == "" || ('/' in name && name != "/"))
      && (r.Err? ==> after == root)
  {
    BaseFixed(name);
  }

  /** What Remove does with the names it takes. A file of the directory is gone, whether it was
      there or not, and no other file is touched; `.` and `/` take the empty directory itself,
      or a file in its place; `..` is never removed while anything stands there. */
  lemma RemoveEnds(root: Root, name: string, removed: bool)
    requires name != "" && ('/' in name ==> name == "/")
    ensures var (after, r) := RemoveStep(root, name, removed);
      var done := removed && match root
        case Dir(files) => name != ".." && (name in {".", "/"} ==> files == map[])
        case Gone => true
        case Plain(_) => name in {".", "/"};
      && r == (if done then Ok else Err(RemoveFailed))
      && (done && name in {".", "/"} ==> after == Gone)
      && (done && name !in {".", "/"} && root.Dir? ==>
            after.Dir? && name !in after.files
            && forall other :: other != name ==> Get(after.files, other) == Get(root.files, other))
      && (!done || root == Gone ==> after == root)
  {
    BaseFixed(name);
    hide Base;
  }

  // ----- The directory itself ---------------------------------------------------------

  /** The directory goes away exactly when it is empty and `.` or `/` is removed. */
  lemma DirectoryRemovedIff(files: Files, op: Op)
    ensures !Apply(Dir(files), op).0.Dir?
      <==> op.Remove? && IsSelf(op.name) && op.removed && files == map[]
  {
    BaseFixed(op.name);
    hide HasDotDot, Base, Store;
  }

  /** Nothing brings the directory back: from then on no simple name can be injected and the
      store has nothing to list. */
  lemma {:induction false} GoneForGood(root: Root, ops: seq<Op>, name: string, value: string, o: InjectOutcome)
    requires !root.Dir? && Simple(name)
    ensures !After(root, ops).Dir? && Visible(After(root, ops)) == map[]
    ensures InjectStep(After(root, ops), name, value, o) == (After(root, ops), Err(WriteFailed))
    decreases |ops|
  {
    BaseFixed(name);
    hide HasDotDot, Base, Store;
    if ops != [] {
      GoneForGood(root, Init(ops), name, value, o);
    }
  }

  // ----- Where the store is not a map -------------------------------------------------

  /** A stored secret can be listed exactly when its name does not end in ".tmp". */
  lemma ListedIffNotTemp(files: Files, name: string, value: string, o: InjectOutcome)
    ensures var (after, r) := InjectStep(Dir(files), name, value, o);
      r.Ok? ==> (name in Visible(after) <==> !IsTemp(name))
  {
    InjectStoresItsValue(Dir(files), name, value, o);
  }

  /** Injecting `name` can disturb another secret exactly when that one is called
      `name` + ".tmp". */
  lemma DisturbsIffTemp(files: Files, name: string, other: string)
    requires Simple(name) && other in files && other != name
    ensures (forall value, o :: Get(InjectStep(Dir(files), name, value, o).0.files, other) == Get(files, other))
      <==> other != Temp(name)
  {
    if other == Temp(name) {
      var done := InjectOutcome(Written, true, true);
      InjectIsStore(files, name, "", done);
      StoreFileByFile(files, name, "", done, other);
      assert Get(InjectStep(Dir(files), name, "", done).0.files, other) == None;
    } else {
      forall value, o
        ensures Get(InjectStep(Dir(files), name, value, o).0.files, other) == Get(files, other)
      {
        InjectIsStore(files, name, value, o);
        StoreFileByFile(files, name, value, o, other);
      }
    }
  }

  /** The loss happens: inject a name with ".tmp" appended, then the name itself; both
      succeed and the first secret is gone. */
  lemma TempNameIsLost(name: string)
    requires Simple(name) && Simple(Temp(name))
    ensures var done := InjectOutcome(Written, true, true);
      var first := InjectStep(Dir(map[]), Temp(name), "1", done);
      var second := InjectStep(first.0, name, "2", done);
      && first.1.Ok? && second.1.Ok?
      && Temp(name) in first.0.files && Temp(name) !in second.0.files
  {
    hide InjectStep, Simple, Rename, WriteFile;
    var done := InjectOutcome(Written, true, true);
    InjectIsStore(map[], Temp(name), "1", done);
    var first := Store(map[], Temp(name), "1", done).0;
    InjectIsStore(first, name, "2", done);
    StoreFileByFile(map[], Temp(name), "1", done, Temp(name));
    StoreFileByFile(first, name, "2", done, Temp(name));
  }
}
