/** Lexical path processing: the cleaning of `filepath.Clean` on a Unix system, and the
    mount guard of pkg/mounts.go as a decision on strings and on path components. */
module Paths {
  import opened Basics

  /** The pieces of `s` between occurrences of `sep`; joining them gives `s` back. */
  function Split(s: string, sep: char): (parts: seq<string>)
    ensures parts != []
    ensures forall i :: 0 <= i < |parts| ==> sep !in parts[i]
    ensures Join(parts, sep) == s
  {
    if s == "" then [""]
    else
      var rest := Split(s[1..], sep);
      if s[0] == sep then
        assert ([""] + rest)[1..] == rest;
        [""] + rest
      else
        var parts := [[s[0]] + rest[0]] + rest[1..];
        assert parts[1..] == rest[1..];
        parts
  }

  /** strings.Join with a one-character separator. */
  function Join(parts: seq<string>, sep: char): string
  {
    if parts == [] then ""
    else if |parts| == 1 then parts[0]
    else parts[0] + [sep] + Join(parts[1..], sep)
  }

  /** Splitting undoes joining when no piece holds the separator. */
  lemma {:induction false} SplitJoin(parts: seq<string>, sep: char)
    requires parts != []
    requires forall i :: 0 <= i < |parts| ==> sep !in parts[i]
    ensures Split(Join(parts, sep), sep) == parts
    decreases |parts|, |parts[0]|
  {
    var s := Join(parts, sep);
    if parts[0] == "" {
      if |parts| > 1 {
        assert s[1..] == Join(parts[1..], sep);
        SplitJoin(parts[1..], sep);
      }
    } else {
      var shorter := [parts[0][1..]] + parts[1..];
      assert shorter[1..] == parts[1..];
      assert s[1..] == Join(shorter, sep);
      SplitJoin(shorter, sep);
      assert sep !in parts[0] && parts[0][0] in parts[0];
      assert [s[0]] + shorter[0] == parts[0];
    }
  }

  /** `c` put in front of the first part. */
  function Prepend(c: char, parts: seq<string>): seq<string>
    requires parts != []
  {
    [[c] + parts[0]] + parts[1..]
  }

  lemma SplitFirst(s: string, sep: char)
    requires s != ""
    ensures Split(s, sep) == if s[0] == sep then [""] + Split(s[1..], sep) else Prepend(s[0], Split(s[1..], sep))
  {
  }

  lemma PrependConcat(c: char, a: seq<string>, b: seq<string>)
    requires a != []
    ensures Prepend(c, a + b) == Prepend(c, a) + b
    ensures [""] + (a + b) == [""] + a + b
  {
  }

  lemma ConcatTail(p: string, sep: char, q: string)
    requires p != ""
    ensures (p + [sep] + q)[0] == p[0] && (p + [sep] + q)[1..] == p[1..] + [sep] + q
  {
  }

  lemma {:induction false} SplitConcat(p: string, q: string, sep: char)
    ensures Split(p + [sep] + q, sep) == Split(p, sep) + Split(q, sep)
    decreases |p|
  {
    if p == "" {
      assert (p + [sep] + q)[1..] == q;
      SplitFirst(p + [sep] + q, sep);
    } else {
      hide Split, Prepend;
      ConcatTail(p, sep, q);
      SplitFirst(p, sep);
      SplitFirst(p + [sep] + q, sep);
      SplitConcat(p[1..], q, sep);
      PrependConcat(p[0], Split(p[1..], sep), Split(q, sep));
    }
  }

  lemma SplitSingle(s: string, sep: char)
    requires sep !in s
    ensures Split(s, sep) == [s]
  {
    assert Join([s], sep) == s;
    SplitJoin([s], sep);
  }

  // ----- Resolution -------------------------------------------------------------------

  /** The component stack after meeting component `c`; `rooted` stacks stay at the root on `..`. */
  function Enter(stack: seq<string>, c: string, rooted: bool): seq<string>
  {
    if c == "" || c == "." then stack
    else if c != ".." then stack + [c]
    else if stack != [] && Last(stack) != ".." then Init(stack)
    else if rooted then stack
    else stack + [".."]
  }

  function Resolve(parts: seq<string>, stack: seq<string>, rooted: bool): seq<string>
  {
    if parts == [] then stack
    else Resolve(parts[1..], Enter(stack, parts[0], rooted), rooted)
  }

  /** No empty or `.` component, no separator inside one, and `..` only as a relative prefix. */
  ghost predicate Normal(stack: seq<string>, rooted: bool)
  {
    && (forall i :: 0 <= i < |stack| ==> stack[i] != "" && stack[i] != "." && '/' !in stack[i])
    && (forall i :: 0 <= i < |stack| && stack[i] == ".." ==>
          !rooted && forall j :: 0 <= j < i ==> stack[j] == "..")
  }

  lemma {:induction false} ResolveIsNormal(parts: seq<string>, stack: seq<string>, rooted: bool)
    requires Normal(stack, rooted)
    requires forall i :: 0 <= i < |parts| ==> '/' !in parts[i]
    ensures Normal(Resolve(parts, stack, rooted), rooted)
    decreases |parts|
  {
    if parts != [] {
      ResolveIsNormal(parts[1..], Enter(stack, parts[0], rooted), rooted);
    }
  }

  /** Resolution leaves a normal component list as it is. */
  lemma {:induction false} ResolveFixesNormal(rest: seq<string>, stack: seq<string>, rooted: bool)
    requires Normal(stack + rest, rooted)
    ensures Resolve(rest, stack, rooted) == stack + rest
    decreases |rest|
  {
    if rest == [] {
      assert stack + rest == stack;
    } else {
      var all := stack + rest;
      assert all[|stack|] == rest[0];
      if rest[0] == ".." && stack != [] {
        assert all[|stack| - 1] == Last(stack);
      }
      assert Enter(stack, rest[0], rooted) == stack + [rest[0]];
      assert (stack + [rest[0]]) + rest[1..] == all;
      ResolveFixesNormal(rest[1..], stack + [rest[0]], rooted);
    }
  }

  // ----- Cleaning ---------------------------------------------------------------------

  predicate IsAbs(path: string)
  {
    path != "" && path[0] == '/'
  }

  function Components(path: string): seq<string>
  {
    Resolve(Split(path, '/'), [], IsAbs(path))
  }

  function Render(parts: seq<string>, rooted: bool): string
  {
    if rooted then "/" + Join(parts, '/')
    else if parts == [] then "."
    else Join(parts, '/')
  }

  /** filepath.Clean: repeated separators, `.` and `..` are resolved lexically; "" becomes ".". */
  function Clean(path: string): string
  {
    Render(Components(path), IsAbs(path))
  }

  lemma ComponentsAreNormal(path: string)
    ensures Normal(Components(path), IsAbs(path))
  {
    ResolveIsNormal(Split(path, '/'), [], IsAbs(path));
  }

  /** Reading a rendered normal list back gives the list, and the same kind of path. */
  lemma RenderRoundTrip(parts: seq<string>, rooted: bool)
    requires Normal(parts, rooted)
    ensures IsAbs(Render(parts, rooted)) == rooted
    ensures Components(Render(parts, rooted)) == parts
  {
    if parts == [] {
      RenderedEmpty();
    } else {
      RenderedPieces(parts, rooted);
      assert [] + parts == parts;
      ResolveFixesNormal(parts, [], rooted);
    }
  }

  lemma RenderedEmpty()
    ensures Components("/") == [] && IsAbs("/")
    ensures Components(".") == [] && !IsAbs(".")
    ensures Render([], true) == "/"
  {
    SplitConcat("", "", '/');
    assert "" + "/" + "" == "/";
    SplitSingle("", '/');
    assert ([""] + [""])[1..] == [""];
    SplitSingle(".", '/');
  }

  lemma RenderedPieces(parts: seq<string>, rooted: bool)
    requires Normal(parts, rooted) && parts != []
    ensures IsAbs(Render(parts, rooted)) == rooted
    ensures Split(Render(parts, rooted), '/') == if rooted then [""] + parts else parts
    ensures rooted ==> forall stack :: Resolve([""] + parts, stack, rooted) == Resolve(parts, stack, rooted)
  {
    hide Split, Resolve;
    SplitJoin(parts, '/');
    if rooted {
      SplitConcat("", Join(parts, '/'), '/');
      assert "" + "/" + Join(parts, '/') == Render(parts, true);
      SplitSingle("", '/');
      forall stack
        ensures Resolve([""] + parts, stack, true) == Resolve(parts, stack, true)
      {
        SkipEmpty(parts, stack);
      }
    } else {
      assert parts[0][0] in parts[0];
      assert Render(parts, false)[0] == parts[0][0];
    }
  }

  lemma SkipEmpty(parts: seq<string>, stack: seq<string>)
    ensures Resolve([""] + parts, stack, true) == Resolve(parts, stack, true)
  {
    assert ([""] + parts)[1..] == parts;
  }

  /** Cleaning keeps what a path denotes lexically: same components, same rootedness. */
  lemma CleanKeepsMeaning(path: string)
    ensures Components(Clean(path)) == Components(path)
    ensures IsAbs(Clean(path)) == IsAbs(path)
  {
    ComponentsAreNormal(path);
    RenderRoundTrip(Components(path), IsAbs(path));
  }

  /** Cleaning is idempotent: cleaning again at teardown gives the very same string. */
  lemma CleanIdempotent(path: string)
    ensures Clean(Clean(path)) == Clean(path)
  {
    CleanKeepsMeaning(path);
  }

  /** The cleaned string itself: the components between single separators, with one in front
      of an absolute path and none at the end; "/" for the root, and "." for nothing. */
  lemma CleanShape(path: string)
    ensures Components(path) != [] ==>
      Split(Clean(path), '/') == (if IsAbs(path) then [""] else []) + Components(path)
    ensures Components(path) == [] ==> Clean(path) == if IsAbs(path) then "/" else "."
  {
    ComponentsAreNormal(path);
    if Components(path) != [] {
      RenderedPieces(Components(path), IsAbs(path));
      assert [] + Components(path) == Components(path);
    }
  }

  /** Two paths clean to one string exactly when they denote the same place. */
  lemma CleanIsCanonical(p: string, q: string)
    ensures Clean(p) == Clean(q) <==> Components(p) == Components(q) && IsAbs(p) == IsAbs(q)
  {
    CleanKeepsMeaning(p);
    CleanKeepsMeaning(q);
  }

  lemma {:induction false} ResolveConcat(a: seq<string>, b: seq<string>, stack: seq<string>, rooted: bool)
    ensures Resolve(a + b, stack, rooted) == Resolve(b, Resolve(a, stack, rooted), rooted)
    decreases |a|
  {
    if a == [] {
      assert a + b == b;
    } else {
      assert (a + b)[1..] == a[1..] + b;
      ResolveConcat(a[1..], b, Enter(stack, a[0], rooted), rooted);
    }
  }

  /** Going on from `path` by one more component enters that component. */
  lemma OneMoreComponent(path: string, c: string)
    requires path != "" && '/' !in c
    ensures IsAbs(path + "/" + c) == IsAbs(path)
    ensures Components(path + "/" + c) == Enter(Components(path), c, IsAbs(path))
  {
    assert (path + "/" + c)[0] == path[0];
    SplitConcat(path, c, '/');
    ResolveConcat(Split(path, '/'), Split(c, '/'), [], IsAbs(path));
    SplitSingle(c, '/');
  }

  predicate Ordinary(c: string)
  {
    c != "" && c != "." && c != ".." && '/' !in c
  }

  /** The laws of lexical directories: a name goes down one level, `..` comes back up from it,
      the root is its own parent, and an empty component or `.` stays. */
  lemma LexicalLaws(path: string, name: string)
    requires IsAbs(path) && Ordinary(name)
    ensures Components(path + "/" + name) == Components(path) + [name]
    ensures Components(path + "/" + name + "/" + "..") == Components(path)
    ensures Components(path) == [] ==> Components(path + "/" + "..") == []
    ensures Components(path + "/" + ".") == Components(path) == Components(path + "/" + "")
    ensures Components("/") == []
  {
    OneMoreComponent(path, name);
    OneMoreComponent(path + "/" + name, "..");
    assert Init(Components(path) + [name]) == Components(path);
    OneMoreComponent(path, "..");
    OneMoreComponent(path, ".");
    OneMoreComponent(path, "");
    RenderRoundTrip([], true);
  }

  /** The same for relative paths, which can also lead above where they start. */
  lemma RelativeLaws(path: string, name: string)
    requires path != "" && !IsAbs(path) && Ordinary(name)
    ensures Components(path + "/" + name) == Components(path) + [name]
    ensures Components(path + "/" + name + "/" + "..") == Components(path)
    ensures Components(path) == [] || Last(Components(path)) == ".." ==>
      Components(path + "/" + "..") == Components(path) + [".."]
    ensures Components(path + "/" + ".") == Components(path) == Components(path + "/" + "")
    ensures Components("") == Components(".") == [] && Components("..") == [".."] && Components(name) == [name]
  {
    OneMoreComponent(path, name);
    OneMoreComponent(path + "/" + name, "..");
    assert Init(Components(path) + [name]) == Components(path);
    OneMoreComponent(path, "..");
    OneMoreComponent(path, ".");
    OneMoreComponent(path, "");
    OneComponent("");
    OneComponent(".");
    OneComponent("..");
    OneComponent(name);
  }

  lemma OneComponent(c: string)
    requires '/' !in c
    ensures Components(c) == Enter([], c, false)
  {
    hide Split;
    SplitSingle(c, '/');
    assert !IsAbs(c) by {
      if c != "" { assert c[0] in c; }
    }
    assert Resolve([c], [], false) == Resolve([c][1..], Enter([], c, false), false);
  }

  // ----- Mount guard ------------------------------------------------------------------

  const BLOCKED: seq<string> :=
    ["/", "/nix", "/etc", "/bin", "/boot", "/dev", "/proc", "/sys", "/run"]

  const SYSTEM_DIRS: seq<string> := ["nix", "etc", "bin", "boot", "dev", "proc", "sys", "run"]

  /** One round of the guard loop: equality or a string prefix that ends in a separator. */
  predicate Covers(blocked: string, guestPath: string)
  {
    guestPath == blocked || blocked + "/" <= guestPath
  }

  /** A component list starts with `dir` exactly when its rendering covers "/" + dir. */
  lemma FirstComponent(parts: seq<string>, dir: string)
    requires Normal(parts, true)
    requires dir != "" && '/' !in dir
    ensures Covers("/" + dir, Render(parts, true)) <==> parts != [] && parts[0] == dir
  {
    var s := Render(parts, true);
    if parts != [] {
      var first := parts[0];
      assert s[1..] == Join(parts, '/');
      assert first <= Join(parts, '/');
      assert forall i :: 0 <= i < |first| ==> s[i + 1] == first[i];
      if |parts| > 1 {
        assert s[|first| + 1] == '/';
      }
      if first == dir {
        if |parts| > 1 {
          assert "/" + dir + "/" <= s;
        }
      } else if Covers("/" + dir, s) && |dir| < |first| {
        assert s[|dir| + 1] == first[|dir|] && first[|dir|] in first;
      }
    }
  }

  predicate Guarded(guestPath: string)
  {
    exists i :: 0 <= i < |BLOCKED| && Covers(BLOCKED[i], guestPath)
  }

  lemma BlockedDirs()
    ensures |BLOCKED| == |SYSTEM_DIRS| + 1 && BLOCKED[0] == "/"
    ensures forall i :: 0 <= i < |SYSTEM_DIRS| ==>
      SYSTEM_DIRS[i] != "" && '/' !in SYSTEM_DIRS[i] && BLOCKED[i + 1] == "/" + SYSTEM_DIRS[i]
  {
  }

  /** The entry "/" rejects the root and nothing else. */
  lemma RootEntry(parts: seq<string>)
    requires Normal(parts, true)
    ensures Covers("/", Render(parts, true)) <==> parts == []
  {
    if parts != [] {
      assert Render(parts, true)[1] == parts[0][0] && parts[0][0] in parts[0];
    }
  }

  /** The guard on strings decides on components: a path passes iff it is absolute and its
      resolved component list is non-empty and starts outside the system directories. */
  lemma GuardOnComponents(path: string)
    ensures IsAbs(Clean(path)) && !Guarded(Clean(path)) <==>
      && IsAbs(path) && Components(path) != []
      && Components(path)[0] !in {"nix", "etc", "bin", "boot", "dev", "proc", "sys", "run"}
  {
    var parts := Components(path);
    CleanKeepsMeaning(path);
    if IsAbs(path) {
      ComponentsAreNormal(path);
      BlockedDirs();
      RootEntry(parts);
      forall i | 0 <= i < |SYSTEM_DIRS|
        ensures Covers(BLOCKED[i + 1], Clean(path)) <==> parts != [] && parts[0] == SYSTEM_DIRS[i]
      {
        FirstComponent(parts, SYSTEM_DIRS[i]);
      }
      GuardFromEntries(parts, Clean(path));
    }
  }

  lemma GuardFromEntries(parts: seq<string>, guestPath: string)
    requires |BLOCKED| == |SYSTEM_DIRS| + 1
    requires Covers(BLOCKED[0], guestPath) <==> parts == []
    requires forall i :: 0 <= i < |SYSTEM_DIRS| ==>
      (Covers(BLOCKED[i + 1], guestPath) <==> parts != [] && parts[0] == SYSTEM_DIRS[i])
    ensures Guarded(guestPath) <==> parts == [] || parts[0] in SYSTEM_DIRS
  {
    if i :| 0 <= i < |BLOCKED| && Covers(BLOCKED[i], guestPath) {
      assert i > 0 ==> parts != [] && parts[0] == SYSTEM_DIRS[i - 1];
    }
    if parts == [] {
      assert Covers(BLOCKED[0], guestPath);
    } else if parts[0] in SYSTEM_DIRS {
      var i :| 0 <= i < |SYSTEM_DIRS| && SYSTEM_DIRS[i] == parts[0];
      assert Covers(BLOCKED[i + 1], guestPath);
    }
  }
}
