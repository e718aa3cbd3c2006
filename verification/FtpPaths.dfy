/** Remote path text as an FTP server reads it: split at '/', then walked component by
    component from the root or from the session's current directory. */
module FtpPaths {

  /** A resolved location: the component names from the root down. */
  type Path = seq<string>

  function Split(text: string): (parts: seq<string>)
    ensures |parts| >= 1
  {
    if text == "" then [""]
    else
      var rest := Split(text[1..]);
      if text[0] == '/' then [""] + rest else [[text[0]] + rest[0]] + rest[1..]
  }

  function Join(parts: seq<string>): string {
    if parts == [] then "" else if |parts| == 1 then parts[0] else parts[0] + "/" + Join(parts[1..])
  }

  predicate Clean(name: string) {
    name != "" && name != "." && name != ".." && '/' !in name
  }

  predicate CleanPath(p: Path) {
    forall name :: name in p ==> Clean(name)
  }

  function Enter(p: Path, name: string): Path {
    if name == "" || name == "." then p
    else if name == ".." then (if p == [] then [] else p[..|p| - 1])
    else p + [name]
  }

  function Walk(p: Path, names: seq<string>): Path
    decreases names
  {
    if names == [] then p else Walk(Enter(p, names[0]), names[1..])
  }

  predicate Absolute(text: string) {
    text != "" && text[0] == '/'
  }

  function Origin(cwd: Path, text: string): Path {
    if Absolute(text) then [] else cwd
  }

  function Resolve(cwd: Path, text: string): Path {
    Walk(Origin(cwd, text), Split(text))
  }

  /** How PWD names a directory. */
  function Render(p: Path): string {
    "/" + Join(p)
  }

  predicate StrictlyBelow(floor: Path, p: Path) {
    |floor| < |p| && p[..|floor|] == floor
  }

  lemma {:induction false} SplitSlashFree(text: string)
    ensures forall part :: part in Split(text) ==> '/' !in part
  {
    if text != "" {
      SplitSlashFree(text[1..]);
      var rest := Split(text[1..]);
      if text[0] != '/' {
        assert rest[0] in rest;
      }
    }
  }

  /** The parts with text added to the last one. */
  function Lengthen(parts: seq<string>, tail: string): seq<string>
    requires parts != []
  {
    parts[..|parts| - 1] + [parts[|parts| - 1] + tail]
  }

  lemma LengthenBehind(parts: seq<string>, c: char, tail: string)
    requires parts != []
    ensures Lengthen([""] + parts, tail) == [""] + Lengthen(parts, tail)
    ensures var long := Lengthen(parts, tail);
      Lengthen([[c] + parts[0]] + parts[1..], tail) == [[c] + long[0]] + long[1..]
  {
    if |parts| == 1 {
      assert ([c] + parts[0]) + tail == [c] + (parts[0] + tail);
    }
  }

  /** Text without a slash only lengthens the last component. */
  lemma {:induction false} SplitExtend(text: string, tail: string)
    requires '/' !in tail
    ensures Split(text + tail) == Lengthen(Split(text), tail)
  {
    if text == "" {
      assert text + tail == tail;
      SplitSingle(tail);
    } else {
      SplitExtend(text[1..], tail);
      assert (text + tail)[1..] == text[1..] + tail;
      LengthenBehind(Split(text[1..]), text[0], tail);
    }
  }

  lemma {:induction false} SplitSingle(name: string)
    requires '/' !in name
    ensures Split(name) == [name]
  {
    if name != "" {
      SplitSingle(name[1..]);
      assert [name[0]] + name[1..] == name;
    }
  }

  /** Joining slash-free components and splitting the text again gives them back. */
  lemma {:induction false} SplitJoin(parts: seq<string>)
    requires parts != []
    requires forall part :: part in parts ==> '/' !in part
    ensures Split(Join(parts)) == parts
  {
    if |parts| == 1 {
      SplitSingle(parts[0]);
    } else {
      SplitJoin(parts[1..]);
      SplitPrepend(parts[0], Join(parts[1..]));
      assert parts[0] + "/" + Join(parts[1..]) == parts[0] + ("/" + Join(parts[1..]));
    }
  }

  lemma {:induction false} SplitPrepend(name: string, rest: string)
    requires '/' !in name
    ensures Split(name + ("/" + rest)) == [name] + Split(rest)
  {
    if name == "" {
      assert name + ("/" + rest) == "/" + rest;
      assert ("/" + rest)[1..] == rest;
    } else {
      SplitPrepend(name[1..], rest);
      assert (name + ("/" + rest))[1..] == name[1..] + ("/" + rest);
      assert [name[0]] + name[1..] == name;
    }
  }

  lemma {:induction false} WalkConcat(p: Path, a: seq<string>, b: seq<string>)
    ensures Walk(p, a + b) == Walk(Walk(p, a), b)
    decreases a
  {
    if a == [] {
      assert a + b == b;
    } else {
      WalkConcat(Enter(p, a[0]), a[1..], b);
      assert (a + b)[1..] == a[1..] + b;
    }
  }

  lemma {:induction false} WalkClean(p: Path, names: seq<string>)
    requires CleanPath(names)
    ensures Walk(p, names) == p + names
    decreases names
  {
    if names != [] {
      assert names[0] in names;
      WalkClean(p + [names[0]], names[1..]);
    }
  }

  lemma {:induction false} WalkStaysClean(p: Path, names: seq<string>)
    requires CleanPath(p) && forall name :: name in names ==> '/' !in name
    ensures CleanPath(Walk(p, names))
    decreases names
  {
    if names != [] {
      assert names[0] in names;
      WalkStaysClean(Enter(p, names[0]), names[1..]);
    }
  }

  lemma ResolveIsClean(cwd: Path, text: string)
    requires CleanPath(cwd)
    ensures CleanPath(Resolve(cwd, text))
  {
    SplitSlashFree(text);
    WalkStaysClean(Origin(cwd, text), Split(text));
  }

  /** A directory's PWD text leads back to that directory from anywhere. */
  lemma RenderRoundTrip(cwd: Path, p: Path)
    requires CleanPath(p)
    ensures Absolute(Render(p)) && Resolve(cwd, Render(p)) == p
  {
    assert Render(p)[1..] == Join(p);
    assert Split(Render(p)) == [""] + Split(Join(p));
    if p == [] {
      assert Split(Render(p)) == ["", ""];
      assert Walk([], ["", ""]) == Walk([], [""]) == [];
    } else {
      SplitJoin(p);
      WalkConcat([], [""], p);
      WalkClean([], p);
      assert Walk([], [""]) == [];
    }
  }
}
