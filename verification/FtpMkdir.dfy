/** `mkdir -p` with an optional floor: `_mkdir_levels`, `_is_dir` and `FtpClient.mkdir`. */
module FtpMkdir {
  import opened FtpPaths
  import opened FtpServer
  import opened FtpWrite
  import opened Sequences
  import opened Wrappers

  /** The `.` and empty components of a path are dropped before anything else. */
  function Kept(names: seq<string>): seq<string> {
    if names == [] then []
    else if names[0] == "" || names[0] == "." then Kept(names[1..])
    else [names[0]] + Kept(names[1..])
  }

  function Parts(text: string): seq<string> {
    Kept(Split(text))
  }

  function Level(root: string, parts: seq<string>, i: nat): string
    requires i < |parts|
  {
    root + Join(parts[..i + 1])
  }

  function Levels(dir: string): (levels: seq<string>)
    ensures |levels| == |Parts(dir)|
    ensures forall i :: 0 <= i < |levels| ==> levels[i] == Level(if Absolute(dir) then "/" else "", Parts(dir), i)
  {
    var root := if Absolute(dir) then "/" else "";
    var parts := Parts(dir);
    seq(|parts|, i requires 0 <= i < |parts| => Level(root, parts, i))
  }

  datatype Plan = BadFloor | Plan(levels: seq<string>, start: nat)

  /** `_mkdir_levels`: the paths to walk, shallowest first, and how many the floor covers. */
  function MkdirLevels(dir: string, floor: Option<string>): Plan {
    if floor.None? then Plan(Levels(dir), 0)
    else
      var parts, below := Parts(dir), Parts(floor.value);
      if Absolute(floor.value) != Absolute(dir) || ".." in parts || ".." in below || !(below <= parts)
      then BadFloor
      else Plan(Levels(dir), |below|)
  }

  lemma {:induction false} KeptNames(names: seq<string>)
    ensures forall name :: name in Kept(names) ==> name in names && name != "" && name != "."
  {
    if names != [] {
      KeptNames(names[1..]);
    }
  }

  lemma {:induction false} WalkKept(p: Path, names: seq<string>)
    ensures Walk(p, Kept(names)) == Walk(p, names)
    decreases names
  {
    if names != [] {
      WalkKept(Enter(p, names[0]), names[1..]);
      if names[0] != "" && names[0] != "." {
        assert Kept(names)[0] == names[0] && Kept(names)[1..] == Kept(names[1..]);
      }
    }
  }

  lemma PartsSlashFree(text: string)
    ensures forall part :: part in Parts(text) ==> part != "" && part != "." && '/' !in part
  {
    KeptNames(Split(text));
    SplitSlashFree(text);
  }

  /** A path without `..` names exactly its origin extended by its parts. */
  lemma ResolveParts(cwd: Path, text: string)
    ensures Resolve(cwd, text) == Walk(Origin(cwd, text), Parts(text))
    ensures ".." !in Parts(text) ==> Resolve(cwd, text) == Origin(cwd, text) + Parts(text)
  {
    WalkKept(Origin(cwd, text), Split(text));
    if ".." !in Parts(text) {
      PartsSlashFree(text);
      WalkClean(Origin(cwd, text), Parts(text));
    }
  }

  /** The i-th level is the directory reached after the first i + 1 parts. */
  lemma LevelResolves(cwd: Path, dir: string, i: nat)
    requires i < |Parts(dir)|
    ensures var root := if Absolute(dir) then "/" else "";
            Resolve(cwd, Level(root, Parts(dir), i)) == Walk(Origin(cwd, dir), Parts(dir)[..i + 1])
  {
    var some := Parts(dir)[..i + 1];
    PartsSlashFree(dir);
    assert forall part :: part in some ==> part in Parts(dir);
    assert some[0] in some;
    SplitJoin(some);
    var from := Origin(cwd, dir);
    if Absolute(dir) {
      assert ("/" + Join(some))[1..] == Join(some);
      assert Split("/" + Join(some)) == [""] + some;
      assert Walk(from, [""] + some) == Walk(from, some) by {
        assert ([""] + some)[1..] == some;
      }
    } else {
      assert Join(some)[0] == some[0][0];
      assert "" + Join(some) == Join(some);
    }
  }

  /** Without `..` and with a common origin, a floor is accepted exactly when it is the
      directory itself or one of its ancestors. */
  lemma FloorAccepted(cwd: Path, dir: string, floor: string)
    requires Absolute(dir) == Absolute(floor) && ".." !in Parts(dir) && ".." !in Parts(floor)
    ensures MkdirLevels(dir, Some(floor)).Plan? <==> Resolve(cwd, floor) <= Resolve(cwd, dir)
  {
    ResolveParts(cwd, dir);
    ResolveParts(cwd, floor);
    var from := Origin(cwd, dir);
    if from + Parts(floor) <= from + Parts(dir) {
      assert Parts(floor) == (from + Parts(floor))[|from|..];
      assert Parts(dir) == (from + Parts(dir))[|from|..];
    }
  }

  lemma PrefixClean(names: seq<string>, n: nat)
    requires n <= |names| && CleanPath(names)
    ensures CleanPath(names[..n])
  {
    forall name | name in names[..n]
      ensures Clean(name)
    {
      assert name in names;
    }
  }

  /** Without `..`, a level leads where the same number of parts leads. */
  lemma LevelIsPrefix(cwd: Path, dir: string, i: nat)
    requires i < |Parts(dir)| && ".." !in Parts(dir)
    ensures var root := if Absolute(dir) then "/" else "";
            Resolve(cwd, Level(root, Parts(dir), i)) == Origin(cwd, dir) + Parts(dir)[..i + 1]
  {
    LevelResolves(cwd, dir, i);
    PartsSlashFree(dir);
    PrefixClean(Parts(dir), i + 1);
    WalkClean(Origin(cwd, dir), Parts(dir)[..i + 1]);
  }

  lemma LastLevel(cwd: Path, dir: string)
    requires Parts(dir) != []
    ensures var root := if Absolute(dir) then "/" else "";
            Resolve(cwd, Level(root, Parts(dir), |Parts(dir)| - 1)) == Resolve(cwd, dir)
  {
    var parts := Parts(dir);
    LevelResolves(cwd, dir, |parts| - 1);
    ResolveParts(cwd, dir);
    assert parts[..|parts|] == parts;
  }

  /** Every level past the floor lies strictly below it, and the last one is the directory. */
  lemma LevelsBelowFloor(cwd: Path, dir: string, floor: Option<string>, i: nat)
    requires var plan := MkdirLevels(dir, floor); plan.Plan? && plan.start <= i < |plan.levels|
    ensures var plan := MkdirLevels(dir, floor);
            && (floor.Some? ==> StrictlyBelow(Resolve(cwd, floor.value), Resolve(cwd, plan.levels[i])))
            && (i == |plan.levels| - 1 ==> Resolve(cwd, plan.levels[i]) == Resolve(cwd, dir))
  {
    LastLevel(cwd, dir);
    if floor.Some? {
      ResolveParts(cwd, floor.value);
      LevelIsPrefix(cwd, dir, i);
    }
  }

  /** MKD only from the starting directory and only below the floor, if there is one. */
  ghost predicate MkdirEvents(events: seq<Event>, home: Path, floor: Option<Path>) {
    forall e :: e in events && e.cmd.Mkd? ==>
      e.from == home && (floor.Some? ==> StrictlyBelow(floor.value, e.cmd.path))
  }

  /** No probe step changes the tree. */
  ghost predicate LookingEvents(events: seq<Event>, store: Store) {
    forall e :: e in events ==> !e.cmd.Mkd? && e.store == store
  }

  ghost predicate Unchanged(events: seq<Event>, store: Store) {
    forall e :: e in events ==> e.store == store
  }

  function Bottom(home: Path, floor: Option<string>): Option<Path> {
    if floor.None? then None else Some(Resolve(home, floor.value))
  }

  ghost predicate FloorMissing(store: Store, home: Path, floor: Option<string>) {
    floor.Some? && !IsDir(store, Resolve(home, floor.value))
  }

  /** With the floor missing, the first level MKD would make has no parent and is not there. */
  lemma FirstLevelHasNoParent(store: Store, home: Path, dir: string, floor: Option<string>)
    requires IsTree(store)
    requires var plan := MkdirLevels(dir, floor); plan.Plan? && plan.start < |plan.levels|
    ensures var plan := MkdirLevels(dir, floor);
            var p := Resolve(home, plan.levels[plan.start]);
            FloorMissing(store, home, floor) ==> p != [] && p !in store && !IsDir(store, Parent(p))
  {
    if FloorMissing(store, home, floor) {
      var start := MkdirLevels(dir, floor).start;
      LevelIsPrefix(home, dir, start);
      ResolveParts(home, floor.value);
      var p := Origin(home, dir) + Parts(dir)[..start + 1];
      assert Parts(dir)[..start] == Parts(floor.value);
      assert Parent(p) == Resolve(home, floor.value);
    }
  }

  /** A floor with as many parts as the directory is the directory. */
  lemma FloorIsDirectory(home: Path, dir: string, floor: string)
    requires var plan := MkdirLevels(dir, Some(floor)); plan.Plan? && plan.start == |plan.levels|
    ensures Resolve(home, floor) == Resolve(home, dir)
  {
    ResolveParts(home, dir);
    ResolveParts(home, floor);
    assert Parts(floor) == Parts(dir) by {
      assert |Parts(floor)| == |Parts(dir)| && Parts(floor) <= Parts(dir);
    }
  }

  lemma LastPlanned(home: Path, dir: string)
    requires Levels(dir) != []
    ensures Resolve(home, Levels(dir)[|Levels(dir)| - 1]) == Resolve(home, dir)
  {
    LastLevel(home, dir);
  }

  lemma PlanLevels(home: Path, dir: string, floor: Option<string>)
    requires var plan := MkdirLevels(dir, floor); plan.Plan? && plan.start < |plan.levels|
    ensures var plan := MkdirLevels(dir, floor);
            && (floor.Some? ==> forall level :: level in plan.levels[plan.start..] ==>
                  StrictlyBelow(Resolve(home, floor.value), Resolve(home, level)))
            && Resolve(home, plan.levels[|plan.levels| - 1]) == Resolve(home, dir)
  {
    var plan := MkdirLevels(dir, floor);
    forall i | plan.start <= i < |plan.levels|
      ensures floor.Some? ==> StrictlyBelow(Resolve(home, floor.value), Resolve(home, plan.levels[i]))
      ensures i == |plan.levels| - 1 ==> Resolve(home, plan.levels[i]) == Resolve(home, dir)
    {
      LevelsBelowFloor(home, dir, floor, i);
    }
  }

  /** What the probe finds out: a yes means a directory, and on a willing server so does
      the directory mean a yes. */
  ghost predicate ProbeDone(events: seq<Event>, a: Answer, store: Store, home: Path, p: Path) {
    && events != [] && !events[0].cmd.Cwd? && LookingEvents(events, store)
    && (a.Yes? ==> IsDir(store, p)) && (Tolerable(events) ==> a.Yes?)
    && (AllWilling(events) && IsDir(store, home) ==> (a.Yes? <==> IsDir(store, p)))
    && (a.Broke? ==> Blamed(a.reply, events))
  }

  /** A CWD in that was not answered clearly, or one back that was not answered well. */
  ghost predicate StrandsAt(events: seq<Event>, i: nat)
    requires i < |events|
  {
    && events[i].cmd.Cwd? && !events[i].reply.Good?
    && (events[i].reply.Perm? ==> i > 0 && events[i - 1].cmd.Cwd?)
  }

  /** The session may have been left inside a directory. */
  ghost predicate Strands(events: seq<Event>) {
    exists i :: 0 <= i < |events| && StrandsAt(events, i)
  }

  lemma NoCwdNoStrand(e: Event)
    requires !e.cmd.Cwd?
    ensures !Strands([e])
  {
  }

  lemma StrandsJoin(a: seq<Event>, b: seq<Event>)
    requires b != [] && !b[0].cmd.Cwd?
    ensures Strands(a + b) <==> Strands(a) || Strands(b)
  {
    if Strands(a) {
      var i :| 0 <= i < |a| && StrandsAt(a, i);
      assert StrandsAt(a + b, i);
    }
    if Strands(b) {
      var i :| 0 <= i < |b| && StrandsAt(b, i);
      assert StrandsAt(a + b, |a| + i);
    }
    if Strands(a + b) {
      var i :| 0 <= i < |a + b| && StrandsAt(a + b, i);
      if i < |a| {
        assert StrandsAt(a, i);
      } else {
        assert StrandsAt(b, i - |a|);
      }
    }
  }

  /** The failure is a reply that was received. */
  ghost predicate Blamed(failure: Reply, events: seq<Event>) {
    !failure.Good? && exists e :: e in events && e.reply == failure
  }

  /** `_is_dir`: CWD in and straight back; a connection that may be left inside is dropped. */
  method ProbeDir(client: FtpClient, dir: string) returns (a: Answer, ghost added: seq<Event>)
    requires client.connected && client.server.Valid()
    modifies client, client.server
    ensures client.server.Valid() && client.server.store == old(client.server.store)
    ensures client.server.trace == old(client.server.trace) + added
    ensures ProbeDone(added, a, old(client.server.store), old(client.server.cwd),
                      Resolve(old(client.server.cwd), dir))
    ensures client.server.cwd == old(client.server.cwd) || (a.Broke? && !client.connected)
    ensures !a.Broke? ==> client.connected
    ensures client.connected <==> !Strands(added)
  {
    var ftp := client.server;
    ghost var home, store, p := ftp.cwd, ftp.store, Resolve(ftp.cwd, dir);
    var r, here := ftp.AskPwd();
    ghost var e := Event(Pwd, home, r, store, home);
    added := [e];
    PwdOnly(e, store, home, p);
    if !r.Good? && !r.Blank? {
      return Broke(r), added;
    }
    if here == "" {
      return No, added;
    }
    ResolveIsClean(ftp.cwd, dir);
    r := ftp.Send(Cwd(Resolve(ftp.cwd, dir)));
    ghost var f := Event(Cwd(p), home, r, store, ftp.cwd);
    added := [e, f];
    PwdAndIn(e, f, store, home, p);
    if r.Perm? {
      return No, added;
    }
    if !r.Good? {
      client.Discard();
      return Broke(r), added;
    }
    ghost var inside := ftp.cwd;
    r := ftp.Send(Cwd(Resolve(ftp.cwd, here)));
    ghost var g := Event(Cwd(home), inside, r, store, ftp.cwd);
    added := [e, f, g];
    InAndBack(e, f, g, store, home, p);
    if !r.Good? {
      client.Discard();
      return Broke(r), added;
    }
    a := Yes;
  }

  lemma PwdOnly(e: Event, store: Store, home: Path, p: Path)
    requires e.cmd.Pwd? && e.store == store
    ensures !Strands([e])
    ensures e.reply.Blank? ==> ProbeDone([e], No, store, home, p)
    ensures !e.reply.Good? && !e.reply.Blank? ==> ProbeDone([e], Broke(e.reply), store, home, p)
  {
    assert e in [e];
  }

  lemma PwdAndIn(e: Event, f: Event, store: Store, home: Path, p: Path)
    requires e.cmd.Pwd? && e.store == f.store == store && f.cmd == Cwd(p)
    ensures f.reply.Perm? ==> ProbeDone([e, f], No, store, home, p) && !Strands([e, f])
    ensures !f.reply.Good? && !f.reply.Perm? ==> ProbeDone([e, f], Broke(f.reply), store, home, p) && Strands([e, f])
  {
    var both := [e, f];
    assert both[0] in both && both[1] in both && both[1] == f;
    if !f.reply.Good? && !f.reply.Perm? {
      assert StrandsAt(both, 1);
    }
  }

  lemma InAndBack(e: Event, f: Event, g: Event, store: Store, home: Path, p: Path)
    requires e.cmd.Pwd? && e.store == f.store == g.store == store && f.cmd == Cwd(p) && g.cmd == Cwd(home)
    requires e.reply.Good? && f.reply.Good? && IsDir(store, p)
    ensures if g.reply.Good? then ProbeDone([e, f, g], Yes, store, home, p) && !Strands([e, f, g])
            else ProbeDone([e, f, g], Broke(g.reply), store, home, p) && Strands([e, f, g])
  {
    var all := [e, f, g];
    assert all[0] in all && all[1] in all && all[2] in all && all[1] == f && all[2] == g;
    if !g.reply.Good? {
      assert StrandsAt(all, 2);
    }
  }

  /** The level is a directory or can be made one, and the session's directory exists. */
  ghost predicate Fits(store: Store, home: Path, level: string) {
    IsDir(store, home) && Room(store, Resolve(home, level))
  }

  /** Where the first `k` parts of the path lead. */
  function AfterParts(home: Path, dir: string, k: nat): Path
    requires k <= |Parts(dir)|
  {
    Walk(Origin(home, dir), Parts(dir)[..k])
  }

  function Covered(floor: Option<string>): nat {
    if floor.None? then 0 else |Parts(floor.value)|
  }

  /** The places MKD was sent for: those after one more part each, from the floor's parts on,
      through the last one, or up to the one that failed. */
  ghost predicate MadeInOrder(paths: seq<Path>, home: Path, dir: string, floor: Option<string>, failed: bool) {
    var c, n := Covered(floor), |Parts(dir)|;
    && c + |paths| <= n
    && (forall i :: 0 <= i < |paths| ==> paths[i] == AfterParts(home, dir, c + i + 1))
    && (if failed then c < n ==> paths != [] else c + |paths| == n)
  }

  /** All of them but the last of a failed call are directories then. */
  ghost predicate MadeDirs(paths: seq<Path>, store: Store, failed: bool) {
    forall i :: 0 <= i < |paths| - (if failed then 1 else 0) ==> IsDir(store, paths[i])
  }

  /** The walk starts in a directory, and nowhere on it there is a file. */
  ghost predicate Unobstructed(store: Store, home: Path, dir: string, floor: Option<string>) {
    && IsDir(store, home) && IsDir(store, if floor.None? then Origin(home, dir) else Resolve(home, floor.value))
    && forall k :: 0 <= Covered(floor) < k <= |Parts(dir)| ==> !IsFile(store, AfterParts(home, dir, k))
  }

  /** What one level's turn does, from `s` to `t`: one MKD there, which fails for want of a
      parent, and on a willing server for nothing else than a file in its place. */
  ghost predicate LevelDone(events: seq<Event>, failure: Option<Reply>, s: Store, t: Store, home: Path, level: string) {
    var p := Resolve(home, level);
    && OnlyAdds(s, t) && (failure.None? ==> IsDir(t, p))
    && SettledIfRefused(events, Mkd(p)) && MkdPaths(events) == [p]
    && (forall e :: e in events && e.cmd.Mkd? ==> e.cmd == Mkd(p) && e.from == home)
    && (p != [] && p !in s && !IsDir(s, Parent(p)) ==> failure.Some? && Unchanged(events, s) && t == s)
    && (Tolerable(events) ==> failure.None?)
    && (AllWilling(events) && Fits(s, home, level) ==> failure.None?)
    && (failure.Some? ==> Blamed(failure.value, events))
  }

  /** An MKD that was answered with anything but a permanent refusal. */
  lemma AnsweredLevel(s: Session, t: Session, r: Reply, level: string)
    requires Answers(s, Mkd(Resolve(s.cwd, level)), r, t) && !r.Blank? && !r.Perm?
    ensures var e := Event(Mkd(Resolve(s.cwd, level)), s.cwd, r, t.store, t.cwd);
      LevelDone([e], if r.Good? then None else Some(r), s.store, t.store, s.cwd, level)
  {
    var e := Event(Mkd(Resolve(s.cwd, level)), s.cwd, r, t.store, t.cwd);
    assert e in [e] && [e][..0] == [];
  }

  /** A refused MKD settled by the probe. */
  lemma ProbedLevel(e: Event, more: seq<Event>, a: Answer, s: Store, home: Path, level: string)
    requires e.cmd == Mkd(Resolve(home, level)) && e.from == home && e.reply.Perm? && e.store == s
    requires ProbeDone(more, a, s, home, Resolve(home, level))
    ensures LevelDone([e] + more, if a.Yes? then None else if a.No? then Some(e.reply) else Some(a.reply), s, s, home,
                      level)
  {
    MkdPathsConcat([e], more);
    NoMkdPaths(more);
    InConcat([e], more);
    assert e in [e] && [e][..0] == [];
  }

  /** One level: MKD, and for a permanent refusal a look whether a directory is there anyway. */
  method MakeLevel(client: FtpClient, level: string) returns (failure: Option<Reply>, ghost added: seq<Event>)
    requires client.connected && client.server.Valid()
    modifies client, client.server
    ensures client.server.Valid() && client.server.trace == old(client.server.trace) + added
    ensures client.server.cwd == old(client.server.cwd) || (failure.Some? && !client.connected)
    ensures failure.None? ==> client.connected
    ensures client.connected <==> !Strands(added)
    ensures LevelDone(added, failure, old(client.server.store), client.server.store, old(client.server.cwd), level)
  {
    var ftp := client.server;
    ghost var home, more := ftp.cwd, [];
    var p := Resolve(ftp.cwd, level);
    ghost var before := ftp.store;
    var r := ftp.Send(Mkd(p));
    ghost var e := Event(Mkd(p), home, r, ftp.store, ftp.cwd);
    added := [e];
    NoCwdNoStrand(e);
    if !r.Perm? {
      AnsweredLevel(Session(before, home), Session(ftp.store, ftp.cwd), r, level);
      return if r.Good? then None else Some(r), added;
    }
    var a;
    a, more := ProbeDir(client, level);
    ProbedLevel(e, more, a, before, home, level);
    StrandsJoin(added, more);
    added := added + more;
    failure := if a.Yes? then None else if a.No? then Some(r) else Some(a.reply);
  }

  function Along(from: Path, names: seq<string>, k: nat): Path
    requires k <= |names|
  {
    Walk(from, names[..k])
  }

  /** The levels lead where one name more of the walk leads each. */
  ghost predicate LevelsWalk(home: Path, levels: seq<string>, from: Path, names: seq<string>) {
    |names| == |levels| && forall i :: 0 <= i < |levels| ==> Resolve(home, levels[i]) == Along(from, names, i + 1)
  }

  /** A walk from one directory on, on which there is no file. */
  ghost predicate ClearWalk(store: Store, home: Path, from: Path, names: seq<string>) {
    && IsDir(store, home) && IsDir(store, from)
    && forall k :: 0 < k <= |names| ==> !IsFile(store, Along(from, names, k))
  }

  lemma NextLevelFits(before: Store, store: Store, home: Path, levels: seq<string>, from: Path, names: seq<string>,
                      i: nat)
    requires LevelsWalk(home, levels, from, names) && i < |levels| && IsTree(store) && OnlyAdds(before, store)
    requires ClearWalk(before, home, from, names) && IsDir(store, Along(from, names, i))
    ensures Fits(store, home, levels[i])
  {
    assert names[..i + 1] == names[..i] + [names[i]];
    WalkConcat(from, names[..i], [names[i]]);
    EnterFits(store, Along(from, names, i), names[i]);
    assert !IsFile(before, Along(from, names, i + 1));
  }

  /** Where the loop over the levels stands after `i` of them. */
  ghost predicate LevelsTried(events: seq<Event>, i: nat, failure: Option<Reply>, before: Store, store: Store,
                              home: Path, levels: seq<string>) {
    && i <= |levels| && OnlyAdds(before, store) && (failure.Some? ==> i > 0 && Blamed(failure.value, events))
    && |MkdPaths(events)| == i
    && (forall k :: 0 <= k < i ==> MkdPaths(events)[k] == Resolve(home, levels[k]))
    && MadeDirs(MkdPaths(events), store, failure.Some?)
    && (Tolerable(events) ==> failure.None?)
  }

  ghost predicate LevelsTriedOut(events: seq<Event>, failure: Option<Reply>, before: Store, after: Store,
                                 home: Path, levels: seq<string>) {
    && LevelsMade(MkdPaths(events), home, levels, failure.Some?)
    && LevelsTried(events, |MkdPaths(events)|, failure, before, after, home, levels)
  }

  lemma OneMoreLevel(a: seq<Event>, b: seq<Event>, i: nat, failure: Option<Reply>, before: Store, s: Store, t: Store,
                     home: Path, levels: seq<string>)
    requires i < |levels| && LevelsTried(a, i, None, before, s, home, levels)
    requires LevelDone(b, failure, s, t, home, levels[i])
    ensures LevelsTried(a + b, i + 1, failure, before, t, home, levels)
  {
    MkdPathsConcat(a, b);
    InConcat(a, b);
  }

  /** With the floor missing nothing has been made, and the first level has failed. */
  ghost predicate Stuck(events: seq<Event>, i: nat, failure: Option<Reply>, before: Store, store: Store) {
    Unchanged(events, before) && store == before && (i > 0 ==> failure.Some?)
  }

  lemma OneMoreStuck(a: seq<Event>, b: seq<Event>, failure: Option<Reply>, before: Store, t: Store, home: Path,
                     level: string)
    requires Stuck(a, 0, None, before, before) && LevelDone(b, failure, before, t, home, level)
    requires var p := Resolve(home, level); p != [] && p !in before && !IsDir(before, Parent(p))
    ensures Stuck(a + b, 1, failure, before, t)
  {
    InConcat(a, b);
  }

  lemma OneMoreBelow(a: seq<Event>, b: seq<Event>, failure: Option<Reply>, s: Store, t: Store, home: Path,
                     level: string, bottom: Option<Path>)
    requires MkdirEvents(a, home, bottom) && LevelDone(b, failure, s, t, home, level)
    requires bottom.Some? ==> StrictlyBelow(bottom.value, Resolve(home, level))
    ensures MkdirEvents(a + b, home, bottom)
  {
    InConcat(a, b);
  }

  /** The levels past the floor, one after another, until one fails. */
  method MakeLevels(client: FtpClient, levels: seq<string>, ghost bottom: Option<Path>, ghost stuck: bool,
                    ghost from: Path, ghost names: seq<string>)
    returns (failure: Option<Reply>, ghost added: seq<Event>)
    requires client.connected && client.server.Valid() && levels != []
    requires bottom.Some? ==>
               forall level :: level in levels ==> StrictlyBelow(bottom.value, Resolve(client.server.cwd, level))
    requires stuck ==> var p := Resolve(client.server.cwd, levels[0]);
                       p != [] && p !in client.server.store && !IsDir(client.server.store, Parent(p))
    requires LevelsWalk(client.server.cwd, levels, from, names)
    modifies client, client.server
    ensures client.server.Valid() && client.server.trace == old(client.server.trace) + added
    ensures client.server.cwd == old(client.server.cwd) || !client.connected
    ensures client.connected <==> !Strands(added)
    ensures LevelsTriedOut(added, failure, old(client.server.store), client.server.store, old(client.server.cwd),
                           levels)
    ensures MkdirEvents(added, old(client.server.cwd), bottom)
    ensures stuck ==> failure.Some? && Unchanged(added, old(client.server.store))
    ensures ClearWalk(old(client.server.store), old(client.server.cwd), from, names) ==>
              AllWilling(added) ==> failure.None?
  {
    var i := 0;
    ghost var home, before := client.server.cwd, client.server.store;
    ghost var clear := ClearWalk(before, home, from, names);
    failure, added := None, [];
    while i < |levels| && failure.None?
      invariant 0 <= i <= |levels|
      invariant client.server.Valid() && client.server.trace == old(client.server.trace) + added
      invariant if failure.None? then client.connected && client.server.cwd == home
                else client.server.cwd == home || !client.connected
      invariant client.connected <==> !Strands(added)
      invariant LevelsTried(added, i, failure, before, client.server.store, home, levels)
      invariant MkdirEvents(added, home, bottom)
      invariant stuck ==> Stuck(added, i, failure, before, client.server.store)
      invariant clear && AllWilling(added) ==> failure.None? && IsDir(client.server.store, Along(from, names, i))
    {
      ghost var s, more := client.server.store, [];
      if clear && AllWilling(added) {
        NextLevelFits(before, s, home, levels, from, names, i);
      }
      failure, more := MakeLevel(client, levels[i]);
      OneMoreLevel(added, more, i, failure, before, s, client.server.store, home, levels);
      OneMoreBelow(added, more, failure, s, client.server.store, home, levels[i], bottom);
      if stuck {
        OneMoreStuck(added, more, failure, before, client.server.store, home, levels[i]);
      }
      InConcat(added, more);
      StrandsJoin(added, more);
      ConcatAssoc(old(client.server.trace), added, more);
      added := added + more;
      i := i + 1;
    }
  }

  ghost predicate LevelsMade(paths: seq<Path>, home: Path, levels: seq<string>, failed: bool) {
    && |paths| <= |levels| && (if failed then paths != [] else |paths| == |levels|)
    && forall i :: 0 <= i < |paths| ==> paths[i] == Resolve(home, levels[i])
  }

  lemma LevelAt(home: Path, dir: string, k: nat)
    requires k < |Parts(dir)|
    ensures Resolve(home, Levels(dir)[k]) == AfterParts(home, dir, k + 1)
  {
    LevelResolves(home, dir, k);
  }

  /** More parts from where the first `c` have led. */
  lemma PartsAlong(home: Path, dir: string, c: nat, k: nat)
    requires c + k <= |Parts(dir)|
    ensures Along(AfterParts(home, dir, c), Parts(dir)[c..], k) == AfterParts(home, dir, c + k)
  {
    var parts := Parts(dir);
    assert parts[..c + k] == parts[..c] + parts[c..][..k];
    WalkConcat(Origin(home, dir), parts[..c], parts[c..][..k]);
  }

  lemma PlanStart(home: Path, dir: string, floor: Option<string>)
    requires MkdirLevels(dir, floor).Plan?
    ensures var c := Covered(floor);
            && MkdirLevels(dir, floor) == Plan(Levels(dir), c) && c <= |Parts(dir)|
            && (floor.Some? ==> AfterParts(home, dir, c) == Resolve(home, floor.value))
  {
    if floor.Some? {
      ResolveParts(home, floor.value);
      assert Parts(dir)[..Covered(floor)] == Parts(floor.value);
    }
  }

  lemma LevelAlong(home: Path, dir: string, c: nat, i: nat)
    requires c + i < |Parts(dir)|
    ensures Resolve(home, Levels(dir)[c..][i]) == Along(AfterParts(home, dir, c), Parts(dir)[c..], i + 1)
  {
    assert Levels(dir)[c..][i] == Levels(dir)[c + i];
    LevelAt(home, dir, c + i);
    PartsAlong(home, dir, c, i + 1);
  }

  /** The levels are the walk over the parts from any point on. */
  lemma LevelsAlong(home: Path, dir: string, c: nat)
    requires c <= |Parts(dir)|
    ensures LevelsWalk(home, Levels(dir)[c..], AfterParts(home, dir, c), Parts(dir)[c..])
  {
    forall i | 0 <= i < |Parts(dir)| - c
      ensures Resolve(home, Levels(dir)[c..][i]) == Along(AfterParts(home, dir, c), Parts(dir)[c..], i + 1)
    {
      LevelAlong(home, dir, c, i);
    }
  }

  lemma PlanIsMade(paths: seq<Path>, home: Path, dir: string, floor: Option<string>, failed: bool)
    requires var c := Covered(floor); c <= |Parts(dir)| && LevelsMade(paths, home, Levels(dir)[c..], failed)
    ensures MadeInOrder(paths, home, dir, floor, failed)
  {
    var c := Covered(floor);
    forall i | 0 <= i < |paths|
      ensures paths[i] == AfterParts(home, dir, c + i + 1)
    {
      assert Levels(dir)[c..][i] == Levels(dir)[c + i];
      LevelAt(home, dir, c + i);
    }
  }

  lemma UnobstructedWalk(store: Store, home: Path, dir: string, floor: Option<string>)
    requires MkdirLevels(dir, floor).Plan? && Covered(floor) <= |Parts(dir)| && Unobstructed(store, home, dir, floor)
    ensures ClearWalk(store, home, AfterParts(home, dir, Covered(floor)), Parts(dir)[Covered(floor)..])
  {
    var c := Covered(floor);
    PlanStart(home, dir, floor);
    forall k | 0 < k <= |Parts(dir)| - c
      ensures !IsFile(store, Along(AfterParts(home, dir, c), Parts(dir)[c..], k))
    {
      PartsAlong(home, dir, c, k);
    }
  }

  /** With everything covered there is only the look at the directory itself. */
  lemma CoveredTarget(home: Path, dir: string, floor: Option<string>)
    requires MkdirLevels(dir, floor).Plan? && Covered(floor) == |Parts(dir)|
    ensures AfterParts(home, dir, Covered(floor)) == Resolve(home, dir)
  {
    ResolveParts(home, dir);
    assert Parts(dir)[..|Parts(dir)|] == Parts(dir);
  }

  /** What a call with an accepted floor does. MKD goes out from the starting directory and
      below the floor only, for the missing levels in order; a missing floor stays missing;
      success means a directory; a server that refuses only what cannot be done lets it
      succeed wherever the floor is a directory and no level is a file. */
  ghost predicate MkdirDone(events: seq<Event>, failure: Option<Reply>, before: Store, after: Store,
                            home: Path, dir: string, floor: Option<string>) {
    && OnlyAdds(before, after) && (failure.None? ==> IsDir(after, Resolve(home, dir)))
    && (forall e :: e in events && e.cmd.Mkd? ==>
          e.from == home && (floor.Some? ==> StrictlyBelow(Resolve(home, floor.value), e.cmd.path)))
    && (FloorMissing(before, home, floor) ==> failure.Some? && Unchanged(events, before))
    && MadeInOrder(MkdPaths(events), home, dir, floor, failure.Some?)
    && MadeDirs(MkdPaths(events), after, failure.Some?)
    && (Tolerable(events) || (AllWilling(events) && Unobstructed(before, home, dir, floor)) ==> failure.None?)
    && (failure.Some? ==>
          Blamed(failure.value, events) || (MkdPaths(events) == [] && failure.value == Perm(550)))
  }

  /** The floor is the directory, or the path has no parts: nothing to make, but to look. */
  method ProbeCovered(client: FtpClient, dir: string, floor: Option<string>)
    returns (failure: Option<Reply>, ghost added: seq<Event>)
    requires client.connected && client.server.Valid()
    requires MkdirLevels(dir, floor).Plan? && Covered(floor) == |Parts(dir)|
    modifies client, client.server
    ensures client.server.Valid() && client.server.trace == old(client.server.trace) + added
    ensures client.server.cwd == old(client.server.cwd) || !client.connected
    ensures client.connected <==> !Strands(added)
    ensures MkdirDone(added, failure, old(client.server.store), client.server.store, old(client.server.cwd), dir, floor)
  {
    ghost var home, before := client.server.cwd, client.server.store;
    var levels := Levels(dir);
    if levels != [] {
      LastPlanned(home, dir);
    }
    var target := if levels != [] then levels[|levels| - 1] else dir;
    var a;
    a, added := ProbeDir(client, target);
    failure := if a.Yes? then None else if a.No? then Some(Perm(550)) else Some(a.reply);
    CoveredDone(added, a, before, home, dir, floor);
  }

  lemma CoveredDone(events: seq<Event>, a: Answer, store: Store, home: Path, dir: string, floor: Option<string>)
    requires MkdirLevels(dir, floor).Plan? && Covered(floor) == |Parts(dir)|
    requires ProbeDone(events, a, store, home, Resolve(home, dir))
    ensures MkdirDone(events, if a.Yes? then None else if a.No? then Some(Perm(550)) else Some(a.reply), store, store,
                      home, dir, floor)
  {
    NoMkdPaths(events);
    CoveredTarget(home, dir, floor);
    if floor.Some? {
      FloorIsDirectory(home, dir, floor.value);
    }
    if Unobstructed(store, home, dir, floor) {
      UnobstructedWalk(store, home, dir, floor);
    }
  }

  /** The levels past the floor. */
  method MakeUncovered(client: FtpClient, dir: string, floor: Option<string>)
    returns (failure: Option<Reply>, ghost added: seq<Event>)
    requires client.connected && client.server.Valid()
    requires MkdirLevels(dir, floor).Plan? && Covered(floor) < |Parts(dir)|
    modifies client, client.server
    ensures client.server.Valid() && client.server.trace == old(client.server.trace) + added
    ensures client.server.cwd == old(client.server.cwd) || !client.connected
    ensures client.connected <==> !Strands(added)
    ensures MkdirDone(added, failure, old(client.server.store), client.server.store, old(client.server.cwd), dir, floor)
  {
    ghost var home, before := client.server.cwd, client.server.store;
    var c := Covered(floor);
    PlanStart(home, dir, floor);
    LevelsAlong(home, dir, c);
    PlanLevels(home, dir, floor);
    FirstLevelHasNoParent(before, home, dir, floor);
    failure, added := MakeLevels(client, Levels(dir)[c..], Bottom(home, floor), FloorMissing(before, home, floor),
                                 AfterParts(home, dir, c), Parts(dir)[c..]);
    UncoveredDone(added, failure, before, client.server.store, home, dir, floor);
  }

  lemma LastMade(paths: seq<Path>, store: Store, home: Path, dir: string, c: nat)
    requires c < |Parts(dir)| && LevelsMade(paths, home, Levels(dir)[c..], false) && MadeDirs(paths, store, false)
    ensures IsDir(store, Resolve(home, dir))
  {
    var last := |paths| - 1;
    LastPlanned(home, dir);
    assert IsDir(store, paths[last]);
    assert Levels(dir)[c..][last] == Levels(dir)[|Levels(dir)| - 1];
  }

  lemma UncoveredDone(events: seq<Event>, failure: Option<Reply>, before: Store, after: Store, home: Path, dir: string,
                      floor: Option<string>)
    requires var c := Covered(floor);
             && MkdirLevels(dir, floor).Plan? && c < |Parts(dir)|
             && LevelsTriedOut(events, failure, before, after, home, Levels(dir)[c..])
             && (AllWilling(events) && ClearWalk(before, home, AfterParts(home, dir, c), Parts(dir)[c..]) ==>
                   failure.None?)
    requires MkdirEvents(events, home, Bottom(home, floor))
    requires FloorMissing(before, home, floor) ==> failure.Some? && Unchanged(events, before)
    ensures MkdirDone(events, failure, before, after, home, dir, floor)
  {
    PlanStart(home, dir, floor);
    PlanIsMade(MkdPaths(events), home, dir, floor, failure.Some?);
    if Unobstructed(before, home, dir, floor) {
      UnobstructedWalk(before, home, dir, floor);
    }
    if failure.None? {
      LastMade(MkdPaths(events), after, home, dir, Covered(floor));
    }
  }

  method Mkdir(client: FtpClient, dir: string, floor: Option<string>)
    returns (failure: Option<Reply>, plan: Plan, ghost added: seq<Event>)
    requires client.connected && client.server.Valid()
    modifies client, client.server
    ensures client.server.Valid() && client.server.trace == old(client.server.trace) + added
    ensures client.server.cwd == old(client.server.cwd) || !client.connected
    ensures client.connected <==> !Strands(added)
    ensures plan == MkdirLevels(dir, floor)
    ensures plan.BadFloor? ==> added == [] && client.server.store == old(client.server.store)
    ensures plan.Plan? ==> MkdirDone(added, failure, old(client.server.store), client.server.store,
                                     old(client.server.cwd), dir, floor)
  {
    plan, failure, added := MkdirLevels(dir, floor), None, [];
    if plan.BadFloor? {
      return;
    }
    PlanStart(client.server.cwd, dir, floor);
    if plan.start == |plan.levels| {
      failure, added := ProbeCovered(client, dir, floor);
    } else {
      failure, added := MakeUncovered(client, dir, floor);
    }
  }
}
