/** The fleet's mkdir and delete workers: a work list run over one session that must always
    be back in its login directory before the next relative path is sent. */
module FleetWorkers {
  import opened FtpPaths
  import opened FtpServer
  import opened Sequences

  /** How one entry ends; CwdLost means the session can no longer be trusted. */
  datatype Attempt = Fine | Refused(reply: Reply) | CwdLost

  /** Where the session is known to be: AtHome; Away after a good CWD,
      until the one back; Unknown when nobody knows; Broken when something was sent that must not have been. */
  datatype Place = AtHome | Away | Unknown | Broken

  function Next(place: Place, e: Event, home: Path): Place {
    match place
    case AtHome =>
      if e.from != home then Broken
      else if !e.cmd.Cwd? || e.reply.Perm? then AtHome
      else if e.reply.Good? then Away else Unknown
    case Away =>
      if e.cmd != Cwd(home) then Broken else if e.reply.Good? then AtHome else Unknown
    case Unknown => Broken
    case Broken => Broken
  }

  function Follow(place: Place, events: seq<Event>, home: Path): Place
    decreases |events|
  {
    if events == [] then place else Follow(Next(place, events[0], home), events[1..], home)
  }

  lemma {:induction false} FollowConcat(place: Place, a: seq<Event>, b: seq<Event>, home: Path)
    ensures Follow(place, a + b, home) == Follow(Follow(place, a, home), b, home)
    decreases a
  {
    if a == [] {
      assert a + b == b;
    } else {
      FollowConcat(Next(place, a[0], home), a[1..], b, home);
      assert (a + b)[1..] == a[1..] + b;
    }
  }

  lemma FollowOne(place: Place, e: Event, home: Path)
    ensures Follow(place, [e], home) == Next(place, e, home)
  {
    assert [e][1..] == [];
  }

  lemma {:induction false} BrokenForGood(events: seq<Event>, home: Path)
    ensures Follow(Broken, events, home) == Broken
  {
    if events != [] {
      BrokenForGood(events[1..], home);
    }
  }

  /** In a record that never breaks, everything but CWD is sent from home, and once the
      session has left all that may follow is one CWD home, after a clearly good reply. */
  lemma {:induction false} DisciplineMeans(events: seq<Event>, home: Path, i: nat)
    requires Follow(AtHome, events, home) != Broken && i < |events|
    ensures !events[i].cmd.Cwd? ==> events[i].from == home
    ensures Leaves(events[i], home) && i + 1 < |events| ==>
              events[i].reply.Good? && events[i + 1].cmd == Cwd(home)
  {
    var place := Follow(AtHome, events[..i], home);
    assert events == events[..i] + events[i..];
    FollowConcat(AtHome, events[..i], events[i..], home);
    var after := Next(place, events[i], home);
    assert Follow(place, events[i..], home) == Follow(after, events[i..][1..], home);
    if after == Broken {
      BrokenForGood(events[i..][1..], home);
    }
    if i + 1 < |events| {
      var later := events[i..][1..];
      assert later[0] == events[i + 1];
      if Next(after, later[0], home) == Broken {
        BrokenForGood(later[1..], home);
      }
    }
  }

  /** After `e` the session is elsewhere, or nobody knows where. */
  predicate Leaves(e: Event, home: Path) {
    && e.cmd.Cwd?
    && !(e.reply.Good? && e.cmd.path == home)
    && !(e.reply.Perm? && e.from == home)
  }

  /** What PWD said at login: the current directory, or "" when the reply did not parse. */
  predicate KnowsHome(home: string, cwd: Path) {
    home == "" || (Absolute(home) && Resolve([], home) == cwd)
  }

  /** Without its trailing slashes. */
  function RStrip(text: string): (r: string)
    ensures r <= text && (r == "" || r[|r| - 1] != '/') && forall i :: |r| <= i < |text| ==> text[i] == '/'
  {
    if text != "" && text[|text| - 1] == '/' then RStrip(text[..|text| - 1]) else text
  }

  lemma {:induction false} SplitTrailing(text: string)
    ensures Split(text + "/") == Split(text) + [""]
  {
    if text == "" {
      assert text + "/" == "/";
      assert Split("/") == [""] + Split("");
    } else {
      SplitTrailing(text[1..]);
      assert (text + "/")[1..] == text[1..] + "/";
    }
  }

  /** Trailing slashes do not change where a path leads, unless nothing else is left. */
  lemma {:induction false} RStripResolves(cwd: Path, text: string)
    ensures RStrip(text) != "" ==> Resolve(cwd, RStrip(text)) == Resolve(cwd, text)
    ensures RStrip(text) == "" && text != "" ==> Resolve(cwd, text) == []
    decreases |text|
  {
    if text != "" && text[|text| - 1] == '/' {
      var shorter := text[..|text| - 1];
      assert text == shorter + "/";
      RStripResolves(cwd, shorter);
      SplitTrailing(shorter);
      WalkConcat(Origin(cwd, text), Split(shorter), [""]);
      if shorter == "" {
        assert Walk([], Split("")) == [];
      }
    }
  }

  function Prefixes(dir: string): seq<string> {
    Split(RStrip(dir))
  }

  /** The i-th prefix leads to the place reached after i components. */
  lemma PrefixResolves(cwd: Path, dir: string, i: nat)
    requires 1 <= i <= |Prefixes(dir)|
    ensures var prefix := Join(Prefixes(dir)[..i]);
            prefix != "" ==> Resolve(cwd, prefix) == Walk(Origin(cwd, RStrip(dir)), Prefixes(dir)[..i])
  {
    var some := Prefixes(dir)[..i];
    SplitSlashFree(RStrip(dir));
    assert forall part :: part in some ==> part in Prefixes(dir);
    SplitJoin(some);
    var prefix := Join(some);
    if prefix != "" {
      FirstPart(RStrip(dir));
      FirstPart(prefix);
    }
  }

  /** A path is absolute exactly when it starts with an empty component and goes on. */
  lemma FirstPart(text: string)
    ensures Absolute(text) <==> text != "" && Split(text)[0] == ""
  {
  }

  /** The session's record and place between two entries. */
  ghost predicate OnTrack(events: seq<Event>, home: Path, lost: bool, cwd: Path) {
    && Follow(AtHome, events, home) != Broken && (lost <==> Follow(AtHome, events, home) != AtHome)
    && (!lost ==> cwd == home)
  }

  lemma StillOnTrack(events: seq<Event>, more: seq<Event>, home: Path, lost: bool, cwd: Path)
    requires OnTrack(events, home, false, home) && OnTrack(more, home, lost, cwd)
    ensures OnTrack(events + more, home, lost, cwd)
  {
    FollowConcat(AtHome, events, more, home);
  }

  /** `_cwd_home`. */
  method CwdHome(ftp: Server, home: string, ghost homePath: Path) returns (lost: bool, ghost added: seq<Event>)
    requires ftp.Valid() && KnowsHome(home, homePath)
    modifies ftp
    ensures ftp.Valid() && ftp.store == old(ftp.store) && ftp.trace == old(ftp.trace) + added
    ensures Follow(Away, added, homePath) != Broken && (lost <==> Follow(Away, added, homePath) != AtHome)
    ensures !lost ==> ftp.cwd == homePath
    ensures AllWilling(added) && home != "" && IsDir(ftp.store, homePath) ==> !lost
    ensures Tolerable(added) <==> !lost || home == ""
    ensures forall e :: e in added ==> e.cmd.Cwd?
  {
    if home == "" {
      return true, [];
    }
    ResolveIsClean([], home);
    var p := Resolve(ftp.cwd, home);
    var r := ftp.Send(Cwd(p));
    lost, added := !r.Good?, [Event(Cwd(p), old(ftp.cwd), r, ftp.store, ftp.cwd)];
    assert added[0] in added;
  }

  /** A probe into `p` while the session is at home; `entered` and then back again. */
  method ProbeDir(ftp: Server, p: Path, home: string) returns (probe: Reply, lost: bool, ghost added: seq<Event>)
    requires ftp.Valid() && KnowsHome(home, ftp.cwd) && CleanPath(p)
    modifies ftp
    ensures ftp.Valid() && ftp.store == old(ftp.store) && ftp.trace == old(ftp.trace) + added
    ensures OnTrack(added, old(ftp.cwd), lost, ftp.cwd)
    ensures AllWilling(added) && home != "" && IsDir(ftp.store, old(ftp.cwd)) ==>
              !lost && (probe.Good? <==> IsDir(ftp.store, p))
    ensures !lost ==> probe.Good? || probe.Perm?
    ensures probe.Good? ==> IsDir(ftp.store, p)
    ensures probe.Perm? ==> !lost && added == [Event(Cwd(p), old(ftp.cwd), probe, ftp.store, ftp.cwd)]
    ensures added != [] && forall e :: e in added ==> e.cmd.Cwd?
    ensures !probe.Perm? ==> (Tolerable(added) <==> !lost || (home == "" && probe.Good?))
    ensures !probe.Perm? ==> forall e :: e in added && e.cmd == Cwd(p) ==> e.reply != Perm(550) || lost
  {
    ghost var start, more := ftp.cwd, [];
    probe := ftp.Send(Cwd(p));
    ghost var e := Event(Cwd(p), start, probe, ftp.store, ftp.cwd);
    added, lost := [e], !probe.Perm?;
    assert e in added;
    assert Follow(AtHome, added, start) == Next(AtHome, e, start);
    if probe.Good? {
      lost, more := CwdHome(ftp, home, start);
      FollowConcat(AtHome, added, more, start);
      added := added + more;
    }
  }

  /** What the turn for one prefix does, from `s` to `t`: one MKD of it, which on a willing
      server fails for want of room only. */
  ghost predicate PrefixDone(events: seq<Event>, o: Attempt, s: Store, t: Store, home: Path, known: bool, p: Path) {
    && OnlyAdds(s, t) && MkdPaths(events) == [p] && (o.Fine? ==> IsDir(t, p))
    && SettledIfRefused(events, Mkd(p)) && (o.Refused? ==> o.reply == events[0].reply)
    && (Tolerable(events) && known ==> o.Fine?)
    && (AllWilling(events) && known && IsDir(s, home) && Room(s, p) ==> o.Fine?)
  }

  lemma AnsweredPrefix(s: Session, t: Session, r: Reply, p: Path, known: bool)
    requires Answers(s, Mkd(p), r, t) && !r.Blank? && !r.Perm?
    ensures PrefixDone([Event(Mkd(p), s.cwd, r, t.store, t.cwd)], if r.Good? then Fine else Refused(r),
                       s.store, t.store, s.cwd, known, p)
  {
    var e := Event(Mkd(p), s.cwd, r, t.store, t.cwd);
    assert e in [e] && [e][..0] == [];
  }

  /** A refused MKD settled by a look inside. */
  lemma ProbedPrefix(e: Event, more: seq<Event>, probe: Reply, lost: bool, s: Store, home: Path, known: bool, p: Path)
    requires e.cmd == Mkd(p) && e.from == home && e.reply.Perm? && e.store == s
    requires (probe.Good? ==> IsDir(s, p)) && forall f :: f in more ==> f.cmd.Cwd?
    requires AllWilling(more) && known && IsDir(s, home) ==> !lost && (probe.Good? <==> IsDir(s, p))
    requires Tolerable(more) && known ==> !lost && probe.Good?
    requires more != []
    ensures PrefixDone([e] + more, if lost then CwdLost else if probe.Good? then Fine else Refused(e.reply),
                       s, s, home, known, p)
  {
    MkdPathsConcat([e], more);
    NoMkdPaths(more);
    InConcat([e], more);
    assert e in [e] && [e][..0] == [];
  }

  /** One step of `_makedirs`: MKD a prefix, settling a permanent refusal by a look inside. */
  method MakePrefix(ftp: Server, prefix: string, home: string) returns (o: Attempt, ghost added: seq<Event>)
    requires ftp.Valid() && KnowsHome(home, ftp.cwd)
    modifies ftp
    ensures ftp.Valid() && ftp.trace == old(ftp.trace) + added
    ensures OnTrack(added, old(ftp.cwd), o.CwdLost?, ftp.cwd)
    ensures PrefixDone(added, o, old(ftp.store), ftp.store, old(ftp.cwd), home != "", Resolve(old(ftp.cwd), prefix))
  {
    ghost var start, before := ftp.cwd, ftp.store;
    ResolveIsClean(ftp.cwd, prefix);
    var p := Resolve(ftp.cwd, prefix);
    var r := ftp.Send(Mkd(p));
    ghost var e := Event(Mkd(p), start, r, ftp.store, ftp.cwd);
    added := [e];
    assert Follow(AtHome, added, start) == AtHome;
    if !r.Perm? {
      AnsweredPrefix(Session(before, start), Session(ftp.store, ftp.cwd), r, p, home != "");
      return if r.Good? then Fine else Refused(r), added;
    }
    var probe, lost;
    ghost var more;
    probe, lost, more := ProbeDir(ftp, p, home);
    FollowConcat(AtHome, added, more, start);
    ProbedPrefix(e, more, probe, lost, before, start, home != "", p);
    added := added + more;
    o := if lost then CwdLost else if probe.Good? then Fine else Refused(r);
  }

  /** Where the first `i` components lead. */
  function PrefixPath(cwd: Path, dir: string, i: nat): Path
    requires i <= |Prefixes(dir)|
  {
    Walk(Origin(cwd, RStrip(dir)), Prefixes(dir)[..i])
  }

  /** The first prefix is left out when it is empty: before a leading slash, or of no path. */
  function FirstPrefix(dir: string): nat {
    if Prefixes(dir)[0] == "" then 2 else 1
  }

  /** The prefixes tried so far, the shortest first, each making one more component; all of
      them are directories but the last of a failed call. */
  ghost predicate PrefixesMade(paths: seq<Path>, store: Store, cwd: Path, dir: string, failed: bool) {
    && FirstPrefix(dir) + |paths| <= |Prefixes(dir)| + 1 && (failed ==> paths != [])
    && (forall i :: 0 <= i < |paths| ==> paths[i] == PrefixPath(cwd, dir, FirstPrefix(dir) + i))
    && (forall i :: 0 <= i < |paths| - (if failed then 1 else 0) ==> IsDir(store, paths[i]))
  }

  /** No file stands where a component of the path leads. */
  ghost predicate NoFileOn(store: Store, cwd: Path, dir: string) {
    forall i :: 0 <= i <= |Prefixes(dir)| ==> !IsFile(store, PrefixPath(cwd, dir, i))
  }

  /** Where `_makedirs` stands before the `i`-th prefix. */
  ghost predicate PrefixesTried(events: seq<Event>, i: nat, o: Attempt, before: Store, store: Store, home: Path,
                                known: bool, dir: string) {
    && 1 <= i <= |Prefixes(dir)| + 1 && OnlyAdds(before, store)
    && PrefixesMade(MkdPaths(events), store, home, dir, !o.Fine?)
    && |MkdPaths(events)| == (if i < FirstPrefix(dir) then 0 else i - FirstPrefix(dir))
    && (Tolerable(events) && known ==> o.Fine?)
    && (AllWilling(events) && known && IsDir(before, home) && NoFileOn(before, home, dir) ==>
          o.Fine? && IsDir(store, PrefixPath(home, dir, i - 1)))
  }

  lemma {:induction false} JoinIsEmpty(parts: seq<string>)
    requires parts != []
    ensures Join(parts) == "" <==> parts == [""]
  {
  }

  /** An empty prefix leads nowhere new. */
  lemma SkippedPrefix(events: seq<Event>, before: Store, store: Store, home: Path, known: bool, dir: string)
    requires PrefixesTried(events, 1, Fine, before, store, home, known, dir) && FirstPrefix(dir) == 2
    ensures PrefixesTried(events, 2, Fine, before, store, home, known, dir)
  {
    var parts := Prefixes(dir);
    assert parts[..1] == [""] && parts[..0] == [];
    assert PrefixPath(home, dir, 1) == PrefixPath(home, dir, 0);
  }

  /** Where there is a directory after `i - 1` components, there is room after `i`. */
  lemma NextHasRoom(before: Store, store: Store, home: Path, dir: string, i: nat)
    requires 1 <= i <= |Prefixes(dir)| && IsTree(store) && OnlyAdds(before, store)
    requires NoFileOn(before, home, dir) && IsDir(store, PrefixPath(home, dir, i - 1))
    ensures Room(store, PrefixPath(home, dir, i))
  {
    var parts := Prefixes(dir);
    var from := Origin(home, RStrip(dir));
    assert parts[..i] == parts[..i - 1] + [parts[i - 1]];
    WalkConcat(from, parts[..i - 1], [parts[i - 1]]);
    EnterFits(store, PrefixPath(home, dir, i - 1), parts[i - 1]);
    assert !IsFile(before, PrefixPath(home, dir, i));
  }

  lemma OneMorePrefix(a: seq<Event>, b: seq<Event>, i: nat, o: Attempt, before: Store, s: Store, t: Store, home: Path,
                      known: bool, dir: string)
    requires FirstPrefix(dir) <= i <= |Prefixes(dir)| && IsTree(s)
    requires PrefixesTried(a, i, Fine, before, s, home, known, dir)
    requires PrefixDone(b, o, s, t, home, known, PrefixPath(home, dir, i))
    ensures PrefixesTried(a + b, i + 1, o, before, t, home, known, dir)
  {
    MkdPathsConcat(a, b);
    InConcat(a, b);
    if AllWilling(a + b) && known && IsDir(before, home) && NoFileOn(before, home, dir) {
      NextHasRoom(before, s, home, dir, i);
    }
  }

  /** The turn for the i-th prefix, unless it is the empty one before a leading slash. */
  method MakePart(ftp: Server, dir: string, i: nat, home: string, ghost before: Store, ghost events: seq<Event>)
    returns (o: Attempt, ghost added: seq<Event>)
    requires ftp.Valid() && KnowsHome(home, ftp.cwd) && 1 <= i <= |Prefixes(dir)|
    requires PrefixesTried(events, i, Fine, before, ftp.store, ftp.cwd, home != "", dir)
    modifies ftp
    ensures ftp.Valid() && ftp.trace == old(ftp.trace) + added
    ensures OnTrack(added, old(ftp.cwd), o.CwdLost?, ftp.cwd)
    ensures PrefixesTried(events + added, i + 1, o, before, ftp.store, old(ftp.cwd), home != "", dir)
  {
    ghost var s, start := ftp.store, ftp.cwd;
    var prefix := Join(Prefixes(dir)[..i]);
    o, added := Fine, [];
    JoinIsEmpty(Prefixes(dir)[..i]);
    if prefix == "" {
      SkippedPrefix(events, before, s, start, home != "", dir);
      assert events + added == events;
    } else {
      PrefixResolves(ftp.cwd, dir, i);
      o, added := MakePrefix(ftp, prefix, home);
      OneMorePrefix(events, added, i, o, before, s, ftp.store, start, home != "", dir);
    }
  }

  /** What `_makedirs` does: the prefixes in order, all of them unless it fails; on a willing
      server nothing but a file in the way makes it fail. */
  ghost predicate DirsDone(events: seq<Event>, o: Attempt, s: Store, t: Store, home: Path, known: bool, dir: string) {
    && OnlyAdds(s, t) && PrefixesMade(MkdPaths(events), t, home, dir, !o.Fine?)
    && (o.Fine? ==> IsDir(t, Resolve(home, dir)) && FirstPrefix(dir) + |MkdPaths(events)| == |Prefixes(dir)| + 1)
    && (Tolerable(events) && known ==> o.Fine?)
    && (AllWilling(events) && known && NoFileOn(s, home, dir) ==> o.Fine?)
  }

  lemma AllPrefixes(events: seq<Event>, o: Attempt, s: Store, t: Store, home: Path, known: bool, dir: string)
    requires IsTree(s) && IsTree(t) && IsDir(s, home)
    requires exists i :: PrefixesTried(events, i, o, s, t, home, known, dir) && (o.Fine? ==> i == |Prefixes(dir)| + 1)
    ensures DirsDone(events, o, s, t, home, known, dir)
  {
    if o.Fine? {
      var n := |Prefixes(dir)|;
      WholePrefix(home, dir);
      FirstOfMany(dir);
      var paths := MkdPaths(events);
      if FirstPrefix(dir) <= n {
        assert paths[n - FirstPrefix(dir)] == PrefixPath(home, dir, n);
        PrefixResolves(home, dir, n);
        JoinIsEmpty(Prefixes(dir)[..n]);
      }
    }
  }

  /** Nothing is left out but the one empty component of a path without any. */
  lemma FirstOfMany(dir: string)
    ensures FirstPrefix(dir) <= |Prefixes(dir)| || (FirstPrefix(dir) == 2 && Prefixes(dir) == [""])
  {
  }

  /** `_makedirs`: every non-empty prefix in turn. */
  method MakeDirs(ftp: Server, dir: string, home: string) returns (o: Attempt, ghost added: seq<Event>)
    requires ftp.Valid() && KnowsHome(home, ftp.cwd) && IsDir(ftp.store, ftp.cwd)
    modifies ftp
    ensures ftp.Valid() && ftp.trace == old(ftp.trace) + added
    ensures OnTrack(added, old(ftp.cwd), o.CwdLost?, ftp.cwd)
    ensures DirsDone(added, o, old(ftp.store), ftp.store, old(ftp.cwd), home != "", dir)
  {
    ghost var start, before := ftp.cwd, ftp.store;
    var parts := Prefixes(dir);
    o, added := Fine, [];
    var i := 1;
    StartsSomewhere(before, start, dir);
    while i <= |parts| && o.Fine?
      invariant 1 <= i <= |parts| + 1
      invariant ftp.Valid() && ftp.trace == old(ftp.trace) + added
      invariant OnTrack(added, start, o.CwdLost?, ftp.cwd)
      invariant PrefixesTried(added, i, o, before, ftp.store, start, home != "", dir)
    {
      ghost var more;
      o, more := MakePart(ftp, dir, i, home, before, added);
      StillOnTrack(added, more, start, o.CwdLost?, ftp.cwd);
      added := added + more;
      i := i + 1;
    }
    AllPrefixes(added, o, before, ftp.store, start, home != "", dir);
  }

  lemma StartsSomewhere(store: Store, home: Path, dir: string)
    requires IsTree(store) && IsDir(store, home)
    ensures PrefixPath(home, dir, 0) == Origin(home, RStrip(dir)) && IsDir(store, PrefixPath(home, dir, 0))
  {
    assert Prefixes(dir)[..0] == [];
  }

  lemma WholePrefix(cwd: Path, dir: string)
    ensures var parts := Prefixes(dir);
            var prefix := Join(parts[..|parts|]);
            && prefix == RStrip(dir)
            && (prefix != "" ==> Resolve(cwd, prefix) == Resolve(cwd, dir))
            && (prefix == "" ==> Resolve(cwd, dir) == [] || Resolve(cwd, dir) == cwd)
  {
    var parts := Prefixes(dir);
    assert parts[..|parts|] == parts;
    JoinSplit(RStrip(dir));
    RStripResolves(cwd, dir);
    if dir == "" {
      assert Resolve(cwd, "") == Walk(cwd, [""]);
    }
  }

  lemma {:induction false} JoinSplit(text: string)
    ensures Join(Split(text)) == text
  {
    if text != "" {
      JoinSplit(text[1..]);
      var rest := Split(text[1..]);
      if text[0] == '/' {
        assert Join([""] + rest) == "" + "/" + Join(rest);
      } else if |rest| > 1 {
        assert ([[text[0]] + rest[0]] + rest[1..])[1..] == rest[1..];
      }
    }
  }

  datatype Report = Report(results: seq<string>, failed: seq<string>, hostFailed: bool)

  /** Each entry is reported once, as a result or as a failure. */
  ghost predicate ReportsExactly(report: Report, entries: seq<string>) {
    multiset(report.results) + multiset(report.failed) == multiset(entries)
  }

  /** The report after entry `i`; losing the directory fails everything from there on. */
  function Tally(report: Report, entries: seq<string>, i: nat, o: Attempt): Report
    requires i < |entries|
  {
    match o
    case Fine => report.(results := report.results + [entries[i]])
    case Refused(_) => report.(failed := report.failed + [entries[i]])
    case CwdLost => report.(failed := report.failed + entries[i..])
  }

  lemma TallyReports(report: Report, entries: seq<string>, i: nat, o: Attempt)
    requires i < |entries| && ReportsExactly(report, entries[..i])
    ensures ReportsExactly(Tally(report, entries, i, o), if o.CwdLost? then entries else entries[..i + 1])
  {
    assert entries[..i + 1] == entries[..i] + [entries[i]];
    assert entries == entries[..i] + entries[i..];
  }

  ghost predicate AllDirs(dirs: seq<string>, store: Store, home: Path) {
    forall dir :: dir in dirs ==> IsDir(store, Resolve(home, dir))
  }

  /** Where the mkdir loop stands once the first `k` entries are accounted for. */
  ghost predicate MkdirsDone(report: Report, dirs: seq<string>, k: nat, events: seq<Event>,
                             before: Store, store: Store, home: Path, known: bool) {
    && k <= |dirs| && !report.hostFailed && OnlyAdds(before, store)
    && ReportsExactly(report, dirs[..k])
    && AllDirs(report.results, store, home)
    && (Tolerable(events) && known ==> report.results == dirs[..k])
    && (AllWilling(events) && known && (forall dir :: dir in dirs ==> NoFileOn(before, home, dir)) ==>
          report.results == dirs[..k])
  }

  lemma OneMoreMkdir(report: Report, dirs: seq<string>, i: nat, o: Attempt, a: seq<Event>, b: seq<Event>,
                     before: Store, s: Store, t: Store, home: Path, known: bool)
    requires i < |dirs| && MkdirsDone(report, dirs, i, a, before, s, home, known)
    requires DirsDone(b, o, s, t, home, known, dirs[i])
    ensures MkdirsDone(Tally(report, dirs, i, o), dirs, if o.CwdLost? then |dirs| else i + 1, a + b, before, t, home,
                       known)
  {
    var next := Tally(report, dirs, i, o);
    assert dirs[..|dirs|] == dirs && dirs[..i + 1] == dirs[..i] + [dirs[i]];
    assert ReportsExactly(next, if o.CwdLost? then dirs else dirs[..i + 1]) by {
      TallyReports(report, dirs, i, o);
    }
    assert AllDirs(next.results, t, home);
    InConcat(a, b);
    WillingEntry(b, o, before, s, t, home, known, dirs, i);
  }

  lemma WillingEntry(events: seq<Event>, o: Attempt, before: Store, s: Store, t: Store, home: Path, known: bool,
                     dirs: seq<string>, i: nat)
    requires i < |dirs| && OnlyAdds(before, s) && DirsDone(events, o, s, t, home, known, dirs[i])
    ensures AllWilling(events) && known && (forall dir :: dir in dirs ==> NoFileOn(before, home, dir)) ==> o.Fine?
  {
    if NoFileOn(before, home, dirs[i]) {
      FilesAreOld(before, s, home, dirs[i]);
    }
    assert dirs[i] in dirs;
  }

  lemma FilesAreOld(before: Store, store: Store, home: Path, dir: string)
    requires OnlyAdds(before, store) && NoFileOn(before, home, dir)
    ensures NoFileOn(store, home, dir)
  {
    forall i | 0 <= i <= |Prefixes(dir)|
      ensures !IsFile(store, PrefixPath(home, dir, i))
    {
      assert !IsFile(before, PrefixPath(home, dir, i));
    }
  }

  /** The loop of `_mkdir_worker`, in an open session. */
  method RunMkdirs(ftp: Server, dirs: seq<string>, home: string) returns (report: Report, ghost added: seq<Event>)
    requires ftp.Valid() && IsDir(ftp.store, ftp.cwd) && KnowsHome(home, ftp.cwd)
    modifies ftp
    ensures ftp.Valid() && ftp.trace == old(ftp.trace) + added
    ensures Follow(AtHome, added, old(ftp.cwd)) != Broken
    ensures MkdirsDone(report, dirs, |dirs|, added, old(ftp.store), ftp.store, old(ftp.cwd), home != "")
  {
    ghost var start, before := ftp.cwd, ftp.store;
    report, added := Report([], [], false), [];
    var i, lost := 0, false;
    while i < |dirs| && !lost
      invariant 0 <= i <= |dirs| && (lost ==> i == |dirs|)
      invariant ftp.Valid() && ftp.trace == old(ftp.trace) + added
      invariant OnTrack(added, start, lost, ftp.cwd)
      invariant MkdirsDone(report, dirs, i, added, before, ftp.store, start, home != "")
    {
      ghost var s, more := ftp.store, [];
      var o;
      o, more := MakeDirs(ftp, dirs[i], home);
      StillOnTrack(added, more, start, o.CwdLost?, ftp.cwd);
      OneMoreMkdir(report, dirs, i, o, added, more, before, s, ftp.store, start, home != "");
      added := added + more;
      report, lost := Tally(report, dirs, i, o), o.CwdLost?;
      i := if lost then |dirs| else i + 1;
    }
  }

  /** `_mkdir_worker`; `loggedIn` says whether connecting and logging in worked. */
  method MkdirWorker(ftp: Server, dirs: seq<string>, loggedIn: bool)
    returns (report: Report, pwd: Reply, ghost added: seq<Event>)
    requires ftp.Valid() && IsDir(ftp.store, ftp.cwd)
    modifies ftp
    ensures ftp.Valid() && ftp.trace == old(ftp.trace) + added && OnlyAdds(old(ftp.store), ftp.store)
    ensures Follow(AtHome, added, old(ftp.cwd)) != Broken
    ensures report.hostFailed <==> !loggedIn || !(pwd.Good? || pwd.Blank?)
    ensures loggedIn ==> added != [] && added[0].cmd.Pwd? && added[0].reply == pwd
    ensures if report.hostFailed then report == Report([], [], true) else ReportsExactly(report, dirs)
    ensures AllDirs(report.results, ftp.store, old(ftp.cwd))
    ensures loggedIn && Tolerable(added) ==> report.results == dirs
    ensures loggedIn && AllWilling(added) ==>
              (forall dir :: dir in dirs ==> NoFileOn(old(ftp.store), old(ftp.cwd), dir)) ==> report.results == dirs
  {
    report, pwd, added := Report([], [], true), Pending, [];
    if !loggedIn {
      return;
    }
    ghost var start, more := ftp.cwd, [];
    var home;
    pwd, home := ftp.AskPwd();
    added := [Event(Pwd, start, pwd, ftp.store, start)];
    assert added[0] in added;
    if pwd.Good? || pwd.Blank? {
      report, more := RunMkdirs(ftp, dirs, home);
      assert dirs[..|dirs|] == dirs;
      FollowConcat(AtHome, added, more, start);
      InConcat(added, more);
      added := added + more;
    }
  }

  /** The removal itself was answered with a good reply. */
  ghost predicate Removed(events: seq<Event>, cmd: Cmd) {
    exists e :: e in events && e.cmd == cmd && e.reply.Good?
  }

  predicate IsRemoval(cmd: Cmd) {
    cmd.Dele? || cmd.Rmd?
  }

  /** The removals of a record, in order. */
  function Removals(events: seq<Event>): seq<Cmd> {
    if events == [] then []
    else
      var k := |events| - 1;
      if IsRemoval(events[k].cmd) then Removals(events[..k]) + [events[k].cmd] else Removals(events[..k])
  }

  lemma {:induction false} RemovalsConcat(a: seq<Event>, b: seq<Event>)
    ensures Removals(a + b) == Removals(a) + Removals(b)
  {
    if b == [] {
      assert a + b == a;
    } else {
      var k := |b| - 1;
      RemovalsConcat(a, b[..k]);
      assert (a + b)[..|a + b| - 1] == a + b[..k];
    }
  }

  lemma OneRemoval(e: Event)
    ensures Removals([e]) == if IsRemoval(e.cmd) then [e.cmd] else []
  {
    assert [e][..0] == [];
  }

  lemma {:induction false} NoRemovals(events: seq<Event>)
    requires forall e :: e in events ==> !IsRemoval(e.cmd)
    ensures Removals(events) == []
  {
    if events != [] {
      var k := |events| - 1;
      assert events[k] in events;
      NoRemovals(events[..k]);
    }
  }

  /** Neither a file nor a directory: SIZE and CWD both answered 550. */
  ghost predicate LooksGone(events: seq<Event>, p: Path) {
    && (exists e :: e in events && e.cmd == Size(p) && e.reply == Perm(550))
    && (exists e :: e in events && e.cmd == Cwd(p) && e.reply == Perm(550))
  }

  /** Entries only disappear, and only those at one of the paths. */
  ghost predicate OnlyRemoves(before: Store, after: Store, paths: set<Path>) {
    && (forall p :: p in after ==> p in before && after[p] == before[p])
    && (forall p :: p in before && p !in paths ==> p in after)
  }

  lemma StaysHome(events: seq<Event>, e: Event, home: Path)
    requires Follow(AtHome, events, home) == AtHome && e.from == home && !e.cmd.Cwd?
    ensures Follow(AtHome, events + [e], home) == AtHome
  {
    FollowConcat(AtHome, events, [e], home);
  }

  /** What SIZE says: a 550 means no file there, any other refusal keeps the failure. */
  datatype FileProbe = Absent | Kept | Unclear(reply: Reply)

  /** TYPE I, then SIZE. */
  method AskSize(ftp: Server, p: Path) returns (probe: FileProbe, ghost added: seq<Event>)
    requires ftp.Valid()
    modifies ftp
    ensures ftp.Valid() && ftp.trace == old(ftp.trace) + added && ftp.store == old(ftp.store) && ftp.cwd == old(ftp.cwd)
    ensures Follow(AtHome, added, ftp.cwd) == AtHome
    ensures forall e :: e in added ==> e.cmd.TypeI? || e.cmd == Size(p)
    ensures forall k :: 0 <= k < |added| && added[k].cmd.Size? ==> k > 0 && added[k - 1].reply.Good?
    ensures probe.Absent? <==> exists e :: e in added && e.cmd == Size(p) && e.reply == Perm(550)
    ensures added != [] && (probe.Unclear? ==> exists e :: e in added && Interrupts(e) && e.reply == probe.reply)
    ensures !probe.Unclear? ==> forall e :: e in added ==> !Interrupts(e)
  {
    var r := ftp.Send(TypeI);
    added := [Event(TypeI, ftp.cwd, r, ftp.store, ftp.cwd)];
    StaysHome([], added[0], ftp.cwd);
    assert [] + [added[0]] == added;
    probe := Unclear(r);
    if r.Good? {
      r := ftp.Send(Size(p));
      ghost var e := Event(Size(p), ftp.cwd, r, ftp.store, ftp.cwd);
      StaysHome(added, e, ftp.cwd);
      added := added + [e];
      assert e in added;
      probe := if r == Perm(550) then Absent else if r.Good? || r.Perm? then Kept else Unclear(r);
    }
  }

  lemma ProbeEvidence(asked: seq<Event>, more: seq<Event>, p: Path)
    requires forall e :: e in asked ==> e.cmd.TypeI? || e.cmd == Size(p)
    requires forall e :: e in more ==> e.cmd.Cwd?
    ensures LooksGone(asked + more, p) <==>
              (exists e :: e in asked && e.cmd == Size(p) && e.reply == Perm(550))
              && exists e :: e in more && e.cmd == Cwd(p) && e.reply == Perm(550)
    ensures forall e :: e in asked + more ==> !IsRemoval(e.cmd)
  {
    assert forall e :: e in asked + more <==> e in asked || e in more;
  }

  /** TYPE I failed, or SIZE with anything but a permanent refusal. */
  predicate Interrupts(e: Event) {
    (e.cmd.TypeI? && !e.reply.Good?) || (e.cmd.Size? && !e.reply.Good? && !e.reply.Perm?)
  }

  /** The original refusal is raised again, unless asking for the size failed. */
  ghost predicate RefusedFor(reply: Reply, events: seq<Event>, refusal: Reply) {
    if forall e :: e in events ==> !Interrupts(e) then reply == refusal
    else exists e :: e in events && Interrupts(e) && e.reply == reply
  }

  /** A refused removal settled by looking: TYPE I, SIZE, CWD and back. */
  method Settle(ftp: Server, p: Path, refusal: Reply, home: string) returns (o: Attempt, ghost added: seq<Event>)
    requires ftp.Valid() && KnowsHome(home, ftp.cwd) && CleanPath(p)
    modifies ftp
    ensures ftp.Valid() && ftp.trace == old(ftp.trace) + added && ftp.store == old(ftp.store)
    ensures OnTrack(added, old(ftp.cwd), o.CwdLost?, ftp.cwd)
    ensures !o.CwdLost? ==> (o.Fine? <==> LooksGone(added, p))
    ensures o.Refused? ==> RefusedFor(o.reply, added, refusal)
    ensures added != [] && forall e :: e in added ==> !IsRemoval(e.cmd)
  {
    ghost var start, more := ftp.cwd, [];
    var file;
    file, added := AskSize(ftp, p);
    if !file.Absent? {
      return Refused(if file.Kept? then refusal else file.reply), added;
    }
    var probe, lost;
    probe, lost, more := ProbeDir(ftp, p, home);
    FollowConcat(AtHome, added, more, start);
    ProbeEvidence(added, more, p);
    assert probe.Perm? ==> more[0] in more;
    added := added + more;
    o := if lost then CwdLost else if probe == Perm(550) then Fine else Refused(refusal);
  }

  /** `_remove_or_absent`: DELE or RMD; a permanent refusal is fine if the path looks gone. */
  method RemoveOrAbsent(ftp: Server, cmd: Cmd, home: string) returns (o: Attempt, ghost added: seq<Event>)
    requires ftp.Valid() && KnowsHome(home, ftp.cwd)
    requires IsRemoval(cmd) && CleanPath(cmd.path)
    modifies ftp
    ensures ftp.Valid() && ftp.trace == old(ftp.trace) + added
    ensures OnTrack(added, old(ftp.cwd), o.CwdLost?, ftp.cwd) && Removals(added) == [cmd]
    ensures OnlyRemoves(old(ftp.store), ftp.store, {cmd.path})
    ensures !o.CwdLost? ==> (o.Fine? <==> Removed(added, cmd) || LooksGone(added, cmd.path))
    ensures SettledIfRefused(added, cmd) && (o.Refused? ==> RefusedFor(o.reply, added, added[0].reply))
    ensures Removed(added, cmd) ==> cmd.path !in ftp.store
    ensures AllGood(added) ==> o.Fine?
  {
    ghost var start, before := ftp.cwd, ftp.store;
    var r := ftp.Send(cmd);
    ghost var e := Event(cmd, start, r, ftp.store, ftp.cwd);
    added := [e];
    AnsweredRemoval(Session(before, start), Session(ftp.store, ftp.cwd), r, cmd);
    RemovalRecord(e, cmd);
    OneRemoval(e);
    FollowOne(AtHome, e, start);
    if !r.Perm? {
      return if r.Good? then Fine else Refused(r), added;
    }
    ghost var more;
    o, more := Settle(ftp, cmd.path, r, home);
    FollowConcat(AtHome, added, more, start);
    SettledEvidence(e, more, cmd);
    added := added + more;
  }

  lemma AnsweredRemoval(s: Session, t: Session, r: Reply, cmd: Cmd)
    requires Answers(s, cmd, r, t) && IsRemoval(cmd)
    ensures t.cwd == s.cwd && OnlyRemoves(s.store, t.store, {cmd.path})
    ensures (r.Perm? ==> t == s) && (r.Good? ==> cmd.path !in t.store)
  {
  }

  /** What one removal adds to the evidence. */
  lemma RemovalRecord(e: Event, cmd: Cmd)
    requires e.cmd == cmd && IsRemoval(cmd)
    ensures (Removed([e], cmd) <==> e.reply.Good?) && !LooksGone([e], cmd.path)
    ensures AllGood([e]) ==> e.reply.Good?
  {
    assert e in [e];
  }

  /** What a refused removal adds to the evidence. */
  lemma SettledEvidence(e: Event, more: seq<Event>, cmd: Cmd)
    requires e.cmd == cmd && !e.reply.Good? && IsRemoval(cmd)
    requires forall f :: f in more ==> !IsRemoval(f.cmd)
    ensures Removals([e] + more) == [cmd]
    ensures !Removed([e] + more, cmd)
    ensures LooksGone([e] + more, cmd.path) <==> LooksGone(more, cmd.path)
    ensures !AllGood([e] + more)
    ensures forall reply :: RefusedFor(reply, more, e.reply) ==> RefusedFor(reply, [e] + more, e.reply)
  {
    assert forall f :: f in [e] + more <==> f == e || f in more;
    RemovalsConcat([e], more);
    NoRemovals(more);
    OneRemoval(e);
  }

  /** The delete work list: files for DELE, then directories for RMD. */
  datatype Item = Item(path: string, isDir: bool)

  function Items(files: seq<string>, dirs: seq<string>): (items: seq<Item>)
    ensures Paths(items) == files + dirs
  {
    seq(|files|, i requires 0 <= i < |files| => Item(files[i], false))
    + seq(|dirs|, i requires 0 <= i < |dirs| => Item(dirs[i], true))
  }

  function Paths(items: seq<Item>): seq<string> {
    seq(|items|, i requires 0 <= i < |items| => items[i].path)
  }

  function Removal(home: Path, item: Item): Cmd {
    if item.isDir then Rmd(Resolve(home, item.path)) else Dele(Resolve(home, item.path))
  }

  function Targets(items: seq<Item>, home: Path): set<Path> {
    set item | item in items :: Resolve(home, item.path)
  }

  /** The item was removed and is gone, or looked neither like a file nor like a directory. */
  ghost predicate Evident(item: Item, events: seq<Event>, store: Store, home: Path) {
    var p := Resolve(home, item.path);
    (Removed(events, Removal(home, item)) && p !in store) || LooksGone(events, p)
  }

  ghost predicate ResultsEvident(results: seq<string>, items: seq<Item>, events: seq<Event>, store: Store, home: Path) {
    forall path :: path in results ==>
      exists item :: item in items && item.path == path && Evident(item, events, store, home)
  }

  lemma EvidenceStays(a: seq<Event>, b: seq<Event>, before: Store, after: Store, item: Item, home: Path)
    requires forall p :: p in after ==> p in before
    ensures Evident(item, a, before, home) ==> Evident(item, a + b, after, home)
    ensures Evident(item, b, after, home) ==> Evident(item, a + b, after, home)
  {
    assert forall e :: e in a || e in b ==> e in a + b;
  }

  lemma ResultsStayEvident(report: Report, items: seq<Item>, i: nat, o: Attempt,
                           a: seq<Event>, b: seq<Event>, before: Store, after: Store, home: Path)
    requires i < |items| && forall p :: p in after ==> p in before
    requires ResultsEvident(report.results, items, a, before, home)
    requires o.Fine? ==> Evident(items[i], b, after, home)
    ensures ResultsEvident(Tally(report, Paths(items), i, o).results, items, a + b, after, home)
  {
    forall path | path in Tally(report, Paths(items), i, o).results
      ensures exists item :: item in items && item.path == path && Evident(item, a + b, after, home)
    {
      if path in report.results {
        var item :| item in items && item.path == path && Evident(item, a, before, home);
        EvidenceStays(a, b, before, after, item, home);
      } else {
        assert o.Fine? && items[i] in items && items[i].path == path;
        EvidenceStays(a, b, before, after, items[i], home);
      }
    }
  }

  ghost predicate AllGood(events: seq<Event>) {
    forall e :: e in events ==> e.reply.Good?
  }

  /** A removal was sent for each of the first `k` entries or, if the session was lost, for each
      up to the one that lost it, from which on all have failed. */
  ghost predicate SentInOrder(report: Report, items: seq<Item>, k: nat, events: seq<Event>, home: Path) {
    var sent, paths := Removals(events), Paths(items);
    && |sent| <= k <= |items| && (forall i :: 0 <= i < |sent| ==> sent[i] == Removal(home, items[i]))
    && if Follow(AtHome, events, home) == AtHome then |sent| == k
       else k == |items| && sent != [] && EndsWith(report.failed, paths[|sent| - 1..])
  }

  predicate EndsWith(s: seq<string>, tail: seq<string>) {
    |tail| <= |s| && s[|s| - |tail|..] == tail
  }

  lemma OneMoreSent(report: Report, items: seq<Item>, i: nat, o: Attempt, a: seq<Event>, b: seq<Event>, home: Path)
    requires i < |items| && SentInOrder(report, items, i, a, home) && Follow(AtHome, a, home) == AtHome
    requires Removals(b) == [Removal(home, items[i])] && (o.CwdLost? <==> Follow(AtHome, b, home) != AtHome)
    ensures SentInOrder(Tally(report, Paths(items), i, o), items, if o.CwdLost? then |items| else i + 1, a + b, home)
  {
    RemovalsConcat(a, b);
    FollowConcat(AtHome, a, b, home);
  }

  /** Where the delete loop stands once the first `k` entries are accounted for. */
  ghost predicate DeletesDone(report: Report, items: seq<Item>, k: nat, events: seq<Event>,
                              before: Store, store: Store, home: Path) {
    && DeletesTallied(report, items, k, events, before, store, home)
    && SentInOrder(report, items, k, events, home)
  }

  ghost predicate DeletesTallied(report: Report, items: seq<Item>, k: nat, events: seq<Event>,
                                 before: Store, store: Store, home: Path) {
    && k <= |items| && !report.hostFailed
    && ReportsExactly(report, Paths(items)[..k])
    && ResultsEvident(report.results, items, events, store, home)
    && OnlyRemoves(before, store, Targets(items, home))
    && (AllGood(events) ==> report.results == Paths(items)[..k])
  }

  lemma OneMoreTallied(report: Report, items: seq<Item>, i: nat, o: Attempt, a: seq<Event>, b: seq<Event>,
                       before: Store, s: Store, t: Store, home: Path)
    requires i < |items| && DeletesTallied(report, items, i, a, before, s, home)
    requires OnlyRemoves(s, t, {Resolve(home, items[i].path)})
    requires o.Fine? ==> Evident(items[i], b, t, home)
    requires AllGood(b) ==> o.Fine?
    ensures DeletesTallied(Tally(report, Paths(items), i, o), items, if o.CwdLost? then |items| else i + 1,
                           a + b, before, t, home)
  {
    var paths := Paths(items);
    assert paths[..|items|] == paths && paths[..i + 1] == paths[..i] + [paths[i]];
    assert items[i] in items && Resolve(home, items[i].path) in Targets(items, home);
    TallyReports(report, paths, i, o);
    ResultsStayEvident(report, items, i, o, a, b, s, t, home);
    InConcat(a, b);
  }

  method DeleteEntry(ftp: Server, item: Item, home: string) returns (o: Attempt, ghost added: seq<Event>)
    requires ftp.Valid() && KnowsHome(home, ftp.cwd)
    modifies ftp
    ensures ftp.Valid() && ftp.trace == old(ftp.trace) + added
    ensures OnTrack(added, old(ftp.cwd), o.CwdLost?, ftp.cwd) && Removals(added) == [Removal(old(ftp.cwd), item)]
    ensures OnlyRemoves(old(ftp.store), ftp.store, {Resolve(old(ftp.cwd), item.path)})
    ensures o.Fine? ==> Evident(item, added, ftp.store, old(ftp.cwd))
    ensures AllGood(added) ==> o.Fine?
  {
    ResolveIsClean(ftp.cwd, item.path);
    o, added := RemoveOrAbsent(ftp, Removal(ftp.cwd, item), home);
  }

  /** One turn of the loop, after `events`. */
  method DeleteNext(ftp: Server, items: seq<Item>, n: nat, report: Report, home: string,
                    ghost events: seq<Event>, ghost before: Store)
    returns (next: Report, lost: bool, ghost added: seq<Event>)
    requires ftp.Valid() && KnowsHome(home, ftp.cwd) && n < |items| && OnTrack(events, ftp.cwd, false, ftp.cwd)
    requires DeletesDone(report, items, n, events, before, ftp.store, ftp.cwd)
    modifies ftp
    ensures ftp.Valid() && ftp.trace == old(ftp.trace) + added
    ensures OnTrack(events + added, old(ftp.cwd), lost, ftp.cwd)
    ensures DeletesDone(next, items, if lost then |items| else n + 1, events + added, before, ftp.store, old(ftp.cwd))
  {
    ghost var s, start := ftp.store, ftp.cwd;
    var o;
    o, added := DeleteEntry(ftp, items[n], home);
    OneMoreTallied(report, items, n, o, events, added, before, s, ftp.store, start);
    OneMoreSent(report, items, n, o, events, added, start);
    next, lost := Tally(report, Paths(items), n, o), o.CwdLost?;
    StillOnTrack(events, added, start, lost, ftp.cwd);
  }

  lemma NothingDeleted(items: seq<Item>, store: Store, home: Path)
    ensures DeletesDone(Report([], [], false), items, 0, [], store, store, home) && OnTrack([], home, false, home)
  {
  }

  /** The loop of `_delete_worker`; the stop flag is first seen set before entry `stopAt`;
      that this is all the flag does is `FleetStop.SendsPrefix`. The first `n` entries are
      accounted for. */
  method RunDeletes(ftp: Server, items: seq<Item>, home: string, stopAt: nat)
    returns (report: Report, n: nat, ghost added: seq<Event>)
    requires ftp.Valid() && KnowsHome(home, ftp.cwd)
    modifies ftp
    ensures ftp.Valid() && ftp.trace == old(ftp.trace) + added
    ensures Follow(AtHome, added, old(ftp.cwd)) != Broken
    ensures n < |items| ==> n == stopAt
    ensures DeletesDone(report, items, n, added, old(ftp.store), ftp.store, old(ftp.cwd))
  {
    ghost var start, before := ftp.cwd, ftp.store;
    report, added, n := Report([], [], false), [], 0;
    var lost := false;
    NothingDeleted(items, before, start);
    while n < |items| && !lost && n != stopAt
      invariant 0 <= n <= |items| && (lost ==> n == |items|)
      invariant ftp.Valid() && ftp.trace == old(ftp.trace) + added
      invariant OnTrack(added, start, lost, ftp.cwd)
      invariant DeletesDone(report, items, n, added, before, ftp.store, start)
    {
      ghost var more;
      report, lost, more := DeleteNext(ftp, items, n, report, home, added, before);
      ConcatAssoc(old(ftp.trace), added, more);
      added := added + more;
      n := if lost then |items| else n + 1;
    }
  }

  /** DELE for the files in their order, then RMD for the directories in theirs. */
  ghost predicate FilesThenDirs(sent: seq<Cmd>, files: seq<string>, dirs: seq<string>, home: Path) {
    && |sent| <= |files| + |dirs|
    && forall i :: 0 <= i < |sent| ==>
         sent[i] == if i < |files| then Dele(Resolve(home, files[i])) else Rmd(Resolve(home, dirs[i - |files|]))
  }

  lemma SentByKind(report: Report, files: seq<string>, dirs: seq<string>, n: nat, events: seq<Event>, home: Path)
    requires SentInOrder(report, Items(files, dirs), n, events, home)
    ensures FilesThenDirs(Removals(events), files, dirs, home)
  {
    var items := Items(files, dirs);
    assert |items| == |files| + |dirs|;
    forall i | 0 <= i < |Removals(events)|
      ensures Removals(events)[i]
           == if i < |files| then Dele(Resolve(home, files[i])) else Rmd(Resolve(home, dirs[i - |files|]))
    {
      assert items[i] == if i < |files| then Item(files[i], false) else Item(dirs[i - |files|], true);
    }
  }

  /** `_delete_worker`. */
  method DeleteWorker(ftp: Server, files: seq<string>, dirs: seq<string>, loggedIn: bool, stopAt: nat)
    returns (report: Report, pwd: Reply, n: nat, ghost added: seq<Event>)
    requires ftp.Valid()
    modifies ftp
    ensures ftp.Valid() && ftp.trace == old(ftp.trace) + added
    ensures Follow(AtHome, added, old(ftp.cwd)) != Broken
    ensures report.hostFailed <==> !loggedIn || !(pwd.Good? || pwd.Blank?)
    ensures loggedIn ==> added != [] && added[0].cmd.Pwd? && added[0].reply == pwd
    ensures FilesThenDirs(Removals(added), files, dirs, old(ftp.cwd))
    ensures if report.hostFailed then report == Report([], [], true) && ftp.store == old(ftp.store)
            else DeletesDone(report, Items(files, dirs), n, added, old(ftp.store), ftp.store, old(ftp.cwd))
                 && (n < |Items(files, dirs)| ==> n == stopAt)
  {
    report, pwd, n, added := Report([], [], true), Pending, 0, [];
    if !loggedIn {
      return;
    }
    var home;
    ghost var start, before := ftp.cwd, ftp.store;
    pwd, home := ftp.AskPwd();
    ghost var e := Event(Pwd, start, pwd, before, start);
    LoggedIn(e, [], start);
    OneRemoval(e);
    assert [e] + [] == [e];
    added := [e];
    if pwd.Good? || pwd.Blank? {
      var items := Items(files, dirs);
      ghost var more;
      report, n, more := RunDeletes(ftp, items, home, stopAt);
      LoggedIn(e, more, start);
      LoginJoins(report, items, n, e, more, before, ftp.store, start);
      SentByKind(report, files, dirs, n, [e] + more, start);
      ConcatAssoc(old(ftp.trace), [e], more);
      added := [e] + more;
    }
  }

  lemma LoggedIn(e: Event, more: seq<Event>, home: Path)
    requires e.cmd.Pwd? && e.from == home
    ensures Follow(AtHome, [e] + more, home) == Follow(AtHome, more, home)
    ensures more == [] ==> Follow(AtHome, [e] + more, home) == AtHome
  {
    FollowConcat(AtHome, [e], more, home);
    FollowOne(AtHome, e, home);
  }

  /** The PWD at login changes nothing of all this. */
  lemma LoginJoins(report: Report, items: seq<Item>, n: nat, e: Event, more: seq<Event>, before: Store, store: Store,
                   home: Path)
    requires DeletesDone(report, items, n, more, before, store, home) && e.cmd.Pwd? && e.from == home
    ensures DeletesDone(report, items, n, [e] + more, before, store, home)
  {
    InConcat([e], more);
    WorkerEvidence(report.results, items, [e], more, store, home);
    SentAfterLogin(report, items, n, e, more, home);
  }

  lemma SentAfterLogin(report: Report, items: seq<Item>, n: nat, e: Event, more: seq<Event>, home: Path)
    requires SentInOrder(report, items, n, more, home) && e.cmd.Pwd? && e.from == home
    ensures SentInOrder(report, items, n, [e] + more, home)
  {
    RemovalsConcat([e], more);
    OneRemoval(e);
    LoggedIn(e, more, home);
    assert [] + Removals(more) == Removals(more);
  }

  lemma WorkerEvidence(results: seq<string>, items: seq<Item>, a: seq<Event>, b: seq<Event>, store: Store, home: Path)
    requires ResultsEvident(results, items, b, store, home)
    ensures ResultsEvident(results, items, a + b, store, home)
  {
    forall path | path in results
      ensures exists item :: item in items && item.path == path && Evident(item, a + b, store, home)
    {
      var item :| item in items && item.path == path && Evident(item, b, store, home);
      EvidenceStays(a, b, store, store, item, home);
    }
  }
}
