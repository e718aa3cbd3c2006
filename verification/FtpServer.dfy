/** An FTP server that answers adversarially, with the record of everything it was sent.

    The commands are those of section 4.1.3 of RFC 959 (CWD: section 4.1.1) and SIZE of
    section 4 of RFC 3659. Assumptions, stated once for every client below: a good reply
    means the command ran, a clean refusal (4xx or 5xx) means it did not, a lost or
    undecodable reply means either, RNTO replaces a file atomically or refuses, MKD needs
    an existing parent directory, and nobody else writes to the server. */
module FtpServer {
  import opened FtpPaths

  type Bytes = seq<bv8>
  datatype Node = Dir | File(data: Bytes)
  type Store = map<Path, Node>

  datatype Cmd =
    | TypeI
    | Size(path: Path)
    | Stor(path: Path)
    | Dele(path: Path)
    | Rename(source: Path, path: Path)
    | Mkd(path: Path)
    | Rmd(path: Path)
    | Cwd(path: Path)
    | Pwd

  /** What the client sees: Pending is no reply yet (a block of a STOR on its way), Blank a
      good PWD reply that ftplib could not parse, Lost an OSError or EOFError, Garbled a reply
      that could not be decoded or made sense of, and Overdue the client's own deadline
      tripping in the middle of a STOR. */
  datatype Reply = Good | Blank | Perm(code: nat) | Temp | Lost | Garbled | Overdue | Pending {
    predicate Refusal() {
      Perm? || Temp?
    }
  }

  datatype Session = Session(store: Store, cwd: Path)
  datatype Effect = Impossible | Becomes(session: Session)

  /** One command with its reply, the directory it was sent from, and the state after it. */
  datatype Event = Event(cmd: Cmd, from: Path, reply: Reply, store: Store, cwd: Path)

  predicate IsDir(store: Store, p: Path) {
    p in store && store[p].Dir?
  }

  predicate IsFile(store: Store, p: Path) {
    p in store && store[p].File?
  }

  function Parent(p: Path): Path
    requires p != []
  {
    p[..|p| - 1]
  }

  /** Every entry sits in a directory, up to the root. */
  ghost predicate IsTree(store: Store) {
    && IsDir(store, [])
    && forall p {:trigger Parent(p)} :: p in store && p != [] ==> IsDir(store, Parent(p))
  }

  predicate SameAt(a: Store, b: Store, p: Path) {
    && (p in a <==> p in b)
    && (p in a ==> a[p] == b[p])
  }

  predicate HasChild(store: Store, dir: Path) {
    exists p :: p in store && p != [] && Parent(p) == dir
  }

  /** What running `cmd` does; STOR is modelled by `Server.SendStor`. Some servers answer SIZE
      for a directory too. */
  function Run(s: Session, cmd: Cmd): Effect {
    match cmd
    case TypeI => Becomes(s)
    case Pwd => Becomes(s)
    case Stor(_) => Impossible
    case Size(p) => if p in s.store then Becomes(s) else Impossible
    case Cwd(p) => if IsDir(s.store, p) then Becomes(s.(cwd := p)) else Impossible
    case Dele(p) => if IsFile(s.store, p) then Becomes(s.(store := s.store - {p})) else Impossible
    case Mkd(p) =>
      if p != [] && p !in s.store && IsDir(s.store, Parent(p))
      then Becomes(s.(store := s.store[p := Dir])) else Impossible
    case Rmd(p) =>
      if p != [] && IsDir(s.store, p) && !HasChild(s.store, p)
      then Becomes(s.(store := s.store - {p})) else Impossible
    case Rename(f, t) =>
      if f != t && IsFile(s.store, f) && !IsDir(s.store, t) && t != [] && IsDir(s.store, Parent(t))
      then Becomes(s.(store := (s.store - {f})[t := s.store[f]])) else Impossible
  }

  /** The replies the adversary may give and the states it may leave behind. */
  ghost predicate Answers(s: Session, cmd: Cmd, r: Reply, t: Session) {
    && (r.Good? ==> Run(s, cmd) == Becomes(t))
    && (r.Blank? ==> cmd.Pwd? && t == s)
    && (r.Refusal() ==> t == s)
    && (r.Lost? || r.Garbled? ==> t == s || Run(s, cmd) == Becomes(t))
    && !r.Overdue? && !r.Pending?
  }

  lemma RunKeepsTree(s: Session, cmd: Cmd)
    requires IsTree(s.store) && Run(s, cmd).Becomes?
    ensures IsTree(Run(s, cmd).session.store)
  {
    var t := Run(s, cmd).session.store;
    forall p | p in t && p != [] ensures IsDir(t, Parent(p)) {
      match cmd
      case Dele(q) =>
        assert Parent(p) != q;
      case Rmd(q) =>
        assert Parent(p) != q;
      case Rename(f, to) =>
        if p == to {
          assert IsDir(s.store, Parent(to));
        } else {
          assert IsDir(s.store, Parent(p));
        }
      case _ =>
    }
  }

  /** With no directory at `floor`, a tree holds nothing below it either. */
  lemma {:induction false} NothingBelowMissing(store: Store, floor: Path, p: Path)
    requires IsTree(store) && !IsDir(store, floor) && StrictlyBelow(floor, p)
    ensures p !in store
    decreases |p|
  {
    if p in store {
      assert IsDir(store, Parent(p));
      if |p| > |floor| + 1 {
        NothingBelowMissing(store, floor, Parent(p));
      }
    }
  }

  /** The states STOR may leave at `p`: nothing done, or some leading part of the data. */
  ghost predicate StorState(before: Store, after: Store, p: Path, data: Bytes) {
    && after - {p} == before - {p}
    && (SameAt(before, after, p) || (IsFile(after, p) && after[p].data <= data))
  }

  /** What a STOR adds to the record. */
  ghost predicate StorEvents(events: seq<Event>, cwd: Path, before: Store, p: Path, data: Bytes) {
    forall e :: e in events ==>
      e.cmd == Stor(p) && e.from == e.cwd == cwd && StorState(before, e.store, p, data)
  }

  lemma SameOutside(before: Store, after: Store, changed: set<Path>, q: Path)
    requires after - changed == before - changed && q !in changed
    ensures SameAt(before, after, q)
  {
    assert q in before <==> q in before - changed;
    assert q in after <==> q in after - changed;
    if q in before {
      assert (before - changed)[q] == (after - changed)[q];
    }
  }

  /** Directories may appear; nothing that was there changes. */
  ghost predicate OnlyAdds(before: Store, after: Store) {
    && (forall p :: p in before ==> p in after && after[p] == before[p])
    && (forall p :: p in after && p !in before ==> after[p].Dir?)
  }

  /** Where the MKDs of a record went, in order. */
  function MkdPaths(events: seq<Event>): seq<Path> {
    if events == [] then []
    else
      var k := |events| - 1;
      if events[k].cmd.Mkd? then MkdPaths(events[..k]) + [events[k].cmd.path] else MkdPaths(events[..k])
  }

  lemma {:induction false} MkdPathsConcat(a: seq<Event>, b: seq<Event>)
    ensures MkdPaths(a + b) == MkdPaths(a) + MkdPaths(b)
  {
    if b == [] {
      assert a + b == a;
    } else {
      var k := |b| - 1;
      MkdPathsConcat(a, b[..k]);
      assert (a + b)[..|a + b| - 1] == a + b[..k];
    }
  }

  lemma {:induction false} NoMkdPaths(events: seq<Event>)
    requires forall e :: e in events ==> !e.cmd.Mkd?
    ensures MkdPaths(events) == []
  {
    if events != [] {
      var k := |events| - 1;
      assert events[k] in events;
      NoMkdPaths(events[..k]);
    }
  }

  /** The command itself, and more only if it was permanently refused. */
  ghost predicate SettledIfRefused(events: seq<Event>, cmd: Cmd) {
    events != [] && events[0].cmd == cmd && (events[0].reply.Perm? <==> |events| > 1)
  }

  /** A reply of a server that refuses only what cannot be done. */
  predicate Willing(e: Event) {
    e.reply.Good? || (e.reply.Perm? && Run(Session(e.store, e.from), e.cmd).Impossible?)
  }

  ghost predicate AllWilling(events: seq<Event>) {
    forall e :: e in events ==> Willing(e)
  }

  /** A directory, or a place for one. */
  predicate Room(store: Store, p: Path) {
    !IsFile(store, p) && (IsDir(store, p) || (p != [] && IsDir(store, Parent(p))))
  }

  /** One component further there is room, unless a file is there. */
  lemma EnterFits(store: Store, p: Path, name: string)
    requires IsTree(store) && IsDir(store, p)
    ensures var q := Enter(p, name); Room(store, q) || IsFile(store, q)
  {
    var q := Enter(p, name);
    if name == ".." && p != [] {
      assert q == Parent(p);
    } else if q != p && name != ".." {
      assert Parent(q) == p;
    }
  }

  /** Every reply good, but for permanent refusals to make a directory. */
  ghost predicate Tolerable(events: seq<Event>) {
    forall e :: e in events ==> e.reply.Good? || (e.cmd.Mkd? && e.reply.Perm?)
  }

  /** The store once `sent` bytes have arrived. */
  function Partial(store: Store, p: Path, data: Bytes, sent: nat): (after: Store)
    ensures StorState(store, after, p, data)
    ensures sent >= |data| ==> p in after && after[p] == File(data)
  {
    var after := store[p := File(if sent < |data| then data[..sent] else data)];
    assert after - {p} == store - {p};
    after
  }

  /** The states a STOR passes through before its reply. */
  ghost function StorProgress(store: Store, cwd: Path, p: Path, data: Bytes, seen: seq<nat>): (events: seq<Event>)
    ensures StorEvents(events, cwd, store, p, data)
  {
    if seen == [] then []
    else
      var event := Event(Stor(p), cwd, Pending, Partial(store, p, data, seen[0]), cwd);
      [event] + StorProgress(store, cwd, p, data, seen[1..])
  }

  class Server {
    var store: Store
    var cwd: Path
    ghost var trace: seq<Event>
    /** SIZE answers 550 only when there is no file at the path. */
    const accurateSize: bool

    ghost predicate Valid()
      reads this
    {
      IsTree(store) && CleanPath(cwd)
    }

    constructor (store: Store, cwd: Path, accurateSize: bool)
      requires IsTree(store) && CleanPath(cwd)
      ensures Valid() && this.store == store && this.cwd == cwd && trace == []
      ensures this.accurateSize == accurateSize
    {
      this.store, this.cwd, this.accurateSize := store, cwd, accurateSize;
      trace := [];
    }

    method Send(cmd: Cmd) returns (r: Reply)
      requires Valid() && !cmd.Stor?
      requires cmd.Cwd? ==> CleanPath(cmd.path)
      modifies this
      ensures Valid() && !r.Blank?
      ensures Answers(Session(old(store), old(cwd)), cmd, r, Session(store, cwd))
      ensures accurateSize && cmd.Size? && r == Perm(550) ==> !IsFile(store, cmd.path)
      ensures trace == old(trace) + [Event(cmd, old(cwd), r, store, cwd)]
    {
      var effect := Run(Session(store, cwd), cmd);
      var ran := false;
      var run := *;
      if effect.Becomes? && run {
        RunKeepsTree(Session(store, cwd), cmd);
        store, cwd := effect.session.store, effect.session.cwd;
        ran := true;
      }
      if {
        case ran => r := Good;
        case true => r := Lost;
        case true => r := Garbled;
        case !ran => r := Temp;
        case !ran =>
          var code: nat :| !(cmd.Size? && IsFile(store, cmd.path) && code == 550);
          r := Perm(code);
      }
      trace := trace + [Event(cmd, old(cwd), r, store, cwd)];
    }

    /** PWD: when the reply parses, its text leads back to the current directory. */
    method AskPwd() returns (r: Reply, text: string)
      requires Valid()
      modifies this`trace
      ensures Valid()
      ensures Answers(Session(store, cwd), Pwd, r, Session(store, cwd))
      ensures r.Good? ==> Absolute(text) && Resolve([], text) == cwd
      ensures r.Blank? ==> text == ""
      ensures trace == old(trace) + [Event(Pwd, cwd, r, store, cwd)]
    {
      text := "";
      if {
        case true =>
          r, text := Good, Render(cwd);
          RenderRoundTrip([], cwd);
        case true => r := Blank;
        case true => r := AnyFailure();
      }
      trace := trace + [Event(Pwd, cwd, r, store, cwd)];
    }

    /** STOR: it may be refused, stop part-way with any reply or at the caller's deadline,
        or finish; `seen` are the lengths the file passes through on the way. */
    method SendStor(p: Path, data: Bytes, deadline: bool) returns (r: Reply, ghost added: seq<Event>)
      requires Valid()
      modifies this`store, this`trace
      ensures Valid() && (r.Good? || Failure(r) || (r.Overdue? && deadline))
      ensures r.Good? ==> p in store && store[p] == File(data)
      ensures StorState(old(store), store, p, data)
      ensures trace == old(trace) + added && StorEvents(added, cwd, old(store), p, data)
      ensures Event(Stor(p), cwd, r, store, cwd) in added
    {
      added := [];
      r := AnyFailure();
      if p != [] && IsDir(store, Parent(p)) && !IsDir(store, p) {
        var seen: seq<nat>, kept: nat := *, *;
        added := StorProgress(store, cwd, p, data, seen);
        if {
          case true => r, kept := Good, |data|;
          case deadline => r := Overdue;
          case true =>
        }
        store := Partial(store, p, data, kept);
      }
      added := added + [Event(Stor(p), cwd, r, store, cwd)];
      trace := trace + added;
    }

    static predicate Failure(r: Reply) {
      r.Refusal() || r.Lost? || r.Garbled?
    }

    static method AnyFailure() returns (r: Reply)
      ensures Failure(r)
    {
      if {
        case true => r := Lost;
        case true => r := Garbled;
        case true => r := Temp;
        case true =>
          var code: nat :| true;
          r := Perm(code);
      }
    }
  }
}
