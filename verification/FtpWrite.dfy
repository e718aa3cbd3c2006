/** `FtpClient.put` and `FtpClient.replace`: write through a temp file and a rename. */
module FtpWrite {
  import opened FtpPaths
  import opened FtpServer
  import opened Sequences
  import opened Wrappers

  datatype Error = Reply(reply: Reply) | TargetExists | TransferUncertain | TransferTimeout

  /** How a call ends; `temp` is the `temp_path` attribute put on the exception. */
  datatype Outcome = Returned | Raised(error: Error, temp: Option<string>)
  datatype Answer = Yes | No | Broke(reply: Reply)

  function TempName(target: string, token: string): string {
    target + ("." + token + ".part")
  }

  /** Where the two names lead, in terms of the walk to their common directory. */
  lemma TempResolves(cwd: Path, target: string, token: string) returns (base: Path, last: string)
    requires '/' !in token
    ensures Resolve(cwd, target) == Enter(base, last)
    ensures Resolve(cwd, TempName(target, token)) == base + [last + ("." + token + ".part")]
  {
    var suffix := "." + token + ".part";
    var parts, from := Split(target), Origin(cwd, target);
    var init := parts[..|parts| - 1];
    last := parts[|parts| - 1];
    base := Walk(from, init);
    assert Resolve(cwd, target) == Enter(base, last) by {
      assert parts == init + [last];
      WalkConcat(from, init, [last]);
    }
    assert Resolve(cwd, TempName(target, token)) == base + [last + suffix] by {
      SplitExtend(target, suffix);
      assert Origin(cwd, TempName(target, token)) == from;
      WalkConcat(from, init, [last + suffix]);
    }
  }

  /** The temp file never is the target, whatever the path's last component is. */
  lemma TempIsNotTarget(cwd: Path, target: string, token: string)
    requires '/' !in token
    ensures Resolve(cwd, TempName(target, token)) != Resolve(cwd, target)
    ensures Resolve(cwd, TempName(target, token)) != []
  {
    var base, last := TempResolves(cwd, target, token);
    var temp := base + [last + ("." + token + ".part")];
    assert temp[|base|] != last;
    assert |Enter(base, last)| > |base| ==> Enter(base, last)[|base|] == last;
  }

  /** What any state seen during a write from `before` may look like. */
  ghost predicate WriteSafe(before: Store, s: Store, target: Path, temp: Path, data: Bytes) {
    && s - {target, temp} == before - {target, temp}
    && (temp in s ==> IsFile(s, temp) && s[temp].data <= data)
    && (SameAt(before, s, target) || (!IsDir(before, target) && Holds(s, target, data))
        || (IsFile(before, target) && target !in s && Holds(s, temp, data)))
  }

  predicate Holds(s: Store, p: Path, data: Bytes) {
    p in s && s[p] == File(data)
  }

  ghost predicate AllSafe(events: seq<Event>, before: Store, target: Path, temp: Path, data: Bytes) {
    forall e :: e in events ==> WriteSafe(before, e.store, target, temp, data)
  }

  /** The target was there and stays as it was. */
  ghost predicate NeverTouched(events: seq<Event>, before: Store, target: Path) {
    forall e :: e in events ==> SameAt(before, e.store, target)
  }

  ghost predicate NeverAbsent(events: seq<Event>, target: Path) {
    forall e :: e in events ==> target in e.store
  }

  /** Nothing but TYPE and SIZE, so nothing changed. */
  ghost predicate ProbeEvents(events: seq<Event>, store: Store) {
    forall e :: e in events ==> (e.cmd.TypeI? || e.cmd.Size?) && e.store == store
  }

  /** Some DELE of the target was sent and not cleanly refused. */
  ghost predicate MayHaveDeleted(events: seq<Event>, target: Path) {
    exists e :: e in events && e.cmd == Dele(target) && !e.reply.Refusal()
  }

  /** A failure that says what happened: a clean refusal, a connection lost before the rename,
      the deadline, or a target that is in the way. What is left are an undecodable reply and
      a reply lost where it matters. */
  predicate CleanFailure(out: Outcome) {
    out.Raised? && match out.error
    case Reply(r) => r.Refusal() || r.Lost?
    case TargetExists => true
    case TransferTimeout => true
    case TransferUncertain => false
  }

  predicate DropsConnection(out: Outcome) {
    out.Raised? && (out.error.TransferUncertain? || out.error.TransferTimeout?)
  }

  /** The last thing sent was the DELE of the temp, and it is named exactly if that was not
      answered well. */
  ghost predicate CleanedUp(out: Outcome, events: seq<Event>, temp: Path) {
    && out.Raised? && events != []
    && var e := events[|events| - 1];
       e.cmd == Dele(temp) && (out.temp.None? <==> e.reply.Good?)
  }

  /** The exception that a failed command leads to. Once the temp is complete and the target
      is being replaced, a lost reply leaves the outcome open, and so does any unclear one to
      the DELE. */
  function Blame(e: Event, target: Path, replacing: bool): Error {
    if e.cmd.Stor? then (if e.reply.Overdue? then TransferTimeout else Reply(e.reply))
    else if e.cmd == Dele(target) then (if e.reply.Refusal() then Reply(e.reply) else TransferUncertain)
    else if (replacing || e.cmd.Rename?) && e.reply.Lost? then TransferUncertain
    else Reply(e.reply)
  }

  /** The exception is that of a command that was sent and failed. */
  ghost predicate Blamed(error: Error, events: seq<Event>, target: Path, temp: Path, replacing: bool) {
    exists e :: e in events && !Helpful(e) && e.cmd != Dele(temp) && error == Blame(e, target, replacing)
  }

  /** The exception is that of a failed command, or TargetExists after a SIZE that found something. */
  ghost predicate Explained(error: Error, events: seq<Event>, target: Path, temp: Path, replacing: bool) {
    if error.TargetExists? then !replacing && exists e :: e in events && e.cmd == Size(target) && e.reply.Good?
    else Blamed(error, events, target, temp, replacing)
  }

  ghost predicate AnyStor(events: seq<Event>) {
    exists e :: e in events && e.cmd.Stor?
  }

  /** What a call leaves on the server: the new data and no temp after a normal return; a temp
      left behind is named; a clean failure without a DELE of the target leaves it as it was. */
  ghost predicate LeavesBehind(before: Store, after: Store, out: Outcome, events: seq<Event>,
                               target: Path, temp: Path, name: string, data: Bytes) {
    && (out.Returned? ==> Holds(after, target, data) && temp !in after)
    && (out.Raised? && temp in after ==> out.temp == Some(name))
    && (CleanFailure(out) && !MayHaveDeleted(events, target) ==> SameAt(before, after, target))
  }

  /** What an exception says: which command failed, and where the temp is, if one was begun.
      With the connection up the temp was deleted, unless it may be the only copy. */
  ghost predicate Reports(out: Outcome, events: seq<Event>, connected: bool,
                          target: Path, temp: Path, name: string, replacing: bool) {
    out.Raised? ==>
      && Explained(out.error, events, target, temp, replacing)
      && (out.temp == None || out.temp == Some(name))
      && (!connected || MayHaveDeleted(events, target) ==> out.temp == Some(name))
      && (if !AnyStor(events) then out.temp == None
          else connected && !MayHaveDeleted(events, target) ==> CleanedUp(out, events, temp))
  }

  /** The same of the second half of a call, the STOR being behind it. */
  ghost predicate InstallReports(out: Outcome, events: seq<Event>, connected: bool,
                                 target: Path, temp: Path, name: string, replacing: bool) {
    && !AnyStor(events)
    && (out.Raised? ==>
          && Explained(out.error, events, target, temp, replacing)
          && (out.temp == None || out.temp == Some(name))
          && (!connected || MayHaveDeleted(events, target) ==> out.temp == Some(name))
          && (connected && !MayHaveDeleted(events, target) ==> CleanedUp(out, events, temp)))
  }

  /** Two stretches of the record make one, the STOR being in the first. */
  lemma ReportsJoin(out: Outcome, a: seq<Event>, b: seq<Event>, connected: bool,
                    target: Path, temp: Path, name: string, replacing: bool)
    requires AnyStor(a) && !MayHaveDeleted(a, target)
    requires InstallReports(out, b, connected, target, temp, name, replacing)
    ensures Reports(out, a + b, connected, target, temp, name, replacing)
  {
    if out.Raised? {
      StretchesJoin(a, b, out.error, target, temp, replacing);
    }
  }

  /** A cleared target, and then the rename. */
  lemma ClearReportsJoin(out: Outcome, a: seq<Event>, b: seq<Event>, connected: bool,
                         target: Path, temp: Path, name: string)
    requires !AnyStor(a) && !AnyStor(b) && !MayHaveDeleted(b, target)
    requires out.Raised? ==>
               && Explained(out.error, b, target, temp, true)
               && (MayHaveDeleted(a, target) ==> out.temp == Some(name))
    requires MayHaveDeleted(a, target) || InstallReports(out, b, connected, target, temp, name, true)
    ensures InstallReports(out, a + b, connected, target, temp, name, true)
    ensures MayHaveDeleted(a + b, target) <==> MayHaveDeleted(a, target)
    ensures Cooperative(a + b) ==> Cooperative(a) && Cooperative(b)
  {
    InConcat(a, b);
    if out.Raised? {
      StretchesJoin(a, b, out.error, target, temp, true);
    }
  }

  /** A stretch that failed, and the clean-up after it. */
  lemma AbandonJoins(out: Outcome, a: seq<Event>, b: seq<Event>, connected: bool,
                     target: Path, temp: Path, name: string, replacing: bool)
    requires NoRename(a) && NoRename(b) && AnyStor(a) && !MayHaveDeleted(a, target) && !MayHaveDeleted(b, target)
    requires out.Raised? && Explained(out.error, a, target, temp, replacing)
    requires out.temp == None || out.temp == Some(name)
    requires if connected then CleanedUp(out, b, temp) else out.temp == Some(name)
    ensures Reports(out, a + b, connected, target, temp, name, replacing)
    ensures RenamesChecked(a + b, target) && RenamesCleared(a + b, target)
    ensures AnyStor(a + b) && !MayHaveDeleted(a + b, target)
    ensures Cooperative(a + b) ==> Cooperative(a)
  {
    NoRenameJoins(a, b, target);
    ClearedRenameJoins(a, b, target);
    StretchesJoin(a, b, out.error, target, temp, replacing);
    assert forall k :: 0 <= k < |a + b| ==> (a + b)[k] in a + b;
  }

  /** A SIZE that found the target, and the DELE after it. */
  lemma ClearRecord(a: seq<Event>, e: Event, target: Path, temp: Path)
    requires (forall f :: f in a ==> f.cmd.TypeI? || f.cmd.Size?) && temp != target
    requires e.cmd == Dele(target) && !e.reply.Pending?
    ensures MayHaveDeleted(a + [e], target) <==> !e.reply.Refusal()
    ensures !e.reply.Good? ==>
              && !Cooperative(a + [e])
              && Blamed(if e.reply.Refusal() then Reply(e.reply) else TransferUncertain, a + [e], target, temp, true)
    ensures !AnyStor(a + [e]) && NoRename(a + [e])
  {
    InConcat(a, [e]);
    assert e in [e];
  }

  lemma ClearOrder(a: seq<Event>, e: Event, target: Path)
    requires (forall f :: f in a ==> f.cmd.TypeI? || f.cmd.Size?) && SizesInBinary(a)
    requires a != [] && a[|a| - 1].cmd == Size(target) && a[|a| - 1].reply.Good? && e.cmd == Dele(target)
    ensures DeletesSeen(a + [e], target) && SizesInBinary(a + [e])
  {
    assert forall k :: 0 <= k < |a| ==> a[k] in a;
  }

  /** Probes before everything else change none of this. */
  lemma ProbesJoin(out: Outcome, a: seq<Event>, b: seq<Event>, connected: bool, before: Store, after: Store,
                   target: Path, temp: Path, name: string, data: Bytes, replacing: bool)
    requires ProbeEvents(a, before) && temp !in before && AnyStor(b)
    requires AllSafe(b, before, target, temp, data) && Reports(out, b, connected, target, temp, name, replacing)
    requires LeavesBehind(before, after, out, b, target, temp, name, data)
    ensures AllSafe(a + b, before, target, temp, data)
    ensures NeverTouched(b, before, target) ==> NeverTouched(a + b, before, target)
    ensures Reports(out, a + b, connected, target, temp, name, replacing)
    ensures LeavesBehind(before, after, out, a + b, target, temp, name, data)
    ensures Cooperative(a + b) ==> Cooperative(b)
  {
    InConcat(a, b);
    if out.Raised? {
      StretchesJoin(a, b, out.error, target, temp, replacing);
    }
  }

  /** What a reply to the rename tells: a clean refusal, and nothing else, means that the
      target is untouched, wherever the rename can run and would change it. */
  lemma RefusalMeansUntouched(s: Session, temp: Path, target: Path, r: Reply)
    requires Run(s, Rename(temp, target)).Becomes? && (target in s.store ==> s.store[target] != s.store[temp])
    requires r.Good? || Server.Failure(r)
    ensures (forall t :: Answers(s, Rename(temp, target), r, t) ==> SameAt(s.store, t.store, target)) <==> r.Refusal()
  {
    var t := Run(s, Rename(temp, target)).session;
    assert t.store[target] == s.store[temp];
    if !r.Refusal() {
      assert Answers(s, Rename(temp, target), r, t);
    }
  }

  /** A `replace` whose rename ran and was answered by an undecodable reply: the handler takes
      it for a refusal, and the old content is gone. */
  lemma GarbledRenameReplaces(earlier: Bytes, data: Bytes) returns (s: Session, temp: Path, target: Path, t: Session)
    requires earlier != data
    ensures IsTree(s.store) && Holds(s.store, target, earlier) && Holds(s.store, temp, data)
    ensures Answers(s, Rename(temp, target), Garbled, t) && Holds(t.store, target, data)
  {
    temp, target := ["f.part"], ["f"];
    s := Session(map[[] := Dir, target := File(earlier), temp := File(data)], []);
    t := Run(s, Rename(temp, target)).session;
  }

  /** The old content (or absence) at the target, or the whole new data at one of the two. */
  ghost predicate NothingLost(before: Store, s: Store, target: Path, temp: Path, data: Bytes) {
    SameAt(before, s, target) || Holds(s, target, data) || Holds(s, temp, data)
  }

  /** No client may die at a moment when both copies are gone or the target is partial. */
  lemma SafeMeansNothingLost(events: seq<Event>, before: Store, target: Path, temp: Path, data: Bytes)
    requires AllSafe(events, before, target, temp, data)
    ensures forall e :: e in events ==> NothingLost(before, e.store, target, temp, data)
  {
  }

  lemma StorIsSafe(before: Store, after: Store, target: Path, temp: Path, data: Bytes)
    requires StorState(before, after, temp, data) && temp !in before && temp != target
    ensures WriteSafe(before, after, target, temp, data) && SameAt(before, after, target)
  {
    SameOutside(before, after, {temp}, target);
    assert after - {target, temp} == (after - {temp}) - {target};
    assert before - {target, temp} == (before - {temp}) - {target};
  }

  lemma StagingIsSafe(events: seq<Event>, cwd: Path, before: Store, target: Path, temp: Path, data: Bytes)
    requires StorEvents(events, cwd, before, temp, data) && temp !in before && temp != target
    ensures AllSafe(events, before, target, temp, data) && NeverTouched(events, before, target)
    ensures !MayHaveDeleted(events, target)
  {
    forall e | e in events
      ensures WriteSafe(before, e.store, target, temp, data) && SameAt(before, e.store, target)
    {
      StorIsSafe(before, e.store, target, temp, data);
    }
  }

  /** Dropping the temp is safe once the target itself needs no second copy. */
  lemma DropIsSafe(before: Store, s: Store, after: Store, target: Path, temp: Path, data: Bytes)
    requires WriteSafe(before, s, target, temp, data) && temp != target
    requires SameAt(before, s, target) || target in s
    requires after == s || after == s - {temp}
    ensures WriteSafe(before, after, target, temp, data) && SameAt(s, after, target)
  {
    if after == s - {temp} {
      assert after - {target, temp} == s - {target, temp};
    }
  }

  /** So is deleting the target while the temp holds everything, or renaming onto it. */
  lemma SwapIsSafe(before: Store, s: Store, after: Store, cmd: Cmd, target: Path, temp: Path, data: Bytes)
    requires WriteSafe(before, s, target, temp, data) && temp != target
    requires SameAt(before, s, target) || target !in s
    requires Holds(s, temp, data)
    requires cmd == Dele(target) || cmd == Rename(temp, target)
    requires after == s || exists cwd, t :: Run(Session(s, cwd), cmd) == Becomes(t) && after == t.store
    ensures WriteSafe(before, after, target, temp, data)
  {
    if after != s {
      assert after - {target, temp} == s - {target, temp};
    }
  }

  /** A server that runs everything, answering 550 only to a SIZE of something absent. */
  predicate Helpful(e: Event) {
    e.reply.Good? || e.reply.Pending? || (e.cmd.Size? && e.reply == Perm(550))
  }

  ghost predicate Cooperative(events: seq<Event>) {
    forall e :: e in events ==> Helpful(e)
  }

  /** Every SIZE is asked in binary mode: right after a TYPE I that got a good reply. */
  ghost predicate SizesInBinary(events: seq<Event>) {
    forall k :: 0 <= k < |events| && events[k].cmd.Size? ==>
      k > 0 && events[k - 1].cmd.TypeI? && events[k - 1].reply.Good?
  }

  /** Every DELE of the target comes right after a SIZE that found it. */
  ghost predicate DeletesSeen(events: seq<Event>, target: Path) {
    forall k :: 0 <= k < |events| && events[k].cmd == Dele(target) ==>
      k > 0 && events[k - 1].cmd == Size(target) && events[k - 1].reply.Good?
  }

  predicate SaysAbsent(e: Event, target: Path) {
    e.cmd == Size(target) && e.reply == Perm(550)
  }

  /** Every rename comes right after a SIZE that found nothing at the target. */
  ghost predicate RenamesChecked(events: seq<Event>, target: Path) {
    forall k :: 0 <= k < |events| && events[k].cmd.Rename? ==> k > 0 && SaysAbsent(events[k - 1], target)
  }

  /** The only rename is the first command. */
  ghost predicate RenamesFirst(events: seq<Event>) {
    forall k :: 0 < k < |events| ==> !events[k].cmd.Rename?
  }

  ghost predicate NoRename(events: seq<Event>) {
    forall e :: e in events ==> !e.cmd.Rename?
  }

  ghost predicate SeenAbsent(events: seq<Event>, k: nat, target: Path) {
    exists j :: 0 <= j < k && j < |events| && SaysAbsent(events[j], target)
  }

  /** No byte is sent before some SIZE found nothing at the target. */
  ghost predicate StoresChecked(events: seq<Event>, target: Path) {
    forall k :: 0 <= k < |events| && events[k].cmd.Stor? ==> SeenAbsent(events, k, target)
  }

  /** A SIZE that found nothing, or a DELE that was answered well. */
  predicate Cleared(e: Event, target: Path) {
    SaysAbsent(e, target) || (e.cmd == Dele(target) && e.reply.Good?)
  }

  /** Every rename comes right after the target was found absent or deleted. */
  ghost predicate RenamesCleared(events: seq<Event>, target: Path) {
    forall k :: 0 <= k < |events| && events[k].cmd.Rename? ==> k > 0 && Cleared(events[k - 1], target)
  }

  lemma ClearedRenameJoins(a: seq<Event>, b: seq<Event>, target: Path)
    requires NoRename(a) || RenamesCleared(a, target)
    requires NoRename(b) || RenamesCleared(b, target)
           || (RenamesFirst(b) && a != [] && Cleared(a[|a| - 1], target))
    ensures RenamesCleared(a + b, target)
  {
    assert forall k :: 0 <= k < |a| ==> a[k] in a;
    assert forall k :: 0 <= k < |b| ==> b[k] in b;
  }

  /** Two stretches of the record that a failure runs through. */
  lemma StretchesJoin(a: seq<Event>, b: seq<Event>, error: Error, target: Path, temp: Path, replacing: bool)
    ensures Explained(error, a, target, temp, replacing) ==> Explained(error, a + b, target, temp, replacing)
    ensures Explained(error, b, target, temp, replacing) ==> Explained(error, a + b, target, temp, replacing)
    ensures Cooperative(a + b) ==> Cooperative(a) && Cooperative(b)
    ensures MayHaveDeleted(a + b, target) <==> MayHaveDeleted(a, target) || MayHaveDeleted(b, target)
    ensures AnyStor(a + b) <==> AnyStor(a) || AnyStor(b)
  {
    InConcat(a, b);
  }

  lemma NoRenameJoins(a: seq<Event>, b: seq<Event>, target: Path)
    requires NoRename(b)
    ensures RenamesChecked(a, target) ==> RenamesChecked(a + b, target)
    ensures NoRename(a) ==> NoRename(a + b)
    ensures RenamesFirst(a) && a != [] ==> RenamesFirst(a + b)
  {
    assert forall k :: 0 <= k < |b| ==> b[k] in b;
  }

  lemma CheckedRenameJoins(a: seq<Event>, b: seq<Event>, target: Path)
    requires NoRename(a) && a != [] && SaysAbsent(a[|a| - 1], target) && RenamesFirst(b)
    ensures RenamesChecked(a + b, target)
  {
    assert forall k :: 0 <= k < |a| ==> a[k] in a;
  }

  /** Once a SIZE has found nothing, everything after it is checked. */
  lemma CheckCovers(a: seq<Event>, b: seq<Event>, target: Path)
    requires forall e :: e in a ==> !e.cmd.Stor? && !e.cmd.Rename?
    requires b != [] ==> a != [] && SaysAbsent(a[|a| - 1], target)
    requires RenamesChecked(b, target)
    ensures StoresChecked(a + b, target) && RenamesChecked(a + b, target)
  {
    var all := a + b;
    assert forall k :: 0 <= k < |a| ==> all[k] in a;
    if b != [] {
      assert SaysAbsent(all[|a| - 1], target);
    }
    forall k | 0 <= k < |all| && all[k].cmd.Stor?
      ensures SeenAbsent(all, k, target)
    {
      assert k >= |a|;
    }
    forall k | 0 <= k < |all| && all[k].cmd.Rename?
      ensures k > 0 && SaysAbsent(all[k - 1], target)
    {
      assert k >= |a| && all[k] == b[k - |a|];
    }
  }

  class FtpClient {
    const server: Server
    var connected: bool

    constructor (server: Server)
      ensures this.server == server && connected
    {
      this.server := server;
      connected := true;
    }

    method Discard()
      modifies this
      ensures !connected
    {
      connected := false;
    }

    /** `_exists`: TYPE I, then SIZE, of which only a 550 refusal counts as absent. */
    method Exists(path: Path) returns (a: Answer, ghost added: seq<Event>)
      requires server.Valid()
      modifies server
      ensures server.Valid() && server.store == old(server.store) && server.cwd == old(server.cwd)
      ensures a.Yes? ==> path in server.store && exists e :: e in added && e.cmd == Size(path) && e.reply.Good?
      ensures a.No? && server.accurateSize ==> !IsFile(server.store, path)
      ensures server.trace == old(server.trace) + added && ProbeEvents(added, server.store)
      ensures a.Broke? ==> exists e :: e in added && !Helpful(e) && e.reply == a.reply
      ensures a.No? ==> added != [] && SaysAbsent(added[|added| - 1], path)
      ensures a.Yes? ==> added != [] && added[|added| - 1].cmd == Size(path) && added[|added| - 1].reply.Good?
      ensures SizesInBinary(added)
    {
      var r := server.Send(TypeI);
      ghost var e := Event(TypeI, server.cwd, r, server.store, server.cwd);
      if !r.Good? {
        assert e in [e];
        return Broke(r), [e];
      }
      r := server.Send(Size(path));
      ghost var f := Event(Size(path), server.cwd, r, server.store, server.cwd);
      assert f in [e, f];
      a, added := if r == Perm(550) then No else if r.Good? then Yes else Broke(r), [e, f];
    }

    /** `_drop_temp`: the name to put on the exception when the temp may be left behind. */
    method DropTemp(temp: Path, name: string) returns (left: Option<string>, ghost added: seq<Event>)
      requires server.Valid()
      modifies server
      ensures server.Valid() && server.cwd == old(server.cwd) && server.trace == old(server.trace) + added
      ensures left == None || left == Some(name)
      ensures left.None? ==> temp !in server.store
      ensures if connected then |added| == 1 && (left.None? <==> added[0].reply.Good?)
              else added == [] && left == Some(name)
      ensures server.store == old(server.store) || server.store == old(server.store) - {temp}
      ensures forall e :: e in added ==> e.cmd == Dele(temp) && e.store == server.store
    {
      if !connected {
        return Some(name), [];
      }
      var r := server.Send(Dele(temp));
      left := if r.Good? then None else Some(name);
      added := [Event(Dele(temp), server.cwd, r, server.store, server.cwd)];
    }

    /** STOR of the temp: on a good reply it holds everything, and the target is as before. */
    method Stage(temp: Path, data: Bytes, deadline: bool, ghost target: Path)
      returns (r: Reply, ghost added: seq<Event>)
      requires server.Valid() && temp !in server.store && temp != target
      modifies server
      ensures server.Valid() && server.cwd == old(server.cwd) && server.trace == old(server.trace) + added
      ensures AllSafe(added, old(server.store), target, temp, data)
      ensures NeverTouched(added, old(server.store), target) && !MayHaveDeleted(added, target)
      ensures WriteSafe(old(server.store), server.store, target, temp, data)
      ensures SameAt(old(server.store), server.store, target)
      ensures r.Good? ==> Holds(server.store, temp, data)
      ensures !r.Good? ==> !Cooperative(added)
      ensures exists e :: e in added && e.cmd == Stor(temp) && e.reply == r
      ensures !r.Pending? && (r.Overdue? ==> deadline)
      ensures NoRename(added)
    {
      r, added := server.SendStor(temp, data, deadline);
      assert !r.Good? ==> !Helpful(Event(Stor(temp), server.cwd, r, server.store, server.cwd));
      StagingIsSafe(added, server.cwd, old(server.store), target, temp, data);
      StorIsSafe(old(server.store), server.store, target, temp, data);
    }

    /** DELE of the target or RNFR/RNTO onto it, with the temp complete. */
    method Swap(cmd: Cmd, target: Path, temp: Path, data: Bytes, ghost before: Store) returns (r: Reply, ghost e: Event)
      requires server.Valid() && temp != target
      requires cmd == Dele(target) || cmd == Rename(temp, target)
      requires WriteSafe(before, server.store, target, temp, data) && Holds(server.store, temp, data)
      requires SameAt(before, server.store, target) || target !in server.store
      modifies server
      ensures server.Valid() && server.cwd == old(server.cwd) && server.trace == old(server.trace) + [e]
      ensures e == Event(cmd, server.cwd, r, server.store, server.cwd)
      ensures WriteSafe(before, server.store, target, temp, data)
      ensures !r.Pending? && !r.Overdue? && (r.Refusal() ==> server.store == old(server.store))
      ensures server.store == old(server.store)
              || (if cmd.Dele? then target !in server.store && Holds(server.store, temp, data)
                  else Holds(server.store, target, data) && temp !in server.store)
      ensures r.Good? && cmd.Rename? ==> Holds(server.store, target, data) && temp !in server.store
    {
      r := server.Send(cmd);
      e := Event(cmd, server.cwd, r, server.store, server.cwd);
      SwapIsSafe(before, old(server.store), server.store, cmd, target, temp, data);
    }

    /** Giving up: the temp is deleted, or named on the exception. */
    method Abandon(error: Error, temp: Path, name: string, data: Bytes, ghost before: Store, ghost target: Path)
      returns (out: Outcome, ghost added: seq<Event>)
      requires server.Valid() && temp != target
      requires WriteSafe(before, server.store, target, temp, data)
      requires SameAt(before, server.store, target) || target in server.store
      modifies server
      ensures server.Valid() && server.cwd == old(server.cwd) && server.trace == old(server.trace) + added
      ensures AllSafe(added, before, target, temp, data) && !MayHaveDeleted(added, target)
      ensures NeverTouched(added, old(server.store), target)
      ensures SameAt(old(server.store), server.store, target) && !AnyStor(added)
      ensures out.Raised? && out.error == error
      ensures if connected then CleanedUp(out, added, temp) else out.temp == Some(name)
      ensures out.temp == None || out.temp == Some(name)
      ensures temp in server.store ==> out.temp == Some(name)
      ensures NoRename(added)
    {
      var left;
      left, added := DropTemp(temp, name);
      DropIsSafe(before, old(server.store), server.store, target, temp, data);
      out := Raised(error, left);
    }

    /** The exception handlers around the rename. */
    method FailInstall(r: Reply, deleted: bool, target: Path, temp: Path, name: string, data: Bytes,
                       ghost before: Store)
      returns (out: Outcome, ghost added: seq<Event>)
      requires connected && server.Valid() && temp != target && WriteSafe(before, server.store, target, temp, data)
      requires deleted || SameAt(before, server.store, target) || target in server.store
      modifies this, server
      ensures server.Valid() && server.cwd == old(server.cwd) && server.trace == old(server.trace) + added
      ensures AllSafe(added, before, target, temp, data) && !MayHaveDeleted(added, target) && NoRename(added)
      ensures NeverTouched(added, old(server.store), target) && SameAt(old(server.store), server.store, target)
      ensures out.Raised? && !out.error.TransferTimeout? && !out.error.TargetExists?
      ensures out.error == if r.Lost? then TransferUncertain else Reply(r)
      ensures temp in server.store || out.error.TransferUncertain? || deleted ==> out.temp == Some(name)
      ensures connected <==> !out.error.TransferUncertain?
      ensures connected && !deleted ==> CleanedUp(out, added, temp)
      ensures (out.temp == None || out.temp == Some(name)) && !AnyStor(added)
    {
      added := [];
      if r.Lost? {
        Discard();
        return Raised(TransferUncertain, Some(name)), added;
      }
      if deleted {
        return Raised(Reply(r), Some(name)), added;
      }
      out, added := Abandon(Reply(r), temp, name, data, before, target);
    }

    /** The rename, and the handlers around it. */
    method RenameOver(deleted: bool, target: Path, temp: Path, name: string, data: Bytes, ghost before: Store,
                      ghost replacing: bool)
      returns (out: Outcome, ghost added: seq<Event>)
      requires connected && server.Valid() && temp != target
      requires WriteSafe(before, server.store, target, temp, data) && Holds(server.store, temp, data)
      requires SameAt(before, server.store, target) || (deleted && target !in server.store)
      modifies this, server
      ensures server.Valid() && server.cwd == old(server.cwd) && server.trace == old(server.trace) + added
      ensures AllSafe(added, before, target, temp, data) && RenamesFirst(added) && !MayHaveDeleted(added, target)
      ensures !deleted && IsDir(before, target) ==> NeverTouched(added, before, target)
      ensures !deleted && target in before ==> NeverAbsent(added, target)
      ensures out.Returned? ==> Holds(server.store, target, data) && temp !in server.store
      ensures out.Raised? && temp in server.store ==> out.temp == Some(name)
      ensures CleanFailure(out) && !deleted ==> SameAt(before, server.store, target)
      ensures InstallReports(out, added, connected, target, temp, name, replacing) || (deleted && out.Raised?)
      ensures deleted && out.Raised? ==>
                out.temp == Some(name) && !AnyStor(added) && Explained(out.error, added, target, temp, replacing)
      ensures out.Raised? ==> !out.error.TransferTimeout? && !out.error.TargetExists?
      ensures connected <==> !DropsConnection(out)
      ensures Cooperative(added) ==> out.Returned?
    {
      ghost var e, more;
      var r;
      r, e := Swap(Rename(temp, target), target, temp, data, before);
      added := [e];
      assert e in added;
      if r.Good? {
        return Returned, added;
      }
      out, more := FailInstall(r, deleted, target, temp, name, data, before);
      NoRenameJoins(added, more, target);
      StretchesJoin(added, more, out.error, target, temp, replacing);
      added := added + more;
    }

    /** `replace` once the two paths are known. */
    method ReplaceAt(target: Path, temp: Path, name: string, data: Bytes, deadline: bool)
      returns (out: Outcome, ghost added: seq<Event>)
      requires connected && server.Valid() && temp != target && temp !in server.store
      modifies this, server
      ensures server.Valid() && server.cwd == old(server.cwd) && server.trace == old(server.trace) + added
      ensures AllSafe(added, old(server.store), target, temp, data)
      ensures target in old(server.store) ==> NeverAbsent(added, target)
      ensures LeavesBehind(old(server.store), server.store, out, added, target, temp, name, data)
      ensures Reports(out, added, connected, target, temp, name, false)
      ensures out.Raised? ==> !out.error.TargetExists?
      ensures AnyStor(added) && !MayHaveDeleted(added, target)
      ensures connected <==> !DropsConnection(out)
      ensures Cooperative(added) ==> out.Returned?
    {
      ghost var before, more := server.store, [];
      var r;
      r, added := Stage(temp, data, deadline, target);
      if r.Good? {
        out, more := RenameOver(false, target, temp, name, data, before, false);
        ReportsJoin(out, added, more, connected, target, temp, name, false);
      } else {
        if r.Overdue? {
          Discard();
        }
        out, more := Abandon(if r.Overdue? then TransferTimeout else Reply(r), temp, name, data, before, target);
        StretchesJoin(added, more, out.error, target, temp, false);
      }
      InConcat(added, more);
      added := added + more;
    }

    method Replace(remotePath: string, data: Bytes, token: string, deadline: bool)
      returns (out: Outcome, ghost added: seq<Event>)
      requires connected && server.Valid() && '/' !in token
      requires Resolve(server.cwd, TempName(remotePath, token)) !in server.store
      modifies this, server
      ensures server.Valid() && server.cwd == old(server.cwd) && server.trace == old(server.trace) + added
      ensures var target := Resolve(old(server.cwd), remotePath);
              var name := TempName(remotePath, token);
              var temp := Resolve(old(server.cwd), name);
              && AllSafe(added, old(server.store), target, temp, data)
              && (target in old(server.store) ==> NeverAbsent(added, target))
              && LeavesBehind(old(server.store), server.store, out, added, target, temp, name, data)
              && Reports(out, added, connected, target, temp, name, false)
              && AnyStor(added) && !MayHaveDeleted(added, target)
      ensures out.Raised? ==> !out.error.TargetExists?
      ensures connected <==> !DropsConnection(out)
      ensures Cooperative(added) ==> out.Returned?
    {
      var name := TempName(remotePath, token);
      var target, temp := Resolve(server.cwd, remotePath), Resolve(server.cwd, name);
      TempIsNotTarget(server.cwd, remotePath, token);
      out, added := ReplaceAt(target, temp, name, data, deadline);
    }

    /** DELE of the target, when it is there; a reply that leaves its fate open ends the call. */
    method Clear(target: Path, temp: Path, data: Bytes, ghost before: Store)
      returns (r: Reply, deleted: bool, ghost added: seq<Event>)
      requires server.Valid() && temp != target
      requires WriteSafe(before, server.store, target, temp, data)
      requires SameAt(before, server.store, target) && Holds(server.store, temp, data)
      modifies server
      ensures server.Valid() && server.cwd == old(server.cwd) && server.trace == old(server.trace) + added
      ensures AllSafe(added, before, target, temp, data) && WriteSafe(before, server.store, target, temp, data)
      ensures Holds(server.store, temp, data)
      ensures SameAt(before, server.store, target) || (deleted && target !in server.store)
      ensures MayHaveDeleted(added, target) <==> deleted
      ensures !r.Good? ==> !Cooperative(added)
      ensures !r.Good? ==>
                Blamed(if deleted || r.Lost? then TransferUncertain else Reply(r), added, target, temp, true)
      ensures !AnyStor(added) && NoRename(added)
      ensures r.Good? ==> added != [] && Cleared(added[|added| - 1], target)
      ensures DeletesSeen(added, target) && SizesInBinary(added)
    {
      var a;
      r, deleted := Good, false;
      a, added := Exists(target);
      if a.Broke? {
        r := a.reply;
      } else if a.Yes? {
        ghost var e;
        r, e := Swap(Dele(target), target, temp, data, before);
        deleted := !r.Refusal();
        ClearRecord(added, e, target, temp);
        ClearOrder(added, e, target);
        added := added + [e];
      }
    }

    /** The second half of `put`: clear the target when overwriting, then rename onto it. */
    method Install(target: Path, temp: Path, name: string, data: Bytes, overwrite: bool, ghost before: Store)
      returns (out: Outcome, ghost added: seq<Event>)
      requires connected && server.Valid() && temp != target
      requires WriteSafe(before, server.store, target, temp, data)
      requires SameAt(before, server.store, target) && Holds(server.store, temp, data)
      modifies this, server
      ensures server.Valid() && server.cwd == old(server.cwd) && server.trace == old(server.trace) + added
      ensures AllSafe(added, before, target, temp, data)
      ensures !overwrite && IsDir(before, target) ==> NeverTouched(added, before, target)
      ensures LeavesBehind(before, server.store, out, added, target, temp, name, data)
      ensures InstallReports(out, added, connected, target, temp, name, overwrite)
      ensures out.Raised? ==> !out.error.TransferTimeout? && !out.error.TargetExists?
      ensures connected <==> !DropsConnection(out)
      ensures Cooperative(added) ==> out.Returned?
      ensures if overwrite then RenamesCleared(added, target) else RenamesFirst(added)
    {
      ghost var more;
      var deleted := false;
      added := [];
      if overwrite {
        var r;
        r, deleted, added := Clear(target, temp, data, before);
        if deleted && !r.Good? {
          Discard();
          return Raised(TransferUncertain, Some(name)), added;
        }
        if !r.Good? {
          out, more := FailInstall(r, deleted, target, temp, name, data, before);
          ClearedRenameJoins(added, more, target);
          StretchesJoin(added, more, out.error, target, temp, true);
          ConcatAssoc(old(server.trace), added, more);
          return out, added + more;
        }
      }
      out, more := RenameOver(deleted, target, temp, name, data, before, overwrite);
      if overwrite {
        ClearedRenameJoins(added, more, target);
        ClearReportsJoin(out, added, more, connected, target, temp, name);
      } else {
        assert added + more == more;
      }
      ConcatAssoc(old(server.trace), added, more);
      added := added + more;
    }

    /** The STOR, and without `overwrite` the second look at the target. */
    method StageChecked(target: Path, temp: Path, data: Bytes, deadline: bool, overwrite: bool)
      returns (failure: Option<Error>, ghost added: seq<Event>)
      requires connected && server.Valid() && temp != target && temp !in server.store
      modifies this, server
      ensures server.Valid() && server.cwd == old(server.cwd) && server.trace == old(server.trace) + added
      ensures AllSafe(added, old(server.store), target, temp, data) && NoRename(added)
      ensures NeverTouched(added, old(server.store), target) && !MayHaveDeleted(added, target)
      ensures WriteSafe(old(server.store), server.store, target, temp, data)
      ensures SameAt(old(server.store), server.store, target)
      ensures failure.None? ==> Holds(server.store, temp, data)
      ensures failure.None? && !overwrite ==>
                && added != [] && SaysAbsent(added[|added| - 1], target)
                && (server.accurateSize ==> !IsFile(server.store, target))
      ensures failure.Some? && failure.value.TargetExists? ==> !overwrite && target in server.store
      ensures failure.Some? ==> !failure.value.TransferUncertain?
      ensures connected <==> !(failure.Some? && failure.value.TransferTimeout?)
      ensures failure.Some? && !failure.value.TargetExists? ==> !Cooperative(added)
      ensures failure.Some? ==> Explained(failure.value, added, target, temp, overwrite)
      ensures AnyStor(added)
    {
      var r;
      r, added := Stage(temp, data, deadline, target);
      failure := if r.Good? then None else Some(if r.Overdue? then TransferTimeout else Reply(r));
      if failure.None? && !overwrite {
        var a;
        ghost var more;
        a, more := Exists(target);
        NoRenameJoins(added, more, target);
        if !a.No? {
          failure := Some(if a.Yes? then TargetExists else Reply(a.reply));
          StretchesJoin(added, more, failure.value, target, temp, false);
        }
        InConcat(added, more);
        added := added + more;
      }
      if r.Overdue? {
        Discard();
      }
    }

    /** `put` from the STOR on. */
    method PutStaged(target: Path, temp: Path, name: string, data: Bytes, deadline: bool, overwrite: bool)
      returns (out: Outcome, ghost added: seq<Event>)
      requires connected && server.Valid() && temp != target && temp !in server.store
      modifies this, server
      ensures server.Valid() && server.cwd == old(server.cwd) && server.trace == old(server.trace) + added
      ensures AllSafe(added, old(server.store), target, temp, data)
      ensures !overwrite && server.accurateSize && target in old(server.store) ==>
                NeverTouched(added, old(server.store), target)
      ensures LeavesBehind(old(server.store), server.store, out, added, target, temp, name, data)
      ensures Reports(out, added, connected, target, temp, name, overwrite) && AnyStor(added)
      ensures out.Raised? && out.error.TargetExists? ==> !overwrite && target in old(server.store)
      ensures connected <==> !DropsConnection(out)
      ensures Cooperative(added) ==> out.Returned? || out.error.TargetExists?
      ensures if overwrite then RenamesCleared(added, target) else RenamesChecked(added, target)
    {
      ghost var before, more := server.store, [];
      var failure;
      failure, added := StageChecked(target, temp, data, deadline, overwrite);
      if failure.Some? {
        out, more := Abandon(failure.value, temp, name, data, before, target);
        AbandonJoins(out, added, more, connected, target, temp, name, overwrite);
      } else {
        out, more := Install(target, temp, name, data, overwrite, before);
        ReportsJoin(out, added, more, connected, target, temp, name, overwrite);
        if overwrite {
          ClearedRenameJoins(added, more, target);
        } else {
          CheckedRenameJoins(added, more, target);
        }
      }
      InConcat(added, more);
      added := added + more;
    }

    /** `put` once the two paths are known. */
    method PutAt(target: Path, temp: Path, name: string, data: Bytes, deadline: bool, overwrite: bool)
      returns (out: Outcome, ghost added: seq<Event>)
      requires connected && server.Valid() && temp != target && temp !in server.store
      modifies this, server
      ensures server.Valid() && server.cwd == old(server.cwd) && server.trace == old(server.trace) + added
      ensures AllSafe(added, old(server.store), target, temp, data)
      ensures !overwrite && server.accurateSize && target in old(server.store) ==>
                NeverTouched(added, old(server.store), target)
      ensures if overwrite then RenamesCleared(added, target)
              else StoresChecked(added, target) && RenamesChecked(added, target)
      ensures LeavesBehind(old(server.store), server.store, out, added, target, temp, name, data)
      ensures Reports(out, added, connected, target, temp, name, overwrite)
      ensures out.Raised? && out.error.TargetExists? ==> !overwrite && target in old(server.store)
      ensures connected <==> !DropsConnection(out)
      ensures Cooperative(added) ==> out.Returned? || out.error.TargetExists?
    {
      if overwrite {
        out, added := PutStaged(target, temp, name, data, deadline, overwrite);
        return;
      }
      var a;
      a, added := Exists(target);
      if !a.No? {
        CheckCovers(added, [], target);
        assert added + [] == added;
        return Raised(if a.Yes? then TargetExists else Reply(a.reply), None), added;
      }
      ghost var before, more := server.store, [];
      out, more := PutStaged(target, temp, name, data, deadline, overwrite);
      ProbesJoin(out, added, more, connected, before, server.store, target, temp, name, data, overwrite);
      CheckCovers(added, more, target);
      added := added + more;
    }

    method Put(remotePath: string, data: Bytes, token: string, deadline: bool, overwrite: bool)
      returns (out: Outcome, ghost added: seq<Event>)
      requires connected && server.Valid() && '/' !in token
      requires Resolve(server.cwd, TempName(remotePath, token)) !in server.store
      modifies this, server
      ensures server.Valid() && server.cwd == old(server.cwd) && server.trace == old(server.trace) + added
      ensures var target := Resolve(old(server.cwd), remotePath);
              var name := TempName(remotePath, token);
              var temp := Resolve(old(server.cwd), name);
              && AllSafe(added, old(server.store), target, temp, data)
              && (forall e :: e in added ==> NothingLost(old(server.store), e.store, target, temp, data))
              && (!overwrite && server.accurateSize && target in old(server.store) ==>
                    NeverTouched(added, old(server.store), target))
              && (if overwrite then RenamesCleared(added, target)
                  else StoresChecked(added, target) && RenamesChecked(added, target))
              && LeavesBehind(old(server.store), server.store, out, added, target, temp, name, data)
              && Reports(out, added, connected, target, temp, name, overwrite)
              && (out.Raised? && out.error.TargetExists? ==> !overwrite && target in old(server.store))
      ensures connected <==> !DropsConnection(out)
      ensures Cooperative(added) ==> out.Returned? || out.error.TargetExists?
    {
      var name := TempName(remotePath, token);
      var target, temp := Resolve(server.cwd, remotePath), Resolve(server.cwd, name);
      TempIsNotTarget(server.cwd, remotePath, token);
      out, added := PutAt(target, temp, name, data, deadline, overwrite);
      SafeMeansNothingLost(added, old(server.store), target, temp, data);
    }
  }
}
