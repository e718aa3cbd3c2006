/** The renewed Redis lock around a logged job: `redis_lock`, its watchdog and
    `TaskLogger.wrap`, run by any number of invocations that may crash at any point.

    Redis is modelled by its atomic steps: SET NX with an expiry, and the owner-checked
    extend and release scripts. A key whose time has come counts as absent. Each invocation
    has its own token, so its number stands for the token. */
module RedisLock {

  datatype Key = Free | Held(owner: nat, expiry: real)

  /** Entered, Body and Leaving are inside the wrapped function: before the start record,
      between start and closing record, and after the closing record; Escaping is after an
      exception that no record is made of. Refused: the acquire failed without an answer.
      Left: ended without knowing the key to be free, after a lost reply to the acquire or a
      failed release. */
  datatype Phase = Idle | Skipping | Refused | Owner | Entered | Body | Leaving | Escaping | Stopping | Done | Left
    | Crashed
  datatype Watchdog = Off | Sleeping | Extending | Gone

  datatype Invocation = Invocation(phase: Phase, watchdog: Watchdog, lastArm: real) {
    predicate Inside() {
      phase.Entered? || phase.Body? || phase.Leaving? || phase.Escaping?
    }

    predicate Ended() {
      phase.Refused? || phase.Done? || phase.Left? || phase.Crashed?
    }

    /** From the acquire until the release has been answered. */
    predicate Holding() {
      phase.Owner? || Inside() || phase.Stopping?
    }

    /** After an extend. A crash leaves nobody to wait, but the command that is on its way. */
    function Rested(): Watchdog {
      if phase.Crashed? then Gone else Sleeping
    }
  }

  /** `lock_ttl`, and whether extend replaces the remaining time or adds to it. */
  datatype Config = Config(ttl: real, replaceTtl: bool)

  datatype Event = Skip | Start | End | Error

  /** One push of a record; a failed one is swallowed by the logger, and nothing is stored. */
  datatype Record = Record(inv: nat, event: Event, stored: bool)

  datatype State = State(now: real, key: Key, invs: seq<Invocation>, history: seq<Record>)

  datatype Action =
    | Acquire | AcquireReplyLost | AcquireFails | FindHeld | RecordSkip(stored: bool)
    | StartWatchdog | RecordStart(stored: bool) | RecordEnd(stored: bool) | RecordError(stored: bool)
    | Escape | SetStop
    | Release | ReleaseFails
    | Wake | Extend | ExtendReplyLost | ExtendFails | WatchdogStops
    | Crash

  datatype Step = Tick(d: real) | Do(w: nat, action: Action)

  predicate Live(s: State) {
    s.key.Held? && s.now < s.key.expiry
  }

  predicate OwnedBy(s: State, w: nat) {
    Live(s) && s.key.owner == w
  }

  predicate Allowed(s: State, w: nat, a: Action)
    requires w < |s.invs|
  {
    var inv := s.invs[w];
    match a
    case Acquire => inv.phase.Idle? && !Live(s)
    case AcquireReplyLost => inv.phase.Idle? && !Live(s)
    case AcquireFails => inv.phase.Idle?
    case FindHeld => inv.phase.Idle? && Live(s)
    case RecordSkip(_) => inv.phase.Skipping?
    case StartWatchdog => inv.phase.Owner?
    case RecordStart(_) => inv.phase.Entered?
    case RecordEnd(_) => inv.phase.Body?
    case RecordError(_) => inv.phase.Body?
    case Escape => inv.phase.Body?
    case SetStop => inv.phase.Leaving? || inv.phase.Escaping?
    case Release => inv.phase.Stopping?
    case ReleaseFails => inv.phase.Stopping?
    case Wake => inv.watchdog.Sleeping? && inv.Inside()
    case Extend => inv.watchdog.Extending?
    case ExtendReplyLost => inv.watchdog.Extending?
    case ExtendFails => inv.watchdog.Extending?
    case WatchdogStops => inv.watchdog.Sleeping? && !inv.Inside()
    case Crash => !inv.Ended()
  }

  predicate Enabled(s: State, step: Step) {
    match step
    case Tick(d) => d > 0.0
    case Do(w, a) => w < |s.invs| && Allowed(s, w, a)
  }

  function Armed(s: State, w: nat, c: Config): Key {
    Held(w, s.now + c.ttl)
  }

  function Extended(s: State, w: nat, c: Config): Key {
    if !OwnedBy(s, w) then s.key
    else if c.replaceTtl then Armed(s, w, c)
    else Held(w, s.key.expiry + c.ttl)
  }

  /** The owner-checked scripts: they act only while the caller's token is the live key. */
  function KeyAfter(s: State, w: nat, a: Action, c: Config): Key {
    match a
    case Acquire => Armed(s, w, c)
    case AcquireReplyLost => Armed(s, w, c)
    case Extend => Extended(s, w, c)
    case ExtendReplyLost => Extended(s, w, c)
    case Release => if OwnedBy(s, w) then Free else s.key
    case _ => s.key
  }

  function InvocationAfter(s: State, w: nat, a: Action): Invocation
    requires w < |s.invs|
  {
    var inv := s.invs[w];
    match a
    case Acquire => inv.(phase := Owner, lastArm := s.now)
    case AcquireReplyLost => inv.(phase := Left, lastArm := s.now)
    case AcquireFails => inv.(phase := Refused)
    case FindHeld => inv.(phase := Skipping)
    case RecordSkip(_) => inv.(phase := Done)
    case StartWatchdog => inv.(phase := Entered, watchdog := Sleeping)
    case RecordStart(_) => inv.(phase := Body)
    case RecordEnd(_) => inv.(phase := Leaving)
    case RecordError(_) => inv.(phase := Leaving)
    case Escape => inv.(phase := Escaping)
    case SetStop => inv.(phase := Stopping)
    case Release => inv.(phase := Done)
    case ReleaseFails => inv.(phase := Left)
    case Wake => inv.(watchdog := Extending)
    case Extend =>
      if OwnedBy(s, w) then inv.(watchdog := inv.Rested(), lastArm := s.now) else inv.(watchdog := Gone)
    case ExtendReplyLost =>
      if OwnedBy(s, w) then inv.(watchdog := inv.Rested(), lastArm := s.now) else inv.(watchdog := inv.Rested())
    case ExtendFails => inv.(watchdog := inv.Rested())
    case WatchdogStops => inv.(watchdog := Gone)
    case Crash => inv.(phase := Crashed, watchdog := if inv.watchdog.Extending? then Extending else Gone)
  }

  function RecordsOf(w: nat, a: Action): seq<Record> {
    match a
    case RecordSkip(stored) => [Record(w, Skip, stored)]
    case RecordStart(stored) => [Record(w, Start, stored)]
    case RecordEnd(stored) => [Record(w, End, stored)]
    case RecordError(stored) => [Record(w, Error, stored)]
    case _ => []
  }

  function Apply(s: State, step: Step, c: Config): State
    requires Enabled(s, step)
  {
    match step
    case Tick(d) => s.(now := s.now + d)
    case Do(w, a) =>
      State(s.now, KeyAfter(s, w, a, c), s.invs[w := InvocationAfter(s, w, a)], s.history + RecordsOf(w, a))
  }

  predicate Initial(s: State) {
    && s.key.Free? && s.history == []
    && forall w :: 0 <= w < |s.invs| ==> s.invs[w].phase.Idle? && s.invs[w].watchdog.Off?
  }

  ghost predicate StepTo(s: State, step: Step, t: State, c: Config) {
    Enabled(s, step) && t == Apply(s, step, c)
  }

  ghost predicate Next(s: State, t: State, c: Config) {
    exists step :: StepTo(s, step, t, c)
  }

  ghost predicate IsRun(run: seq<State>, c: Config) {
    && run != [] && Initial(run[0])
    && forall i :: 0 <= i < |run| - 1 ==> Next(run[i], run[i + 1], c)
  }

  /** A holder less than ttl past its last arm has the key, to the end of that time. */
  ghost predicate HolderInv(s: State, w: nat, c: Config)
    requires w < |s.invs|
  {
    s.invs[w].Holding() && s.now < s.invs[w].lastArm + c.ttl ==> s.key == Held(w, s.invs[w].lastArm + c.ttl)
  }

  /** The key never has more than ttl to live, counted from its owner's last arm. */
  ghost predicate KeyInv(s: State, c: Config) {
    s.key.Held? ==>
      && s.key.owner < |s.invs|
      && s.key.expiry == s.invs[s.key.owner].lastArm + c.ttl
      && s.invs[s.key.owner].lastArm <= s.now
      && !s.invs[s.key.owner].phase.Idle?
  }

  ghost predicate LifeInv(inv: Invocation) {
    && (inv.phase.Idle? || inv.phase.Skipping? || inv.phase.Owner? ==> inv.watchdog.Off?)
    && (inv.phase.Crashed? ==> inv.watchdog.Gone? || inv.watchdog.Extending?)
  }

  ghost predicate Inv(s: State, c: Config) {
    && KeyInv(s, c)
    && (forall w :: 0 <= w < |s.invs| ==> HolderInv(s, w, c) && LifeInv(s.invs[w]))
  }

  lemma StepKeepsInv(s: State, step: Step, c: Config)
    requires c.ttl > 0.0 && c.replaceTtl && Inv(s, c) && Enabled(s, step)
    ensures Inv(Apply(s, step, c), c)
  {
    var t := Apply(s, step, c);
    forall w | 0 <= w < |t.invs| ensures HolderInv(t, w, c) && LifeInv(t.invs[w]) {
      assert HolderInv(s, w, c) && LifeInv(s.invs[w]);
    }
  }

  lemma {:induction false} RunKeepsInv(run: seq<State>, c: Config, i: nat)
    requires c.ttl > 0.0 && c.replaceTtl && IsRun(run, c) && i < |run|
    ensures Inv(run[i], c)
  {
    if i > 0 {
      RunKeepsInv(run, c, i - 1);
      assert Next(run[i - 1], run[i], c);
      var step :| StepTo(run[i - 1], step, run[i], c);
      StepKeepsInv(run[i - 1], step, c);
    }
  }

  /** In every state whatever, no step of one invocation deletes, takes or re-arms a key that
      is live under another's token. */
  lemma ForeignKeyUntouched(s: State, w: nat, a: Action, c: Config)
    requires Enabled(s, Do(w, a)) && Live(s) && s.key.owner != w
    ensures Apply(s, Do(w, a), c).key == s.key
  {
  }

  /** Nobody who is past acquiring comes to own a key it does not own. */
  lemma StepWinsNothing(s: State, step: Step, c: Config, w: nat)
    requires Enabled(s, step) && w < |s.invs| && !s.invs[w].phase.Idle? && !OwnedBy(s, w)
    ensures var t := Apply(s, step, c); w < |t.invs| && !t.invs[w].phase.Idle? && !OwnedBy(t, w)
  {
  }

  /** Once an invocation is past its acquire and does not own the live key, whether it has
      released it, let it lapse or lost it to another, it never owns it again: no extend on
      its way, before or after the release, revives the key or takes it over. And while the
      key is live under another token it stays exactly as it is, whatever steps this
      invocation makes. */
  lemma {:induction false} OwnerSafety(run: seq<State>, c: Config, i: nat, j: nat, w: nat)
    requires IsRun(run, c) && i <= j < |run|
    requires w < |run[i].invs| && !run[i].invs[w].phase.Idle? && !OwnedBy(run[i], w)
    ensures w < |run[j].invs| && !run[j].invs[w].phase.Idle? && !OwnedBy(run[j], w)
    ensures forall a :: Enabled(run[j], Do(w, a)) && Live(run[j]) ==> Apply(run[j], Do(w, a), c).key == run[j].key
  {
    if i < j {
      OwnerSafety(run, c, i, j - 1, w);
      assert Next(run[j - 1], run[j], c);
      var step :| StepTo(run[j - 1], step, run[j], c);
      StepWinsNothing(run[j - 1], step, c, w);
    }
    forall a | Enabled(run[j], Do(w, a)) && Live(run[j])
      ensures Apply(run[j], Do(w, a), c).key == run[j].key
    {
      ForeignKeyUntouched(run[j], w, a, c);
    }
  }

  /** While the job runs the watchdog keeps renewing, unless the lock is already lost. */
  ghost predicate Watched(s: State) {
    forall w :: 0 <= w < |s.invs| && s.invs[w].Inside() ==>
      s.invs[w].watchdog.Sleeping? || s.invs[w].watchdog.Extending? || !OwnedBy(s, w)
  }

  lemma StepKeepsWatched(s: State, step: Step, c: Config)
    requires Enabled(s, step) && Watched(s)
    ensures Watched(Apply(s, step, c))
  {
    var t := Apply(s, step, c);
    forall w | 0 <= w < |t.invs| && t.invs[w].Inside()
      ensures t.invs[w].watchdog.Sleeping? || t.invs[w].watchdog.Extending? || !OwnedBy(t, w)
    {
      if !s.invs[w].phase.Idle? && !OwnedBy(s, w) {
        StepWinsNothing(s, step, c, w);
      }
    }
  }

  lemma {:induction false} WatchdogStaysOn(run: seq<State>, c: Config, i: nat)
    requires IsRun(run, c) && i < |run|
    ensures Watched(run[i])
  {
    if i > 0 {
      WatchdogStaysOn(run, c, i - 1);
      assert Next(run[i - 1], run[i], c);
      var step :| StepTo(run[i - 1], step, run[i], c);
      StepKeepsWatched(run[i - 1], step, c);
    }
  }

  /** How many steps of its own an invocation has left outside the wrapped function. */
  function StepsLeft(inv: Invocation): nat {
    var phases := match inv.phase
      case Idle => 10
      case Skipping => 1
      case Owner => 9
      case Entered => 7
      case Body => 6
      case Leaving => 5
      case Escaping => 5
      case Stopping => 4
      case _ => 0;
    phases + match inv.watchdog case Extending => 2 case Sleeping => 1 case _ => 0
  }

  /** Every invocation ends: each step of its own but a tick of the watchdog brings it closer to
      that, and once it has left the wrapped function there are no more ticks either. */
  lemma InvocationEnds(s: State, w: nat, a: Action)
    requires w < |s.invs| && Allowed(s, w, a) && LifeInv(s.invs[w])
    ensures a.Wake? || StepsLeft(InvocationAfter(s, w, a)) < StepsLeft(s.invs[w])
    ensures a.Wake? ==> s.invs[w].Inside()
  {
  }

  /** The release deletes the key if it is still the caller's: nobody holds the lock then. */
  lemma ReleaseFrees(s: State, w: nat, c: Config)
    requires Enabled(s, Do(w, Release)) && (s.key.Held? ==> s.key.owner == w || !Live(s))
    ensures var t := Apply(s, Do(w, Release), c); !Live(t) && !MayOwn(t.invs[w])
  {
  }

  /** Who may still own the key: whoever is between acquire and release, and whoever ended
      without a release that worked. */
  predicate MayOwn(inv: Invocation) {
    inv.Holding() || inv.phase.Left? || inv.phase.Crashed?
  }

  ghost predicate OwnersKnown(s: State) {
    forall w :: 0 <= w < |s.invs| && OwnedBy(s, w) ==> MayOwn(s.invs[w])
  }

  lemma StepKeepsOwners(s: State, step: Step, c: Config)
    requires Enabled(s, step) && OwnersKnown(s)
    ensures OwnersKnown(Apply(s, step, c))
  {
    var t := Apply(s, step, c);
    forall w | 0 <= w < |t.invs| && OwnedBy(t, w)
      ensures MayOwn(t.invs[w])
    {
      if !s.invs[w].phase.Idle? && !OwnedBy(s, w) {
        StepWinsNothing(s, step, c, w);
      }
    }
  }

  /** A live key belongs to such an invocation, which armed it less than ttl ago. */
  lemma {:induction false} LiveKeyHasOwner(run: seq<State>, c: Config, i: nat)
    requires c.ttl > 0.0 && c.replaceTtl && IsRun(run, c) && i < |run|
    ensures OwnersKnown(run[i])
    ensures Live(run[i]) ==>
              var v := run[i].key.owner;
              v < |run[i].invs| && MayOwn(run[i].invs[v]) && run[i].now < run[i].invs[v].lastArm + c.ttl
  {
    RunKeepsInv(run, c, i);
    if i > 0 {
      LiveKeyHasOwner(run, c, i - 1);
      assert Next(run[i - 1], run[i], c);
      var step :| StepTo(run[i - 1], step, run[i], c);
      StepKeepsOwners(run[i - 1], step, c);
    }
  }

  /** A fire is skipped only for another invocation that may own the key and armed it less than
      ttl ago; once everybody has released, the next one acquires. */
  lemma SkipsOnlyIfHeld(run: seq<State>, c: Config, i: nat, w: nat)
    requires c.ttl > 0.0 && c.replaceTtl && IsRun(run, c) && i < |run|
    requires w < |run[i].invs| && run[i].invs[w].phase.Idle?
    ensures var s := run[i];
            && ((exists a :: Allowed(s, w, a) && InvocationAfter(s, w, a).phase.Skipping?) ==>
                  exists v :: 0 <= v < |s.invs| && v != w && MayOwn(s.invs[v]) && s.now < s.invs[v].lastArm + c.ttl)
            && ((forall v :: 0 <= v < |s.invs| ==> !MayOwn(s.invs[v])) ==> Enabled(s, Do(w, Acquire)))
  {
    LiveKeyHasOwner(run, c, i);
  }

  /** An acquire that ran with its reply lost leaves the key held with nobody to release it. */
  lemma LostReplyHoldsKey(ttl: real) returns (run: seq<State>)
    requires ttl > 0.0
    ensures IsRun(run, Config(ttl, true))
    ensures var s := run[|run| - 1]; |s.invs| == 1 && s.invs[0].phase.Left? && OwnedBy(s, 0)
  {
    run := LongerRun([Fresh(1)], Do(0, AcquireReplyLost), Config(ttl, true));
  }

  /** No two invocations are inside the wrapped function while both are less than ttl past
      their last arm. */
  lemma MutualExclusion(run: seq<State>, c: Config, i: nat, v: nat, w: nat)
    requires c.ttl > 0.0 && c.replaceTtl && IsRun(run, c) && i < |run|
    requires v < |run[i].invs| && w < |run[i].invs|
    requires run[i].invs[v].Inside() && run[i].now < run[i].invs[v].lastArm + c.ttl
    requires run[i].invs[w].Inside() && run[i].now < run[i].invs[w].lastArm + c.ttl
    ensures v == w
  {
    RunKeepsInv(run, c, i);
    assert HolderInv(run[i], v, c) && HolderInv(run[i], w, c);
  }

  /** The key's remaining life never exceeds ttl. */
  lemma RemainingLife(run: seq<State>, c: Config, i: nat)
    requires c.ttl > 0.0 && c.replaceTtl && IsRun(run, c) && i < |run|
    ensures run[i].key.Held? ==> run[i].key.expiry - run[i].now <= c.ttl
  {
    RunKeepsInv(run, c, i);
  }

  /** An invocation after its crash: as it was, but for an extend that was on its way and
      still armed the key, which only its owner can. */
  ghost predicate Orphaned(before: Invocation, after: Invocation, c: Config) {
    && after.phase.Crashed?
    && (after == before || (before.watchdog.Extending? && after.watchdog.Gone?))
    && before.lastArm <= after.lastArm
    && (after.lastArm == before.lastArm || after.lastArm < before.lastArm + c.ttl)
  }

  lemma StepKeepsOrphan(before: Invocation, s: State, step: Step, c: Config, w: nat)
    requires Inv(s, c) && Enabled(s, step) && w < |s.invs| && Orphaned(before, s.invs[w], c)
    ensures Orphaned(before, Apply(s, step, c).invs[w], c)
  {
    assert LifeInv(s.invs[w]);
  }

  lemma NextKeepsOrphan(before: Invocation, run: seq<State>, c: Config, j: nat, w: nat)
    requires c.ttl > 0.0 && c.replaceTtl && IsRun(run, c) && j + 1 < |run|
    requires w < |run[j].invs| && Orphaned(before, run[j].invs[w], c)
    ensures w < |run[j + 1].invs| && Orphaned(before, run[j + 1].invs[w], c)
  {
    RunKeepsInv(run, c, j);
    assert Next(run[j], run[j + 1], c);
    var step :| StepTo(run[j], step, run[j + 1], c);
    StepKeepsOrphan(before, run[j], step, c, w);
  }

  /** A crashed invocation's key is free ttl after its last arm. Nothing arms it any more, but
      the one extend that may have been on its way: then twice ttl is the bound. */
  lemma {:induction false} OrphanBound(run: seq<State>, c: Config, i: nat, j: nat, w: nat)
    requires c.ttl > 0.0 && c.replaceTtl && IsRun(run, c) && i <= j < |run|
    requires w < |run[i].invs| && run[i].invs[w].phase.Crashed?
    ensures w < |run[j].invs| && Orphaned(run[i].invs[w], run[j].invs[w], c)
    ensures run[j].now >= run[j].invs[w].lastArm + c.ttl ==> !OwnedBy(run[j], w)
    ensures run[j].now >= run[i].invs[w].lastArm + 2.0 * c.ttl ==> !OwnedBy(run[j], w)
  {
    RunKeepsInv(run, c, j);
    if i < j {
      OrphanBound(run, c, i, j - 1, w);
      NextKeepsOrphan(run[i].invs[w], run, c, j - 1, w);
    }
  }

  /** A crash with an extend on its way. */
  lemma CrashExtending(ttl: real) returns (run: seq<State>)
    requires ttl > 0.0
    ensures IsRun(run, Config(ttl, true))
    ensures run[|run| - 1] == State(0.0, Held(0, ttl), [Invocation(Crashed, Extending, 0.0)], [])
  {
    var c := Config(ttl, true);
    run := [Fresh(1)];
    run := LongerRun(run, Do(0, Acquire), c);
    run := LongerRun(run, Do(0, StartWatchdog), c);
    run := LongerRun(run, Do(0, Wake), c);
    run := LongerRun(run, Do(0, Crash), c);
  }

  /** The second bound is needed: an extend on its way when the process dies still arms the key. */
  lemma OrphanOutlastsTtl(ttl: real) returns (run: seq<State>, i: nat)
    requires ttl > 0.0
    ensures IsRun(run, Config(ttl, true)) && i < |run|
    ensures |run[i].invs| == 1 && run[i].invs[0].phase.Crashed?
    ensures var s := run[|run| - 1]; s.now >= run[i].invs[0].lastArm + ttl && OwnedBy(s, 0)
  {
    var c := Config(ttl, true);
    run := CrashExtending(ttl);
    i := |run| - 1;
    run := LongerRun(run, Tick(ttl / 2.0), c);
    run := LongerRun(run, Do(0, Extend), c);
    run := LongerRun(run, Tick(ttl / 2.0), c);
  }

  /** Every step is a run's next one. */
  lemma LongerRun(run: seq<State>, step: Step, c: Config) returns (longer: seq<State>)
    requires IsRun(run, c) && Enabled(run[|run| - 1], step)
    ensures IsRun(longer, c) && longer == run + [Apply(run[|run| - 1], step, c)]
  {
    longer := run + [Apply(run[|run| - 1], step, c)];
    assert StepTo(run[|run| - 1], step, longer[|run|], c);
    forall i | 0 <= i < |longer| - 1 ensures Next(longer[i], longer[i + 1], c) {
      if i < |run| - 1 {
        assert longer[i] == run[i] && longer[i + 1] == run[i + 1];
        assert Next(run[i], run[i + 1], c);
      }
    }
  }

  function Fresh(n: nat): State {
    State(0.0, Free, seq(n, i => Invocation(Idle, Off, 0.0)), [])
  }

  /** The bound on remaining life rests on replacing: one added extend already breaks it. */
  lemma AddingBreaksTheBound(ttl: real) returns (run: seq<State>)
    requires ttl > 0.0
    ensures IsRun(run, Config(ttl, false))
    ensures var s := run[|run| - 1]; s.key.Held? && s.key.expiry - s.now > ttl
  {
    var c := Config(ttl, false);
    run := [Fresh(1)];
    run := LongerRun(run, Do(0, Acquire), c);
    run := LongerRun(run, Do(0, StartWatchdog), c);
    run := LongerRun(run, Tick(ttl / 3.0), c);
    run := LongerRun(run, Do(0, Wake), c);
    run := LongerRun(run, Do(0, Extend), c);
  }

  /** Exclusion rests on the holder's arms being less than ttl apart: a gap of exactly ttl
      lets a second invocation in. */
  lemma LapseBreaksExclusion(ttl: real) returns (run: seq<State>)
    requires ttl > 0.0
    ensures IsRun(run, Config(ttl, true))
    ensures var s := run[|run| - 1];
            && |s.invs| == 2 && s.invs[0].Inside() && s.invs[1].Inside() && s.now == s.invs[0].lastArm + ttl
  {
    var c := Config(ttl, true);
    run := [Fresh(2)];
    run := LongerRun(run, Do(0, Acquire), c);
    run := LongerRun(run, Do(0, StartWatchdog), c);
    run := LongerRun(run, Tick(ttl), c);
    run := LongerRun(run, Do(1, Acquire), c);
    run := LongerRun(run, Do(1, StartWatchdog), c);
  }

  // The records one job's invocations push while the lock does its work, failed pushes included.

  /** The start, end and error records, without the skips. */
  function Core(history: seq<Record>): seq<Record> {
    if history == [] then []
    else
      var k := |history| - 1;
      if history[k].event.Skip? then Core(history[..k]) else Core(history[..k]) + [history[k]]
  }

  /** What reached the list. */
  function Stored(history: seq<Record>): seq<Record> {
    if history == [] then []
    else
      var k := |history| - 1;
      if history[k].stored then Stored(history[..k]) + [history[k]] else Stored(history[..k])
  }

  function EventsOf(history: seq<Record>, w: nat): seq<Event> {
    if history == [] then []
    else
      var k := |history| - 1;
      if history[k].inv == w then EventsOf(history[..k], w) + [history[k].event] else EventsOf(history[..k], w)
  }

  predicate IsStartOf(r: Record, w: nat) {
    r.inv == w && r.event.Start?
  }

  /** Each end or error record directly follows its own start. */
  ghost predicate Paired(core: seq<Record>) {
    forall i :: 0 <= i < |core| && !core[i].event.Start? ==> i > 0 && IsStartOf(core[i - 1], core[i].inv)
  }

  /** No closing record was stored whose start, pushed right before it, was not. */
  ghost predicate NoOrphan(core: seq<Record>) {
    forall i :: 0 < i < |core| && !core[i].event.Start? && core[i].stored ==> core[i - 1].stored
  }

  ghost predicate OneStartEach(core: seq<Record>) {
    forall i, j :: 0 <= i < j < |core| && core[i].event.Start? ==> !IsStartOf(core[j], core[i].inv)
  }

  ghost predicate Timely(s: State, c: Config) {
    forall w :: 0 <= w < |s.invs| && s.invs[w].Inside() ==> s.now < s.invs[w].lastArm + c.ttl
  }

  ghost predicate AllTimely(run: seq<State>, c: Config) {
    forall k :: 0 <= k < |run| ==> Timely(run[k], c)
  }

  predicate BeforeStart(inv: Invocation) {
    inv.phase.Idle? || inv.phase.Skipping? || inv.phase.Owner? || inv.phase.Entered?
  }

  /** The pushes pair up, whoever is in the body made the last of them, and nobody has made
      any before its start. */
  ghost predicate LogOf(core: seq<Record>, invs: seq<Invocation>) {
    && Paired(core) && OneStartEach(core)
    && (forall w :: 0 <= w < |invs| && invs[w].phase.Body? ==> core != [] && IsStartOf(core[|core| - 1], w))
    && (forall w :: 0 <= w < |invs| && BeforeStart(invs[w]) ==> forall r :: r in core ==> r.inv != w)
  }

  ghost predicate LogInv(s: State) {
    LogOf(Core(s.history), s.invs)
  }

  lemma CoreGrows(history: seq<Record>, r: Record)
    ensures Core(history + [r]) == if r.event.Skip? then Core(history) else Core(history) + [r]
  {
    assert (history + [r])[..|history|] == history;
  }

  lemma StoredGrows(history: seq<Record>, r: Record)
    ensures Stored(history + [r]) == if r.stored then Stored(history) + [r] else Stored(history)
  {
    assert (history + [r])[..|history|] == history;
  }

  /** A start by the only one inside, or a closing record by the one in the body. */
  lemma RecordKeepsLog(core: seq<Record>, invs: seq<Invocation>, r: Record, after: Invocation)
    requires LogOf(core, invs) && r.inv < |invs|
    requires forall v :: 0 <= v < |invs| && invs[v].phase.Body? ==> v == r.inv
    requires if r.event.Start? then BeforeStart(invs[r.inv]) else invs[r.inv].phase.Body?
    requires !BeforeStart(after) && (after.phase.Body? <==> r.event.Start?)
    ensures LogOf(core + [r], invs[r.inv := after])
  {
    assert r.event.Start? ==> forall i :: 0 <= i < |core| ==> core[i] in core;
  }

  lemma QuietKeepsLog(core: seq<Record>, invs: seq<Invocation>, w: nat, after: Invocation)
    requires LogOf(core, invs) && w < |invs| && (after.phase.Body? ==> invs[w].phase.Body?)
    requires BeforeStart(after) ==> BeforeStart(invs[w])
    ensures LogOf(core, invs[w := after])
  {
  }

  lemma OnlyOneInside(s: State, w: nat, c: Config, v: nat)
    requires Inv(s, c) && Timely(s, c) && v < |s.invs| && w < |s.invs| && s.invs[v].Inside() && s.invs[w].Inside()
    ensures v == w
  {
    assert HolderInv(s, v, c) && HolderInv(s, w, c);
  }

  lemma ActKeepsLog(s: State, w: nat, r: Record, after: Invocation, c: Config)
    requires Inv(s, c) && Timely(s, c) && LogInv(s) && w < |s.invs| && r.inv == w && !r.event.Skip?
    requires if r.event.Start? then s.invs[w].phase.Entered? else s.invs[w].phase.Body?
    requires after.phase == if r.event.Start? then Body else Leaving
    ensures LogOf(Core(s.history) + [r], s.invs[w := after])
  {
    forall v | 0 <= v < |s.invs| && s.invs[v].phase.Body?
      ensures v == w
    {
      OnlyOneInside(s, w, c, v);
    }
    RecordKeepsLog(Core(s.history), s.invs, r, after);
  }

  lemma StepKeepsLog(s: State, step: Step, c: Config)
    requires Inv(s, c) && Timely(s, c) && LogInv(s) && Enabled(s, step)
    ensures LogInv(Apply(s, step, c))
  {
    if step.Do? {
      var w, more := step.w, RecordsOf(step.w, step.action);
      var after := InvocationAfter(s, w, step.action);
      if more == [] {
        assert s.history + more == s.history;
        QuietKeepsLog(Core(s.history), s.invs, w, after);
      } else {
        assert more == [more[0]];
        CoreGrows(s.history, more[0]);
        if more[0].event.Skip? {
          QuietKeepsLog(Core(s.history), s.invs, w, after);
        } else {
          ActKeepsLog(s, w, more[0], after, c);
        }
      }
    }
  }

  lemma {:induction false} RunKeepsLog(run: seq<State>, c: Config, i: nat)
    requires c.ttl > 0.0 && c.replaceTtl && IsRun(run, c) && i < |run|
    requires AllTimely(run[..i], c)
    ensures LogInv(run[i])
  {
    if i > 0 {
      RunKeepsLog(run, c, i - 1);
      RunKeepsInv(run, c, i - 1);
      assert Next(run[i - 1], run[i], c);
      var step :| StepTo(run[i - 1], step, run[i], c);
      StepKeepsLog(run[i - 1], step, c);
    }
  }

  lemma {:induction false} StoredIn(history: seq<Record>, r: Record)
    ensures r in Stored(history) <==> r in history && r.stored
  {
    if history != [] {
      var k := |history| - 1;
      StoredIn(history[..k], r);
      assert history == history[..k] + [history[k]];
    }
  }

  lemma {:induction false} StoredCore(history: seq<Record>)
    ensures Core(Stored(history)) == Stored(Core(history))
  {
    if history != [] {
      var k := |history| - 1;
      var r := history[k];
      StoredCore(history[..k]);
      CoreGrows(Stored(history[..k]), r);
      StoredGrows(Core(history[..k]), r);
    }
  }

  /** A stored closing record whose start was not stored follows something else. */
  lemma OrphanStandsAlone(core: seq<Record>)
    requires Paired(core) && OneStartEach(core) && core != []
    requires var k := |core| - 1; !core[k].event.Start? && core[k].stored && k > 0 && !core[k - 1].stored
    ensures !Paired(Stored(core))
  {
    var k := |core| - 1;
    var r, before := core[k], Stored(core[..k - 1]);
    assert core[..k][..k - 1] == core[..k - 1];
    assert Stored(core) == before + [r];
    if before != [] {
      var last := before[|before| - 1];
      StoredIn(core[..k - 1], last);
      assert IsStartOf(core[k - 1], r.inv);
      assert !IsStartOf(last, r.inv);
      assert Stored(core)[|before| - 1] == last;
    }
    assert Stored(core)[|before|] == r;
  }

  /** A closing record whose start was stored follows it in the list. */
  lemma CloseFollowsStart(core: seq<Record>)
    requires Paired(core) && core != []
    requires var k := |core| - 1; !core[k].event.Start? && core[k].stored && core[k - 1].stored
    ensures Paired(Stored(core)) <==> Paired(Stored(core[..|core| - 1]))
  {
    var k := |core| - 1;
    var earlier := Stored(core[..k]);
    assert core[..k][k - 1] == core[k - 1];
    assert earlier[|earlier| - 1] == core[k - 1];
    PairedGrows(earlier, core[k]);
  }

  lemma PairedGrows(list: seq<Record>, r: Record)
    ensures Paired(list + [r]) <==>
            Paired(list) && (r.event.Start? || (list != [] && IsStartOf(list[|list| - 1], r.inv)))
  {
    var all := list + [r];
    assert Paired(all) ==> forall i :: 0 <= i < |list| ==> all[i] == list[i];
    if !r.event.Start? && Paired(all) {
      assert all[|list|] == r;
    }
  }

  /** The stored records pair up exactly when no lost start left its closing record behind. */
  lemma {:induction false} StoredPairIff(core: seq<Record>)
    requires Paired(core) && OneStartEach(core)
    ensures Paired(Stored(core)) <==> NoOrphan(core)
  {
    if core != [] {
      var k := |core| - 1;
      var init := core[..k];
      StoredPairIff(init);
      assert forall i :: 0 <= i < k ==> init[i] == core[i];
      if core[k].stored && core[k].event.Start? {
        PairedGrows(Stored(init), core[k]);
      } else if core[k].stored && core[k - 1].stored {
        CloseFollowsStart(core);
      } else if core[k].stored {
        OrphanStandsAlone(core);
      }
    }
  }

  /** With every holder's arms less than ttl apart, the pushes of all invocations pair up,
      and the records in the list do exactly when no start push failed whose closing push
      worked. */
  lemma LogsPairUp(run: seq<State>, c: Config, i: nat)
    requires c.ttl > 0.0 && c.replaceTtl && IsRun(run, c) && i < |run|
    requires AllTimely(run[..i], c)
    ensures Paired(Core(run[i].history))
    ensures Paired(Core(Stored(run[i].history))) <==> NoOrphan(Core(run[i].history))
  {
    RunKeepsLog(run, c, i);
    StoredCore(run[i].history);
    StoredPairIff(Core(run[i].history));
  }

  /** The one invocation's next step, at once. */
  lemma TimelyStep(run: seq<State>, a: Action, c: Config, t: State) returns (longer: seq<State>)
    requires c.ttl > 0.0 && IsRun(run, c) && AllTimely(run, c) && StepTo(run[|run| - 1], Do(0, a), t, c)
    requires |t.invs| == 1 && t.now == t.invs[0].lastArm
    ensures IsRun(longer, c) && AllTimely(longer, c) && longer[|longer| - 1] == t
  {
    longer := LongerRun(run, Do(0, a), c);
  }

  function Alone(c: Config, phase: Phase, history: seq<Record>): State {
    State(0.0, Held(0, c.ttl), [Invocation(phase, Sleeping, 0.0)], history)
  }

  /** A run in which the first push of all is lost. */
  lemma LostStart(c: Config) returns (run: seq<State>)
    requires c.ttl > 0.0
    ensures IsRun(run, c) && AllTimely(run, c)
    ensures run[|run| - 1] == Alone(c, Body, [Record(0, Start, false)])
  {
    run := [Fresh(1)];
    assert AllTimely(run, c);
    run := TimelyStep(run, Acquire, c, Alone(c, Owner, []).(invs := [Invocation(Owner, Off, 0.0)]));
    run := TimelyStep(run, StartWatchdog, c, Alone(c, Entered, []));
    run := TimelyStep(run, RecordStart(false), c, Alone(c, Body, [Record(0, Start, false)]));
  }

  /** A lost start push whose end push works: the list shows an end alone. */
  lemma LostStartLeavesEnd(c: Config) returns (run: seq<State>)
    requires c.ttl > 0.0
    ensures IsRun(run, c) && AllTimely(run, c)
    ensures var s := run[|run| - 1];
            |s.invs| == 1 && s.invs[0].phase.Stopping? && Stored(s.history) == [Record(0, End, true)]
  {
    var lost, end := Record(0, Start, false), Record(0, End, true);
    run := LostStart(c);
    run := TimelyStep(run, RecordEnd(true), c, Alone(c, Leaving, [lost, end]));
    run := TimelyStep(run, SetStop, c, Alone(c, Stopping, [lost, end]));
    StoredGrows([], lost);
    StoredGrows([lost], end);
    assert [lost, end] == [lost] + [end];
  }

  predicate Pushed(events: seq<Event>) {
    events == [Start] || events == [Start, End] || events == [Start, Error]
  }

  /** What one invocation has pushed, by how far it has come. */
  predicate GrammarAt(phase: Phase, events: seq<Event>) {
    match phase
    case Idle => events == []
    case Skipping => events == []
    case Owner => events == []
    case Entered => events == []
    case Body => events == [Start]
    case Refused => events == []
    case Leaving => events == [Start, End] || events == [Start, Error]
    case Escaping => events == [Start]
    case Stopping => Pushed(events)
    case Done => events == [Skip] || Pushed(events)
    case Left => events == [] || Pushed(events)
    case Crashed => events == [] || Pushed(events)
  }

  lemma EventsGrow(history: seq<Record>, r: Record, v: nat)
    ensures EventsOf(history + [r], v) == if r.inv == v then EventsOf(history, v) + [r.event] else EventsOf(history, v)
  {
    assert (history + [r])[..|history|] == history;
  }

  /** The pushes of one invocation fit the grammar, and any of them may be missing in the
      list. */
  predicate Recorded(phase: Phase, pushed: seq<Event>, stored: seq<Event>) {
    && GrammarAt(phase, pushed)
    && (stored == [] || stored == pushed || (|pushed| == 2 && (stored == pushed[..1] || stored == pushed[1..])))
  }

  /** An action's record, if it pushes one, fits the grammar where the action leads. */
  lemma ActKeepsGrammar(s: State, w: nat, a: Action, pushed: seq<Event>, stored: seq<Event>)
    requires w < |s.invs| && Allowed(s, w, a) && Recorded(s.invs[w].phase, pushed, stored)
    ensures var more, phase := RecordsOf(w, a), InvocationAfter(s, w, a).phase;
      if more == [] then Recorded(phase, pushed, stored)
      else Recorded(phase, pushed + [more[0].event], if more[0].stored then stored + [more[0].event] else stored)
  {
  }

  lemma HistoryGrows(s: State, w: nat, a: Action, v: nat)
    requires w < |s.invs| && Allowed(s, w, a)
    ensures var more, all := RecordsOf(w, a), s.history + RecordsOf(w, a);
      if more == [] || v != w then
        EventsOf(all, v) == EventsOf(s.history, v) && EventsOf(Stored(all), v) == EventsOf(Stored(s.history), v)
      else
        && EventsOf(all, v) == EventsOf(s.history, v) + [more[0].event]
        && EventsOf(Stored(all), v)
           == EventsOf(Stored(s.history), v) + if more[0].stored then [more[0].event] else []
  {
    var more := RecordsOf(w, a);
    if more == [] {
      assert s.history + more == s.history;
    } else {
      assert more == [more[0]] && more[0].inv == w;
      EventsGrow(s.history, more[0], v);
      StoredGrows(s.history, more[0]);
      EventsGrow(Stored(s.history), more[0], v);
    }
  }

  ghost predicate RecordedBy(s: State, w: nat) {
    w < |s.invs| && Recorded(s.invs[w].phase, EventsOf(s.history, w), EventsOf(Stored(s.history), w))
  }

  lemma StepKeepsGrammar(s: State, step: Step, c: Config, w: nat)
    requires Enabled(s, step) && RecordedBy(s, w)
    ensures RecordedBy(Apply(s, step, c), w)
  {
    if step.Do? {
      HistoryGrows(s, step.w, step.action, w);
      if step.w == w {
        ActKeepsGrammar(s, w, step.action, EventsOf(s.history, w), EventsOf(Stored(s.history), w));
      }
    }
  }

  /** An invocation pushes a skip, or a start followed by at most one closing record: none
      only if the job crashed or was left by an exception that is not an Exception. The list
      has these pushes, but for those that failed. */
  lemma {:induction false} InvocationGrammar(run: seq<State>, c: Config, i: nat, w: nat)
    requires IsRun(run, c) && i < |run| && w < |run[0].invs|
    ensures RecordedBy(run[i], w)
  {
    if i > 0 {
      InvocationGrammar(run, c, i - 1, w);
      assert Next(run[i - 1], run[i], c);
      var step :| StepTo(run[i - 1], step, run[i], c);
      StepKeepsGrammar(run[i - 1], step, c, w);
    }
  }
}
