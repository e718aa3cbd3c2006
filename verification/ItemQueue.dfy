/** The lease queue of hourly item checks: any number of workers running `run_check_chunk`
    over shared Redis structures, one step per Redis command, dying at any point. */
module ItemQueue {
  import opened Sequences

  type Item = string

  /** Where a worker stands between two commands. Ready is after `reclaim_expired`; the
      others carry what the worker holds: an expired list it has scanned or removed, a batch
      it has popped, and during the loop the item in hand and the rest of the batch. */
  datatype Worker =
    | Idle
    | Scanned(expired: seq<Item>)
    | Pulled(expired: seq<Item>)
    | Ready
    | Popped(batch: seq<Item>)
    | Working(batch: seq<Item>)
    | DoneRemoved(item: Item, rest: seq<Item>)
    | DoneAdded(item: Item, rest: seq<Item>)
    | FailRemoved(item: Item, rest: seq<Item>)
    | FailCounted(item: Item, count: int, rest: seq<Item>)
    | Dead

  datatype Config = Config(batchSize: nat, leaseSeconds: nat, maxRetries: int)

  /** `completions` counts the handler calls that have been answered for. */
  datatype State = State(
    now: nat,
    pending: seq<Item>,
    processing: map<Item, nat>,
    done: set<Item>,
    failed: set<Item>,
    retries: map<Item, int>,
    workers: seq<Worker>,
    completions: nat)

  /** Scan: ZRANGEBYSCORE. Pull, Return: ZREM, RPUSH of `reclaim_expired`. Pop, Lease: LPOP,
      ZADD of `claim`. Both clocks are read before their command is sent: `read` is any time up
      to now. HandlerOk, AddDone, Forget: ZREM, SADD, HDEL of `mark_done`.
      HandlerFails, Count, Settle: ZREM, HINCRBY, SADD or RPUSH of `mark_failed`. */
  datatype Action = Scan(expired: seq<Item>, read: nat) | Pull | Return | Pop | Lease(read: nat)
    | HandlerOk | AddDone | Forget | HandlerFails | Count | Settle | Finish | Die

  datatype Step = Tick(d: nat) | Do(w: nat, action: Action)

  /** Exactly the items whose deadline is not after the time that was read. */
  ghost predicate ExpiredAt(s: State, expired: seq<Item>, read: nat) {
    Distinct(expired) && forall x :: x in expired <==> x in s.processing && s.processing[x] <= read
  }

  /** The worker is at the command `a`. */
  predicate Fits(worker: Worker, a: Action) {
    match a
    case Scan(_, _) => worker.Idle?
    case Pull => worker.Scanned?
    case Return => worker.Pulled?
    case Pop => worker.Ready?
    case Lease(_) => worker.Popped?
    case HandlerOk => worker.Working? && worker.batch != []
    case AddDone => worker.DoneRemoved?
    case Forget => worker.DoneAdded?
    case HandlerFails => worker.Working? && worker.batch != []
    case Count => worker.FailRemoved?
    case Settle => worker.FailCounted?
    case Finish => worker.Working? && worker.batch == []
    case Die => true
  }

  ghost predicate Enabled(s: State, step: Step) {
    match step
    case Tick(d) => true
    case Do(w, a) =>
      && w < |s.workers| && Fits(s.workers[w], a)
      && (a.Scan? ==> a.read <= s.now && ExpiredAt(s, a.expired, a.read))
      && (a.Lease? ==> a.read <= s.now)
  }

  function Tries(s: State, x: Item): int {
    if x in s.retries then s.retries[x] else 0
  }

  function Leases(batch: seq<Item>, deadline: nat): map<Item, nat> {
    map x | x in batch :: deadline
  }

  function Min(a: nat, b: nat): nat {
    if a < b then a else b
  }

  function SetOf(items: seq<Item>): set<Item> {
    set x | x in items
  }

  /** The shared structures after the command. */
  function Effect(s: State, w: nat, a: Action, c: Config): State
    requires w < |s.workers| && Fits(s.workers[w], a)
  {
    var worker := s.workers[w];
    match a
    case Scan(_, _) => s
    case Pull => s.(processing := s.processing - SetOf(worker.expired))
    case Return => s.(pending := s.pending + worker.expired)
    case Pop => s.(pending := s.pending[Min(c.batchSize, |s.pending|)..])
    case Lease(read) => s.(processing := s.processing + Leases(worker.batch, read + c.leaseSeconds))
    case HandlerOk => s.(processing := s.processing - {worker.batch[0]})
    case AddDone => s.(done := s.done + {worker.item}, completions := s.completions + 1)
    case Forget => s.(retries := s.retries - {worker.item})
    case HandlerFails => s.(processing := s.processing - {worker.batch[0]})
    case Count =>
      s.(retries := s.retries[worker.item := Tries(s, worker.item) + 1], completions := s.completions + 1)
    case Settle =>
      if worker.count >= c.maxRetries then s.(failed := s.failed + {worker.item})
      else s.(pending := s.pending + [worker.item])
    case Finish => s
    case Die => s
  }

  /** What the worker holds after the command. */
  function Advance(s: State, w: nat, a: Action, c: Config): Worker
    requires w < |s.workers| && Fits(s.workers[w], a)
  {
    var worker := s.workers[w];
    match a
    case Scan(expired, _) => if expired == [] then Ready else Scanned(expired)
    case Pull => Pulled(worker.expired)
    case Return => Ready
    case Pop => if Min(c.batchSize, |s.pending|) == 0 then Idle else Popped(s.pending[..Min(c.batchSize, |s.pending|)])
    case Lease(_) => Working(worker.batch)
    case HandlerOk => DoneRemoved(worker.batch[0], worker.batch[1..])
    case AddDone => DoneAdded(worker.item, worker.rest)
    case Forget => Working(worker.rest)
    case HandlerFails => FailRemoved(worker.batch[0], worker.batch[1..])
    case Count => FailCounted(worker.item, Tries(s, worker.item) + 1, worker.rest)
    case Settle => Working(worker.rest)
    case Finish => Idle
    case Die => Dead
  }

  function Apply(s: State, step: Step, c: Config): State
    requires step.Do? ==> step.w < |s.workers| && Fits(s.workers[step.w], step.action)
  {
    match step
    case Tick(d) => s.(now := s.now + d)
    case Do(w, a) => Effect(s, w, a, c).(workers := s.workers[w := Advance(s, w, a, c)])
  }

  /** `load_generation`: the items pending, everything else empty. */
  ghost predicate Loaded(s: State, items: seq<Item>) {
    && s.pending == items && s.processing == map[] && s.done == {} && s.failed == {} && s.retries == map[]
    && s.completions == 0 && forall w :: 0 <= w < |s.workers| ==> s.workers[w].Idle?
  }

  ghost predicate StepTo(s: State, step: Step, t: State, c: Config) {
    Enabled(s, step) && t == Apply(s, step, c)
  }

  /** States and the steps between them: `steps[i]` leads from `run[i]` to `run[i + 1]`. */
  ghost predicate IsRun(run: seq<State>, steps: seq<Step>, c: Config) {
    && |run| == |steps| + 1
    && forall i :: 0 <= i < |steps| ==> StepTo(run[i], steps[i], run[i + 1], c)
  }

  // Conservation, with late workers and overlapping reclaims allowed.

  /** The hand-over window: removed from one structure, not yet added to the next. */
  function Transit(worker: Worker): seq<Item> {
    match worker
    case Pulled(expired) => expired
    case Popped(batch) => batch
    case DoneRemoved(item, _) => [item]
    case FailRemoved(item, _) => [item]
    case FailCounted(item, _, _) => [item]
    case _ => []
  }

  ghost predicate InTransit(s: State, x: Item) {
    exists w :: 0 <= w < |s.workers| && x in Transit(s.workers[w])
  }

  predicate Stored(s: State, x: Item) {
    x in s.pending || x in s.processing || x in s.done || x in s.failed
  }

  ghost predicate Somewhere(s: State, x: Item) {
    Stored(s, x) || InTransit(s, x)
  }

  /** A worker dying in a hand-over window holding `x`. */
  predicate DiesWith(s: State, step: Step, x: Item) {
    step.Do? && step.action.Die? && step.w < |s.workers| && x in Transit(s.workers[step.w])
  }

  lemma StepConserves(s: State, step: Step, c: Config, x: Item)
    requires Enabled(s, step) && Somewhere(s, x) && !DiesWith(s, step, x)
    ensures Somewhere(Apply(s, step, c), x)
  {
    if step.Do? {
      var t, w := Apply(s, step, c), step.w;
      if InTransit(s, x) {
        var v :| 0 <= v < |s.workers| && x in Transit(s.workers[v]);
        if v != w {
          assert x in Transit(t.workers[v]);
        } else {
          HandsOver(s, w, step.action, c, x);
        }
      } else {
        StoredMoves(s, w, step.action, c, x);
      }
    }
  }

  lemma HandsOver(s: State, w: nat, a: Action, c: Config, x: Item)
    requires Enabled(s, Do(w, a)) && x in Transit(s.workers[w]) && !a.Die?
    ensures Somewhere(Apply(s, Do(w, a), c), x)
  {
    var t := Apply(s, Do(w, a), c);
    assert t.workers[w] == Advance(s, w, a, c);
  }

  lemma StoredMoves(s: State, w: nat, a: Action, c: Config, x: Item)
    requires Enabled(s, Do(w, a)) && Stored(s, x)
    ensures Somewhere(Apply(s, Do(w, a), c), x)
  {
    var t := Apply(s, Do(w, a), c);
    assert t.workers[w] == Advance(s, w, a, c);
    if a.Pop? {
      var k := Min(c.batchSize, |s.pending|);
      assert s.pending == s.pending[..k] + s.pending[k..];
    }
    if a.HandlerOk? || a.HandlerFails? || a.Pull? {
      assert Stored(t, x) || x in Transit(t.workers[w]);
    }
  }

  /** Every loaded item is at all times stored or in the hand-over window of a live worker,
      unless a worker died holding it there. */
  lemma {:induction false} Conservation(run: seq<State>, steps: seq<Step>, c: Config, items: seq<Item>, i: nat, x: Item)
    requires IsRun(run, steps, c) && Loaded(run[0], items) && x in items && i < |run|
    requires forall k :: 0 <= k < i ==> !DiesWith(run[k], steps[k], x)
    ensures Somewhere(run[i], x)
  {
    if i > 0 {
      Conservation(run, steps, c, items, i - 1, x);
      assert StepTo(run[i - 1], steps[i - 1], run[i], c);
      StepConserves(run[i - 1], steps[i - 1], c, x);
    }
  }

  /** The other side: a worker that dies between LPOP and ZADD does lose its batch. */
  lemma DyingInTheWindowLoses(c: Config, x: Item) returns (run: seq<State>, steps: seq<Step>)
    requires c.batchSize >= 1
    ensures IsRun(run, steps, c) && Loaded(run[0], [x]) && !Somewhere(run[|run| - 1], x)
  {
    var s0 := State(0, [x], map[], {}, {}, map[], [Idle], 0);
    steps := [Do(0, Scan([], 0)), Do(0, Pop), Do(0, Die)];
    var s1 := Apply(s0, steps[0], c);
    var s2 := Apply(s1, steps[1], c);
    var s3 := Apply(s2, steps[2], c);
    run := [s0, s1, s2, s3];
    assert s1.workers == [Ready] && s1.pending[..1] == [x] && s1.pending[1..] == [];
    assert s2.workers == [Popped([x])] && s3.workers == [Dead];
    assert StepTo(s0, steps[0], s1, c) && StepTo(s1, steps[1], s2, c) && StepTo(s2, steps[2], s3, c);
  }

  // Partition and termination, when no scan takes what a live worker holds.

  /** Everything the worker will still act on. */
  function Hand(worker: Worker): seq<Item> {
    match worker
    case Scanned(expired) => expired
    case Pulled(expired) => expired
    case Popped(batch) => batch
    case Working(batch) => batch
    case DoneRemoved(item, rest) => [item] + rest
    case DoneAdded(_, rest) => rest
    case FailRemoved(item, rest) => [item] + rest
    case FailCounted(item, _, rest) => [item] + rest
    case _ => []
  }

  /** The part of it that is still leased. */
  function Leased(worker: Worker): seq<Item> {
    match worker
    case Scanned(expired) => expired
    case Working(batch) => batch
    case DoneRemoved(_, rest) => rest
    case DoneAdded(_, rest) => rest
    case FailRemoved(_, rest) => rest
    case FailCounted(_, _, rest) => rest
    case _ => []
  }

  function One(b: bool): nat {
    if b then 1 else 0
  }

  function Occurrences(items: seq<Item>, x: Item): nat {
    multiset(items)[x]
  }

  /** In how many structures, and how often in the list, the item is stored. */
  function Copies(s: State, x: Item): nat {
    Occurrences(s.pending, x) + One(x in s.processing) + One(x in s.done) + One(x in s.failed)
  }

  /** No live worker holds `x` when a scan finds it expired: no live lease has run out, and no
      other reclaim is under way with it. */
  ghost predicate Clean(s: State, step: Step, x: Item) {
    step.Do? && step.action.Scan? && x in step.action.expired ==>
      forall v :: 0 <= v < |s.workers| ==> x !in Hand(s.workers[v])
  }

  /** One loaded item is stored once, or in transit and not stored. */
  ghost predicate PlacedOnce(s: State, x: Item) {
    if InTransit(s, x) then Copies(s, x) == 0 else Copies(s, x) == 1
  }

  ghost predicate OneHand(s: State, x: Item) {
    forall v, w :: 0 <= v < w < |s.workers| && x in Hand(s.workers[v]) ==> x !in Hand(s.workers[w])
  }

  ghost predicate WorkerOk(s: State, worker: Worker, x: Item) {
    && Occurrences(Hand(worker), x) <= 1
    && (x in Leased(worker) ==> x in s.processing)
    && (worker.DoneAdded? && worker.item == x ==> x in s.done)
  }

  /** One loaded item is in exactly one place: stored once, or in transit in one worker. */
  ghost predicate ItemInv(s: State, x: Item) {
    && PlacedOnce(s, x)
    && OneHand(s, x)
    && (forall w :: 0 <= w < |s.workers| ==> WorkerOk(s, s.workers[w], x))
  }

  lemma OccurrencesConcat(a: seq<Item>, b: seq<Item>, x: Item)
    ensures Occurrences(a + b, x) == Occurrences(a, x) + Occurrences(b, x)
    ensures x in a <==> Occurrences(a, x) > 0
  {
  }

  /** What one worker's step needs to know about `x`. */
  ghost predicate Local(s: State, w: nat, x: Item)
    requires w < |s.workers|
  {
    && Copies(s, x) <= 1
    && Occurrences(Hand(s.workers[w]), x) <= 1
    && (x in Transit(s.workers[w]) ==> Copies(s, x) == 0)
    && (x in Leased(s.workers[w]) ==> x in s.processing)
  }

  /** The one place moves with the worker's step. */
  ghost predicate PlaceMoves(s: State, w: nat, a: Action, c: Config, x: Item)
    requires w < |s.workers| && Fits(s.workers[w], a)
  {
    var t, worker := Effect(s, w, a, c), Advance(s, w, a, c);
    && Copies(t, x) + One(x in Transit(worker)) == Copies(s, x) + One(x in Transit(s.workers[w]))
    && Occurrences(Hand(worker), x) <= 1
    && (x in Leased(worker) ==> x in t.processing)
    && (x in Hand(worker) ==> x in Hand(s.workers[w]) || (a.Pop? && x in s.pending) || (a.Scan? && x in a.expired))
    && (x in s.processing && x !in t.processing ==> x in Hand(s.workers[w]))
  }

  lemma ReclaimMoves(s: State, w: nat, a: Action, c: Config, x: Item)
    requires Enabled(s, Do(w, a)) && Local(s, w, x) && (a.Scan? || a.Pull? || a.Return?)
    ensures PlaceMoves(s, w, a, c, x)
  {
    if a.Scan? {
      OneEach(a.expired, x);
    } else if a.Return? {
      OccurrencesConcat(s.pending, s.workers[w].expired, x);
    }
  }

  lemma PopMoves(s: State, w: nat, c: Config, x: Item)
    requires Enabled(s, Do(w, Pop)) && Local(s, w, x)
    ensures PlaceMoves(s, w, Pop, c, x)
  {
    var k := Min(c.batchSize, |s.pending|);
    assert s.pending == s.pending[..k] + s.pending[k..];
    OccurrencesConcat(s.pending[..k], s.pending[k..], x);
  }

  lemma LeaseMoves(s: State, w: nat, read: nat, c: Config, x: Item)
    requires Enabled(s, Do(w, Lease(read))) && Local(s, w, x)
    ensures PlaceMoves(s, w, Lease(read), c, x)
  {
  }

  /** ZREM of the first item of a batch. */
  lemma TakesUp(s: State, batch: seq<Item>, x: Item)
    requires batch != [] && Occurrences(batch, x) <= 1 && Copies(s, x) <= 1 && (x in batch ==> x in s.processing)
    ensures var t := s.(processing := s.processing - {batch[0]});
      && Copies(t, x) + One(x == batch[0]) == Copies(s, x)
      && Occurrences([batch[0]] + batch[1..], x) <= 1
      && (x in batch[1..] ==> x in t.processing)
      && (x in batch <==> x in [batch[0]] + batch[1..])
  {
    assert batch == [batch[0]] + batch[1..];
    OccurrencesConcat([batch[0]], batch[1..], x);
    OccurrencesConcat(batch[1..], [], x);
  }

  lemma HandlerOkMoves(s: State, w: nat, c: Config, x: Item)
    requires Enabled(s, Do(w, HandlerOk)) && Local(s, w, x)
    ensures PlaceMoves(s, w, HandlerOk, c, x)
  {
    TakesUp(s, s.workers[w].batch, x);
  }

  lemma HandlerFailsMoves(s: State, w: nat, c: Config, x: Item)
    requires Enabled(s, Do(w, HandlerFails)) && Local(s, w, x)
    ensures PlaceMoves(s, w, HandlerFails, c, x)
  {
    TakesUp(s, s.workers[w].batch, x);
  }

  lemma AddDoneMoves(s: State, w: nat, c: Config, x: Item)
    requires Enabled(s, Do(w, AddDone)) && Local(s, w, x)
    ensures PlaceMoves(s, w, AddDone, c, x)
  {
    OccurrencesConcat([s.workers[w].item], s.workers[w].rest, x);
  }

  lemma ForgetMoves(s: State, w: nat, c: Config, x: Item)
    requires Enabled(s, Do(w, Forget)) && Local(s, w, x)
    ensures PlaceMoves(s, w, Forget, c, x)
  {
    assert Copies(Effect(s, w, Forget, c), x) == Copies(s, x);
  }

  lemma CountMoves(s: State, w: nat, c: Config, x: Item)
    requires Enabled(s, Do(w, Count)) && Local(s, w, x)
    ensures PlaceMoves(s, w, Count, c, x)
  {
    var worker, after := s.workers[w], Advance(s, w, Count, c);
    assert Copies(Effect(s, w, Count, c), x) == Copies(s, x);
    assert Hand(after) == Hand(worker) && Transit(after) == Transit(worker) && Leased(after) == Leased(worker);
  }

  lemma SettleCopies(s: State, w: nat, c: Config, x: Item)
    requires Enabled(s, Do(w, Settle)) && (x == s.workers[w].item ==> Copies(s, x) == 0)
    ensures Copies(Effect(s, w, Settle, c), x) == Copies(s, x) + One(x == s.workers[w].item)
    ensures Effect(s, w, Settle, c).processing == s.processing
  {
    OccurrencesConcat(s.pending, [s.workers[w].item], x);
  }

  lemma RestOfHand(item: Item, rest: seq<Item>, x: Item)
    requires Occurrences([item] + rest, x) <= 1
    ensures Occurrences(rest, x) + One(x == item) <= 1
  {
    OccurrencesConcat([item], rest, x);
  }

  lemma SettleMoves(s: State, w: nat, c: Config, x: Item)
    requires Enabled(s, Do(w, Settle)) && Local(s, w, x)
    ensures PlaceMoves(s, w, Settle, c, x)
  {
    var worker := s.workers[w];
    RestOfHand(worker.item, worker.rest, x);
    SettleCopies(s, w, c, x);
    assert Advance(s, w, Settle, c) == Working(worker.rest);
  }

  lemma StepMoves(s: State, w: nat, a: Action, c: Config, x: Item)
    requires Enabled(s, Do(w, a)) && Local(s, w, x) && !DiesWith(s, Do(w, a), x)
    ensures PlaceMoves(s, w, a, c, x)
  {
    match a
    case Scan(_, _) => ReclaimMoves(s, w, a, c, x);
    case Pull => ReclaimMoves(s, w, a, c, x);
    case Return => ReclaimMoves(s, w, a, c, x);
    case Pop => PopMoves(s, w, c, x);
    case Lease(read) => LeaseMoves(s, w, read, c, x);
    case HandlerOk => HandlerOkMoves(s, w, c, x);
    case AddDone => AddDoneMoves(s, w, c, x);
    case Forget => ForgetMoves(s, w, c, x);
    case HandlerFails => HandlerFailsMoves(s, w, c, x);
    case Count => CountMoves(s, w, c, x);
    case Settle => SettleMoves(s, w, c, x);
    case Finish => FinishMoves(s, w, c, x);
    case Die => DieMoves(s, w, c, x);
  }

  lemma FinishMoves(s: State, w: nat, c: Config, x: Item)
    requires Enabled(s, Do(w, Finish)) && Local(s, w, x)
    ensures PlaceMoves(s, w, Finish, c, x)
  {
    assert Effect(s, w, Finish, c) == s && Advance(s, w, Finish, c) == Idle;
  }

  lemma DieMoves(s: State, w: nat, c: Config, x: Item)
    requires Enabled(s, Do(w, Die)) && Local(s, w, x) && x !in Transit(s.workers[w])
    ensures PlaceMoves(s, w, Die, c, x)
  {
    assert Effect(s, w, Die, c) == s && Advance(s, w, Die, c) == Dead;
  }

  lemma HandIsLeasedOrInTransit(worker: Worker, x: Item)
    ensures x in Hand(worker) <==> x in Leased(worker) || x in Transit(worker)
  {
  }

  lemma ItemIsLocal(s: State, w: nat, x: Item)
    requires ItemInv(s, x) && w < |s.workers|
    ensures Local(s, w, x)
    ensures x in Hand(s.workers[w]) ==> x !in s.pending
  {
    HandIsLeasedOrInTransit(s.workers[w], x);
    OccurrencesConcat(s.pending, [], x);
  }

  /** Nobody else has `x` in hand after the step if it is in the stepping worker's hand. */
  lemma StillOneHand(s: State, w: nat, a: Action, c: Config, x: Item, v: nat)
    requires Enabled(s, Do(w, a)) && ItemInv(s, x) && Clean(s, Do(w, a), x) && PlaceMoves(s, w, a, c, x)
    requires v < |s.workers| && v != w && x in Hand(s.workers[v])
    ensures x !in Hand(Advance(s, w, a, c))
  {
    ItemIsLocal(s, v, x);
    ItemIsLocal(s, w, x);
  }

  /** In transit anywhere: in the stepping worker, or in another one as before. */
  lemma TransitMoves(s: State, w: nat, a: Action, c: Config, x: Item)
    requires Enabled(s, Do(w, a)) && ItemInv(s, x)
    requires PlaceMoves(s, w, a, c, x)
    requires forall v :: 0 <= v < |s.workers| && v != w && x in Hand(s.workers[v]) ==> x !in Hand(Advance(s, w, a, c))
    ensures var t := Apply(s, Do(w, a), c);
            if InTransit(t, x) then Copies(t, x) == 0 else Copies(t, x) == 1
  {
    var t, mine := Apply(s, Do(w, a), c), Advance(s, w, a, c);
    assert Copies(t, x) == Copies(Effect(s, w, a, c), x);
    HandIsLeasedOrInTransit(mine, x);
    HandIsLeasedOrInTransit(s.workers[w], x);
    if v :| 0 <= v < |s.workers| && v != w && x in Transit(s.workers[v]) {
      HandIsLeasedOrInTransit(s.workers[v], x);
      assert x in Transit(t.workers[v]);
      assert InTransit(s, x) && x !in Transit(s.workers[w]);
    } else {
      assert InTransit(s, x) <==> x in Transit(s.workers[w]);
      assert t.workers[w] == mine;
      assert InTransit(t, x) <==> x in Transit(mine);
    }
  }

  lemma AddedIsDone(s: State, w: nat, a: Action, c: Config, x: Item)
    requires Enabled(s, Do(w, a))
    ensures var after := Advance(s, w, a, c); after.DoneAdded? && after.item == x ==> x in Effect(s, w, a, c).done
  {
  }

  lemma ActorStaysOk(s: State, w: nat, a: Action, c: Config, x: Item)
    requires Enabled(s, Do(w, a)) && PlaceMoves(s, w, a, c, x)
    ensures WorkerOk(Effect(s, w, a, c), Advance(s, w, a, c), x)
  {
    AddedIsDone(s, w, a, c, x);
  }

  /** Another worker's hand is not emptied from outside. */
  lemma OtherStaysOk(s: State, w: nat, a: Action, c: Config, x: Item, v: nat)
    requires Enabled(s, Do(w, a)) && PlaceMoves(s, w, a, c, x) && v < |s.workers| && v != w
    requires WorkerOk(s, s.workers[v], x) && (x in Hand(s.workers[v]) ==> x !in Hand(s.workers[w]))
    ensures WorkerOk(Effect(s, w, a, c), s.workers[v], x)
  {
    HandIsLeasedOrInTransit(s.workers[v], x);
    assert x in s.done ==> x in Effect(s, w, a, c).done;
  }

  lemma WorkersStayOk(s: State, w: nat, a: Action, c: Config, x: Item, v: nat)
    requires Enabled(s, Do(w, a)) && ItemInv(s, x) && PlaceMoves(s, w, a, c, x) && v < |s.workers|
    ensures var t := Apply(s, Do(w, a), c); WorkerOk(t, t.workers[v], x)
  {
    assert WorkerOk(s, s.workers[v], x);
    if v == w {
      ActorStaysOk(s, w, a, c, x);
    } else {
      OtherStaysOk(s, w, a, c, x, v);
    }
  }

  lemma ActKeepsItem(s: State, w: nat, a: Action, c: Config, x: Item)
    requires Enabled(s, Do(w, a)) && ItemInv(s, x) && Clean(s, Do(w, a), x) && !DiesWith(s, Do(w, a), x)
    ensures ItemInv(Apply(s, Do(w, a), c), x)
  {
    var t := Apply(s, Do(w, a), c);
    ItemIsLocal(s, w, x);
    StepMoves(s, w, a, c, x);
    forall v | 0 <= v < |s.workers| ensures WorkerOk(t, t.workers[v], x) {
      WorkersStayOk(s, w, a, c, x, v);
    }
    forall v | 0 <= v < |s.workers| && v != w && x in Hand(s.workers[v]) ensures x !in Hand(Advance(s, w, a, c)) {
      StillOneHand(s, w, a, c, x, v);
    }
    TransitMoves(s, w, a, c, x);
  }

  lemma StepKeepsItem(s: State, step: Step, c: Config, x: Item)
    requires Enabled(s, step) && ItemInv(s, x) && Clean(s, step, x) && !DiesWith(s, step, x)
    ensures ItemInv(Apply(s, step, c), x)
  {
    if step.Do? {
      ActKeepsItem(s, step.w, step.action, c, x);
    } else {
      assert InTransit(Apply(s, step, c), x) <==> InTransit(s, x);
    }
  }

  /** An item that was not loaded is nowhere. */
  ghost predicate Nowhere(s: State, x: Item) {
    Copies(s, x) == 0 && forall w :: 0 <= w < |s.workers| ==> x !in Hand(s.workers[w])
  }

  lemma StepKeepsNowhere(s: State, step: Step, c: Config, x: Item)
    requires Enabled(s, step) && Nowhere(s, x)
    ensures Nowhere(Apply(s, step, c), x)
  {
    if step.Do? {
      OccurrencesConcat(s.pending, [], x);
      OccurrencesConcat(Hand(s.workers[step.w]), [], x);
      StepMoves(s, step.w, step.action, c, x);
      var mine := Advance(s, step.w, step.action, c);
      HandIsLeasedOrInTransit(mine, x);
      assert Apply(s, step, c).workers[step.w] == mine;
    }
  }

  /** Up to state `i`, no scan takes `x` out of a live worker's hand. */
  ghost predicate CleanFor(run: seq<State>, steps: seq<Step>, i: nat, x: Item) {
    |run| == |steps| + 1 && i <= |steps| && forall k :: 0 <= k < i ==> Clean(run[k], steps[k], x)
  }

  /** Before state `i` a worker died in a hand-over window holding `x`. */
  ghost predicate DiedWith(run: seq<State>, steps: seq<Step>, i: nat, x: Item)
    requires |run| == |steps| + 1 && i <= |steps|
  {
    exists k :: 0 <= k < i && DiesWith(run[k], steps[k], x)
  }

  lemma LoadedInv(s: State, items: seq<Item>, x: Item)
    requires Loaded(s, items) && Distinct(items)
    ensures if x in items then ItemInv(s, x) else Nowhere(s, x)
  {
    OneEach(items, x);
    OccurrencesConcat(items, [], x);
  }

  /** Nothing but the load is ever anywhere. */
  lemma {:induction false} OthersNowhere(run: seq<State>, steps: seq<Step>, c: Config, items: seq<Item>,
                                         i: nat, x: Item)
    requires IsRun(run, steps, c) && Loaded(run[0], items) && Distinct(items) && x !in items && i < |run|
    ensures Nowhere(run[i], x)
  {
    if i == 0 {
      LoadedInv(run[0], items, x);
    } else {
      OthersNowhere(run, steps, c, items, i - 1, x);
      assert StepTo(run[i - 1], steps[i - 1], run[i], c);
      StepKeepsNowhere(run[i - 1], steps[i - 1], c, x);
    }
  }

  /** Pending, processing, done and failed, plus the hand-over windows of live workers,
      partition the load: a loaded item is in exactly one place as long as no scan takes it
      from a live worker and nobody dies with it, whatever happens to the others. */
  lemma {:induction false} Partition(run: seq<State>, steps: seq<Step>, c: Config, items: seq<Item>, i: nat, x: Item)
    requires IsRun(run, steps, c) && Loaded(run[0], items) && Distinct(items) && i < |run|
    requires x in items ==> CleanFor(run, steps, i, x) && !DiedWith(run, steps, i, x)
    ensures if x in items then ItemInv(run[i], x) else Nowhere(run[i], x)
  {
    if x !in items {
      OthersNowhere(run, steps, c, items, i, x);
    } else if i == 0 {
      LoadedInv(run[0], items, x);
    } else {
      Partition(run, steps, c, items, i - 1, x);
      assert StepTo(run[i - 1], steps[i - 1], run[i], c);
      StepKeepsItem(run[i - 1], steps[i - 1], c, x);
    }
  }

  /** At most this many handler calls per item, whatever `max_retries` says. */
  function Bound(c: Config): nat {
    if c.maxRetries >= 1 then c.maxRetries else 1
  }

  predicate Terminal(s: State, x: Item) {
    x in s.done || x in s.failed
  }

  /** The worker has counted a failure of `x` and not yet acted on the count. */
  predicate Counting(worker: Worker, x: Item) {
    worker.FailCounted? && worker.item == x
  }

  ghost predicate CountedBy(s: State, x: Item) {
    exists w :: 0 <= w < |s.workers| && Counting(s.workers[w], x)
  }

  /** An item that is not done or failed has retries left, or is just being settled. */
  ghost predicate RetryInv(s: State, c: Config, x: Item) {
    && Tries(s, x) >= 0
    && (!Terminal(s, x) && !CountedBy(s, x) ==> Tries(s, x) < Bound(c))
    && (forall w :: 0 <= w < |s.workers| && Counting(s.workers[w], x) ==>
          s.workers[w].count == Tries(s, x) && 1 <= Tries(s, x) <= Bound(c))
  }

  function Remaining(s: State, c: Config, x: Item): int {
    if Terminal(s, x) then 0 else Bound(c) - Tries(s, x)
  }

  /** The step that answers for a handler call on `x`. */
  predicate Completes(s: State, step: Step, x: Item) {
    step.Do? && step.w < |s.workers| &&
    ((step.action.AddDone? && s.workers[step.w].DoneRemoved? && s.workers[step.w].item == x)
     || (step.action.Count? && s.workers[step.w].FailRemoved? && s.workers[step.w].item == x))
  }

  lemma InTransitNotTerminal(s: State, w: nat, x: Item)
    requires ItemInv(s, x) && w < |s.workers| && x in Transit(s.workers[w])
    ensures !Terminal(s, x) && forall v :: 0 <= v < |s.workers| && Counting(s.workers[v], x) ==> v == w
  {
    ItemIsLocal(s, w, x);
    HandIsLeasedOrInTransit(s.workers[w], x);
    forall v | 0 <= v < |s.workers| && Counting(s.workers[v], x) ensures v == w {
      assert x in Hand(s.workers[v]);
    }
  }

  /** A completion uses up a retry, and nothing else does. */
  ghost predicate Spends(s: State, step: Step, c: Config, x: Item)
    requires Enabled(s, step)
  {
    var t := Apply(s, step, c);
    if Completes(s, step, x) then Remaining(t, c, x) < Remaining(s, c, x)
    else Remaining(t, c, x) == Remaining(s, c, x)
  }

  /** What a step means for the retries of `x`. */
  ghost predicate RetriesMove(s: State, step: Step, c: Config, x: Item)
    requires Enabled(s, step)
  {
    RetryInv(Apply(s, step, c), c, x) && Spends(s, step, c, x)
  }

  lemma CountedElsewhere(s: State, w: nat, a: Action, c: Config, x: Item)
    requires Enabled(s, Do(w, a))
    requires !Counting(s.workers[w], x) && !Counting(Advance(s, w, a, c), x)
    ensures CountedBy(Apply(s, Do(w, a), c), x) <==> CountedBy(s, x)
  {
    var t := Apply(s, Do(w, a), c);
    assert forall v :: 0 <= v < |s.workers| ==> Counting(t.workers[v], x) == Counting(s.workers[v], x);
  }

  /** What a step of a worker without `x` in transit does to the retries of `x`. */
  ghost predicate TriesHeld(s: State, w: nat, a: Action, c: Config, x: Item)
    requires Enabled(s, Do(w, a))
  {
    var t := Effect(s, w, a, c);
    && Terminal(t, x) == Terminal(s, x)
    && (Tries(t, x) == Tries(s, x) || (Tries(t, x) == 0 && x in s.done))
    && !Counting(Advance(s, w, a, c), x) && !Counting(s.workers[w], x)
    && !Completes(s, Do(w, a), x)
  }

  lemma MovingTries(s: State, w: nat, a: Action, c: Config, x: Item)
    requires Enabled(s, Do(w, a)) && x !in Transit(s.workers[w])
    requires a.Scan? || a.Pull? || a.Return? || a.Pop? || a.Lease? || a.Finish? || a.Die?
    ensures TriesHeld(s, w, a, c, x)
  {
  }

  lemma AddDoneTries(s: State, w: nat, c: Config, x: Item)
    requires Enabled(s, Do(w, AddDone)) && x !in Transit(s.workers[w])
    ensures TriesHeld(s, w, AddDone, c, x)
  {
  }

  lemma ForgetTries(s: State, w: nat, c: Config, x: Item)
    requires Enabled(s, Do(w, Forget)) && WorkerOk(s, s.workers[w], x)
    ensures TriesHeld(s, w, Forget, c, x)
  {
  }

  lemma FailTries(s: State, w: nat, a: Action, c: Config, x: Item)
    requires Enabled(s, Do(w, a)) && x !in Transit(s.workers[w])
    requires a.HandlerFails? || a.Count? || a.Settle? || a.HandlerOk?
    ensures TriesHeld(s, w, a, c, x)
  {
  }

  /** It can only forget the retries of a done item. */
  lemma OtherTries(s: State, w: nat, a: Action, c: Config, x: Item)
    requires Enabled(s, Do(w, a)) && WorkerOk(s, s.workers[w], x) && x !in Transit(s.workers[w])
    ensures TriesHeld(s, w, a, c, x)
  {
    if a.AddDone? {
      AddDoneTries(s, w, c, x);
    } else if a.Forget? {
      ForgetTries(s, w, c, x);
    } else if a.HandlerFails? || a.Count? || a.Settle? || a.HandlerOk? {
      FailTries(s, w, a, c, x);
    } else {
      MovingTries(s, w, a, c, x);
    }
  }

  /** Whoever counts `x` counted it before the step, and `x` was not done. */
  lemma OtherCounters(s: State, w: nat, a: Action, c: Config, x: Item, v: nat)
    requires Enabled(s, Do(w, a)) && ItemInv(s, x) && v < |s.workers| && !Counting(Advance(s, w, a, c), x)
    requires Counting(Apply(s, Do(w, a), c).workers[v], x)
    ensures Apply(s, Do(w, a), c).workers[v] == s.workers[v] && x !in s.done
  {
    InTransitNotTerminal(s, v, x);
  }

  lemma OtherRetries(s: State, w: nat, a: Action, c: Config, x: Item)
    requires Enabled(s, Do(w, a)) && ItemInv(s, x) && RetryInv(s, c, x) && x !in Transit(s.workers[w])
    ensures RetriesMove(s, Do(w, a), c, x)
  {
    var t := Apply(s, Do(w, a), c);
    OtherTries(s, w, a, c, x);
    CountedElsewhere(s, w, a, c, x);
    forall v | 0 <= v < |t.workers| && Counting(t.workers[v], x)
      ensures t.workers[v].count == Tries(t, x) && 1 <= Tries(t, x) <= Bound(c)
    {
      OtherCounters(s, w, a, c, x, v);
    }
  }

  lemma OnlyCounter(s: State, w: nat, a: Action, c: Config, x: Item)
    requires Enabled(s, Do(w, a)) && ItemInv(s, x) && x in Transit(s.workers[w])
    ensures var t := Apply(s, Do(w, a), c);
      && (CountedBy(s, x) <==> Counting(s.workers[w], x))
      && (CountedBy(t, x) <==> Counting(Advance(s, w, a, c), x))
      && forall v :: 0 <= v < |t.workers| && Counting(t.workers[v], x) ==> v == w
  {
    var t := Apply(s, Do(w, a), c);
    InTransitNotTerminal(s, w, x);
    assert t.workers[w] == Advance(s, w, a, c);
    assert forall v :: 0 <= v < |s.workers| && v != w ==> t.workers[v] == s.workers[v];
  }

  /** The worker's own step, on what it has counted. */
  ghost predicate OwnTries(s: State, w: nat, a: Action, c: Config, x: Item)
    requires Enabled(s, Do(w, a))
  {
    var t, after := Effect(s, w, a, c), Advance(s, w, a, c);
    && Tries(t, x) >= 0
    && (!Terminal(t, x) && !Counting(after, x) ==> Tries(t, x) < Bound(c))
    && (Counting(after, x) ==> after.count == Tries(t, x) && 1 <= Tries(t, x) <= Bound(c))
    && Spends(s, Do(w, a), c, x)
  }

  lemma WindowSpends(s: State, w: nat, a: Action, c: Config, x: Item)
    requires Enabled(s, Do(w, a)) && RetryInv(s, c, x) && x in Transit(s.workers[w]) && !a.Die?
    requires !Terminal(s, x) && (CountedBy(s, x) <==> Counting(s.workers[w], x))
    ensures OwnTries(s, w, a, c, x)
  {
    match a
    case AddDone =>
    case Count =>
    case Settle =>
    case _ =>
  }

  lemma OwnRetries(s: State, w: nat, a: Action, c: Config, x: Item)
    requires Enabled(s, Do(w, a)) && ItemInv(s, x) && RetryInv(s, c, x) && x in Transit(s.workers[w]) && !a.Die?
    ensures RetriesMove(s, Do(w, a), c, x)
  {
    InTransitNotTerminal(s, w, x);
    OnlyCounter(s, w, a, c, x);
    WindowSpends(s, w, a, c, x);
  }

  lemma StepKeepsRetries(s: State, step: Step, c: Config, x: Item)
    requires Enabled(s, step) && ItemInv(s, x) && RetryInv(s, c, x) && !DiesWith(s, step, x)
    ensures RetriesMove(s, step, c, x)
  {
    if step.Tick? {
      assert CountedBy(Apply(s, step, c), x) <==> CountedBy(s, x);
    } else if x in Transit(s.workers[step.w]) {
      OwnRetries(s, step.w, step.action, c, x);
    } else {
      OtherRetries(s, step.w, step.action, c, x);
    }
  }

  /** Gone with a dead worker: nowhere, and nobody is about to touch its retries. */
  ghost predicate Lost(s: State, c: Config, x: Item) {
    && Nowhere(s, x) && 0 <= Tries(s, x) <= Bound(c)
    && forall w :: 0 <= w < |s.workers| && s.workers[w].DoneAdded? ==> s.workers[w].item != x
  }

  ghost predicate Placed(s: State, c: Config, x: Item) {
    ItemInv(s, x) && RetryInv(s, c, x)
  }

  /** The only hand that holds an item in a window is the window's. */
  lemma WindowIsOnlyHand(s: State, w: nat, x: Item, v: nat)
    requires ItemInv(s, x) && w < |s.workers| && v < |s.workers| && v != w && x in Transit(s.workers[w])
    ensures x !in Hand(s.workers[v]) && Copies(s, x) == 0
    ensures s.workers[v].DoneAdded? ==> s.workers[v].item != x
  {
    HandIsLeasedOrInTransit(s.workers[w], x);
    assert InTransit(s, x) && WorkerOk(s, s.workers[v], x);
  }

  lemma WindowTries(s: State, c: Config, w: nat, x: Item)
    requires Placed(s, c, x) && w < |s.workers| && x in Transit(s.workers[w])
    ensures !Terminal(s, x) && 0 <= Tries(s, x) <= Bound(c)
  {
    InTransitNotTerminal(s, w, x);
  }

  /** The state once the worker is dead. */
  function Without(s: State, w: nat): State
    requires w < |s.workers|
  {
    s.(workers := s.workers[w := Dead])
  }

  lemma WindowDies(s: State, w: nat, x: Item)
    requires ItemInv(s, x) && w < |s.workers| && x in Transit(s.workers[w])
    ensures Nowhere(Without(s, w), x)
    ensures forall v :: 0 <= v < |s.workers| && v != w && s.workers[v].DoneAdded? ==> s.workers[v].item != x
  {
    assert InTransit(s, x);
    forall v | 0 <= v < |s.workers| && v != w
      ensures x !in Hand(s.workers[v]) && (s.workers[v].DoneAdded? ==> s.workers[v].item != x)
    {
      WindowIsOnlyHand(s, w, x, v);
    }
  }

  lemma DeathLoses(s: State, step: Step, c: Config, x: Item)
    requires Enabled(s, step) && Placed(s, c, x) && DiesWith(s, step, x)
    ensures Lost(Apply(s, step, c), c, x) && Spends(s, step, c, x)
  {
    assert Apply(s, step, c) == Without(s, step.w);
    WindowTries(s, c, step.w, x);
    WindowDies(s, step.w, x);
  }

  lemma LostStays(s: State, step: Step, c: Config, x: Item)
    requires Enabled(s, step) && Lost(s, c, x)
    ensures Lost(Apply(s, step, c), c, x) && Spends(s, step, c, x)
  {
    StepKeepsNowhere(s, step, c, x);
    if step.Do? {
      LostIsNotDone(s, step.w, step.action, c, x);
      LostActs(s, step.w, step.action, c, x);
    }
  }

  lemma LostActs(s: State, w: nat, a: Action, c: Config, x: Item)
    requires Enabled(s, Do(w, a)) && Lost(s, c, x)
    ensures TriesHeld(s, w, a, c, x)
  {
    HandIsLeasedOrInTransit(s.workers[w], x);
    assert WorkerOk(s, s.workers[w], x) by {
      OccurrencesConcat(Hand(s.workers[w]), [], x);
    }
    OtherTries(s, w, a, c, x);
  }

  lemma LostIsNotDone(s: State, w: nat, a: Action, c: Config, x: Item)
    requires Enabled(s, Do(w, a)) && Lost(s, c, x)
    ensures Advance(s, w, a, c).DoneAdded? ==> Advance(s, w, a, c).item != x
  {
    if a.AddDone? {
      assert s.workers[w].item in Hand(s.workers[w]);
    }
  }

  /** A loaded item is placed, or lost. */
  ghost predicate Accounted(s: State, c: Config, x: Item) {
    Placed(s, c, x) || Lost(s, c, x)
  }

  lemma StepAccounts(s: State, step: Step, c: Config, x: Item)
    requires Enabled(s, step) && Accounted(s, c, x) && Clean(s, step, x)
    ensures Accounted(Apply(s, step, c), c, x) && Spends(s, step, c, x)
    ensures Lost(s, c, x) || DiesWith(s, step, x) ==> Lost(Apply(s, step, c), c, x)
  {
    if Lost(s, c, x) {
      LostStays(s, step, c, x);
    } else if DiesWith(s, step, x) {
      DeathLoses(s, step, c, x);
    } else {
      StepKeepsItem(s, step, c, x);
      StepKeepsRetries(s, step, c, x);
    }
  }

  lemma LoadedIsPlaced(s: State, c: Config, items: seq<Item>, x: Item)
    requires Loaded(s, items) && Distinct(items) && x in items
    ensures Placed(s, c, x)
  {
    LoadedInv(s, items, x);
  }

  lemma NextAccounted(run: seq<State>, steps: seq<Step>, c: Config, i: nat, x: Item)
    requires IsRun(run, steps, c) && i < |steps| && Accounted(run[i], c, x) && Clean(run[i], steps[i], x)
    ensures Accounted(run[i + 1], c, x)
    ensures Lost(run[i], c, x) || DiesWith(run[i], steps[i], x) ==> Lost(run[i + 1], c, x)
  {
    assert StepTo(run[i], steps[i], run[i + 1], c);
    StepAccounts(run[i], steps[i], c, x);
  }

  /** Every loaded item that no scan takes from a live worker is accounted for, and lost from
      the moment a worker dies holding it in a window. */
  lemma {:induction false} EveryItemAccounted(run: seq<State>, steps: seq<Step>, c: Config, items: seq<Item>,
                                              i: nat, x: Item)
    requires IsRun(run, steps, c) && Loaded(run[0], items) && Distinct(items)
    requires i < |run| && x in items && CleanFor(run, steps, i, x)
    ensures Accounted(run[i], c, x)
    ensures DiedWith(run, steps, i, x) ==> Lost(run[i], c, x)
  {
    if i == 0 {
      LoadedIsPlaced(run[0], c, items, x);
    } else {
      EveryItemAccounted(run, steps, c, items, i - 1, x);
      NextAccounted(run, steps, c, i - 1, x);
      if DiedWith(run, steps, i, x) && !DiedWith(run, steps, i - 1, x) {
        assert DiesWith(run[i - 1], steps[i - 1], x);
      }
    }
  }

  /** Exactly one place, or lost with a dead worker: the second precisely when some worker died
      in a hand-over window holding the item. */
  lemma PlacedOrLost(run: seq<State>, steps: seq<Step>, c: Config, items: seq<Item>, i: nat, x: Item)
    requires IsRun(run, steps, c) && Loaded(run[0], items) && Distinct(items)
    requires i < |run| && x in items && CleanFor(run, steps, i, x)
    ensures if DiedWith(run, steps, i, x) then Nowhere(run[i], x) else ItemInv(run[i], x)
  {
    if DiedWith(run, steps, i, x) {
      EveryItemAccounted(run, steps, c, items, i, x);
    } else {
      Partition(run, steps, c, items, i, x);
    }
  }

  /** Retries of one item: below the bound until it is done, failed or just being settled, and
      used up by completions alone, as long as nobody dies with it. */
  lemma RetriesHold(run: seq<State>, steps: seq<Step>, c: Config, items: seq<Item>, i: nat, x: Item)
    requires IsRun(run, steps, c) && Loaded(run[0], items) && Distinct(items)
    requires i < |run| && x in items && CleanFor(run, steps, i, x) && !DiedWith(run, steps, i, x)
    ensures RetryInv(run[i], c, x)
    ensures i < |steps| && Clean(run[i], steps[i], x) ==>
              StepTo(run[i], steps[i], run[i + 1], c) && Spends(run[i], steps[i], c, x)
  {
    Partition(run, steps, c, items, i, x);
    EveryItemAccounted(run, steps, c, items, i, x);
    PlacedIsNotLost(run[i], c, x);
    if i < |steps| && Clean(run[i], steps[i], x) {
      assert StepTo(run[i], steps[i], run[i + 1], c);
      StepAccounts(run[i], steps[i], c, x);
    }
  }

  lemma PlacedIsNotLost(s: State, c: Config, x: Item)
    requires ItemInv(s, x)
    ensures !Lost(s, c, x)
  {
    if InTransit(s, x) {
      var w :| 0 <= w < |s.workers| && x in Transit(s.workers[w]);
      HandIsLeasedOrInTransit(s.workers[w], x);
    }
  }

  function Total(s: State, c: Config, items: seq<Item>): int {
    if items == [] then 0 else Remaining(s, c, items[0]) + Total(s, c, items[1..])
  }

  /** How many items of the list the step answers for. */
  function Completed(s: State, step: Step, items: seq<Item>): nat {
    if items == [] then 0 else One(Completes(s, step, items[0])) + Completed(s, step, items[1..])
  }

  lemma {:induction false} TotalDrops(s: State, step: Step, c: Config, items: seq<Item>)
    requires Enabled(s, step) && forall x :: x in items ==> Spends(s, step, c, x)
    ensures Total(Apply(s, step, c), c, items) <= Total(s, c, items) - Completed(s, step, items)
  {
    if items != [] {
      assert items[0] in items;
      TotalDrops(s, step, c, items[1..]);
    }
  }

  /** A step that answers for a handler call answers for a loaded item. */
  lemma {:induction false} CompletionIsCounted(s: State, step: Step, c: Config, items: seq<Item>, x: Item)
    requires Completes(s, step, x) && x in items
    ensures Completed(s, step, items) >= 1
  {
    if items[0] != x {
      CompletionIsCounted(s, step, c, items[1..], x);
    }
  }

  lemma {:induction false} FreshTotal(s: State, c: Config, all: seq<Item>, items: seq<Item>)
    requires Loaded(s, all)
    ensures Total(s, c, items) == |items| * Bound(c)
  {
    if items != [] {
      FreshTotal(s, c, all, items[1..]);
    }
  }

  lemma AccountedRemains(s: State, c: Config, x: Item)
    requires Accounted(s, c, x)
    ensures Remaining(s, c, x) >= 0
  {
  }

  lemma {:induction false} TotalIsNatural(s: State, c: Config, items: seq<Item>)
    requires forall x :: x in items ==> Accounted(s, c, x)
    ensures Total(s, c, items) >= 0
  {
    if items != [] {
      AccountedRemains(s, c, items[0]);
      TotalIsNatural(s, c, items[1..]);
    }
  }

  lemma StepCompletions(s: State, step: Step, c: Config, items: seq<Item>)
    requires Enabled(s, step) && forall x :: x in items ==> Spends(s, step, c, x)
    requires forall x :: x !in items ==> Nowhere(s, x)
    ensures Apply(s, step, c).completions + Total(Apply(s, step, c), c, items) <= s.completions + Total(s, c, items)
  {
    TotalDrops(s, step, c, items);
    if step.Do? && (step.action.AddDone? || step.action.Count?) {
      var x := s.workers[step.w].item;
      assert x in Hand(s.workers[step.w]);
      CompletionIsCounted(s, step, c, items, x);
    }
  }

  lemma EveryItemSpends(run: seq<State>, steps: seq<Step>, c: Config, items: seq<Item>, i: nat)
    requires IsRun(run, steps, c) && Loaded(run[0], items) && Distinct(items) && i < |steps|
    requires forall x :: x in items ==> CleanFor(run, steps, i + 1, x)
    ensures StepTo(run[i], steps[i], run[i + 1], c)
    ensures forall x :: x in items ==> Spends(run[i], steps[i], c, x)
    ensures forall x :: x !in items ==> Nowhere(run[i], x)
  {
    assert StepTo(run[i], steps[i], run[i + 1], c);
    forall x | x in items
      ensures Spends(run[i], steps[i], c, x)
    {
      assert CleanFor(run, steps, i + 1, x);
      EveryItemAccounted(run, steps, c, items, i, x);
      StepAccounts(run[i], steps[i], c, x);
    }
    forall x | x !in items
      ensures Nowhere(run[i], x)
    {
      OthersNowhere(run, steps, c, items, i, x);
    }
  }

  lemma TotalStaysNatural(run: seq<State>, steps: seq<Step>, c: Config, items: seq<Item>, i: nat)
    requires IsRun(run, steps, c) && Loaded(run[0], items) && Distinct(items) && i < |run|
    requires forall x :: x in items ==> CleanFor(run, steps, i, x)
    ensures Total(run[i], c, items) >= 0
  {
    forall x | x in items
      ensures Accounted(run[i], c, x)
    {
      EveryItemAccounted(run, steps, c, items, i, x);
    }
    TotalIsNatural(run[i], c, items);
  }

  /** A generation needs at most |items| * max(1, max_retries) handler completions, whoever
      dies whenever: each completion uses up at least one of the remaining retries, and no
      other step gives any back. */
  lemma {:induction false} CompletionsBounded(run: seq<State>, steps: seq<Step>, c: Config, items: seq<Item>, i: nat)
    requires IsRun(run, steps, c) && Loaded(run[0], items) && Distinct(items) && i < |run|
    requires forall x :: x in items ==> CleanFor(run, steps, i, x)
    ensures Total(run[i], c, items) >= 0
    ensures run[i].completions + Total(run[i], c, items) <= |items| * Bound(c)
  {
    TotalStaysNatural(run, steps, c, items, i);
    if i == 0 {
      FreshTotal(run[0], c, items, items);
    } else {
      assert forall x :: x in items ==> CleanFor(run, steps, i, x);
      CompletionsBounded(run, steps, c, items, i - 1);
      EveryItemSpends(run, steps, c, items, i - 1);
      StepCompletions(run[i - 1], steps[i - 1], c, items);
    }
  }

  // The condition on scans is exact.

  /** No further scan and no death. */
  predicate Quiet(steps: seq<Step>) {
    forall step :: step in steps ==> step.Do? ==> !step.action.Scan? && !step.action.Die?
  }

  /** The command the worker is at, taking every handler call as successful. */
  function NextAction(worker: Worker): Action
    requires Hand(worker) != []
  {
    match worker
    case Scanned(_) => Pull
    case Pulled(_) => Return
    case Popped(_) => Lease(0)
    case Working(_) => HandlerOk
    case DoneRemoved(_, _) => AddDone
    case DoneAdded(_, _) => Forget
    case FailRemoved(_, _) => Count
    case FailCounted(_, _, _) => Settle
  }

  /** Commands left until the worker's hand is empty, at most. */
  function Rank(worker: Worker): nat {
    match worker
    case Scanned(_) => 2
    case Pulled(_) => 1
    case Popped(batch) => 4 * |batch| + 1
    case Working(batch) => 4 * |batch|
    case DoneRemoved(_, rest) => 4 * |rest| + 3
    case DoneAdded(_, rest) => 4 * |rest| + 2
    case FailRemoved(_, rest) => 4 * |rest| + 3
    case FailCounted(_, _, rest) => 4 * |rest| + 2
    case _ => 0
  }

  lemma NextRanksLower(s: State, v: nat, c: Config)
    requires v < |s.workers| && Hand(s.workers[v]) != []
    ensures var a := NextAction(s.workers[v]);
            && Fits(s.workers[v], a) && !a.Scan? && !a.Die?
            && Rank(Advance(s, v, a, c)) < Rank(s.workers[v])
  {
  }

  lemma LeasedStaysInHand(s: State, v: nat, c: Config, x: Item)
    requires v < |s.workers| && x in s.pending && x in Leased(s.workers[v])
    ensures var a := NextAction(s.workers[v]);
            Fits(s.workers[v], a) && x in Effect(s, v, a, c).pending && x in Hand(Advance(s, v, a, c))
  {
    var worker := s.workers[v];
    if worker.Working? {
      assert worker.batch == [worker.batch[0]] + worker.batch[1..];
    }
  }

  lemma TransitMakesCopy(s: State, v: nat, c: Config, x: Item)
    requires v < |s.workers| && x in s.pending && x in Transit(s.workers[v])
    ensures var a := NextAction(s.workers[v]);
            && Fits(s.workers[v], a) && x in Effect(s, v, a, c).pending
            && (x in Hand(Advance(s, v, a, c)) || Copies(Effect(s, v, a, c), x) >= 2)
  {
    var worker := s.workers[v];
    var t := Effect(s, v, NextAction(worker), c);
    OccurrencesConcat(s.pending, Transit(worker), x);
    OccurrencesConcat(Transit(worker), [], x);
    OccurrencesConcat(t.pending, [], x);
  }

  /** Pending and in hand at once: the next command either keeps it so or stores a second copy. */
  lemma NextKeepsOrCopies(s: State, v: nat, c: Config, x: Item)
    requires v < |s.workers| && x in s.pending && x in Hand(s.workers[v])
    ensures var a := NextAction(s.workers[v]);
            && Fits(s.workers[v], a) && !a.Scan? && !a.Die?
            && var t := Apply(s, Do(v, a), c);
            && x in t.pending && Rank(t.workers[v]) < Rank(s.workers[v])
            && (x in Hand(t.workers[v]) || Copies(t, x) >= 2)
  {
    NextRanksLower(s, v, c);
    HandIsLeasedOrInTransit(s.workers[v], x);
    if x in Leased(s.workers[v]) {
      LeasedStaysInHand(s, v, c, x);
    } else {
      TransitMakesCopy(s, v, c, x);
    }
  }

  lemma {:induction false} DriveToCopy(s: State, v: nat, c: Config, x: Item) returns (run: seq<State>, steps: seq<Step>)
    requires v < |s.workers| && x in s.pending && (x in Hand(s.workers[v]) || Copies(s, x) >= 2)
    ensures IsRun(run, steps, c) && run[0] == s && Quiet(steps) && Copies(run[|run| - 1], x) >= 2
    decreases Rank(s.workers[v])
  {
    if Copies(s, x) >= 2 {
      return [s], [];
    }
    NextKeepsOrCopies(s, v, c, x);
    var step := Do(v, NextAction(s.workers[v]));
    var t := Apply(s, step, c);
    run, steps := DriveToCopy(t, v, c, x);
    run, steps := PrependStep(s, step, run, steps, c);
  }

  lemma PrependStep(s: State, step: Step, rest: seq<State>, later: seq<Step>, c: Config)
    returns (run: seq<State>, steps: seq<Step>)
    requires Enabled(s, step) && IsRun(rest, later, c) && rest[0] == Apply(s, step, c)
    ensures run == [s] + rest && steps == [step] + later && IsRun(run, steps, c)
  {
    run, steps := [s] + rest, [step] + later;
    forall i | 0 <= i < |steps| ensures StepTo(run[i], steps[i], run[i + 1], c) {
      if i > 0 {
        assert StepTo(rest[i - 1], later[i - 1], rest[i], c);
      }
    }
  }

  /** A scan that finds an item in another live worker's hand leads, by ordinary steps, to a
      state that stores the item twice. */
  lemma UncleanScanCopies(s: State, w: nat, expired: seq<Item>, read: nat, c: Config, x: Item, v: nat)
    returns (run: seq<State>, steps: seq<Step>)
    requires Enabled(s, Do(w, Scan(expired, read))) && ItemInv(s, x) && x in expired
    requires v < |s.workers| && x in Hand(s.workers[v])
    ensures IsRun(run, steps, c) && run[0] == Apply(s, Do(w, Scan(expired, read)), c) && Quiet(steps)
    ensures Copies(run[|run| - 1], x) >= 2
  {
    var t := Apply(s, Do(w, Scan(expired, read)), c);
    var pulled := Apply(t, Do(w, Pull), c);
    var back := Apply(pulled, Do(w, Return), c);
    assert v != w && back.workers[v] == s.workers[v];
    run, steps := DriveToCopy(back, v, c, x);
    run, steps := PrependStep(pulled, Do(w, Return), run, steps, c);
    run, steps := PrependStep(t, Do(w, Pull), run, steps, c);
  }

  lemma QuietStepKeeps(run: seq<State>, steps: seq<Step>, c: Config, x: Item, i: nat)
    requires IsRun(run, steps, c) && Quiet(steps) && i < |steps| && ItemInv(run[i], x)
    ensures ItemInv(run[i + 1], x)
  {
    assert StepTo(run[i], steps[i], run[i + 1], c) && steps[i] in steps;
    StepKeepsItem(run[i], steps[i], c, x);
  }

  lemma {:induction false} QuietKeepsItem(run: seq<State>, steps: seq<Step>, c: Config, x: Item, i: nat)
    requires IsRun(run, steps, c) && Quiet(steps) && ItemInv(run[0], x) && i < |run|
    ensures ItemInv(run[i], x)
  {
    if i > 0 {
      QuietKeepsItem(run, steps, c, x, i - 1);
      QuietStepKeeps(run, steps, c, x, i - 1);
    }
  }

  /** From a good state, a scan leaves the item in one place through every quiet continuation
      exactly when no live worker has it in hand: neither a lease that ran out under its
      worker nor an overlapping reclaim is harmless. */
  lemma ScanSafeIffClean(s: State, w: nat, expired: seq<Item>, read: nat, c: Config, x: Item)
    requires Enabled(s, Do(w, Scan(expired, read))) && ItemInv(s, x)
    ensures Clean(s, Do(w, Scan(expired, read)), x) <==>
              forall run, steps ::
                IsRun(run, steps, c) && run[0] == Apply(s, Do(w, Scan(expired, read)), c) && Quiet(steps)
                ==> PlacedOnce(run[|run| - 1], x)
  {
    var scan := Do(w, Scan(expired, read));
    if Clean(s, scan, x) {
      StepKeepsItem(s, scan, c, x);
      forall run, steps | IsRun(run, steps, c) && run[0] == Apply(s, scan, c) && Quiet(steps)
        ensures PlacedOnce(run[|run| - 1], x)
      {
        QuietKeepsItem(run, steps, c, x, |run| - 1);
      }
    } else {
      var v :| 0 <= v < |s.workers| && x in Hand(s.workers[v]);
      var run, steps := UncleanScanCopies(s, w, expired, read, c, x, v);
      assert !PlacedOnce(run[|run| - 1], x);
    }
  }

  /** No live worker is past the deadline of an item it is working on. */
  predicate LeasesLive(s: State) {
    forall w :: 0 <= w < |s.workers| && s.workers[w].Working? ==>
      forall x :: x in s.workers[w].batch && x in s.processing ==> s.now < s.processing[x]
  }

  /** One worker pops the item ... */
  lemma HolderPops(c: Config, x: Item) returns (run: seq<State>, steps: seq<Step>)
    requires c.batchSize >= 1
    ensures IsRun(run, steps, c) && Loaded(run[0], [x]) && |run| == 3
    ensures forall i :: 0 <= i < |run| ==> LeasesLive(run[i])
    ensures run[2] == State(0, [], map[], {}, {}, map[], [Popped([x]), Idle, Idle], 0)
  {
    steps := [Do(0, Scan([], 0)), Do(0, Pop)];
    run := [
      State(0, [x], map[], {}, {}, map[], [Idle, Idle, Idle], 0),
      State(0, [x], map[], {}, {}, map[], [Ready, Idle, Idle], 0),
      State(0, [], map[], {}, {}, map[], [Popped([x]), Idle, Idle], 0)];
    assert [x][..1] == [x] && [x][1..] == [];
  }

  /** ... leases it and dies ... */
  lemma HolderDies(c: Config, x: Item) returns (run: seq<State>, steps: seq<Step>)
    requires c.leaseSeconds >= 1
    ensures IsRun(run, steps, c) && |run| == 3
    ensures forall i :: 0 <= i < |run| ==> LeasesLive(run[i])
    ensures run[0] == State(0, [], map[], {}, {}, map[], [Popped([x]), Idle, Idle], 0)
    ensures run[2] == State(0, [], map[x := c.leaseSeconds], {}, {}, map[], [Dead, Idle, Idle], 0)
  {
    var gone := map[x := c.leaseSeconds];
    steps := [Do(0, Lease(0)), Do(0, Die)];
    run := [
      State(0, [], map[], {}, {}, map[], [Popped([x]), Idle, Idle], 0),
      State(0, [], gone, {}, {}, map[], [Working([x]), Idle, Idle], 0),
      State(0, [], gone, {}, {}, map[], [Dead, Idle, Idle], 0)];
    assert map[] + Leases([x], c.leaseSeconds) == gone;
  }

  /** ... and two others scan it once the lease has run out ... */
  lemma TwoScans(x: Item, d: nat, c: Config) returns (run: seq<State>, steps: seq<Step>)
    ensures IsRun(run, steps, c) && |run| == 4
    ensures forall i :: 0 <= i < |run| ==> LeasesLive(run[i])
    ensures run[0] == State(0, [], map[x := d], {}, {}, map[], [Dead, Idle, Idle], 0)
    ensures run[3] == State(d, [], map[x := d], {}, {}, map[], [Dead, Scanned([x]), Scanned([x])], 0)
  {
    var gone := map[x := d];
    steps := [Tick(d), Do(1, Scan([x], d)), Do(2, Scan([x], d))];
    run := [
      State(0, [], gone, {}, {}, map[], [Dead, Idle, Idle], 0),
      State(d, [], gone, {}, {}, map[], [Dead, Idle, Idle], 0),
      State(d, [], gone, {}, {}, map[], [Dead, Scanned([x]), Idle], 0),
      State(d, [], gone, {}, {}, map[], [Dead, Scanned([x]), Scanned([x])], 0)];
  }

  /** ... remove it both ... */
  lemma TwoPulls(x: Item, d: nat, c: Config) returns (run: seq<State>, steps: seq<Step>)
    ensures IsRun(run, steps, c) && |run| == 3
    ensures forall i :: 0 <= i < |run| ==> LeasesLive(run[i])
    ensures run[0] == State(d, [], map[x := d], {}, {}, map[], [Dead, Scanned([x]), Scanned([x])], 0)
    ensures run[2] == State(d, [], map[], {}, {}, map[], [Dead, Pulled([x]), Pulled([x])], 0)
  {
    var gone := map[x := d];
    steps := [Do(1, Pull), Do(2, Pull)];
    run := [
      State(d, [], gone, {}, {}, map[], [Dead, Scanned([x]), Scanned([x])], 0),
      State(d, [], map[], {}, {}, map[], [Dead, Pulled([x]), Scanned([x])], 0),
      State(d, [], map[], {}, {}, map[], [Dead, Pulled([x]), Pulled([x])], 0)];
    assert gone - SetOf([x]) == map[] && gone - SetOf([x]) - SetOf([x]) == map[];
  }

  /** ... and return it both. */
  lemma TwoReturns(x: Item, d: nat, c: Config) returns (run: seq<State>, steps: seq<Step>)
    ensures IsRun(run, steps, c) && |run| == 3
    ensures forall i :: 0 <= i < |run| ==> LeasesLive(run[i])
    ensures run[0] == State(d, [], map[], {}, {}, map[], [Dead, Pulled([x]), Pulled([x])], 0)
    ensures run[2] == State(d, [x, x], map[], {}, {}, map[], [Dead, Ready, Ready], 0)
  {
    steps := [Do(1, Return), Do(2, Return)];
    run := [
      State(d, [], map[], {}, {}, map[], [Dead, Pulled([x]), Pulled([x])], 0),
      State(d, [x], map[], {}, {}, map[], [Dead, Ready, Pulled([x])], 0),
      State(d, [x, x], map[], {}, {}, map[], [Dead, Ready, Ready], 0)];
    assert [x] + [x] == [x, x] && [] + [x] == [x];
  }

  lemma JoinRuns(run: seq<State>, steps: seq<Step>, more: seq<State>, later: seq<Step>, c: Config)
    requires IsRun(run, steps, c) && IsRun(more, later, c) && more[0] == run[|run| - 1]
    ensures IsRun(run + more[1..], steps + later, c)
  {
    var all, both := run + more[1..], steps + later;
    forall i | 0 <= i < |both|
      ensures StepTo(all[i], both[i], all[i + 1], c)
    {
      if i < |steps| {
        assert StepTo(run[i], steps[i], run[i + 1], c);
      } else {
        assert StepTo(more[i - |steps|], later[i - |steps|], more[i - |steps| + 1], c);
      }
    }
  }

  /** Two workers reclaim the item of a dead one at the same time, and it is pending twice,
      though no live worker ever outlived its lease. */
  lemma OverlappingReclaimsDuplicate(c: Config, x: Item) returns (run: seq<State>, steps: seq<Step>)
    requires c.batchSize >= 1 && c.leaseSeconds >= 1
    ensures IsRun(run, steps, c) && Loaded(run[0], [x])
    ensures forall i :: 0 <= i < |run| ==> LeasesLive(run[i])
    ensures run[|run| - 1].pending == [x, x]
    ensures run[|run| - 1].workers == [Dead, Ready, Ready] && run[|run| - 1].completions == 0
  {
    run, steps := HolderPops(c, x);
    var more, later := HolderDies(c, x);
    JoinRuns(run, steps, more, later, c);
    run, steps := run + more[1..], steps + later;
    more, later := TwoScans(x, c.leaseSeconds, c);
    JoinRuns(run, steps, more, later, c);
    run, steps := run + more[1..], steps + later;
    more, later := TwoPulls(x, c.leaseSeconds, c);
    JoinRuns(run, steps, more, later, c);
    run, steps := run + more[1..], steps + later;
    more, later := TwoReturns(x, c.leaseSeconds, c);
    JoinRuns(run, steps, more, later, c);
    run, steps := run + more[1..], steps + later;
  }

  /** One worker claims the first pending item ... */
  lemma ClaimOne(s: State, w: nat, c: Config, x: Item) returns (run: seq<State>, steps: seq<Step>)
    requires c.batchSize == 1 && w < |s.workers| && s.workers[w].Ready? && s.pending != [] && s.pending[0] == x
    ensures IsRun(run, steps, c) && run[0] == s
    ensures run[|run| - 1] == s.(pending := s.pending[1..],
                                 processing := s.processing + Leases([x], s.now + c.leaseSeconds),
                                 workers := s.workers[w := Working([x])])
  {
    var popped := s.(pending := s.pending[1..], workers := s.workers[w := Popped([x])]);
    var leased := popped.(processing := s.processing + Leases([x], s.now + c.leaseSeconds),
                          workers := s.workers[w := Working([x])]);
    steps, run := [Do(w, Pop), Do(w, Lease(s.now))], [s, popped, leased];
    assert s.pending[..1] == [x];
    assert StepTo(s, steps[0], popped, c);
  }

  /** ... and completes it. */
  lemma CompleteOne(s: State, w: nat, c: Config, x: Item) returns (run: seq<State>, steps: seq<Step>)
    requires w < |s.workers| && s.workers[w] == Working([x])
    ensures IsRun(run, steps, c) && run[0] == s
    ensures var t := run[|run| - 1];
            && t.pending == s.pending && t.completions == s.completions + 1
            && t.workers == s.workers[w := DoneAdded(x, [])]
  {
    var removed := s.(processing := s.processing - {x}, workers := s.workers[w := DoneRemoved(x, [])]);
    var added := removed.(done := s.done + {x}, completions := s.completions + 1,
                          workers := s.workers[w := DoneAdded(x, [])]);
    steps, run := [Do(w, HandlerOk), Do(w, AddDone)], [s, removed, added];
    assert [x][1..] == [];
    assert StepTo(s, steps[0], removed, c);
  }

  lemma OneMoreDone(run: seq<State>, steps: seq<Step>, w: nat, c: Config, x: Item)
    returns (longer: seq<State>, more: seq<Step>)
    requires IsRun(run, steps, c) && c.batchSize == 1
    requires var s := run[|run| - 1]; w < |s.workers| && s.workers[w].Ready? && s.pending != [] && s.pending[0] == x
    ensures IsRun(longer, more, c) && longer[0] == run[0]
    ensures var s, t := run[|run| - 1], longer[|longer| - 1];
            && t.pending == s.pending[1..] && t.completions == s.completions + 1
            && t.workers == s.workers[w := DoneAdded(x, [])]
  {
    var s := run[|run| - 1];
    var claim, claiming := ClaimOne(s, w, c, x);
    JoinRuns(run, steps, claim, claiming, c);
    var done, finishing := CompleteOne(claim[|claim| - 1], w, c, x);
    JoinRuns(run + claim[1..], steps + claiming, done, finishing, c);
    longer, more := run + claim[1..] + done[1..], steps + claiming + finishing;
  }

  /** The bound on completions rests on clean scans: an item that overlapping reclaims have
      put into pending twice is completed twice, where one completion was all it had. */
  lemma DuplicateCompletesTwice(c: Config, x: Item) returns (run: seq<State>, steps: seq<Step>)
    requires c.batchSize == 1 && c.leaseSeconds >= 1 && c.maxRetries <= 1
    ensures IsRun(run, steps, c) && Loaded(run[0], [x])
    ensures run[|run| - 1].completions > |[x]| * Bound(c)
  {
    run, steps := OverlappingReclaimsDuplicate(c, x);
    run, steps := OneMoreDone(run, steps, 1, c, x);
    run, steps := OneMoreDone(run, steps, 2, c, x);
  }
}
