/** `run_check_chunk` of one worker as it changes the shared structures: each uninterrupted call
    is a path of the step machine, so whatever holds over every run holds over it. */
module ItemQueueWorker {
  import opened ItemQueue
  import opened Sequences
  import opened Wrappers

  datatype Verdict = Retry | Failed

  datatype Summary = Summary(claimed: nat, ok: nat, retry: nat, failed: nat, reclaimed: nat, remaining: nat)

  /** The meta hash of the generation; a field that was never set is None. */
  datatype Meta = Meta(
    generation: Option<string>,
    createdAt: Option<nat>,
    total: Option<nat>,
    status: Option<string>,
    lastReclaimedAt: Option<nat>,
    lastClaimedAt: Option<nat>)

  const NO_META: Meta := Meta(None, None, None, None, None, None)

  /** What became of the items of a chunk, in the order in which they were handled. */
  datatype Handled = Handled(done: seq<Item>, retried: seq<Item>, failed: seq<Item>)

  /** The record with one more item. */
  function Noted(h: Handled, item: Item, outcome: Option<Verdict>): Handled {
    match outcome
    case None => h.(done := h.done + [item])
    case Some(Retry) => h.(retried := h.retried + [item])
    case Some(Failed) => h.(failed := h.failed + [item])
  }

  /** How one call of the handler ends. */
  datatype Call = Returns(result: Option<string>) | Raises(error: string)

  /** The hashes that keep something for each item. */
  datatype Book = Book(retries: map<Item, int>, errors: map<Item, string>, results: map<Item, string>)

  function TriesIn(book: Book, item: Item): int {
    if item in book.retries then book.retries[item] else 0
  }

  function Entered(book: Book, item: Item, call: Call): Book {
    match call
    case Returns(None) => book.(retries := book.retries - {item})
    case Returns(Some(v)) => book.(retries := book.retries - {item}, results := book.results[item := v])
    case Raises(error) =>
      book.(retries := book.retries[item := TriesIn(book, item) + 1], errors := book.errors[item := error])
  }

  /** None is success; a failure is the last when the tries are used up. */
  function OutcomeOf(book: Book, item: Item, call: Call, maxRetries: int): Option<Verdict> {
    if call.Returns? then None else if TriesIn(book, item) + 1 >= maxRetries then Some(Failed) else Some(Retry)
  }

  function BookAfter(book: Book, items: seq<Item>, calls: seq<Call>): Book
    requires |items| == |calls|
  {
    if items == [] then book
    else
      var k := |items| - 1;
      Entered(BookAfter(book, items[..k], calls[..k]), items[k], calls[k])
  }

  /** What becomes of each item when the handler's calls end like this. */
  function Fates(book: Book, items: seq<Item>, calls: seq<Call>, maxRetries: int): Handled
    requires |items| == |calls|
  {
    if items == [] then Handled([], [], [])
    else
      var k := |items| - 1;
      var earlier := BookAfter(book, items[..k], calls[..k]);
      Noted(Fates(book, items[..k], calls[..k], maxRetries), items[k],
            OutcomeOf(earlier, items[k], calls[k], maxRetries))
  }

  /** The items whose handler returned. */
  function Returned(items: seq<Item>, calls: seq<Call>): seq<Item>
    requires |items| == |calls|
  {
    if items == [] then []
    else
      var k := |items| - 1;
      Returned(items[..k], calls[..k]) + if calls[k].Returns? then [items[k]] else []
  }

  lemma {:induction false} DoneIsReturned(book: Book, items: seq<Item>, calls: seq<Call>, maxRetries: int)
    requires |items| == |calls|
    ensures Fates(book, items, calls, maxRetries).done == Returned(items, calls)
  {
    if items != [] {
      var k := |items| - 1;
      DoneIsReturned(book, items[..k], calls[..k], maxRetries);
    }
  }

  /** Nothing is entered for other items. */
  lemma {:induction false} OthersKeepEntries(book: Book, items: seq<Item>, calls: seq<Call>, x: Item)
    requires |items| == |calls| && x !in items
    ensures var after := BookAfter(book, items, calls);
      && TriesIn(after, x) == TriesIn(book, x)
      && (x in after.retries <==> x in book.retries)
      && (x in after.errors <==> x in book.errors) && (x in book.errors ==> after.errors[x] == book.errors[x])
      && (x in after.results <==> x in book.results) && (x in book.results ==> after.results[x] == book.results[x])
  {
    if items != [] {
      var k := |items| - 1;
      assert items[k] in items && forall y :: y in items[..k] ==> y in items;
      OthersKeepEntries(book, items[..k], calls[..k], x);
    }
  }

  /** What is entered for one item whose handler was called once. */
  predicate EnteredFor(book: Book, after: Book, x: Item, call: Call) {
    match call
    case Returns(r) =>
      x !in after.retries && (r.Some? ==> x in after.results && after.results[x] == r.value)
    case Raises(error) =>
      && x in after.retries && after.retries[x] == TriesIn(book, x) + 1
      && x in after.errors && after.errors[x] == error
  }

  /** Where that puts it: done exactly if the handler returned, and failed exactly if it raised
      with the tries before it one short of the limit or more. */
  predicate PlacedBy(h: Handled, book: Book, x: Item, call: Call, maxRetries: int) {
    && (x in h.done <==> call.Returns?)
    && (x in h.failed <==> call.Raises? && TriesIn(book, x) + 1 >= maxRetries)
    && (x in h.retried <==> call.Raises? && TriesIn(book, x) + 1 < maxRetries)
  }

  lemma {:induction false} FatesIn(book: Book, items: seq<Item>, calls: seq<Call>, maxRetries: int, x: Item)
    requires |items| == |calls| && x !in items
    ensures var h := Fates(book, items, calls, maxRetries); x !in h.done && x !in h.failed && x !in h.retried
  {
    if items != [] {
      var k := |items| - 1;
      assert items[k] in items && forall y :: y in items[..k] ==> y in items;
      FatesIn(book, items[..k], calls[..k], maxRetries, x);
    }
  }

  /** Each item of a chunk without duplicates has the fate of its own call. */
  lemma {:induction false} FatesMean(book: Book, items: seq<Item>, calls: seq<Call>, maxRetries: int, i: nat)
    requires |items| == |calls| && Distinct(items) && i < |items|
    ensures PlacedBy(Fates(book, items, calls, maxRetries), book, items[i], calls[i], maxRetries)
    ensures EnteredFor(book, BookAfter(book, items, calls), items[i], calls[i])
  {
    var k := |items| - 1;
    if i == k {
      assert items[k] !in items[..k];
      OthersKeepEntries(book, items[..k], calls[..k], items[k]);
      FatesIn(book, items[..k], calls[..k], maxRetries, items[k]);
    } else {
      FatesMean(book, items[..k], calls[..k], maxRetries, i);
    }
  }

  lemma OneMoreFate(book: Book, items: seq<Item>, calls: seq<Call>, maxRetries: int, i: nat)
    requires |items| == |calls| && i < |items|
    ensures var earlier := BookAfter(book, items[..i], calls[..i]);
      && BookAfter(book, items[..i + 1], calls[..i + 1]) == Entered(earlier, items[i], calls[i])
      && Fates(book, items[..i + 1], calls[..i + 1], maxRetries)
         == Noted(Fates(book, items[..i], calls[..i], maxRetries), items[i],
                  OutcomeOf(earlier, items[i], calls[i], maxRetries))
  {
    assert items[..i + 1][..i] == items[..i] && calls[..i + 1][..i] == calls[..i];
  }

  /** Each of these items once, as done, retried or failed. */
  ghost predicate HandlesAll(h: Handled, items: seq<Item>) {
    multiset(h.done) + multiset(h.retried) + multiset(h.failed) == multiset(items)
  }

  /** The structures that hold items. */
  datatype Shelves = Shelves(pending: seq<Item>, processing: map<Item, nat>, done: set<Item>, failed: set<Item>)

  /** One item leaves processing for where its outcome says. */
  predicate Moved(a: Shelves, b: Shelves, item: Item, outcome: Option<Verdict>) {
    && b.processing == a.processing - {item}
    && b.done == a.done + (if outcome.None? then {item} else {})
    && b.pending == a.pending + (if outcome == Some(Retry) then [item] else [])
    && b.failed == a.failed + (if outcome == Some(Failed) then {item} else {})
  }

  /** The structures once all these items have left processing. */
  function Settled(a: Shelves, h: Handled, items: seq<Item>): Shelves {
    Shelves(a.pending + h.retried, a.processing - SetOf(items), a.done + SetOf(h.done), a.failed + SetOf(h.failed))
  }

  ghost predicate AllMoved(a: Shelves, b: Shelves, h: Handled, items: seq<Item>) {
    HandlesAll(h, items) && b == Settled(a, h, items)
  }

  lemma SetOfMore(items: seq<Item>, item: Item)
    ensures SetOf(items + [item]) == SetOf(items) + {item}
  {
  }

  lemma OneMoreHandled(h: Handled, items: seq<Item>, item: Item, outcome: Option<Verdict>)
    requires HandlesAll(h, items)
    ensures HandlesAll(Noted(h, item, outcome), items + [item])
  {
  }

  lemma OneMoreSettled(a: Shelves, d: Shelves, h: Handled, items: seq<Item>, item: Item, outcome: Option<Verdict>)
    requires Moved(Settled(a, h, items), d, item, outcome)
    ensures d == Settled(a, Noted(h, item, outcome), items + [item])
  {
    SetOfMore(items, item);
    SetOfMore(h.done, item);
    SetOfMore(h.failed, item);
    var b := Settled(a, h, items);
    assert d.processing == a.processing - SetOf(items + [item]);
    assert b.done + {} == b.done && b.failed + {} == b.failed && b.pending + [] == b.pending;
    assert b.pending + [item] == a.pending + (h.retried + [item]);
    assert b.done + {item} == a.done + SetOf(h.done + [item]);
    assert b.failed + {item} == a.failed + SetOf(h.failed + [item]);
  }

  lemma OneMoreMoved(a: Shelves, b: Shelves, d: Shelves, h: Handled, items: seq<Item>, i: nat,
                     outcome: Option<Verdict>)
    requires i < |items| && AllMoved(a, b, h, items[..i]) && Moved(b, d, items[i], outcome)
    ensures AllMoved(a, d, Noted(h, items[i], outcome), items[..i + 1])
  {
    assert items[..i + 1] == items[..i] + [items[i]];
    OneMoreHandled(h, items[..i], items[i], outcome);
    OneMoreSettled(a, d, h, items[..i], items[i], outcome);
  }

  /** Expired at this time, each once, the longest expired first. */
  ghost predicate ExpiredIn(processing: map<Item, nat>, expired: seq<Item>, read: nat) {
    && Distinct(expired) && (forall x :: x in expired <==> x in processing && processing[x] <= read)
    && forall i, j :: 0 <= i < j < |expired| ==> processing[expired[i]] <= processing[expired[j]]
  }

  function Deadline(processing: map<Item, nat>, x: Item): int {
    if x in processing then processing[x] else 0
  }

  /** The steps lead from `s` to `t`. */
  ghost predicate Leads(s: State, steps: seq<Step>, t: State, c: Config)
    decreases |steps|
  {
    if steps == [] then s == t
    else Enabled(s, steps[0]) && Leads(Apply(s, steps[0], c), steps[1..], t, c)
  }

  lemma {:induction false} LeadsOn(s: State, steps: seq<Step>, t: State, more: seq<Step>, u: State, c: Config)
    requires Leads(s, steps, t, c) && Leads(t, more, u, c)
    ensures Leads(s, steps + more, u, c)
    decreases |steps|
  {
    if steps == [] {
      assert steps + more == more;
    } else {
      assert (steps + more)[1..] == steps[1..] + more;
      LeadsOn(Apply(s, steps[0], c), steps[1..], t, more, u, c);
    }
  }

  lemma OneStep(s: State, step: Step, t: State, c: Config)
    requires Enabled(s, step) && t == Apply(s, step, c)
    ensures Leads(s, [step], t, c)
  {
    assert [step][1..] == [];
    assert Leads(t, [], t, c);
  }

  lemma ThreeSteps(s: State, a: Step, t: State, b: Step, u: State, d: Step, v: State, c: Config)
    requires Enabled(s, a) && t == Apply(s, a, c)
    requires Enabled(t, b) && u == Apply(t, b, c)
    requires Enabled(u, d) && v == Apply(u, d, c)
    ensures Leads(s, [a, b, d], v, c)
  {
    OneStep(u, d, v, c);
    assert [a, b, d][1..] == [b, d] && [b, d][1..] == [d];
    assert Leads(t, [b, d], v, c);
  }

  /** A `claim` that finds nothing. */
  lemma EmptyClaimPath(s: State, c: Config)
    requires s.workers == [Ready] && Min(c.batchSize, |s.pending|) == 0
    ensures Leads(s, [Do(0, Pop)], s.(workers := [Idle]), c)
  {
    assert s.pending[0..] == s.pending;
    OneStep(s, Do(0, Pop), s.(workers := [Idle]), c);
  }

  /** The two commands of `claim` in one. */
  lemma ClaimPath(s: State, items: seq<Item>, t: State, c: Config)
    requires s.workers == [Ready] && items != [] && items == s.pending[..Min(c.batchSize, |s.pending|)]
    requires t == s.(pending := s.pending[|items|..],
                     processing := s.processing + Leases(items, s.now + c.leaseSeconds),
                     workers := [Working(items)])
    ensures Leads(s, [Do(0, Pop), Do(0, Lease(s.now))], t, c)
  {
    var popped := s.(pending := s.pending[|items|..], workers := [Popped(items)]);
    OneStep(popped, Do(0, Lease(s.now)), t, c);
    assert [Do(0, Pop), Do(0, Lease(s.now))][1..] == [Do(0, Lease(s.now))];
    assert popped == Apply(s, Do(0, Pop), c);
  }

  lemma ThenFinish(s: State, steps: seq<Step>, emptied: State, t: State, c: Config)
    requires Leads(s, steps, emptied, c) && emptied.workers == [Working([])] && t == emptied.(workers := [Idle])
    ensures Leads(s, steps + [Do(0, Finish)], t, c)
  {
    OneStep(emptied, Do(0, Finish), t, c);
    LeadsOn(s, steps, emptied, [Do(0, Finish)], t, c);
  }

  const SUCCESS: seq<Step> := [Do(0, HandlerOk), Do(0, AddDone), Do(0, Forget)]

  /** The three commands of `mark_done` in one. */
  lemma SuccessPath(s: State, item: Item, rest: seq<Item>, t: State, c: Config)
    requires s.workers == [Working([item] + rest)]
    requires t == s.(processing := s.processing - {item},
                     done := s.done + {item},
                     retries := s.retries - {item},
                     completions := s.completions + 1,
                     workers := [Working(rest)])
    ensures Leads(s, SUCCESS, t, c)
  {
    assert ([item] + rest)[1..] == rest;
    var removed := s.(processing := s.processing - {item}, workers := [DoneRemoved(item, rest)]);
    var added := removed.(done := s.done + {item}, completions := s.completions + 1,
                          workers := [DoneAdded(item, rest)]);
    ThreeSteps(s, SUCCESS[0], removed, SUCCESS[1], added, SUCCESS[2], t, c);
  }

  const FAILURE: seq<Step> := [Do(0, HandlerFails), Do(0, Count), Do(0, Settle)]

  /** The three commands of `mark_failed` in one. */
  lemma FailurePath(s: State, item: Item, rest: seq<Item>, t: State, c: Config)
    requires s.workers == [Working([item] + rest)]
    requires var count := Tries(s, item) + 1;
      t == s.(processing := s.processing - {item},
              retries := s.retries[item := count],
              completions := s.completions + 1,
              failed := if count >= c.maxRetries then s.failed + {item} else s.failed,
              pending := if count >= c.maxRetries then s.pending else s.pending + [item],
              workers := [Working(rest)])
    ensures Leads(s, FAILURE, t, c)
  {
    assert ([item] + rest)[1..] == rest;
    var removed := s.(processing := s.processing - {item}, workers := [FailRemoved(item, rest)]);
    var count := Tries(s, item) + 1;
    var counted := removed.(retries := s.retries[item := count], completions := s.completions + 1,
                            workers := [FailCounted(item, count, rest)]);
    ThreeSteps(s, FAILURE[0], removed, FAILURE[1], counted, FAILURE[2], t, c);
  }

  /** A path is a run of the machine. */
  lemma {:induction false} LeadsIsRun(s: State, steps: seq<Step>, t: State, c: Config) returns (run: seq<State>)
    requires Leads(s, steps, t, c)
    ensures IsRun(run, steps, c) && run[0] == s && run[|run| - 1] == t
    decreases |steps|
  {
    if steps == [] {
      run := [s];
    } else {
      var rest := LeadsIsRun(Apply(s, steps[0], c), steps[1..], t, c);
      var all, again := PrependStep(s, steps[0], rest, steps[1..], c);
      assert again == steps;
      run := all;
    }
  }

  /** The structures of one generation, with the pointer to the current one. */
  class ItemCheckQueue {
    const config: Config
    var now: nat
    var pending: seq<Item>
    var processing: map<Item, nat>
    var done: set<Item>
    var failed: set<Item>
    var retries: map<Item, int>
    var errors: map<Item, string>
    var results: map<Item, string>
    var meta: Meta
    var current: Option<string>
    ghost var completions: nat

    constructor (config: Config)
      ensures this.config == config && Loaded(At(Idle), []) && current.None?
    {
      this.config := config;
      now, pending, processing, done, failed, retries := 0, [], map[], {}, {}, map[];
      errors, results, meta, current := map[], map[], NO_META, None;
      completions := 0;
    }

    /** The machine's state with this worker alone. */
    ghost function At(worker: Worker): State
      reads this
    {
      State(now, pending, processing, done, failed, retries, [worker], completions)
    }

    ghost function Notes(): Book
      reads this
    {
      Book(retries, errors, results)
    }

    ghost function Held(): Shelves
      reads this
    {
      Shelves(pending, processing, done, failed)
    }

    method LoadGeneration(generation: string, items: seq<Item>)
      modifies this
      ensures Loaded(At(Idle), items) && now == old(now)
      ensures errors == map[] && results == map[] && current == Some(generation)
      ensures meta == Meta(Some(generation), Some(now), Some(|items|), Some("active"), None, None)
    {
      pending, processing, done, failed, retries := items, map[], {}, {}, map[];
      errors, results, meta := map[], map[], NO_META;
      meta := meta.(generation := Some(generation), createdAt := Some(now), total := Some(|items|),
                    status := Some("active"));
      current := Some(generation);
      completions := 0;
    }

    method ReclaimExpired() returns (count: nat, ghost expired: seq<Item>, ghost steps: seq<Step>)
      modifies this`pending, this`processing, this`meta
      ensures Leads(old(At(Idle)), steps, At(Ready), config)
      ensures ExpiredIn(old(processing), expired, now) && count == |expired|
      ensures pending == old(pending) + expired
      ensures processing == map x | x in old(processing) && old(processing[x]) > now :: old(processing[x])
      ensures meta == if count == 0 then old(meta) else old(meta).(lastReclaimedAt := Some(now))
    {
      ghost var s := At(Idle);
      var found := Expired(processing, now);
      expired := found;
      count := |found|;
      steps := [Do(0, Scan(found, now))];
      OneStep(s, steps[0], At(if found == [] then Ready else Scanned(found)), config);
      if found == [] {
        assert processing == map x | x in processing && processing[x] > now :: processing[x];
        return;
      }
      processing := processing - SetOf(found);
      OneStep(old(At(Scanned(found))), Do(0, Pull), At(Pulled(found)), config);
      LeadsOn(s, steps, old(At(Scanned(found))), [Do(0, Pull)], At(Pulled(found)), config);
      steps := steps + [Do(0, Pull)];
      ghost var mid := At(Pulled(found));
      pending := pending + found;
      OneStep(mid, Do(0, Return), At(Ready), config);
      LeadsOn(s, steps, mid, [Do(0, Return)], At(Ready), config);
      steps := steps + [Do(0, Return)];
      meta := meta.(lastReclaimedAt := Some(now));
    }

    method Claim() returns (items: seq<Item>, ghost steps: seq<Step>)
      modifies this`pending, this`processing, this`meta
      ensures |items| == Min(config.batchSize, |old(pending)|)
      ensures items == old(pending)[..|items|] && pending == old(pending)[|items|..]
      ensures processing == old(processing) + Leases(items, now + config.leaseSeconds)
      ensures meta == if items == [] then old(meta) else old(meta).(lastClaimedAt := Some(now))
      ensures Leads(old(At(Ready)), steps, At(if items == [] then Idle else Working(items)), config)
    {
      ghost var s := At(Ready);
      var limit := Min(config.batchSize, |pending|);
      items := pending[..limit];
      pending := pending[limit..];
      if items == [] {
        steps := [Do(0, Pop)];
        assert Leads(s, steps, At(Idle), config) by {
          EmptyClaimPath(s, config);
        }
        assert Leases(items, now + config.leaseSeconds) == map[];
        return;
      }
      processing := processing + Leases(items, now + config.leaseSeconds);
      meta := meta.(lastClaimedAt := Some(now));
      steps := [Do(0, Pop), Do(0, Lease(now))];
      assert Leads(s, steps, At(Working(items)), config) by {
        ClaimPath(s, items, At(Working(items)), config);
      }
    }

    /** `mark_done` of the item the worker has in hand. */
    method MarkDone(item: Item, result: Option<string>, ghost rest: seq<Item>) returns (ghost steps: seq<Step>)
      modifies this`processing, this`done, this`retries, this`results, this`completions
      ensures Leads(old(At(Working([item] + rest))), steps, At(Working(rest)), config)
      ensures done == old(done) + {item} && processing == old(processing) - {item}
      ensures retries == old(retries) - {item} && completions == old(completions) + 1
      ensures results == if result.None? then old(results) else old(results)[item := result.value]
    {
      ghost var s := At(Working([item] + rest));
      processing := processing - {item};
      done := done + {item};
      completions := completions + 1;
      retries := retries - {item};
      if result.Some? {
        results := results[item := result.value];
      }
      steps := SUCCESS;
      SuccessPath(s, item, rest, At(Working(rest)), config);
    }

    method MarkFailed(item: Item, error: string, ghost rest: seq<Item>)
      returns (verdict: Verdict, ghost steps: seq<Step>)
      modifies this`pending, this`processing, this`failed, this`retries, this`errors, this`completions
      ensures Leads(old(At(Working([item] + rest))), steps, At(Working(rest)), config)
      ensures completions == old(completions) + 1 && processing == old(processing) - {item}
      ensures retries == old(retries)[item := TriesIn(old(Notes()), item) + 1]
      ensures errors == old(errors)[item := error]
      ensures verdict == if retries[item] >= config.maxRetries then Failed else Retry
      ensures if verdict.Failed? then failed == old(failed) + {item} && pending == old(pending)
              else pending == old(pending) + [item] && failed == old(failed)
    {
      ghost var s := At(Working([item] + rest));
      processing := processing - {item};
      var count := (if item in retries then retries[item] else 0) + 1;
      retries := retries[item := count];
      completions := completions + 1;
      errors := errors[item := error];
      if count >= config.maxRetries {
        failed := failed + {item};
        verdict := Failed;
      } else {
        pending := pending + [item];
        verdict := Retry;
      }
      steps := FAILURE;
      FailurePath(s, item, rest, At(Working(rest)), config);
    }

    /** The handler on one item, and what its verdict leads to; None is success. */
    method CheckOne(item: Item, call: Call, ghost rest: seq<Item>)
      returns (outcome: Option<Verdict>, ghost steps: seq<Step>)
      modifies this
      ensures Leads(old(At(Working([item] + rest))), steps, At(Working(rest)), config)
      ensures completions == old(completions) + 1 && Moved(old(Held()), Held(), item, outcome)
      ensures outcome == OutcomeOf(old(Notes()), item, call, config.maxRetries)
      ensures Notes() == Entered(old(Notes()), item, call)
      ensures meta == old(meta) && current == old(current)
    {
      ghost var before := At(Working([item] + rest));
      var duration: nat :| true;
      now := now + duration;
      ghost var handled := At(Working([item] + rest));
      OneStep(before, Tick(duration), handled, config);
      ghost var marking;
      match call {
        case Returns(result) =>
          marking := MarkDone(item, result, rest);
          outcome := None;
        case Raises(error) =>
          var verdict;
          verdict, marking := MarkFailed(item, error, rest);
          outcome := Some(verdict);
      }
      LeadsOn(before, [Tick(duration)], handled, marking, At(Working(rest)), config);
      steps := [Tick(duration)] + marking;
    }

    /** One turn of the loop. */
    method CheckNext(items: seq<Item>, calls: seq<Call>, i: nat, ghost start: State, ghost path: seq<Step>,
                     ghost a: Shelves, ghost book: Book, ghost h: Handled)
      returns (outcome: Option<Verdict>, ghost longer: seq<Step>)
      requires i < |items| == |calls| && Leads(start, path, At(Working(items[i..])), config)
      requires AllMoved(a, Held(), h, items[..i])
      requires CallsObeyed(book, Notes(), items[..i], calls[..i], h, config)
      modifies this
      ensures Leads(start, longer, At(Working(items[i + 1..])), config)
      ensures AllMoved(a, Held(), Noted(h, items[i], outcome), items[..i + 1])
      ensures CallsObeyed(book, Notes(), items[..i + 1], calls[..i + 1], Noted(h, items[i], outcome), config)
      ensures completions == old(completions) + 1 && meta == old(meta) && current == old(current)
    {
      assert items[i..] == [items[i]] + items[i + 1..];
      ghost var before, b := At(Working(items[i..])), Held();
      ghost var more;
      outcome, more := CheckOne(items[i], calls[i], items[i + 1..]);
      OneMoreMoved(a, b, Held(), h, items, i, outcome);
      OneMoreFate(book, items, calls, config.maxRetries, i);
      LeadsOn(start, path, before, more, At(Working(items[i + 1..])), config);
      longer := path + more;
    }

    /** The loop over the claimed items: each is handled once, and goes where the end of its
        handler's call says. */
    method CheckItems(items: seq<Item>, calls: seq<Call>)
      returns (ok: nat, retry: nat, failures: nat, ghost h: Handled, ghost steps: seq<Step>)
      requires |calls| == |items|
      modifies this
      ensures Leads(old(At(Working(items))), steps, At(Idle), config)
      ensures AllMoved(old(Held()), Held(), h, items) && completions == old(completions) + |items|
      ensures CallsObeyed(old(Notes()), Notes(), items, calls, h, config)
      ensures ok == |h.done| && retry == |h.retried| && failures == |h.failed|
      ensures meta == old(meta) && current == old(current)
    {
      ghost var s, a, book := At(Working(items)), Held(), Notes();
      ok, retry, failures, h, steps := 0, 0, 0, Handled([], [], []), [];
      assert processing - SetOf([]) == processing && items[0..] == items;
      for i := 0 to |items|
        invariant Leads(s, steps, At(Working(items[i..])), config)
        invariant AllMoved(a, Held(), h, items[..i]) && completions == old(completions) + i
        invariant CallsObeyed(book, Notes(), items[..i], calls[..i], h, config)
        invariant ok == |h.done| && retry == |h.retried| && failures == |h.failed|
        invariant meta == old(meta) && current == old(current)
      {
        var outcome;
        outcome, steps := CheckNext(items, calls, i, s, steps, a, book, h);
        match outcome {
          case None => ok := ok + 1;
          case Some(Failed) => failures := failures + 1;
          case Some(Retry) => retry := retry + 1;
        }
        h := Noted(h, items[i], outcome);
      }
      assert items[|items|..] == [] && items[..|items|] == items && calls[..|items|] == calls;
      ThenFinish(s, steps, At(Working([])), At(Idle), config);
      steps := steps + [Do(0, Finish)];
    }

    /** Reclaim and claim: every expired lease goes back to pending, then the first pending items
        are leased. */
    method TakeBatch() returns (reclaimed: nat, items: seq<Item>, ghost expired: seq<Item>, ghost steps: seq<Step>)
      modifies this`pending, this`processing, this`meta
      ensures Leads(old(At(Idle)), steps, At(if items == [] then Idle else Working(items)), config)
      ensures ExpiredIn(old(processing), expired, now) && reclaimed == |expired|
      ensures |items| == Min(config.batchSize, |old(pending) + expired|)
      ensures items == (old(pending) + expired)[..|items|] && pending == (old(pending) + expired)[|items|..]
      ensures forall x :: x in processing <==> (x in old(processing) && x !in expired) || x in items
      ensures Notes() == old(Notes())
    {
      ghost var s := At(Idle);
      ghost var reclaiming;
      reclaimed, expired, reclaiming := ReclaimExpired();
      ghost var mid := At(Ready);
      ghost var claiming;
      items, claiming := Claim();
      LeadsOn(s, reclaiming, mid, claiming, At(if items == [] then Idle else Working(items)), config);
      steps := reclaiming + claiming;
    }

    /** The claimed items, if there are any. */
    method HandleBatch(items: seq<Item>, calls: seq<Call>)
      returns (ok: nat, retry: nat, failures: nat, ghost h: Handled, ghost steps: seq<Step>)
      requires |calls| == |items|
      modifies this
      ensures Leads(old(At(if items == [] then Idle else Working(items))), steps, At(Idle), config)
      ensures AllMoved(old(Held()), Held(), h, items) && completions == old(completions) + |items|
      ensures CallsObeyed(old(Notes()), Notes(), items, calls, h, config)
      ensures ok == |h.done| && retry == |h.retried| && failures == |h.failed|
    {
      if items != [] {
        ok, retry, failures, h, steps := CheckItems(items, calls);
      } else {
        ok, retry, failures, h, steps := 0, 0, 0, Handled([], [], []), [];
        assert processing - SetOf([]) == processing;
      }
    }

    /** The chunk on one generation. */
    method RunGeneration(calls: seq<Call>)
      returns (r: Summary, ghost expired: seq<Item>, ghost h: Handled, ghost steps: seq<Step>)
      requires |calls| >= config.batchSize
      modifies this
      ensures Leads(old(At(Idle)), steps, At(Idle), config)
      ensures ExpiredIn(old(processing), expired, old(now))
      ensures ChunkDone(old(Held()), Held(), expired, h, r, config)
      ensures CallsObeyed(old(Notes()), Notes(), (old(pending) + expired)[..r.claimed], calls[..r.claimed], h, config)
      ensures completions == old(completions) + r.claimed
    {
      ghost var s, a := At(Idle), Held();
      var reclaimed, items;
      ghost var taking, checking;
      reclaimed, items, expired, taking := TakeBatch();
      ghost var held, b := At(if items == [] then Idle else Working(items)), Held();
      var ok, retry, failures;
      ok, retry, failures, h, checking := HandleBatch(items, calls[..|items|]);
      LeadsOn(s, taking, held, checking, At(Idle), config);
      steps := taking + checking;
      r := Summary(|items|, ok, retry, failures, reclaimed, |pending| + |processing|);
      ChunkAddsUp(a, b, Held(), expired, items, h, r, config);
    }

    /** One hourly chunk on the generation asked for or, if none was and it is wanted, on the
        current one; with neither nothing is touched. Every expired lease goes back to pending
        first, then the first `batch_size` pending items are claimed, and each is handled once;
        `calls` are the ends of the handler's calls, and their durations are arbitrary. */
    method RunCheckChunk(asked: Option<string>, useCurrent: bool, calls: seq<Call>)
      returns (r: Summary, ghost expired: seq<Item>, ghost h: Handled, ghost steps: seq<Step>)
      requires |calls| >= config.batchSize
      modifies this
      ensures Leads(old(At(Idle)), steps, At(Idle), config)
      ensures asked.None? && !(useCurrent && old(current).Some?) ==>
                old(At(Idle)) == At(Idle) && Notes() == old(Notes()) && r == Summary(0, 0, 0, 0, 0, 0)
      ensures asked.Some? || (useCurrent && old(current).Some?) ==>
                && ExpiredIn(old(processing), expired, old(now))
                && ChunkDone(old(Held()), Held(), expired, h, r, config)
                && CallsObeyed(old(Notes()), Notes(), (old(pending) + expired)[..r.claimed], calls[..r.claimed], h,
                               config)
                && completions == old(completions) + r.claimed
    {
      steps, expired, h := [], [], Handled([], [], []);
      var generation := if asked.None? && useCurrent then current else asked;
      if generation.None? {
        return Summary(0, 0, 0, 0, 0, 0), expired, h, steps;
      }
      r, expired, h, steps := RunGeneration(calls);
    }
  }

  /** Each claimed item has the fate of its call, and that is what the hashes tell. */
  ghost predicate CallsObeyed(book: Book, after: Book, items: seq<Item>, calls: seq<Call>, h: Handled, c: Config)
    requires |items| == |calls|
  {
    h == Fates(book, items, calls, c.maxRetries) && after == BookAfter(book, items, calls)
  }

  /** What a chunk has done to the structures, and what its summary says of it. */
  ghost predicate ChunkDone(a: Shelves, b: Shelves, expired: seq<Item>, h: Handled, r: Summary, c: Config) {
    var queue := a.pending + expired;
    && r.reclaimed == |expired|
    && r.claimed == Min(c.batchSize, |queue|)
    && HandlesAll(h, queue[..r.claimed])
    && b.pending == queue[r.claimed..] + h.retried
    && b.done == a.done + SetOf(h.done) && b.failed == a.failed + SetOf(h.failed)
    && (forall x :: x in b.processing <==> x in a.processing && x !in expired && x !in queue[..r.claimed])
    && r.ok == |h.done| && r.retry == |h.retried| && r.failed == |h.failed|
    && r.ok + r.retry + r.failed == r.claimed
    && r.remaining == |b.pending| + |b.processing|
  }

  lemma HandledCount(h: Handled, items: seq<Item>)
    requires HandlesAll(h, items)
    ensures |h.done| + |h.retried| + |h.failed| == |items|
  {
    assert |multiset(h.done) + multiset(h.retried) + multiset(h.failed)| == |multiset(items)|;
    assert |multiset(h.done)| == |h.done| && |multiset(h.retried)| == |h.retried| && |multiset(h.failed)| == |h.failed|;
    assert |multiset(items)| == |items|;
  }

  lemma ChunkAddsUp(a: Shelves, b: Shelves, d: Shelves, expired: seq<Item>, items: seq<Item>, h: Handled, r: Summary,
                    c: Config)
    requires |items| == Min(c.batchSize, |a.pending + expired|)
    requires items == (a.pending + expired)[..|items|] && b.pending == (a.pending + expired)[|items|..]
    requires forall x :: x in b.processing <==> (x in a.processing && x !in expired) || x in items
    requires b.done == a.done && b.failed == a.failed && AllMoved(b, d, h, items)
    requires r == Summary(|items|, |h.done|, |h.retried|, |h.failed|, |expired|, |d.pending| + |d.processing|)
    ensures ChunkDone(a, d, expired, h, r, c)
  {
    HandledCount(h, items);
  }

  /** ZRANGEBYSCORE 0 .. now. */
  method Expired(processing: map<Item, nat>, now: nat) returns (expired: seq<Item>)
    ensures ExpiredIn(processing, expired, now)
  {
    var rest := set x | x in processing && processing[x] <= now;
    var found := [];
    while rest != {}
      invariant Distinct(found) && forall x :: x in found ==> x !in rest
      invariant forall x :: x in found || x in rest <==> x in processing && processing[x] <= now
      decreases |rest|
    {
      var x :| x in rest;
      rest := rest - {x};
      found := found + [x];
    }
    expired := SortBy(found, x => Deadline(processing, x));
    SortBySorts(found, x => Deadline(processing, x));
    SameMembers(found, expired);
  }
}
