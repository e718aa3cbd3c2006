/** The week of runs that the benchmarks walk: sweeps with churn in every gap. */
module SweepSimulation {
  import opened SweepArithmetic
  import opened RowSweep
  import opened Sequences

  lemma {:induction false} OneMoreDeletion(s: seq<int>, draws: seq<nat>, r: nat)
    ensures var g := DeleteAll(s, draws);
      DeleteAll(s, draws + [r]) == if g == [] then g else RemoveAt(g, r % |g|)
    decreases |draws|
  {
    if draws == [] {
      assert [r][1..] == [];
    } else {
      assert (draws + [r])[1..] == draws[1..] + [r];
      OneMoreDeletion(if s == [] then s else RemoveAt(s, draws[0] % |s|), draws[1..], r);
    }
  }

  lemma {:induction false} OneMoreInsertion(s: seq<int>, next: int, draws: seq<nat>, r: nat)
    ensures var g := InsertAll(s, next, draws);
      InsertAll(s, next, draws + [r]) == InsertAt(g, r % (|g| + 1), next + |draws|)
    decreases |draws|
  {
    if draws == [] {
      assert [r][1..] == [];
    } else {
      assert (draws + [r])[1..] == draws[1..] + [r];
      OneMoreInsertion(InsertAt(s, draws[0] % (|s| + 1), next), next + 1, draws[1..], r);
    }
  }

  method DeleteRandomly(s: seq<int>, deletes: nat) returns (g: seq<int>, ghost draws: seq<nat>)
    ensures g == DeleteAll(s, draws) && |draws| == deletes
  {
    g, draws := s, [];
    for done := 0 to deletes
      invariant g == DeleteAll(s, draws) && |draws| == done
    {
      var r: nat := *;
      OneMoreDeletion(s, draws, r);
      draws := draws + [r];
      if g != [] {
        g := RemoveAt(g, r % |g|);
      }
    }
  }

  method InsertRandomly(s: seq<int>, next: int, inserts: nat) returns (g: seq<int>, ghost draws: seq<nat>)
    ensures g == InsertAll(s, next, draws) && |draws| == inserts
  {
    g, draws := s, [];
    for done := 0 to inserts
      invariant g == InsertAll(s, next, draws) && |draws| == done
    {
      var r: nat := *;
      OneMoreInsertion(s, next, draws, r);
      draws := draws + [r];
      g := InsertAt(g, r % (|g| + 1), next + done);
    }
  }

  /** How often row `x` is handled over these runs. */
  ghost function Visits(frames: seq<seq<int>>, slots: nat, overlap: nat, x: int): nat
    requires slots >= 1
  {
    if frames == [] then 0
    else
      var last := |frames| - 1;
      Visits(frames[..last], slots, overlap, x) + multiset(Slice(frames[last], last % slots, slots, overlap))[x]
  }

  lemma {:induction false} VisitCounts(frames: seq<seq<int>>, slots: nat, overlap: nat, x: int, a: nat, r: nat)
    requires slots >= 1 && a <= r < |frames|
    requires x in Slice(frames[r], r % slots, slots, overlap)
    ensures Visits(frames, slots, overlap, x) >= Visits(frames[..a], slots, overlap, x) + 1
  {
    var last := |frames| - 1;
    if r == last {
      VisitsGrow(frames[..last], slots, overlap, x, a);
      assert frames[..last][..a] == frames[..a];
    } else {
      VisitCounts(frames[..last], slots, overlap, x, a, r);
      assert frames[..last][..a] == frames[..a];
    }
  }

  lemma {:induction false} VisitsGrow(frames: seq<seq<int>>, slots: nat, overlap: nat, x: int, a: nat)
    requires slots >= 1 && a <= |frames|
    ensures Visits(frames, slots, overlap, x) >= Visits(frames[..a], slots, overlap, x)
  {
    if a == |frames| {
      assert frames[..a] == frames;
    } else {
      var last := |frames| - 1;
      VisitsGrow(frames[..last], slots, overlap, x, a);
      assert frames[..last][..a] == frames[..a];
    }
  }

  lemma SlotOfRun(c: nat, k: nat, slots: nat)
    requires k < slots
    ensures (c * slots + k) % slots == k
  {
    FloorIs(c * slots + k, slots, c) by {
      assert (c + 1) * slots == c * slots + slots;
    }
  }

  lemma TailChurns(frames: seq<seq<int>>, deletes: nat, inserts: nat, a: nat)
    requires ChurningWithin(frames, deletes, inserts) && a < |frames|
    ensures ChurningWithin(frames[a..], deletes, inserts)
  {
    StaysDistinct(frames, deletes, inserts, a);
    forall j | 0 < j < |frames| - a
      ensures ChurnedWithin(frames[a..][j - 1], frames[a..][j], deletes, inserts)
    {
      assert ChurnedWithin(frames[a + j - 1], frames[a + j], deletes, inserts);
    }
  }

  lemma HeadChurns(frames: seq<seq<int>>, deletes: nat, inserts: nat, a: nat, x: int)
    requires ChurningWithin(frames, deletes, inserts) && Present(frames, x) && a <= |frames|
    ensures ChurningWithin(frames[..a], deletes, inserts) && Present(frames[..a], x)
  {
    forall j | 0 < j < a
      ensures ChurnedWithin(frames[..a][j - 1], frames[..a][j], deletes, inserts)
    {
      assert ChurnedWithin(frames[j - 1], frames[j], deletes, inserts);
    }
  }

  lemma TailVisits(frames: seq<seq<int>>, slots: nat, overlap: nat, deletes: nat, inserts: nat, a: nat, x: int)
    returns (k: nat)
    requires slots >= 1 && Enough(slots, overlap, deletes, inserts) && |frames| == a + slots
    requires ChurningWithin(frames, deletes, inserts) && Present(frames, x)
    ensures k < slots && x in Slice(frames[a + k], k, slots, overlap)
  {
    var sweep := frames[a..];
    TailChurns(frames, deletes, inserts, a);
    SweepVisits(sweep, slots, overlap, deletes, inserts, x);
    k :| 0 <= k < slots && x in Slice(sweep[k], k, slots, overlap);
  }

  lemma LastSweepVisits(frames: seq<seq<int>>, slots: nat, overlap: nat,
                        deletes: nat, inserts: nat, c: nat, a: nat, x: int)
    requires slots >= 1 && Enough(slots, overlap, deletes, inserts)
    requires a == c * slots && |frames| == a + slots
    requires ChurningWithin(frames, deletes, inserts) && Present(frames, x)
    ensures Visits(frames, slots, overlap, x) >= Visits(frames[..a], slots, overlap, x) + 1
  {
    var k := TailVisits(frames, slots, overlap, deletes, inserts, a, x);
    SlotOfRun(c, k, slots);
    VisitCounts(frames, slots, overlap, x, a, a + k);
  }

  lemma SweepStart(cycles: nat, slots: nat) returns (a: nat)
    requires cycles > 0
    ensures a == (cycles - 1) * slots && cycles * slots == a + slots
  {
    a := (cycles - 1) * slots;
  }

  /** Over `cycles` aligned sweeps every row that stays is handled at least `cycles` times. */
  lemma {:induction false} EveryCycleVisits(frames: seq<seq<int>>, slots: nat, overlap: nat,
                                            deletes: nat, inserts: nat, cycles: nat, x: int)
    requires slots >= 1 && Enough(slots, overlap, deletes, inserts)
    requires |frames| == cycles * slots && ChurningWithin(frames, deletes, inserts) && Present(frames, x)
    ensures Visits(frames, slots, overlap, x) >= cycles
  {
    if cycles > 0 {
      var a := SweepStart(cycles, slots);
      HeadChurns(frames, deletes, inserts, a, x);
      EveryCycleVisits(frames[..a], slots, overlap, deletes, inserts, cycles - 1, x);
      LastSweepVisits(frames, slots, overlap, deletes, inserts, cycles - 1, a, x);
    }
  }

  lemma ChurnKeepsOne(f: seq<int>, next: int, dels: seq<nat>, ins: seq<nat>, x: int)
    requires Distinct(f) && Below(f, next)
    ensures var g := InsertAll(DeleteAll(f, dels), next, ins);
      Distinct(g) && Below(g, next + |ins|) && (x in g && x < next ==> x in f)
  {
    DeleteStaysBelow(f, dels, next);
    DeleteShifts(f, dels, x);
    InsertAllShifts(DeleteAll(f, dels), next, ins, x);
  }

  /** One gap between runs. No row comes back: every id is fresh or was there before. */
  method Churn(f: seq<int>, next: int, deletes: nat, inserts: nat) returns (g: seq<int>)
    requires Distinct(f) && Below(f, next)
    ensures Churned(f, g, deletes, inserts)
    ensures Distinct(g) && Below(g, next + inserts)
    ensures forall x :: x in g && x < next ==> x in f
  {
    var h, dels := DeleteRandomly(f, deletes);
    ghost var ins;
    g, ins := InsertRandomly(h, next, inserts);
    assert ChurnedBy(f, g, next, dels, ins);
    ChurnKeepsOne(f, next, dels, ins, next);
    forall x | x in g && x < next
      ensures x in f
    {
      ChurnKeepsOne(f, next, dels, ins, x);
    }
  }

  /** The frames so far with the one now standing; rows of the first frame that are still
      there were there throughout. */
  ghost predicate Walked(frames: seq<seq<int>>, ids: seq<int>, n: nat, next: int, deletes: nat, inserts: nat) {
    && n <= next && Distinct(ids) && Below(ids, next)
    && (frames + [ids])[0] == seq(n, y => y)
    && Churning(frames + [ids], deletes, inserts)
    && forall x :: x in ids && x < n ==> Present(frames + [ids], x)
  }

  lemma WalkedOneMore(frames: seq<seq<int>>, f: seq<int>, g: seq<int>, n: nat, next: int, deletes: nat, inserts: nat)
    requires Walked(frames, f, n, next, deletes, inserts)
    requires Churned(f, g, deletes, inserts) && Distinct(g) && Below(g, next + inserts)
    requires forall x :: x in g && x < next ==> x in f
    ensures Walked(frames + [f], g, n, next + inserts, deletes, inserts)
  {
    var fs, gs := frames + [f], frames + [f] + [g];
    forall j | 0 < j < |gs|
      ensures Churned(gs[j - 1], gs[j], deletes, inserts)
    {
      if j < |fs| {
        assert gs[j] == fs[j] && gs[j - 1] == fs[j - 1];
      }
    }
    forall x | x in g && x < n
      ensures Present(gs, x)
    {
      assert Present(fs, x);
    }
  }

  /** Once the week is walked, enough overlap means no survivor was missed. */
  lemma WeekIsCovered(frames: seq<seq<int>>, ids: seq<int>, n: nat, next: int,
                      overlap: nat, inserts: nat, deletes: nat, slots: nat, cycles: nat)
    requires slots >= 1 && Walked(frames, ids, n, next, deletes, inserts) && |frames| + 1 == cycles * slots
    requires Enough(slots, overlap, deletes, inserts)
    ensures forall x :: x in ids && x < n ==> Visits(frames + [ids], slots, overlap, x) >= cycles
  {
    ExactIsWithin(frames + [ids], deletes, inserts);
    forall x | x in ids && x < n
      ensures Visits(frames + [ids], slots, overlap, x) >= cycles
    {
      EveryCycleVisits(frames + [ids], slots, overlap, deletes, inserts, cycles, x);
    }
  }

  /** How many rows each run handles. */
  ghost predicate SizesOf(sizes: seq<nat>, frames: seq<seq<int>>, slots: nat, overlap: nat)
    requires slots >= 1
  {
    |sizes| == |frames| && forall r :: 0 <= r < |frames| ==> sizes[r] == |Slice(frames[r], r % slots, slots, overlap)|
  }

  /** What the runs so far have counted. */
  ghost predicate Counted(covered: multiset<int>, sizes: seq<nat>, frames: seq<seq<int>>, slots: nat, overlap: nat)
    requires slots >= 1
  {
    SizesOf(sizes, frames, slots, overlap) && forall x :: covered[x] == Visits(frames, slots, overlap, x)
  }

  lemma CountedOneMore(covered: multiset<int>, sizes: seq<nat>, frames: seq<seq<int>>, ids: seq<int>,
                       slots: nat, overlap: nat)
    requires slots >= 1 && Counted(covered, sizes, frames, slots, overlap)
    ensures var slice := Slice(ids, |frames| % slots, slots, overlap);
      Counted(covered + multiset(slice), sizes + [|slice|], frames + [ids], slots, overlap)
  {
    assert (frames + [ids])[..|frames|] == frames;
  }

  /** The walk: `cycles` sweeps of `slots` runs, no churn after the last. */
  method WalkWeek(n: nat, overlap: nat, inserts: nat, deletes: nat, slots: nat, runs: nat)
      returns (covered: multiset<int>, sizes: seq<nat>, ids: seq<int>, ghost past: seq<seq<int>>, ghost next: int)
    requires slots >= 1 && runs >= 1
    ensures |past| + 1 == runs && Walked(past, ids, n, next, deletes, inserts)
    ensures Counted(covered, sizes, past + [ids], slots, overlap)
  {
    ids := seq(n, y => y);
    covered, sizes, past := multiset{}, [], [];
    var nextId := n;
    var run := 0;
    while true
      invariant 0 <= run < runs && |past| == run
      invariant Walked(past, ids, n, nextId, deletes, inserts)
      invariant Counted(covered, sizes, past, slots, overlap)
      decreases runs - run
    {
      BoundsFit(run % slots, |ids|, slots, overlap);
      var (lo, hi) := SlotBounds(run % slots, |ids|, slots, overlap);
      CountedOneMore(covered, sizes, past, ids, slots, overlap);
      covered, sizes := covered + multiset(ids[lo..hi]), sizes + [hi - lo];
      if run == runs - 1 {
        next := nextId;
        return;
      }
      var g := Churn(ids, nextId, deletes, inserts);
      WalkedOneMore(past, ids, g, n, nextId, deletes, inserts);
      past, ids, nextId, run := past + [ids], g, nextId + inserts, run + 1;
    }
  }

  function Least(s: seq<nat>): (m: nat)
    requires s != []
    ensures m in s && forall i :: 0 <= i < |s| ==> m <= s[i]
  {
    if |s| == 1 then s[0] else Min(s[0], Least(s[1..]))
  }

  function Greatest(s: seq<nat>): (m: nat)
    requires s != []
    ensures m in s && forall i :: 0 <= i < |s| ==> m >= s[i]
  {
    if |s| == 1 then s[0] else Max(s[0], Greatest(s[1..]))
  }

  /** Rows of the first frame that are there at the end, and rows that came in between. */
  function Originals(ids: seq<int>, n: nat): set<int> {
    set x | x in ids && x < n
  }

  function Newcomers(ids: seq<int>, n: nat): (came: set<int>)
    ensures came == (set x | x in ids) - Originals(ids, n)
  {
    set x | x in ids && x >= n
  }

  /** The fewest visits of any of these rows, 0 if there is none. */
  ghost predicate IsFewest(least: nat, rows: set<int>, covered: multiset<int>) {
    && (rows == {} ==> least == 0)
    && (rows != {} ==> exists x :: x in rows && covered[x] == least)
    && forall x :: x in rows ==> least <= covered[x]
  }

  lemma FewerVisits(least: nat, seen: set<int>, covered: multiset<int>, x: int)
    requires IsFewest(least, seen, covered)
    ensures IsFewest(if seen == {} || covered[x] < least then covered[x] else least, seen + {x}, covered)
  {
    assert x in seen + {x};
  }

  lemma OneMoreRow(ids: seq<int>, i: nat, n: nat)
    requires i < |ids|
    ensures Originals(ids[..i + 1], n) == Originals(ids[..i], n) + if ids[i] < n then {ids[i]} else {}
  {
    assert ids[..i + 1] == ids[..i] + [ids[i]];
  }

  method FewestVisits(ids: seq<int>, n: nat, covered: multiset<int>) returns (least: nat)
    ensures IsFewest(least, Originals(ids, n), covered)
  {
    least := 0;
    var none := true;
    for i := 0 to |ids|
      invariant IsFewest(least, Originals(ids[..i], n), covered)
      invariant none <==> Originals(ids[..i], n) == {}
    {
      OneMoreRow(ids, i, n);
      if ids[i] < n {
        FewerVisits(least, Originals(ids[..i], n), covered, ids[i]);
        assert ids[i] in Originals(ids[..i + 1], n);
        if none || covered[ids[i]] < least {
          least := covered[ids[i]];
        }
        none := false;
      }
    }
    assert ids[..|ids|] == ids;
  }

  datatype Report = Report(
    endLen: nat,
    minPerRun: nat,
    maxPerRun: nat,
    origSurvived: nat,
    origMissed: nat,
    origMissedPct: real,
    origMinVisits: nat,
    newSurvived: nat,
    newMissed: nat,
    newMissedPct: real)

  /** `pct` of the whole is the part. */
  predicate IsPercentage(pct: real, part: nat, whole: nat) {
    if whole == 0 then pct == 0.0 else pct * whole as real == 100.0 * part as real
  }

  function Percentage(part: nat, whole: nat): (pct: real)
    ensures IsPercentage(pct, part, whole)
  {
    if whole == 0 then 0.0 else (100 * part) as real / whole as real
  }

  ghost function Unseen(rows: set<int>, frames: seq<seq<int>>, slots: nat, overlap: nat): set<int>
    requires slots >= 1
  {
    set x | x in rows && Visits(frames, slots, overlap, x) == 0
  }

  ghost predicate SizesDescribed(r: Report, frames: seq<seq<int>>, slots: nat, overlap: nat)
    requires slots >= 1 && frames != []
  {
    exists sizes: seq<nat> :: SizesOf(sizes, frames, slots, overlap)
                              && r.minPerRun == Least(sizes) && r.maxPerRun == Greatest(sizes)
  }

  /** The least visits of any original that is still there. */
  ghost predicate MinVisitsDescribed(least: nat, rows: set<int>, frames: seq<seq<int>>, slots: nat, overlap: nat)
    requires slots >= 1
  {
    && (rows == {} ==> least == 0)
    && (rows != {} ==> exists x :: x in rows && Visits(frames, slots, overlap, x) == least)
    && forall x :: x in rows ==> least <= Visits(frames, slots, overlap, x)
  }

  /** The figures of the report, from the frames that were walked. */
  ghost predicate Describes(r: Report, frames: seq<seq<int>>, n: nat, slots: nat, overlap: nat)
    requires slots >= 1 && frames != []
  {
    var ids := frames[|frames| - 1];
    var orig, came := Originals(ids, n), Newcomers(ids, n);
    && r.endLen == |ids| && SizesDescribed(r, frames, slots, overlap)
    && r.origSurvived == |orig| && r.newSurvived == |came|
    && r.origMissed == |Unseen(orig, frames, slots, overlap)|
    && r.newMissed == |Unseen(came, frames, slots, overlap)|
    && IsPercentage(r.origMissedPct, r.origMissed, r.origSurvived)
    && IsPercentage(r.newMissedPct, r.newMissed, r.newSurvived)
    && MinVisitsDescribed(r.origMinVisits, orig, frames, slots, overlap)
  }

  function NotCovered(rows: set<int>, covered: multiset<int>): set<int> {
    set x | x in rows && covered[x] == 0
  }

  lemma NotCoveredIsUnseen(rows: set<int>, covered: multiset<int>, sizes: seq<nat>, frames: seq<seq<int>>,
                           slots: nat, overlap: nat)
    requires slots >= 1 && Counted(covered, sizes, frames, slots, overlap)
    ensures NotCovered(rows, covered) == Unseen(rows, frames, slots, overlap)
  {
  }

  lemma FewestIsDescribed(least: nat, rows: set<int>, covered: multiset<int>, sizes: seq<nat>, frames: seq<seq<int>>,
                          slots: nat, overlap: nat)
    requires slots >= 1 && Counted(covered, sizes, frames, slots, overlap) && IsFewest(least, rows, covered)
    ensures MinVisitsDescribed(least, rows, frames, slots, overlap)
  {
  }

  /** Every original seen in every sweep. */
  lemma NobodyMissed(least: nat, frames: seq<seq<int>>, n: nat, slots: nat, overlap: nat, cycles: nat)
    requires slots >= 1 && frames != [] && cycles >= 1
    requires forall x :: x in frames[|frames| - 1] && x < n ==> Visits(frames, slots, overlap, x) >= cycles
    requires MinVisitsDescribed(least, Originals(frames[|frames| - 1], n), frames, slots, overlap)
    ensures var orig := Originals(frames[|frames| - 1], n);
      Unseen(orig, frames, slots, overlap) == {} && (|orig| > 0 ==> least >= cycles)
  {
  }

  function ReportOf(covered: multiset<int>, sizes: seq<nat>, ids: seq<int>, n: nat, least: nat): Report
    requires sizes != []
  {
    var orig, came := Originals(ids, n), Newcomers(ids, n);
    var origMissed, newMissed := |NotCovered(orig, covered)|, |NotCovered(came, covered)|;
    Report(|ids|, Least(sizes), Greatest(sizes), |orig|, origMissed, Percentage(origMissed, |orig|), least,
           |came|, newMissed, Percentage(newMissed, |came|))
  }

  lemma ReportDescribes(covered: multiset<int>, sizes: seq<nat>, frames: seq<seq<int>>, n: nat, least: nat,
                        slots: nat, overlap: nat)
    requires slots >= 1 && frames != [] && Counted(covered, sizes, frames, slots, overlap)
    requires IsFewest(least, Originals(frames[|frames| - 1], n), covered)
    ensures Describes(ReportOf(covered, sizes, frames[|frames| - 1], n, least), frames, n, slots, overlap)
  {
    var ids := frames[|frames| - 1];
    var r := ReportOf(covered, sizes, ids, n, least);
    NotCoveredIsUnseen(Originals(ids, n), covered, sizes, frames, slots, overlap);
    NotCoveredIsUnseen(Newcomers(ids, n), covered, sizes, frames, slots, overlap);
    FewestIsDescribed(least, Originals(ids, n), covered, sizes, frames, slots, overlap);
    assert SizesDescribed(r, frames, slots, overlap);
  }

  /** The frames of a whole week. */
  ghost predicate WeekOf(frames: seq<seq<int>>, n: nat, inserts: nat, deletes: nat, runs: nat) {
    && |frames| == runs >= 1 && frames[0] == seq(n, y => y)
    && Churning(frames, deletes, inserts)
    && forall x :: x in Originals(frames[|frames| - 1], n) ==> Present(frames, x)
  }

  lemma WalkedIsWeek(past: seq<seq<int>>, ids: seq<int>, n: nat, next: int, inserts: nat, deletes: nat)
    requires Walked(past, ids, n, next, deletes, inserts)
    ensures WeekOf(past + [ids], n, inserts, deletes, |past| + 1)
  {
  }

  lemma NonePercent(pct: real, whole: nat)
    requires IsPercentage(pct, 0, whole)
    ensures pct == 0.0
  {
  }

  /** Figures of a week in which every original was handled in every sweep. */
  lemma FiguresAreGood(r: Report, frames: seq<seq<int>>, n: nat, slots: nat, overlap: nat, cycles: nat)
    requires slots >= 1 && cycles >= 1 && frames != [] && Describes(r, frames, n, slots, overlap)
    requires forall x :: x in frames[|frames| - 1] && x < n ==> Visits(frames, slots, overlap, x) >= cycles
    ensures r.origMissed == 0 && r.origMissedPct == 0.0 && (r.origSurvived > 0 ==> r.origMinVisits >= cycles)
  {
    NobodyMissed(r.origMinVisits, frames, n, slots, overlap, cycles);
    NonePercent(r.origMissedPct, r.origSurvived);
  }

  /** With enough overlap the figures show that no original was missed. */
  lemma WeekIsGood(r: Report, past: seq<seq<int>>, ids: seq<int>, n: nat, next: int, overlap: nat, inserts: nat,
                   deletes: nat, slots: nat, cycles: nat)
    requires slots >= 1 && cycles >= 1 && Walked(past, ids, n, next, deletes, inserts) && |past| + 1 == cycles * slots
    requires Describes(r, past + [ids], n, slots, overlap) && Enough(slots, overlap, deletes, inserts)
    ensures r.origMissed == 0 && r.origMissedPct == 0.0 && (r.origSurvived > 0 ==> r.origMinVisits >= cycles)
  {
    WeekIsCovered(past, ids, n, next, overlap, inserts, deletes, slots, cycles);
    var frames := past + [ids];
    assert frames[|frames| - 1] == ids;
    FiguresAreGood(r, frames, n, slots, overlap, cycles);
  }

  /** One week and its figures. With enough overlap no survivor is missed, and each is handled
      in every sweep. */
  method SimulateWeek(n: nat, overlap: nat, inserts: nat, deletes: nat, slots: nat, cycles: nat)
      returns (r: Report, ghost frames: seq<seq<int>>)
    requires slots >= 1 && cycles >= 1
    ensures WeekOf(frames, n, inserts, deletes, cycles * slots) && Describes(r, frames, n, slots, overlap)
    ensures Enough(slots, overlap, deletes, inserts) ==>
      r.origMissed == 0 && r.origMissedPct == 0.0 && (r.origSurvived > 0 ==> r.origMinVisits >= cycles)
  {
    TimesKeepsOrder(1, cycles, slots);
    var covered, sizes, ids, past, next := WalkWeek(n, overlap, inserts, deletes, slots, cycles * slots);
    frames := past + [ids];
    WalkedIsWeek(past, ids, n, next, inserts, deletes);
    var least := FewestVisits(ids, n, covered);
    r := ReportOf(covered, sizes, ids, n, least);
    ReportDescribes(covered, sizes, frames, n, least, slots, overlap);
    if Enough(slots, overlap, deletes, inserts) {
      WeekIsGood(r, past, ids, n, next, overlap, inserts, deletes, slots, cycles);
    }
  }
}
