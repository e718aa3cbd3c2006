/** The overlap bound of the row sweep is sharp: below it a churn exists that hides a row. */
module SweepTightness {
  import opened SweepArithmetic
  import opened RowSweep
  import opened Sequences

  function Fresh(next: int, count: nat): (s: seq<int>)
    ensures |s| == count
  {
    seq(count, y => next + y)
  }

  /** A gap that trims one end of the frame and appends fresh rows. */
  function EndChurn(f: seq<int>, next: int, front: bool, deletes: nat, inserts: nat): seq<int> {
    (if |f| < deletes then [] else if front then f[deletes..] else f[..|f| - deletes]) + Fresh(next, inserts)
  }

  /** Rows in the frame of run `j`. */
  function Rows(j: nat, rows: int, deletes: nat, inserts: nat): int {
    rows - j * (deletes - inserts)
  }

  function NextId(j: nat, rows: nat, inserts: nat): int {
    rows + j * inserts
  }

  /** Run `j`'s frame: the gap before run `k` trims the front, every other one the end. */
  function Hidden(j: nat, k: nat, rows: nat, deletes: nat, inserts: nat): seq<int> {
    if j == 0 then Fresh(0, rows)
    else EndChurn(Hidden(j - 1, k, rows, deletes, inserts), NextId(j - 1, rows, inserts), j == k, deletes, inserts)
  }

  lemma SmallModulo(a: nat, b: nat)
    requires a < b
    ensures a % b == a
  {
  }

  lemma {:induction false} DropFront(s: seq<int>, d: nat)
    requires d <= |s|
    ensures DeleteAll(s, seq(d, _ => 0)) == s[d..]
  {
    if d > 0 {
      var draws: seq<nat> := seq(d, _ => 0);
      SmallModulo(0, |s|);
      assert draws[1..] == seq(d - 1, _ => 0);
      assert RemoveAt(s, 0) == s[1..];
      DropFront(s[1..], d - 1);
      assert s[1..][d - 1..] == s[d..];
    }
  }

  function LastIndices(n: nat, d: nat): (s: seq<nat>)
    requires d <= n
    ensures |s| == d
  {
    if d == 0 then [] else [n - 1] + LastIndices(n - 1, d - 1)
  }

  lemma DropLast(s: seq<int>, d: nat)
    requires 1 <= d <= |s|
    ensures DeleteAll(s, LastIndices(|s|, d)) == DeleteAll(s[..|s| - 1], LastIndices(|s| - 1, d - 1))
  {
    SmallModulo(|s| - 1, |s|);
    assert RemoveAt(s, |s| - 1) == s[..|s| - 1];
    assert LastIndices(|s|, d)[1..] == LastIndices(|s| - 1, d - 1);
  }

  lemma {:induction false} DropBack(s: seq<int>, d: nat)
    requires d <= |s|
    ensures DeleteAll(s, LastIndices(|s|, d)) == s[..|s| - d]
  {
    if d > 0 {
      DropLast(s, d);
      DropBack(s[..|s| - 1], d - 1);
      assert s[..|s| - 1][..|s| - d] == s[..|s| - d];
    }
  }

  function NextIndices(n: nat, i: nat): (s: seq<nat>)
    ensures |s| == i
    decreases i
  {
    if i == 0 then [] else [n] + NextIndices(n + 1, i - 1)
  }

  lemma {:induction false} AppendAll(s: seq<int>, next: int, i: nat)
    ensures InsertAll(s, next, NextIndices(|s|, i)) == s + Fresh(next, i)
    decreases i
  {
    if i > 0 {
      SmallModulo(|s|, |s| + 1);
      assert InsertAt(s, |s|, next) == s + [next];
      assert NextIndices(|s|, i)[1..] == NextIndices(|s| + 1, i - 1);
      AppendAll(s + [next], next + 1, i - 1);
      assert [next] + Fresh(next + 1, i - 1) == Fresh(next, i);
    } else {
      assert s + Fresh(next, 0) == s;
    }
  }

  lemma EndChurnIsChurn(f: seq<int>, next: int, front: bool, deletes: nat, inserts: nat)
    requires deletes <= |f| && Below(f, next)
    ensures var g := EndChurn(f, next, front, deletes, inserts);
      && Churned(f, g, deletes, inserts)
      && |g| == |f| - deletes + inserts
      && Below(g, next + inserts)
      && forall p :: 0 <= p < |f| - deletes ==> g[p] == if front then f[p + deletes] else f[p]
  {
    var kept := if front then f[deletes..] else f[..|f| - deletes];
    var dels: seq<nat> := if front then seq(deletes, _ => 0) else LastIndices(|f|, deletes);
    DropFront(f, deletes);
    DropBack(f, deletes);
    AppendAll(kept, next, inserts);
    assert ChurnedBy(f, kept + Fresh(next, inserts), next, dels, NextIndices(|kept|, inserts));
  }

  lemma OneGap(j: nat, rows: nat, deletes: nat, inserts: nat)
    ensures Rows(j + 1, rows, deletes, inserts) == Rows(j, rows, deletes, inserts) - deletes + inserts
    ensures NextId(j + 1, rows, inserts) == NextId(j, rows, inserts) + inserts
    ensures Rows(0, rows, deletes, inserts) == rows == NextId(0, rows, inserts)
  {
  }

  /** The frame of run `j`: its length, its ids, and where row `p` stands. */
  ghost predicate FrameIs(f: seq<int>, j: nat, k: nat, rows: nat, deletes: nat, inserts: nat, p: nat)
    requires deletes <= p
  {
    && |f| == Rows(j, rows, deletes, inserts) > p
    && Below(f, NextId(j, rows, inserts))
    && (if j < k then f[p] == p else f[p - deletes] == p)
  }

  lemma FrameSteps(f: seq<int>, j: nat, k: nat, rows: nat, deletes: nat, inserts: nat, p: nat)
    requires deletes <= p && FrameIs(f, j, k, rows, deletes, inserts, p)
    requires Rows(j, rows, deletes, inserts) > p + deletes && Rows(j + 1, rows, deletes, inserts) > p
    ensures var g := EndChurn(f, NextId(j, rows, inserts), j + 1 == k, deletes, inserts);
      FrameIs(g, j + 1, k, rows, deletes, inserts, p) && Churned(f, g, deletes, inserts)
  {
    OneGap(j, rows, deletes, inserts);
    EndChurnIsChurn(f, NextId(j, rows, inserts), j + 1 == k, deletes, inserts);
  }

  lemma FirstFrame(k: nat, rows: nat, deletes: nat, inserts: nat, p: nat)
    requires deletes <= p < rows && k > 0
    ensures FrameIs(Fresh(0, rows), 0, k, rows, deletes, inserts, p)
  {
    OneGap(0, rows, deletes, inserts);
  }

  lemma {:induction false} HiddenFrame(j: nat, k: nat, rows: nat, deletes: nat, inserts: nat, p: nat)
    requires deletes <= p && k > 0
    requires forall r :: 0 <= r <= j ==> Rows(r, rows, deletes, inserts) > p + deletes
    ensures var f := Hidden(j, k, rows, deletes, inserts);
      && FrameIs(f, j, k, rows, deletes, inserts, p)
      && (j > 0 ==> Churned(Hidden(j - 1, k, rows, deletes, inserts), f, deletes, inserts))
  {
    assert Rows(j, rows, deletes, inserts) > p + deletes;
    if j > 0 {
      assert Rows(j - 1, rows, deletes, inserts) > p + deletes;
      HiddenFrame(j - 1, k, rows, deletes, inserts, p);
      FrameSteps(Hidden(j - 1, k, rows, deletes, inserts), j - 1, k, rows, deletes, inserts, p);
    } else {
      FirstFrame(k, rows, deletes, inserts, p);
    }
  }

  function HiddenSweep(slots: nat, k: nat, rows: nat, deletes: nat, inserts: nat): (frames: seq<seq<int>>)
    ensures |frames| == slots && forall j :: 0 <= j < slots ==> frames[j] == Hidden(j, k, rows, deletes, inserts)
  {
    seq(slots, j requires j >= 0 => Hidden(j, k, rows, deletes, inserts))
  }

  lemma TimesGrows(a: int, b: int, x: int, y: int)
    requires 0 <= a <= b && 0 <= x <= y
    ensures a * x <= b * y
  {
  }

  /** Row `p` is right of every slot before gap `k` and left of every later one. */
  predicate OutOfReach(p: int, n: int, j: nat, k: nat, slots: nat, overlap: nat, deletes: nat)
    requires slots >= 1
  {
    && deletes <= p && n > p + deletes
    && if j < k then p >= Boundary(j + 1, n, slots) + overlap
       else p - deletes < Boundary(j, n, slots) - overlap
  }

  lemma ShareOfRows(m: nat, slots: nat)
    requires slots >= 1
    ensures 0 <= m / slots <= m
  {
    TimesGrows(1, slots, m, m);
    FloorMonotone(0, m, slots);
    FloorMonotone(m, m * slots, slots);
    FloorOfMultiple(0, m, slots);
  }

  lemma ShrinkingBefore(slots: nat, t: nat, m: nat)
    requires slots >= 2
    ensures Boundary(1, slots * t + m, slots) == t + Boundary(1, m, slots) && slots * t >= 2 * t
  {
    assert slots * t + m == m + t * slots;
    FloorOfMultiple(m, t, slots);
    TimesGrows(2, slots, t, t);
  }

  lemma ShrinkingAfter(slots: nat, t: nat, m: nat, j: nat)
    requires 1 <= j < slots && m <= t
    ensures slots * t - (j - 1) * m >= 2 * t
    ensures Boundary(j, slots * t - (j - 1) * m, slots) >= t
  {
    TimesGrows(j - 1, slots - 2, m, t);
    assert slots * t == (slots - 2) * t + 2 * t;
    var n := slots * t - (j - 1) * m;
    ShrinkingProduct(slots, t, m, j);
    FloorMonotone(t * slots, j * n, slots);
    FloorOfMultiple(0, t, slots);
  }

  lemma ShrinkingProduct(slots: nat, t: nat, m: nat, j: nat)
    requires 1 <= j < slots && m <= t
    ensures j * (slots * t - (j - 1) * m) >= t * slots
  {
    var a, b := slots * t, j * m;
    TimesGrows(j, slots, m, t);
    TimesGrows(j - 1, j - 1, b, a);
    assert j * a == a + (j - 1) * a;
    assert j * ((j - 1) * m) == (j - 1) * b;
    assert j * (a - (j - 1) * m) == j * a - j * ((j - 1) * m);
  }

  lemma ShrinkingHides(slots: nat, t: nat, overlap: nat, deletes: nat, inserts: nat, j: nat, n: int, p: int)
    requires slots >= 2 && 2 * overlap < Need(inserts, deletes, slots)
    requires deletes >= inserts && t >= overlap + 2 * deletes + 1 && j < slots
    requires n == slots * t - (j - 1) * (deletes - inserts)
    requires p == t + Boundary(1, deletes - inserts, slots) + overlap
    ensures OutOfReach(p, n, j, 1, slots, overlap, deletes)
  {
    var m := deletes - inserts;
    BoundaryShift(1, deletes, inserts, slots);
    ShareOfRows(m, slots);
    if j == 0 {
      ShrinkingBefore(slots, t, m);
    } else {
      ShrinkingAfter(slots, t, m, j);
    }
  }

  lemma GrowingBoundary(k: nat, e: nat, t: nat, slots: nat)
    requires k == slots - 1 && slots >= 2
    ensures -(e as int) <= Boundary(k, -(e as int), slots) <= 0
    ensures Boundary(k, slots * t - e, slots) == k * t + Boundary(k, -(e as int), slots)
    ensures Boundary(k, slots * t, slots) == k * t >= t
  {
    TimesGrows(1, k, t, t);
    var m: int := 0 - e;
    assert k * m == e + m * slots;
    FloorOfMultiple(e, m, slots);
    ShareOfRows(e, slots);
    assert k * (slots * t - e) == k * m + (k * t) * slots;
    FloorOfMultiple(k * m, k * t, slots);
    assert k * (slots * t) == 0 + (k * t) * slots;
    FloorOfMultiple(0, k * t, slots);
  }

  lemma GrowingRoom(slots: nat, t: nat, e: nat, j: nat)
    requires slots >= 2 && j < slots && t >= slots * e
    ensures var n := slots * t - (slots - 1 - j) * e;
      && n >= (slots - 1) * t + t - slots * e >= t
      && (j < slots - 1 ==> n <= slots * t - e)
  {
    TimesGrows(slots - 1 - j, slots, e, e);
    assert slots * t == (slots - 1) * t + t;
    TimesGrows(1, slots - 1, t, t);
    if j < slots - 1 {
      TimesGrows(1, slots - 1 - j, e, e);
    }
  }

  /** The facts about `GrowingHides` that need products, as plain numbers. */
  lemma GrowingNumbers(slots: nat, t: nat, e: nat, j: nat, n: int, base: int, b: int)
    requires slots >= 2 && j < slots && t >= slots * e
    requires n == slots * t - (slots - 1 - j) * e && base == (slots - 1) * t && b == Boundary(slots - 1, 0 - e, slots)
    ensures t <= base && base + t - slots * e <= n && t <= n && -(e as int) <= b <= 0
    ensures j < slots - 1 ==> Boundary(j + 1, n, slots) <= base + b
    ensures j == slots - 1 ==> Boundary(j, n, slots) == base
  {
    GrowingBoundary(slots - 1, e, t, slots);
    GrowingRoom(slots, t, e, j);
    if j < slots - 1 {
      GrowingBefore(j, slots - 1, n, slots * t - e, slots);
    } else {
      assert n == slots * t;
    }
  }

  lemma GrowingHides(slots: nat, t: nat, overlap: nat, deletes: nat, inserts: nat, j: nat, n: int, p: int)
    requires slots >= 2 && 2 * overlap < Need(inserts, deletes, slots)
    requires deletes < inserts && t >= overlap + deletes + slots * (inserts - deletes) + 1 && j < slots
    requires t >= inserts
    requires n == slots * t - (slots - 1 - j) * (inserts - deletes)
    requires p == (slots - 1) * t + Boundary(slots - 1, deletes - inserts, slots) + overlap
    ensures OutOfReach(p, n, j, slots - 1, slots, overlap, deletes)
  {
    var base, b := (slots - 1) * t, Boundary(slots - 1, deletes - inserts, slots);
    GrowingNumbers(slots, t, inserts - deletes, j, n, base, b);
    assert deletes - b == Need(inserts, deletes, slots) by {
      BoundaryShift(slots - 1, deletes, inserts, slots);
    }
  }

  lemma GrowingBefore(j: nat, k: nat, n: int, last: int, slots: nat)
    requires j < k < slots && 0 <= n <= last
    ensures Boundary(j + 1, n, slots) <= Boundary(k, last, slots)
  {
    TimesGrows(j + 1, k, n, last);
    FloorMonotone((j + 1) * n, k * last, slots);
  }

  lemma RowsByRun(j: int, k: int, m: int, whole: int)
    ensures whole + k * m - j * m == whole - (j - k) * m == whole - (k - j) * -m
  {
  }

  /** Where row `x` is hidden: run `k` sees `slots * t` rows. */
  lemma HidingPlace(slots: nat, overlap: nat, deletes: nat, inserts: nat) returns (k: nat, rows: nat, x: nat)
    requires slots >= 1 && !Enough(slots, overlap, deletes, inserts)
    ensures k > 0 && deletes <= x
    ensures forall j :: 0 <= j < slots ==>
      OutOfReach(x, Rows(j, rows, deletes, inserts), j, k, slots, overlap, deletes)
  {
    var m := deletes - inserts;
    k := if deletes >= inserts then 1 else slots - 1;
    var t := overlap + 2 * deletes + inserts + slots * Abs(m) + 1;
    TimesGrows(0, slots, 0, Abs(m));
    var n, p := slots * t + k * m, k * t + Boundary(k, m, slots) + overlap;
    forall j | 0 <= j < slots
      ensures OutOfReach(p, Rows(j, n, deletes, inserts), j, k, slots, overlap, deletes)
    {
      RowsByRun(j, k, m, slots * t);
      if deletes >= inserts {
        ShrinkingHides(slots, t, overlap, deletes, inserts, j, Rows(j, n, deletes, inserts), p);
      } else {
        GrowingHides(slots, t, overlap, deletes, inserts, j, Rows(j, n, deletes, inserts), p);
      }
    }
    assert OutOfReach(p, Rows(0, n, deletes, inserts), 0, k, slots, overlap, deletes);
    rows, x := n, p;
  }

  /** Where the bound fails, this churn hides a row from the whole sweep. */
  lemma TooLittleHides(slots: nat, overlap: nat, deletes: nat, inserts: nat) returns (frames: seq<seq<int>>, x: int)
    requires slots >= 1 && !Enough(slots, overlap, deletes, inserts)
    ensures |frames| == slots && Churning(frames, deletes, inserts) && Present(frames, x)
    ensures !Swept(frames, slots, overlap, x)
  {
    var k, rows, p := HidingPlace(slots, overlap, deletes, inserts);
    x := p;
    frames := HiddenSweep(slots, k, rows, deletes, inserts);
    forall j | 0 <= j < slots
      ensures x in frames[j] && Distinct(frames[j]) && x !in Slice(frames[j], j, slots, overlap)
    {
      HiddenUnseen(j, k, rows, slots, overlap, deletes, inserts, p);
    }
    forall j | 0 < j < slots
      ensures Churned(frames[j - 1], frames[j], deletes, inserts)
    {
      HiddenUnseen(j, k, rows, slots, overlap, deletes, inserts, p);
    }
  }

  lemma HiddenUnseen(j: nat, k: nat, rows: nat, slots: nat, overlap: nat, deletes: nat, inserts: nat, p: nat)
    requires deletes <= p && k > 0 && j < slots
    requires forall r :: 0 <= r < slots ==>
      OutOfReach(p, Rows(r, rows, deletes, inserts), r, k, slots, overlap, deletes)
    ensures var f := Hidden(j, k, rows, deletes, inserts);
      && p in f && Distinct(f) && p !in Slice(f, j, slots, overlap)
      && (j > 0 ==> Churned(Hidden(j - 1, k, rows, deletes, inserts), f, deletes, inserts))
  {
    var f := Hidden(j, k, rows, deletes, inserts);
    forall r | 0 <= r <= j
      ensures Rows(r, rows, deletes, inserts) > p + deletes
    {
      assert OutOfReach(p, Rows(r, rows, deletes, inserts), r, k, slots, overlap, deletes);
    }
    HiddenFrame(j, k, rows, deletes, inserts, p);
    HiddenDistinct(j, k, rows, deletes, inserts, p);
    assert OutOfReach(p, |f|, j, k, slots, overlap, deletes);
    PosUnique(f, if j < k then p else p - deletes);
    SliceHolds(f, j, slots, overlap, p);
  }

  lemma {:induction false} HiddenDistinct(j: nat, k: nat, rows: nat, deletes: nat, inserts: nat, p: nat)
    requires deletes <= p && k > 0
    requires forall r :: 0 <= r <= j ==> Rows(r, rows, deletes, inserts) > p + deletes
    ensures Distinct(Hidden(j, k, rows, deletes, inserts))
  {
    if j > 0 {
      HiddenDistinct(j - 1, k, rows, deletes, inserts, p);
      HiddenFrame(j, k, rows, deletes, inserts, p);
      var _, _ := ChurnShifts(Hidden(j - 1, k, rows, deletes, inserts), Hidden(j, k, rows, deletes, inserts),
                              deletes, inserts, 0);
    }
  }

  /** The sharp coverage theorem: an aligned sweep visits every row that stays, whatever the
      churn within the limits, exactly when twice the overlap reaches `Need`; and churning by
      exactly the limits in every gap is already the worst case. */
  lemma CoverageIff(slots: nat, overlap: nat, deletes: nat, inserts: nat)
    requires slots >= 1
    ensures Covers(slots, overlap, deletes, inserts) <==> Enough(slots, overlap, deletes, inserts)
    ensures CoversExactChurn(slots, overlap, deletes, inserts) <==> Enough(slots, overlap, deletes, inserts)
  {
    if Enough(slots, overlap, deletes, inserts) {
      EnoughCovers(slots, overlap, deletes, inserts);
      forall frames: seq<seq<int>> | Churning(frames, deletes, inserts)
        ensures ChurningWithin(frames, deletes, inserts)
      {
        ExactIsWithin(frames, deletes, inserts);
      }
    } else {
      var frames, x := TooLittleHides(slots, overlap, deletes, inserts);
      ExactIsWithin(frames, deletes, inserts);
    }
  }

  /** The rule of thumb: half the larger edit count is enough, and it is needed as soon as the
      counts differ by fewer rows than there are slots. */
  lemma HalfTheLargerCount(slots: nat, overlap: nat, deletes: nat, inserts: nat)
    requires slots >= 2
    ensures 2 * overlap >= Max(inserts, deletes) ==> Covers(slots, overlap, deletes, inserts)
    ensures Abs(inserts - deletes) < slots && 2 * overlap < Max(inserts, deletes)
      ==> !Covers(slots, overlap, deletes, inserts)
  {
    CoverageIff(slots, overlap, deletes, inserts);
    FloorMonotone(0, Abs(inserts - deletes), slots);
    if Abs(inserts - deletes) < slots {
      FloorIs(Abs(inserts - deletes), slots, 0);
    }
  }

  lemma Scenario(slots: nat, overlap: nat, deletes: nat, inserts: nat, least: nat)
    requires slots >= 2 && Abs(inserts - deletes) < slots
    requires Max(inserts, deletes) == 2 * least || Max(inserts, deletes) == 2 * least - 1
    ensures Covers(slots, overlap, deletes, inserts) <==> overlap >= least
  {
    HalfTheLargerCount(slots, overlap, deletes, inserts);
  }

  /** The benchmarks' scenarios, decided for every frame and every order of edits: the overlap
      each of them needs. The default of 15 rows covers them all. */
  lemma BenchmarkScenarios(overlap: nat)
    ensures Covers(CYCLE_SLOTS, overlap, 0, 0)
    ensures Covers(CYCLE_SLOTS, overlap, 10, 10) <==> overlap >= 5
    ensures Covers(CYCLE_SLOTS, overlap, 5, 15) <==> overlap >= 8
    ensures Covers(CYCLE_SLOTS, overlap, 15, 5) <==> overlap >= 8
    ensures Covers(RUNS_PER_WEEK, overlap, 20, 20) <==> overlap >= 10
    ensures Covers(RUNS_PER_WEEK, overlap, 10, 30) <==> overlap >= 15
  {
    Scenario(CYCLE_SLOTS, overlap, 0, 0, 0);
    Scenario(CYCLE_SLOTS, overlap, 10, 10, 5);
    Scenario(CYCLE_SLOTS, overlap, 5, 15, 8);
    Scenario(CYCLE_SLOTS, overlap, 15, 5, 8);
    Scenario(RUNS_PER_WEEK, overlap, 20, 20, 10);
    Scenario(RUNS_PER_WEEK, overlap, 10, 30, 15);
  }
}
