/** Fractional slots over a drifting row count: the arithmetic behind `slot_bounds`. */
module SweepArithmetic {

  const RUNS_PER_WEEK: nat := 24 * 7
  const CYCLES_PER_WEEK: nat := 2
  const CYCLE_SLOTS: nat := RUNS_PER_WEEK / CYCLES_PER_WEEK

  function Max(a: int, b: int): int {
    if a > b then a else b
  }

  function Min(a: int, b: int): int {
    if a < b then a else b
  }

  function Abs(a: int): nat {
    if a < 0 then -a else a
  }

  /** First row of slot `k` of `slots` over `n` rows; `Boundary(k + 1, ..)` is its end. */
  function Boundary(k: int, n: int, slots: nat): int
    requires slots >= 1
  {
    k * n / slots
  }

  /** `slot_bounds`: the half-open range with its overlap margins. */
  function SlotBounds(k: nat, n: nat, slots: nat, overlap: nat): (int, int)
    requires slots >= 1
  {
    (Max(0, Boundary(k, n, slots) - overlap), Min(n, Boundary(k + 1, n, slots) + overlap))
  }

  predicate InSlot(p: nat, k: nat, n: nat, slots: nat, overlap: nat)
    requires slots >= 1
  {
    SlotBounds(k, n, slots, overlap).0 <= p < SlotBounds(k, n, slots, overlap).1
  }

  lemma FloorBounds(a: int, s: nat)
    requires s >= 1
    ensures a / s * s <= a < (a / s + 1) * s
  {
  }

  lemma TimesKeepsOrder(x: int, y: int, s: nat)
    ensures x <= y ==> x * s <= y * s
  {
  }

  /** The largest integer whose multiple stays below. */
  lemma FloorIs(a: int, s: nat, q: int)
    requires s >= 1 && q * s <= a < (q + 1) * s
    ensures a / s == q
  {
    FloorBounds(a, s);
    TimesKeepsOrder(a / s + 1, q, s);
    TimesKeepsOrder(q + 1, a / s, s);
  }

  lemma FloorMonotone(a: int, b: int, s: nat)
    requires s >= 1 && a <= b
    ensures a / s <= b / s
  {
    FloorBounds(a, s);
    FloorBounds(b, s);
    TimesKeepsOrder(b / s + 1, a / s, s);
  }

  lemma FloorOfSum(a: int, b: int, s: nat)
    requires s >= 1
    ensures a / s + b / s <= (a + b) / s <= a / s + b / s + 1
  {
    FloorBounds(a, s);
    FloorBounds(b, s);
    FloorBounds(a + b, s);
    var q := a / s + b / s;
    assert q * s == a / s * s + b / s * s;
    assert (q + 2) * s == (a / s + 1) * s + (b / s + 1) * s;
    TimesKeepsOrder((a + b) / s + 1, q, s);
    TimesKeepsOrder(q + 2, (a + b) / s, s);
  }

  lemma FloorOfMultiple(a: int, t: int, s: nat)
    requires s >= 1
    ensures (a + t * s) / s == a / s + t
  {
    FloorBounds(a, s);
    assert (a / s + t) * s == a / s * s + t * s;
    assert (a / s + t + 1) * s == (a / s + 1) * s + t * s;
    FloorIs(a + t * s, s, a / s + t);
  }

  lemma BoundaryGrows(j: nat, k: nat, n: nat, slots: nat)
    requires slots >= 1 && j <= k
    ensures Boundary(j, n, slots) <= Boundary(k, n, slots)
  {
    assert k * n == j * n + (k - j) * n;
    FloorMonotone(j * n, k * n, slots);
  }

  lemma BoundaryEnds(n: nat, slots: nat)
    requires slots >= 1
    ensures Boundary(0, n, slots) == 0 && Boundary(slots, n, slots) == n
  {
    FloorOfMultiple(0, n, slots);
    assert slots * n == 0 + n * slots;
  }

  /** What twice the overlap must reach for `inserts` and `deletes` per run. */
  function Need(inserts: nat, deletes: nat, slots: nat): int
    requires slots >= 1
  {
    Max(inserts, deletes) - Abs(inserts - deletes) / slots
  }

  /** Fewer edits never need more overlap. */
  lemma NeedMonotone(i: nat, d: nat, inserts: nat, deletes: nat, slots: nat)
    requires slots >= 1 && i <= inserts && d <= deletes
    ensures Need(i, d, slots) <= Need(inserts, deletes, slots)
    decreases inserts - i + (deletes - d)
  {
    if i < inserts {
      NeedOneMore(i, d, slots);
      NeedMonotone(i + 1, d, inserts, deletes, slots);
    } else if d < deletes {
      NeedOneMore(i, d, slots);
      NeedMonotone(i, d + 1, inserts, deletes, slots);
    }
  }

  lemma NeedOneMore(i: nat, d: nat, slots: nat)
    requires slots >= 1
    ensures Need(i, d, slots) <= Need(i + 1, d, slots) && Need(i, d, slots) <= Need(i, d + 1, slots)
  {
    FloorStep(Abs(i - d), slots);
    if i != d {
      FloorStep(Abs(i - d) - 1, slots);
    }
  }

  lemma FloorStep(a: int, s: nat)
    requires s >= 1
    ensures a / s <= (a + 1) / s <= a / s + 1
  {
    FloorMonotone(a, a + 1, s);
    FloorOfSum(a, 1, s);
    if s == 1 {
      assert (a + 1) / 1 == a + 1 && a / 1 == a;
    } else {
      FloorIs(1, s, 0);
    }
  }

  lemma ShrinkShift(k: nat, m: nat, slots: nat)
    requires 1 <= k < slots
    ensures Boundary(k, m, slots) >= m / slots
    ensures Boundary(1, m, slots) == m / slots
  {
    TimesKeepsOrder(1, k, m);
    FloorMonotone(m, k * m, slots);
  }

  lemma GrowShift(k: nat, e: nat, slots: nat)
    requires 1 <= k < slots
    ensures Boundary(k, 0 - e, slots) >= e / slots - e
    ensures k == slots - 1 ==> Boundary(k, 0 - e, slots) == e / slots - e
  {
    var j := slots - k;
    assert k * (0 - e) == j * e + (0 - e) * slots by {
      assert slots * (0 - e) == j * (0 - e) + k * (0 - e);
    }
    FloorOfMultiple(j * e, 0 - e, slots);
    TimesKeepsOrder(1, j, e);
    FloorMonotone(e, j * e, slots);
  }

  /** How far a boundary can run past a row while `d` rows go and `i` come. */
  lemma BoundaryShift(k: nat, d: nat, i: nat, slots: nat)
    requires 1 <= k < slots
    ensures d - Boundary(k, d - i, slots) <= Need(i, d, slots)
    ensures d >= i && k == 1 ==> d - Boundary(k, d - i, slots) == Need(i, d, slots)
    ensures d < i && k == slots - 1 ==> d - Boundary(k, d - i, slots) == Need(i, d, slots)
  {
    if d >= i {
      ShrinkShift(k, d - i, slots);
    } else {
      GrowShift(k, i - d, slots);
    }
  }

  /** A row that stays right of boundary k with its margin and is then left of it with its
      margin has been shifted by more edits than twice the overlap allows for. */
  lemma CrossingNeedsDrift(k: nat, n: nat, p: nat, n': nat, p': nat, d: nat, i: nat, slots: nat, overlap: nat)
    requires 1 <= k < slots && n' == n - d + i && p' >= p - d
    requires p >= Boundary(k, n, slots) + overlap
    requires p' < Boundary(k, n', slots) - overlap
    ensures 2 * overlap < Need(i, d, slots)
  {
    var m := d - i;
    assert k * n == k * n' + k * m;
    FloorOfSum(k * n', k * m, slots);
    BoundaryShift(k, d, i, slots);
  }
}
