/** Coverage of a row sweep while rows are deleted and inserted between its runs. */
module RowSweep {
  import opened Sequences
  import opened SweepArithmetic

  /** Where `x` stands in the frame. */
  function Pos(s: seq<int>, x: int): (p: nat)
    requires x in s
    ensures p < |s| && s[p] == x
  {
    if s[0] == x then 0 else 1 + Pos(s[1..], x)
  }

  function RemoveAt(s: seq<int>, k: nat): seq<int>
    requires k < |s|
  {
    s[..k] + s[k + 1..]
  }

  function InsertAt(s: seq<int>, k: nat, x: int): seq<int>
    requires k <= |s|
  {
    s[..k] + [x] + s[k..]
  }

  /** One deletion per draw, skipped on an empty frame. */
  function DeleteAll(s: seq<int>, draws: seq<nat>): seq<int>
    decreases |draws|
  {
    if draws == [] then s
    else DeleteAll(if s == [] then s else RemoveAt(s, draws[0] % |s|), draws[1..])
  }

  /** One insertion per draw, of the ids `next`, `next + 1`, ... */
  function InsertAll(s: seq<int>, next: int, draws: seq<nat>): seq<int>
    decreases |draws|
  {
    if draws == [] then s
    else InsertAll(InsertAt(s, draws[0] % (|s| + 1), next), next + 1, draws[1..])
  }

  predicate Below(s: seq<int>, next: int) {
    forall j :: 0 <= j < |s| ==> s[j] < next
  }

  predicate ChurnedBy(f: seq<int>, g: seq<int>, next: int, dels: seq<nat>, ins: seq<nat>) {
    Below(f, next) && g == InsertAll(DeleteAll(f, dels), next, ins)
  }

  /** The churn between two runs: deletions anywhere, then insertions of fresh ids anywhere. */
  ghost predicate Churned(f: seq<int>, g: seq<int>, deletes: nat, inserts: nat) {
    exists next, dels, ins ::
      ChurnedBy(f, g, next, dels, ins) && |dels| == deletes && |ins| == inserts
  }

  ghost predicate ChurnedWithin(f: seq<int>, g: seq<int>, deletes: nat, inserts: nat) {
    exists d: nat, i: nat :: d <= deletes && i <= inserts && Churned(f, g, d, i)
  }

  ghost predicate Churning(frames: seq<seq<int>>, deletes: nat, inserts: nat) {
    && (|frames| > 0 ==> Distinct(frames[0]))
    && forall j :: 0 < j < |frames| ==> Churned(frames[j - 1], frames[j], deletes, inserts)
  }

  ghost predicate ChurningWithin(frames: seq<seq<int>>, deletes: nat, inserts: nat) {
    && (|frames| > 0 ==> Distinct(frames[0]))
    && forall j :: 0 < j < |frames| ==> ChurnedWithin(frames[j - 1], frames[j], deletes, inserts)
  }

  predicate Present(frames: seq<seq<int>>, x: int) {
    forall j :: 0 <= j < |frames| ==> x in frames[j]
  }

  /** The rows that the run of slot `k` handles. */
  function Slice(f: seq<int>, k: nat, slots: nat, overlap: nat): seq<int>
    requires k < slots
  {
    BoundsFit(k, |f|, slots, overlap);
    f[SlotBounds(k, |f|, slots, overlap).0..SlotBounds(k, |f|, slots, overlap).1]
  }

  ghost predicate Swept(frames: seq<seq<int>>, slots: nat, overlap: nat, x: int)
    requires |frames| == slots
  {
    exists k :: 0 <= k < slots && x in Slice(frames[k], k, slots, overlap)
  }

  /** Every row present throughout an aligned sweep is visited, whatever the churn. */
  ghost predicate Covers(slots: nat, overlap: nat, deletes: nat, inserts: nat) {
    forall frames: seq<seq<int>>, x ::
      |frames| == slots && ChurningWithin(frames, deletes, inserts) && Present(frames, x)
      ==> Swept(frames, slots, overlap, x)
  }

  /** The same when each gap between runs makes exactly so many edits. */
  ghost predicate CoversExactChurn(slots: nat, overlap: nat, deletes: nat, inserts: nat) {
    forall frames: seq<seq<int>>, x ::
      |frames| == slots && Churning(frames, deletes, inserts) && Present(frames, x)
      ==> Swept(frames, slots, overlap, x)
  }

  predicate Enough(slots: nat, overlap: nat, deletes: nat, inserts: nat)
    requires slots >= 1
  {
    slots == 1 || 2 * overlap >= Need(inserts, deletes, slots)
  }

  lemma BoundsFit(k: nat, n: nat, slots: nat, overlap: nat)
    requires k < slots
    ensures var (lo, hi) := SlotBounds(k, n, slots, overlap); 0 <= lo <= hi <= n
  {
    BoundaryEnds(n, slots);
    BoundaryGrows(0, k, n, slots);
    BoundaryGrows(k, k + 1, n, slots);
    BoundaryGrows(k + 1, slots, n, slots);
  }

  lemma PosUnique(s: seq<int>, k: nat)
    requires Distinct(s) && k < |s|
    ensures Pos(s, s[k]) == k
  {
    var p := Pos(s, s[k]);
    assert s[p] == s[k];
  }

  lemma SliceHolds(f: seq<int>, k: nat, slots: nat, overlap: nat, x: int)
    requires Distinct(f) && x in f && k < slots
    ensures x in Slice(f, k, slots, overlap) <==> InSlot(Pos(f, x), k, |f|, slots, overlap)
  {
    BoundsFit(k, |f|, slots, overlap);
    var (lo, hi) := SlotBounds(k, |f|, slots, overlap);
    var s := Slice(f, k, slots, overlap);
    if x in s {
      var j :| 0 <= j < |s| && s[j] == x;
      PosUnique(f, lo + j);
    }
    if lo <= Pos(f, x) < hi {
      assert s[Pos(f, x) - lo] == x;
    }
  }

  lemma RemovedAt(s: seq<int>, k: nat, j: nat)
    requires k < |s| && j < |s| - 1
    ensures RemoveAt(s, k)[j] == s[if j < k then j else j + 1]
  {
  }

  lemma RemoveShifts(s: seq<int>, k: nat, x: int)
    requires Distinct(s) && k < |s|
    ensures Distinct(RemoveAt(s, k))
    ensures x in RemoveAt(s, k) ==> x in s && Pos(s, x) - 1 <= Pos(RemoveAt(s, k), x) <= Pos(s, x)
  {
    var r := RemoveAt(s, k);
    forall j, l | 0 <= j < l < |r|
      ensures r[j] != r[l]
    {
      RemovedAt(s, k, j);
      RemovedAt(s, k, l);
    }
    if x in r {
      var p := Pos(r, x);
      RemovedAt(s, k, p);
      PosUnique(s, if p < k then p else p + 1);
    }
  }

  lemma {:induction false} DeleteShifts(s: seq<int>, draws: seq<nat>, x: int)
    requires Distinct(s)
    ensures var g := DeleteAll(s, draws);
      && Distinct(g)
      && |s| - |draws| <= |g| <= |s|
      && (x in g ==> x in s && Pos(s, x) - (|s| - |g|) <= Pos(g, x) <= Pos(s, x))
    decreases |draws|
  {
    if draws != [] {
      if s == [] {
        DeleteShifts(s, draws[1..], x);
      } else {
        var r := RemoveAt(s, draws[0] % |s|);
        RemoveShifts(s, draws[0] % |s|, x);
        DeleteShifts(r, draws[1..], x);
      }
    }
  }

  lemma InsertedAt(s: seq<int>, k: nat, next: int, j: nat)
    requires k <= |s| && j <= |s|
    ensures InsertAt(s, k, next)[j] == if j < k then s[j] else if j == k then next else s[j - 1]
  {
  }

  lemma InsertStaysDistinct(s: seq<int>, k: nat, next: int)
    requires Distinct(s) && Below(s, next) && k <= |s|
    ensures Distinct(InsertAt(s, k, next)) && Below(InsertAt(s, k, next), next + 1)
  {
    var g := InsertAt(s, k, next);
    forall j, l | 0 <= j < l < |g|
      ensures g[j] != g[l]
    {
      InsertedAt(s, k, next, j);
      InsertedAt(s, k, next, l);
    }
    forall j | 0 <= j < |g|
      ensures g[j] < next + 1
    {
      InsertedAt(s, k, next, j);
    }
  }

  lemma InsertShifts(s: seq<int>, k: nat, next: int, x: int)
    requires Distinct(s) && Below(s, next) && k <= |s|
    ensures var g := InsertAt(s, k, next);
      && Distinct(g)
      && Below(g, next + 1)
      && (x in s ==> x in g && Pos(s, x) <= Pos(g, x) <= Pos(s, x) + 1)
      && (x in g && x < next ==> x in s)
  {
    var g := InsertAt(s, k, next);
    InsertStaysDistinct(s, k, next);
    if x in s {
      var p := Pos(s, x);
      var q := if p < k then p else p + 1;
      InsertedAt(s, k, next, q);
      PosUnique(g, q);
    }
    if x in g {
      InsertedAt(s, k, next, Pos(g, x));
    }
  }

  lemma {:induction false} InsertAllShifts(s: seq<int>, next: int, draws: seq<nat>, x: int)
    requires Distinct(s) && Below(s, next)
    ensures var g := InsertAll(s, next, draws);
      && Distinct(g)
      && Below(g, next + |draws|)
      && |g| == |s| + |draws|
      && (x in s ==> x in g && Pos(s, x) <= Pos(g, x) <= Pos(s, x) + |draws|)
      && (x in g && x < next ==> x in s)
    decreases |draws|
  {
    if draws != [] {
      var k := draws[0] % (|s| + 1);
      InsertShifts(s, k, next, x);
      InsertAllShifts(InsertAt(s, k, next), next + 1, draws[1..], x);
    }
  }

  lemma {:induction false} DeleteStaysBelow(s: seq<int>, draws: seq<nat>, next: int)
    requires Below(s, next)
    ensures Below(DeleteAll(s, draws), next)
    decreases |draws|
  {
    if draws != [] {
      DeleteStaysBelow(if s == [] then s else RemoveAt(s, draws[0] % |s|), draws[1..], next);
    }
  }

  /** How far the churn of one gap can move a row that stays. */
  lemma ChurnShifts(f: seq<int>, g: seq<int>, deletes: nat, inserts: nat, x: int) returns (gone: nat, came: nat)
    requires ChurnedWithin(f, g, deletes, inserts) && Distinct(f)
    ensures Distinct(g) && gone <= deletes && came <= inserts && |g| == |f| - gone + came
    ensures x in f && x in g ==> Pos(f, x) - gone <= Pos(g, x) <= Pos(f, x) + came
  {
    var d: nat, i: nat :| d <= deletes && i <= inserts && Churned(f, g, d, i);
    var next, dels, ins :| ChurnedBy(f, g, next, dels, ins) && |dels| == d && |ins| == i;
    var h := DeleteAll(f, dels);
    DeleteShifts(f, dels, x);
    DeleteStaysBelow(f, dels, next);
    InsertAllShifts(h, next, ins, x);
    gone, came := |f| - |h|, i;
  }

  lemma {:induction false} StaysDistinct(frames: seq<seq<int>>, deletes: nat, inserts: nat, j: nat)
    requires ChurningWithin(frames, deletes, inserts) && j < |frames|
    ensures Distinct(frames[j])
  {
    if j > 0 {
      StaysDistinct(frames, deletes, inserts, j - 1);
      var _, _ := ChurnShifts(frames[j - 1], frames[j], deletes, inserts, 0);
    }
  }

  lemma ExactIsWithin(frames: seq<seq<int>>, deletes: nat, inserts: nat)
    requires Churning(frames, deletes, inserts)
    ensures ChurningWithin(frames, deletes, inserts)
  {
  }

  /** The row stands right of everything slot `k` reaches. */
  ghost predicate RightOf(frames: seq<seq<int>>, k: nat, slots: nat, overlap: nat, x: int)
    requires k < slots == |frames| && x in frames[k]
  {
    Pos(frames[k], x) >= Boundary(k + 1, |frames[k]|, slots) + overlap
  }

  /** If a row starts right of slot 0 and ends left of the last slot unseen, some gap moved it
      across a boundary. */
  lemma {:induction false} UnseenStaysRight(frames: seq<seq<int>>, slots: nat, overlap: nat,
                                            deletes: nat, inserts: nat, x: int, k: nat)
    requires |frames| == slots >= 2 && k < slots
    requires ChurningWithin(frames, deletes, inserts) && Present(frames, x)
    requires 2 * overlap >= Need(inserts, deletes, slots)
    requires !Swept(frames, slots, overlap, x)
    ensures RightOf(frames, k, slots, overlap, x)
  {
    var g := frames[k];
    StaysDistinct(frames, deletes, inserts, k);
    assert x !in Slice(g, k, slots, overlap);
    SliceHolds(g, k, slots, overlap, x);
    if k == 0 {
      BoundaryEnds(|g|, slots);
    } else {
      UnseenStaysRight(frames, slots, overlap, deletes, inserts, x, k - 1);
      StaysDistinct(frames, deletes, inserts, k - 1);
      var f := frames[k - 1];
      var gone, came := ChurnShifts(f, g, deletes, inserts, x);
      NeedMonotone(came, gone, inserts, deletes, slots);
      if Pos(g, x) < Boundary(k, |g|, slots) - overlap {
        CrossingNeedsDrift(k, |f|, Pos(f, x), |g|, Pos(g, x), gone, came, slots, overlap);
      }
    }
  }

  lemma EnoughCovers(slots: nat, overlap: nat, deletes: nat, inserts: nat)
    requires slots >= 1 && Enough(slots, overlap, deletes, inserts)
    ensures Covers(slots, overlap, deletes, inserts)
  {
    forall frames: seq<seq<int>>, x |
      |frames| == slots && ChurningWithin(frames, deletes, inserts) && Present(frames, x)
      ensures Swept(frames, slots, overlap, x)
    {
      SweepVisits(frames, slots, overlap, deletes, inserts, x);
    }
  }

  /** One aligned sweep visits every row that is present throughout. */
  lemma SweepVisits(frames: seq<seq<int>>, slots: nat, overlap: nat, deletes: nat, inserts: nat, x: int)
    requires slots >= 1 && Enough(slots, overlap, deletes, inserts)
    requires |frames| == slots && ChurningWithin(frames, deletes, inserts) && Present(frames, x)
    ensures Swept(frames, slots, overlap, x)
  {
    var last := slots - 1;
    var f := frames[last];
    BoundaryEnds(|f|, slots);
    if slots == 1 {
      SliceHolds(f, 0, 1, overlap, x);
    } else if !Swept(frames, slots, overlap, x) {
      UnseenStaysRight(frames, slots, overlap, deletes, inserts, x, last);
    }
  }
}
