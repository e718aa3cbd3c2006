/** Slots folded from the wall clock. Times are microseconds since Monday 2024-01-01 00:00 KST;
    the offset of KST is fixed, so a later instant is the same distance on the wall clock. */
module ClockSlots {
  import opened SweepArithmetic
  import opened Wrappers

  const HOUR: nat := 3_600_000_000
  const DAY: nat := 24 * HOUR

  datatype Error = ValueError | ZeroDivisionError

  /** Python's floor division. */
  function FloorDiv(a: int, b: int): (q: int)
    requires b != 0
    ensures if b > 0 then q * b <= a < (q + 1) * b else (q + 1) * b < a <= q * b
  {
    if b > 0 then
      FloorBounds(a, b); a / b
    else
      FloorBounds(-a, -b);
      assert ((-a) / (-b)) * (-b) == -(((-a) / (-b)) * b);
      assert ((-a) / (-b) + 1) * (-b) == -(((-a) / (-b) + 1) * b);
      (-a) / (-b)
  }

  function Half(floor: int, rest: int, of: int): int {
    if 2 * rest < of || (2 * rest == of && floor % 2 == 0) then floor else floor + 1
  }

  /** Python's `round` of a quotient: the nearest integer, and the even one on a tie. */
  function RoundHalfEven(p: int, q: int): int
    requires q != 0
  {
    var (a, b) := if q > 0 then (p, q) else (-p, -q);
    Half(a / b, a % b, b)
  }

  function SlotCount(period: int, every: int): Result<nat, Error> {
    if every == 0 then Err(ZeroDivisionError)
    else if RoundHalfEven(period, every) < 1 then Err(ValueError)
    else Ok(RoundHalfEven(period, every))
  }

  function CurrentSlot(now: int, period: int, every: int): Result<nat, Error> {
    match SlotCount(period, every)
    case Err(e) => Err(e)
    case Ok(slots) => Ok(FloorDiv(now, every) % slots)
  }

  /** Positional arithmetic of `row_cycler`: weekday and hour on the KST clock. */
  function Weekday(now: int): nat {
    now / DAY % 7
  }

  function HourOfDay(now: int): nat {
    now % DAY / HOUR
  }

  function CyclerSlot(now: int, cycleSlots: nat): nat
    requires cycleSlots >= 1
  {
    (Weekday(now) * 24 + HourOfDay(now)) % cycleSlots
  }

  lemma RoundIsNearest(p: int, q: int)
    requires q > 0
    ensures var r := RoundHalfEven(p, q);
      && 2 * Abs(p - r * q) <= q
      && (2 * Abs(p - r * q) == q ==> r % 2 == 0)
  {
    var f := p / q;
    FloorBounds(p, q);
    assert p == f * q + p % q;
    assert (f + 1) * q == f * q + q;
  }

  /** A sweep is refused exactly when the period is at most half the interval. */
  lemma SlotCountAccepts(period: int, every: int)
    requires every > 0
    ensures SlotCount(period, every).Ok? <==> 2 * period > every
    ensures SlotCount(period, every).Err? ==> SlotCount(period, every) == Err(ValueError)
  {
    var r := RoundHalfEven(period, every);
    RoundIsNearest(period, every);
    TimesKeepsOrder(1, r, every);
    TimesKeepsOrder(r, 0, every);
  }

  /** A period of `slots` whole intervals has `slots` slots. */
  lemma WholePeriod(slots: nat, every: int)
    requires slots >= 1 && every != 0
    ensures SlotCount(slots * every, every) == Ok(slots)
  {
    var (a, b) := if every > 0 then (slots * every, every) else (-(slots * every), -every);
    assert a == 0 + slots * b;
    FloorOfMultiple(0, slots, b);
    assert a / b == slots && a == b * (a / b) + a % b;
  }

  lemma NextIntervals(now: int, every: int, k: int)
    requires every != 0
    ensures FloorDiv(now + k * every, every) == FloorDiv(now, every) + k
  {
    if every > 0 {
      FloorOfMultiple(now, k, every);
    } else {
      assert -(now + k * every) == -now + k * (-every);
      FloorOfMultiple(-now, k, -every);
    }
  }

  lemma ModuloUnique(a: int, b: int, slots: nat)
    requires slots >= 1 && a % slots == b % slots && Abs(a - b) < slots
    ensures a == b
  {
    var x, y := a / slots, b / slots;
    assert a - b == (x - y) * slots;
    TimesKeepsOrder(1, x - y, slots);
    TimesKeepsOrder(x - y, -1, slots);
  }

  lemma ReachesSlot(q: int, slots: nat, s: nat)
    requires s < slots
    ensures (q + (s - q) % slots) % slots == s
  {
    var t := -((s - q) / slots);
    assert q + (s - q) % slots == s + t * slots;
    FloorOfMultiple(s, t, slots);
    FloorIs(s, slots, 0);
  }

  /** `slots` consecutive runs, from any instant before or after the epoch, hit every slot once. */
  lemma EverySlotOnce(now: int, period: int, every: int, s: nat) returns (k: nat)
    requires SlotCount(period, every).Ok? && s < SlotCount(period, every).value
    ensures var slots := SlotCount(period, every).value;
      && k < slots && CurrentSlot(now + k * every, period, every) == Ok(s)
      && forall j :: 0 <= j < slots && CurrentSlot(now + j * every, period, every) == Ok(s) ==> j == k
  {
    var slots := SlotCount(period, every).value;
    var q := FloorDiv(now, every);
    k := (s - q) % slots;
    ReachesSlot(q, slots, s);
    NextIntervals(now, every, k);
    forall j | 0 <= j < slots && CurrentSlot(now + j * every, period, every) == Ok(s)
      ensures j == k
    {
      NextIntervals(now, every, j);
      ModuloUnique(q + j, q + k, slots);
    }
  }

  /** With no overlap every row belongs to exactly one slot. */
  lemma OneSlotPerRow(p: nat, n: nat, slots: nat) returns (k: nat)
    requires p < n && slots >= 1
    ensures k < slots && InSlot(p, k, n, slots, 0)
    ensures forall j :: 0 <= j < slots && InSlot(p, j, n, slots, 0) ==> j == k
  {
    BoundaryEnds(n, slots);
    k := 0;
    while Boundary(k + 1, n, slots) <= p
      invariant k < slots && Boundary(k, n, slots) <= p
      decreases slots - k
    {
      k := k + 1;
    }
    BoundaryGrows(k + 1, slots, n, slots);
    BoundaryGrows(0, k, n, slots);
    forall j | 0 <= j < slots && InSlot(p, j, n, slots, 0)
      ensures j == k
    {
      if j < k {
        BoundaryGrows(j + 1, k, n, slots);
      } else if k < j {
        BoundaryGrows(k + 1, j, n, slots);
      }
    }
  }

  /** Over any `slots` consecutive runs of an unchanged frame with no overlap, exactly one run
      handles the row. */
  lemma OneRunPerRow(p: nat, n: nat, now: int, period: int, every: int) returns (k: nat)
    requires p < n && SlotCount(period, every).Ok?
    ensures var slots := SlotCount(period, every).value;
      && k < slots && InSlot(p, CurrentSlot(now + k * every, period, every).value, n, slots, 0)
      && forall j :: 0 <= j < slots && InSlot(p, CurrentSlot(now + j * every, period, every).value, n, slots, 0)
           ==> j == k
  {
    var slots := SlotCount(period, every).value;
    var s := OneSlotPerRow(p, n, slots);
    k := EverySlotOnce(now, period, every, s);
    forall j | 0 <= j < slots && InSlot(p, CurrentSlot(now + j * every, period, every).value, n, slots, 0)
      ensures j == k
    {
      assert CurrentSlot(now + j * every, period, every).value < slots;
      assert CurrentSlot(now + j * every, period, every) == Ok(s);
    }
  }

  lemma HoursSinceEpoch(now: int)
    ensures now / HOUR == HourOfDay(now) + now / DAY * 24
    ensures 0 <= HourOfDay(now) < 24
  {
    var d, left := now / DAY, now % DAY;
    assert now == left + d * 24 * HOUR;
    FloorOfMultiple(left, d * 24, HOUR);
  }

  /** Weekday and hour together count the hours of the week. */
  lemma HourOfWeek(now: int)
    ensures Weekday(now) * 24 + HourOfDay(now) == now / HOUR % RUNS_PER_WEEK
  {
    HoursSinceEpoch(now);
    WeekOfHours(now / DAY, HourOfDay(now));
  }

  lemma WeekOfHours(d: int, h: int)
    requires 0 <= h < 24
    ensures (h + d * 24) % RUNS_PER_WEEK == d % 7 * 24 + h
  {
    assert h + d * 24 == d % 7 * 24 + h + d / 7 * 168;
  }

  /** The two clock folds agree at every instant exactly when the cycle divides the week. */
  lemma FoldsAgreeIff(cycleSlots: nat)
    requires cycleSlots >= 1
    ensures (forall now: int :: CurrentSlot(now, cycleSlots * HOUR, HOUR) == Ok(CyclerSlot(now, cycleSlots)))
        <==> RUNS_PER_WEEK % cycleSlots == 0
  {
    WholePeriod(cycleSlots, HOUR);
    if RUNS_PER_WEEK % cycleSlots == 0 {
      forall now: int
        ensures CurrentSlot(now, cycleSlots * HOUR, HOUR) == Ok(CyclerSlot(now, cycleSlots))
      {
        HourOfWeek(now);
        FoldTwice(now / HOUR, cycleSlots);
      }
    } else {
      var week := RUNS_PER_WEEK * HOUR;
      HourOfWeek(week);
      assert week / HOUR == RUNS_PER_WEEK && RUNS_PER_WEEK % RUNS_PER_WEEK == 0;
      assert CyclerSlot(week, cycleSlots) == 0 % cycleSlots == 0;
    }
  }

  lemma FoldTwice(h: int, c: nat)
    requires c >= 1 && RUNS_PER_WEEK % c == 0
    ensures h % RUNS_PER_WEEK % c == h % c
  {
    var w, t := h / RUNS_PER_WEEK, RUNS_PER_WEEK / c;
    var r := h % RUNS_PER_WEEK;
    assert RUNS_PER_WEEK == t * c;
    assert h == r + w * RUNS_PER_WEEK;
    assert w * RUNS_PER_WEEK == (w * t) * c;
    FloorOfMultiple(r, w * t, c);
    assert h == c * (h / c) + h % c && r == c * (r / c) + r % c;
  }
}
