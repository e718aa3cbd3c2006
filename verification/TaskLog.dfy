/** `TaskLogger.record`: push to the front of a Redis list and trim it. */
module TaskLog {

  /** LTRIM with Redis' index rules: inclusive, negative from the end, clamped to the list. */
  function Ltrim<T>(list: seq<T>, start: int, stop: int): seq<T> {
    var n := |list|;
    var from := if start < 0 then start + n else start;
    var to := if stop < 0 then stop + n else stop;
    var lo := if from < 0 then 0 else from;
    var hi := if to >= n then n - 1 else to;
    if lo > hi || lo >= n then [] else list[lo..hi + 1]
  }

  /** The list after one record: LPUSH, then LTRIM 0 .. max_records - 1. */
  function Push<T>(list: seq<T>, r: T, maxRecords: int): seq<T> {
    Ltrim([r] + list, 0, maxRecords - 1)
  }

  function Stored<T>(history: seq<T>, maxRecords: int): seq<T> {
    if history == [] then []
    else Push(Stored(history[..|history| - 1], maxRecords), history[|history| - 1], maxRecords)
  }

  /** The newest `m` records, newest first. */
  function Newest<T>(history: seq<T>, m: nat): seq<T> {
    if history == [] || m == 0 then []
    else [history[|history| - 1]] + Newest(history[..|history| - 1], m - 1)
  }

  lemma {:induction false} NewestLength<T>(history: seq<T>, m: nat)
    ensures |Newest(history, m)| == if m < |history| then m else |history|
  {
    if history != [] && m > 0 {
      NewestLength(history[..|history| - 1], m - 1);
    }
  }

  /** Dropping the oldest of m records leaves the newest m - 1. */
  lemma {:induction false} NewestShorter<T>(history: seq<T>, m: nat)
    requires m > 0
    ensures var all := Newest(history, m);
            Newest(history, m - 1) == if |all| == m then all[..m - 1] else all
  {
    if history != [] && m > 1 {
      NewestShorter(history[..|history| - 1], m - 1);
    }
    NewestLength(history, m);
  }

  lemma {:induction false} StoredIsNewest<T>(history: seq<T>, m: nat)
    requires m >= 1
    ensures Stored(history, m) == Newest(history, m)
  {
    if history != [] {
      var older := history[..|history| - 1];
      StoredIsNewest(older, m);
      NewestShorter(older, m);
      NewestLength(older, m);
    }
  }

  /** The list is always the newest `max_records` of the whole history exactly when
      `max_records` is at least 1; at 0 the trim's stop of -1 keeps everything. */
  lemma KeepsNewest(m: nat)
    ensures (forall history: seq<int> :: Stored(history, m) == Newest(history, m)) <==> m >= 1
  {
    if m >= 1 {
      forall history: seq<int> ensures Stored(history, m) == Newest(history, m) {
        StoredIsNewest(history, m);
      }
    } else {
      var one := [7];
      assert one[..0] == [];
      assert Stored(one, 0) == Push([], 7, 0) == [7];
      assert Stored(one, m) != Newest(one, m);
    }
  }

  class TaskLogger<T> {
    const maxRecords: int
    var list: seq<T>
    ghost var history: seq<T>

    /** The Redis list is what the records pushed so far leave. */
    ghost predicate Valid()
      reads this
    {
      list == Stored(history, maxRecords)
    }

    constructor (maxRecords: int)
      ensures Valid() && history == [] && this.maxRecords == maxRecords
    {
      this.maxRecords := maxRecords;
      list, history := [], [];
    }

    /** `pushed` is false when the pipeline failed: the record is lost, nothing is raised. */
    method Record(r: T, pushed: bool)
      requires Valid()
      modifies this
      ensures Valid() && history == if pushed then old(history) + [r] else old(history)
      ensures maxRecords >= 1 ==> list == Newest(history, maxRecords)
    {
      if pushed {
        list := Ltrim([r] + list, 0, maxRecords - 1);
        history := history + [r];
        assert history[..|history| - 1] == old(history);
      }
      if maxRecords >= 1 {
        StoredIsNewest(history, maxRecords);
      }
    }
  }
}
