/** The registry of background jobs: critical sections under one lock, in any interleaving. */
module JobRegistry {
  import opened Sequences
  import opened Wrappers

  datatype Status = Running | Done | Failed

  /** `at` is the submission time on a clock that may step back; `outcome` stands for the
      result or the error text, recorded with the status. */
  datatype Job = Job(id: nat, status: Status, at: int, finishedAt: Option<int>, outcome: Option<int>)

  /** Ids of the finished jobs, in registry order. */
  function Finished(order: seq<nat>, jobs: map<nat, Job>): (r: seq<nat>)
    requires forall id :: id in order ==> id in jobs
    ensures forall id :: id in r ==> id in order
  {
    if order == [] then []
    else
      var rest := Finished(order[..|order| - 1], jobs);
      if jobs[order[|order| - 1]].status == Running then rest else rest + [order[|order| - 1]]
  }

  /** The submission time of a job. */
  function AgeIn(jobs: map<nat, Job>): nat -> int {
    (id: nat) => if id in jobs then jobs[id].at else 0
  }

  /** The registry: the jobs, and the order in which the dictionary lists them. */
  datatype Registry = Registry(jobs: map<nat, Job>, order: seq<nat>) {
    ghost predicate Valid() {
      && Distinct(order)
      && (forall id :: id in order <==> id in jobs)
      && forall id :: id in jobs ==> jobs[id].id == id
    }
  }

  function Without(s: seq<nat>, id: nat): (r: seq<nat>)
    ensures forall x :: x in r <==> x in s && x != id
    ensures Distinct(s) ==> Distinct(r)
  {
    if s == [] then []
    else
      var last := s[|s| - 1];
      var r := Without(s[..|s| - 1], id);
      assert s == s[..|s| - 1] + [last];
      assert Distinct(s) ==> last !in s[..|s| - 1];
      if last == id then r else r + [last]
  }

  function DropOne(reg: Registry, id: nat): Registry {
    Registry(reg.jobs - {id}, Without(reg.order, id))
  }

  function DropAll(reg: Registry, ids: seq<nat>): Registry {
    if ids == [] then reg else DropOne(DropAll(reg, ids[..|ids| - 1]), ids[|ids| - 1])
  }

  /** The finished jobs by age, of which an eviction takes the front. */
  function ByAge(reg: Registry): seq<nat>
    requires reg.Valid()
  {
    SortBy(Finished(reg.order, reg.jobs), AgeIn(reg.jobs))
  }

  /** The finished jobs that leave once the registry outgrows `keep`. */
  function Victims(reg: Registry, keep: int): seq<nat>
    requires reg.Valid()
  {
    var oldest := ByAge(reg);
    if |reg.jobs| <= keep then []
    else if |oldest| <= |reg.jobs| - keep then oldest
    else oldest[..|reg.jobs| - keep]
  }

  datatype Call =
    | Submit(id: nat, at: int)
    | Finish(id: nat, status: Status, outcome: Option<int>, at: int)

  function Submitted(reg: Registry, id: nat, at: int): Registry {
    Registry(reg.jobs[id := Job(id, Running, at, None, None)], reg.order + [id])
  }

  /** One critical section. */
  function Apply(reg: Registry, call: Call, keep: int): Registry
    requires reg.Valid() && (call.Submit? ==> call.id !in reg.jobs)
  {
    match call
    case Submit(id, at) =>
      SubmittedIsValid(reg, id, at);
      DropAll(Submitted(reg, id, at), Victims(Submitted(reg, id, at), keep))
    case Finish(id, status, outcome, at) =>
      if id in reg.jobs then
        Registry(reg.jobs[id := reg.jobs[id].(status := status, finishedAt := Some(at), outcome := outcome)], reg.order)
      else reg
  }

  lemma SubmittedIsValid(reg: Registry, id: nat, at: int)
    requires reg.Valid() && id !in reg.jobs
    ensures Submitted(reg, id, at).Valid()
  {
    assert id !in reg.order;
  }

  lemma {:induction false} FinishedMember(order: seq<nat>, jobs: map<nat, Job>, id: nat)
    requires forall x :: x in order ==> x in jobs
    ensures id in Finished(order, jobs) <==> id in order && jobs[id].status != Running
  {
    if order != [] {
      var t, last := order[..|order| - 1], order[|order| - 1];
      FinishedMember(t, jobs, id);
      assert order == t + [last];
    }
  }

  lemma {:induction false} FinishedDistinct(order: seq<nat>, jobs: map<nat, Job>)
    requires (forall x :: x in order ==> x in jobs) && Distinct(order)
    ensures Distinct(Finished(order, jobs))
  {
    if order != [] {
      var t, last := order[..|order| - 1], order[|order| - 1];
      FinishedDistinct(t, jobs);
      FinishedMember(t, jobs, last);
      assert last !in t;
    }
  }

  /** `r` is the registry without these jobs. */
  ghost predicate Dropped(reg: Registry, r: Registry, ids: seq<nat>) {
    && r.Valid()
    && |r.jobs| == |reg.jobs| - |ids|
    && forall id :: (id in r.jobs <==> id in reg.jobs && id !in ids) && (id in r.jobs ==> r.jobs[id] == reg.jobs[id])
  }

  lemma DropOneDrops(reg: Registry, id: nat)
    requires reg.Valid() && id in reg.jobs
    ensures Dropped(reg, DropOne(reg, id), [id])
  {
    assert (reg.jobs - {id}).Keys == reg.jobs.Keys - {id};
  }

  lemma DroppedMore(reg: Registry, mid: Registry, r: Registry, ids: seq<nat>, id: nat)
    requires Dropped(reg, mid, ids) && Dropped(mid, r, [id])
    ensures Dropped(reg, r, ids + [id])
  {
  }

  lemma {:induction false} DropAllDrops(reg: Registry, ids: seq<nat>)
    requires reg.Valid() && Distinct(ids) && forall id :: id in ids ==> id in reg.jobs
    ensures Dropped(reg, DropAll(reg, ids), ids)
  {
    if ids != [] {
      var t, last := ids[..|ids| - 1], ids[|ids| - 1];
      assert ids == t + [last] && last !in t;
      DropAllDrops(reg, t);
      DropOneDrops(DropAll(reg, t), last);
      DroppedMore(reg, DropAll(reg, t), DropAll(reg, ids), t, last);
    }
  }

  lemma ByAgeIsFinished(reg: Registry)
    requires reg.Valid()
    ensures Distinct(ByAge(reg)) && OrderedBy(ByAge(reg), AgeIn(reg.jobs))
    ensures forall id :: id in ByAge(reg) <==> id in reg.jobs && reg.jobs[id].status != Running
  {
    var finished := Finished(reg.order, reg.jobs);
    FinishedDistinct(reg.order, reg.jobs);
    SortBySorts(finished, AgeIn(reg.jobs));
    SameMembers(finished, ByAge(reg));
    forall id
      ensures id in finished <==> id in reg.jobs && reg.jobs[id].status != Running
    {
      FinishedMember(reg.order, reg.jobs, id);
    }
  }

  lemma VictimsArePrefix(reg: Registry, keep: int)
    requires reg.Valid()
    ensures Victims(reg, keep) <= ByAge(reg)
    ensures |reg.jobs| - |Victims(reg, keep)| <= keep || Victims(reg, keep) == ByAge(reg)
    ensures |reg.jobs| <= keep ==> Victims(reg, keep) == []
    ensures |reg.jobs| > keep ==> |Victims(reg, keep)| <= |reg.jobs| - keep
  {
  }

  /** What an eviction may take: finished jobs, oldest first, and enough of them. */
  lemma VictimsAreOldest(reg: Registry, keep: int)
    requires reg.Valid()
    ensures var v := Victims(reg, keep);
      && Distinct(v)
      && (forall id :: id in v ==> id in reg.jobs && reg.jobs[id].status != Running)
      && (|reg.jobs| - |v| <= keep || forall id :: id in reg.jobs && id !in v ==> reg.jobs[id].status == Running)
      && (|reg.jobs| <= keep ==> v == [])
      && (|reg.jobs| > keep ==> |v| <= |reg.jobs| - keep)
  {
    ByAgeIsFinished(reg);
    VictimsArePrefix(reg, keep);
    var v := Victims(reg, keep);
    assert forall i :: 0 <= i < |v| ==> v[i] == ByAge(reg)[i];
    assert forall i :: 0 <= i < |v| ==> v[i] in ByAge(reg);
  }

  lemma VictimsAreNoNewer(reg: Registry, keep: int, e: nat, f: nat)
    requires reg.Valid() && e in Victims(reg, keep) && f !in Victims(reg, keep)
    requires f in reg.jobs && reg.jobs[f].status != Running
    ensures e in reg.jobs && reg.jobs[e].at <= reg.jobs[f].at
  {
    ByAgeIsFinished(reg);
    VictimsArePrefix(reg, keep);
    var v, oldest := Victims(reg, keep), ByAge(reg);
    var i :| 0 <= i < |v| && v[i] == e;
    assert oldest[i] == e && e in oldest && f in oldest;
    var j :| 0 <= j < |oldest| && oldest[j] == f;
    assert j >= |v| by {
      assert f !in v;
    }
    assert AgeIn(reg.jobs)(oldest[i]) <= AgeIn(reg.jobs)(oldest[j]);
  }

  /** The new job runs, only finished jobs left, and every other entry stays as it was. */
  ghost predicate Admits(reg: Registry, r: Registry, id: nat, at: int) {
    && r.Valid()
    && id in r.jobs && r.jobs[id] == Job(id, Running, at, None, None)
    && (forall x :: x in reg.jobs && reg.jobs[x].status == Running ==> x in r.jobs)
    && (forall x :: x in r.jobs && x != id ==> x in reg.jobs && r.jobs[x] == reg.jobs[x])
  }

  lemma DroppingAdmits(reg: Registry, id: nat, at: int, v: seq<nat>)
    requires reg.Valid() && id !in reg.jobs && Distinct(v)
    requires var mid := Submitted(reg, id, at);
      forall x :: x in v ==> x in mid.jobs && mid.jobs[x].status != Running
    ensures Admits(reg, DropAll(Submitted(reg, id, at), v), id, at)
  {
    var mid := Submitted(reg, id, at);
    SubmittedIsValid(reg, id, at);
    DropAllDrops(mid, v);
    DroppedAdmits(reg, id, at, v, DropAll(mid, v));
  }

  lemma DroppedAdmits(reg: Registry, id: nat, at: int, v: seq<nat>, r: Registry)
    requires reg.Valid() && id !in reg.jobs && r.Valid()
    requires var mid := Submitted(reg, id, at);
      && (forall x :: x in v ==> x in mid.jobs && mid.jobs[x].status != Running)
      && forall x :: (x in r.jobs <==> x in mid.jobs && x !in v) && (x in r.jobs ==> r.jobs[x] == mid.jobs[x])
    ensures Admits(reg, r, id, at)
  {
    var mid := Submitted(reg, id, at);
    assert mid.jobs[id] == Job(id, Running, at, None, None);
    assert forall x :: x in reg.jobs ==> x in mid.jobs && mid.jobs[x] == reg.jobs[x];
  }

  lemma SubmitKeepsOthers(reg: Registry, id: nat, at: int, keep: int)
    requires reg.Valid() && id !in reg.jobs
    ensures Admits(reg, Apply(reg, Submit(id, at), keep), id, at)
  {
    SubmittedIsValid(reg, id, at);
    var v := Victims(Submitted(reg, id, at), keep);
    VictimsAreOldest(Submitted(reg, id, at), keep);
    DroppingAdmits(reg, id, at, v);
  }

  /** After a submission the registry is within its bound, or nothing finished is left; nothing
      goes before the bound is passed, and then no more than the excess. */
  lemma SubmitBounds(reg: Registry, id: nat, at: int, keep: int)
    requires reg.Valid() && id !in reg.jobs
    ensures var r := Apply(reg, Submit(id, at), keep);
      && (|r.jobs| <= keep || forall x :: x in r.jobs ==> r.jobs[x].status == Running)
      && (|reg.jobs| + 1 <= keep ==> |r.jobs| == |reg.jobs| + 1)
      && (|reg.jobs| + 1 > keep ==> |r.jobs| >= keep)
  {
    var mid := Submitted(reg, id, at);
    SubmittedIsValid(reg, id, at);
    assert mid.jobs.Keys == reg.jobs.Keys + {id};
    assert |mid.jobs| == |reg.jobs| + 1;
    VictimsAreOldest(mid, keep);
    DropAllDrops(mid, Victims(mid, keep));
  }

  /** Whatever leaves is no newer than any finished job that stays. */
  lemma SubmitEvictsOldest(reg: Registry, id: nat, at: int, keep: int, e: nat, f: nat)
    requires reg.Valid() && id !in reg.jobs
    requires e in reg.jobs && e !in Apply(reg, Submit(id, at), keep).jobs
    requires f in Apply(reg, Submit(id, at), keep).jobs && Apply(reg, Submit(id, at), keep).jobs[f].status != Running
    ensures f in reg.jobs && reg.jobs[e].at <= reg.jobs[f].at
  {
    var mid := Submitted(reg, id, at);
    SubmittedIsValid(reg, id, at);
    VictimsAreOldest(mid, keep);
    DropAllDrops(mid, Victims(mid, keep));
    assert e in Victims(mid, keep) && f !in Victims(mid, keep);
    VictimsAreNoNewer(mid, keep, e, f);
  }

  /** The registry with what has happened so far: ids handed out, and how works ended. */
  datatype History = History(reg: Registry, issued: set<nat>, ended: map<nat, (Status, Option<int>)>)

  /** Ids are fresh, and each submitted work ends at most once. */
  predicate Legal(h: History, c: Call) {
    match c
    case Submit(id, _) => id !in h.issued
    case Finish(id, status, _, _) => id in h.issued && id !in h.ended && status != Running
  }

  /** A job is running exactly while its work is out; a finished job still listed shows how its
      work ended. */
  ghost predicate Inv(h: History) {
    && h.reg.Valid()
    && (forall id :: id in h.reg.jobs ==> id in h.issued)
    && (forall id :: id in h.issued && id !in h.ended <==> id in h.reg.jobs && h.reg.jobs[id].status == Running)
    && (forall id :: id in h.reg.jobs && id in h.ended ==>
         (h.reg.jobs[id].status, h.reg.jobs[id].outcome) == h.ended[id])
    && (forall id :: id in h.ended ==> id in h.issued && h.ended[id].0 != Running)
  }

  /** One critical section; stuck outside the invariant, which no run ever leaves. */
  ghost function Step(h: History, c: Call, keep: int): History {
    if !Inv(h) || !Legal(h, c) then h
    else
      match c
      case Submit(id, _) => History(Apply(h.reg, c, keep), h.issued + {id}, h.ended)
      case Finish(id, status, outcome, _) =>
        History(Apply(h.reg, c, keep), h.issued, h.ended[id := (status, outcome)])
  }

  lemma SubmitKeepsInv(h: History, r: Registry, id: nat, at: int)
    requires Inv(h) && id !in h.issued && Admits(h.reg, r, id, at)
    ensures Inv(History(r, h.issued + {id}, h.ended))
  {
  }

  /** The branch for a job gone from the registry cannot be reached: every outcome is recorded. */
  lemma EveryOutcomeIsRecorded(h: History, id: nat, status: Status, outcome: Option<int>, at: int, keep: int)
    requires Inv(h) && Legal(h, Finish(id, status, outcome, at))
    ensures id in h.reg.jobs && h.reg.jobs[id].status == Running
    ensures var r := Step(h, Finish(id, status, outcome, at), keep).reg;
      r.jobs == h.reg.jobs[id := Job(id, status, h.reg.jobs[id].at, Some(at), outcome)] && r.order == h.reg.order
  {
  }

  lemma FinishKeepsInv(h: History, id: nat, status: Status, outcome: Option<int>, at: int, keep: int)
    requires Inv(h) && Legal(h, Finish(id, status, outcome, at))
    ensures Inv(Step(h, Finish(id, status, outcome, at), keep))
  {
    EveryOutcomeIsRecorded(h, id, status, outcome, at, keep);
  }

  lemma StepKeepsInv(h: History, c: Call, keep: int)
    requires Inv(h)
    ensures Inv(Step(h, c, keep))
  {
    if Legal(h, c) {
      match c
      case Submit(id, at) =>
        SubmitKeepsOthers(h.reg, id, at, keep);
        SubmitKeepsInv(h, Apply(h.reg, c, keep), id, at);
      case Finish(id, status, outcome, at) => FinishKeepsInv(h, id, status, outcome, at, keep);
    }
  }

  /** Once a job has finished, a step leaves it as it is or removes it. */
  ghost predicate Frozen(h: History, r: History, id: nat) {
    && (id in h.ended ==> id in r.ended && r.ended[id] == h.ended[id])
    && (id in h.ended && id in r.reg.jobs ==> id in h.reg.jobs && r.reg.jobs[id] == h.reg.jobs[id])
  }

  lemma EndedStays(h: History, c: Call, keep: int, id: nat)
    requires Inv(h)
    ensures Frozen(h, Step(h, c, keep), id)
  {
    if Legal(h, c) && c.Submit? {
      SubmitKeepsOthers(h.reg, c.id, c.at, keep);
    }
  }

  /** Any interleaving of the critical sections, from an empty registry. */
  ghost predicate IsRun(hs: seq<History>, calls: seq<Call>, keep: int) {
    && |hs| == |calls| + 1
    && hs[0] == History(Registry(map[], []), {}, map[])
    && forall i :: 0 <= i < |calls| ==> Legal(hs[i], calls[i]) && hs[i + 1] == Step(hs[i], calls[i], keep)
  }

  /** In every state of every run a job whose work is out is there and running, no other job is
      running, and a finished job shows how its work ended. */
  lemma {:induction false} RunningIsNeverEvicted(hs: seq<History>, calls: seq<Call>, keep: int, j: nat)
    requires IsRun(hs, calls, keep) && j < |hs|
    ensures Inv(hs[j])
  {
    if j > 0 {
      RunningIsNeverEvicted(hs, calls, keep, j - 1);
      StepKeepsInv(hs[j - 1], calls[j - 1], keep);
    }
  }

  /** Once a job is finished it never changes until it is gone, and then it stays away. */
  lemma {:induction false} StatusChangesOnce(hs: seq<History>, calls: seq<Call>, keep: int, i: nat, j: nat, id: nat)
    requires IsRun(hs, calls, keep) && i <= j < |hs|
    ensures Frozen(hs[i], hs[j], id)
    decreases j - i
  {
    if i < j {
      var k := j - 1;
      StatusChangesOnce(hs, calls, keep, i, k, id);
      assert Frozen(hs[k], hs[j], id) by {
        NextFreezes(hs, calls, keep, k, id);
      }
      FrozenChains(hs[i], hs[k], hs[j], id);
    }
  }

  lemma NextFreezes(hs: seq<History>, calls: seq<Call>, keep: int, j: nat, id: nat)
    requires IsRun(hs, calls, keep) && j < |calls|
    ensures Frozen(hs[j], hs[j + 1], id)
  {
    RunningIsNeverEvicted(hs, calls, keep, j);
    EndedStays(hs[j], calls[j], keep, id);
  }

  lemma FrozenChains(a: History, b: History, c: History, id: nat)
    requires Frozen(a, b, id) && Frozen(b, c, id)
    ensures Frozen(a, c, id)
  {
  }

  function Lookup(reg: Registry, id: nat): Option<Job> {
    if id in reg.jobs then Some(reg.jobs[id]) else None
  }

  /** What a poll learns in any state of any run: a running snapshot means the work is still
      out, a finished one shows exactly how it ended, and no snapshot means that the id was
      never handed out or its work has ended. */
  lemma SnapshotTells(hs: seq<History>, calls: seq<Call>, keep: int, j: nat, id: nat)
    requires IsRun(hs, calls, keep) && j < |hs|
    ensures match Lookup(hs[j].reg, id)
      case None => id in hs[j].issued ==> id in hs[j].ended
      case Some(job) =>
        && job.id == id && id in hs[j].issued
        && (job.status == Running <==> id !in hs[j].ended)
        && (job.status != Running ==> hs[j].ended[id] == (job.status, job.outcome))
  {
    RunningIsNeverEvicted(hs, calls, keep, j);
  }

  /** A snapshot is final once it is finished: a later poll shows the same job or none. */
  lemma FinishedSnapshotIsFinal(hs: seq<History>, calls: seq<Call>, keep: int, i: nat, j: nat, id: nat)
    requires IsRun(hs, calls, keep) && i <= j < |hs|
    requires Lookup(hs[i].reg, id).Some? && Lookup(hs[i].reg, id).value.status != Running
    ensures Lookup(hs[j].reg, id) == None || Lookup(hs[j].reg, id) == Lookup(hs[i].reg, id)
  {
    SnapshotTells(hs, calls, keep, i, id);
    StatusChangesOnce(hs, calls, keep, i, j, id);
  }

  class BackgroundJobs {
    var jobs: map<nat, Job>
    var order: seq<nat>
    const keepLast: int

    ghost function State(): Registry
      reads this
    {
      Registry(jobs, order)
    }

    ghost predicate Valid()
      reads this
    {
      State().Valid()
    }

    constructor (keepLast: int)
      ensures Valid() && State() == Registry(map[], []) && this.keepLast == keepLast
    {
      jobs, order := map[], [];
      this.keepLast := keepLast;
    }

    /** The critical section of `submit`; `id` is a fresh one. */
    method Submit(id: nat, at: int)
      requires Valid() && id !in jobs
      modifies this
      ensures Valid() && State() == Apply(old(State()), Call.Submit(id, at), keepLast)
    {
      SubmittedIsValid(State(), id, at);
      SubmitKeepsOthers(State(), id, at, keepLast);
      jobs := jobs[id := Job(id, Running, at, None, None)];
      order := order + [id];
      EvictLocked();
    }

    method EvictLocked()
      requires Valid()
      modifies this
      ensures State() == DropAll(old(State()), Victims(old(State()), keepLast))
    {
      if |jobs| <= keepLast {
        return;
      }
      var finished := SortBy(Finished(order, jobs), AgeIn(jobs));
      assert finished == ByAge(State());
      if |finished| > |jobs| - keepLast {
        finished := finished[..|jobs| - keepLast];
      }
      assert finished == Victims(State(), keepLast);
      Delete(finished);
    }

    method Delete(ids: seq<nat>)
      modifies this
      ensures State() == DropAll(old(State()), ids)
    {
      ghost var before := State();
      for i := 0 to |ids|
        invariant State() == DropAll(before, ids[..i])
      {
        assert ids[..i + 1][..i] == ids[..i];
        jobs := jobs - {ids[i]};
        order := Without(order, ids[i]);
      }
      assert ids[..|ids|] == ids;
    }

    /** The critical section at the end of `_run`. */
    method Finish(id: nat, status: Status, outcome: Option<int>, at: int)
      requires Valid()
      modifies this
      ensures Valid() && State() == Apply(old(State()), Call.Finish(id, status, outcome, at), keepLast)
    {
      if id in jobs {
        jobs := jobs[id := jobs[id].(status := status, finishedAt := Some(at), outcome := outcome)];
      }
    }

    method Get(id: nat) returns (r: Option<Job>)
      requires Valid()
      ensures r == Lookup(State(), id) && (r.Some? ==> r.value.id == id)
    {
      r := if id in jobs then Some(jobs[id]) else None;
    }
  }
}
