/** Streaming `download`: one worker per host spec, each behind its own callback gate, and a
    main thread that may abandon workers it cannot stop. One step per action that another
    thread can observe; the gate's lock is held exactly while its callback runs. */
module FleetGate {

  /** A fetched path: spec number and position in that spec's path list. */
  datatype File = File(spec: nat, path: nat)
  datatype Outcome = Listed | Failed

  /** Resolving: connecting and expanding the listings. Ready: between two files. Fetching: past
      the look at the gate. Raised: an Exception left the worker. Escaped: the callback raised
      something else, which no handler of the worker catches. */
  datatype Pc = Queued | Resolving | Ready | Fetching | Fetched | InCallback | Finished | Raised | Escaped

  /** What a worker reports: which listings failed, for its path k a FileResult or a failure,
      and whether the host could not be reached at all. */
  datatype Findings = Findings(unlisted: seq<nat>, outcomes: seq<Outcome>, hostFailed: bool)

  /** `listed` of the spec's `listings` have been expanded; all of them together with the fixed
      files make `paths` paths, of which those in `fetched` have been retrieved. */
  datatype Worker = Worker(
    pc: Pc,
    listings: nat,
    listed: nat,
    paths: nat,
    fetched: set<nat>,
    found: Findings,
    closed: bool,
    locked: bool)
  {
    predicate AtCallback() {
      pc.Fetched? || pc.InCallback?
    }
  }

  datatype Failure = HostFailure(spec: nat) | ListingFailure(spec: nat, listing: nat) | FileFailure(file: File)

  /** BrokenOff: interrupted in the middle of the loop that closes the gates. */
  datatype Main = Waiting(i: nat) | Abandoning(i: nat) | Closing(i: nat) | Returned | BrokenOff

  /** `taken[i]` records what spec i contributed: what its worker found, or nothing but one failure. */
  datatype Taken = Result(found: Findings) | GivenUp

  datatype State = State(
    main: Main,
    interrupted: bool,
    workers: seq<Worker>,
    ok: seq<File>,
    failures: seq<Failure>,
    started: set<File>,
    completed: set<File>,
    taken: seq<Taken>)

  datatype Action =
    | Start | HostFails | ListFails | ListWorks | Resolve | Raise | StopEarly | GoOn | Finish
    | FetchFails | FetchWorks | GateClosed | Enter | CallbackReturns | CallbackRaises | CallbackEscapes

  datatype Step = Work(w: nat, action: Action) | Take | TakeRaise | TakeEscape | Timeout | CloseAbandoned
    | Interrupt | AllTaken | CloseGate | BreakOff | Return

  function Current(w: nat, worker: Worker): File {
    File(w, |worker.found.outcomes|)
  }

  function Noted(worker: Worker, o: Outcome): Findings {
    worker.found.(outcomes := worker.found.outcomes + [o])
  }

  predicate Allowed(worker: Worker, a: Action) {
    match a
    case Start => worker.pc.Queued?
    case HostFails => worker.pc.Resolving? && worker.listed == 0
    case ListFails => worker.pc.Resolving? && worker.listed < worker.listings
    case ListWorks => worker.pc.Resolving? && worker.listed < worker.listings
    case Resolve => worker.pc.Resolving? && worker.listed >= worker.listings
    case Raise => worker.pc.Resolving?
    case StopEarly => worker.pc.Ready? && |worker.found.outcomes| < worker.paths && worker.closed
    case GoOn => worker.pc.Ready? && |worker.found.outcomes| < worker.paths && !worker.closed
    case Finish => worker.pc.Ready? && |worker.found.outcomes| >= worker.paths
    case FetchFails => worker.pc.Fetching?
    case FetchWorks => worker.pc.Fetching?
    case GateClosed => worker.pc.Fetched? && !worker.locked && worker.closed
    case Enter => worker.pc.Fetched? && !worker.locked && !worker.closed
    case CallbackReturns => worker.pc.InCallback?
    case CallbackRaises => worker.pc.InCallback?
    case CallbackEscapes => worker.pc.InCallback?
  }

  /** A closed gate drops the file, yet the worker lists it like a delivered one. */
  function Act(worker: Worker, a: Action): Worker {
    match a
    case Start => worker.(pc := Resolving)
    case HostFails => worker.(pc := Finished, found := worker.found.(hostFailed := true))
    case ListFails =>
      worker.(listed := worker.listed + 1, found := worker.found.(unlisted := worker.found.unlisted + [worker.listed]))
    case ListWorks => worker.(listed := worker.listed + 1)
    case Resolve => worker.(pc := Ready)
    case Raise => worker.(pc := Raised)
    case StopEarly => worker.(pc := Finished)
    case GoOn => worker.(pc := Fetching)
    case Finish => worker.(pc := Finished)
    case FetchFails => worker.(pc := Ready, found := Noted(worker, Failed))
    case FetchWorks => worker.(pc := Fetched, fetched := worker.fetched + {|worker.found.outcomes|})
    case GateClosed => worker.(pc := Ready, found := Noted(worker, Listed))
    case Enter => worker.(pc := InCallback, locked := true)
    case CallbackReturns => worker.(pc := Ready, locked := false, found := Noted(worker, Listed))
    case CallbackRaises => worker.(pc := Ready, locked := false, found := Noted(worker, Failed))
    case CallbackEscapes => worker.(pc := Escaped, locked := false)
  }

  /** The FileResults of one spec, in path order. */
  function ListedFiles(spec: nat, outcomes: seq<Outcome>): seq<File> {
    if outcomes == [] then []
    else
      var k := |outcomes| - 1;
      ListedFiles(spec, outcomes[..k]) + if outcomes[k].Listed? then [File(spec, k)] else []
  }

  function FailedFiles(spec: nat, outcomes: seq<Outcome>): seq<Failure> {
    if outcomes == [] then []
    else
      var k := |outcomes| - 1;
      FailedFiles(spec, outcomes[..k]) + if outcomes[k].Failed? then [FileFailure(File(spec, k))] else []
  }

  function ListingFailures(spec: nat, unlisted: seq<nat>): seq<Failure> {
    if unlisted == [] then []
    else ListingFailures(spec, unlisted[..|unlisted| - 1]) + [ListingFailure(spec, unlisted[|unlisted| - 1])]
  }

  function FilesOf(spec: nat, t: Taken): seq<File> {
    if t.Result? then ListedFiles(spec, t.found.outcomes) else []
  }

  function FailuresOf(spec: nat, t: Taken): seq<Failure> {
    if t.GivenUp? then [HostFailure(spec)]
    else
      ListingFailures(spec, t.found.unlisted) + FailedFiles(spec, t.found.outcomes)
      + if t.found.hostFailed then [HostFailure(spec)] else []
  }

  /** All contributions in spec order. */
  function AllFiles(taken: seq<Taken>): seq<File> {
    if taken == [] then []
    else AllFiles(taken[..|taken| - 1]) + FilesOf(|taken| - 1, taken[|taken| - 1])
  }

  function AllFailures(taken: seq<Taken>): seq<Failure> {
    if taken == [] then []
    else AllFailures(taken[..|taken| - 1]) + FailuresOf(|taken| - 1, taken[|taken| - 1])
  }

  function Give(s: State, i: nat, t: Taken): State {
    s.(main := Waiting(i + 1), taken := s.taken + [t],
       ok := s.ok + FilesOf(i, t), failures := s.failures + FailuresOf(i, t))
  }

  function Shut(s: State, i: nat): State
    requires i < |s.workers|
  {
    s.(workers := s.workers[i := s.workers[i].(closed := true)])
  }

  predicate Enabled(s: State, step: Step) {
    var n := |s.workers|;
    match step
    case Work(w, a) => w < n && Allowed(s.workers[w], a)
    case Take => s.main.Waiting? && s.main.i < n && s.workers[s.main.i].pc.Finished?
    case TakeRaise => s.main.Waiting? && s.main.i < n && s.workers[s.main.i].pc.Raised?
    case TakeEscape => s.main.Waiting? && s.main.i < n && s.workers[s.main.i].pc.Escaped?
    case Timeout =>
      s.main.Waiting? && s.main.i < n && s.workers[s.main.i].pc in {Resolving, Ready, Fetching, Fetched, InCallback}
    case CloseAbandoned => s.main.Abandoning? && s.main.i < n && !s.workers[s.main.i].locked
    case Interrupt => s.main.Waiting? || s.main.Abandoning?
    case AllTaken => s.main == Waiting(n)
    case CloseGate => s.main.Closing? && s.main.i < n && !s.workers[s.main.i].locked
    case BreakOff => s.main.Closing?
    case Return => s.main == Closing(n)
  }

  function Apply(s: State, step: Step): State
    requires Enabled(s, step)
  {
    match step
    case Work(w, a) =>
      var file := Current(w, s.workers[w]);
      s.(workers := s.workers[w := Act(s.workers[w], a)],
         started := if a.Enter? then s.started + {file} else s.started,
         completed := if a.CallbackReturns? then s.completed + {file} else s.completed)
    case Take => Give(s, s.main.i, Result(s.workers[s.main.i].found))
    case TakeRaise => Give(s, s.main.i, GivenUp)
    case TakeEscape => s.(main := Closing(0), interrupted := true)
    case Timeout => s.(main := Abandoning(s.main.i))
    case CloseAbandoned => Give(Shut(s, s.main.i), s.main.i, GivenUp)
    case Interrupt => s.(main := Closing(0), interrupted := true)
    case AllTaken => s.(main := Closing(0))
    case CloseGate => Shut(s, s.main.i).(main := Closing(s.main.i + 1))
    case BreakOff => s.(main := BrokenOff, interrupted := true)
    case Return => s.(main := Returned)
  }

  const NOTHING_FOUND := Findings([], [], false)

  ghost predicate Initial(s: State) {
    && s.main == Waiting(0) && !s.interrupted
    && (forall w :: 0 <= w < |s.workers| ==>
         s.workers[w] == Worker(Queued, s.workers[w].listings, 0, s.workers[w].paths, {}, NOTHING_FOUND, false, false))
    && s.ok == [] && s.failures == [] && s.taken == [] && s.started == {} && s.completed == {}
  }

  ghost predicate Next(s: State, t: State) {
    exists step :: StepTo(s, step, t)
  }

  ghost predicate StepTo(s: State, step: Step, t: State) {
    Enabled(s, step) && t == Apply(s, step)
  }

  /** Any interleaving whatever of the main thread and the workers. */
  ghost predicate IsRun(run: seq<State>) {
    && run != [] && Initial(run[0])
    && forall i :: 0 <= i < |run| - 1 ==> Next(run[i], run[i + 1])
  }

  predicate Ascending(s: seq<nat>, bound: nat) {
    && (forall i, j :: 0 <= i < j < |s| ==> s[i] < s[j])
    && forall i :: 0 <= i < |s| ==> s[i] < bound
  }

  /** A worker that was not stopped early has an outcome for every path, or never got that far. */
  predicate SaysAll(worker: Worker) {
    worker.found.hostFailed || |worker.found.outcomes| == worker.paths
  }

  ghost predicate WorkerInv(w: nat, worker: Worker, started: set<File>, completed: set<File>) {
    var outcomes := worker.found.outcomes;
    && (worker.locked <==> worker.pc.InCallback?)
    && (worker.closed ==> !worker.locked)
    && |outcomes| <= worker.paths
    && (worker.found.hostFailed ==> worker.pc.Finished? && outcomes == [] && worker.found.unlisted == [])
    && worker.listed <= worker.listings && Ascending(worker.found.unlisted, worker.listed)
    && (worker.listed == worker.listings || worker.pc.Queued? || worker.pc.Resolving? || worker.pc.Raised?
        || worker.found.hostFailed)
    && (worker.pc.Finished? && !worker.closed ==> SaysAll(worker))
    && (worker.pc.Queued? || worker.pc.Resolving? || worker.pc.Raised? ==> outcomes == [])
    && (worker.pc.Fetching? || worker.AtCallback() ==> |outcomes| < worker.paths)
    && FetchInv(w, worker, started)
    && (forall k :: 0 <= k < |outcomes| && outcomes[k].Listed? ==> File(w, k) in completed || worker.closed)
    && (forall k: nat :: File(w, k) in completed ==> k < |outcomes| && outcomes[k].Listed?)
    && (forall k: nat :: File(w, k) in started ==>
          k < |outcomes| || ((worker.pc.InCallback? || worker.pc.Escaped?) && k == |outcomes|))
  }

  /** A callback starts for a file that was retrieved, and a failure of a file that was is one
      of its callback. */
  ghost predicate FetchInv(w: nat, worker: Worker, started: set<File>) {
    var outcomes := worker.found.outcomes;
    && (worker.AtCallback() ==> |outcomes| in worker.fetched)
    && (worker.pc.InCallback? ==> File(w, |outcomes|) in started)
    && (forall k: nat :: File(w, k) in started ==> k in worker.fetched)
    && (forall k :: 0 <= k < |outcomes| ==>
          if outcomes[k].Failed? then k in worker.fetched <==> File(w, k) in started else k in worker.fetched)
    && (forall k :: k in worker.fetched ==>
          k < |outcomes| || (k == |outcomes| && (worker.AtCallback() || worker.pc.Escaped?)))
  }

  ghost predicate TakenInv(i: nat, t: Taken, worker: Worker, completed: set<File>) {
    if t.GivenUp? then worker.closed || worker.pc.Raised?
    else
      && worker.pc.Finished? && t.found == worker.found && SaysAll(worker)
      && forall k :: 0 <= k < |t.found.outcomes| ==> (t.found.outcomes[k].Listed? <==> File(i, k) in completed)
  }

  ghost predicate MainInv(s: State) {
    var n := |s.workers|;
    match s.main
    case Waiting(i) => i <= n && |s.taken| == i && !s.interrupted && OpenFrom(s, i)
    case Abandoning(i) => i < n && |s.taken| == i && !s.interrupted && OpenFrom(s, i)
    case Closing(j) => j <= n && ClosedBelow(s, j) && (!s.interrupted ==> |s.taken| == n)
    case Returned => ClosedBelow(s, n) && (!s.interrupted ==> |s.taken| == n)
    case BrokenOff => s.interrupted
  }

  ghost predicate OpenFrom(s: State, i: nat) {
    forall w :: i <= w < |s.workers| ==> !s.workers[w].closed
  }

  ghost predicate ClosedBelow(s: State, j: nat) {
    forall w :: 0 <= w < |s.workers| && w < j ==> s.workers[w].closed
  }

  ghost predicate Inv(s: State) {
    && MainInv(s)
    && (forall w :: 0 <= w < |s.workers| ==> WorkerInv(w, s.workers[w], s.started, s.completed))
    && |s.taken| <= |s.workers|
    && (forall i :: 0 <= i < |s.taken| ==> TakenInv(i, s.taken[i], s.workers[i], s.completed))
    && s.ok == AllFiles(s.taken) && s.failures == AllFailures(s.taken)
  }

  lemma ActKeepsFetches(w: nat, worker: Worker, a: Action, started: set<File>)
    requires FetchInv(w, worker, started) && Allowed(worker, a)
    requires forall k: nat :: File(w, k) in started ==>
               k < |worker.found.outcomes|
               || ((worker.pc.InCallback? || worker.pc.Escaped?) && k == |worker.found.outcomes|)
    ensures FetchInv(w, Act(worker, a), if a.Enter? then started + {Current(w, worker)} else started)
  {
  }

  lemma ActKeepsInv(w: nat, worker: Worker, a: Action, started: set<File>, completed: set<File>)
    requires WorkerInv(w, worker, started, completed) && Allowed(worker, a)
    ensures WorkerInv(w, Act(worker, a),
                      if a.Enter? then started + {Current(w, worker)} else started,
                      if a.CallbackReturns? then completed + {Current(w, worker)} else completed)
  {
    ActKeepsFetches(w, worker, a, started);
    var unlisted := worker.found.unlisted;
    assert unlisted != [] ==> 0 <= unlisted[0] < worker.listed;
  }

  /** No action of one worker disturbs what another has reported. */
  lemma OthersKeepInv(s: State, w: nat, a: Action, v: nat)
    requires Inv(s) && Enabled(s, Work(w, a)) && v < |s.workers| && v != w
    ensures var t := Apply(s, Work(w, a)); WorkerInv(v, t.workers[v], t.started, t.completed)
  {
    var t := Apply(s, Work(w, a));
    assert WorkerInv(v, s.workers[v], s.started, s.completed) && t.workers[v] == s.workers[v];
    assert forall k: nat :: File(v, k) in t.completed <==> File(v, k) in s.completed;
    assert forall k: nat :: File(v, k) in t.started <==> File(v, k) in s.started;
  }

  lemma WorkersKeepInv(s: State, step: Step, v: nat)
    requires Inv(s) && Enabled(s, step) && v < |s.workers|
    ensures var t := Apply(s, step); WorkerInv(v, t.workers[v], t.started, t.completed)
  {
    assert WorkerInv(v, s.workers[v], s.started, s.completed);
    if step.Work? && step.w == v {
      ActKeepsInv(v, s.workers[v], step.action, s.started, s.completed);
    } else if step.Work? {
      OthersKeepInv(s, step.w, step.action, v);
    }
  }

  /** What a spec has contributed stays true of its worker. */
  lemma OldTakenKept(s: State, step: Step, i: nat)
    requires Inv(s) && Enabled(s, step) && i < |s.taken|
    ensures var t := Apply(s, step); i < |t.taken| && TakenInv(i, t.taken[i], t.workers[i], t.completed)
  {
    var t := Apply(s, step);
    assert TakenInv(i, s.taken[i], s.workers[i], s.completed) && t.taken[i] == s.taken[i];
    if step.Work? && step.w == i {
      assert s.taken[i].GivenUp?;
    } else {
      assert forall k: nat :: File(i, k) in t.completed <==> File(i, k) in s.completed;
    }
  }

  lemma NewTakenInv(s: State, step: Step)
    requires Inv(s) && Enabled(s, step) && (step.Take? || step.TakeRaise? || step.CloseAbandoned?)
    ensures var t, i := Apply(s, step), s.main.i;
      |s.taken| == i < |t.taken| && TakenInv(i, t.taken[i], t.workers[i], t.completed)
  {
    var i := s.main.i;
    assert WorkerInv(i, s.workers[i], s.started, s.completed) && !s.workers[i].closed;
    assert (s.taken + [Apply(s, step).taken[i]])[i] == Apply(s, step).taken[i];
  }

  lemma TakenKeepsInv(s: State, step: Step, i: nat)
    requires Inv(s) && Enabled(s, step) && i < |Apply(s, step).taken|
    ensures var t := Apply(s, step); TakenInv(i, t.taken[i], t.workers[i], t.completed)
  {
    if i < |s.taken| {
      OldTakenKept(s, step, i);
    } else {
      NewTakenInv(s, step);
    }
  }

  lemma WorkKeepsMain(s: State, w: nat, a: Action)
    requires MainInv(s) && Enabled(s, Work(w, a))
    ensures MainInv(Apply(s, Work(w, a)))
  {
    var t := Apply(s, Work(w, a));
    assert forall v :: 0 <= v < |s.workers| ==> t.workers[v].closed == s.workers[v].closed;
  }

  lemma MoveKeepsMain(s: State, step: Step)
    requires MainInv(s) && Enabled(s, step) && !step.Work?
    ensures MainInv(Apply(s, step))
  {
  }

  lemma MainKeepsInv(s: State, step: Step)
    requires Inv(s) && Enabled(s, step)
    ensures MainInv(Apply(s, step))
  {
    match step
    case Work(w, a) => WorkKeepsMain(s, w, a);
    case _ => MoveKeepsMain(s, step);
  }

  lemma GiveKeepsReport(s: State, t: Taken)
    requires s.ok == AllFiles(s.taken) && s.failures == AllFailures(s.taken)
    ensures var r := Give(s, |s.taken|, t); r.ok == AllFiles(r.taken) && r.failures == AllFailures(r.taken)
  {
    assert (s.taken + [t])[..|s.taken|] == s.taken;
  }

  lemma ReportKeepsInv(s: State, step: Step)
    requires Inv(s) && Enabled(s, step)
    ensures var t := Apply(s, step); t.ok == AllFiles(t.taken) && t.failures == AllFailures(t.taken)
  {
    match step
    case Take => GiveKeepsReport(s, Result(s.workers[s.main.i].found));
    case TakeRaise => GiveKeepsReport(s, GivenUp);
    case CloseAbandoned => GiveKeepsReport(Shut(s, s.main.i), GivenUp);
    case _ =>
  }

  lemma StepKeepsInv(s: State, step: Step)
    requires Inv(s) && Enabled(s, step)
    ensures Inv(Apply(s, step))
  {
    var t := Apply(s, step);
    MainKeepsInv(s, step);
    ReportKeepsInv(s, step);
    forall v | 0 <= v < |t.workers| ensures WorkerInv(v, t.workers[v], t.started, t.completed) {
      WorkersKeepInv(s, step, v);
    }
    forall i | 0 <= i < |t.taken| ensures TakenInv(i, t.taken[i], t.workers[i], t.completed) {
      TakenKeepsInv(s, step, i);
    }
  }

  lemma {:induction false} RunKeepsInv(run: seq<State>, i: nat)
    requires IsRun(run) && i < |run|
    ensures Inv(run[i])
  {
    if i > 0 {
      RunKeepsInv(run, i - 1);
      var step :| StepTo(run[i - 1], step, run[i]);
      StepKeepsInv(run[i - 1], step);
    }
  }

  /** Nothing is delivered or reported between the two states. */
  predicate Fenced(s: State, t: State) {
    && t.main.Returned? && t.started == s.started && t.completed == s.completed
    && t.ok == s.ok && t.failures == s.failures
  }

  /** With every gate closed nobody is in a callback, and no step lets anybody in. */
  lemma ReturnedStays(s: State, step: Step)
    requires Inv(s) && Enabled(s, step) && s.main.Returned?
    ensures Fenced(s, Apply(s, step))
  {
    assert WorkerInv(step.w, s.workers[step.w], s.started, s.completed);
  }

  lemma NobodyInside(s: State, w: nat)
    requires Inv(s) && s.main.Returned? && w < |s.workers|
    ensures !s.workers[w].pc.InCallback?
  {
    assert WorkerInv(w, s.workers[w], s.started, s.completed);
  }

  lemma NextIsFenced(run: seq<State>, j: nat)
    requires IsRun(run) && j + 1 < |run| && run[j].main.Returned?
    ensures Fenced(run[j], run[j + 1])
  {
    RunKeepsInv(run, j);
    assert Next(run[j], run[j + 1]);
    var step :| StepTo(run[j], step, run[j + 1]);
    ReturnedStays(run[j], step);
  }

  lemma {:induction false} StaysFenced(run: seq<State>, i: nat, j: nat)
    requires IsRun(run) && i <= j < |run| && run[i].main.Returned?
    ensures Fenced(run[i], run[j])
  {
    if i < j {
      StaysFenced(run, i, j - 1);
      NextIsFenced(run, j - 1);
    }
  }

  /** Once `download` has returned, in any interleaving, no callback is running and none
      starts or completes ever again. */
  lemma CallbackFence(run: seq<State>, i: nat, j: nat)
    requires IsRun(run) && i <= j < |run| && run[i].main.Returned?
    ensures Fenced(run[i], run[j])
    ensures forall w :: 0 <= w < |run[j].workers| ==> !run[j].workers[w].pc.InCallback?
  {
    StaysFenced(run, i, j);
    RunKeepsInv(run, j);
    forall w | 0 <= w < |run[j].workers|
      ensures !run[j].workers[w].pc.InCallback?
    {
      NobodyInside(run[j], w);
    }
  }

  function OfSpec(files: set<File>, w: nat): set<File> {
    set f | f in files && f.spec == w
  }

  /** Of the callbacks of spec `w`, none starts or completes between the two states. */
  predicate Silent(s: State, t: State, w: nat) {
    OfSpec(t.started, w) == OfSpec(s.started, w) && OfSpec(t.completed, w) == OfSpec(s.completed, w)
  }

  predicate HostFenced(s: State, t: State, w: nat) {
    w < |t.workers| && t.workers[w].closed && Silent(s, t, w)
  }

  /** A step of the worker itself that neither enters nor returns, or a step of anyone else. */
  lemma StepIsSilent(s: State, step: Step, w: nat)
    requires Enabled(s, step)
    requires step.Work? && step.w == w ==> !step.action.Enter? && !step.action.CallbackReturns?
    ensures Silent(s, Apply(s, step), w)
  {
  }

  lemma StepKeepsHostFenced(s: State, step: Step, w: nat)
    requires Inv(s) && Enabled(s, step) && w < |s.workers| && s.workers[w].closed
    ensures HostFenced(s, Apply(s, step), w)
  {
    assert WorkerInv(w, s.workers[w], s.started, s.completed);
    StepIsSilent(s, step, w);
  }

  lemma NextIsHostFenced(run: seq<State>, j: nat, w: nat)
    requires IsRun(run) && j + 1 < |run| && w < |run[j].workers| && run[j].workers[w].closed
    ensures HostFenced(run[j], run[j + 1], w)
  {
    RunKeepsInv(run, j);
    assert Next(run[j], run[j + 1]);
    var step :| StepTo(run[j], step, run[j + 1]);
    StepKeepsHostFenced(run[j], step, w);
  }

  lemma SilenceChains(a: State, b: State, c: State, w: nat)
    requires Silent(a, b, w) && Silent(b, c, w)
    ensures Silent(a, c, w)
  {
  }

  lemma {:induction false} StaysHostFenced(run: seq<State>, i: nat, j: nat, w: nat)
    requires IsRun(run) && i <= j < |run| && w < |run[i].workers| && run[i].workers[w].closed
    ensures HostFenced(run[i], run[j], w)
  {
    if i < j {
      var k := j - 1;
      StaysHostFenced(run, i, k, w);
      NextIsHostFenced(run, k, w);
      SilenceChains(run[i], run[k], run[j], w);
    }
  }

  /** Once one host's gate is closed, long before `download` returns, no callback of that host
      runs, starts or completes ever again. */
  lemma HostFence(run: seq<State>, i: nat, j: nat, w: nat)
    requires IsRun(run) && i <= j < |run| && w < |run[i].workers| && run[i].workers[w].closed
    ensures HostFenced(run[i], run[j], w) && !run[j].workers[w].pc.InCallback?
  {
    StaysHostFenced(run, i, j, w);
    RunKeepsInv(run, j);
    assert WorkerInv(w, run[j].workers[w], run[j].started, run[j].completed);
  }

  /** A host given up on was cut off first, unless its worker raised: from the moment its
      failure is recorded, its callbacks are over. */
  lemma AbandonedIsFenced(run: seq<State>, i: nat, j: nat, w: nat)
    requires IsRun(run) && i <= j < |run| && w < |run[i].taken| && run[i].taken[w].GivenUp?
    ensures w < |run[j].workers| && !run[j].workers[w].pc.InCallback? && Silent(run[i], run[j], w)
  {
    RunKeepsInv(run, i);
    assert TakenInv(w, run[i].taken[w], run[i].workers[w], run[i].completed);
    if run[i].workers[w].closed {
      HostFence(run, i, j, w);
    } else {
      StaysRaised(run, i, j, w);
    }
  }

  predicate RaisedAt(s: State, w: nat) {
    w < |s.workers| && s.workers[w].pc.Raised?
  }

  predicate RaisedSilent(s: State, t: State, w: nat) {
    RaisedAt(t, w) && Silent(s, t, w)
  }

  lemma StepKeepsRaised(s: State, step: Step, w: nat)
    requires Enabled(s, step) && RaisedAt(s, w)
    ensures RaisedSilent(s, Apply(s, step), w)
  {
    StepIsSilent(s, step, w);
  }

  lemma NextIsRaised(run: seq<State>, j: nat, w: nat)
    requires IsRun(run) && j + 1 < |run| && RaisedAt(run[j], w)
    ensures RaisedSilent(run[j], run[j + 1], w)
  {
    assert Next(run[j], run[j + 1]);
    var step :| StepTo(run[j], step, run[j + 1]);
    StepKeepsRaised(run[j], step, w);
  }

  lemma {:induction false} StaysRaised(run: seq<State>, i: nat, j: nat, w: nat)
    requires IsRun(run) && i <= j < |run| && RaisedAt(run[i], w)
    ensures RaisedSilent(run[i], run[j], w)
  {
    if i < j {
      var k := j - 1;
      StaysRaised(run, i, k, w);
      NextIsRaised(run, k, w);
      SilenceChains(run[i], run[k], run[j], w);
    }
  }

  function SpecOf(f: Failure): nat {
    match f
    case HostFailure(w) => w
    case ListingFailure(w, _) => w
    case FileFailure(file) => file.spec
  }

  function One(b: bool): nat {
    if b then 1 else 0
  }

  /** How often a failure is in what one spec contributes. */
  predicate Contributes(t: Taken, f: Failure) {
    match f
    case HostFailure(_) => t.GivenUp? || t.found.hostFailed
    case ListingFailure(_, k) => t.Result? && k in t.found.unlisted
    case FileFailure(file) => t.Result? && file.path < |t.found.outcomes| && t.found.outcomes[file.path].Failed?
  }

  lemma {:induction false} ListingCount(spec: nat, unlisted: seq<nat>, bound: nat, f: Failure)
    requires Ascending(unlisted, bound)
    ensures multiset(ListingFailures(spec, unlisted))[f]
         == One(f.ListingFailure? && f.spec == spec && f.listing in unlisted)
  {
    if unlisted != [] {
      var k := |unlisted| - 1;
      ListingCount(spec, unlisted[..k], bound, f);
      assert unlisted == unlisted[..k] + [unlisted[k]] && unlisted[k] !in unlisted[..k];
    }
  }

  lemma {:induction false} FailedCount(spec: nat, outcomes: seq<Outcome>, f: Failure)
    ensures multiset(FailedFiles(spec, outcomes))[f]
         == One(f.FileFailure? && f.file.spec == spec && f.file.path < |outcomes| && outcomes[f.file.path].Failed?)
  {
    if outcomes != [] {
      FailedCount(spec, outcomes[..|outcomes| - 1], f);
    }
  }

  ghost predicate InOrder(t: Taken) {
    t.Result? ==> exists bound :: Ascending(t.found.unlisted, bound)
  }

  lemma ContributionCount(spec: nat, t: Taken, f: Failure)
    requires InOrder(t)
    ensures multiset(FailuresOf(spec, t))[f] == One(SpecOf(f) == spec && Contributes(t, f))
  {
    if t.Result? {
      var bound :| Ascending(t.found.unlisted, bound);
      ListingCount(spec, t.found.unlisted, bound, f);
      FailedCount(spec, t.found.outcomes, f);
    }
  }

  lemma CountConcat(a: seq<Failure>, b: seq<Failure>, f: Failure)
    ensures multiset(a + b)[f] == multiset(a)[f] + multiset(b)[f]
  {
  }

  lemma {:induction false} FailureCount(taken: seq<Taken>, f: Failure)
    requires forall w :: 0 <= w < |taken| ==> InOrder(taken[w])
    ensures multiset(AllFailures(taken))[f] == One(SpecOf(f) < |taken| && Contributes(taken[SpecOf(f)], f))
  {
    if taken != [] {
      var k := |taken| - 1;
      FailureCount(taken[..k], f);
      ContributionCount(k, taken[k], f);
      CountConcat(AllFailures(taken[..k]), FailuresOf(k, taken[k]), f);
    }
  }

  lemma {:induction false} ListedCount(spec: nat, outcomes: seq<Outcome>, f: File)
    ensures multiset(ListedFiles(spec, outcomes))[f]
         == One(f.spec == spec && f.path < |outcomes| && outcomes[f.path].Listed?)
  {
    if outcomes != [] {
      ListedCount(spec, outcomes[..|outcomes| - 1], f);
    }
  }

  predicate Delivers(t: Taken, k: nat) {
    t.Result? && k < |t.found.outcomes| && t.found.outcomes[k].Listed?
  }

  lemma {:induction false} FileCount(taken: seq<Taken>, f: File)
    ensures multiset(AllFiles(taken))[f] == One(f.spec < |taken| && Delivers(taken[f.spec], f.path))
  {
    if taken != [] {
      var k := |taken| - 1;
      FileCount(taken[..k], f);
      if taken[k].Result? {
        ListedCount(k, taken[k].found.outcomes, f);
      }
    }
  }

  predicate FilesInOrder(files: seq<File>) {
    forall i, j :: 0 <= i < j < |files| ==>
      files[i].spec < files[j].spec || (files[i].spec == files[j].spec && files[i].path < files[j].path)
  }

  predicate FailuresInOrder(failures: seq<Failure>) {
    forall i, j :: 0 <= i < j < |failures| ==> SpecOf(failures[i]) <= SpecOf(failures[j])
  }

  lemma {:induction false} ListedInOrder(spec: nat, outcomes: seq<Outcome>)
    ensures var files := ListedFiles(spec, outcomes);
      FilesInOrder(files) && forall i :: 0 <= i < |files| ==> files[i].spec == spec && files[i].path < |outcomes|
  {
    if outcomes != [] {
      ListedInOrder(spec, outcomes[..|outcomes| - 1]);
    }
  }

  lemma {:induction false} AllFilesInOrder(taken: seq<Taken>)
    ensures var files := AllFiles(taken);
      FilesInOrder(files) && forall i :: 0 <= i < |files| ==> files[i].spec < |taken|
  {
    if taken != [] {
      var k := |taken| - 1;
      AllFilesInOrder(taken[..k]);
      if taken[k].Result? {
        ListedInOrder(k, taken[k].found.outcomes);
      }
    }
  }

  lemma {:induction false} ListingsOfSpec(spec: nat, unlisted: seq<nat>)
    ensures forall f :: f in ListingFailures(spec, unlisted) ==> SpecOf(f) == spec
  {
    if unlisted != [] {
      ListingsOfSpec(spec, unlisted[..|unlisted| - 1]);
    }
  }

  lemma {:induction false} FailedOfSpec(spec: nat, outcomes: seq<Outcome>)
    ensures forall f :: f in FailedFiles(spec, outcomes) ==> SpecOf(f) == spec
  {
    if outcomes != [] {
      FailedOfSpec(spec, outcomes[..|outcomes| - 1]);
    }
  }

  lemma {:induction false} AllFailuresInOrder(taken: seq<Taken>)
    ensures var failures := AllFailures(taken);
      FailuresInOrder(failures) && forall i :: 0 <= i < |failures| ==> SpecOf(failures[i]) < |taken|
  {
    if taken != [] {
      var k := |taken| - 1;
      AllFailuresInOrder(taken[..k]);
      if taken[k].Result? {
        ListingsOfSpec(k, taken[k].found.unlisted);
        FailedOfSpec(k, taken[k].found.outcomes);
      }
      var mine := FailuresOf(k, taken[k]);
      assert forall i :: 0 <= i < |mine| ==> mine[i] in mine && SpecOf(mine[i]) == k;
    }
  }

  /** Given up: cut off after its timeout, or its worker raised. */
  predicate GaveUp(s: State, w: nat) {
    w < |s.taken| && s.taken[w].GivenUp?
  }

  /** What the two lists of a report hold of spec `w`: one failure and nothing else if it was
      given up, and otherwise each file whose callback completed and each failure that its
      worker found, once. */
  ghost predicate ReportHas(s: State, w: nat, k: nat) {
    var own := w < |s.workers| && !GaveUp(s, w);
    var failures := multiset(s.failures);
    && multiset(s.ok)[File(w, k)] == One(own && File(w, k) in s.completed)
    && failures[HostFailure(w)] == One(GaveUp(s, w) || (own && s.workers[w].found.hostFailed))
    && failures[ListingFailure(w, k)] == One(own && k in s.workers[w].found.unlisted)
    && failures[FileFailure(File(w, k))]
       == One(own && k < |s.workers[w].found.outcomes| && s.workers[w].found.outcomes[k].Failed?)
  }

  lemma TakenInOrder(s: State)
    requires Inv(s)
    ensures forall v :: 0 <= v < |s.taken| ==> InOrder(s.taken[v])
  {
    forall v | 0 <= v < |s.taken|
      ensures InOrder(s.taken[v])
    {
      assert TakenInv(v, s.taken[v], s.workers[v], s.completed);
      assert WorkerInv(v, s.workers[v], s.started, s.completed);
    }
  }

  lemma TakenReports(s: State, w: nat, k: nat)
    requires Inv(s) && |s.taken| == |s.workers|
    ensures ReportHas(s, w, k)
  {
    TakenInOrder(s);
    FileCount(s.taken, File(w, k));
    FailureCount(s.taken, HostFailure(w));
    FailureCount(s.taken, ListingFailure(w, k));
    FailureCount(s.taken, FileFailure(File(w, k)));
    if w < |s.workers| {
      assert TakenInv(w, s.taken[w], s.workers[w], s.completed);
      assert WorkerInv(w, s.workers[w], s.started, s.completed);
    }
  }

  /** The report of a download that returned normally: both lists hold exactly what each spec
      leaves, in spec order. */
  lemma ReportSound(run: seq<State>, i: nat, w: nat, k: nat)
    requires IsRun(run) && i < |run| && run[i].main.Returned? && !run[i].interrupted
    ensures ReportHas(run[i], w, k) && FilesInOrder(run[i].ok) && FailuresInOrder(run[i].failures)
  {
    RunKeepsInv(run, i);
    AllFilesInOrder(run[i].taken);
    AllFailuresInOrder(run[i].taken);
    TakenReports(run[i], w, k);
  }

  /** Every spec was given up, because its gate was closed or its worker raised before any file,
      or has finished. Of a host that was reached and not given up each path is in the report
      once, as a file or as a failure, and a failure of a path that was retrieved is one of its
      callback. */
  lemma ReportComplete(run: seq<State>, i: nat, w: nat, k: nat)
    requires IsRun(run) && i < |run| && run[i].main.Returned? && !run[i].interrupted && w < |run[i].workers|
    ensures var s, worker := run[i], run[i].workers[w];
      if GaveUp(s, w) then worker.closed || (worker.pc.Raised? && worker.found.outcomes == [])
      else
        && worker.pc.Finished?
        && (!worker.found.hostFailed && k < worker.paths ==>
              multiset(s.ok)[File(w, k)] + multiset(s.failures)[FileFailure(File(w, k))] == 1)
        && (FileFailure(File(w, k)) in multiset(s.failures) ==> (k in worker.fetched <==> File(w, k) in s.started))
  {
    RunKeepsInv(run, i);
    var s := run[i];
    TakenReports(s, w, k);
    assert TakenInv(w, s.taken[w], s.workers[w], s.completed);
    assert WorkerInv(w, s.workers[w], s.started, s.completed) && FetchInv(w, s.workers[w], s.started);
  }

  /** The files a worker is through with or past its look at the gate for. */
  function Begun(worker: Worker): nat {
    |worker.found.outcomes| + if worker.pc.Fetching? || worker.AtCallback() then 1 else 0
  }

  /** A worker with a closed gate begins no file. */
  predicate BeginsNone(before: Worker, after: Worker) {
    after.closed && Begun(after) <= Begun(before)
  }

  lemma StepBeginsNone(before: Worker, s: State, step: Step, w: nat)
    requires Enabled(s, step) && w < |s.workers| && BeginsNone(before, s.workers[w])
    ensures BeginsNone(before, Apply(s, step).workers[w])
  {
  }

  predicate NothingBegun(s: State, t: State, w: nat) {
    w < |s.workers| && w < |t.workers| && BeginsNone(s.workers[w], t.workers[w])
  }

  lemma NextBeginsNone(s: State, run: seq<State>, j: nat, w: nat)
    requires IsRun(run) && j + 1 < |run| && NothingBegun(s, run[j], w)
    ensures NothingBegun(s, run[j + 1], w)
  {
    assert Next(run[j], run[j + 1]);
    var step :| StepTo(run[j], step, run[j + 1]);
    StepBeginsNone(s.workers[w], run[j], step, w);
  }

  /** Once its gate is closed a worker begins no file any more: it is through with the one in
      hand at most. */
  lemma {:induction false} StopsSoon(run: seq<State>, i: nat, j: nat, w: nat)
    requires IsRun(run) && i <= j < |run| && w < |run[i].workers| && run[i].workers[w].closed
    ensures NothingBegun(run[i], run[j], w)
  {
    if i == j {
      assert BeginsNone(run[i].workers[w], run[i].workers[w]);
    } else {
      var k := j - 1;
      StopsSoon(run, i, k, w);
      NextBeginsNone(run[i], run, k, w);
    }
  }

  /** Neither an interrupt nor a callback that raises something else than an Exception. */
  predicate Calm(step: Step) {
    !step.Interrupt? && !step.BreakOff? && !(step.Work? && step.action.CallbackEscapes?)
  }

  ghost predicate IsCalm(run: seq<State>) {
    && run != [] && Initial(run[0])
    && forall i :: 0 <= i < |run| - 1 ==> CalmNext(run[i], run[i + 1])
  }

  ghost predicate CalmNext(s: State, t: State) {
    exists step :: StepTo(s, step, t) && Calm(step)
  }

  ghost predicate Unharmed(s: State) {
    !s.interrupted && forall w :: 0 <= w < |s.workers| ==> !s.workers[w].pc.Escaped?
  }

  lemma InterruptsEndIt(s: State, step: Step)
    requires Enabled(s, step)
    ensures Apply(s, step).interrupted <==> s.interrupted || step.Interrupt? || step.BreakOff? || step.TakeEscape?
  {
  }

  /** A file that cannot be retrieved, or whose callback raises, is noted and the next one taken. */
  lemma FailureIsNoted(worker: Worker, a: Action)
    requires Allowed(worker, a) && (a.FetchFails? || a.CallbackRaises?)
    ensures Act(worker, a).pc.Ready? && Act(worker, a).found == Noted(worker, Failed)
  {
  }

  /** One host never sinks the fleet: whatever fails on it, listings, files, callbacks or the
      worker itself, the download goes on. */
  lemma {:induction false} FailuresAreIsolated(run: seq<State>, i: nat)
    requires IsCalm(run) && i < |run|
    ensures Unharmed(run[i])
  {
    if i > 0 {
      FailuresAreIsolated(run, i - 1);
      assert CalmNext(run[i - 1], run[i]);
      var step :| StepTo(run[i - 1], step, run[i]) && Calm(step);
      InterruptsEndIt(run[i - 1], step);
      if step.Work? && (step.action.FetchFails? || step.action.CallbackRaises?) {
        FailureIsNoted(run[i - 1].workers[step.w], step.action);
      }
    }
  }

  // Every download comes to its end.

  /** How many steps the worker still has, at most. */
  function WorkLeft(worker: Worker): int {
    var rest := 4 * (worker.paths - |worker.found.outcomes|);
    match worker.pc
    case Queued => worker.listings + rest + 4
    case Resolving => worker.listings - worker.listed + rest + 3
    case Ready => rest + 2
    case Fetching => rest + 1
    case Fetched => rest
    case InCallback => rest - 1
    case _ => 0
  }

  function MainLeft(s: State): int {
    var n := |s.workers|;
    match s.main
    case Waiting(i) => 2 * (n - i) + n + 3
    case Abandoning(i) => 2 * (n - i) + n + 2
    case Closing(j) => n - j + 2
    case Returned => 0
    case BrokenOff => 0
  }

  function AllWorkLeft(workers: seq<Worker>): int {
    if workers == [] then 0 else AllWorkLeft(workers[..|workers| - 1]) + WorkLeft(workers[|workers| - 1])
  }

  function Left(s: State): int {
    MainLeft(s) + AllWorkLeft(s.workers)
  }

  lemma {:induction false} OneWorkerChanges(workers: seq<Worker>, w: nat, worker: Worker)
    requires w < |workers|
    ensures AllWorkLeft(workers[w := worker]) == AllWorkLeft(workers) + WorkLeft(worker) - WorkLeft(workers[w])
  {
    var k := |workers| - 1;
    if w == k {
      assert workers[w := worker][..k] == workers[..k];
    } else {
      OneWorkerChanges(workers[..k], w, worker);
      assert workers[w := worker][..k] == workers[..k][w := worker];
    }
  }

  lemma ActUsesWork(w: nat, worker: Worker, a: Action, started: set<File>, completed: set<File>)
    requires WorkerInv(w, worker, started, completed) && Allowed(worker, a)
    ensures WorkLeft(Act(worker, a)) < WorkLeft(worker)
  {
  }

  lemma {:induction false} WorkIsNatural(s: State, k: nat)
    requires k <= |s.workers| && forall w :: 0 <= w < k ==> WorkerInv(w, s.workers[w], s.started, s.completed)
    ensures AllWorkLeft(s.workers[..k]) >= 0
  {
    if k > 0 {
      WorkIsNatural(s, k - 1);
      assert s.workers[..k][..k - 1] == s.workers[..k - 1];
      assert WorkerInv(k - 1, s.workers[k - 1], s.started, s.completed);
    }
  }

  lemma WorkUsesSome(s: State, w: nat, a: Action)
    requires Inv(s) && Enabled(s, Work(w, a))
    ensures AllWorkLeft(Apply(s, Work(w, a)).workers) < AllWorkLeft(s.workers)
    ensures MainLeft(Apply(s, Work(w, a))) == MainLeft(s)
  {
    assert WorkerInv(w, s.workers[w], s.started, s.completed);
    ActUsesWork(w, s.workers[w], a, s.started, s.completed);
    OneWorkerChanges(s.workers, w, Act(s.workers[w], a));
  }

  lemma ShutUsesNone(s: State, i: nat)
    requires i < |s.workers|
    ensures AllWorkLeft(Shut(s, i).workers) == AllWorkLeft(s.workers)
  {
    OneWorkerChanges(s.workers, i, s.workers[i].(closed := true));
  }

  lemma StepUsesSome(s: State, step: Step)
    requires Inv(s) && Enabled(s, step)
    ensures Left(Apply(s, step)) < Left(s)
  {
    match step
    case Work(w, a) => WorkUsesSome(s, w, a);
    case CloseAbandoned => ShutUsesNone(s, s.main.i);
    case CloseGate => ShutUsesNone(s, s.main.i);
    case _ =>
  }

  lemma LeftIsNatural(s: State)
    requires Inv(s)
    ensures Left(s) >= 0
  {
    WorkIsNatural(s, |s.workers|);
    assert s.workers[..|s.workers|] == s.workers;
  }

  lemma NextUsesSome(run: seq<State>, i: nat)
    requires IsRun(run) && i + 1 < |run|
    ensures Left(run[i + 1]) < Left(run[i])
  {
    RunKeepsInv(run, i);
    assert Next(run[i], run[i + 1]);
    var step :| StepTo(run[i], step, run[i + 1]);
    StepUsesSome(run[i], step);
  }

  /** No run goes on for longer than its listings and paths allow. */
  lemma {:induction false} RunsEnd(run: seq<State>, i: nat)
    requires IsRun(run) && i < |run|
    ensures 0 <= Left(run[i]) <= Left(run[0]) - i
  {
    RunKeepsInv(run, i);
    LeftIsNatural(run[i]);
    if i > 0 {
      RunsEnd(run, i - 1);
      NextUsesSome(run, i - 1);
    }
  }

  /** Some action of a worker that is not done: its own lock and gate never stop it. */
  lemma WorkerGoesOn(w: nat, worker: Worker, started: set<File>, completed: set<File>) returns (a: Action)
    requires WorkerInv(w, worker, started, completed)
    requires !worker.pc.Finished? && !worker.pc.Raised? && !worker.pc.Escaped?
    ensures Allowed(worker, a)
  {
    match worker.pc
    case Queued => a := Start;
    case Resolving => a := if worker.listed < worker.listings then ListWorks else Resolve;
    case Ready =>
      a := if |worker.found.outcomes| >= worker.paths then Finish else if worker.closed then StopEarly else GoOn;
    case Fetching => a := FetchWorks;
    case Fetched => a := if worker.closed then GateClosed else Enter;
    case InCallback => a := CallbackReturns;
  }

  /** Nor does anything ever wait for good: until `download` has ended some step is possible
      that is neither an interrupt nor a timeout. So every download ends, and without an
      interrupt it returns. */
  lemma NeverStuck(run: seq<State>, i: nat) returns (step: Step)
    requires IsRun(run) && i < |run| && !run[i].main.Returned? && !run[i].main.BrokenOff?
    ensures Enabled(run[i], step) && !step.Interrupt? && !step.BreakOff? && !step.Timeout?
  {
    RunKeepsInv(run, i);
    var s := run[i];
    var n := |s.workers|;
    match s.main
    case Waiting(k) =>
      if k == n {
        step := AllTaken;
      } else if s.workers[k].pc.Finished? {
        step := Take;
      } else if s.workers[k].pc.Raised? {
        step := TakeRaise;
      } else if s.workers[k].pc.Escaped? {
        step := TakeEscape;
      } else {
        var a := WorkerGoesOn(k, s.workers[k], s.started, s.completed);
        step := Work(k, a);
      }
    case Abandoning(k) =>
      assert WorkerInv(k, s.workers[k], s.started, s.completed);
      step := if s.workers[k].locked then Work(k, CallbackReturns) else CloseAbandoned;
    case Closing(k) =>
      if k == n {
        step := Return;
      } else {
        assert WorkerInv(k, s.workers[k], s.started, s.completed);
        step := if s.workers[k].locked then Work(k, CallbackReturns) else CloseGate;
      }
  }

  lemma LongerRun(run: seq<State>, step: Step) returns (longer: seq<State>)
    requires IsRun(run) && Enabled(run[|run| - 1], step)
    ensures IsRun(longer) && longer == run + [Apply(run[|run| - 1], step)]
  {
    longer := run + [Apply(run[|run| - 1], step)];
    assert StepTo(run[|run| - 1], step, longer[|run|]);
    forall i | 0 <= i < |longer| - 1
      ensures Next(longer[i], longer[i + 1])
    {
      if i < |run| - 1 {
        assert longer[i] == run[i] && longer[i + 1] == run[i + 1];
        assert Next(run[i], run[i + 1]);
      }
    }
  }

  function Lone(main: Main, interrupted: bool, pc: Pc): State {
    State(main, interrupted, [Worker(pc, 0, 0, 1, {}, NOTHING_FOUND, false, false)], [], [], {}, {}, [])
  }

  lemma ToBrokenOff() returns (run: seq<State>)
    ensures IsRun(run) && run[|run| - 1] == Lone(BrokenOff, true, Fetching)
  {
    run := [Lone(Waiting(0), false, Queued)];
    run := LongerRun(run, Work(0, Start));
    run := LongerRun(run, Work(0, Resolve));
    run := LongerRun(run, Work(0, GoOn));
    run := LongerRun(run, Interrupt);
    run := LongerRun(run, BreakOff);
  }

  /** The fence is only as good as the closing loop: interrupted in there, a call ends with
      gates open, and a callback starts after its end. */
  lemma BrokenOffIsNotFenced() returns (run: seq<State>, i: nat)
    ensures IsRun(run) && i < |run| - 1 && run[i].main.BrokenOff?
    ensures run[|run| - 1].main.BrokenOff? && run[|run| - 1].started == run[i].started + {File(0, 0)} != run[i].started
  {
    run := ToBrokenOff();
    i := |run| - 1;
    run := LongerRun(run, Work(0, FetchWorks));
    run := LongerRun(run, Work(0, Enter));
  }
}
