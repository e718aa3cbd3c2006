/** The stop flag of `delete`: a host's worker looks at it before each entry, while the main
    thread may set it at any moment. One step per action the other thread can observe. */
module FleetStop {

  /** Checked: the flag was seen unset for entry `i`, whose DELE or RMD has not gone out yet.
      Sent: it has, and its reply, with the probes that may settle it, is still to come. */
  datatype Pc = Queued | Opening | Looking(i: nat) | Checked(i: nat) | Sent(i: nat) | Finished(end: End)
  datatype End = NoSession | SawStop | AllDone | LostSession

  /** `sent` are the entries whose removal was sent; `reported` says that the caller has been
      told, by the recorded failure or the returned report, `session` that there was a session,
      and `lost` that it was lost. */
  datatype State = State(
    entries: nat,
    pc: Pc,
    stop: bool,
    reported: bool,
    sent: seq<nat>,
    session: bool,
    lost: bool)

  datatype Step = Start | OpenFails | Opened | Look | Exhausted | Remove | Settled | GiveUp | SetStop | Report

  predicate Enabled(s: State, step: Step) {
    match step
    case Start => s.pc.Queued?
    case OpenFails => s.pc.Opening?
    case Opened => s.pc.Opening?
    case Look => s.pc.Looking? && s.pc.i < s.entries
    case Exhausted => s.pc.Looking? && s.pc.i >= s.entries
    case Remove => s.pc.Checked?
    case Settled => s.pc.Sent?
    case GiveUp => s.pc.Sent?
    case SetStop => true
    case Report => s.stop
  }

  function Apply(s: State, step: Step): State
    requires Enabled(s, step)
  {
    match step
    case Start => s.(pc := Opening)
    case OpenFails => s.(pc := Finished(NoSession))
    case Opened => s.(pc := Looking(0), session := true)
    case Look => s.(pc := if s.stop then Finished(SawStop) else Checked(s.pc.i))
    case Exhausted => s.(pc := Finished(AllDone))
    case Remove => s.(pc := Sent(s.pc.i), sent := s.sent + [s.pc.i])
    case Settled => s.(pc := Looking(s.pc.i + 1))
    case GiveUp => s.(pc := Finished(LostSession), lost := true)
    case SetStop => s.(stop := true)
    case Report => s.(reported := true)
  }

  ghost predicate StepTo(s: State, step: Step, t: State) {
    Enabled(s, step) && t == Apply(s, step)
  }

  ghost predicate Next(s: State, t: State) {
    exists step :: StepTo(s, step, t)
  }

  /** Any interleaving from some state on. */
  ghost predicate IsPath(path: seq<State>) {
    path != [] && forall k :: 0 <= k < |path| - 1 ==> Next(path[k], path[k + 1])
  }

  ghost predicate IsRun(run: seq<State>) {
    IsPath(run) && run[0] == State(run[0].entries, Queued, false, false, [], false, false)
  }

  /** What may have been sent by `t` when the flag was set by `s`: nothing more, or the entry
      in hand, if its check was already behind it. */
  ghost predicate AtMostInHand(s: State, t: State) {
    && t.stop
    && (if t.pc.Checked? then t.pc == s.pc && t.sent == s.sent
        else t.sent == s.sent || (s.pc.Checked? && t.sent == s.sent + [s.pc.i]))
  }

  lemma StepKeepsInHand(s: State, t: State, step: Step)
    requires AtMostInHand(s, t) && Enabled(t, step)
    ensures AtMostInHand(s, Apply(t, step))
  {
  }

  /** Whenever the flag is set, at most the entry in hand is still sent. */
  lemma {:induction false} StopIsPrompt(path: seq<State>, i: nat, j: nat)
    requires IsPath(path) && i <= j < |path| && path[i].stop
    ensures AtMostInHand(path[i], path[j])
  {
    if i < j {
      StopIsPrompt(path, i, j - 1);
      assert Next(path[j - 1], path[j]);
      var step :| StepTo(path[j - 1], step, path[j]);
      StepKeepsInHand(path[i], path[j - 1], step);
    }
  }

  /** Some interleaving from here sends one more removal. */
  ghost predicate MayStillSend(s: State) {
    exists path: seq<State> :: IsPath(path) && path[0] == s && path[|path| - 1].sent != s.sent
  }

  /** A worker whose flag is set sends another removal exactly if it had passed the check: the
      guarantee that it sends none holds from every other point on. */
  lemma StopIsFinalIff(s: State)
    requires s.stop
    ensures MayStillSend(s) <==> s.pc.Checked?
  {
    if s.pc.Checked? {
      var path := [s, Apply(s, Remove)];
      assert StepTo(path[0], Remove, path[1]);
      assert IsPath(path);
    }
    if MayStillSend(s) {
      var path: seq<State> :| IsPath(path) && path[0] == s && path[|path| - 1].sent != s.sent;
      StopIsPrompt(path, 0, |path| - 1);
    }
  }

  /** The entries sent so far are the first ones, in order, each once. */
  ghost predicate InOrder(s: State) {
    && (forall k :: 0 <= k < |s.sent| ==> s.sent[k] == k)
    && |s.sent| <= s.entries && (s.sent != [] ==> s.session)
    && (if s.pc.Queued? || s.pc.Opening? then !s.session else s.session || s.pc == Finished(NoSession))
    && match s.pc
       case Queued => s.sent == []
       case Opening => s.sent == []
       case Looking(i) => |s.sent| == i
       case Checked(i) => |s.sent| == i < s.entries
       case Sent(i) => |s.sent| == i + 1
       case Finished(NoSession) => s.sent == []
       case Finished(SawStop) => s.stop
       case Finished(AllDone) => |s.sent| == s.entries
       case Finished(LostSession) => s.sent != [] && s.lost
  }

  lemma StepKeepsOrder(s: State, step: Step)
    requires InOrder(s) && Enabled(s, step)
    ensures InOrder(Apply(s, step)) && Apply(s, step).entries == s.entries
    ensures (s.reported ==> s.stop) ==> Apply(s, step).reported ==> Apply(s, step).stop
  {
  }

  lemma NextKeepsOrder(s: State, t: State)
    requires InOrder(s) && Next(s, t) && (s.reported ==> s.stop)
    ensures InOrder(t) && t.entries == s.entries && (t.reported ==> t.stop)
  {
    var step :| StepTo(s, step, t);
    StepKeepsOrder(s, step);
  }

  /** However the flag and the worker race, all the flag does is to cut the list off at one
      entry: a worker that ends without having seen it, with its session intact, has sent a
      removal for every entry. */
  lemma {:induction false} SendsPrefix(run: seq<State>, j: nat)
    requires IsRun(run) && j < |run|
    ensures InOrder(run[j]) && run[j].entries == run[0].entries && (run[j].reported ==> run[j].stop)
  {
    if j > 0 {
      SendsPrefix(run, j - 1);
      NextKeepsOrder(run[j - 1], run[j]);
    }
  }

  /** What the worker still has to do. */
  function WorkLeft(s: State): int {
    match s.pc
    case Queued => 3 * s.entries + 4
    case Opening => 3 * s.entries + 3
    case Looking(i) => 3 * (s.entries - i) + 2
    case Checked(i) => 3 * (s.entries - i) + 1
    case Sent(i) => 3 * (s.entries - i)
    case Finished(_) => 0
  }

  /** What ends a worker, and nothing else does. */
  lemma EndOf(s: State, step: Step)
    requires Enabled(s, step) && !s.pc.Finished?
    ensures Apply(s, step).pc.Finished? <==>
              step.OpenFails? || step.Exhausted? || step.GiveUp? || (step.Look? && s.stop)
  {
  }

  /** Each of its steps brings the worker closer to its end, and one is always possible. */
  lemma WorkerEnds(run: seq<State>, j: nat, step: Step)
    requires IsRun(run) && j < |run| && Enabled(run[j], step) && !step.SetStop? && !step.Report?
    ensures 0 <= WorkLeft(Apply(run[j], step)) < WorkLeft(run[j])
  {
    SendsPrefix(run, j);
  }

  lemma WorkerGoesOn(s: State) returns (step: Step)
    requires !s.pc.Finished?
    ensures Enabled(s, step) && !step.SetStop? && !step.Report?
  {
    match s.pc
    case Queued => step := Start;
    case Opening => step := Opened;
    case Looking(i) => step := if i < s.entries then Look else Exhausted;
    case Checked(_) => step := Remove;
    case Sent(_) => step := Settled;
  }

  /** Once the caller has been told, at most the entry in hand at that moment is still sent. */
  lemma ToldMeansStopped(run: seq<State>, i: nat, j: nat)
    requires IsRun(run) && i <= j < |run| && run[i].reported
    ensures |run[j].sent| <= |run[i].sent| + 1
    ensures run[j].sent != run[i].sent ==> run[i].pc.Checked? && run[j].sent == run[i].sent + [run[i].pc.i]
  {
    SendsPrefix(run, i);
    StopIsPrompt(run, i, j);
  }

  /** The entry in hand can indeed go out after the caller was told. */
  lemma ToldTooEarly() returns (run: seq<State>, i: nat)
    ensures IsRun(run) && i < |run| && run[i].reported && run[i].sent == [] && run[|run| - 1].sent == [0]
  {
    var s := State(1, Queued, false, false, [], false, false);
    run := [
      s, s.(pc := Opening), s.(pc := Looking(0), session := true), s.(pc := Checked(0), session := true),
      s.(pc := Checked(0), session := true, stop := true),
      s.(pc := Checked(0), session := true, stop := true, reported := true),
      s.(pc := Sent(0), session := true, stop := true, reported := true, sent := [0])];
    i := 5;
    assert StepTo(run[0], Start, run[1]) && StepTo(run[1], Opened, run[2]) && StepTo(run[2], Look, run[3]);
    assert StepTo(run[3], SetStop, run[4]) && StepTo(run[4], Report, run[5]) && StepTo(run[5], Remove, run[6]);
  }
}
