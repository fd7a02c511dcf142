/** Two candidates computed from one snapshot at rest, committed one after the other: 50 Nm, then -50 Nm. */
module ClampStaleExample {
  import opened Numeric
  import opened Calibration
  import opened SteadyModel
  import opened TransitionModel
  import opened TorqueClamp
  import opened ClampRun
  import opened ClampCommit
  import opened ClampCells
  import opened ClampSafety
  import opened ClampSelection
  import opened ClampExposure
  import opened ClampGrant
  import opened ClampRuns
  import opened ClampStale
  import opened SampleArtifact
  import opened ClampExample

  /** Cells [-100, 0] and [0, 100], exact torque. */
  const TWO_SIDED := Sketch([-100.0, 0.0, 100.0], [Interval(1.0, 50.0), Interval(1.0, 50.0)], 0.0, 0.0, 0.5, 1.0, 100.0)

  /** Zero is committed without confirmation, and no torque has been sent yet. */
  predicate AtRest(st: State) {
    && st.path.WaitingForZero? && st.lastNonzeroSign.NoSign? && st.committed == 0.0 && st.normalizedZero
    && !st.transition.active && st.transition.anchor == 0.0
  }

  /** A step without a usable contract commits zero. */
  function NoContract(): Step {
    Command(0.0, 100.0, false, 1000).(contract := false)
  }

  lemma RestsAfterNoContract(step: Step, rt: Runtime)
    requires WellFormed(TWO_SIDED) && rt == Handle(TWO_SIDED) && step == NoContract() && RuntimeValid(rt)
    ensures Committed(step, rt, INITIAL_STATE) == 0.0 && AtRest(StaleNext(step, rt, INITIAL_STATE, INITIAL_STATE))
  {
    assert Candidate(step, rt, INITIAL_STATE) == None;
  }

  // ---------------------------------------------------------------------------------------------
  // 50 Nm either way
  // ---------------------------------------------------------------------------------------------

  function Ask50(up: bool): ClampInput {
    Ask(if up then 50.0 else -50.0, 100.0, false, if up then 10000 else 12000)
  }

  function Torque(up: bool): real {
    if up then 50.0 else -50.0
  }

  lemma TwoSided()
    ensures WellFormed(TWO_SIDED) && QualifiedRuntime(Handle(TWO_SIDED))
  {
    ArtifactQualifies(TWO_SIDED);
  }

  lemma TorqueIsQuantum(up: bool)
    ensures IsQuantum(Torque(up))
  {
    assert Truncate(500.0) == 500 && Truncate(-500.0) == -500;
  }

  lemma RestGate(up: bool, st: State, rt: Runtime)
    requires WellFormed(TWO_SIDED) && rt == Handle(TWO_SIDED) && AtRest(st)
    ensures Request(Ask50(up)) == Torque(up) && Previous(st) == 0.0
    ensures Admit(Ask50(up), Artifact(TWO_SIDED), st).Admitted?
    ensures HeldOf(Ask50(up), rt, st) == Held(true, NO_CURRENT, true, NO_CURRENT, 0, NO_CALLS)
    ensures !TracksMicrostep(0.0, Torque(up), Ask50(up), st, Artifact(TWO_SIDED))
  {
    TorqueIsQuantum(up);
  }

  lemma RestWalk(up: bool, rt: Runtime)
    requires WellFormed(TWO_SIDED) && rt == Handle(TWO_SIDED)
    ensures RuntimeValid(rt)
    ensures var p := IncreasePrefix(0.0, Torque(up), Ask50(up), rt, NO_CALLS); p.accepted && p.best == Torque(up)
  {
    TwoSided();
    TorqueIsQuantum(up);
    var cal := rt.calibration.value;
    forall c | Crosses(PathOf(0.0, Torque(up)), c, cal) ensures CellAuthorized(c, Ask50(up), rt) {
      CellAt(TWO_SIDED, c);
    }
    assert RequestKept(if up then 1 else 0, Torque(up), cal);
    WalkReaches(0.0, Torque(up), Ask50(up), rt, NO_CALLS, if up then 1 else 0);
  }

  lemma RestSteady(up: bool, rt: Runtime)
    requires WellFormed(TWO_SIDED) && rt == Handle(TWO_SIDED)
    ensures ExactSteady(Torque(up), false, Ask50(up), rt).status == ModelOk
    ensures ExactSteady(Torque(up), false, Ask50(up), rt).current == TWO_SIDED.draws[0]
  {
    SmallSketch(TWO_SIDED, Torque(up));
    SteadyAt(TWO_SIDED, Torque(up), TWO_SIDED.draws[0]);
  }

  lemma RestTransition(up: bool, st: State, rt: Runtime)
    requires WellFormed(TWO_SIDED) && rt == Handle(TWO_SIDED) && AtRest(st)
    ensures Movement(st, 0.0, Torque(up), false) == (SlewLimited, FromZero)
    ensures var t := TransitionFor(Torque(up), SlewLimited, FromZero, Ask50(up), rt, st);
            t.status == ModelOk && t.current == MOVING_DRAW
  {
    assert (SlewLimited, FromZero) == REQUIRED_FAMILIES[0];
    MovingAt(TWO_SIDED, TransitionRequest(Torque(up), SlewLimited, FromZero, Ask50(up), st), 0);
  }

  /** From rest either torque is selected without any confirmation of zero. */
  lemma RestSelects(up: bool, st: State, rt: Runtime)
    requires WellFormed(TWO_SIDED) && rt == Handle(TWO_SIDED) && AtRest(st)
    ensures Run(Ask50(up), rt, st).0
    ensures var out := Run(Ask50(up), rt, st).1;
            && out.outputValid && out.selected == Torque(up) && out.materialChange && !out.microstep
            && out.steady == TWO_SIDED.draws[0] && out.transitionValid && out.transition == MOVING_DRAW
            && out.profile.SlewLimited? && out.direction.FromZero? && !out.zeroConfirmationRequired
  {
    TwoSided();
    RestGate(up, st, rt);
    RestWalk(up, rt);
    RestSteady(up, rt);
    RestTransition(up, st, rt);
    assert WalkOf(Ask50(up), rt, st).best == Torque(up) && !WalkMicrostep(Ask50(up), rt, st);
    WalkIsGranted(Ask50(up), rt, st);
    CandidateTransition(Ask50(up), rt, st);
  }

  function Send(up: bool): Step {
    Command(Torque(up), 100.0, false, if up then 10000 else 12000)
  }

  lemma RestCommits(up: bool, step: Step, st: State, rt: Runtime)
    requires WellFormed(TWO_SIDED) && rt == Handle(TWO_SIDED) && AtRest(st) && step == Send(up)
    ensures Committed(step, rt, st) == Torque(up) && Candidate(step, rt, st).Some?
    ensures var out := Candidate(step, rt, st).value;
            && out.outputValid && out.selected == Torque(up) && out.materialChange && !out.microstep
            && out.profile.SlewLimited? && out.direction.FromZero? && !out.zeroConfirmationRequired
  {
    RestSelects(up, st, rt);
    CandidateStamp(step.input, rt, st);
    FreshContract(if up then 10000 else 12000);
  }

  // ---------------------------------------------------------------------------------------------
  // The run
  // ---------------------------------------------------------------------------------------------

  predicate Up50(st: State) {
    && st.committed == 50.0 && st.lastNonzeroSign.PositiveSign? && !st.normalizedZero
    && st.transition.active && st.transition.minimum == 0.0 && st.transition.maximum == 50.0
  }

  lemma FirstSend(step: Step, st: State, rt: Runtime)
    requires WellFormed(TWO_SIDED) && rt == Handle(TWO_SIDED) && RuntimeValid(rt) && AtRest(st) && step == Send(true)
    ensures Up50(StaleNext(step, rt, st, st))
  {
    RestCommits(true, step, st, rt);
    var out := Candidate(step, rt, st).value;
    assert MoveOf(Some(out), 0.0, 50.0, Artifact(TWO_SIDED)) ==
           Move(true, false, SlewLimited, FromZero, out.settlingUs);
  }

  /** The bracket in force after the stale commit is [-50, 50]; the envelope was evaluated for [-50, 0]. */
  lemma SecondSend(step: Step, rest: State, st: State, rt: Runtime)
    requires WellFormed(TWO_SIDED) && rt == Handle(TWO_SIDED) && RuntimeValid(rt) && step == Send(false)
    requires AtRest(rest) && Up50(st)
    ensures Committed(step, rt, rest) == -50.0 && Bracket(rest, -50.0) == Interval(-50.0, 0.0)
    ensures var after := StaleNext(step, rt, rest, st).transition;
            after.active && after.minimum == -50.0 && after.maximum == 50.0
  {
    RestCommits(false, step, rest, rt);
    var out := Candidate(step, rt, rest).value;
    assert MoveOf(Some(out), 50.0, -50.0, Artifact(TWO_SIDED)) ==
           Move(true, false, SlewLimited, FromZero, out.settlingUs);
  }

  /** The three steps, two of them from the snapshot at rest. */
  predicate OpposingSteps(steps: seq<Step>, snapshots: seq<nat>) {
    steps == [NoContract(), Send(true), Send(false)] && snapshots == [0, 1, 1]
  }

  lemma OpposingStates(a: Step, b: Step, c: Step, rt: Runtime, rest: State, up: State, down: State)
    requires WellFormed(TWO_SIDED) && rt == Handle(TWO_SIDED) && RuntimeValid(rt)
    requires a == NoContract() && b == Send(true) && c == Send(false)
    requires rest == StaleNext(a, rt, INITIAL_STATE, INITIAL_STATE)
    requires up == StaleNext(b, rt, rest, rest) && down == StaleNext(c, rt, rest, up)
    ensures Committed(b, rt, rest) == 50.0 && Committed(c, rt, rest) == -50.0
    ensures Bracket(rest, -50.0) == Interval(-50.0, 0.0)
    ensures down.transition.minimum == -50.0 && down.transition.maximum == 50.0
  {
    RestsAfterNoContract(a, rt);
    FirstSend(b, rest, rt);
    RestCommits(true, b, rest, rt);
    SecondSend(c, rest, up, rt);
  }

  lemma OpposingRun(a: Step, b: Step, c: Step, rt: Runtime) returns (states: seq<State>)
    ensures StaleRun(states, [a, b, c], [0, 1, 1], rt) && |states| == 4
    ensures states[1] == StaleNext(a, rt, INITIAL_STATE, INITIAL_STATE)
    ensures states[2] == StaleNext(b, rt, states[1], states[1]) && states[3] == StaleNext(c, rt, states[1], states[2])
  {
    var rest := StaleNext(a, rt, INITIAL_STATE, INITIAL_STATE);
    var up := StaleNext(b, rt, rest, rest);
    states := [INITIAL_STATE, rest, up, StaleNext(c, rt, rest, up)];
    ThreeStates(states, [a, b, c], [0, 1, 1], rt);
  }

  /** With a stale candidate neither reversal theorem nor bracket agreement holds, although both cells lie on one side
      of zero and zero is never confirmed: 50 Nm is followed by -50 Nm, whose envelope was evaluated for half of the
      recorded bracket. */
  lemma StaleCandidatesOppose() returns (rt: Runtime, steps: seq<Step>, snapshots: seq<nat>, states: seq<State>)
    ensures WellFormed(TWO_SIDED) && rt == Handle(TWO_SIDED) && QualifiedRuntime(rt) && OpposingSteps(steps, snapshots)
    ensures NoCellStraddlesZero(rt.calibration.value) && StaleRun(states, steps, snapshots, rt)
    ensures StaleCommit(states, steps, snapshots, rt, 1) == 50.0
    ensures StaleCommit(states, steps, snapshots, rt, 2) == -50.0
    ensures !Send(true).zeroConfirmed && !Send(false).input.physicalZeroConfirmed
            && !Send(false).verification.physicalZeroConfirmed
    ensures Bracket(SnapshotOf(states, snapshots, 2), -50.0) == Interval(-50.0, 0.0)
    ensures states[3].transition.minimum == -50.0 && states[3].transition.maximum == 50.0
  {
    TwoSided();
    rt := Handle(TWO_SIDED);
    var a, b, c := NoContract(), Send(true), Send(false);
    steps, snapshots := [a, b, c], [0, 1, 1];
    states := OpposingRun(a, b, c, rt);
    OpposingStates(a, b, c, rt, states[1], states[2], states[3]);
  }
}
