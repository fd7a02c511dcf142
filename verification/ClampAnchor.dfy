/** A run that settles at 50 Nm, reduces to 40 Nm and then loses its calibration: the zero commit drops the anchor. */
module ClampAnchor {
  import opened Numeric
  import opened Calibration
  import opened SteadyModel
  import opened TransitionModel
  import opened TorqueClamp
  import opened ClampRun
  import opened ClampCommit
  import opened ClampSafety
  import opened ClampCost
  import opened ClampRelease
  import opened ClampRuns
  import opened ClampUncalibrated
  import opened SampleArtifact
  import opened ClampExample

  /** 50 Nm from rest, last committed at this time, with so many settling confirmations. */
  predicate Holding(st: State, confirmations: nat, at: Word32) {
    && Opened(st, 50.0) && st.transition.latestTarget == 50.0
    && st.transition.lastMaterialUs == 2000 && st.transition.lastCommitUs == at
    && st.transition.maximumSettlingUs <= 50000
    && st.transition.confirmationRequired == 3 && st.transition.confirmationObserved == confirmations
  }

  predicate SettledAtFifty(st: State) {
    && st.path.SameSignTracking? && st.lastNonzeroSign.PositiveSign? && st.committed == 50.0 && !st.normalizedZero
    && !st.transition.active && st.transition.anchor == 50.0
  }

  /** 40 Nm, with the bracket of a transition from the anchor of 50 Nm. */
  predicate ReducedToForty(st: State) {
    && st.committed == 40.0 && st.transition.active && st.transition.anchor == 50.0
    && st.transition.minimum == 40.0 && st.transition.maximum == 50.0
  }

  function Hold50(at: Word32): Step {
    Command(50.0, 100.0, false, at)
  }

  function Reduce(): Step {
    Command(40.0, 100.0, false, 90000)
  }

  lemma PlainWellFormed()
    ensures WellFormed(PLAIN) && QualifiedRuntime(Handle(PLAIN))
  {
    PlainAnswer(1000);
    ArtifactQualifies(PLAIN);
  }

  /** The envelope of every family settles within a millisecond. */
  lemma SettlesSoon(s: Sketch, t: TransitionInput, f: nat)
    requires WellFormed(s) && s.span < FLT_MAX && AsksFamily(s, t, f)
    ensures EvaluateTransition(t, Handle(s)).settlingUs == 1000
  {
    var cal, rt := Artifact(s), Handle(s);
    ArtifactQualifies(s);
    MovingAt(s, t, f);
    SuccessMeans(t, rt);
    forall x | x in Envelope(t, cal) ensures x.settlingUs == 1000 {
      EnvelopeDraw(s, t, x);
    }
  }

  // ---------------------------------------------------------------------------------------------
  // Opening
  // ---------------------------------------------------------------------------------------------

  lemma OpensOutput(step: Step, rt: Runtime)
    requires WellFormed(PLAIN) && rt == Handle(PLAIN) && step == Command(50.0, 100.0, true, 1000)
    ensures QualifiedRuntime(rt)
    ensures Candidate(step, rt, INITIAL_STATE).Some? && Committed(step, rt, INITIAL_STATE) == 50.0
    ensures OpeningOutput(Candidate(step, rt, INITIAL_STATE).value)
  {
    PlainAnswer(1000);
    FirstCommand(PLAIN, 50.0, 50.0, PLAIN.draws[0], 100.0, 1000);
    NonzeroCandidate(step.input, rt, INITIAL_STATE);
    CandidateTransition(step.input, rt, INITIAL_STATE);
    assert (SlewLimited, FromZero) == REQUIRED_FAMILIES[0];
    SettlesSoon(PLAIN, TransitionRequest(50.0, SlewLimited, FromZero, step.input, INITIAL_STATE), 0);
  }

  predicate OpeningOutput(out: Output) {
    && out.selected == 50.0 && out.outputValid && out.materialChange && !out.microstep
    && out.profile.SlewLimited? && out.direction.FromZero? && out.settlingUs == 1000
  }

  lemma OpeningNotes(out: Output)
    requires WellFormed(PLAIN) && OpeningOutput(out)
    ensures Holding(NoteCommit(INITIAL_STATE, Some(out), 50.0, 2000, true, true, Artifact(PLAIN)), 0, 2000)
  {
    assert MoveOf(Some(out), 0.0, 50.0, Artifact(PLAIN)) == Move(true, false, SlewLimited, FromZero, 1000);
  }

  lemma OpensHolding(step: Step, rt: Runtime)
    requires WellFormed(PLAIN) && rt == Handle(PLAIN) && step == Command(50.0, 100.0, true, 1000)
    ensures Holding(Next(step, rt, INITIAL_STATE), 0, 2000)
  {
    OpensOutput(step, rt);
    var out := Candidate(step, rt, INITIAL_STATE).value;
    NextNotes(step, rt, INITIAL_STATE, out, 50.0);
    OpeningNotes(out);
  }

  // ---------------------------------------------------------------------------------------------
  // Holding until settled
  // ---------------------------------------------------------------------------------------------

  lemma HoldGate(input: ClampInput, st: State, at: Word32)
    requires WellFormed(PLAIN) && input == Hold50(at).input && Opened(st, 50.0)
    ensures Request(input) == 50.0 && Previous(st) == 50.0 && Admit(input, Artifact(PLAIN), st).Admitted?
  {
    FiftyIsQuantum();
  }

  lemma HoldFeasible(input: ClampInput, rt: Runtime, st: State, at: Word32)
    requires WellFormed(PLAIN) && rt == Handle(PLAIN) && input == Hold50(at).input && Opened(st, 50.0)
    ensures HeldOf(input, rt, st).Feasible() && Movement(st, 50.0, 50.0, false) == (SlewLimited, FromZero)
    ensures TransitionFor(50.0, SlewLimited, FromZero, input, rt, st).status == ModelOk
    ensures TransitionFor(50.0, SlewLimited, FromZero, input, rt, st).current == MOVING_DRAW
    ensures SteadyAuthorized(ExactSteady(50.0, false, input, rt), input)
  {
    HoldGate(input, st, at);
    SmallSketch(PLAIN, 50.0);
    SteadyAt(PLAIN, 50.0, PLAIN.draws[0]);
    assert (SlewLimited, FromZero) == REQUIRED_FAMILIES[0];
    MovingAt(PLAIN, TransitionRequest(50.0, SlewLimited, FromZero, input, st), 0);
  }

  lemma HoldJudged(input: ClampInput, rt: Runtime, st: State, at: Word32)
    requires WellFormed(PLAIN) && rt == Handle(PLAIN) && input == Hold50(at).input && Opened(st, 50.0)
    ensures ChoiceOf(input, rt, st).Pick? && !MicrostepOf(input, rt, st)
    ensures var j := JudgedOf(input, rt, st);
            j.Judged? && j.torque == 50.0 && j.required && j.valid && j.transition == MOVING_DRAW
            && j.profile.SlewLimited? && j.direction.FromZero?
  {
    HoldGate(input, st, at);
    HoldFeasible(input, rt, st, at);
    var pick, held := ChoiceOf(input, rt, st), HeldOf(input, rt, st);
    assert pick == ChooseDecrease(50.0, 50.0, held, input, rt, st);
    assert JudgedOf(input, rt, st) == JudgeMovement(pick, (SlewLimited, FromZero), 50.0, 50.0, held, input, rt, st);
  }

  predicate HoldingOutput(out: Output) {
    out.selected == 50.0 && out.outputValid && !out.materialChange && !out.microstep && out.direction.FromZero?
  }

  /** Holding selects and commits 50 Nm again, with no material change. */
  lemma HoldCommits(step: Step, rt: Runtime, st: State, at: Word32)
    requires WellFormed(PLAIN) && rt == Handle(PLAIN) && step == Hold50(at) && Opened(st, 50.0)
    ensures Candidate(step, rt, st).Some? && Committed(step, rt, st) == 50.0
    ensures HoldingOutput(Candidate(step, rt, st).value)
  {
    HoldGate(step.input, st, at);
    HoldFeasible(step.input, rt, st, at);
    HoldJudged(step.input, rt, st, at);
    JudgedIsSelected(step.input, rt, st);
    CandidateStamp(step.input, rt, st);
    FreshContract(at);
  }

  lemma Elapsed(at: Word32, since: Word32)
    requires since < at
    ensures Sub32(at, since) == at - since
  {
  }

  lemma HoldIsStable(t: ActiveTransition, at: Word32)
    requires WellFormed(PLAIN) && t.lastMaterialUs == 2000 && t.maximumSettlingUs <= 50000 && t.latestTarget == 50.0
    requires 0 < t.lastCommitUs < at && 60000 <= at
    ensures TrackingStable(t, 50.0, 50.0, at, Artifact(PLAIN)) && SettlingTimePassed(t, at, Artifact(PLAIN))
  {
    Elapsed(at, 2000);
    Elapsed(at, t.lastCommitUs);
    var elapsed := if t.lastCommitUs == 0 then 0 else Sub32(at, t.lastCommitUs);
    assert t.lastCommitUs != 0 ==> Abs(50.0 - 50.0) * 1000000.0 / elapsed as real == 0.0;
  }

  /** What holding does to the record. */
  lemma HoldNotes(st: State, out: Output, confirmations: nat, last: Word32, at: Word32)
    requires WellFormed(PLAIN) && Holding(st, confirmations, last) && confirmations <= 2
    requires 0 < last < at && 60000 <= at && HoldingOutput(out)
    ensures var after := NoteCommit(st, Some(out), 50.0, at, false, true, Artifact(PLAIN));
            if confirmations < 2 then Holding(after, confirmations + 1, at) else SettledAtFifty(after)
  {
    var cal := Artifact(PLAIN);
    var t := st.transition.(previousCommitted := 50.0);
    HoldIsStable(t, at);
    assert MoveOf(Some(out), 50.0, 50.0, cal) == Move(false, false, out.profile, FromZero, out.settlingUs);
    assert CommitPath(st, Some(out), 50.0, false, false) == SameSignTracking;
  }

  lemma HoldTimes(at: Word32)
    requires at + 1000 < TWO_32
    ensures Hold50(at).commitUs == at + 1000 && !Hold50(at).zeroConfirmed && Hold50(at).consistent
  {
  }

  lemma HoldStep(step: Step, rt: Runtime, st: State, confirmations: nat, last: Word32, at: Word32)
    requires WellFormed(PLAIN) && rt == Handle(PLAIN) && step == Hold50(at)
    requires Holding(st, confirmations, last) && confirmations <= 2 && 0 < last < at && 60000 <= at < TWO_32 - 1000
    ensures var after := Next(step, rt, st);
            if confirmations < 2 then Holding(after, confirmations + 1, at + 1000) else SettledAtFifty(after)
  {
    HoldTimes(at);
    PlainWellFormed();
    HoldCommits(step, rt, st, at);
    var out := Candidate(step, rt, st).value;
    NextNotes(step, rt, st, out, 50.0);
    HoldNotes(st, out, confirmations, last, step.commitUs);
  }

  // ---------------------------------------------------------------------------------------------
  // Reducing
  // ---------------------------------------------------------------------------------------------

  lemma ReduceAsked(input: ClampInput, rt: Runtime, st: State)
    requires WellFormed(PLAIN) && rt == Handle(PLAIN) && input == Reduce().input && SettledAtFifty(st)
    ensures AsksReduction(input, rt, st) && !ReductionMicrostep(input, rt, st)
    ensures Request(input) == 40.0 && Previous(st) == 50.0
  {
    assert Truncate(400.0) == 400;
  }

  lemma ReduceSteady(input: ClampInput, rt: Runtime)
    requires WellFormed(PLAIN) && rt == Handle(PLAIN) && input == Reduce().input
    ensures ExactSteady(40.0, false, input, rt).status == ModelOk
    ensures ExactSteady(40.0, false, input, rt).current == PLAIN.draws[0]
  {
    SmallSketch(PLAIN, 40.0);
    SteadyAt(PLAIN, 40.0, PLAIN.draws[0]);
  }

  lemma ReduceTransition(input: ClampInput, rt: Runtime, st: State)
    requires WellFormed(PLAIN) && rt == Handle(PLAIN) && input == Reduce().input && SettledAtFifty(st)
    ensures Movement(st, 50.0, 40.0, false) == (SlewLimited, SameSignDecrease)
    ensures TransitionFor(40.0, SlewLimited, SameSignDecrease, input, rt, st).status == ModelOk
  {
    assert (SlewLimited, SameSignDecrease) == REQUIRED_FAMILIES[2];
    MovingAt(PLAIN, TransitionRequest(40.0, SlewLimited, SameSignDecrease, input, st), 2);
  }

  lemma ReduceFeasible(input: ClampInput, rt: Runtime, st: State)
    requires WellFormed(PLAIN) && rt == Handle(PLAIN) && input == Reduce().input && SettledAtFifty(st)
    ensures QualifiedRuntime(rt) && AsksReduction(input, rt, st) && ReductionFeasible(input, rt, st)
  {
    PlainWellFormed();
    ReduceAsked(input, rt, st);
    ReduceSteady(input, rt);
    ReduceTransition(input, rt, st);
  }

  predicate ReducingOutput(out: Output) {
    out.selected == 40.0 && out.outputValid && out.materialChange && !out.microstep
  }

  lemma ReduceOutput(input: ClampInput, rt: Runtime, st: State)
    requires WellFormed(PLAIN) && rt == Handle(PLAIN) && input == Reduce().input && SettledAtFifty(st)
    ensures ReducingOutput(Run(input, rt, st).1) && Run(input, rt, st).0
    ensures Run(input, rt, st).1.steady == PLAIN.draws[0] && !Run(input, rt, st).1.transitionRequired
    ensures !Run(input, rt, st).1.zeroConfirmationRequired
  {
    ReduceFeasible(input, rt, st);
    ReduceAsked(input, rt, st);
    ReduceSteady(input, rt);
    ReductionChosen(input, rt, st);
    ReductionIsGranted(input, rt, st);
    NonzeroCandidate(input, rt, st);
  }

  lemma ReduceCommits(step: Step, rt: Runtime, st: State)
    requires WellFormed(PLAIN) && rt == Handle(PLAIN) && step == Reduce() && SettledAtFifty(st)
    ensures Candidate(step, rt, st).Some? && Committed(step, rt, st) == 40.0
    ensures ReducingOutput(Candidate(step, rt, st).value)
  {
    ReduceOutput(step.input, rt, st);
    CandidateStamp(step.input, rt, st);
    FreshContract(90000);
  }

  lemma ReduceNotes(st: State, out: Output, at: Word32)
    requires WellFormed(PLAIN) && SettledAtFifty(st) && ReducingOutput(out)
    ensures ReducedToForty(NoteCommit(st, Some(out), 40.0, at, false, true, Artifact(PLAIN)))
  {
    assert MoveOf(Some(out), 50.0, 40.0, Artifact(PLAIN)).material;
  }

  lemma ReduceStep(step: Step, rt: Runtime, st: State)
    requires WellFormed(PLAIN) && rt == Handle(PLAIN) && step == Reduce() && SettledAtFifty(st)
    ensures ReducedToForty(Next(step, rt, st))
  {
    PlainWellFormed();
    ReduceCommits(step, rt, st);
    var out := Candidate(step, rt, st).value;
    NextNotes(step, rt, st, out, 40.0);
    ReduceNotes(st, out, step.commitUs);
  }

  // ---------------------------------------------------------------------------------------------
  // The run
  // ---------------------------------------------------------------------------------------------

  predicate AnchorSteps(steps: seq<Step>) {
    steps == [Command(50.0, 100.0, true, 1000), Hold50(60000), Hold50(70000), Hold50(80000), Reduce()]
  }

  /** Three holds settle the transition. */
  lemma ThreeHolds(a: Step, b: Step, c: Step, rt: Runtime, st: State)
    requires WellFormed(PLAIN) && rt == Handle(PLAIN) && QualifiedRuntime(rt) && Holding(st, 0, 2000)
    requires a == Hold50(60000) && b == Hold50(70000) && c == Hold50(80000)
    ensures SettledAtFifty(Next(c, rt, Next(b, rt, Next(a, rt, st))))
  {
    HoldStep(a, rt, st, 0, 2000, 60000);
    HoldStep(b, rt, Next(a, rt, st), 1, 61000, 70000);
    HoldStep(c, rt, Next(b, rt, Next(a, rt, st)), 2, 71000, 80000);
  }

  lemma FiveSteps(steps: seq<Step>, rt: Runtime)
    requires RuntimeValid(rt) && |steps| == 5
    ensures var first := Next(steps[0], rt, INITIAL_STATE);
            StateAt(steps, rt, 5) ==
            Next(steps[4], rt, Next(steps[3], rt, Next(steps[2], rt, Next(steps[1], rt, first))))
  {
    FirstTwoSteps(steps, rt);
    StateAtNext(steps, rt, 1);
    StateAtNext(steps, rt, 2);
    StateAtNext(steps, rt, 3);
    StateAtNext(steps, rt, 4);
  }

  lemma FromOpened(b: Step, c: Step, d: Step, e: Step, rt: Runtime, st: State)
    requires WellFormed(PLAIN) && rt == Handle(PLAIN) && QualifiedRuntime(rt) && Holding(st, 0, 2000)
    requires b == Hold50(60000) && c == Hold50(70000) && d == Hold50(80000) && e == Reduce()
    ensures ReducedToForty(Next(e, rt, Next(d, rt, Next(c, rt, Next(b, rt, st)))))
  {
    ThreeHolds(b, c, d, rt, st);
    ReduceStep(e, rt, Next(d, rt, Next(c, rt, Next(b, rt, st))));
  }

  lemma AnchorRun(steps: seq<Step>, rt: Runtime, st: State)
    requires WellFormed(PLAIN) && rt == Handle(PLAIN) && QualifiedRuntime(rt) && |steps| == 5 && Holding(st, 0, 2000)
    requires st == Next(steps[0], rt, INITIAL_STATE)
    requires steps[1] == Hold50(60000) && steps[2] == Hold50(70000) && steps[3] == Hold50(80000) && steps[4] == Reduce()
    ensures ReducedToForty(StateAt(steps, rt, 5))
  {
    FiveSteps(steps, rt);
    FromOpened(steps[1], steps[2], steps[3], steps[4], rt, st);
  }

  /** The bracket after the commit is [0, 40], the anchor is still 50. */
  ghost predicate AnchorOutside(after: State, cal: Calibration) {
    && after.transition.active && after.transition.anchor == 50.0
    && after.transition.minimum == 0.0 && after.transition.maximum == 40.0 && !Inv(after, cal)
  }

  lemma DropsAnchor(st: State, nowUs: Word32, cal: Calibration)
    requires ReducedToForty(st)
    ensures AnchorOutside(NoteUncalibratedCommit(st, 0.0, nowUs, false), cal)
  {
  }

  lemma OpenedState(first: Step, rt: Runtime) returns (st: State)
    requires WellFormed(PLAIN) && rt == Handle(PLAIN) && RuntimeValid(rt) && first == Command(50.0, 100.0, true, 1000)
    ensures st == Next(first, rt, INITIAL_STATE) && Holding(st, 0, 2000)
  {
    st := Next(first, rt, INITIAL_STATE);
    OpensHolding(first, rt);
  }

  lemma OpeningThenAnchor(steps: seq<Step>, rt: Runtime)
    requires WellFormed(PLAIN) && rt == Handle(PLAIN) && QualifiedRuntime(rt) && |steps| == 5
    requires steps[0] == Command(50.0, 100.0, true, 1000) && steps[1] == Hold50(60000) && steps[2] == Hold50(70000)
    requires steps[3] == Hold50(80000) && steps[4] == Reduce()
    ensures ReducedToForty(StateAt(steps, rt, 5))
  {
    var st := OpenedState(steps[0], rt);
    AnchorRun(steps, rt, st);
  }

  /** In a reachable state with 40 Nm committed and the anchor at 50 Nm, a zero commit under an invalid handle records
      the bracket [0, 40], which no longer holds the anchor: the invariant of calibrated runs is lost. */
  lemma AnchorIsDropped(nowUs: Word32) returns (rt: Runtime, steps: seq<Step>)
    ensures WellFormed(PLAIN) && rt == Handle(PLAIN) && QualifiedRuntime(rt) && AnchorSteps(steps)
    ensures Inv(StateAt(steps, rt, 5), rt.calibration.value) && ReducedToForty(StateAt(steps, rt, 5))
    ensures AnchorOutside(NoteUncalibratedCommit(StateAt(steps, rt, 5), 0.0, nowUs, false), rt.calibration.value)
  {
    PlainWellFormed();
    rt := Handle(PLAIN);
    steps := [Command(50.0, 100.0, true, 1000), Hold50(60000), Hold50(70000), Hold50(80000), Reduce()];
    OpeningThenAnchor(steps, rt);
    RunKeepsInv(steps, rt, 5);
    DropsAnchor(StateAt(steps, rt, 5), nowUs, rt.calibration.value);
  }
}
