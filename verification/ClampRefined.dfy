/** A run that commits less torque under the family of an increase: refinement may pass zero where a cell loses a
    sign. */
module ClampRefined {
  import opened Numeric
  import opened Calibration
  import opened SteadyModel
  import opened TransitionModel
  import opened TorqueClamp
  import opened ClampRun
  import opened ClampCommit
  import opened ClampSafety
  import opened ClampSelection
  import opened ClampCost
  import opened ClampFamilies
  import opened ClampRelease
  import opened ClampRuns
  import opened SampleArtifact
  import opened ClampExample

  /** Cells [-20, -6], [-6, 3] and [3, 100] and a lower guard band of 9 Nm, which leaves no room for small positive
      torques in the middle cell. */
  const SLANTED := Sketch(
    [-20.0, -6.0, 3.0, 100.0], [Interval(1.0, 50.0), Interval(1.0, 50.0), Interval(1.0, 50.0)], 9.0, 0.0, 0.2, 0.4,
    100.0)

  function First(): Step {
    Command(99.0, 100.0, true, 1000)
  }

  function Reducing(): Step {
    Command(1.0, 100.0, false, 20000)
  }

  function Growing(): Step {
    Command(2.0, 100.0, false, 40000)
  }

  lemma SlantedQuanta()
    ensures IsQuantum(99.0) && IsQuantum(1.0) && IsQuantum(2.0) && IsQuantum(-1.5)
    ensures Quantize(-0.25) == -0.2 && Quantize(-0.85) == -0.8 && Quantize(-1.15) == -1.1 && Quantize(-0.95) == -0.9
  {
    assert Truncate(990.0) == 990 && Truncate(10.0) == 10 && Truncate(20.0) == 20 && Truncate(-15.0) == -15;
    assert Truncate(-2.5) == -2 && Truncate(-8.5) == -8 && Truncate(-11.5) == -11 && Truncate(-9.5) == -9;
  }

  lemma SlantedSteady(torque: real)
    requires -2.0 <= torque <= 99.0
    ensures WellFormed(SLANTED) && MeetsFewCells(SLANTED, torque)
    ensures var out := EvaluateSteady(SteadyInput(torque, STANDING_STILL, false), Handle(SLANTED));
            out.status == ModelOk && out.current == Interval(1.0, 50.0)
  {
    SmallSketch(SLANTED, torque);
    SteadyAt(SLANTED, torque, Interval(1.0, 50.0));
  }

  // ---------------------------------------------------------------------------------------------
  // 99 Nm, then 1 Nm
  // ---------------------------------------------------------------------------------------------

  lemma SlantedOffers()
    ensures WellFormed(SLANTED)
    ensures var cal := Artifact(SLANTED);
            && UpwardBest(cal, cal.steadyCells[1], 99.0) == -1.5 && UpwardBest(cal, cal.steadyCells[1], 2.0) == -1.5
            && UpwardBest(cal, cal.steadyCells[2], 99.0) == 99.0
  {
    SlantedQuanta();
  }

  lemma SlantedAnswer()
    ensures WellFormed(SLANTED) && FirstAnswer(SLANTED, 99.0, 99.0, Interval(1.0, 50.0), 100.0, 1000)
  {
    SlantedQuanta();
    SlantedOffers();
    SlantedSteady(99.0);
    CellAt(SLANTED, 1);
    CellAt(SLANTED, 2);
    var rt, input := Handle(SLANTED), Ask(99.0, 100.0, true, 1000);
    var path, start := PathOf(0.0, 99.0), Prefix(0.0, NO_CURRENT, false, NO_CALLS);
    var low := Prefix(-1.5, Interval(1.0, 50.0), true, CountCell(NO_CALLS));
    var taken := Prefix(99.0, Interval(1.0, 50.0), true, CountCell(CountCell(NO_CALLS)));
    assert PrefixUp(path, 99.0, input, rt, 3, taken) == taken;
    assert PrefixUp(path, 99.0, input, rt, 2, low) == taken;
    assert PrefixUp(path, 99.0, input, rt, 1, start) == taken;
    assert PrefixUp(path, 99.0, input, rt, 0, start) == taken;
  }

  lemma SlantedMoves(torque: real, input: ClampInput, st: State, f: nat)
    requires -2.0 <= torque <= 99.0 && st.transition.active && Max(st.transition.maximum, torque) == 99.0
    requires Min(st.transition.minimum, torque) >= -1.0 && input.point == STANDING_STILL && f in {4, 5}
    ensures WellFormed(SLANTED)
    ensures var t := TransitionFor(torque, REQUIRED_FAMILIES[f].0, REQUIRED_FAMILIES[f].1, input, Handle(SLANTED), st);
            t.status == ModelOk && t.current == MOVING_DRAW
  {
    SlantedSteady(torque);
    MovingAt(SLANTED, TransitionRequest(torque, REQUIRED_FAMILIES[f].0, REQUIRED_FAMILIES[f].1, input, st), f);
  }

  lemma ReductionGate(st: State)
    requires Opened(st, 99.0)
    ensures WellFormed(SLANTED)
    ensures Request(Reducing().input) == 1.0 && Previous(st) == 99.0
    ensures Admit(Reducing().input, Artifact(SLANTED), st).Admitted?
    ensures !TracksMicrostep(99.0, 1.0, Reducing().input, st, Artifact(SLANTED))
    ensures Movement(st, 99.0, 1.0, false) == REQUIRED_FAMILIES[5]
  {
    SlantedQuanta();
  }

  lemma ReductionAllowed(input: ClampInput, rt: Runtime, st: State)
    requires Opened(st, 99.0) && input == Reducing().input && WellFormed(SLANTED) && rt == Handle(SLANTED)
    ensures QualifiedRuntime(rt) && AsksReduction(input, rt, st) && ReductionFeasible(input, rt, st)
  {
    ArtifactQualifies(SLANTED);
    ReductionGate(st);
    SlantedSteady(1.0);
    SlantedMoves(1.0, input, st, 5);
  }

  /** 1 Nm is committed on the way down from 99 Nm, and the transition from rest is still unfinished. */
  predicate Fallen(st: State) {
    && !st.path.UnknownPath? && st.lastNonzeroSign.PositiveSign? && st.committed == 1.0 && !st.normalizedZero
    && st.transition.active && st.transition.anchor == 0.0
    && st.transition.minimum == 0.0 && st.transition.maximum == 99.0
    && st.transition.profile.Composed? && st.transition.direction.SameSignDecrease?
  }

  lemma ReductionSelected(step: Step, rt: Runtime, st: State)
    requires Opened(st, 99.0) && step == Reducing() && WellFormed(SLANTED) && rt == Handle(SLANTED)
    ensures QualifiedRuntime(rt)
    ensures var out := Run(step.input, rt, st).1;
            && Candidate(step, rt, st) == Some(out) && out.outputValid && out.selected == 1.0 && !out.microstep
            && out.materialChange && (out.profile, out.direction) == (Composed, SameSignDecrease)
            && Committed(step, rt, st) == 1.0
  {
    ReductionAllowed(step.input, rt, st);
    ReductionGate(st);
    ReductionIsGranted(step.input, rt, st);
    ReductionChosen(step.input, rt, st);
    NonzeroCandidate(step.input, rt, st);
    SelectedFamily(step.input, rt, st);
    SlantedSteady(1.0);
    CommittedIffInForce(step.input, rt, st, step.verification);
    FreshContract(20000);
  }

  lemma ReductionFalls(step: Step, rt: Runtime, st: State)
    requires Opened(st, 99.0) && step == Reducing() && WellFormed(SLANTED) && rt == Handle(SLANTED)
    ensures Fallen(Next(step, rt, st))
  {
    ReductionSelected(step, rt, st);
    var out := Run(step.input, rt, st).1;
    assert MoveOf(Some(out), 99.0, 1.0, Artifact(SLANTED)) ==
           Move(true, false, Composed, SameSignDecrease, out.settlingUs);
  }

  // ---------------------------------------------------------------------------------------------
  // Then a request of 2 Nm
  // ---------------------------------------------------------------------------------------------

  lemma GrowthGate(st: State)
    requires Fallen(st)
    ensures WellFormed(SLANTED)
    ensures Request(Growing().input) == 2.0 && Previous(st) == 1.0
    ensures Admit(Growing().input, Artifact(SLANTED), st).Admitted?
    ensures !TracksMicrostep(1.0, 2.0, Growing().input, st, Artifact(SLANTED))
    ensures Movement(st, 1.0, -1.5, false) == REQUIRED_FAMILIES[4]
  {
    SlantedQuanta();
  }

  lemma GrowthHeld(st: State)
    requires Fallen(st)
    ensures WellFormed(SLANTED) && HeldOf(Growing().input, Handle(SLANTED), st).Feasible()
  {
    GrowthGate(st);
    SlantedSteady(1.0);
    SlantedMoves(1.0, Growing().input, st, 5);
  }

  /** The walk aims at -1.5 Nm, the middle of the only cell it crosses. */
  lemma GrowthChoice(st: State)
    requires Fallen(st)
    ensures WellFormed(SLANTED)
    ensures var pick := ChoiceOf(Growing().input, Handle(SLANTED), st); pick.Pick? && pick.torque == -1.5
  {
    var input, rt := Growing().input, Handle(SLANTED);
    GrowthGate(st);
    GrowthHeld(st);
    SlantedOffers();
    CellAt(SLANTED, 1);
    var held := HeldOf(input, rt, st);
    var path, start := PathOf(1.0, 2.0), Prefix(1.0, NO_CURRENT, false, held.tally);
    var taken := Prefix(-1.5, Interval(1.0, 50.0), true, CountCell(held.tally));
    assert PrefixUp(path, 2.0, input, rt, 3, taken) == taken;
    assert PrefixUp(path, 2.0, input, rt, 2, taken) == taken;
    assert PrefixUp(path, 2.0, input, rt, 1, start) == taken;
    assert PrefixUp(path, 2.0, input, rt, 0, start) == taken;
    assert ChoiceOf(input, rt, st) == ChooseIncrease(1.0, 2.0, held, input, rt);
  }

  /** A bracket of more than 100 Nm is not certified. */
  lemma SlantedRefuses(torque: real, input: ClampInput, st: State)
    requires -2.0 <= torque < -1.0 && Fallen(st) && input.point == STANDING_STILL
    ensures WellFormed(SLANTED)
    ensures TransitionFor(torque, Composed, SameSignIncrease, input, Handle(SLANTED), st).status != ModelOk
  {
    var t, rt := TransitionRequest(torque, Composed, SameSignIncrease, input, st), Handle(SLANTED);
    ArtifactQualifies(SLANTED);
    forall c | 0 <= c < |Artifact(SLANTED).transitionCells|
      ensures Artifact(SLANTED).transitionCells[c].spanMax < t.maximum - t.minimum
    {
      assert Artifact(SLANTED).transitionCells[c] == FamilyCell(SLANTED, REQUIRED_FAMILIES[c]);
    }
    if EvaluateTransition(t, rt).status == ModelOk {
      SuccessMeans(t, rt);
    }
  }

  /** Where a bisection stands. */
  predicate StandsAt(r: Refinement, safe: real, unsafe: real, valid: bool) {
    r.safe == safe && r.unsafe == unsafe && r.valid == valid
  }

  lemma StepPasses(r: Refinement, midpoint: real, movement: (Profile, Direction), input: ClampInput, rt: Runtime,
                   st: State)
    requires midpoint == Quantize(r.safe + 0.5 * (r.unsafe - r.safe))
    requires SteadyAuthorized(ExactSteady(midpoint, false, input, rt), input)
    ensures var passes := TransitionAuthorized(TransitionFor(midpoint, movement.0, movement.1, input, rt, st), input);
            StandsAt(RefineStep(r, movement, input, rt, st), if passes then midpoint else r.safe,
                     if passes then r.unsafe else midpoint, passes || r.valid)
  {
  }

  /** One bisection step: the midpoint passes down to -1 Nm, and fails below. */
  lemma GrowthStep(r: Refinement, midpoint: real, input: ClampInput, rt: Runtime, st: State)
    requires Fallen(st) && input == Growing().input && WellFormed(SLANTED) && rt == Handle(SLANTED)
    requires midpoint == Quantize(r.safe + 0.5 * (r.unsafe - r.safe)) && -2.0 <= midpoint <= 1.0
    ensures StandsAt(RefineStep(r, REQUIRED_FAMILIES[4], input, rt, st), if midpoint >= -1.0 then midpoint else r.safe,
                     if midpoint >= -1.0 then r.unsafe else midpoint, midpoint >= -1.0 || r.valid)
  {
    SlantedSteady(midpoint);
    if midpoint >= -1.0 {
      SlantedMoves(midpoint, input, st, 4);
    } else {
      SlantedRefuses(midpoint, input, st);
    }
    StepPasses(r, midpoint, REQUIRED_FAMILIES[4], input, rt, st);
  }

  lemma RefineOnce(n: nat, r: Refinement, movement: (Profile, Direction), input: ClampInput, rt: Runtime, st: State)
    ensures Refine(n + 1, r, movement, input, rt, st) ==
            RefineStep(Refine(n, r, movement, input, rt, st), movement, input, rt, st)
  {
  }

  lemma GrowthRefined(r: Refinement, input: ClampInput, rt: Runtime, st: State)
    requires Fallen(st) && input == Growing().input && WellFormed(SLANTED) && rt == Handle(SLANTED)
    requires StandsAt(r, 1.0, -1.5, true)
    ensures StandsAt(Refine(4, r, REQUIRED_FAMILIES[4], input, rt, st), -0.9, -1.1, true)
  {
    SlantedQuanta();
    GrowthStep(r, -0.2, input, rt, st);
    RefineOnce(0, r, REQUIRED_FAMILIES[4], input, rt, st);
    GrowthStep(Refine(1, r, REQUIRED_FAMILIES[4], input, rt, st), -0.8, input, rt, st);
    RefineOnce(1, r, REQUIRED_FAMILIES[4], input, rt, st);
    GrowthStep(Refine(2, r, REQUIRED_FAMILIES[4], input, rt, st), -1.1, input, rt, st);
    RefineOnce(2, r, REQUIRED_FAMILIES[4], input, rt, st);
    GrowthStep(Refine(3, r, REQUIRED_FAMILIES[4], input, rt, st), -0.9, input, rt, st);
    RefineOnce(3, r, REQUIRED_FAMILIES[4], input, rt, st);
  }

  lemma GrowthJudgement(input: ClampInput, rt: Runtime, st: State)
    requires Fallen(st) && input == Growing().input && WellFormed(SLANTED) && rt == Handle(SLANTED)
    ensures ChoiceOf(input, rt, st).Pick? && !MicrostepOf(input, rt, st)
    ensures var j := JudgedOf(input, rt, st);
            j.Judged? && j.torque == -0.9 && (j.profile, j.direction) == (Composed, SameSignIncrease)
  {
    GrowthGate(st);
    GrowthHeld(st);
    GrowthChoice(st);
    SlantedRefuses(-1.5, input, st);
    var pick, held := ChoiceOf(input, rt, st), HeldOf(input, rt, st);
    var family := (Composed, SameSignIncrease);
    var tally := CountTransition(pick.tally);
    var start := Refinement(1.0, -1.5, held.steady, held.transition, held.settlingUs, held.transitionOk, tally);
    GrowthRefined(start, input, rt, st);
    assert REQUIRED_FAMILIES[4] == family;
    assert JudgedOf(input, rt, st) == JudgeMovement(pick, family, 1.0, 2.0, held, input, rt, st);
    assert JudgedOf(input, rt, st) == JudgeRefined(pick, family, true, tally, 1.0, held, input, rt, st);
  }

  /** The selected torque is smaller than the held one, and its family is that of an increase. */
  predicate FallsAsIncrease(out: Output, input: ClampInput, st: State) {
    && out.selected == -0.9 && Abs(out.selected) < Abs(Previous(st)) && Request(input) > Previous(st) > 0.0
    && !out.microstep && out.profile.Composed? && out.direction.SameSignIncrease?
  }

  lemma GrowthSelected(input: ClampInput, rt: Runtime, st: State)
    requires Fallen(st) && input == Growing().input && WellFormed(SLANTED) && rt == Handle(SLANTED)
    ensures FallsAsIncrease(Run(input, rt, st).1, input, st)
  {
    GrowthGate(st);
    GrowthJudgement(input, rt, st);
    SlantedSteady(-0.9);
    JudgedIsSelected(input, rt, st);
  }

  lemma SlantedStart(first: Step, rt: Runtime)
    requires first == First() && WellFormed(SLANTED) && rt == Handle(SLANTED)
    ensures QualifiedRuntime(rt) && Opened(Next(first, rt, INITIAL_STATE), 99.0)
  {
    SlantedAnswer();
    FirstCommand(SLANTED, 99.0, 99.0, Interval(1.0, 50.0), 100.0, 1000);
    FirstCommitOpens(SLANTED, 99.0, 99.0, Interval(1.0, 50.0), 100.0, 1000);
  }

  lemma SlantedRun(first: Step, second: Step, third: Step, rt: Runtime)
    requires first == First() && second == Reducing() && third == Growing()
    requires WellFormed(SLANTED) && rt == Handle(SLANTED)
    ensures QualifiedRuntime(rt)
    ensures var st := Next(second, rt, Next(first, rt, INITIAL_STATE));
            FallsAsIncrease(Run(third.input, rt, st).1, third.input, st)
  {
    SlantedStart(first, rt);
    ReductionFalls(second, rt, Next(first, rt, INITIAL_STATE));
    GrowthSelected(third.input, rt, Next(second, rt, Next(first, rt, INITIAL_STATE)));
  }

  lemma ThirdState(steps: seq<Step>, rt: Runtime)
    requires RuntimeValid(rt) && |steps| == 3
    ensures StateAt(steps, rt, 2) == Next(steps[1], rt, Next(steps[0], rt, INITIAL_STATE))
  {
    FirstTwoSteps(steps, rt);
    StateAtNext(steps, rt, 1);
  }

  /** A smaller torque is not always judged as a decrease: after 99 Nm and 1 Nm, a request of 2 Nm is answered with
      -0.9 Nm, bisected from an offer of -1.5 Nm and judged, all the way, against the family of an increase. */
  lemma FallingMoveIsJudgedAsIncrease() returns (rt: Runtime, steps: seq<Step>)
    ensures WellFormed(SLANTED) && rt == Handle(SLANTED) && QualifiedRuntime(rt)
    ensures steps == [First(), Reducing(), Growing()]
    ensures FallsAsIncrease(Run(Growing().input, rt, StateAt(steps, rt, 2)).1, Growing().input, StateAt(steps, rt, 2))
  {
    SlantedAnswer();
    rt := Handle(SLANTED);
    steps := [First(), Reducing(), Growing()];
    SlantedRun(steps[0], steps[1], steps[2], rt);
    ThirdState(steps, rt);
  }
}
