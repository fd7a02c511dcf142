/** Runs under qualified artifacts in which a natural claim about the clamp fails. Each one goes as far as the bus. */
module ClampWitnesses {
  import opened Numeric
  import opened Calibration
  import opened SteadyModel
  import opened TransitionModel
  import opened TorqueClamp
  import opened ClampRun
  import opened ClampCommit
  import opened ClampCells
  import opened ClampSafety
  import opened ClampSelection
  import opened ClampCost
  import opened ClampRuns
  import opened SampleArtifact
  import opened ClampExample

  // ---------------------------------------------------------------------------------------------
  // The middle of a cell beyond the request
  // ---------------------------------------------------------------------------------------------

  /** Cells [-10, 0] and [0, 100] and a lower guard band of 2 Nm. */
  const GUARDED := Sketch([-10.0, 0.0, 100.0], [Interval(1.0, 50.0), Interval(1.0, 50.0)], 2.0, 0.0, 0.5, 1.0, 100.0)

  lemma SmallQuanta()
    ensures IsQuantum(1.5) && IsQuantum(-0.5) && IsQuantum(60.0)
  {
    assert Truncate(15.0) == 15 && Truncate(-5.0) == -5 && Truncate(600.0) == 600;
  }

  lemma GuardedAnswer()
    ensures WellFormed(GUARDED) && FirstAnswer(GUARDED, 1.5, 50.0, GUARDED.draws[1], 100.0, 1000)
  {
    SmallQuanta();
    FiftyIsQuantum();
    SmallSketch(GUARDED, 50.0);
    CellAt(GUARDED, 1);
    var cal, rt, input := Artifact(GUARDED), Handle(GUARDED), Ask(1.5, 100.0, true, 1000);
    var path, start := PathOf(0.0, 1.5), Prefix(0.0, NO_CURRENT, false, NO_CALLS);
    assert UpwardBest(cal, cal.steadyCells[1], 1.5) == 50.0;
    var taken := Prefix(50.0, GUARDED.draws[1], true, CountCell(NO_CALLS));
    assert PrefixUp(path, 1.5, input, rt, 2, taken) == taken;
    assert PrefixUp(path, 1.5, input, rt, 1, start) == taken;
    assert PrefixUp(path, 1.5, input, rt, 0, start) == taken;
  }

  /** The selected torque may exceed the request, although no cell straddles zero: a request of 1.5 Nm puts 50 Nm on the
      bus, because the guard bands leave no room below it and the middle of the cell takes its place. */
  lemma SelectionExceedsRequest()
    ensures WellFormed(GUARDED) && QualifiedRuntime(Handle(GUARDED)) && NoCellStraddlesZero(Artifact(GUARDED))
    ensures var step, rt := Command(1.5, 100.0, true, 1000), Handle(GUARDED);
            && Request(step.input) == 1.5 && Run(step.input, rt, INITIAL_STATE).1.selected == 50.0
            && Reverify(Run(step.input, rt, INITIAL_STATE).1, step.verification).accepted
            && CommitAt([step], rt, 0) == 50.0
  {
    GuardedAnswer();
    FirstCommand(GUARDED, 1.5, 50.0, GUARDED.draws[1], 100.0, 1000);
  }

  // ---------------------------------------------------------------------------------------------
  // The wrong sign from a cell that straddles zero
  // ---------------------------------------------------------------------------------------------

  /** Cells [-20, -3], [-3, 2] and [2, 100], the last one with a larger draw, and guard bands of 5 Nm and 0.8 Nm. */
  const STRADDLED := Sketch(
    [-20.0, -3.0, 2.0, 100.0], [Interval(1.0, 50.0), Interval(1.0, 50.0), Interval(1.0, 90.0)], 5.0, 0.8, 0.2, 0.4,
    100.0)

  lemma StraddledOffers()
    ensures WellFormed(STRADDLED)
    ensures var cal := Artifact(STRADDLED);
            && UpwardBest(cal, cal.steadyCells[1], 1.5) == -0.5
            && Quantize(PositiveCandidate(cal.steadyCells[1], cal, 1.5)) == -0.5
            && UpwardBest(cal, cal.steadyCells[1], 50.0) == -0.5
            && UpwardBest(cal, cal.steadyCells[2], 50.0) == 50.0
  {
    SmallQuanta();
    FiftyIsQuantum();
  }

  lemma StraddledAnswer()
    ensures WellFormed(STRADDLED) && FirstAnswer(STRADDLED, 1.5, -0.5, STRADDLED.draws[1], 100.0, 1000)
  {
    SmallQuanta();
    StraddledOffers();
    SmallSketch(STRADDLED, -0.5);
    CellAt(STRADDLED, 1);
    var rt, input := Handle(STRADDLED), Ask(1.5, 100.0, true, 1000);
    var path, start := PathOf(0.0, 1.5), Prefix(0.0, NO_CURRENT, false, NO_CALLS);
    var taken := Prefix(-0.5, STRADDLED.draws[1], true, CountCell(NO_CALLS));
    assert PrefixUp(path, 1.5, input, rt, 3, taken) == taken;
    assert PrefixUp(path, 1.5, input, rt, 2, taken) == taken;
    assert PrefixUp(path, 1.5, input, rt, 1, start) == taken;
    assert PrefixUp(path, 1.5, input, rt, 0, start) == taken;
  }

  /** The selected torque may have the wrong sign: a request of +1.5 Nm puts -0.5 Nm on the bus. */
  lemma SelectionOpposesRequest()
    ensures WellFormed(STRADDLED) && QualifiedRuntime(Handle(STRADDLED))
    ensures var step, rt := Command(1.5, 100.0, true, 1000), Handle(STRADDLED);
            && Request(step.input) == 1.5 && Run(step.input, rt, INITIAL_STATE).1.selected == -0.5
            && Reverify(Run(step.input, rt, INITIAL_STATE).1, step.verification).accepted
            && CommitAt([step], rt, 0) == -0.5
  {
    StraddledAnswer();
    FirstCommand(STRADDLED, 1.5, -0.5, STRADDLED.draws[1], 100.0, 1000);
  }

  lemma StraddledFifty()
    ensures WellFormed(STRADDLED) && FirstAnswer(STRADDLED, 50.0, 50.0, STRADDLED.draws[2], 100.0, 1000)
  {
    SmallQuanta();
    FiftyIsQuantum();
    StraddledOffers();
    SmallSketch(STRADDLED, 50.0);
    CellAt(STRADDLED, 1);
    CellAt(STRADDLED, 2);
    var rt, input := Handle(STRADDLED), Ask(50.0, 100.0, true, 1000);
    var path, start := PathOf(0.0, 50.0), Prefix(0.0, NO_CURRENT, false, NO_CALLS);
    var low := Prefix(-0.5, STRADDLED.draws[1], true, CountCell(NO_CALLS));
    var taken := Prefix(50.0, STRADDLED.draws[2], true, CountCell(CountCell(NO_CALLS)));
    assert PrefixUp(path, 50.0, input, rt, 3, taken) == taken;
    assert PrefixUp(path, 50.0, input, rt, 2, low) == taken;
    assert PrefixUp(path, 50.0, input, rt, 1, start) == taken;
    assert PrefixUp(path, 50.0, input, rt, 0, start) == taken;
  }

  lemma StraddledSearch(tally: Tally)
    ensures WellFormed(STRADDLED)
    ensures var r := ReduceTowardZero(1.5, Reversing().input, Handle(STRADDLED), tally);
            r.found == Some((-0.5, STRADDLED.draws[1]))
  {
    StraddledOffers();
    CellAt(STRADDLED, 1);
    SmallSketch(STRADDLED, -0.5);
    SteadyAt(STRADDLED, -0.5, STRADDLED.draws[1]);
    var input, rt := Reversing().input, Handle(STRADDLED);
    assert ReducePositive(1.5, input, rt, 3, tally) == ReducePositive(1.5, input, rt, 2, tally);
  }

  const LATER: Word32 := 20000

  function Reversing(): Step {
    Command(1.5, 80.0, false, LATER)
  }

  lemma StraddledGate(st: State)
    requires Opened(st, 50.0)
    ensures WellFormed(STRADDLED)
    ensures Request(Reversing().input) == 1.5 && Previous(st) == 50.0
    ensures Admit(Reversing().input, Artifact(STRADDLED), st).Admitted?
    ensures !TracksMicrostep(50.0, 1.5, Reversing().input, st, Artifact(STRADDLED))
  {
    SmallQuanta();
  }

  /** With 50 Nm committed and the limit at 80 A, a request of 1.5 Nm is searched for and answered with -0.5 Nm. */
  lemma StraddledChoice(st: State)
    requires Opened(st, 50.0)
    ensures WellFormed(STRADDLED)
    ensures var pick := ChoiceOf(Reversing().input, Handle(STRADDLED), st); pick.Pick? && pick.torque == -0.5
  {
    var input, rt := Reversing().input, Handle(STRADDLED);
    StraddledGate(st);
    SmallSketch(STRADDLED, 1.5);
    SteadyAtLeast(STRADDLED, 1.5, 2);
    var held := HeldOf(input, rt, st);
    StraddledSearch(CountSteady(held.tally, ExactSteady(1.5, false, input, rt)));
    assert ChoiceOf(input, rt, st) == ChooseDecrease(50.0, 1.5, held, input, rt, st);
  }

  lemma StraddledTransition(st: State)
    requires Opened(st, 50.0)
    ensures WellFormed(STRADDLED) && Movement(st, 50.0, -0.5, false) == (Composed, SameSignDecrease)
    ensures TransitionFor(-0.5, Composed, SameSignDecrease, Reversing().input, Handle(STRADDLED), st).status == ModelOk
  {
    assert (Composed, SameSignDecrease) == REQUIRED_FAMILIES[5];
    MovingAt(STRADDLED, TransitionRequest(-0.5, Composed, SameSignDecrease, Reversing().input, st), 5);
  }

  lemma StraddledJudgement(st: State)
    requires Opened(st, 50.0)
    ensures WellFormed(STRADDLED) && ChoiceOf(Reversing().input, Handle(STRADDLED), st).Pick?
    ensures !MicrostepOf(Reversing().input, Handle(STRADDLED), st)
    ensures var j := JudgedOf(Reversing().input, Handle(STRADDLED), st);
            j.Judged? && j.torque == -0.5 && !j.required
  {
    var input, rt := Reversing().input, Handle(STRADDLED);
    StraddledGate(st);
    StraddledChoice(st);
    StraddledTransition(st);
    var pick, held := ChoiceOf(input, rt, st), HeldOf(input, rt, st);
    assert JudgedOf(input, rt, st) == JudgeMovement(pick, (Composed, SameSignDecrease), 50.0, 1.5, held, input, rt, st);
  }

  lemma StraddledCommit(step: Step, rt: Runtime, st: State)
    requires WellFormed(STRADDLED) && rt == Handle(STRADDLED) && step == Reversing() && Opened(st, 50.0)
    ensures Committed(step, rt, st) == -0.5
  {
    StraddledGate(st);
    StraddledJudgement(st);
    SmallSketch(STRADDLED, -0.5);
    SteadyAt(STRADDLED, -0.5, STRADDLED.draws[1]);
    JudgedIsSelected(step.input, rt, st);
    CandidateStamp(step.input, rt, st);
    FreshContract(LATER);
  }

  lemma StraddledOpened(first: Step, rt: Runtime)
    requires first == Command(50.0, 100.0, true, 1000) && WellFormed(STRADDLED) && rt == Handle(STRADDLED)
    ensures QualifiedRuntime(rt) && Committed(first, rt, INITIAL_STATE) == 50.0
    ensures Opened(Next(first, rt, INITIAL_STATE), 50.0)
  {
    StraddledFifty();
    FirstCommand(STRADDLED, 50.0, 50.0, STRADDLED.draws[2], 100.0, 1000);
    FirstCommitOpens(STRADDLED, 50.0, 50.0, STRADDLED.draws[2], 100.0, 1000);
  }

  lemma StraddledRun(first: Step, second: Step, rt: Runtime)
    requires WellFormed(STRADDLED) && rt == Handle(STRADDLED)
    requires first == Command(50.0, 100.0, true, 1000) && second == Reversing()
    ensures QualifiedRuntime(rt) && Committed(first, rt, INITIAL_STATE) == 50.0
    ensures Committed(second, rt, Next(first, rt, INITIAL_STATE)) == -0.5
  {
    StraddledOpened(first, rt);
    StraddledCommit(second, rt, Next(first, rt, INITIAL_STATE));
  }

  /** Neighbouring commits may oppose each other without a confirmed zero: 50 Nm, then -0.5 Nm. The second request is
      positive and zero is confirmed neither when it is computed nor when it is committed. */
  lemma NeighboursOppose() returns (rt: Runtime, steps: seq<Step>)
    ensures WellFormed(STRADDLED) && rt == Handle(STRADDLED) && QualifiedRuntime(rt)
    ensures steps == [Command(50.0, 100.0, true, 1000), Reversing()] && Reversing().input.requested == 1.5
    ensures CommitAt(steps, rt, 0) == 50.0 && CommitAt(steps, rt, 1) == -0.5 && LastOutside(steps, rt, 0, 1)
    ensures !Reversing().input.physicalZeroConfirmed && !Reversing().verification.physicalZeroConfirmed
    ensures !SignsKeptAt(steps, rt, 1)
  {
    StraddledOffers();
    rt := Handle(STRADDLED);
    steps := [Command(50.0, 100.0, true, 1000), Reversing()];
    StraddledRun(steps[0], steps[1], rt);
    FirstTwoSteps(steps, rt);
    JustOutside(steps, rt, 0);
    OppositesNeedLostSign(steps, rt, 0);
  }

  // ---------------------------------------------------------------------------------------------
  // An unfinished transition without authority
  // ---------------------------------------------------------------------------------------------

  function Tightened(): Step {
    Command(60.0, 55.0, false, LATER)
  }

  lemma PlainGate(st: State)
    requires Opened(st, 50.0)
    ensures WellFormed(PLAIN)
    ensures Request(Tightened().input) == 60.0 && Previous(st) == 50.0
    ensures Admit(Tightened().input, Artifact(PLAIN), st).Admitted?
    ensures !TracksMicrostep(50.0, 60.0, Tightened().input, st, Artifact(PLAIN))
  {
    SmallQuanta();
  }

  lemma PlainSearch(tally: Tally)
    ensures WellFormed(PLAIN)
    ensures ReduceTowardZero(50.0, Tightened().input, Handle(PLAIN), tally).found == Some((50.0, PLAIN.draws[0]))
  {
    FiftyIsQuantum();
    CellAt(PLAIN, 0);
    SmallSketch(PLAIN, 50.0);
    SteadyAt(PLAIN, 50.0, PLAIN.draws[0]);
    var cal := Artifact(PLAIN);
    assert Quantize(PositiveCandidate(cal.steadyCells[0], cal, 50.0)) == 50.0;
  }

  lemma PlainTransition(st: State)
    requires Opened(st, 50.0)
    ensures WellFormed(PLAIN) && Movement(st, 50.0, 50.0, false) == (SlewLimited, FromZero)
    ensures var t := TransitionFor(50.0, SlewLimited, FromZero, Tightened().input, Handle(PLAIN), st);
            t.status == ModelOk && t.current == MOVING_DRAW
  {
    assert (SlewLimited, FromZero) == REQUIRED_FAMILIES[0];
    MovingAt(PLAIN, TransitionRequest(50.0, SlewLimited, FromZero, Tightened().input, st), 0);
  }

  /** The held transition has lost its authority, so the search runs below 50 Nm and returns 50 Nm itself. */
  lemma PlainChoice(st: State)
    requires Opened(st, 50.0)
    ensures WellFormed(PLAIN) && !HeldOf(Tightened().input, Handle(PLAIN), st).transitionOk
    ensures var pick := ChoiceOf(Tightened().input, Handle(PLAIN), st); pick.Pick? && pick.torque == 50.0
  {
    var input, rt := Tightened().input, Handle(PLAIN);
    PlainGate(st);
    PlainTransition(st);
    var held := HeldOf(input, rt, st);
    PlainSearch(held.tally);
    assert ChoiceOf(input, rt, st) == ChooseIncrease(50.0, 60.0, held, input, rt);
  }

  lemma PlainJudgement(st: State)
    requires Opened(st, 50.0)
    ensures WellFormed(PLAIN) && ChoiceOf(Tightened().input, Handle(PLAIN), st).Pick?
    ensures !MicrostepOf(Tightened().input, Handle(PLAIN), st)
    ensures var j := JudgedOf(Tightened().input, Handle(PLAIN), st);
            j.Judged? && j.torque == 50.0 && j.required && j.valid && j.transition == MOVING_DRAW
  {
    var input, rt := Tightened().input, Handle(PLAIN);
    PlainGate(st);
    PlainTransition(st);
    PlainChoice(st);
    var pick, held := ChoiceOf(input, rt, st), HeldOf(input, rt, st);
    assert JudgedOf(input, rt, st) == JudgeMovement(pick, (SlewLimited, FromZero), 50.0, 60.0, held, input, rt, st);
  }

  /** The candidate keeps 50 Nm under a transition envelope beyond the limits it was computed for. */
  predicate PublishesUnauthorized(out: Output, input: ClampInput, st: State) {
    && out.selected == Previous(st) == 50.0 && Increasing(Previous(st), Request(input))
    && Exposes(out.selected, Previous(st), st) && !out.microstep
    && out.transitionRequired && out.transitionValid && !IntervalAuthorized(out.transition, input.limits)
  }

  lemma PlainCandidate(step: Step, rt: Runtime, st: State)
    requires WellFormed(PLAIN) && rt == Handle(PLAIN) && step == Tightened() && Opened(st, 50.0)
    ensures PublishesUnauthorized(Run(step.input, rt, st).1, step.input, st)
    ensures Reverify(Run(step.input, rt, st).1, step.verification) == Refuse(LateAuthorityTightening)
    ensures Committed(step, rt, st) == 0.0
  {
    PlainGate(st);
    PlainJudgement(st);
    SmallSketch(PLAIN, 50.0);
    SteadyAt(PLAIN, 50.0, PLAIN.draws[0]);
    JudgedIsSelected(step.input, rt, st);
    CandidateStamp(step.input, rt, st);
    FreshContract(LATER);
  }

  lemma PlainRun(first: Step, second: Step, rt: Runtime)
    requires WellFormed(PLAIN) && rt == Handle(PLAIN)
    requires first == Command(50.0, 100.0, true, 1000) && second == Tightened()
    ensures QualifiedRuntime(rt) && Committed(first, rt, INITIAL_STATE) == 50.0
    ensures var st := Next(first, rt, INITIAL_STATE);
            && PublishesUnauthorized(Run(second.input, rt, st).1, second.input, st)
            && Reverify(Run(second.input, rt, st).1, second.verification) == Refuse(LateAuthorityTightening)
            && Committed(second, rt, st) == 0.0
  {
    PlainAnswer(1000);
    FirstCommand(PLAIN, 50.0, 50.0, PLAIN.draws[0], 100.0, 1000);
    FirstCommitOpens(PLAIN, 50.0, 50.0, PLAIN.draws[0], 100.0, 1000);
    PlainCandidate(second, rt, Next(first, rt, INITIAL_STATE));
  }

  /** A run may publish an unfinished transition that its own limits do not authorise. After a
      commit of 50 Nm the limit falls to 55 A, which the steady draw of 50 A meets and the
      transition envelope of 60 A does not. A request of 60 Nm is answered with 50 Nm under that
      envelope, and re-verification refuses it. */
  lemma UnauthorizedTransitionIsPublished() returns (rt: Runtime, steps: seq<Step>)
    ensures WellFormed(PLAIN) && rt == Handle(PLAIN) && QualifiedRuntime(rt)
    ensures steps == [Command(50.0, 100.0, true, 1000), Tightened()]
    ensures CommitAt(steps, rt, 0) == 50.0 && CommitAt(steps, rt, 1) == 0.0
    ensures PublishesUnauthorized(Run(Tightened().input, rt, StateAt(steps, rt, 1)).1, Tightened().input,
                                  StateAt(steps, rt, 1))
    ensures Reverify(Run(Tightened().input, rt, StateAt(steps, rt, 1)).1, Tightened().verification) ==
            Refuse(LateAuthorityTightening)
  {
    PlainAnswer(1000);
    rt := Handle(PLAIN);
    steps := [Command(50.0, 100.0, true, 1000), Tightened()];
    PlainRun(steps[0], steps[1], rt);
    FirstTwoSteps(steps, rt);
  }

  // ---------------------------------------------------------------------------------------------
  // A span that is never found
  // ---------------------------------------------------------------------------------------------

  /** As PLAIN, with the largest finite float as the certified span. */
  const MARKED := PLAIN.(span := FLT_MAX)

  /** Boot qualification accepts a span that the evaluator never finds: 50 Nm from rest has no transition envelope. */
  lemma QualifiedSpanIsNotFound()
    ensures WellFormed(MARKED) && QualifiedRuntime(Handle(MARKED))
    ensures var t := TransitionRequest(50.0, SlewLimited, FromZero, Ask(50.0, 100.0, true, 1000), INITIAL_STATE);
            && FamilyCoversSpan(Artifact(MARKED), (SlewLimited, FromZero), t.maximum - t.minimum)
            && EvaluateTransition(t, Handle(MARKED)).status == OutOfDomain
  {
    var t := TransitionRequest(50.0, SlewLimited, FromZero, Ask(50.0, 100.0, true, 1000), INITIAL_STATE);
    assert REQUIRED_FAMILIES[0] == (SlewLimited, FromZero);
    MarkerSpanIsLost(MARKED, t, 0);
    RequiredFamilyEvaluates(t, Handle(MARKED), 0);
  }

  // ---------------------------------------------------------------------------------------------
  // Zero off the torque axis
  // ---------------------------------------------------------------------------------------------

  /** As PLAIN, with a torque uncertainty that reaches below the axis at zero. */
  const LOPSIDED := PLAIN.(torqueNegative := 1.0)

  /** The fast search and the exact check may disagree: 50 Nm passes the exact check, and its only cell fails. Under
      this qualified artifact no run ever commits torque. */
  lemma SearchMissesTorque(steps: seq<Step>, i: nat)
    ensures WellFormed(LOPSIDED) && QualifiedRuntime(Handle(LOPSIDED)) && !TorqueOnAxis(0.0, Artifact(LOPSIDED))
    ensures var input := Ask(50.0, 100.0, true, 1000);
            && SteadyAuthorized(ExactSteady(50.0, false, input, Handle(LOPSIDED)), input)
            && CellsAt(Artifact(LOPSIDED), TorqueInterval(50.0, Artifact(LOPSIDED))) == [0]
            && !CellAuthorized(0, input, Handle(LOPSIDED))
    ensures i < |steps| ==> CommitAt(steps, Handle(LOPSIDED), i) == 0.0
  {
    ArtifactQualifies(LOPSIDED);
    SmallSketch(LOPSIDED, 50.0);
    SteadyAt(LOPSIDED, 50.0, LOPSIDED.draws[0]);
    var cal := Artifact(LOPSIDED);
    assert TouchedCells(cal, TorqueInterval(50.0, cal), 0) == [];
    OffAxisCellsFail(0, Ask(50.0, 100.0, true, 1000), Handle(LOPSIDED));
    if i < |steps| {
      OffAxisNeverCommands(steps, Handle(LOPSIDED), i);
    }
  }
}
