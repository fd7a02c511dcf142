/** What a candidate of one run guarantees, and what re-verification adds at commit time. */
module ClampSafety {
  import opened Numeric
  import opened GridCoverage
  import opened Calibration
  import opened SteadyModel
  import opened TransitionModel
  import opened OperatingTruth
  import opened TorqueClamp
  import opened ClampRun
  import opened ClampCommit

  // ---------------------------------------------------------------------------------------------
  // The anatomy of a nonzero candidate
  // ---------------------------------------------------------------------------------------------

  function HeldOf(input: ClampInput, rt: Runtime, st: State): Held {
    Hold(Previous(st), input, rt, st)
  }

  function ChoiceOf(input: ClampInput, rt: Runtime, st: State): Choice
    requires RuntimeValid(rt)
  {
    Choose(Previous(st), Request(input), HeldOf(input, rt, st), input, rt, st)
  }

  predicate MicrostepOf(input: ClampInput, rt: Runtime, st: State)
    requires RuntimeValid(rt) && ChoiceOf(input, rt, st).Pick?
  {
    SelectedMicrostep(ChoiceOf(input, rt, st), Previous(st), Request(input), input, st, rt.calibration.value)
  }

  function JudgedOf(input: ClampInput, rt: Runtime, st: State): Judged
    requires RuntimeValid(rt) && ChoiceOf(input, rt, st).Pick?
  {
    Judge(ChoiceOf(input, rt, st), MicrostepOf(input, rt, st), Previous(st), Request(input), HeldOf(input, rt, st),
          input, rt, st)
  }

  /** The candidate that the last stage builds for a nonzero torque. */
  predicate IsNonzeroOutput(out: Output, j: Judged, microstep: bool, input: ClampInput, rt: Runtime, st: State)
    requires j.Judged?
  {
    var exact := ExactSteady(j.torque, microstep, input, rt);
    && out.outputValid && out.selected == j.torque && out.microstep == microstep
    && SteadyAuthorized(exact, input) && out.steady == exact.current
    && out.transition == j.transition && out.transitionValid == j.valid && out.transitionRequired == j.required
    && out.profile == j.profile && out.direction == j.direction && out.settlingUs == j.settlingUs
    && out.materialChange == (!microstep && j.torque != Previous(st))
    && out.zeroConfirmationRequired == (st.path.UnknownPath? || ReversalRequest(st, Request(input)))
    && WithinContract(out.tally)
  }

  lemma ConcludeNonzero(j: Judged, microstep: bool, input: ClampInput, rt: Runtime, st: State)
    requires RuntimeValid(rt) && j.Judged?
    requires Conclude(j, microstep, Previous(st), Request(input), input, rt, st).selected != 0.0
    ensures IsNonzeroOutput(Conclude(j, microstep, Previous(st), Request(input), input, rt, st), j, microstep, input,
                            rt, st)
  {
    var exact := ExactSteady(j.torque, microstep, input, rt);
    if j.torque == 0.0 || SteadyAuthorized(exact, input) {
      var checked := if j.torque == 0.0 then j.tally else CountSteady(j.tally, exact);
      DeliveredNonzero(Filled(j, if j.torque == 0.0 then j.steady else exact.current,
                              ZeroFallback(input, rt, st, false), CountTransition(checked), microstep, Previous(st),
                              Request(input), input, rt.calibration.value, st),
                       Request(input), input, rt, st);
    }
  }

  /** Delivery keeps the torque only inside the execution contract, and then only the reason may change. */
  lemma DeliveredNonzero(out: Output, request: real, input: ClampInput, rt: Runtime, st: State)
    ensures var delivered := Deliver(out, request, input, rt, st);
            delivered.selected != 0.0 ==>
              WithinContract(out.tally) && delivered == Snapshot(input, Published(out, request))
  {
  }

  /** Past the gates a run is the conclusion of its judged choice, or zero. */
  lemma AdmittedRun(input: ClampInput, rt: Runtime, st: State)
    requires RuntimeValid(rt) && RunAdmitted(input, rt, st).selected != 0.0
    ensures SameSign(Previous(st), Request(input)) && ChoiceOf(input, rt, st).Pick? && JudgedOf(input, rt, st).Judged?
    ensures RunAdmitted(input, rt, st) ==
            Conclude(JudgedOf(input, rt, st), MicrostepOf(input, rt, st), Previous(st), Request(input), input, rt, st)
  {
  }

  /** A nonzero candidate passed every gate and every stage; each of its fields comes from the stage named here. */
  lemma NonzeroCandidate(input: ClampInput, rt: Runtime, st: State)
    requires Run(input, rt, st).1.selected != 0.0
    ensures RuntimeValid(rt) && Admit(input, rt.calibration.value, st).Admitted?
        && SameSign(Previous(st), Request(input))
    ensures input.negativeCap <= 0.0 <= input.positiveCap
    ensures ChoiceOf(input, rt, st).Pick? && JudgedOf(input, rt, st).Judged?
    ensures IsNonzeroOutput(Run(input, rt, st).1, JudgedOf(input, rt, st), MicrostepOf(input, rt, st), input, rt, st)
  {
    assert RuntimeValid(rt) && Run(input, rt, st).1 == RunAdmitted(input, rt, st);
    AdmittedRun(input, rt, st);
    ConcludeNonzero(JudgedOf(input, rt, st), MicrostepOf(input, rt, st), input, rt, st);
  }

  // ---------------------------------------------------------------------------------------------
  // The bisection
  // ---------------------------------------------------------------------------------------------

  predicate OnSide(x: real, sign: Sign) {
    (sign.PositiveSign? ==> x >= 0.0) && (sign.NegativeSign? ==> x <= 0.0)
  }

  predicate WithinBounds(x: real, sign: Sign, magnitude: real) {
    OnSide(x, sign) && Abs(x) <= magnitude
  }

  /** The refined torque is one whose steady and transition evaluations were both authorised. */
  predicate SafeIsAuthorized(r: Refinement, movement: (Profile, Direction), input: ClampInput, rt: Runtime, st: State) {
    var steady := ExactSteady(r.safe, false, input, rt);
    var transition := TransitionFor(r.safe, movement.0, movement.1, input, rt, st);
    && SteadyAuthorized(steady, input) && r.steady == steady.current
    && TransitionAuthorized(transition, input) && r.transition == transition.current
    && r.settlingUs == transition.settlingUs
  }

  lemma MidpointBounded(safe: real, unsafe: real, sign: Sign, magnitude: real)
    requires WithinBounds(safe, sign, magnitude) && WithinBounds(unsafe, sign, magnitude)
    ensures WithinBounds(Quantize(safe + 0.5 * (unsafe - safe)), sign, magnitude)
  {
    QuantizeTowardZero(safe + 0.5 * (unsafe - safe));
  }

  /** One step moves one of the two ends to the midpoint, the safe one only to an authorised torque. */
  lemma RefineStepMoves(r: Refinement, movement: (Profile, Direction), input: ClampInput, rt: Runtime, st: State)
    ensures var next, midpoint := RefineStep(r, movement, input, rt, st), Quantize(r.safe + 0.5 * (r.unsafe - r.safe));
            || (next.safe == midpoint && next.unsafe == r.unsafe && SafeIsAuthorized(next, movement, input, rt, st))
            || (next.unsafe == midpoint && next.safe == r.safe && next.steady == r.steady
                && next.transition == r.transition && next.settlingUs == r.settlingUs)
  {
  }

  /** One step moves the safe end only to an authorised quantum and stays within the two ends. */
  lemma RefineStepStaysSafe(
    r: Refinement, movement: (Profile, Direction), input: ClampInput, rt: Runtime, st: State, sign: Sign,
    magnitude: real)
    requires WithinBounds(r.safe, sign, magnitude) && WithinBounds(r.unsafe, sign, magnitude)
    ensures var next := RefineStep(r, movement, input, rt, st);
            && WithinBounds(next.safe, sign, magnitude) && WithinBounds(next.unsafe, sign, magnitude)
            && ((next.safe == r.safe && next.steady == r.steady && next.transition == r.transition
                 && next.settlingUs == r.settlingUs)
                || (IsQuantum(next.safe) && SafeIsAuthorized(next, movement, input, rt, st)))
  {
    RefineStepMoves(r, movement, input, rt, st);
    MidpointBounded(r.safe, r.unsafe, sign, magnitude);
    QuantizeTowardZero(r.safe + 0.5 * (r.unsafe - r.safe));
  }

  /** The bisection never leaves the magnitude and the sign of its two ends, and moves only to authorised torques. */
  lemma {:induction false} RefineStaysSafe(
    iterations: nat, start: Refinement, movement: (Profile, Direction), input: ClampInput, rt: Runtime, st: State,
    sign: Sign, magnitude: real)
    requires WithinBounds(start.safe, sign, magnitude) && WithinBounds(start.unsafe, sign, magnitude)
    ensures var r := Refine(iterations, start, movement, input, rt, st);
            && WithinBounds(r.safe, sign, magnitude) && WithinBounds(r.unsafe, sign, magnitude)
            && (r.safe == start.safe || (IsQuantum(r.safe) && SafeIsAuthorized(r, movement, input, rt, st)))
  {
    if iterations > 0 {
      RefineStaysSafe(iterations - 1, start, movement, input, rt, st, sign, magnitude);
      RefineStepStaysSafe(Refine(iterations - 1, start, movement, input, rt, st), movement, input, rt, st, sign,
                          magnitude);
    }
  }

  // ---------------------------------------------------------------------------------------------
  // Transition authority of a candidate
  // ---------------------------------------------------------------------------------------------

  /** A growing command, or one that holds while a transition is still unfinished. */
  predicate Exposes(torque: real, previous: real, st: State) {
    Abs(torque) > Abs(previous) || (torque == previous && st.transition.active)
  }

  predicate TransitionRecorded(j: Judged, input: ClampInput, rt: Runtime, st: State)
    requires j.Judged?
  {
    var t := TransitionFor(j.torque, j.profile, j.direction, input, rt, st);
    t.status == ModelOk && j.transition == t.current && j.settlingUs == t.settlingUs
  }

  lemma RefinedTransition(
    pick: Choice, movement: (Profile, Direction), tally: Tally, previous: real, held: Held, input: ClampInput,
    rt: Runtime, st: State)
    requires pick.Pick? && held == Hold(previous, input, rt, st) && previous == Previous(st)
    ensures var required := Abs(pick.torque) > Abs(previous) || (pick.torque == previous && st.transition.active);
            var j := JudgeRefined(pick, movement, required, tally, previous, held, input, rt, st);
            j.Judged? && j.torque != 0.0 ==>
              && (Exposes(j.torque, previous, st) ==> j.required)
              && (j.valid ==> TransitionRecorded(j, input, rt, st))
  {
    var start := Refinement(previous, pick.torque, held.steady, held.transition, held.settlingUs,
                            if st.transition.active then held.transitionOk else true, tally);
    var magnitude := Max(Abs(previous), Abs(pick.torque));
    RefineStaysSafe(MAX_REFINE_ITERATIONS, start, movement, input, rt, st, NoSign, magnitude);
  }

  /** Every exposing candidate that is not a microstep demands transition authority, and every valid transition
      interval is the evaluation of that very command. */
  lemma CandidateTransition(input: ClampInput, rt: Runtime, st: State)
    requires Run(input, rt, st).1.selected != 0.0
    ensures var out := Run(input, rt, st).1;
            && (!out.microstep && Exposes(out.selected, Previous(st), st) ==> out.transitionRequired)
            && (out.transitionValid ==>
                  && !out.microstep
                  && var t := TransitionFor(out.selected, out.profile, out.direction, input, rt, st);
                     t.status == ModelOk && out.transition == t.current && out.settlingUs == t.settlingUs)
  {
    NonzeroCandidate(input, rt, st);
    var pick, held := ChoiceOf(input, rt, st), HeldOf(input, rt, st);
    var previous, request := Previous(st), Request(input);
    if !MicrostepOf(input, rt, st) && pick.torque != 0.0 && (pick.torque != previous || st.transition.active) {
      var movement := Movement(st, previous, pick.torque, false);
      assert JudgedOf(input, rt, st) == JudgeMovement(pick, movement, previous, request, held, input, rt, st);
      RefinedTransition(pick, movement, CountTransition(pick.tally), previous, held, input, rt, st);
    }
  }

  // ---------------------------------------------------------------------------------------------
  // End-to-end commit safety
  // ---------------------------------------------------------------------------------------------

  /** A current between these bounds is within the limits, in each direction that occurs. */
  predicate WithinLimits(least: real, greatest: real, limits: Limits) {
    && -limits.ccl <= least && greatest <= limits.dcl
    && (greatest > 0.0 ==> limits.discharge) && (least < 0.0 ==> limits.charge)
  }

  /** At this torque and operating point: some calibrated region describes the motor, and every one that does keeps its
      current, with the auxiliary load and all margins, within the limits. */
  ghost predicate SafeAt(x: real, q: Point, microstep: bool, cal: Calibration, limits: Limits) {
    && (exists c, r :: WorksIn(cal, x, q, c, r))
    && forall c, r :: WorksIn(cal, x, q, c, r) ==>
         var region := cal.steadyCells[c].regions[r];
         WithinLimits(LeastCurrent(region, microstep, cal), GreatestCurrent(region, microstep, cal), limits)
  }

  /** The samples are fresh, and the motor is safe whatever torque and operating point are true. */
  ghost predicate SteadyInsideLimits(torque: real, microstep: bool, p: OperatingPoint, cal: Calibration,
                                     limits: Limits) {
    && AllFresh(p, cal)
    && forall x, q :: TrueTorque(x, torque, cal) && TruePoint(q, p, cal) ==> SafeAt(x, q, microstep, cal, limits)
  }

  /** At this operating point some region of the family describes the move, and every one that does is within the
      limits. */
  ghost predicate MoveSafeAt(t: TransitionInput, q: Point, cal: Calibration, limits: Limits) {
    && (exists c, r :: MovesIn(t, cal, q, c, r))
    && forall c, r :: MovesIn(t, cal, q, c, r) ==>
         var region := cal.transitionCells[c].regions[r];
         WithinLimits(LeastMoving(region, cal), GreatestMoving(region, cal), limits)
  }

  ghost predicate TransitionInsideLimits(t: TransitionInput, cal: Calibration, limits: Limits) {
    forall q :: TruePoint(q, t.point, cal) ==> MoveSafeAt(t, q, cal, limits)
  }

  /** An authorised interval is one whose every current is within the limits. */
  lemma AuthorizedCurrents(i: Interval, limits: Limits)
    ensures IntervalAuthorized(i, limits) <==>
            && i.lo <= i.hi && limits.dcl >= 0.0 && limits.ccl >= 0.0
            && forall x :: i.lo <= x <= i.hi ==> WithinLimits(x, x, limits)
  {
    if i.lo <= i.hi && (forall x :: i.lo <= x <= i.hi ==> WithinLimits(x, x, limits)) {
      assert WithinLimits(i.lo, i.lo, limits) && WithinLimits(i.hi, i.hi, limits);
    }
  }

  lemma WorksWhereItMay(cal: Calibration, torque: real, p: OperatingPoint, x: real, q: Point, c: int, r: int)
    requires TrueTorque(x, torque, cal) && TruePoint(q, p, cal) && WorksIn(cal, x, q, c, r)
    ensures MayWorkIn(cal, torque, p, c, r)
  {
  }

  lemma SteadyAuthorityIsPointwise(torque: real, microstep: bool, p: OperatingPoint, rt: Runtime, limits: Limits)
    requires QualifiedRuntime(rt)
    requires var out := EvaluateSteady(SteadyInput(torque, p, microstep), rt);
             out.status == ModelOk && IntervalAuthorized(out.current, limits)
    ensures SteadyInsideLimits(torque, microstep, p, rt.calibration.value, limits)
  {
    var cal := rt.calibration.value;
    SteadyIsTrueHull(SteadyInput(torque, p, microstep), rt);
    forall x, q | TrueTorque(x, torque, cal) && TruePoint(q, p, cal) ensures SafeAt(x, q, microstep, cal, limits) {
      var c, r := SomeRegionDescribes(cal, x, q);
      forall d, e | WorksIn(cal, x, q, d, e)
        ensures var region := cal.steadyCells[d].regions[e];
                WithinLimits(LeastCurrent(region, microstep, cal), GreatestCurrent(region, microstep, cal), limits)
      {
        WorksWhereItMay(cal, torque, p, x, q, d, e);
      }
    }
  }

  lemma TransitionAuthorityIsPointwise(t: TransitionInput, rt: Runtime, limits: Limits)
    requires QualifiedRuntime(rt)
    requires EvaluateTransition(t, rt).status == ModelOk
    requires IntervalAuthorized(EvaluateTransition(t, rt).current, limits)
    ensures TransitionInsideLimits(t, rt.calibration.value, limits)
  {
    var cal := rt.calibration.value;
    SuccessMeans(t, rt);
    TransitionIsTrueEnvelope(t, rt);
    forall q | TruePoint(q, t.point, cal) ensures MoveSafeAt(t, q, cal, limits) {
      var c, r := SomeRegionDescribesMove(t, cal, q);
      forall d, e | MovesIn(t, cal, q, d, e)
        ensures var region := cal.transitionCells[d].regions[e];
                WithinLimits(LeastMoving(region, cal), GreatestMoving(region, cal), limits)
      {
        assert MayMoveIn(t, cal, d, e);
      }
    }
  }

  /** Whatever torque other than zero is committed, each calibrated region that holds a point of its
      uncertainty box lies, fully widened, within the limits read at commit time, at least one such
      region exists, the inverter caps of that moment hold, and an exposing command that is not a
      microstep has its whole transition envelope within them too. */
  lemma AcceptedTorqueIsSafe(input: ClampInput, rt: Runtime, st: State, v: Verification)
    requires QualifiedRuntime(rt)
    requires Reverify(Run(input, rt, st).1, v).torque != 0.0
    ensures var c, cal := Run(input, rt, st).1, rt.calibration.value;
            && Reverify(c, v).torque == c.selected
            && v.negativeCap <= c.selected <= v.positiveCap
            && SteadyInsideLimits(c.selected, c.microstep, input.point, cal, v.limits)
            && (!c.microstep && Exposes(c.selected, Previous(st), st) ==>
                  TransitionInsideLimits(TransitionRequest(c.selected, c.profile, c.direction, input, st), cal,
                                         v.limits))
  {
    var c := Run(input, rt, st).1;
    NonzeroCandidate(input, rt, st);
    CandidateTransition(input, rt, st);
    SteadyAuthorityIsPointwise(c.selected, c.microstep, input.point, rt, v.limits);
    if !c.microstep && Exposes(c.selected, Previous(st), st) {
      TransitionAuthorityIsPointwise(TransitionRequest(c.selected, c.profile, c.direction, input, st), rt, v.limits);
    }
  }

  // ---------------------------------------------------------------------------------------------
  // What must still hold at commit
  // ---------------------------------------------------------------------------------------------

  /** A nonzero output carries the stamps of its input. */
  lemma CandidateStamp(input: ClampInput, rt: Runtime, st: State)
    requires Run(input, rt, st).1.selected != 0.0
    ensures var out := Run(input, rt, st).1;
            out.generations == input.generations && out.capabilityGeneration == input.capabilityGeneration
            && out.timestampUs == input.nowUs
  {
    NonzeroCandidate(input, rt, st);
    var j := JudgedOf(input, rt, st);
    AdmittedRun(input, rt, st);
  }

  /** What the candidate was computed for is still in force: operating point, calibration and capability
      generations, and at most ten milliseconds have passed. */
  predicate InForce(input: ClampInput, v: Verification) {
    && input.generations.speed == v.generations.speed && input.generations.vdc == v.generations.vdc
    && input.generations.temperature == v.generations.temperature
    && input.generations.calibration == v.generations.calibration
    && input.capabilityGeneration == v.capabilityGeneration
    && (v.timestampUs - input.nowUs) % 0x1_0000_0000 <= 10000
    && v.calibrationValid && v.authorityValid && v.safetyGateValid
  }

  /** The torque opposes the last one sent, or none has been sent yet. */
  predicate NeedsConfirmedZero(input: ClampInput, st: State) {
    || st.path.UnknownPath?
    || (st.lastNonzeroSign.PositiveSign? && Request(input) <= 0.0)
    || (st.lastNonzeroSign.NegativeSign? && Request(input) >= 0.0)
  }

  predicate IntervalsFit(out: Output, limits: Limits) {
    && limits.dcl >= 0.0 && limits.ccl >= 0.0
    && out.steady.lo <= out.steady.hi && WithinLimits(out.steady.lo, out.steady.hi, limits)
    && (out.transitionRequired ==>
          && out.transitionValid && out.transition.lo <= out.transition.hi
          && WithinLimits(out.transition.lo, out.transition.hi, limits))
  }

  /** The cached intervals decide whether re-verification finds the limits tightened. */
  lemma FittingIntervals(out: Output, limits: Limits)
    ensures IntervalsFit(out, limits) <==>
            && IntervalAuthorized(out.steady, limits)
            && (out.transitionRequired ==> out.transitionValid && IntervalAuthorized(out.transition, limits))
  {
  }

  /** The stamps of the candidate are those of this input. */
  predicate StampedBy(out: Output, input: ClampInput) {
    && out.generations == input.generations && out.capabilityGeneration == input.capabilityGeneration
    && out.timestampUs == input.nowUs
  }

  lemma AcceptedIff(out: Output, input: ClampInput, v: Verification)
    requires out.outputValid && out.selected != 0.0 && StampedBy(out, input)
    ensures Reverify(out, v).torque ==
            if && InForce(input, v) && v.negativeCap <= out.selected <= v.positiveCap && IntervalsFit(out, v.limits)
               && (out.zeroConfirmationRequired ==> v.physicalZeroConfirmed) then out.selected else 0.0
  {
    FittingIntervals(out, v.limits);
  }

  /** Everything that re-verification demands of a torque other than zero. */
  predicate MayCommit(out: Output, input: ClampInput, st: State, v: Verification) {
    && InForce(input, v) && v.negativeCap <= out.selected <= v.positiveCap && IntervalsFit(out, v.limits)
    && (NeedsConfirmedZero(input, st) ==> v.physicalZeroConfirmed)
  }

  /** A selected torque is committed, unchanged, if and only if all of this holds at commit. */
  lemma CommittedIffInForce(input: ClampInput, rt: Runtime, st: State, v: Verification)
    requires Run(input, rt, st).1.selected != 0.0
    ensures var out := Run(input, rt, st).1;
            Reverify(out, v).torque == if MayCommit(out, input, st, v) then out.selected else 0.0
  {
    NonzeroCandidate(input, rt, st);
    CandidateStamp(input, rt, st);
    AcceptedIff(Run(input, rt, st).1, input, v);
  }

  // ---------------------------------------------------------------------------------------------
  // The cell search against the exact check
  // ---------------------------------------------------------------------------------------------

  lemma HullAuthorizedPointwise(h: Interval, s: seq<Interval>, cal: Calibration, limits: Limits)
    requires s != [] && IsHull(h, s) && Ordered(Widened(h, false, cal))
    requires forall x :: x in s ==> Ordered(Widened(x, false, cal))
    ensures IntervalAuthorized(Widened(h, false, cal), limits) <==>
            forall x :: x in s ==> IntervalAuthorized(Widened(x, false, cal), limits)
  {
    var lo :| lo in s && lo.lo == h.lo;
    var hi :| hi in s && hi.hi == h.hi;
  }

  lemma RegionsOrdered(cal: Calibration, cells: seq<nat>, box: Domain, x: Interval)
    requires Qualified(cal) && forall i :: 0 <= i < |cells| ==> cells[i] < |cal.steadyCells|
    requires x in TouchedOver(cells, 0, box, cal)
    ensures Ordered(Widened(x, false, cal))
  {
    TouchedOverMembers(cells, 0, box, cal, x);
    var i :| 0 <= i < |cells| && InCell(x, cal.steadyCells[cells[i]], box);
    assert SteadyCellValid(cal, cells[i]);
  }

  /** Authority of an evaluation over several cells is authority of every region touched in them. */
  lemma CellsAuthorizedPointwise(cells: seq<nat>, input: SteadyInput, cal: Calibration, limits: Limits)
    requires Qualified(cal) && BuildBox(input.torque, input.point, cal).Some? && !input.microstepMargin
    requires 0 < |cells| <= MAX_CELLS_PER_POINT
    requires forall i :: 0 <= i < |cells| ==> cells[i] < |cal.steadyCells|
    ensures var out := EvaluateCells(cells, input, cal);
            && out.status == ModelOk
            && (IntervalAuthorized(out.current, limits) <==>
                  forall x :: x in TouchedOver(cells, 0, OperatingBox(input.point, cal), cal) ==>
                      IntervalAuthorized(Widened(x, false, cal), limits))
  {
    var box := OperatingBox(input.point, cal);
    var touched := TouchedOver(cells, 0, box, cal);
    EvaluateCellsExact(cells, input, cal);
    forall x | x in touched
      ensures Ordered(Widened(x, false, cal))
    {
      RegionsOrdered(cal, cells, box, x);
    }
    HullAuthorizedPointwise(HullOf(touched).value, touched, cal, limits);
  }

  /** A whole-cell check is authority of every region of the cell that the operating box touches. */
  lemma CellAuthorizedMeans(cell: nat, input: ClampInput, rt: Runtime)
    requires QualifiedRuntime(rt) && cell < |rt.calibration.value.steadyCells|
    requires BuildBox(0.0, input.point, rt.calibration.value).Some?
    ensures var cal := rt.calibration.value;
            CellAuthorized(cell, input, rt) <==>
              forall x :: InCell(x, cal.steadyCells[cell], OperatingBox(input.point, cal)) ==>
                  IntervalAuthorized(Widened(x, false, cal), input.limits)
  {
    var cal := rt.calibration.value;
    var box := OperatingBox(input.point, cal);
    CellsAuthorizedPointwise([cell], SteadyInput(0.0, input.point, false), cal, input.limits);
    forall x
      ensures x in TouchedOver([cell], 0, box, cal) <==> InCell(x, cal.steadyCells[cell], box)
    {
      TouchedOverMembers([cell], 0, box, cal, x);
    }
  }

  /** The fast cell search and the exact check agree: with the zero-torque box on the axis, a torque passes the exact
      check exactly when its interval is on the axis, meets at most four cells, and each of them passes. */
  lemma CellSearchAgreesWithExactCheck(torque: real, input: ClampInput, rt: Runtime)
    requires QualifiedRuntime(rt)
    requires BuildBox(0.0, input.point, rt.calibration.value).Some?
    ensures var cal := rt.calibration.value;
            var cells := CellsAt(cal, TorqueInterval(torque, cal));
            SteadyAuthorized(ExactSteady(torque, false, input, rt), input) <==>
              && TorqueOnAxis(torque, cal)
              && |cells| <= 4
              && forall c :: c in cells ==> CellAuthorized(c, input, rt)
  {
    var cal := rt.calibration.value;
    var cells := CellsAt(cal, TorqueInterval(torque, cal));
    var box := OperatingBox(input.point, cal);
    if TorqueOnAxis(torque, cal) && |cells| <= MAX_CELLS_PER_POINT {
      TorqueTouchesCell(cal, TorqueInterval(torque, cal));
      assert forall i :: 0 <= i < |cells| ==> cells[i] in cells;
      CellsAuthorizedPointwise(cells, SteadyInput(torque, input.point, false), cal, input.limits);
      forall c | c in cells
        ensures CellAuthorized(c, input, rt) <==>
                forall x :: InCell(x, cal.steadyCells[c], box) ==>
                    IntervalAuthorized(Widened(x, false, cal), input.limits)
      {
        CellAuthorizedMeans(c, input, rt);
      }
      forall x
        ensures x in TouchedOver(cells, 0, box, cal) <==>
            exists i :: 0 <= i < |cells| && InCell(x, cal.steadyCells[cells[i]], box)
      {
        TouchedOverMembers(cells, 0, box, cal, x);
      }
    }
  }

  /** What the fast search asks of a torque. */
  ghost predicate CellsPass(torque: real, input: ClampInput, rt: Runtime)
    requires RuntimeValid(rt)
  {
    var cal := rt.calibration.value;
    var cells := CellsAt(cal, TorqueInterval(torque, cal));
    && TorqueOnAxis(torque, cal) && |cells| <= 4
    && forall c :: c in cells ==> CellAuthorized(c, input, rt)
  }

  lemma OffAxisCellsFail(cell: nat, input: ClampInput, rt: Runtime)
    requires RuntimeValid(rt) && BuildBox(0.0, input.point, rt.calibration.value).None?
    ensures !CellAuthorized(cell, input, rt)
  {
  }

  /** The fast search and the exact check agree on a torque if and only if zero, widened by the torque uncertainty, is
      on the axis, or the exact check refuses the torque anyway. */
  lemma CellSearchAgreesIff(torque: real, input: ClampInput, rt: Runtime)
    requires QualifiedRuntime(rt)
    ensures var exact := SteadyAuthorized(ExactSteady(torque, false, input, rt), input);
            (exact <==> CellsPass(torque, input, rt)) <==> (TorqueOnAxis(0.0, rt.calibration.value) || !exact)
  {
    var cal := rt.calibration.value;
    if BuildBox(0.0, input.point, cal).Some? {
      CellSearchAgreesWithExactCheck(torque, input, rt);
    } else if TorqueOnAxis(torque, cal) {
      TorqueTouchesCell(cal, TorqueInterval(torque, cal));
      var c := CellsAt(cal, TorqueInterval(torque, cal))[0];
      OffAxisCellsFail(c, input, rt);
      assert c in CellsAt(cal, TorqueInterval(torque, cal));
    }
  }
}
