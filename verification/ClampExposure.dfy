/** When a candidate that exposes the pack to a transition publishes one that its own limits authorise. */
module ClampExposure {
  import opened Numeric
  import opened Calibration
  import opened SteadyModel
  import opened TransitionModel
  import opened TorqueClamp
  import opened ClampRun
  import opened ClampCells
  import opened ClampSafety
  import opened ClampSelection

  /** The published transition interval is valid and within the limits of the run. */
  predicate PublishesAuthority(out: Output, input: ClampInput) {
    out.transitionValid && IntervalAuthorized(out.transition, input.limits)
  }

  /** A nonzero candidate that is not a microstep and grows the torque, or holds it in an unfinished transition. */
  predicate ExposingCandidate(input: ClampInput, rt: Runtime, st: State) {
    var out := Run(input, rt, st).1;
    out.selected != 0.0 && !out.microstep && Exposes(out.selected, Previous(st), st)
  }

  // ---------------------------------------------------------------------------------------------
  // Increasing requests
  // ---------------------------------------------------------------------------------------------

  /** A refined increase that still exposes ended at an authorised torque, or at the held one, still authorised. */
  lemma RefinedExposure(pick: Choice, movement: (Profile, Direction), required: bool, tally: Tally, input: ClampInput,
                        rt: Runtime, st: State)
    requires pick.Pick?
    requires var j := JudgeRefined(pick, movement, required, tally, Previous(st), HeldOf(input, rt, st), input, rt, st);
             j.Judged? && j.torque != 0.0 && Exposes(j.torque, Previous(st), st)
    ensures var j := JudgeRefined(pick, movement, required, tally, Previous(st), HeldOf(input, rt, st), input, rt, st);
            j.valid && IntervalAuthorized(j.transition, input.limits)
  {
    var previous, held := Previous(st), HeldOf(input, rt, st);
    var start := Refinement(previous, pick.torque, held.steady, held.transition, held.settlingUs,
                            if st.transition.active then held.transitionOk else true, tally);
    RefineStaysSafe(MAX_REFINE_ITERATIONS, start, movement, input, rt, st, NoSign,
                    Max(Abs(previous), Abs(pick.torque)));
  }

  /** For a growing request the published transition is authorised exactly when the held one still was, or the choice is
      not the held torque. */
  lemma IncreasingExposure(input: ClampInput, rt: Runtime, st: State)
    requires ExposingCandidate(input, rt, st) && Increasing(Previous(st), Request(input))
    ensures RuntimeValid(rt) && ChoiceOf(input, rt, st).Pick?
    ensures PublishesAuthority(Run(input, rt, st).1, input) <==>
            HeldOf(input, rt, st).transitionOk || ChoiceOf(input, rt, st).torque != Previous(st)
  {
    NonzeroCandidate(input, rt, st);
    var previous, request := Previous(st), Request(input);
    var pick, held := ChoiceOf(input, rt, st), HeldOf(input, rt, st);
    var movement := Movement(st, previous, pick.torque, false);
    assert JudgedOf(input, rt, st) == JudgeMovement(pick, movement, previous, request, held, input, rt, st);
    var t := TransitionFor(pick.torque, movement.0, movement.1, input, rt, st);
    if pick.torque != previous && !TransitionAuthorized(t, input) {
      var required := Abs(pick.torque) > Abs(previous) || (pick.torque == previous && st.transition.active);
      RefinedExposure(pick, movement, required, CountTransition(pick.tally), input, rt, st);
    }
  }

  // ---------------------------------------------------------------------------------------------
  // When the search below a torque returns that torque
  // ---------------------------------------------------------------------------------------------

  /** The torque lies in the cell, not on its end towards zero. */
  predicate Holds(cell: SteadyCell, torque: real) {
    if torque > 0.0 then cell.torque.lo < torque <= cell.torque.hi else cell.torque.lo <= torque < cell.torque.hi
  }

  /** The torque respects both guard bands of its cell, or is the middle that replaces them. */
  predicate GuardsKeep(cell: SteadyCell, cal: Calibration, torque: real) {
    if torque > 0.0 then
      || cell.torque.lo + cal.torqueNegative <= torque <= UpperRoom(cell, cal)
      || (!FitsUp(cell, cal, torque) && Quantize(Middle(cell)) == torque)
    else
      || LowerRoom(cell, cal) <= torque <= cell.torque.hi - cal.torquePositive
      || (!FitsDown(cell, cal, torque) && Quantize(Middle(cell)) == torque)
  }

  lemma GuardsKeepExact(cell: SteadyCell, cal: Calibration, torque: real)
    requires ScalarsValid(cal) && cell.torque.lo < cell.torque.hi
    requires IsQuantum(torque) && torque != 0.0 && Holds(cell, torque)
    ensures Offer(cell, cal, torque) == torque <==> GuardsKeep(cell, cal, torque)
  {
    if torque > 0.0 {
      UpwardCandidate(cell, cal, torque);
      QuantizeTowardZero(UpperRoom(cell, cal));
    } else {
      DownwardCandidate(cell, cal, torque);
      QuantizeTowardZero(LowerRoom(cell, cal));
    }
  }

  /** Cell c is authorised, holds the torque within its guard bands, and the torque passes the exact check. */
  predicate ReturnsHeld(c: int, torque: real, input: ClampInput, rt: Runtime)
    requires RuntimeValid(rt)
  {
    var cal := rt.calibration.value;
    && 0 <= c < |cal.steadyCells| && CellAuthorized(c, input, rt)
    && Holds(cal.steadyCells[c], torque) && GuardsKeep(cal.steadyCells[c], cal, torque)
    && SteadyAuthorized(ExactSteady(torque, false, input, rt), input) && !NormalizedZero(torque, false, cal)
  }

  lemma {:induction false} SearchDownReturns(
    torque: real, input: ClampInput, rt: Runtime, reverse: nat, tally: Tally, c: nat)
    requires QualifiedRuntime(rt) && IsQuantum(torque) && torque > 0.0
    requires c < reverse <= |rt.calibration.value.steadyCells| && ReturnsHeld(c, torque, input, rt)
    ensures SearchReturns(ReducePositive(torque, input, rt, reverse, tally).found, torque, input, rt)
  {
    var cal, index := rt.calibration.value, reverse - 1;
    CellNonempty(cal, c);
    if index > c {
      CellsInOrder(cal, c, index);
      SearchDownReturns(torque, input, rt, index, tally, c);
    } else {
      GuardsKeepExact(cal.steadyCells[c], cal, torque);
      UpwardCandidate(cal.steadyCells[c], cal, torque);
    }
  }

  lemma {:induction false} SearchUpReturns(
    torque: real, input: ClampInput, rt: Runtime, index: nat, tally: Tally, c: nat)
    requires QualifiedRuntime(rt) && IsQuantum(torque) && torque < 0.0
    requires index <= c < |rt.calibration.value.steadyCells| && ReturnsHeld(c, torque, input, rt)
    ensures SearchReturns(ReduceNegative(torque, input, rt, index, tally).found, torque, input, rt)
    decreases |rt.calibration.value.steadyCells| - index
  {
    var cal := rt.calibration.value;
    CellNonempty(cal, c);
    if index < c {
      CellsInOrder(cal, index, c);
      SearchUpReturns(torque, input, rt, index + 1, tally, c);
    } else {
      GuardsKeepExact(cal.steadyCells[c], cal, torque);
      DownwardCandidate(cal.steadyCells[c], cal, torque);
    }
  }

  /** The search below a torque returns that very torque exactly when its own cell does. */
  lemma SearchReturnsItselfIff(torque: real, input: ClampInput, rt: Runtime, tally: Tally)
    requires QualifiedRuntime(rt) && IsQuantum(torque) && torque != 0.0
    ensures var found := ReduceTowardZero(torque, input, rt, tally).found;
            found.Some? && found.value.0 == torque <==> exists c :: ReturnsHeld(c, torque, input, rt)
  {
    var cal, found := rt.calibration.value, ReduceTowardZero(torque, input, rt, tally).found;
    if found.Some? && found.value.0 == torque {
      var c := ReductionFound(torque, input, rt, tally);
      var cell := cal.steadyCells[c];
      CellNonempty(cal, c);
      if torque > 0.0 {
        UpwardCandidate(cell, cal, torque);
      } else {
        DownwardCandidate(cell, cal, torque);
      }
      GuardsKeepExact(cell, cal, torque);
      assert ReturnsHeld(c, torque, input, rt);
    }
    if c :| ReturnsHeld(c, torque, input, rt) {
      if torque > 0.0 {
        SearchDownReturns(torque, input, rt, |cal.steadyCells|, tally, c);
      } else {
        SearchUpReturns(torque, input, rt, 0, tally, c);
      }
    }
  }

  // ---------------------------------------------------------------------------------------------
  // The exact condition
  // ---------------------------------------------------------------------------------------------

  /** A transition is unfinished and the bracket that holds the previous torque is no longer authorised. */
  predicate HoldLost(input: ClampInput, rt: Runtime, st: State) {
    && st.transition.active && Previous(st) != 0.0
    && !TransitionAuthorized(TransitionFor(Previous(st), st.transition.profile, st.transition.direction, input, rt,
                                           st), input)
  }

  /** For a growing request the published transition lacks authority exactly when the held one does and the search below
      the held torque returns it: its own cell is authorised and keeps it within its guard bands. */
  lemma IncreasingExposureIff(input: ClampInput, rt: Runtime, st: State)
    requires QualifiedRuntime(rt) && IsQuantum(st.committed)
    requires ExposingCandidate(input, rt, st) && Increasing(Previous(st), Request(input))
    ensures PublishesAuthority(Run(input, rt, st).1, input) <==>
            !(HoldLost(input, rt, st) && exists c :: ReturnsHeld(c, Previous(st), input, rt))
  {
    IncreasingExposure(input, rt, st);
    var previous, held := Previous(st), HeldOf(input, rt, st);
    assert HoldLost(input, rt, st) <==> !held.transitionOk;
    if previous != 0.0 {
      SearchReturnsItselfIff(previous, input, rt, held.tally);
      NonzeroCandidate(input, rt, st);
      assert ChoiceOf(input, rt, st) == ChooseIncrease(previous, Request(input), held, input, rt);
    }
  }

  /** For a request that does not grow, an exposing candidate exceeds the request exactly when a
      search below the request found it; every other one publishes an authorised transition. */
  lemma StandingExposure(input: ClampInput, rt: Runtime, st: State)
    requires ExposingCandidate(input, rt, st) && !Increasing(Previous(st), Request(input))
    ensures RuntimeValid(rt)
    ensures Searches(input, rt, st) <==> Abs(Run(input, rt, st).1.selected) > Abs(Request(input))
    ensures !Searches(input, rt, st) ==> PublishesAuthority(Run(input, rt, st).1, input)
  {
    NonzeroCandidate(input, rt, st);
    var previous, request := Previous(st), Request(input);
    var pick, held := ChoiceOf(input, rt, st), HeldOf(input, rt, st);
    var movement := Movement(st, previous, pick.torque, false);
    assert pick == ChooseDecrease(previous, request, held, input, rt, st);
    assert JudgedOf(input, rt, st) == JudgeMovement(pick, movement, previous, request, held, input, rt, st);
  }

  lemma StandingHoldKept(input: ClampInput, rt: Runtime, st: State, c: int)
    requires ExposingCandidate(input, rt, st) && RuntimeValid(rt) && Request(input) == Previous(st)
    requires ReturnsHeld(c, Previous(st), input, rt)
    ensures !HoldLost(input, rt, st)
  {
    NonzeroCandidate(input, rt, st);
    var previous, held := Previous(st), HeldOf(input, rt, st);
    assert ChoiceOf(input, rt, st) == ChooseDecrease(previous, previous, held, input, rt, st);
  }

  /** Transition authority of a run, exactly: where the cells keep the signs of the request and of
      the previous torque and admit both, an exposing candidate publishes an authorised transition
      if and only if the bracket of the unfinished transition still is, or the cell of the previous
      torque does not return it. */
  lemma ExposureIff(input: ClampInput, rt: Runtime, st: State)
    requires QualifiedRuntime(rt) && IsQuantum(st.committed) && ExposingCandidate(input, rt, st)
    requires BothSignsKept(rt.calibration.value, Previous(st), Request(input))
    requires BothAdmitted(rt.calibration.value, Previous(st), Request(input))
    ensures PublishesAuthority(Run(input, rt, st).1, input) <==>
            !(HoldLost(input, rt, st) && exists c :: ReturnsHeld(c, Previous(st), input, rt))
  {
    var previous, request := Previous(st), Request(input);
    if Increasing(previous, request) {
      IncreasingExposureIff(input, rt, st);
    } else {
      NoAmplification(input, rt, st);
      StandingExposure(input, rt, st);
      NonzeroCandidate(input, rt, st);
      assert request == previous;
      if c :| ReturnsHeld(c, previous, input, rt) {
        StandingHoldKept(input, rt, st, c);
      }
    }
  }

  /** What a search below a request that does not grow returned is published with the evaluation of its own move. */
  lemma SearchedExposure(input: ClampInput, rt: Runtime, st: State)
    requires RuntimeValid(rt) && ExposingCandidate(input, rt, st) && Searches(input, rt, st)
    ensures var selected := Run(input, rt, st).1.selected;
            var movement := Movement(st, Previous(st), selected, false);
            PublishesAuthority(Run(input, rt, st).1, input) <==>
            TransitionAuthorized(TransitionFor(selected, movement.0, movement.1, input, rt, st), input)
  {
    NonzeroCandidate(input, rt, st);
    var previous, request := Previous(st), Request(input);
    var pick, held := ChoiceOf(input, rt, st), HeldOf(input, rt, st);
    assert pick == ChooseDecrease(previous, request, held, input, rt, st);
    assert JudgedOf(input, rt, st) ==
           JudgeMovement(pick, Movement(st, previous, pick.torque, false), previous, request, held, input, rt, st);
  }

  /** Transition authority without any hypothesis on the cells. */
  lemma ExposureExactly(input: ClampInput, rt: Runtime, st: State)
    requires QualifiedRuntime(rt) && IsQuantum(st.committed) && ExposingCandidate(input, rt, st)
    ensures var previous, selected := Previous(st), Run(input, rt, st).1.selected;
            var movement := Movement(st, previous, selected, false);
            var lost := HoldLost(input, rt, st) && exists c :: ReturnsHeld(c, previous, input, rt);
            PublishesAuthority(Run(input, rt, st).1, input) <==>
            if Increasing(previous, Request(input)) then !lost
            else !Searches(input, rt, st)
                 || TransitionAuthorized(TransitionFor(selected, movement.0, movement.1, input, rt, st), input)
  {
    if Increasing(Previous(st), Request(input)) {
      IncreasingExposureIff(input, rt, st);
    } else {
      StandingExposure(input, rt, st);
      if Searches(input, rt, st) {
        SearchedExposure(input, rt, st);
      }
    }
  }
}
