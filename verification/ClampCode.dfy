/** The clamp as it runs: loops that update one output record in place, proved equal to the functions of ClampRun. */
module ClampCode {
  import opened Numeric
  import opened Calibration
  import opened SteadyModel
  import opened TransitionModel
  import opened TorqueClamp
  import opened ClampRun

  /** The caller-owned output that a run fills in: the call counters, and the rest of the record. */
  class OutputRecord {
    var tally: Tally
    var contents: Output

    ghost function View(): Output
      reads this
    {
      contents.(tally := tally)
    }

    constructor ()
      ensures View() == EMPTY_OUTPUT
    {
      tally, contents := NO_CALLS, EMPTY_OUTPUT;
    }

    method Clear()
      modifies this
      ensures View() == EMPTY_OUTPUT
    {
      tally := NO_CALLS;
      contents := EMPTY_OUTPUT;
    }

    method SetSnapshotGenerations(input: ClampInput)
      modifies this`contents
      ensures contents == Snapshot(input, old(contents))
    {
      contents := contents.(generations := input.generations);
      contents := contents.(capabilityGeneration := input.capabilityGeneration, timestampUs := input.nowUs);
    }

    /** Nothing but the counters and the reason has been written yet. */
    ghost predicate OnlyCounted()
      reads this
    {
      View() == EMPTY_OUTPUT.(tally := tally, reason := contents.reason)
    }
  }

  // ---------------------------------------------------------------------------------------------
  // Counted model calls
  // ---------------------------------------------------------------------------------------------

  /** The interval is written only by a successful evaluation. */
  method EvaluateExactSteady(torque: real, microstep: bool, input: ClampInput, rt: Runtime, output: OutputRecord,
                             prior: Interval)
    returns (ok: bool, interval: Interval)
    modifies output`tally
    ensures var out := ExactSteady(torque, microstep, input, rt);
            && (ok <==> out.status == ModelOk)
            && interval == (if ok then out.current else prior)
            && output.tally == CountSteady(old(output.tally), out)
  {
    output.tally := output.tally.(steady := output.tally.steady + 1);
    var model := EvaluateSteadyLoop(SteadyInput(torque, input.point, microstep), rt);
    if model.status != ModelOk {
      return false, prior;
    }
    output.tally := output.tally.(cells := output.tally.cells + model.cells);
    return true, model.current;
  }

  method EvaluateExactSteadyAuthorized(torque: real, microstep: bool, input: ClampInput, rt: Runtime,
                                       output: OutputRecord, prior: Interval)
    returns (authorized: bool, interval: Interval)
    modifies output`tally
    ensures var out := ExactSteady(torque, microstep, input, rt);
            && (authorized <==> SteadyAuthorized(out, input))
            && interval == (if out.status == ModelOk then out.current else prior)
            && output.tally == CountSteady(old(output.tally), out)
  {
    authorized, interval := EvaluateExactSteady(torque, microstep, input, rt, output, prior);
    authorized := authorized && IntervalAuthorized(interval, input.limits);
  }

  method EvaluateCellAuthorized(cell: nat, input: ClampInput, rt: Runtime, output: OutputRecord)
    returns (authorized: bool, interval: Interval)
    modifies output`tally
    ensures authorized <==> CellAuthorized(cell, input, rt)
    ensures authorized ==> interval == CellSteady(cell, input, rt).current
    ensures output.tally == CountCell(old(output.tally))
  {
    output.tally := output.tally.(steady := output.tally.steady + 1);
    output.tally := output.tally.(cells := output.tally.cells + 1);
    var model := EvaluateSteadyCellLoop(cell, SteadyInput(0.0, input.point, false), rt);
    if model.status != ModelOk {
      return false, NO_CURRENT;
    }
    return IntervalAuthorized(model.current, input.limits), model.current;
  }

  method EvaluateTransitionFor(candidate: real, profile: Profile, direction: Direction, input: ClampInput, rt: Runtime,
                               st: State, output: OutputRecord, prior: Interval, priorSettlingUs: nat)
    returns (ok: bool, interval: Interval, settlingUs: nat)
    modifies output`tally
    ensures var out := TransitionFor(candidate, profile, direction, input, rt, st);
            && (ok <==> out.status == ModelOk)
            && interval == (if ok then out.current else prior)
            && settlingUs == (if ok then out.settlingUs else priorSettlingUs)
            && output.tally == CountTransition(old(output.tally))
  {
    var anchor := st.transition.anchor;
    var minimum :=
      if st.transition.active then Min(st.transition.minimum, candidate) else Min(anchor, Min(st.committed, candidate));
    var maximum :=
      if st.transition.active then Max(st.transition.maximum, candidate) else Max(anchor, Max(st.committed, candidate));
    output.tally := output.tally.(transition := output.tally.transition + 1);
    var request := TransitionInput(anchor, minimum, maximum, candidate, input.point, profile, direction);
    var model := EvaluateTransitionLoop(request, rt);
    if model.status != ModelOk {
      return false, prior, priorSettlingUs;
    }
    return true, model.current, model.settlingUs;
  }

  // ---------------------------------------------------------------------------------------------
  // The search loops
  // ---------------------------------------------------------------------------------------------

  method SelectIncreasePrefix(previous: real, request: real, input: ClampInput, rt: Runtime, output: OutputRecord)
    returns (moved: bool, selected: real, steady: Interval)
    requires RuntimeValid(rt)
    modifies output`tally
    ensures var p := IncreasePrefix(previous, request, input, rt, old(output.tally));
            && (moved <==> PrefixMoves(p, previous))
            && (moved ==> selected == p.best && steady == p.steady)
            && output.tally == p.tally
  {
    var cal := rt.calibration.value;
    var path := Interval(Min(previous, request), Max(previous, request));
    var touched, accepted := false, false;
    var best, bestInterval := previous, NO_CURRENT;
    ghost var start := Prefix(previous, NO_CURRENT, false, output.tally);
    if request > previous {
      var index := 0;
      while index < |cal.steadyCells|
        invariant 0 <= index <= |cal.steadyCells|
        invariant accepted ==> touched
        invariant PrefixUp(path, request, input, rt, 0, start) ==
                  PrefixUp(path, request, input, rt, index, Prefix(best, bestInterval, accepted, output.tally))
      {
        var cell := cal.steadyCells[index];
        if CellPathOverlap(path, cell.torque) {
          touched := true;
          var authorized, interval := EvaluateCellAuthorized(index, input, rt, output);
          if !authorized {
            assert PrefixUp(path, request, input, rt, 0, start) == Prefix(best, bestInterval, accepted, output.tally);
            break;
          }
          accepted := true;
          bestInterval := interval;
          best := Quantize(PositiveCandidate(cell, cal, Min(request, cell.torque.hi)));
        }
        index := index + 1;
      }
      assert IncreasePrefix(previous, request, input, rt, old(output.tally)) ==
          Prefix(best, bestInterval, accepted, output.tally);
    } else {
      var reverse := |cal.steadyCells|;
      while reverse > 0
        invariant 0 <= reverse <= |cal.steadyCells|
        invariant accepted ==> touched
        invariant PrefixDown(path, request, input, rt, |cal.steadyCells|, start) ==
                  PrefixDown(path, request, input, rt, reverse, Prefix(best, bestInterval, accepted, output.tally))
      {
        var index := reverse - 1;
        var cell := cal.steadyCells[index];
        if CellPathOverlap(path, cell.torque) {
          touched := true;
          var authorized, interval := EvaluateCellAuthorized(index, input, rt, output);
          if !authorized {
            assert PrefixDown(path, request, input, rt, |cal.steadyCells|, start) ==
                Prefix(best, bestInterval, accepted, output.tally);
            break;
          }
          accepted := true;
          bestInterval := interval;
          best := Quantize(NegativeCandidate(cell, cal, Max(request, cell.torque.lo)));
        }
        reverse := reverse - 1;
      }
      assert IncreasePrefix(previous, request, input, rt, old(output.tally)) ==
          Prefix(best, bestInterval, accepted, output.tally);
    }
    if !touched || !accepted {
      return false, previous, NO_CURRENT;
    }
    return best != previous, best, bestInterval;
  }

  method SelectReductionTowardZero(request: real, input: ClampInput, rt: Runtime, output: OutputRecord)
    returns (found: bool, selected: real, steady: Interval)
    requires RuntimeValid(rt)
    modifies output`tally
    ensures var r := ReduceTowardZero(request, input, rt, old(output.tally));
            && (found <==> r.found.Some?)
            && (found ==> (selected, steady) == r.found.value)
            && output.tally == r.tally
  {
    var cal := rt.calibration.value;
    if request > 0.0 {
      var reverse := |cal.steadyCells|;
      while reverse > 0
        invariant 0 <= reverse <= |cal.steadyCells|
        invariant ReducePositive(request, input, rt, |cal.steadyCells|, old(output.tally)) ==
                  ReducePositive(request, input, rt, reverse, output.tally)
      {
        var index := reverse - 1;
        reverse := index;
        var cell := cal.steadyCells[index];
        if cell.torque.hi <= 0.0 || cell.torque.lo >= request {
          continue;
        }
        var authorized, _ := EvaluateCellAuthorized(index, input, rt, output);
        if !authorized {
          continue;
        }
        var candidate := Quantize(PositiveCandidate(cell, cal, request));
        if NormalizedZero(candidate, false, cal) {
          return false, 0.0, NO_CURRENT;
        }
        var passed, exact := EvaluateExactSteadyAuthorized(candidate, false, input, rt, output, NO_CURRENT);
        if passed {
          return true, candidate, exact;
        }
      }
    } else if request < 0.0 {
      var index := 0;
      while index < |cal.steadyCells|
        invariant 0 <= index <= |cal.steadyCells|
        invariant ReduceNegative(request, input, rt, 0, old(output.tally)) ==
                  ReduceNegative(request, input, rt, index, output.tally)
      {
        var cell := cal.steadyCells[index];
        index := index + 1;
        if cell.torque.lo >= 0.0 || cell.torque.hi <= request {
          continue;
        }
        var authorized, _ := EvaluateCellAuthorized(index - 1, input, rt, output);
        if !authorized {
          continue;
        }
        var candidate := Quantize(NegativeCandidate(cell, cal, request));
        if NormalizedZero(candidate, false, cal) {
          return false, 0.0, NO_CURRENT;
        }
        var passed, exact := EvaluateExactSteadyAuthorized(candidate, false, input, rt, output, NO_CURRENT);
        if passed {
          return true, candidate, exact;
        }
      }
    }
    return false, 0.0, NO_CURRENT;
  }

  /** One step of the bisection: the midpoint becomes the safe end, or the unsafe one. */
  method RefineOnce(r: Refinement, movement: (Profile, Direction), input: ClampInput, rt: Runtime, st: State,
                    output: OutputRecord)
    returns (next: Refinement)
    requires r.tally == output.tally
    modifies output`tally
    ensures next == RefineStep(r, movement, input, rt, st) && output.tally == next.tally
  {
    var midpoint := Quantize(r.safe + 0.5 * (r.unsafe - r.safe));
    output.tally := output.tally.(refinements := output.tally.refinements + 1);
    var steadyOk, steady := EvaluateExactSteadyAuthorized(midpoint, false, input, rt, output, NO_CURRENT);
    if !steadyOk {
      return r.(unsafe := midpoint, tally := output.tally);
    }
    var transitionOk, transition, settlingUs := EvaluateTransitionFor(
      midpoint, movement.0, movement.1, input, rt, st, output, NO_CURRENT, 0);
    if transitionOk && IntervalAuthorized(transition, input.limits) {
      return Refinement(midpoint, r.unsafe, steady, transition, settlingUs, true, output.tally);
    }
    return r.(unsafe := midpoint, tally := output.tally);
  }

  /** The four-step bisection of an increase whose transition is not authorised. */
  method RefineIncrease(start: Refinement, movement: (Profile, Direction), input: ClampInput, rt: Runtime, st: State,
                        output: OutputRecord)
    returns (r: Refinement)
    requires start.tally == output.tally
    modifies output`tally
    ensures r == Refine(MAX_REFINE_ITERATIONS, start, movement, input, rt, st) && output.tally == r.tally
  {
    r := start;
    var iteration := 0;
    while iteration < MAX_REFINE_ITERATIONS
      invariant 0 <= iteration <= MAX_REFINE_ITERATIONS
      invariant r == Refine(iteration, start, movement, input, rt, st) && output.tally == r.tally
    {
      r := RefineOnce(r, movement, input, rt, st, output);
      iteration := iteration + 1;
    }
  }

  // ---------------------------------------------------------------------------------------------
  // Zero outcomes
  // ---------------------------------------------------------------------------------------------

  method EvaluateZeroFallback(input: ClampInput, rt: Runtime, st: State, reversalFirstLeg: bool, output: OutputRecord)
    requires RuntimeValid(rt)
    modifies output
    ensures var f := ZeroFallback(input, rt, st, reversalFirstLeg);
            output.View() == old(output.View()).(
              zeroFallback := f.current, zeroFallbackSettlingUs := f.settlingUs, zeroFallbackValid := f.valid,
              tally := CountTransition(old(output.tally)))
  {
    var cal := rt.calibration.value;
    var movement := ZeroMovement(input, st, reversalFirstLeg);
    var ok, interval, settlingUs := EvaluateTransitionFor(
      0.0, movement.0, movement.1, input, rt, st, output, NO_CURRENT, 0);
    if ok {
      output.contents := output.contents.(zeroFallback := interval, zeroFallbackSettlingUs := settlingUs,
                                          zeroFallbackValid := true);
    } else {
      output.contents := output.contents.(zeroFallback := cal.lateZero,
                                          zeroFallbackSettlingUs := cal.lateZeroSettlingUs);
      output.contents := output.contents.(zeroFallbackValid := Ordered(cal.lateZero));
    }
  }

  method FinishZeroOutput(input: ClampInput, rt: Runtime, st: State, reversalFirstLeg: bool, exhausted: bool,
                          reason: Reason, output: OutputRecord)
    requires RuntimeValid(rt) && output.OnlyCounted()
    modifies output
    ensures output.View() == FinishZero(input, rt, st, reversalFirstLeg, exhausted, reason, old(output.tally))
  {
    var steadyValid, zeroSteady := EvaluateExactSteady(0.0, false, input, rt, output, NO_CURRENT);
    EvaluateZeroFallback(input, rt, st, reversalFirstLeg, output);
    FillZero(input, rt.calibration.value, st, ZeroMovement(input, st, reversalFirstLeg), steadyValid, zeroSteady,
             exhausted, reason, ExactSteady(0.0, false, input, rt), ZeroFallback(input, rt, st, reversalFirstLeg),
             output);
  }

  method FillZero(input: ClampInput, cal: Calibration, st: State, movement: (Profile, Direction), steadyValid: bool,
                  steady: Interval, exhausted: bool, reason: Reason, ghost zero: SteadyOutput,
                  ghost fallback: Fallback, output: OutputRecord)
    requires (steadyValid <==> zero.status == ModelOk) && steady == if steadyValid then zero.current else NO_CURRENT
    requires output.View() == EMPTY_OUTPUT.(
               tally := output.tally, reason := output.contents.reason, zeroFallback := fallback.current,
               zeroFallbackSettlingUs := fallback.settlingUs, zeroFallbackValid := fallback.valid)
    modifies output`contents
    ensures output.View() == ZeroOutput(input, cal, st, movement, zero, fallback, exhausted, reason, output.tally)
  {
    var zeroSteady :=
      if !steadyValid && output.contents.zeroFallbackValid then output.contents.zeroFallback else steady;
    var battery := if steadyValid then ClassifyBattery(0.0, zeroSteady, input, cal, exhausted) else TorqueExhausted;
    WriteZero(zeroSteady, movement, reason, battery, st.committed != 0.0, output);
    output.SetSnapshotGenerations(input);
  }

  /** Copies the fallback into the transition fields of a finished zero. */
  method WriteZero(steady: Interval, movement: (Profile, Direction), reason: Reason, battery: Battery, material: bool,
                   output: OutputRecord)
    modifies output`contents
    ensures var was := old(output.contents);
            output.contents == was.(
              selected := 0.0, selectedNonzero := false, steady := steady, materialChange := material,
              transition := was.zeroFallback, transitionValid := was.zeroFallbackValid, transitionRequired := false,
              profile := movement.0, direction := movement.1, settlingUs := was.zeroFallbackSettlingUs,
              reason := reason, battery := battery, outputValid := true)
  {
    var was := output.contents;
    output.contents := was.(selected := 0.0, selectedNonzero := false, steady := steady, materialChange := material);
    output.contents := output.contents.(transition := was.zeroFallback, transitionValid := was.zeroFallbackValid,
                                        transitionRequired := false);
    output.contents := output.contents.(profile := movement.0, direction := movement.1,
                                        settlingUs := was.zeroFallbackSettlingUs);
    output.contents := output.contents.(reason := reason, battery := battery, outputValid := true);
  }

  method ForceStaticZeroOutput(input: ClampInput, rt: Runtime, st: State, reason: Reason, output: OutputRecord)
    modifies output
    ensures output.View() == ForceStaticZero(input, rt, st, reason, old(output.View()))
  {
    var tally := if output.contents.outputValid then output.tally else NO_CALLS;
    output.Clear();
    output.tally := tally;
    output.contents := output.contents.(
      reason := reason, battery := TorqueExhausted, profile := ZeroAssert, direction := ToZero,
      materialChange := st.committed != 0.0, outputValid := true);
    if RuntimeValid(rt) {
      var cal := rt.calibration.value;
      output.contents := output.contents.(
        steady := cal.lateZero, transition := cal.lateZero, zeroFallback := cal.lateZero,
        transitionValid := true, zeroFallbackValid := true,
        settlingUs := cal.lateZeroSettlingUs, zeroFallbackSettlingUs := cal.lateZeroSettlingUs);
    }
    output.SetSnapshotGenerations(input);
  }

  // ---------------------------------------------------------------------------------------------
  // The stages of a run
  // ---------------------------------------------------------------------------------------------

  method EvaluateHeld(previous: real, input: ClampInput, rt: Runtime, st: State, output: OutputRecord)
    returns (held: Held)
    requires output.tally == NO_CALLS
    modifies output`tally
    ensures held == Hold(previous, input, rt, st) && output.tally == held.tally
  {
    var steadyOk, steady, transitionOk, transition, settlingUs := true, NO_CURRENT, true, NO_CURRENT, 0;
    if previous != 0.0 {
      steadyOk, steady := EvaluateExactSteadyAuthorized(previous, false, input, rt, output, NO_CURRENT);
      if st.transition.active {
        transitionOk, transition, settlingUs := EvaluateTransitionFor(
          previous, st.transition.profile, st.transition.direction, input, rt, st, output, NO_CURRENT, 0);
        transitionOk := transitionOk && IntervalAuthorized(transition, input.limits);
      }
    }
    held := Held(steadyOk, steady, transitionOk, transition, settlingUs, output.tally);
  }

  /** Chooses a torque, or reports that only zero is left. */
  method SelectSteady(previous: real, request: real, held: Held, input: ClampInput, rt: Runtime, st: State,
                      output: OutputRecord)
    returns (choice: Choice)
    requires RuntimeValid(rt) && output.tally == held.tally && output.OnlyCounted()
        && output.contents.reason == NoReason
    modifies output
    ensures choice == Choose(previous, request, held, input, rt, st)
    ensures output.OnlyCounted() && output.tally == choice.tally
    ensures choice.Pick? ==> output.contents.reason == choice.reason
  {
    var selected, steady := previous, held.steady;
    var found := true;
    if !Increasing(previous, request) {
      var holdRequest := request == previous;
      if holdRequest && held.Feasible() {
      } else if holdRequest && held.steadyOk {
        return GiveUp(TransitionLimit, output.tally);
      } else {
        var passed := false;
        if !holdRequest {
          passed, steady := EvaluateExactSteadyAuthorized(
            request, TracksMicrostep(previous, request, input, st, rt.calibration.value), input, rt, output, steady);
        }
        if passed {
          selected := request;
        } else {
          var target := if holdRequest then previous else request;
          found, selected, steady := SelectReductionTowardZero(target, input, rt, output);
          if !found {
            return GiveUp(SearchExhausted, output.tally);
          }
        }
      }
    } else if !held.Feasible() {
      found, selected, steady := SelectReductionTowardZero(previous, input, rt, output);
      if !found {
        return GiveUp(CurrentLimit, output.tally);
      }
    } else {
      found, selected, steady := SelectIncreasePrefix(previous, request, input, rt, output);
      if !found {
        selected, steady := previous, held.steady;
        output.contents := output.contents.(reason := CurrentLimit);
      }
    }
    return Pick(selected, steady, output.contents.reason, output.tally);
  }

  /** Judges the transition of a selection and refines an increase that is not authorised. */
  method JudgeTransition(pick: Choice, microstep: bool, previous: real, request: real, held: Held,
                         input: ClampInput, rt: Runtime, st: State, output: OutputRecord)
    returns (judged: Judged)
    requires pick.Pick? && output.tally == pick.tally && output.contents.reason == pick.reason && output.OnlyCounted()
    modifies output
    ensures judged == Judge(pick, microstep, previous, request, held, input, rt, st)
    ensures output.OnlyCounted() && output.tally == judged.tally
    ensures judged.Judged? ==> output.contents.reason == judged.reason
  {
    var movement := Movement(st, previous, pick.torque, false);
    if pick.torque == 0.0 || (!microstep && pick.torque == previous && !st.transition.active) {
      return Judged(pick.torque, pick.steady, NO_CURRENT, false, false, 0, movement.0, movement.1,
                    output.contents.reason, output.tally);
    }
    if microstep {
      return Judged(pick.torque, pick.steady, NO_CURRENT, false, false, 0, Microstep,
                    if Abs(pick.torque) >= Abs(previous) then SameSignIncrease else SameSignDecrease,
                    output.contents.reason, output.tally);
    }
    var valid, transition, settlingUs := EvaluateTransitionFor(
      pick.torque, movement.0, movement.1, input, rt, st, output, NO_CURRENT, 0);
    var required := Abs(pick.torque) > Abs(previous) || (pick.torque == previous && st.transition.active);
    if Increasing(previous, request) && pick.torque != previous
        && !(valid && IntervalAuthorized(transition, input.limits)) {
      var start := Refinement(previous, pick.torque, held.steady, held.transition, held.settlingUs,
                              if st.transition.active then held.transitionOk else true, output.tally);
      var r := RefineIncrease(start, movement, input, rt, st, output);
      if r.safe != previous && r.valid {
        return Judged(r.safe, r.steady, r.transition, true, required, r.settlingUs, movement.0, movement.1,
                      output.contents.reason, output.tally);
      }
      if !held.Feasible() {
        return Rejected(output.tally);
      }
      output.contents := output.contents.(reason := TransitionLimit);
      return Judged(previous, held.steady, held.transition, st.transition.active, st.transition.active, held.settlingUs,
                    if st.transition.active then st.transition.profile else HoldProfile,
                    if st.transition.active then st.transition.direction else HoldDirection,
                    output.contents.reason, output.tally);
    }
    if !valid && !Increasing(previous, request) {
      return Rejected(output.tally);
    }
    return Judged(pick.torque, pick.steady, transition, valid, required, settlingUs, movement.0, movement.1,
                  output.contents.reason, output.tally);
  }

  /** Copies a judged selection into the output. */
  method WriteSelection(j: Judged, steady: Interval, microstep: bool, material: bool, confirm: bool, battery: Battery,
                        output: OutputRecord)
    requires j.Judged?
    modifies output`contents
    ensures output.contents == old(output.contents).(
              selected := j.torque, selectedNonzero := j.torque != 0.0, steady := steady,
              transition := j.transition, transitionValid := j.valid, transitionRequired := j.required,
              profile := j.profile, direction := j.direction, settlingUs := j.settlingUs,
              microstep := microstep, materialChange := material, zeroConfirmationRequired := confirm,
              battery := battery)
  {
    output.contents := output.contents.(selected := j.torque, selectedNonzero := j.torque != 0.0, steady := steady);
    output.contents := output.contents.(transition := j.transition, transitionValid := j.valid,
                                        transitionRequired := j.required);
    output.contents := output.contents.(profile := j.profile, direction := j.direction, settlingUs := j.settlingUs);
    output.contents := output.contents.(microstep := microstep, materialChange := material);
    output.contents := output.contents.(zeroConfirmationRequired := confirm, battery := battery);
  }

  method FillOutput(j: Judged, steady: Interval, microstep: bool, previous: real, request: real,
                    input: ClampInput, cal: Calibration, st: State, ghost fallback: Fallback, output: OutputRecord)
    requires j.Judged?
    requires output.View() == EMPTY_OUTPUT.(
               tally := output.tally, reason := j.reason, zeroFallback := fallback.current,
               zeroFallbackSettlingUs := fallback.settlingUs, zeroFallbackValid := fallback.valid)
    modifies output`contents
    ensures output.View() == Filled(j, steady, fallback, output.tally, microstep, previous, request, input, cal, st)
  {
    var confirm := (st.path.UnknownPath? || ReversalRequest(st, request)) && j.torque != 0.0;
    var battery := ClassifyBattery(j.torque, steady, input, cal, false);
    WriteSelection(j, steady, microstep, !microstep && j.torque != previous, confirm, battery, output);
  }

  /** Publishes the output, or the static zero when the run exceeded its execution contract. */
  method DeliverOutput(request: real, input: ClampInput, rt: Runtime, st: State, output: OutputRecord)
    modifies output
    ensures output.View() == Deliver(old(output.View()), request, input, rt, st)
  {
    if !WithinContract(output.tally) {
      ForceStaticZeroOutput(input, rt, st, ExecutionBound, output);
    } else {
      Publish(request, output);
      output.SetSnapshotGenerations(input);
    }
  }

  method Publish(request: real, output: OutputRecord)
    modifies output`contents
    ensures output.contents == Published(old(output.contents), request)
  {
    var reason := output.contents.reason;
    if reason == NoReason && output.contents.selected != request {
      reason := CurrentLimit;
    }
    output.contents := output.contents.(reason := reason, outputValid := true);
  }

  /** The ghost result counts the calls made, whatever the published counters say. */
  method ConcludeRun(j: Judged, microstep: bool, previous: real, request: real, input: ClampInput, rt: Runtime,
                     st: State, output: OutputRecord) returns (ghost made: Tally)
    requires RuntimeValid(rt) && j.Judged? && output.tally == j.tally && output.contents.reason == j.reason
        && output.OnlyCounted()
    modifies output
    ensures output.View() == Conclude(j, microstep, previous, request, input, rt, st)
    ensures made == ConcludeWork(j, microstep, input, rt)
  {
    var steady := j.steady;
    if j.torque != 0.0 {
      var passed: bool;
      passed, steady := EvaluateExactSteadyAuthorized(j.torque, microstep, input, rt, output, steady);
      if !passed {
        FinishZeroOutput(input, rt, st, false, true, CurrentLimit, output);
        return output.tally;
      }
    }
    EvaluateZeroFallback(input, rt, st, false, output);
    made := output.tally;
    FillOutput(j, steady, microstep, previous, request, input, rt.calibration.value, st,
               ZeroFallback(input, rt, st, false), output);
    DeliverOutput(request, input, rt, st, output);
  }

  method RunPastGates(input: ClampInput, rt: Runtime, st: State, output: OutputRecord) returns (ghost made: Tally)
    requires RuntimeValid(rt) && output.View() == EMPTY_OUTPUT
    modifies output
    ensures output.View() == RunAdmitted(input, rt, st)
    ensures made == AdmittedWork(input, rt, st)
  {
    var previous, request := Previous(st), Request(input);
    var held := EvaluateHeld(previous, input, rt, st, output);
    if !SameSign(previous, request) {
      FinishZeroOutput(input, rt, st, true, false, ReversalWait, output);
      return output.tally;
    }
    var choice := SelectSteady(previous, request, held, input, rt, st, output);
    if choice.GiveUp? {
      FinishZeroOutput(input, rt, st, false, true, choice.reason, output);
      return output.tally;
    }
    var microstep := SelectedMicrostep(choice, previous, request, input, st, rt.calibration.value);
    var judged := JudgeTransition(choice, microstep, previous, request, held, input, rt, st, output);
    if judged.Rejected? {
      FinishZeroOutput(input, rt, st, false, true, TransitionLimit, output);
      return output.tally;
    }
    made := ConcludeRun(judged, microstep, previous, request, input, rt, st, output);
  }

  /** One control step of the clamp. */
  method RunClamp(input: ClampInput, rt: Runtime, st: State, output: OutputRecord)
    returns (usable: bool, ghost made: Tally)
    modifies output
    ensures (usable, output.View()) == Run(input, rt, st)
    ensures made == Work(input, rt, st)
  {
    output.Clear();
    made := NO_CALLS;
    if input.positiveCap < 0.0 || input.negativeCap > 0.0 {
      output.contents := output.contents.(reason := InputInvalid);
      return false, made;
    }
    if !RuntimeValid(rt) {
      output.contents := output.contents.(reason := CalibrationInvalid, battery := TorqueExhausted,
                                          outputValid := true);
      output.SetSnapshotGenerations(input);
      return true, made;
    }
    var cal := rt.calibration.value;
    usable := true;
    if !input.operatingPointValid {
      FinishZeroOutput(input, rt, st, false, false, InputInvalid, output);
      made := output.tally;
    } else if !input.authorityValid {
      FinishZeroOutput(input, rt, st, false, false, AuthorityInvalid, output);
      made := output.tally;
    } else if st.path.UnknownPath? && !input.physicalZeroConfirmed {
      FinishZeroOutput(input, rt, st, false, false, ReversalWait, output);
      made := output.tally;
    } else if NormalizedZero(Request(input), st.path.UnknownPath? || st.normalizedZero, cal) {
      FinishZeroOutput(input, rt, st, false, false, ZeroRequest, output);
      made := output.tally;
    } else if ReversalRequest(st, Request(input)) && !input.physicalZeroConfirmed {
      FinishZeroOutput(input, rt, st, true, false, ReversalWait, output);
      made := output.tally;
    } else {
      made := RunPastGates(input, rt, st, output);
    }
  }
}
