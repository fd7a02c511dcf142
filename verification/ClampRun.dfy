/** One control step of the clamp, as a function of the input, the calibration handle and the committed state. */
module ClampRun {
  import opened Numeric
  import opened Calibration
  import opened SteadyModel
  import opened TransitionModel
  import opened TorqueClamp

  // ---------------------------------------------------------------------------------------------
  // Cell searches
  // ---------------------------------------------------------------------------------------------

  /** The best torque so far of a prefix walk; accepted once a cell has passed. */
  datatype Prefix = Prefix(best: real, steady: Interval, accepted: bool, tally: Tally)

  function PathOf(previous: real, request: real): Interval {
    Interval(Min(previous, request), Max(previous, request))
  }

  function UpwardBest(cal: Calibration, cell: SteadyCell, request: real): real {
    Quantize(PositiveCandidate(cell, cal, Min(request, cell.torque.hi)))
  }

  function DownwardBest(cal: Calibration, cell: SteadyCell, request: real): real {
    Quantize(NegativeCandidate(cell, cal, Max(request, cell.torque.lo)))
  }

  /** Walks up through the cells the path crosses and stops at the first one that is not authorised. */
  function PrefixUp(path: Interval, request: real, input: ClampInput, rt: Runtime, index: nat, acc: Prefix): Prefix
    requires RuntimeValid(rt) && index <= |rt.calibration.value.steadyCells|
    decreases |rt.calibration.value.steadyCells| - index
  {
    var cal := rt.calibration.value;
    if index == |cal.steadyCells| then acc
    else
      var cell := cal.steadyCells[index];
      if !CellPathOverlap(path, cell.torque) then PrefixUp(path, request, input, rt, index + 1, acc)
      else
        var tally := CountCell(acc.tally);
        if !CellAuthorized(index, input, rt) then acc.(tally := tally)
        else PrefixUp(path, request, input, rt, index + 1,
                      Prefix(UpwardBest(cal, cell, request), CellSteady(index, input, rt).current, true, tally))
  }

  /** The same walk downward, from the last cell to the first. */
  function PrefixDown(path: Interval, request: real, input: ClampInput, rt: Runtime, reverse: nat, acc: Prefix): Prefix
    requires RuntimeValid(rt) && reverse <= |rt.calibration.value.steadyCells|
  {
    var cal := rt.calibration.value;
    if reverse == 0 then acc
    else
      var index := reverse - 1;
      var cell := cal.steadyCells[index];
      if !CellPathOverlap(path, cell.torque) then PrefixDown(path, request, input, rt, index, acc)
      else
        var tally := CountCell(acc.tally);
        if !CellAuthorized(index, input, rt) then acc.(tally := tally)
        else PrefixDown(path, request, input, rt, index,
                        Prefix(DownwardBest(cal, cell, request), CellSteady(index, input, rt).current, true, tally))
  }

  function IncreasePrefix(previous: real, request: real, input: ClampInput, rt: Runtime, tally: Tally): Prefix
    requires RuntimeValid(rt)
  {
    var start := Prefix(previous, NO_CURRENT, false, tally);
    if request > previous then PrefixUp(PathOf(previous, request), request, input, rt, 0, start)
    else PrefixDown(PathOf(previous, request), request, input, rt, |rt.calibration.value.steadyCells|, start)
  }

  predicate PrefixMoves(p: Prefix, previous: real) {
    p.accepted && p.best != previous
  }

  datatype Reduction = Reduction(found: Option<(real, Interval)>, tally: Tally)

  /** Searches the cells from the request toward zero for a torque that passes the exact check. */
  function ReducePositive(request: real, input: ClampInput, rt: Runtime, reverse: nat, tally: Tally): Reduction
    requires RuntimeValid(rt) && reverse <= |rt.calibration.value.steadyCells|
  {
    var cal := rt.calibration.value;
    if reverse == 0 then Reduction(None, tally)
    else
      var index := reverse - 1;
      var cell := cal.steadyCells[index];
      if cell.torque.hi <= 0.0 || cell.torque.lo >= request then ReducePositive(request, input, rt, index, tally)
      else if !CellAuthorized(index, input, rt) then ReducePositive(request, input, rt, index, CountCell(tally))
      else
        var candidate := Quantize(PositiveCandidate(cell, cal, request));
        if NormalizedZero(candidate, false, cal) then Reduction(None, CountCell(tally))
        else
          var exact := ExactSteady(candidate, false, input, rt);
          var counted := CountSteady(CountCell(tally), exact);
          if SteadyAuthorized(exact, input) then Reduction(Some((candidate, exact.current)), counted)
          else ReducePositive(request, input, rt, index, counted)
  }

  function ReduceNegative(request: real, input: ClampInput, rt: Runtime, index: nat, tally: Tally): Reduction
    requires RuntimeValid(rt) && index <= |rt.calibration.value.steadyCells|
    decreases |rt.calibration.value.steadyCells| - index
  {
    var cal := rt.calibration.value;
    if index == |cal.steadyCells| then Reduction(None, tally)
    else
      var cell := cal.steadyCells[index];
      if cell.torque.lo >= 0.0 || cell.torque.hi <= request then ReduceNegative(request, input, rt, index + 1, tally)
      else if !CellAuthorized(index, input, rt) then ReduceNegative(request, input, rt, index + 1, CountCell(tally))
      else
        var candidate := Quantize(NegativeCandidate(cell, cal, request));
        if NormalizedZero(candidate, false, cal) then Reduction(None, CountCell(tally))
        else
          var exact := ExactSteady(candidate, false, input, rt);
          var counted := CountSteady(CountCell(tally), exact);
          if SteadyAuthorized(exact, input) then Reduction(Some((candidate, exact.current)), counted)
          else ReduceNegative(request, input, rt, index + 1, counted)
  }

  function ReduceTowardZero(request: real, input: ClampInput, rt: Runtime, tally: Tally): Reduction
    requires RuntimeValid(rt)
  {
    if request > 0.0 then ReducePositive(request, input, rt, |rt.calibration.value.steadyCells|, tally)
    else if request < 0.0 then ReduceNegative(request, input, rt, 0, tally)
    else Reduction(None, tally)
  }

  // ---------------------------------------------------------------------------------------------
  // Bisection of an increase whose transition is not authorised
  // ---------------------------------------------------------------------------------------------

  datatype Refinement = Refinement(safe: real, unsafe: real, steady: Interval, transition: Interval, settlingUs: nat,
                                   valid: bool, tally: Tally)

  function RefineStep(r: Refinement, movement: (Profile, Direction), input: ClampInput, rt: Runtime,
                      st: State): Refinement {
    var midpoint := Quantize(r.safe + 0.5 * (r.unsafe - r.safe));
    var steady := ExactSteady(midpoint, false, input, rt);
    var t1 := CountSteady(r.tally.(refinements := r.tally.refinements + 1), steady);
    if !SteadyAuthorized(steady, input) then r.(unsafe := midpoint, tally := t1)
    else
      var transition := TransitionFor(midpoint, movement.0, movement.1, input, rt, st);
      if TransitionAuthorized(transition, input) then
        Refinement(midpoint, r.unsafe, steady.current, transition.current, transition.settlingUs, true,
                   CountTransition(t1))
      else r.(unsafe := midpoint, tally := CountTransition(t1))
  }

  function Refine(iterations: nat, r: Refinement, movement: (Profile, Direction), input: ClampInput, rt: Runtime,
                  st: State): Refinement {
    if iterations == 0 then r
    else RefineStep(Refine(iterations - 1, r, movement, input, rt, st), movement, input, rt, st)
  }

  // ---------------------------------------------------------------------------------------------
  // Zero outcomes
  // ---------------------------------------------------------------------------------------------

  datatype Fallback = Fallback(current: Interval, settlingUs: nat, valid: bool)

  function ZeroFallback(input: ClampInput, rt: Runtime, st: State, reversalFirstLeg: bool): Fallback
    requires RuntimeValid(rt)
  {
    var cal := rt.calibration.value;
    var movement := ZeroMovement(input, st, reversalFirstLeg);
    var out := TransitionFor(0.0, movement.0, movement.1, input, rt, st);
    if out.status == ModelOk then Fallback(out.current, out.settlingUs, true)
    else Fallback(cal.lateZero, cal.lateZeroSettlingUs, Ordered(cal.lateZero))
  }

  /** A zero command described by its steady evaluation and its fallback. */
  function ZeroOutput(input: ClampInput, cal: Calibration, st: State, movement: (Profile, Direction),
                      zero: SteadyOutput, fallback: Fallback, exhausted: bool, reason: Reason, tally: Tally): Output {
    var steady := if zero.status == ModelOk then zero.current else if fallback.valid then fallback.current
        else NO_CURRENT;
    Snapshot(input, EMPTY_OUTPUT.(
      selected := 0.0, steady := steady, transition := fallback.current, zeroFallback := fallback.current,
      reason := reason,
      battery := if zero.status == ModelOk then ClassifyBattery(0.0, steady, input, cal, exhausted)
      else TorqueExhausted, profile := movement.0, direction := movement.1,
      settlingUs := fallback.settlingUs, zeroFallbackSettlingUs := fallback.settlingUs,
      tally := tally,
      transitionValid := fallback.valid, zeroFallbackValid := fallback.valid,
      materialChange := st.committed != 0.0, outputValid := true))
  }

  function FinishZero(input: ClampInput, rt: Runtime, st: State, reversalFirstLeg: bool, exhausted: bool,
                      reason: Reason, tally: Tally): Output
    requires RuntimeValid(rt)
  {
    var zero := ExactSteady(0.0, false, input, rt);
    ZeroOutput(input, rt.calibration.value, st, ZeroMovement(input, st, reversalFirstLeg), zero,
               ZeroFallback(input, rt, st, reversalFirstLeg), exhausted, reason,
               CountTransition(CountSteady(tally, zero)))
  }

  /** The pre-certified static zero; the counters survive only from a finished output. */
  function ForceStaticZero(input: ClampInput, rt: Runtime, st: State, reason: Reason, prior: Output): Output {
    var base := Snapshot(input, EMPTY_OUTPUT.(
      tally := if prior.outputValid then prior.tally else NO_CALLS,
      reason := reason, battery := TorqueExhausted, profile := ZeroAssert, direction := ToZero,
      materialChange := st.committed != 0.0, outputValid := true));
    if RuntimeValid(rt) then
      var cal := rt.calibration.value;
      base.(steady := cal.lateZero, transition := cal.lateZero, zeroFallback := cal.lateZero,
            transitionValid := true, zeroFallbackValid := true,
            settlingUs := cal.lateZeroSettlingUs, zeroFallbackSettlingUs := cal.lateZeroSettlingUs)
    else base
  }

  // ---------------------------------------------------------------------------------------------
  // The stages of a run
  // ---------------------------------------------------------------------------------------------

  function Previous(st: State): real {
    if st.path.UnknownPath? then 0.0 else st.committed
  }

  function Request(input: ClampInput): real {
    Quantize(ClampCapability(input.requested, input))
  }

  predicate ReversalRequest(st: State, request: real) {
    !st.lastNonzeroSign.NoSign? && SignOf(request) != st.lastNonzeroSign
  }

  datatype Gate = Refused(reversalFirstLeg: bool, reason: Reason) | Admitted

  function Admit(input: ClampInput, cal: Calibration, st: State): Gate {
    if !input.operatingPointValid then Refused(false, InputInvalid)
    else if !input.authorityValid then Refused(false, AuthorityInvalid)
    else if st.path.UnknownPath? && !input.physicalZeroConfirmed then Refused(false, ReversalWait)
    else if NormalizedZero(Request(input), st.path.UnknownPath? || st.normalizedZero, cal) then
        Refused(false, ZeroRequest)
    else if ReversalRequest(st, Request(input)) && !input.physicalZeroConfirmed then Refused(true, ReversalWait)
    else Admitted
  }

  /** What holding the previous torque would mean. */
  datatype Held = Held(steadyOk: bool, steady: Interval, transitionOk: bool, transition: Interval, settlingUs: nat,
                       tally: Tally) {
    predicate Feasible() {
      steadyOk && transitionOk
    }
  }

  function Hold(previous: real, input: ClampInput, rt: Runtime, st: State): Held {
    if previous == 0.0 then Held(true, NO_CURRENT, true, NO_CURRENT, 0, NO_CALLS)
    else
      var s := ExactSteady(previous, false, input, rt);
      var steady := if s.status == ModelOk then s.current else NO_CURRENT;
      var counted := CountSteady(NO_CALLS, s);
      if !st.transition.active then Held(SteadyAuthorized(s, input), steady, true, NO_CURRENT, 0, counted)
      else
        var t := TransitionFor(previous, st.transition.profile, st.transition.direction, input, rt, st);
        Held(SteadyAuthorized(s, input), steady, TransitionAuthorized(t, input),
             if t.status == ModelOk then t.current else NO_CURRENT,
             if t.status == ModelOk then t.settlingUs else 0,
             CountTransition(counted))
  }

  predicate SameSign(previous: real, request: real) {
    previous == 0.0 || SignOf(previous) == SignOf(request)
  }

  predicate TracksMicrostep(previous: real, request: real, input: ClampInput, st: State, cal: Calibration) {
    SameSign(previous, request) && MicrostepEligible(previous, request, input, st, cal)
  }

  /** The steady selection: a torque, or zero for a reason. */
  datatype Choice =
    | Pick(torque: real, steady: Interval, reason: Reason, tally: Tally)
    | GiveUp(reason: Reason, tally: Tally)

  function FromReduction(r: Reduction, reason: Reason): Choice {
    match r.found
    case Some(found) => Pick(found.0, found.1, NoReason, r.tally)
    case None => GiveUp(reason, r.tally)
  }

  function ChooseDecrease(previous: real, request: real, held: Held, input: ClampInput, rt: Runtime, st: State): Choice
    requires RuntimeValid(rt)
  {
    if request == previous then
      if held.Feasible() then Pick(previous, held.steady, NoReason, held.tally)
      else if held.steadyOk then GiveUp(TransitionLimit, held.tally)
      else FromReduction(ReduceTowardZero(previous, input, rt, held.tally), SearchExhausted)
    else
      var exact := ExactSteady(request, TracksMicrostep(previous, request, input, st, rt.calibration.value), input, rt);
      var tally := CountSteady(held.tally, exact);
      if SteadyAuthorized(exact, input) then Pick(request, exact.current, NoReason, tally)
      else FromReduction(ReduceTowardZero(request, input, rt, tally), SearchExhausted)
  }

  function ChooseIncrease(previous: real, request: real, held: Held, input: ClampInput, rt: Runtime): Choice
    requires RuntimeValid(rt)
  {
    if !held.Feasible() then FromReduction(ReduceTowardZero(previous, input, rt, held.tally), CurrentLimit)
    else
      var prefix := IncreasePrefix(previous, request, input, rt, held.tally);
      if PrefixMoves(prefix, previous) then Pick(prefix.best, prefix.steady, NoReason, prefix.tally)
      else Pick(previous, held.steady, CurrentLimit, prefix.tally)
  }

  predicate Increasing(previous: real, request: real) {
    Abs(request) > Abs(previous)
  }

  function Choose(previous: real, request: real, held: Held, input: ClampInput, rt: Runtime, st: State): Choice
    requires RuntimeValid(rt)
  {
    if Increasing(previous, request) then ChooseIncrease(previous, request, held, input, rt)
    else ChooseDecrease(previous, request, held, input, rt, st)
  }

  /** The selection once its transition has been judged. */
  datatype Judged =
    | Judged(torque: real, steady: Interval, transition: Interval, valid: bool, required: bool, settlingUs: nat,
             profile: Profile, direction: Direction, reason: Reason, tally: Tally)
    | Rejected(tally: Tally)

  function JudgeMicrostep(pick: Choice, previous: real): Judged
    requires pick.Pick?
  {
    Judged(pick.torque, pick.steady, NO_CURRENT, false, false, 0, Microstep,
           if Abs(pick.torque) >= Abs(previous) then SameSignIncrease else SameSignDecrease, pick.reason, pick.tally)
  }

  /** Bisects between the previous torque and an increase whose transition failed. */
  function JudgeRefined(pick: Choice, movement: (Profile, Direction), required: bool, tally: Tally,
                        previous: real, held: Held, input: ClampInput, rt: Runtime, st: State): Judged
    requires pick.Pick?
  {
    var start := Refinement(previous, pick.torque, held.steady, held.transition, held.settlingUs,
                            if st.transition.active then held.transitionOk else true, tally);
    var r := Refine(MAX_REFINE_ITERATIONS, start, movement, input, rt, st);
    if r.safe != previous && r.valid then
      Judged(r.safe, r.steady, r.transition, true, required, r.settlingUs, movement.0, movement.1, pick.reason, r.tally)
    else if held.Feasible() then
      Judged(previous, held.steady, held.transition, st.transition.active, st.transition.active, held.settlingUs,
             if st.transition.active then st.transition.profile else HoldProfile,
             if st.transition.active then st.transition.direction else HoldDirection,
             TransitionLimit, r.tally)
    else Rejected(r.tally)
  }

  function JudgeMovement(pick: Choice, movement: (Profile, Direction), previous: real, request: real, held: Held,
                         input: ClampInput, rt: Runtime, st: State): Judged
    requires pick.Pick?
  {
    var t := TransitionFor(pick.torque, movement.0, movement.1, input, rt, st);
    var tally := CountTransition(pick.tally);
    var required := Abs(pick.torque) > Abs(previous) || (pick.torque == previous && st.transition.active);
    if Increasing(previous, request) && pick.torque != previous && !TransitionAuthorized(t, input) then
      JudgeRefined(pick, movement, required, tally, previous, held, input, rt, st)
    else if t.status != ModelOk && !Increasing(previous, request) then Rejected(tally)
    else
      Judged(pick.torque, pick.steady, if t.status == ModelOk then t.current else NO_CURRENT, t.status == ModelOk,
             required, if t.status == ModelOk then t.settlingUs else 0, movement.0, movement.1, pick.reason, tally)
  }

  function Judge(pick: Choice, microstep: bool, previous: real, request: real, held: Held,
                 input: ClampInput, rt: Runtime, st: State): Judged
    requires pick.Pick?
  {
    var movement := Movement(st, previous, pick.torque, false);
    if pick.torque == 0.0 || (!microstep && pick.torque == previous && !st.transition.active) then
      Judged(pick.torque, pick.steady, NO_CURRENT, false, false, 0, movement.0, movement.1, pick.reason, pick.tally)
    else if microstep then JudgeMicrostep(pick, previous)
    else JudgeMovement(pick, movement, previous, request, held, input, rt, st)
  }

  /** The output of a torque that passed its final check. */
  function Filled(j: Judged, steady: Interval, fallback: Fallback, tally: Tally, microstep: bool,
                  previous: real, request: real, input: ClampInput, cal: Calibration, st: State): Output
    requires j.Judged?
  {
    EMPTY_OUTPUT.(
      selected := j.torque, steady := steady, transition := j.transition, zeroFallback := fallback.current,
      reason := j.reason, battery := ClassifyBattery(j.torque, steady, input, cal, false),
      profile := j.profile, direction := j.direction,
      settlingUs := j.settlingUs, zeroFallbackSettlingUs := fallback.settlingUs, tally := tally,
      selectedNonzero := j.torque != 0.0, transitionValid := j.valid, transitionRequired := j.required,
      microstep := microstep, materialChange := !microstep && j.torque != previous,
      zeroConfirmationRequired := (st.path.UnknownPath? || ReversalRequest(st, request)) && j.torque != 0.0,
      zeroFallbackValid := fallback.valid)
  }

  function Published(out: Output, request: real): Output {
    out.(reason := if out.reason.NoReason? && out.selected != request then CurrentLimit else out.reason,
         outputValid := true)
  }

  /** Applies the execution contract and publishes the output. */
  function Deliver(out: Output, request: real, input: ClampInput, rt: Runtime, st: State): Output {
    if !WithinContract(out.tally) then ForceStaticZero(input, rt, st, ExecutionBound, out)
    else Snapshot(input, Published(out, request))
  }

  /** The final exact check, the zero fallback and the execution contract. */
  function Conclude(j: Judged, microstep: bool, previous: real, request: real, input: ClampInput, rt: Runtime,
                    st: State): Output
    requires RuntimeValid(rt) && j.Judged?
  {
    var exact := ExactSteady(j.torque, microstep, input, rt);
    var checked := if j.torque == 0.0 then j.tally else CountSteady(j.tally, exact);
    if j.torque != 0.0 && !SteadyAuthorized(exact, input) then
      FinishZero(input, rt, st, false, true, CurrentLimit, checked)
    else
      var steady := if j.torque == 0.0 then j.steady else exact.current;
      var fallback := ZeroFallback(input, rt, st, false);
      Deliver(Filled(j, steady, fallback, CountTransition(checked), microstep, previous, request, input,
                     rt.calibration.value, st),
              request, input, rt, st)
  }

  /** A run past its gates: hold, choose, judge, conclude. */
  function RunAdmitted(input: ClampInput, rt: Runtime, st: State): Output
    requires RuntimeValid(rt)
  {
    var previous, request := Previous(st), Request(input);
    var held := Hold(previous, input, rt, st);
    if !SameSign(previous, request) then FinishZero(input, rt, st, true, false, ReversalWait, held.tally)
    else
      var choice := Choose(previous, request, held, input, rt, st);
      if choice.GiveUp? then FinishZero(input, rt, st, false, true, choice.reason, choice.tally)
      else
        var microstep := SelectedMicrostep(choice, previous, request, input, st, rt.calibration.value);
        var judged := Judge(choice, microstep, previous, request, held, input, rt, st);
        if judged.Rejected? then FinishZero(input, rt, st, false, true, TransitionLimit, judged.tally)
        else Conclude(judged, microstep, previous, request, input, rt, st)
  }

  predicate SelectedMicrostep(choice: Choice, previous: real, request: real, input: ClampInput, st: State,
                              cal: Calibration)
    requires choice.Pick?
  {
    TracksMicrostep(previous, request, input, st, cal) && choice.torque == request
  }

  function RunQualified(input: ClampInput, rt: Runtime, st: State): Output
    requires RuntimeValid(rt)
  {
    match Admit(input, rt.calibration.value, st)
    case Refused(reversalFirstLeg, reason) => FinishZero(input, rt, st, reversalFirstLeg, false, reason, NO_CALLS)
    case Admitted => RunAdmitted(input, rt, st)
  }

  /** The whole step: whether the input was usable, and the candidate. */
  function Run(input: ClampInput, rt: Runtime, st: State): (bool, Output) {
    if input.positiveCap < 0.0 || input.negativeCap > 0.0 then (false, EMPTY_OUTPUT.(reason := InputInvalid))
    else if !RuntimeValid(rt) then
      (true, Snapshot(input, EMPTY_OUTPUT.(reason := CalibrationInvalid, battery := TorqueExhausted,
                                           outputValid := true)))
    else (true, RunQualified(input, rt, st))
  }

  // ---------------------------------------------------------------------------------------------
  // The model calls a step makes
  // ---------------------------------------------------------------------------------------------

  /** A zero output costs one steady and one transition evaluation more. */
  function FinishWork(input: ClampInput, rt: Runtime, tally: Tally): Tally {
    CountTransition(CountSteady(tally, ExactSteady(0.0, false, input, rt)))
  }

  function ConcludeWork(j: Judged, microstep: bool, input: ClampInput, rt: Runtime): Tally
    requires j.Judged?
  {
    var exact := ExactSteady(j.torque, microstep, input, rt);
    if j.torque == 0.0 then CountTransition(j.tally)
    else if SteadyAuthorized(exact, input) then CountTransition(CountSteady(j.tally, exact))
    else FinishWork(input, rt, CountSteady(j.tally, exact))
  }

  function AdmittedWork(input: ClampInput, rt: Runtime, st: State): Tally
    requires RuntimeValid(rt)
  {
    var previous, request := Previous(st), Request(input);
    var held := Hold(previous, input, rt, st);
    if !SameSign(previous, request) then FinishWork(input, rt, held.tally)
    else
      var choice := Choose(previous, request, held, input, rt, st);
      if choice.GiveUp? then FinishWork(input, rt, choice.tally)
      else
        var microstep := SelectedMicrostep(choice, previous, request, input, st, rt.calibration.value);
        var judged := Judge(choice, microstep, previous, request, held, input, rt, st);
        if judged.Rejected? then FinishWork(input, rt, judged.tally) else ConcludeWork(judged, microstep, input, rt)
  }

  /** The calls actually made by a step. The counters it publishes may have been reset. */
  function Work(input: ClampInput, rt: Runtime, st: State): Tally {
    if input.positiveCap < 0.0 || input.negativeCap > 0.0 || !RuntimeValid(rt) then NO_CALLS
    else if Admit(input, rt.calibration.value, st).Refused? then FinishWork(input, rt, NO_CALLS)
    else AdmittedWork(input, rt, st)
  }
}
