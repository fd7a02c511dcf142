/** How many model calls one run of the clamp may cost. */
module ClampCost {
  import opened Numeric
  import opened Calibration
  import opened SteadyModel
  import opened TransitionModel
  import opened TorqueClamp
  import opened ClampRun
  import opened ClampSafety

  /** The second tally makes at most the stated number of further calls, each touching at most four cells. */
  predicate CostsAtMost(before: Tally, after: Tally, steady: nat, transition: nat, refinements: nat) {
    && after.steady <= before.steady + steady
    && after.transition <= before.transition + transition
    && after.refinements <= before.refinements + refinements
    && after.cells - MAX_CELLS_PER_POINT * after.steady <= before.cells - MAX_CELLS_PER_POINT * before.steady
  }

  lemma ExactSteadyCells(torque: real, microstep: bool, input: ClampInput, rt: Runtime)
    ensures ExactSteady(torque, microstep, input, rt).cells <= MAX_CELLS_PER_POINT
  {
  }

  lemma {:induction false} PrefixUpCost(path: Interval, request: real, input: ClampInput, rt: Runtime, index: nat,
                                        acc: Prefix)
    requires RuntimeValid(rt) && index <= |rt.calibration.value.steadyCells|
    ensures CostsAtMost(acc.tally, PrefixUp(path, request, input, rt, index, acc).tally,
                        |rt.calibration.value.steadyCells| - index, 0, 0)
    decreases |rt.calibration.value.steadyCells| - index
  {
    var cal := rt.calibration.value;
    if index < |cal.steadyCells| {
      var cell := cal.steadyCells[index];
      if !CellPathOverlap(path, cell.torque) {
        PrefixUpCost(path, request, input, rt, index + 1, acc);
      } else if CellAuthorized(index, input, rt) {
        PrefixUpCost(path, request, input, rt, index + 1,
                     Prefix(UpwardBest(cal, cell, request), CellSteady(index, input, rt).current, true,
                            CountCell(acc.tally)));
      }
    }
  }

  lemma {:induction false} PrefixDownCost(path: Interval, request: real, input: ClampInput, rt: Runtime, reverse: nat,
                                          acc: Prefix)
    requires RuntimeValid(rt) && reverse <= |rt.calibration.value.steadyCells|
    ensures CostsAtMost(acc.tally, PrefixDown(path, request, input, rt, reverse, acc).tally, reverse, 0, 0)
  {
    var cal := rt.calibration.value;
    if reverse > 0 {
      var index := reverse - 1;
      var cell := cal.steadyCells[index];
      if !CellPathOverlap(path, cell.torque) {
        PrefixDownCost(path, request, input, rt, index, acc);
      } else if CellAuthorized(index, input, rt) {
        PrefixDownCost(path, request, input, rt, index,
                       Prefix(DownwardBest(cal, cell, request), CellSteady(index, input, rt).current, true,
                              CountCell(acc.tally)));
      }
    }
  }

  lemma {:induction false} ReducePositiveCost(request: real, input: ClampInput, rt: Runtime, reverse: nat, tally: Tally)
    requires RuntimeValid(rt) && reverse <= |rt.calibration.value.steadyCells|
    ensures CostsAtMost(tally, ReducePositive(request, input, rt, reverse, tally).tally, 2 * reverse, 0, 0)
  {
    var cal := rt.calibration.value;
    if reverse > 0 {
      var index := reverse - 1;
      var cell := cal.steadyCells[index];
      var candidate := Quantize(PositiveCandidate(cell, cal, request));
      var exact := ExactSteady(candidate, false, input, rt);
      ExactSteadyCells(candidate, false, input, rt);
      ReducePositiveCost(request, input, rt, index, tally);
      ReducePositiveCost(request, input, rt, index, CountCell(tally));
      ReducePositiveCost(request, input, rt, index, CountSteady(CountCell(tally), exact));
    }
  }

  lemma {:induction false} ReduceNegativeCost(request: real, input: ClampInput, rt: Runtime, index: nat, tally: Tally)
    requires RuntimeValid(rt) && index <= |rt.calibration.value.steadyCells|
    ensures CostsAtMost(tally, ReduceNegative(request, input, rt, index, tally).tally,
                        2 * (|rt.calibration.value.steadyCells| - index), 0, 0)
    decreases |rt.calibration.value.steadyCells| - index
  {
    var cal := rt.calibration.value;
    if index < |cal.steadyCells| {
      var cell := cal.steadyCells[index];
      var candidate := Quantize(NegativeCandidate(cell, cal, request));
      var exact := ExactSteady(candidate, false, input, rt);
      ExactSteadyCells(candidate, false, input, rt);
      ReduceNegativeCost(request, input, rt, index + 1, tally);
      ReduceNegativeCost(request, input, rt, index + 1, CountCell(tally));
      ReduceNegativeCost(request, input, rt, index + 1, CountSteady(CountCell(tally), exact));
    }
  }

  lemma ReduceCost(request: real, input: ClampInput, rt: Runtime, tally: Tally)
    requires RuntimeValid(rt)
    ensures CostsAtMost(tally, ReduceTowardZero(request, input, rt, tally).tally,
                        2 * |rt.calibration.value.steadyCells|, 0, 0)
  {
    ReducePositiveCost(request, input, rt, |rt.calibration.value.steadyCells|, tally);
    ReduceNegativeCost(request, input, rt, 0, tally);
  }

  lemma HoldCost(previous: real, input: ClampInput, rt: Runtime, st: State)
    ensures CostsAtMost(NO_CALLS, Hold(previous, input, rt, st).tally, 1, 1, 0)
  {
    ExactSteadyCells(previous, false, input, rt);
  }

  lemma IncreaseCost(previous: real, request: real, held: Held, input: ClampInput, rt: Runtime)
    requires RuntimeValid(rt)
    ensures CostsAtMost(held.tally, ChooseIncrease(previous, request, held, input, rt).tally,
                        2 * |rt.calibration.value.steadyCells|, 0, 0)
  {
    ReduceCost(previous, input, rt, held.tally);
    var start := Prefix(previous, NO_CURRENT, false, held.tally);
    PrefixUpCost(PathOf(previous, request), request, input, rt, 0, start);
    PrefixDownCost(PathOf(previous, request), request, input, rt, |rt.calibration.value.steadyCells|, start);
  }

  lemma DecreaseCost(previous: real, request: real, held: Held, input: ClampInput, rt: Runtime, st: State)
    requires RuntimeValid(rt)
    ensures CostsAtMost(held.tally, ChooseDecrease(previous, request, held, input, rt, st).tally,
                        2 * |rt.calibration.value.steadyCells| + 1, 0, 0)
  {
    var microstep := TracksMicrostep(previous, request, input, st, rt.calibration.value);
    ExactSteadyCells(request, microstep, input, rt);
    ReduceCost(previous, input, rt, held.tally);
    ReduceCost(request, input, rt, CountSteady(held.tally, ExactSteady(request, microstep, input, rt)));
  }

  lemma ChoiceCost(previous: real, request: real, held: Held, input: ClampInput, rt: Runtime, st: State)
    requires RuntimeValid(rt) && CostsAtMost(NO_CALLS, held.tally, 1, 1, 0)
    ensures CostsAtMost(NO_CALLS, Choose(previous, request, held, input, rt, st).tally,
                        ChoiceCalls(|rt.calibration.value.steadyCells|, previous, request), 1, 0)
  {
    if Increasing(previous, request) {
      IncreaseCost(previous, request, held, input, rt);
    } else {
      DecreaseCost(previous, request, held, input, rt, st);
    }
  }

  lemma {:induction false} RefineCost(iterations: nat, start: Refinement, movement: (Profile, Direction),
                                      input: ClampInput, rt: Runtime, st: State)
    ensures CostsAtMost(start.tally, Refine(iterations, start, movement, input, rt, st).tally, iterations, iterations,
                        iterations)
  {
    if iterations > 0 {
      RefineCost(iterations - 1, start, movement, input, rt, st);
      var r := Refine(iterations - 1, start, movement, input, rt, st);
      ExactSteadyCells(Quantize(r.safe + 0.5 * (r.unsafe - r.safe)), false, input, rt);
    }
  }

  lemma JudgeCost(pick: Choice, microstep: bool, previous: real, request: real, held: Held, input: ClampInput,
                  rt: Runtime, st: State)
    requires pick.Pick?
    ensures CostsAtMost(pick.tally, Judge(pick, microstep, previous, request, held, input, rt, st).tally,
                        if Increasing(previous, request) then MAX_REFINE_ITERATIONS else 0, 1 + MAX_REFINE_ITERATIONS,
                        MAX_REFINE_ITERATIONS)
  {
    var movement := Movement(st, previous, pick.torque, false);
    var start := Refinement(previous, pick.torque, held.steady, held.transition, held.settlingUs,
                            if st.transition.active then held.transitionOk else true, CountTransition(pick.tally));
    RefineCost(MAX_REFINE_ITERATIONS, start, movement, input, rt, st);
  }

  lemma FinishCost(input: ClampInput, rt: Runtime, tally: Tally)
    ensures CostsAtMost(tally, FinishWork(input, rt, tally), 1, 1, 0)
  {
    ExactSteadyCells(0.0, false, input, rt);
  }

  lemma ConcludeCost(j: Judged, microstep: bool, input: ClampInput, rt: Runtime)
    requires j.Judged?
    ensures CostsAtMost(j.tally, ConcludeWork(j, microstep, input, rt), 2, 1, 0)
  {
    ExactSteadyCells(j.torque, microstep, input, rt);
    FinishCost(input, rt, CountSteady(j.tally, ExactSteady(j.torque, microstep, input, rt)));
  }

  /** The steady calls of a choice over n torque cells. */
  function ChoiceCalls(n: nat, previous: real, request: real): nat {
    2 * n + if Increasing(previous, request) then 1 else 2
  }

  /** The stages after the choice. */
  lemma PickCost(pick: Choice, microstep: bool, previous: real, request: real, held: Held, input: ClampInput,
                 rt: Runtime, st: State, n: nat)
    requires pick.Pick? && CostsAtMost(NO_CALLS, pick.tally, ChoiceCalls(n, previous, request), 1, 0)
    ensures var j := Judge(pick, microstep, previous, request, held, input, rt, st);
            var made := if j.Rejected? then FinishWork(input, rt, j.tally) else ConcludeWork(j, microstep, input, rt);
            CostsAtMost(NO_CALLS, made, 2 * n + 7, 7, MAX_REFINE_ITERATIONS)
  {
    var judged := Judge(pick, microstep, previous, request, held, input, rt, st);
    JudgeCost(pick, microstep, previous, request, held, input, rt, st);
    if judged.Judged? {
      ConcludeCost(judged, microstep, input, rt);
    } else {
      FinishCost(input, rt, judged.tally);
    }
  }

  lemma AdmittedCost(input: ClampInput, rt: Runtime, st: State)
    requires RuntimeValid(rt)
    ensures CostsAtMost(NO_CALLS, AdmittedWork(input, rt, st), 2 * |rt.calibration.value.steadyCells| + 7, 7,
                        MAX_REFINE_ITERATIONS)
  {
    var previous, request := Previous(st), Request(input);
    var held, choice := HeldOf(input, rt, st), ChoiceOf(input, rt, st);
    HoldCost(previous, input, rt, st);
    ChoiceCost(previous, request, held, input, rt, st);
    if choice.Pick? {
      PickCost(choice, MicrostepOf(input, rt, st), previous, request, held, input, rt, st,
               |rt.calibration.value.steadyCells|);
    } else {
      FinishCost(input, rt, choice.tally);
    }
    FinishCost(input, rt, held.tally);
  }

  /** The counters were reset by the static zero that replaces an output beyond the contract. */
  predicate CountersReset(out: Output) {
    out.tally == NO_CALLS && out.selected == 0.0 && out.reason.ExecutionBound?
  }

  lemma ConclusionReports(j: Judged, microstep: bool, previous: real, request: real, input: ClampInput, rt: Runtime,
                          st: State)
    requires RuntimeValid(rt) && j.Judged?
    ensures var out := Conclude(j, microstep, previous, request, input, rt, st);
            var made := ConcludeWork(j, microstep, input, rt);
            out.tally == made || (CountersReset(out) && !WithinContract(made))
  {
  }

  lemma AdmittedReports(input: ClampInput, rt: Runtime, st: State)
    requires RuntimeValid(rt)
    ensures var out, made := RunAdmitted(input, rt, st), AdmittedWork(input, rt, st);
            out.tally == made || (CountersReset(out) && !WithinContract(made))
  {
    if ChoiceOf(input, rt, st).Pick? {
      var j := JudgedOf(input, rt, st);
      if j.Judged? {
        ConclusionReports(j, MicrostepOf(input, rt, st), Previous(st), Request(input), input, rt, st);
      }
    }
  }

  /** Worst-case work of one control step over N torque cells, counted before any reset: at most 2N + 7 steady and 7
      transition evaluations and four refinements, so no counter can wrap. */
  lemma ExecutionBounded(input: ClampInput, rt: Runtime, st: State)
    ensures var made := Work(input, rt, st);
            && made.transition <= 7 && made.refinements <= 4
            && (RuntimeValid(rt) ==> made.steady <= 2 * |rt.calibration.value.steadyCells| + 7)
            && made.cells <= 4 * made.steady <= 188
  {
    if RuntimeValid(rt) {
      FinishCost(input, rt, NO_CALLS);
      AdmittedCost(input, rt, st);
    }
  }

  /** At most 32 steady and 8 transition evaluations, 64 cells and 4 refinements. */
  predicate InsideContract(made: Tally) {
    made.steady <= 32 && made.transition <= 8 && made.cells <= 64 && made.refinements <= 4
  }

  /** The published counters are the calls made, unless a judged run exceeded the contract: then they read zero beside
      the static zero output. A nonzero selection is always inside the contract. */
  lemma CountersTell(input: ClampInput, rt: Runtime, st: State)
    ensures var out, made := Run(input, rt, st).1, Work(input, rt, st);
            && (out.tally == made || (CountersReset(out) && !InsideContract(made)))
            && (out.selected != 0.0 ==> out.tally == made && InsideContract(made))
  {
    if RuntimeValid(rt) {
      AdmittedReports(input, rt, st);
    }
    if Run(input, rt, st).1.selected != 0.0 {
      NonzeroCandidate(input, rt, st);
    }
  }

  /** Past the gates the work of a judged step is that of its conclusion. */
  lemma JudgedWork(input: ClampInput, rt: Runtime, st: State)
    requires RuntimeValid(rt) && input.negativeCap <= 0.0 <= input.positiveCap
    requires Admit(input, rt.calibration.value, st).Admitted? && SameSign(Previous(st), Request(input))
    requires ChoiceOf(input, rt, st).Pick? && JudgedOf(input, rt, st).Judged?
    ensures Work(input, rt, st) == ConcludeWork(JudgedOf(input, rt, st), MicrostepOf(input, rt, st), input, rt)
    ensures Run(input, rt, st).1 == Conclude(JudgedOf(input, rt, st), MicrostepOf(input, rt, st), Previous(st),
                                             Request(input), input, rt, st)
  {
  }

  /** With at most five torque cells the execution contract never interferes: past the gates, every judged torque other
      than zero that passes the final exact check is selected. */
  lemma JudgedIsSelected(input: ClampInput, rt: Runtime, st: State)
    requires RuntimeValid(rt) && |rt.calibration.value.steadyCells| <= 5
    requires input.negativeCap <= 0.0 <= input.positiveCap && Admit(input, rt.calibration.value, st).Admitted?
    requires SameSign(Previous(st), Request(input)) && ChoiceOf(input, rt, st).Pick?
    requires var j := JudgedOf(input, rt, st);
             j.Judged? && j.torque != 0.0
             && SteadyAuthorized(ExactSteady(j.torque, MicrostepOf(input, rt, st), input, rt), input)
    ensures Run(input, rt, st).0
    ensures IsNonzeroOutput(Run(input, rt, st).1, JudgedOf(input, rt, st), MicrostepOf(input, rt, st), input, rt, st)
  {
    var previous, request := Previous(st), Request(input);
    var held, pick, microstep, j :=
      HeldOf(input, rt, st), ChoiceOf(input, rt, st), MicrostepOf(input, rt, st), JudgedOf(input, rt, st);
    HoldCost(previous, input, rt, st);
    ChoiceCost(previous, request, held, input, rt, st);
    JudgeCost(pick, microstep, previous, request, held, input, rt, st);
    var exact := ExactSteady(j.torque, microstep, input, rt);
    ExactSteadyCells(j.torque, microstep, input, rt);
    var filled := Filled(j, exact.current, ZeroFallback(input, rt, st, false),
                         CountTransition(CountSteady(j.tally, exact)), microstep, previous, request, input,
                         rt.calibration.value, st);
    assert WithinContract(filled.tally);
    assert Conclude(j, microstep, previous, request, input, rt, st) == Snapshot(input, Published(filled, request));
    assert Run(input, rt, st) == (true, RunAdmitted(input, rt, st));
    ConcludeNonzero(j, microstep, input, rt, st);
  }
}
