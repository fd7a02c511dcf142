/** Taking on torque: an increase whose cells, exact check and transition are authorised is granted in full. */
module ClampGrant {
  import opened Numeric
  import opened Calibration
  import opened SteadyModel
  import opened TransitionModel
  import opened TorqueClamp
  import opened ClampRun
  import opened ClampCells
  import opened ClampSafety
  import opened ClampSelection
  import opened ClampCost
  import opened ClampExposure

  // ---------------------------------------------------------------------------------------------
  // What a walk costs
  // ---------------------------------------------------------------------------------------------

  /** The second tally has at most so many whole-cell checks more and nothing else. */
  predicate OnlyCellChecks(before: Tally, after: Tally, checks: nat) {
    && after.steady <= before.steady + checks && after.cells - before.cells == after.steady - before.steady
    && after.transition == before.transition && after.refinements == before.refinements
  }

  lemma {:induction false} WalkUpChecks(
    path: Interval, request: real, input: ClampInput, rt: Runtime, index: nat, acc: Prefix)
    requires RuntimeValid(rt) && index <= |rt.calibration.value.steadyCells|
    ensures OnlyCellChecks(acc.tally, PrefixUp(path, request, input, rt, index, acc).tally,
                           |rt.calibration.value.steadyCells| - index)
    decreases |rt.calibration.value.steadyCells| - index
  {
    var cal := rt.calibration.value;
    if index < |cal.steadyCells| {
      var cell := cal.steadyCells[index];
      if !CellPathOverlap(path, cell.torque) {
        WalkUpChecks(path, request, input, rt, index + 1, acc);
      } else if CellAuthorized(index, input, rt) {
        var best := UpwardBest(cal, cell, request);
        var next := Prefix(best, CellSteady(index, input, rt).current, true, CountCell(acc.tally));
        WalkUpChecks(path, request, input, rt, index + 1, next);
      }
    }
  }

  lemma {:induction false} WalkDownChecks(
    path: Interval, request: real, input: ClampInput, rt: Runtime, reverse: nat, acc: Prefix)
    requires RuntimeValid(rt) && reverse <= |rt.calibration.value.steadyCells|
    ensures OnlyCellChecks(acc.tally, PrefixDown(path, request, input, rt, reverse, acc).tally, reverse)
  {
    var cal := rt.calibration.value;
    if reverse > 0 {
      var index := reverse - 1;
      var cell := cal.steadyCells[index];
      if !CellPathOverlap(path, cell.torque) {
        WalkDownChecks(path, request, input, rt, index, acc);
      } else if CellAuthorized(index, input, rt) {
        var best := DownwardBest(cal, cell, request);
        var next := Prefix(best, CellSteady(index, input, rt).current, true, CountCell(acc.tally));
        WalkDownChecks(path, request, input, rt, index, next);
      }
    }
  }

  lemma WalkChecks(previous: real, request: real, input: ClampInput, rt: Runtime, tally: Tally)
    requires RuntimeValid(rt)
    ensures OnlyCellChecks(tally, IncreasePrefix(previous, request, input, rt, tally).tally,
                           |rt.calibration.value.steadyCells|)
  {
    var start := Prefix(previous, NO_CURRENT, false, tally);
    WalkUpChecks(PathOf(previous, request), request, input, rt, 0, start);
    WalkDownChecks(PathOf(previous, request), request, input, rt, |rt.calibration.value.steadyCells|, start);
  }

  // ---------------------------------------------------------------------------------------------
  // The answer of the walk is granted
  // ---------------------------------------------------------------------------------------------

  /** Where the walk from a held torque ends. */
  function WalkOf(input: ClampInput, rt: Runtime, st: State): Prefix
    requires RuntimeValid(rt)
  {
    IncreasePrefix(Previous(st), Request(input), input, rt, HeldOf(input, rt, st).tally)
  }

  predicate WalkMicrostep(input: ClampInput, rt: Runtime, st: State)
    requires RuntimeValid(rt)
  {
    && TracksMicrostep(Previous(st), Request(input), input, st, rt.calibration.value)
    && WalkOf(input, rt, st).best == Request(input)
  }

  /** Past the gates a walk from a feasible torque leads to another torque that the later checks authorise. */
  predicate WalkFeasible(input: ClampInput, rt: Runtime, st: State)
    requires RuntimeValid(rt)
  {
    var best := WalkOf(input, rt, st).best;
    && input.negativeCap <= 0.0 <= input.positiveCap && Admit(input, rt.calibration.value, st).Admitted?
    && GrowsAuthorized(input, rt, st) && best != 0.0
    && SteadyAuthorized(ExactSteady(best, WalkMicrostep(input, rt, st), input, rt), input)
  }

  lemma WalkChosen(input: ClampInput, rt: Runtime, st: State)
    requires RuntimeValid(rt) && WalkFeasible(input, rt, st)
    ensures ChoiceOf(input, rt, st).Pick? && MicrostepOf(input, rt, st) == WalkMicrostep(input, rt, st)
    ensures var pick, walk := ChoiceOf(input, rt, st), WalkOf(input, rt, st);
            pick.torque == walk.best && pick.tally == walk.tally && pick.reason.NoReason?
  {
    assert ChoiceOf(input, rt, st) ==
           ChooseIncrease(Previous(st), Request(input), HeldOf(input, rt, st), input, rt);
  }

  /** The judgement keeps the answer and adds at most one transition call. */
  lemma WalkJudged(input: ClampInput, rt: Runtime, st: State)
    requires RuntimeValid(rt) && WalkFeasible(input, rt, st)
    ensures ChoiceOf(input, rt, st).Pick?
    ensures var j, walk, microstep := JudgedOf(input, rt, st), WalkOf(input, rt, st), WalkMicrostep(input, rt, st);
            && j.Judged? && j.torque == walk.best && j.reason.NoReason?
            && (j.tally == walk.tally || j.tally == CountTransition(walk.tally))
            && (!microstep ==>
                  j.valid && IntervalAuthorized(j.transition, input.limits)
                  && (j.profile, j.direction) == Movement(st, Previous(st), walk.best, false))
  {
    WalkChosen(input, rt, st);
    var previous, request, held := Previous(st), Request(input), HeldOf(input, rt, st);
    var pick := ChoiceOf(input, rt, st);
    if !MicrostepOf(input, rt, st) {
      var movement := Movement(st, previous, pick.torque, false);
      assert JudgedOf(input, rt, st) == JudgeMovement(pick, movement, previous, request, held, input, rt, st);
    }
  }

  /** Whatever the number of torque cells, a feasible walk stays inside the execution contract. */
  lemma WalkWithinContract(input: ClampInput, rt: Runtime, st: State)
    requires RuntimeValid(rt) && WalkFeasible(input, rt, st)
    ensures var walk := WalkOf(input, rt, st);
            var exact := ExactSteady(walk.best, WalkMicrostep(input, rt, st), input, rt);
            WithinContract(CountTransition(CountSteady(CountTransition(walk.tally), exact)))
  {
    var previous := Previous(st);
    HoldCost(previous, input, rt, st);
    WalkChecks(previous, Request(input), input, rt, HeldOf(input, rt, st).tally);
    ExactSteadyCells(WalkOf(input, rt, st).best, WalkMicrostep(input, rt, st), input, rt);
  }

  /** A feasible walk is selected as it is, for every number of torque cells, and unless it is a microstep with its
      transition authorised. */
  lemma WalkIsGranted(input: ClampInput, rt: Runtime, st: State)
    requires RuntimeValid(rt) && WalkFeasible(input, rt, st)
    ensures Run(input, rt, st).0
    ensures ChoiceOf(input, rt, st).Pick? && JudgedOf(input, rt, st).Judged?
    ensures var out, walk, microstep := Run(input, rt, st).1, WalkOf(input, rt, st), WalkMicrostep(input, rt, st);
            && IsNonzeroOutput(out, JudgedOf(input, rt, st), microstep, input, rt, st)
            && out.selected == walk.best
            && (walk.best == Request(input) ==> out.reason.NoReason?)
            && (!microstep ==>
                  out.transitionValid && IntervalAuthorized(out.transition, input.limits)
                  && (out.profile, out.direction) == Movement(st, Previous(st), walk.best, false))
  {
    WalkChosen(input, rt, st);
    WalkJudged(input, rt, st);
    WalkWithinContract(input, rt, st);
    var previous, request := Previous(st), Request(input);
    var microstep, j := MicrostepOf(input, rt, st), JudgedOf(input, rt, st);
    var exact := ExactSteady(j.torque, microstep, input, rt);
    var made := CountTransition(CountSteady(j.tally, exact));
    var filled := Filled(j, exact.current, ZeroFallback(input, rt, st, false), made, microstep,
                         previous, request, input, rt.calibration.value, st);
    assert WithinContract(filled.tally);
    assert Conclude(j, microstep, previous, request, input, rt, st) == Snapshot(input, Published(filled, request));
    assert Run(input, rt, st) == (true, RunAdmitted(input, rt, st));
    ConcludeNonzero(j, microstep, input, rt, st);
  }

  // ---------------------------------------------------------------------------------------------
  // The request itself is granted
  // ---------------------------------------------------------------------------------------------

  /** The request lies in cell c within its guard bands. */
  predicate RequestKept(c: int, request: real, cal: Calibration) {
    && 0 <= c < |cal.steadyCells|
    && Holds(cal.steadyCells[c], request) && GuardsKeep(cal.steadyCells[c], cal, request)
  }

  /** Where all crossed cells are authorised, the walk reaches the cell of the request. */
  lemma WalkReaches(previous: real, request: real, input: ClampInput, rt: Runtime, tally: Tally, c: int)
    requires QualifiedRuntime(rt) && SameSign(previous, request) && Increasing(previous, request)
    requires IsQuantum(request) && RequestKept(c, request, rt.calibration.value)
    requires CrossedAuthorized(PathOf(previous, request), input, rt)
    ensures var p := IncreasePrefix(previous, request, input, rt, tally); p.accepted && p.best == request
  {
    var cal := rt.calibration.value;
    var path, start := PathOf(previous, request), Prefix(previous, NO_CURRENT, false, tally);
    var end: int;
    assert Crosses(path, c, cal);
    if request > previous {
      end := WalkUpEnds(path, request, input, rt, 0, start, -1);
      assert NoneCrossed(path, end, |cal.steadyCells|, cal);
      if c < end {
        CellsInOrder(cal, c, end);
      }
    } else {
      end := WalkDownEnds(path, request, input, rt, |cal.steadyCells|, start, |cal.steadyCells|);
      assert NoneCrossed(path, -1, end, cal);
      if end < c {
        CellsInOrder(cal, end, c);
      }
    }
    assert end == c;
    CellNonempty(cal, c);
    GuardsKeepExact(cal.steadyCells[c], cal, request);
  }

  /** A growing request that passes the gates, from a feasible torque. */
  predicate AsksIncrease(input: ClampInput, rt: Runtime, st: State)
    requires RuntimeValid(rt)
  {
    && input.negativeCap <= 0.0 <= input.positiveCap && Admit(input, rt.calibration.value, st).Admitted?
    && SameSign(Previous(st), Request(input)) && Increasing(Previous(st), Request(input))
    && HeldOf(input, rt, st).Feasible()
  }

  /** Every cell on the way, the exact check of the request and, unless it is a microstep, its transition are
      authorised, and its own cell keeps it. */
  ghost predicate IncreaseFeasible(input: ClampInput, rt: Runtime, st: State)
    requires RuntimeValid(rt)
  {
    var previous, request, cal := Previous(st), Request(input), rt.calibration.value;
    var movement := Movement(st, previous, request, false);
    && CrossedAuthorized(PathOf(previous, request), input, rt)
    && (exists c :: RequestKept(c, request, cal))
    && SteadyAuthorized(ExactSteady(request, TracksMicrostep(previous, request, input, st, cal), input, rt), input)
    && (TracksMicrostep(previous, request, input, st, cal)
        || TransitionAuthorized(TransitionFor(request, movement.0, movement.1, input, rt, st), input))
  }

  /** A feasible increase is selected exactly as requested, for every number of torque cells, with no reason to report,
      and unless it is a microstep with its transition authorised. */
  lemma IncreaseIsGranted(input: ClampInput, rt: Runtime, st: State)
    requires QualifiedRuntime(rt) && AsksIncrease(input, rt, st) && IncreaseFeasible(input, rt, st)
    ensures Run(input, rt, st).0
    ensures var out := Run(input, rt, st).1;
            && out.outputValid && out.selected == Request(input) && out.reason.NoReason?
            && (out.microstep || (out.transitionValid && IntervalAuthorized(out.transition, input.limits)))
  {
    var previous, request, cal := Previous(st), Request(input), rt.calibration.value;
    AdmittedRequest(input, rt, st);
    var c :| RequestKept(c, request, cal);
    WalkReaches(previous, request, input, rt, HeldOf(input, rt, st).tally, c);
    assert WalkOf(input, rt, st).best == request;
    WalkIsGranted(input, rt, st);
  }
}
