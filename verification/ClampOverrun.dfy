/** A step that leaves the execution contract: many narrow torque cells below the request cost two calls each, the
    output becomes the static zero, and its counters read zero. */
module ClampOverrun {
  import opened Numeric
  import opened Calibration
  import opened SteadyModel
  import opened TransitionModel
  import opened TorqueClamp
  import opened ClampRun
  import opened ClampCells
  import opened ClampSafety
  import opened ClampSelection
  import opened ClampCost
  import opened ClampExposure
  import opened ClampGrant
  import opened ClampRuns
  import opened SampleArtifact
  import opened ClampExample

  // ---------------------------------------------------------------------------------------------
  // The artifact
  // ---------------------------------------------------------------------------------------------

  const DRAW := Interval(1.0, 50.0)

  /** One wide cell below 50 Nm, eighteen of 0.1 Nm, one wide cell above 51.8 Nm. */
  function DensePoint(i: nat): real {
    if i == 0 then -1.0 else if i == 20 then 100.0 else 50.0 + (i - 1) as real / 10.0
  }

  function Dense(): (s: Sketch)
    ensures WellFormed(s) && |s.draws| == 20
    ensures forall i :: 0 <= i <= 20 ==> s.axis[i] == DensePoint(i)
    ensures forall i :: 0 <= i < 20 ==> s.draws[i] == DRAW
    ensures s.torqueNegative == s.torquePositive == 0.3 && s.zeroEnter == 0.5 && s.zeroExit == 1.0 && s.span == 100.0
  {
    Sketch(seq(21, i requires 0 <= i => DensePoint(i)), seq(20, _ => DRAW), 0.3, 0.3, 0.5, 1.0, 100.0)
  }

  // ---------------------------------------------------------------------------------------------
  // How many cells a torque meets
  // ---------------------------------------------------------------------------------------------

  /** Cells outside a range do not count. */
  lemma {:induction false} CellsWithin(cal: Calibration, torque: Interval, from: nat, to: nat, upTo: nat)
    requires from <= to && upTo <= |cal.steadyCells|
    requires forall c :: 0 <= c < |cal.steadyCells| && Overlap(torque, cal.steadyCells[c].torque) ==> from <= c < to
    ensures |TouchedCells(cal, torque, upTo)| <=
            if upTo <= from then 0 else if upTo <= to then upTo - from else to - from
  {
    if upTo > 0 {
      CellsWithin(cal, torque, from, to, upTo - 1);
    }
  }

  /** Every cell of a range counts. */
  lemma {:induction false} CellsAtLeast(cal: Calibration, torque: Interval, from: nat, to: nat)
    requires from <= to <= |cal.steadyCells|
    requires forall c :: from <= c < to ==> Overlap(torque, cal.steadyCells[c].torque)
    ensures |TouchedCells(cal, torque, to)| >= to - from
  {
    if from < to {
      CellsAtLeast(cal, torque, from, to - 1);
    }
  }

  lemma TooManyCells(rt: Runtime, torque: real, from: nat, to: nat)
    requires RuntimeValid(rt) && BuildBox(torque, STANDING_STILL, rt.calibration.value).Some?
    requires from + MAX_CELLS_PER_POINT < to <= |rt.calibration.value.steadyCells|
    requires forall c :: from <= c < to ==>
               Overlap(TorqueInterval(torque, rt.calibration.value), rt.calibration.value.steadyCells[c].torque)
    ensures EvaluateSteady(SteadyInput(torque, STANDING_STILL, false), rt) == Failed(RegionOverflow)
  {
    var cal := rt.calibration.value;
    CellsAtLeast(cal, TorqueInterval(torque, cal), from, to);
    TouchedCellsGrow(cal, TorqueInterval(torque, cal), to, |cal.steadyCells|);
  }

  /** Five neighbouring cells are one too many. */
  lemma FiveCellsOverflow(torque: real, first: nat)
    requires TorqueOnAxis(torque, Artifact(Dense())) && first + 5 <= 20
    requires DensePoint(first + 1) >= torque - 0.3 && DensePoint(first + 4) <= torque + 0.3
    ensures EvaluateSteady(SteadyInput(torque, STANDING_STILL, false), Handle(Dense())) == Failed(RegionOverflow)
  {
    var cal := Artifact(Dense());
    ArtifactQualifies(Dense());
    forall c | first <= c < first + 5 ensures Overlap(TorqueInterval(torque, cal), cal.steadyCells[c].torque) {
      assert cal.steadyCells[c].torque == Interval(DensePoint(c), DensePoint(c + 1));
    }
    TooManyCells(Handle(Dense()), torque, first, first + 5);
  }

  /** Only the cells of a range reach the torque. */
  lemma DenseMeets(torque: real, from: nat, to: nat)
    requires TorqueOnAxis(torque, Artifact(Dense())) && from < to <= 20 && to <= from + 4
    requires from == 0 || DensePoint(from) < torque - 0.3
    requires to == 20 || torque + 0.3 < DensePoint(to)
    ensures MeetsFewCells(Dense(), torque)
  {
    var cal := Artifact(Dense());
    forall c | 0 <= c < |cal.steadyCells| && Overlap(TorqueInterval(torque, cal), cal.steadyCells[c].torque)
      ensures from <= c < to
    {
      assert cal.steadyCells[c].torque == Interval(DensePoint(c), DensePoint(c + 1));
    }
    CellsWithin(cal, TorqueInterval(torque, cal), from, to, |cal.steadyCells|);
  }

  lemma DenseSteady(torque: real)
    requires torque == 80.0 || torque == 49.7
    ensures EvaluateSteady(SteadyInput(torque, STANDING_STILL, false), Handle(Dense())).status == ModelOk
    ensures EvaluateSteady(SteadyInput(torque, STANDING_STILL, false), Handle(Dense())).current == DRAW
  {
    if torque == 80.0 {
      DenseMeets(80.0, 19, 20);
    } else {
      DenseMeets(49.7, 0, 2);
    }
    SteadyAt(Dense(), torque, DRAW);
  }

  // ---------------------------------------------------------------------------------------------
  // 80 Nm from rest
  // ---------------------------------------------------------------------------------------------

  lemma DenseWalk(input: ClampInput, rt: Runtime)
    requires input == Ask(80.0, 100.0, true, 1000) && rt == Handle(Dense())
    ensures var p := IncreasePrefix(0.0, 80.0, input, rt, NO_CALLS); p.accepted && p.best == 80.0
  {
    var cal := rt.calibration.value;
    assert Truncate(800.0) == 800;
    ArtifactQualifies(Dense());
    forall c | Crosses(PathOf(0.0, 80.0), c, cal) ensures CellAuthorized(c, input, rt) {
      CellAt(Dense(), c);
    }
    assert cal.steadyCells[19].torque == Interval(DensePoint(19), 100.0);
    assert RequestKept(19, 80.0, cal);
    WalkReaches(0.0, 80.0, input, rt, NO_CALLS, 19);
  }

  lemma DenseAnswer()
    ensures FirstAnswer(Dense(), 80.0, 80.0, DRAW, 100.0, 1000)
  {
    assert Truncate(800.0) == 800;
    DenseMeets(80.0, 19, 20);
    DenseWalk(Ask(80.0, 100.0, true, 1000), Handle(Dense()));
  }

  // ---------------------------------------------------------------------------------------------
  // 51.7 Nm, among the narrow cells
  // ---------------------------------------------------------------------------------------------

  function Descending(): Step {
    Command(51.7, 100.0, false, 20000)
  }

  /** A narrow cell offers its quantised middle, whose uncertainty meets five cells. */
  lemma NarrowOffer(c: nat)
    requires 1 <= c <= 17
    ensures var cal, torque := Artifact(Dense()), 50.0 + (c - 1) as real / 10.0;
            && Quantize(PositiveCandidate(cal.steadyCells[c], cal, 51.7)) == torque
            && ExactSteady(torque, false, Descending().input, Handle(Dense())) == Failed(RegionOverflow)
  {
    var s := Dense();
    var cal, torque := Artifact(s), 50.0 + (c - 1) as real / 10.0;
    assert cal.steadyCells[c].torque == Interval(DensePoint(c), DensePoint(c + 1));
    assert PositiveCandidate(cal.steadyCells[c], cal, 51.7) == torque + 0.05;
    assert Truncate((torque + 0.05) * QUANTA_PER_NM) == 500 + c - 1;
    FiveCellsOverflow(torque, if c == 1 then 0 else c - 2);
  }

  lemma WideOffer()
    ensures var cal := Artifact(Dense()); Quantize(PositiveCandidate(cal.steadyCells[0], cal, 51.7)) == 49.7
  {
    var cal := Artifact(Dense());
    assert cal.steadyCells[0].torque == Interval(-1.0, 50.0);
    assert Truncate(497.0) == 497;
  }

  lemma DenseCell(c: nat)
    requires c <= 17
    ensures var cell := Artifact(Dense()).steadyCells[c];
            cell.torque == Interval(DensePoint(c), DensePoint(c + 1)) && cell.torque.hi > 0.0 && cell.torque.lo < 51.7
    ensures CellAuthorized(c, Descending().input, Handle(Dense()))
  {
    CellAt(Dense(), c);
  }

  /** A narrow cell costs a whole-cell check and an exact check that overflows. */
  lemma NarrowStep(c: nat, tally: Tally)
    requires 1 <= c <= 17
    ensures var input, rt := Descending().input, Handle(Dense());
            ReducePositive(51.7, input, rt, c + 1, tally) ==
            ReducePositive(51.7, input, rt, c, CountSteady(CountCell(tally), Failed(RegionOverflow)))
  {
    DenseCell(c);
    NarrowOffer(c);
  }

  lemma WideStep(tally: Tally)
    ensures var r := ReducePositive(51.7, Descending().input, Handle(Dense()), 1, tally);
            && r.found == Some((49.7, DRAW)) && r.tally.steady == tally.steady + 2
            && r.tally.transition == tally.transition
  {
    DenseCell(0);
    WideOffer();
    DenseSteady(49.7);
  }

  /** The search goes down through all narrow cells below the request. */
  lemma {:induction false} DenseSearch(reverse: nat, tally: Tally)
    requires 1 <= reverse <= 18
    ensures var r := ReducePositive(51.7, Descending().input, Handle(Dense()), reverse, tally);
            && r.found == Some((49.7, DRAW)) && r.tally.steady == tally.steady + 2 * reverse
            && r.tally.transition == tally.transition
  {
    if reverse == 1 {
      WideStep(tally);
    } else {
      NarrowStep(reverse - 1, tally);
      DenseSearch(reverse - 1, CountSteady(CountCell(tally), Failed(RegionOverflow)));
    }
  }

  lemma DenseReduction(tally: Tally)
    ensures var r := ReduceTowardZero(51.7, Descending().input, Handle(Dense()), tally);
            && r.found == Some((49.7, DRAW)) && r.tally.steady == tally.steady + 36
            && r.tally.transition == tally.transition
  {
    var input, rt, cal := Descending().input, Handle(Dense()), Artifact(Dense());
    assert cal.steadyCells[19].torque == Interval(DensePoint(19), 100.0);
    assert cal.steadyCells[18].torque == Interval(DensePoint(18), DensePoint(19));
    assert ReducePositive(51.7, input, rt, 20, tally) == ReducePositive(51.7, input, rt, 19, tally);
    assert ReducePositive(51.7, input, rt, 19, tally) == ReducePositive(51.7, input, rt, 18, tally);
    DenseSearch(18, tally);
  }

  lemma DenseGate(st: State)
    requires Opened(st, 80.0)
    ensures Request(Descending().input) == 51.7 && Previous(st) == 80.0
    ensures Admit(Descending().input, Artifact(Dense()), st).Admitted?
    ensures !TracksMicrostep(80.0, 51.7, Descending().input, st, Artifact(Dense()))
  {
    assert Truncate(517.0) == 517;
  }

  /** The request itself overflows, so the search runs below it. */
  lemma DenseChoice(st: State)
    requires Opened(st, 80.0)
    ensures var pick := ChoiceOf(Descending().input, Handle(Dense()), st);
            pick.Pick? && pick.torque == 49.7 && pick.tally.steady == 38 && pick.tally.transition == 1
  {
    var s, input, rt := Dense(), Descending().input, Handle(Dense());
    DenseGate(st);
    FiveCellsOverflow(51.7, 14);
    var held := HeldOf(input, rt, st);
    var exact := ExactSteady(51.7, false, input, rt);
    DenseReduction(CountSteady(held.tally, exact));
    assert ChoiceOf(input, rt, st) == ChooseDecrease(80.0, 51.7, held, input, rt, st);
  }

  lemma DenseTransition(st: State)
    requires Opened(st, 80.0)
    ensures Movement(st, 80.0, 49.7, false) == (Composed, SameSignDecrease)
    ensures TransitionFor(49.7, Composed, SameSignDecrease, Descending().input, Handle(Dense()), st).status == ModelOk
  {
    assert (Composed, SameSignDecrease) == REQUIRED_FAMILIES[5];
    MovingAt(Dense(), TransitionRequest(49.7, Composed, SameSignDecrease, Descending().input, st), 5);
  }

  lemma DenseJudgement(st: State)
    requires Opened(st, 80.0)
    ensures ChoiceOf(Descending().input, Handle(Dense()), st).Pick?
    ensures !MicrostepOf(Descending().input, Handle(Dense()), st)
    ensures var j := JudgedOf(Descending().input, Handle(Dense()), st);
            j.Judged? && j.torque == 49.7 && j.tally.steady == 38 && j.tally.transition == 2
  {
    var input, rt := Descending().input, Handle(Dense());
    DenseGate(st);
    DenseChoice(st);
    DenseTransition(st);
    var pick, held := ChoiceOf(input, rt, st), HeldOf(input, rt, st);
    assert JudgedOf(input, rt, st) ==
           JudgeMovement(pick, (Composed, SameSignDecrease), 80.0, 51.7, held, input, rt, st);
  }

  /** 39 steady and 3 transition calls are made, the contract allows 32 steady ones, and the counters are gone. */
  lemma DenseOverrun(input: ClampInput, rt: Runtime, st: State)
    requires input == Descending().input && rt == Handle(Dense()) && Opened(st, 80.0)
    ensures Work(input, rt, st).steady == 39 && Work(input, rt, st).transition == 3
    ensures CountersReset(Run(input, rt, st).1)
  {
    DenseGate(st);
    DenseJudgement(st);
    DenseSteady(49.7);
    JudgedWork(input, rt, st);
    ConclusionReports(JudgedOf(input, rt, st), false, 80.0, 51.7, input, rt, st);
  }

  lemma DenseRun(first: Step, second: Step, rt: Runtime)
    requires first == Command(80.0, 100.0, true, 1000) && second == Descending() && rt == Handle(Dense())
    ensures QualifiedRuntime(rt) && Committed(first, rt, INITIAL_STATE) == 80.0
    ensures var st := Next(first, rt, INITIAL_STATE);
            && Work(second.input, rt, st).steady == 39 && Work(second.input, rt, st).transition == 3
            && CountersReset(Run(second.input, rt, st).1)
  {
    DenseAnswer();
    FirstCommand(Dense(), 80.0, 80.0, DRAW, 100.0, 1000);
    FirstCommitOpens(Dense(), 80.0, 80.0, DRAW, 100.0, 1000);
    DenseOverrun(second.input, rt, Next(first, rt, INITIAL_STATE));
  }

  /** In a reachable state a step makes 39 steady calls, more than the contract allows, and publishes zero torque with
      all counters at zero. */
  lemma ContractIsExceeded() returns (rt: Runtime, steps: seq<Step>)
    ensures rt == Handle(Dense()) && QualifiedRuntime(rt)
    ensures steps == [Command(80.0, 100.0, true, 1000), Descending()] && CommitAt(steps, rt, 0) == 80.0
    ensures Work(Descending().input, rt, StateAt(steps, rt, 1)).steady == 39 > 32
    ensures CountersReset(Run(Descending().input, rt, StateAt(steps, rt, 1)).1)
  {
    rt := Handle(Dense());
    steps := [Command(80.0, 100.0, true, 1000), Descending()];
    DenseRun(steps[0], steps[1], rt);
    FirstTwoSteps(steps, rt);
  }
}
