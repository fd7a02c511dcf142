/** Small calibration artifacts, drawn from a sketch: one region per cell, exact sensors, every transition family. They
    qualify, so the theorems are about runs that exist, and concrete runs under them show which claims fail. */
module SampleArtifact {
  import opened Numeric
  import opened GridCoverage
  import opened Calibration
  import opened SteadyModel
  import opened TransitionModel
  import opened TorqueClamp
  import opened ClampRun

  const EVERYWHERE :=
    Domain(Interval(-100.0, 7000.0), Interval(200.0, 600.0), Interval(-20.0, 100.0), Interval(-20.0, 140.0))
  const MOVING_DRAW := Interval(0.0, 60.0)
  const STANDING_STILL := OperatingPoint(0.0, 400.0, 25.0, 25.0, 0, 0, 0, 0)

  /** The torque axis, the current drawn in each of its cells, the torque uncertainty, the zero band
      and the span that every transition family certifies. */
  datatype Sketch = Sketch(
    axis: seq<real>, draws: seq<Interval>, torqueNegative: real, torquePositive: real,
    zeroEnter: real, zeroExit: real, span: real)

  predicate WellFormed(s: Sketch) {
    && 2 <= |s.axis| <= MAX_TORQUE_AXIS_POINTS && |s.draws| == |s.axis| - 1 && AxisIncreasing(s.axis)
    && (forall i :: 0 <= i < |s.draws| ==> Ordered(s.draws[i]))
    && s.torqueNegative >= 0.0 && s.torquePositive >= 0.0 && 0.0 <= s.zeroEnter < s.zeroExit
    && s.span > 0.0 && Abs(s.axis[0]) <= s.span && Abs(s.axis[|s.axis| - 1]) <= s.span
  }

  function FamilyCell(s: Sketch, family: (Profile, Direction)): TransitionCell {
    TransitionCell(family.0, family.1, s.span, [TransitionRegion(EVERYWHERE, MOVING_DRAW, 1000)])
  }

  function FamilyCells(s: Sketch): (cells: seq<TransitionCell>)
    ensures |cells| == |REQUIRED_FAMILIES|
    ensures forall i :: 0 <= i < |cells| ==> cells[i] == FamilyCell(s, REQUIRED_FAMILIES[i])
  {
    seq(|REQUIRED_FAMILIES|, i requires 0 <= i < |REQUIRED_FAMILIES| => FamilyCell(s, REQUIRED_FAMILIES[i]))
  }

  function TorqueCells(s: Sketch): (cells: seq<SteadyCell>)
    requires WellFormed(s)
    ensures |cells| == |s.draws|
    ensures forall i :: 0 <= i < |cells| ==>
              cells[i] == SteadyCell(Interval(s.axis[i], s.axis[i + 1]), [SteadyRegion(EVERYWHERE, s.draws[i])])
  {
    seq(|s.draws|, i requires 0 <= i < |s.draws| =>
      SteadyCell(Interval(s.axis[i], s.axis[i + 1]), [SteadyRegion(EVERYWHERE, s.draws[i])]))
  }

  function Artifact(s: Sketch): Calibration
    requires WellFormed(s)
  {
    Calibration(
      MAGIC, SCHEMA_VERSION, s.axis, TorqueCells(s), FamilyCells(s), EVERYWHERE, Interval(0.0, 0.0), 0.0, 0.0,
      s.torqueNegative, s.torquePositive, 0.0, 0.0, 0.0, 0.0, 0.0, 0.0, 0.0, 0.0, 0.0, 0.0,
      100000, 100000, 100000, 100000, s.zeroEnter, s.zeroExit, 1.0, 0.5, 10.0, 5.0, 2.0, 50000, 3, 0.0, 0.0,
      MOVING_DRAW, 1000, 0.9, 5.0, 5.0, 1.0, true, 1, 1)
  }

  function Handle(s: Sketch): Runtime
    requires WellFormed(s)
  {
    Runtime(Some(Artifact(s)), 1, 1, true)
  }

  lemma FamiliesQualify(s: Sketch)
    requires WellFormed(s)
    ensures var cal := Artifact(s);
            forall i :: 0 <= i < |cal.transitionCells| ==>
              && TransitionCellValid(cal, cal.transitionCells[i]) && LateZeroDominatesCell(cal, cal.transitionCells[i])
              && CellCoversSpan(cal.transitionCells[i], REQUIRED_FAMILIES[i], RequiredSpan(cal))
  {
    var cal := Artifact(s);
    forall i | 0 <= i < |cal.transitionCells|
      ensures && TransitionCellValid(cal, cal.transitionCells[i]) && LateZeroDominatesCell(cal, cal.transitionCells[i])
              && CellCoversSpan(cal.transitionCells[i], REQUIRED_FAMILIES[i], RequiredSpan(cal))
    {
      assert cal.transitionCells[i] == FamilyCell(s, REQUIRED_FAMILIES[i]);
      OneRegionCovers(TransitionDomains(cal.transitionCells[i].regions), EVERYWHERE, 0);
    }
  }

  /** Every sketched artifact passes boot qualification. */
  lemma ArtifactQualifies(s: Sketch)
    requires WellFormed(s)
    ensures QualifiedRuntime(Handle(s))
  {
    var cal := Artifact(s);
    FamiliesQualify(s);
    forall i | 0 <= i < |cal.steadyCells| ensures SteadyCellValid(cal, i) {
      OneRegionCovers(SteadyDomains(cal.steadyCells[i].regions), EVERYWHERE, 0);
    }
    forall f | 0 <= f < |REQUIRED_FAMILIES| ensures FamilyCoversSpan(cal, REQUIRED_FAMILIES[f], RequiredSpan(cal)) {
      assert CellCoversSpan(cal.transitionCells[f], REQUIRED_FAMILIES[f], RequiredSpan(cal));
    }
  }

  // ---------------------------------------------------------------------------------------------
  // What the evaluators answer at standstill
  // ---------------------------------------------------------------------------------------------

  lemma {:induction false} FewCells(cal: Calibration, torque: Interval, upTo: nat)
    requires upTo <= |cal.steadyCells|
    ensures |TouchedCells(cal, torque, upTo)| <= upTo
  {
    if upTo > 0 {
      FewCells(cal, torque, upTo - 1);
    }
  }

  /** The torque is on the axis and meets at most four cells, as it does wherever there are no more. */
  predicate MeetsFewCells(s: Sketch, torque: real)
    requires WellFormed(s)
  {
    var cal := Artifact(s);
    TorqueOnAxis(torque, cal) && |CellsAt(cal, TorqueInterval(torque, cal))| <= MAX_CELLS_PER_POINT
  }

  lemma SmallSketch(s: Sketch, torque: real)
    requires WellFormed(s) && |s.draws| <= MAX_CELLS_PER_POINT && TorqueOnAxis(torque, Artifact(s))
    ensures MeetsFewCells(s, torque)
  {
    var cal := Artifact(s);
    FewCells(cal, TorqueInterval(torque, cal), |cal.steadyCells|);
  }

  /** Where every cell that the torque interval meets draws the same current, that is the steady prediction. */
  lemma SteadyAt(s: Sketch, torque: real, draw: Interval)
    requires WellFormed(s) && MeetsFewCells(s, torque)
    requires forall c :: 0 <= c < |s.draws| ==>
               Overlap(TorqueInterval(torque, Artifact(s)), Interval(s.axis[c], s.axis[c + 1])) ==> s.draws[c] == draw
    ensures EvaluateSteady(SteadyInput(torque, STANDING_STILL, false), Handle(s)).status == ModelOk
    ensures EvaluateSteady(SteadyInput(torque, STANDING_STILL, false), Handle(s)).current == draw
  {
    ArtifactQualifies(s);
    var cal, input := Artifact(s), SteadyInput(torque, STANDING_STILL, false);
    var box := BuildBox(torque, STANDING_STILL, cal).value;
    SteadyTotalAndExact(input, Handle(s));
    forall c, r | Touches(cal, box, c, r) ensures Widened(RegionCurrent(cal, c, r), false, cal) == draw {
      assert cal.steadyCells[c].regions == [SteadyRegion(EVERYWHERE, s.draws[c])];
    }
  }

  /** A torque interval that reaches into a cell with this draw is predicted to reach at least that far. */
  lemma SteadyAtLeast(s: Sketch, torque: real, c: nat)
    requires WellFormed(s) && MeetsFewCells(s, torque) && c < |s.draws|
    requires Overlap(TorqueInterval(torque, Artifact(s)), Interval(s.axis[c], s.axis[c + 1]))
    ensures EvaluateSteady(SteadyInput(torque, STANDING_STILL, false), Handle(s)).status == ModelOk
    ensures Within(s.draws[c], EvaluateSteady(SteadyInput(torque, STANDING_STILL, false), Handle(s)).current)
  {
    ArtifactQualifies(s);
    var cal, input := Artifact(s), SteadyInput(torque, STANDING_STILL, false);
    var box := BuildBox(torque, STANDING_STILL, cal).value;
    SteadyTotalAndExact(input, Handle(s));
    assert Touches(cal, box, c, 0) && RegionCurrent(cal, c, 0) == s.draws[c];
  }

  lemma CellAt(s: Sketch, c: nat)
    requires WellFormed(s) && TorqueOnAxis(0.0, Artifact(s)) && c < |s.draws|
    ensures EvaluateSteadyCell(c, SteadyInput(0.0, STANDING_STILL, false), Handle(s)).status == ModelOk
    ensures EvaluateSteadyCell(c, SteadyInput(0.0, STANDING_STILL, false), Handle(s)).current == s.draws[c]
  {
    ArtifactQualifies(s);
    var cal, input := Artifact(s), SteadyInput(0.0, STANDING_STILL, false);
    EvaluateCellsExact([c], input, cal);
    var touched := TouchedOver([c], 0, OperatingBox(STANDING_STILL, cal), cal);
    forall x | x in touched ensures x == s.draws[c] {
      TouchedOverMembers([c], 0, OperatingBox(STANDING_STILL, cal), cal, x);
    }
  }

  /** With one region per cell, no more regions than cells are touched. */
  lemma {:induction false} SingleRegions(cal: Calibration, p: Profile, d: Direction, span: real, from: nat, box: Domain)
    requires from <= |cal.transitionCells|
    requires forall c :: 0 <= c < |cal.transitionCells| ==> |cal.transitionCells[c].regions| == 1
    ensures |TouchedFamily(cal, p, d, span, from, box)| <= |cal.transitionCells| - from
    decreases |cal.transitionCells| - from
  {
    if from < |cal.transitionCells| {
      SingleRegions(cal, p, d, span, from + 1, box);
      assert |TouchedRegions(cal.transitionCells[from].regions, 0, box)| <= 1;
    }
  }

  lemma FewRegions(s: Sketch, t: TransitionInput)
    requires WellFormed(s)
    ensures |Envelope(t, Artifact(s))| <= MAX_REGIONS_PER_POINT
  {
    var cal := Artifact(s);
    forall c | 0 <= c < |cal.transitionCells| ensures |cal.transitionCells[c].regions| == 1 {
      assert cal.transitionCells[c] == FamilyCell(s, REQUIRED_FAMILIES[c]);
    }
    SingleRegions(cal, t.profile, t.direction, SelectedSpan(cal, t.profile, t.direction, t.maximum - t.minimum), 0,
                  OperatingBox(t.point, cal));
  }

  lemma EnvelopeDraw(s: Sketch, t: TransitionInput, x: TransitionRegion)
    requires WellFormed(s) && x in Envelope(t, Artifact(s))
    ensures x == TransitionRegion(EVERYWHERE, MOVING_DRAW, 1000)
  {
    var cal := Artifact(s);
    var span, box := SelectedSpan(cal, t.profile, t.direction, t.maximum - t.minimum), OperatingBox(t.point, cal);
    TouchedFamilyMembers(cal, t.profile, t.direction, span, 0, box, x);
    var c :| 0 <= c && InSpanFamily(cal, t.profile, t.direction, span, box, c, x);
    assert cal.transitionCells[c] == FamilyCell(s, REQUIRED_FAMILIES[c]);
  }

  /** A command of a required family, standing still, with its target on the axis and a bracket that
      the family certifies. */
  predicate AsksFamily(s: Sketch, t: TransitionInput, f: nat)
    requires WellFormed(s)
  {
    && f < |REQUIRED_FAMILIES| && (t.profile, t.direction) == REQUIRED_FAMILIES[f] && t.point == STANDING_STILL
    && TorqueOnAxis(t.latestTarget, Artifact(s)) && 0.0 <= t.maximum - t.minimum <= RequiredSpan(Artifact(s))
  }

  /** Every family answers with the moving draw. */
  lemma MovingAt(s: Sketch, t: TransitionInput, f: nat)
    requires WellFormed(s) && s.span < FLT_MAX && AsksFamily(s, t, f)
    ensures EvaluateTransition(t, Handle(s)).status == ModelOk
        && EvaluateTransition(t, Handle(s)).current == MOVING_DRAW
  {
    var cal, rt := Artifact(s), Handle(s);
    ArtifactQualifies(s);
    RequiredFamilyEvaluates(t, rt, f);
    FamiliesQualify(s);
    assert cal.transitionCells[f] == FamilyCell(s, REQUIRED_FAMILIES[f]);
    assert CellCoversSpan(cal.transitionCells[f], REQUIRED_FAMILIES[f], t.maximum - t.minimum);
    FewRegions(s, t);
    SuccessMeans(t, rt);
    forall x | x in Envelope(t, cal) ensures x.current == MOVING_DRAW {
      EnvelopeDraw(s, t, x);
    }
  }

  /** A family whose certified span is the largest finite float is never found: the evaluator uses that value for "none
      selected". Boot qualification accepts it. */
  lemma MarkerSpanIsLost(s: Sketch, t: TransitionInput, f: nat)
    requires WellFormed(s) && s.span == FLT_MAX && AsksFamily(s, t, f)
    ensures QualifiedRuntime(Handle(s)) && EvaluateTransition(t, Handle(s)).status == OutOfDomain
  {
    var cal := Artifact(s);
    ArtifactQualifies(s);
    RequiredFamilyEvaluates(t, Handle(s), f);
    forall c | 0 <= c < |cal.transitionCells| ensures cal.transitionCells[c].spanMax == FLT_MAX {
      assert cal.transitionCells[c] == FamilyCell(s, REQUIRED_FAMILIES[c]);
    }
  }
}
