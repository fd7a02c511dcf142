/** The evaluators against the physics they stand for: every true torque, speed, voltage and temperature that the
    calibrated tolerances of a measurement allow. */
module OperatingTruth {
  import opened Numeric
  import opened GridCoverage
  import opened Calibration
  import opened SteadyModel
  import opened TransitionModel

  // ---------------------------------------------------------------------------------------------
  // What may be true when something is measured
  // ---------------------------------------------------------------------------------------------

  /** The torque that a command may really give. */
  predicate TrueTorque(x: real, torque: real, cal: Calibration) {
    torque - cal.torqueNegative <= x <= torque + cal.torquePositive
  }

  /** The speed at this moment: the sample drifts by the certified rates while it ages. */
  predicate TrueSpeed(x: real, p: OperatingPoint, cal: Calibration) {
    var seconds := p.speedAgeUs as real / 1000000.0;
    && p.speed - cal.speedNegative - cal.maximumDeceleration * seconds <= x
    && x <= p.speed + cal.speedPositive + cal.maximumAcceleration * seconds
  }

  /** A true operating point behind the measured one, field by field. */
  predicate TruePoint(q: Point, p: OperatingPoint, cal: Calibration) {
    && TrueSpeed(q.speed, p, cal)
    && p.vdc - cal.vdcNegative <= q.vdc <= p.vdc + cal.vdcPositive
    && p.inverterTemp - cal.inverterTempNegative <= q.inverterTemp <= p.inverterTemp + cal.inverterTempPositive
    && p.motorTemp - cal.motorTempNegative <= q.motorTemp <= p.motorTemp + cal.motorTempPositive
  }

  /** No sample is older than its certified age. */
  predicate AllFresh(p: OperatingPoint, cal: Calibration) {
    && p.speedAgeUs <= cal.maximumSpeedAgeUs && p.vdcAgeUs <= cal.maximumVdcAgeUs
    && p.inverterTempAgeUs <= cal.maximumInverterTempAgeUs && p.motorTempAgeUs <= cal.maximumMotorTempAgeUs
  }

  predicate OnAxis(x: real, cal: Calibration)
    requires |cal.torqueAxis| >= 1
  {
    cal.torqueAxis[0] <= x <= cal.torqueAxis[|cal.torqueAxis| - 1]
  }

  /** Everything that may be true is inside the certified domain. */
  ghost predicate PointInDomain(p: OperatingPoint, cal: Calibration) {
    AllFresh(p, cal) && forall q :: TruePoint(q, p, cal) ==> ContainsPoint(cal.certified, q)
  }

  ghost predicate TorqueInDomain(torque: real, cal: Calibration)
    requires |cal.torqueAxis| >= 1
  {
    forall x :: TrueTorque(x, torque, cal) ==> OnAxis(x, cal)
  }

  function Corner(box: Domain, low: bool): Point {
    if low then Point(box.speed.lo, box.vdc.lo, box.inverterTemp.lo, box.motorTemp.lo)
    else Point(box.speed.hi, box.vdc.hi, box.inverterTemp.hi, box.motorTemp.hi)
  }

  lemma BoxIsTruth(p: OperatingPoint, cal: Calibration)
    requires ScalarsValid(cal)
    ensures OrderedDomain(OperatingBox(p, cal))
    ensures forall q :: ContainsPoint(OperatingBox(p, cal), q) <==> TruePoint(q, p, cal)
  {
    AgedBoxIsWider(p, p.speedAgeUs, cal);
  }

  /** The uncertainty box exists exactly when everything that may be true is certified. */
  lemma BoxExists(torque: real, p: OperatingPoint, cal: Calibration)
    requires ScalarsValid(cal)
    ensures BuildBox(torque, p, cal).Some? <==> PointInDomain(p, cal) && TorqueInDomain(torque, cal)
    ensures BuildBox(torque, p, cal).Some? ==>
              BuildBox(torque, p, cal).value == Box(TorqueInterval(torque, cal), OperatingBox(p, cal))
  {
    BoxIsTruth(p, cal);
    var box := OperatingBox(p, cal);
    if PointInDomain(p, cal) {
      assert TruePoint(Corner(box, true), p, cal) && TruePoint(Corner(box, false), p, cal);
    }
    if TorqueInDomain(torque, cal) {
      assert TrueTorque(torque - cal.torqueNegative, torque, cal);
      assert TrueTorque(torque + cal.torquePositive, torque, cal);
    }
  }

  /** Some true operating point lies in the domain of a region. */
  ghost predicate MayLieIn(d: Domain, p: OperatingPoint, cal: Calibration) {
    exists q :: TruePoint(q, p, cal) && ContainsPoint(d, q)
  }

  lemma TouchedIsTrue(d: Domain, p: OperatingPoint, cal: Calibration)
    requires ScalarsValid(cal) && DomainValid(d)
    ensures RegionTouched(OperatingBox(p, cal), d) <==> MayLieIn(d, p, cal)
  {
    BoxIsTruth(p, cal);
    var box := OperatingBox(p, cal);
    if RegionTouched(box, d) {
      var q := Point(Max(box.speed.lo, d.speed.lo), Max(box.vdc.lo, d.vdc.lo),
                     Max(box.inverterTemp.lo, d.inverterTemp.lo), Max(box.motorTemp.lo, d.motorTemp.lo));
      assert ContainsPoint(box, q) && ContainsPoint(d, q);
    }
  }

  /** Some true torque lies in the cell. */
  ghost predicate MayGive(cell: SteadyCell, torque: real, cal: Calibration) {
    exists x :: TrueTorque(x, torque, cal) && cell.torque.lo <= x <= cell.torque.hi
  }

  lemma OverlapIsTrue(cell: SteadyCell, torque: real, cal: Calibration)
    requires ScalarsValid(cal) && cell.torque.lo < cell.torque.hi
    ensures Overlap(TorqueInterval(torque, cal), cell.torque) <==> MayGive(cell, torque, cal)
  {
    if Overlap(TorqueInterval(torque, cal), cell.torque) {
      var x := Max(torque - cal.torqueNegative, cell.torque.lo);
      assert TrueTorque(x, torque, cal);
    }
  }

  // ---------------------------------------------------------------------------------------------
  // The steady prediction
  // ---------------------------------------------------------------------------------------------

  /** Region r of cell c may be the one in which the motor really works. */
  ghost predicate MayWorkIn(cal: Calibration, torque: real, p: OperatingPoint, c: int, r: int) {
    && 0 <= c < |cal.steadyCells| && 0 <= r < |cal.steadyCells[c].regions|
    && MayGive(cal.steadyCells[c], torque, cal) && MayLieIn(cal.steadyCells[c].regions[r].domain, p, cal)
  }

  /** The pack current that a region allows for: its own, the auxiliary load, the numeric margins and, for a
      microstep, the tracking margins. */
  function LeastCurrent(r: SteadyRegion, microstep: bool, cal: Calibration): real {
    r.current.lo + cal.aux.lo - cal.numericNegative - (if microstep then cal.microstepNegative else 0.0)
  }

  function GreatestCurrent(r: SteadyRegion, microstep: bool, cal: Calibration): real {
    r.current.hi + cal.aux.hi + cal.numericPositive + (if microstep then cal.microstepPositive else 0.0)
  }

  lemma TouchesIsTrue(cal: Calibration, torque: real, p: OperatingPoint, c: int, r: int)
    requires Qualified(cal)
    ensures Touches(cal, Box(TorqueInterval(torque, cal), OperatingBox(p, cal)), c, r) <==>
            MayWorkIn(cal, torque, p, c, r)
  {
    if 0 <= c < |cal.steadyCells| && 0 <= r < |cal.steadyCells[c].regions| {
      assert SteadyCellValid(cal, c) && SteadyRegionValid(cal.steadyCells[c].regions[r]);
      CellNonempty(cal, c);
      OverlapIsTrue(cal.steadyCells[c], torque, cal);
      TouchedIsTrue(cal.steadyCells[c].regions[r].domain, p, cal);
    }
  }

  /** The interval spans the currents of every region in which the motor may work, and no more. */
  ghost predicate IsTrueHull(cal: Calibration, torque: real, p: OperatingPoint, microstep: bool, i: Interval) {
    && (forall c, r :: MayWorkIn(cal, torque, p, c, r) ==>
          && i.lo <= LeastCurrent(cal.steadyCells[c].regions[r], microstep, cal)
          && GreatestCurrent(cal.steadyCells[c].regions[r], microstep, cal) <= i.hi)
    && (exists c, r :: MayWorkIn(cal, torque, p, c, r)
                       && i.lo == LeastCurrent(cal.steadyCells[c].regions[r], microstep, cal))
    && (exists c, r :: MayWorkIn(cal, torque, p, c, r)
                       && i.hi == GreatestCurrent(cal.steadyCells[c].regions[r], microstep, cal))
  }

  lemma HullIsTrue(cal: Calibration, torque: real, p: OperatingPoint, microstep: bool, i: Interval)
    requires Qualified(cal)
    requires IsWidenedHull(cal, Box(TorqueInterval(torque, cal), OperatingBox(p, cal)), microstep, i)
    ensures IsTrueHull(cal, torque, p, microstep, i)
  {
    var box := Box(TorqueInterval(torque, cal), OperatingBox(p, cal));
    forall c, r | MayWorkIn(cal, torque, p, c, r)
      ensures i.lo <= LeastCurrent(cal.steadyCells[c].regions[r], microstep, cal)
      ensures GreatestCurrent(cal.steadyCells[c].regions[r], microstep, cal) <= i.hi
    {
      TouchesIsTrue(cal, torque, p, c, r);
    }
    var cl, rl :| Touches(cal, box, cl, rl) && Widened(RegionCurrent(cal, cl, rl), microstep, cal).lo == i.lo;
    TouchesIsTrue(cal, torque, p, cl, rl);
    var ch, rh :| Touches(cal, box, ch, rh) && Widened(RegionCurrent(cal, ch, rh), microstep, cal).hi == i.hi;
    TouchesIsTrue(cal, torque, p, ch, rh);
  }

  lemma {:induction false} StoppedFails(cells: seq<nat>, from: nat, box: Domain, cal: Calibration, acc: Scan)
    requires from <= |cells|
    ensures var scan := ScanCells(cells, from, box, cal, acc); scan.Stopped? ==> scan.status != ModelOk
    decreases |cells| - from
  {
    if from < |cells| && cells[from] < |cal.steadyCells| {
      var next := ScanRegions(cal.steadyCells[cells[from]].regions, 0, box, acc);
      if next.Some? {
        StoppedFails(cells, from + 1, box, cal, next.value);
      }
    }
  }

  lemma CellsFlag(cells: seq<nat>, input: SteadyInput, cal: Calibration)
    requires |cal.torqueAxis| >= 1 && EvaluateCells(cells, input, cal).status == ModelOk
    ensures var box := OperatingBox(input.point, cal);
            EvaluateCells(cells, input, cal).lowSpeedOrZeroCrossing <==> box.speed.lo <= 0.0 <= box.speed.hi
  {
    StoppedFails(cells, 0, OperatingBox(input.point, cal), cal, Scan(None, 0));
  }

  lemma SpeedMayBeZero(input: SteadyInput, rt: Runtime)
    requires QualifiedRuntime(rt) && EvaluateSteady(input, rt).status == ModelOk
    ensures EvaluateSteady(input, rt).lowSpeedOrZeroCrossing <==> TrueSpeed(0.0, input.point, rt.calibration.value)
  {
    var p, cal := input.point, rt.calibration.value;
    var box := OperatingBox(p, cal);
    BoxIsTruth(p, cal);
    var low := Corner(box, true);
    assert ContainsPoint(box, low);
    assert ContainsPoint(box, low.(speed := 0.0)) <==> TruePoint(low.(speed := 0.0), p, cal);
    assert TruePoint(low, p, cal);
    assert TruePoint(low.(speed := 0.0), p, cal) <==> TrueSpeed(0.0, p, cal);
    assert ContainsPoint(box, low.(speed := 0.0)) <==> box.speed.lo <= 0.0 <= box.speed.hi;
    CellsFlag(CellsAt(cal, TorqueInterval(input.torque, cal)), input, cal);
  }

  /** The steady prediction, in terms of what may be true: out of domain exactly when a sample is too old or
      something that may be true is not certified; otherwise the hull of all regions in which the motor may work,
      unless more than four torque cells may be involved, with a flag exactly when standstill may be true. */
  lemma SteadyIsTrueHull(input: SteadyInput, rt: Runtime)
    requires QualifiedRuntime(rt)
    ensures var cal, out := rt.calibration.value, EvaluateSteady(input, rt);
            && (out.status == OutOfDomain <==> !(PointInDomain(input.point, cal) && TorqueInDomain(input.torque, cal)))
            && out.status in {ModelOk, OutOfDomain, RegionOverflow}
            && (out.status == ModelOk ==>
                  && IsTrueHull(cal, input.torque, input.point, input.microstepMargin, out.current)
                  && (out.lowSpeedOrZeroCrossing <==> TrueSpeed(0.0, input.point, cal)))
  {
    var cal := rt.calibration.value;
    BoxExists(input.torque, input.point, cal);
    if EvaluateSteady(input, rt).status == ModelOk {
      SpeedMayBeZero(input, rt);
    }
    if BuildBox(input.torque, input.point, cal).Some? {
      SteadyTotalAndExact(input, rt);
      if EvaluateSteady(input, rt).status == ModelOk {
        HullIsTrue(cal, input.torque, input.point, input.microstepMargin, EvaluateSteady(input, rt).current);
      }
    }
  }

  /** The overflow is about the cells that may give the torque. */
  lemma OverflowCells(torque: real, cal: Calibration, c: nat)
    requires Qualified(cal) && c < |cal.steadyCells|
    ensures c in CellsAt(cal, TorqueInterval(torque, cal)) <==> MayGive(cal.steadyCells[c], torque, cal)
  {
    CellNonempty(cal, c);
    OverlapIsTrue(cal.steadyCells[c], torque, cal);
  }

  // ---------------------------------------------------------------------------------------------
  // One true state of the motor
  // ---------------------------------------------------------------------------------------------

  /** The motor gives torque x at point q within region r of cell c. */
  predicate WorksIn(cal: Calibration, x: real, q: Point, c: int, r: int) {
    && 0 <= c < |cal.steadyCells| && 0 <= r < |cal.steadyCells[c].regions|
    && cal.steadyCells[c].torque.lo <= x <= cal.steadyCells[c].torque.hi
    && ContainsPoint(cal.steadyCells[c].regions[r].domain, q)
  }

  /** Whatever is true at a certified operating point, some region describes it. */
  lemma SomeRegionDescribes(cal: Calibration, x: real, q: Point) returns (c: nat, r: nat)
    requires Qualified(cal) && OnAxis(x, cal) && ContainsPoint(cal.certified, q)
    ensures WorksIn(cal, x, q, c, r)
  {
    c := FindGridCell(cal.torqueAxis, x);
    assert SteadyCellValid(cal, c);
    var domains := SteadyDomains(cal.steadyCells[c].regions);
    assert SomeRegionContains(domains, q);
    r :| 0 <= r < |domains| && ContainsPoint(domains[r], q);
  }

  // ---------------------------------------------------------------------------------------------
  // The transition envelope
  // ---------------------------------------------------------------------------------------------

  /** Cell c certifies the family for at least this span. */
  predicate Certifies(cal: Calibration, profile: Profile, direction: Direction, span: real, c: int) {
    && 0 <= c < |cal.transitionCells|
    && cal.transitionCells[c].profile == profile && cal.transitionCells[c].direction == direction
    && span <= cal.transitionCells[c].spanMax < FLT_MAX
  }

  /** And no other cell of the family does so with a smaller span. */
  ghost predicate CertifiesBest(cal: Calibration, profile: Profile, direction: Direction, span: real, c: int) {
    && Certifies(cal, profile, direction, span, c)
    && forall d :: Certifies(cal, profile, direction, span, d) ==>
         cal.transitionCells[c].spanMax <= cal.transitionCells[d].spanMax
  }

  ghost predicate FamilyCertified(cal: Calibration, profile: Profile, direction: Direction, span: real) {
    exists c :: Certifies(cal, profile, direction, span, c)
  }

  lemma BestIsSelected(cal: Calibration, profile: Profile, direction: Direction, span: real, c: int)
    requires 0 <= c < |cal.transitionCells| && InFamily(cal.transitionCells[c], profile, direction)
    requires FamilyCertified(cal, profile, direction, span)
    ensures CertifiesBest(cal, profile, direction, span, c) <==>
            cal.transitionCells[c].spanMax == SelectedSpan(cal, profile, direction, span)
  {
    SelectSpanIsLeast(cal, profile, direction, span, 0, FLT_MAX);
    SelectedSpanFound(cal, profile, direction, span);
    var d :| Certifies(cal, profile, direction, span, d);
    assert LargeEnough(cal, profile, direction, span, d);
    var s :| LargeEnough(cal, profile, direction, span, s)
             && cal.transitionCells[s].spanMax == SelectedSpan(cal, profile, direction, span);
    assert Certifies(cal, profile, direction, span, s);
    forall e | Certifies(cal, profile, direction, span, e)
      ensures SelectedSpan(cal, profile, direction, span) <= cal.transitionCells[e].spanMax
    {
      assert LargeEnough(cal, profile, direction, span, e);
    }
  }

  /** Region r of transition cell c may describe the move. */
  ghost predicate MayMoveIn(t: TransitionInput, cal: Calibration, c: int, r: int) {
    && CertifiesBest(cal, t.profile, t.direction, t.maximum - t.minimum, c)
    && 0 <= r < |cal.transitionCells[c].regions| && MayLieIn(cal.transitionCells[c].regions[r].domain, t.point, cal)
  }

  lemma EnvelopeIsTrue(t: TransitionInput, cal: Calibration, x: TransitionRegion)
    requires Qualified(cal) && FamilyCertified(cal, t.profile, t.direction, t.maximum - t.minimum)
    ensures x in Envelope(t, cal) <==> exists c, r :: MayMoveIn(t, cal, c, r) && cal.transitionCells[c].regions[r] == x
  {
    var span, box := t.maximum - t.minimum, OperatingBox(t.point, cal);
    var selected := SelectedSpan(cal, t.profile, t.direction, span);
    TouchedFamilyMembers(cal, t.profile, t.direction, selected, 0, box, x);
    if x in Envelope(t, cal) {
      var c :| 0 <= c && InSpanFamily(cal, t.profile, t.direction, selected, box, c, x);
      BestIsSelected(cal, t.profile, t.direction, span, c);
      var r :| 0 <= r < |cal.transitionCells[c].regions| && cal.transitionCells[c].regions[r] == x;
      RegionMayDescribe(cal, t.point, c, r);
      assert MayMoveIn(t, cal, c, r);
    }
    if c, r :| MayMoveIn(t, cal, c, r) && cal.transitionCells[c].regions[r] == x {
      BestIsSelected(cal, t.profile, t.direction, span, c);
      RegionMayDescribe(cal, t.point, c, r);
      assert InSpanFamily(cal, t.profile, t.direction, selected, box, c, x);
    }
  }

  lemma RegionMayDescribe(cal: Calibration, p: OperatingPoint, c: nat, r: nat)
    requires Qualified(cal) && c < |cal.transitionCells| && r < |cal.transitionCells[c].regions|
    ensures RegionTouched(OperatingBox(p, cal), cal.transitionCells[c].regions[r].domain) <==>
            MayLieIn(cal.transitionCells[c].regions[r].domain, p, cal)
  {
    assert TransitionCellValid(cal, cal.transitionCells[c]);
    assert TransitionRegionValid(cal.transitionCells[c].regions[r]);
    TouchedIsTrue(cal.transitionCells[c].regions[r].domain, p, cal);
  }

  /** The current that a transition region allows for; it already includes the auxiliary load. */
  function LeastMoving(r: TransitionRegion, cal: Calibration): real {
    r.current.lo - cal.numericNegative
  }

  function GreatestMoving(r: TransitionRegion, cal: Calibration): real {
    r.current.hi + cal.numericPositive
  }

  /** The interval and the settling time span every region that may describe the move, and no more. */
  ghost predicate IsTrueEnvelope(t: TransitionInput, cal: Calibration, i: Interval, settlingUs: nat) {
    && (forall c, r :: MayMoveIn(t, cal, c, r) ==>
          && i.lo <= LeastMoving(cal.transitionCells[c].regions[r], cal)
          && GreatestMoving(cal.transitionCells[c].regions[r], cal) <= i.hi
          && cal.transitionCells[c].regions[r].settlingUs <= settlingUs)
    && (exists c, r :: MayMoveIn(t, cal, c, r) && i.lo == LeastMoving(cal.transitionCells[c].regions[r], cal))
    && (exists c, r :: MayMoveIn(t, cal, c, r) && i.hi == GreatestMoving(cal.transitionCells[c].regions[r], cal))
    && (exists c, r :: MayMoveIn(t, cal, c, r) && settlingUs == cal.transitionCells[c].regions[r].settlingUs)
  }

  lemma EnvelopeOfTrueMoves(t: TransitionInput, cal: Calibration, out: TransitionOutput)
    requires Qualified(cal) && FamilyCertified(cal, t.profile, t.direction, t.maximum - t.minimum)
    requires IsWidenedEnvelope(Envelope(t, cal), out, cal)
    ensures IsTrueEnvelope(t, cal, out.current, out.settlingUs)
  {
    var touched := Envelope(t, cal);
    forall c, r | MayMoveIn(t, cal, c, r)
      ensures out.current.lo <= LeastMoving(cal.transitionCells[c].regions[r], cal)
      ensures GreatestMoving(cal.transitionCells[c].regions[r], cal) <= out.current.hi
      ensures cal.transitionCells[c].regions[r].settlingUs <= out.settlingUs
    {
      EnvelopeIsTrue(t, cal, cal.transitionCells[c].regions[r]);
      assert Contributes(cal.transitionCells[c].regions[r], out, cal);
    }
    var low :| low in touched && WidenedEnvelope(low.current, cal).lo == out.current.lo;
    EnvelopeIsTrue(t, cal, low);
    var high :| high in touched && WidenedEnvelope(high.current, cal).hi == out.current.hi;
    EnvelopeIsTrue(t, cal, high);
    var slow :| slow in touched && slow.settlingUs == out.settlingUs;
    EnvelopeIsTrue(t, cal, slow);
  }

  /** The transition prediction, in terms of what may be true: out of domain exactly when something that may be true
      is not certified or no cell of the family certifies the span; otherwise the envelope of the least certified
      span that is large enough, with its longest settling time, unless more than sixteen regions may be involved. */
  lemma TransitionIsTrueEnvelope(t: TransitionInput, rt: Runtime)
    requires QualifiedRuntime(rt) && t.minimum <= t.maximum
    requires !t.profile.InvalidProfile? && !t.direction.InvalidDirection?
    ensures var cal, out := rt.calibration.value, EvaluateTransition(t, rt);
            && (out.status == OutOfDomain <==>
                  || !(PointInDomain(t.point, cal) && TorqueInDomain(t.latestTarget, cal))
                  || !FamilyCertified(cal, t.profile, t.direction, t.maximum - t.minimum))
            && out.status in {ModelOk, OutOfDomain, RegionOverflow}
            && (out.status == ModelOk ==> IsTrueEnvelope(t, cal, out.current, out.settlingUs))
  {
    var cal, span := rt.calibration.value, t.maximum - t.minimum;
    BoxExists(t.latestTarget, t.point, cal);
    FamilyIsCertified(cal, t.profile, t.direction, span);
    if BuildBox(t.latestTarget, t.point, cal).Some? {
      EvaluateByFold(t, rt);
      TransitionTotalAndExact(t, rt);
      if EvaluateTransition(t, rt).status == ModelOk {
        EnvelopeOfTrueMoves(t, cal, EvaluateTransition(t, rt));
      }
    }
  }

  lemma FamilyIsCertified(cal: Calibration, profile: Profile, direction: Direction, span: real)
    ensures FamilyCertified(cal, profile, direction, span) <==> FamilyHasSpan(cal, profile, direction, span)
  {
    if c :| Certifies(cal, profile, direction, span, c) {
      assert LargeEnough(cal, profile, direction, span, c);
    }
    if c :| LargeEnough(cal, profile, direction, span, c) {
      assert Certifies(cal, profile, direction, span, c);
    }
  }

  /** The motor moves at point q within region r of transition cell c. */
  ghost predicate MovesIn(t: TransitionInput, cal: Calibration, q: Point, c: int, r: int) {
    && CertifiesBest(cal, t.profile, t.direction, t.maximum - t.minimum, c)
    && 0 <= r < |cal.transitionCells[c].regions| && ContainsPoint(cal.transitionCells[c].regions[r].domain, q)
  }

  /** Whatever is true at a certified operating point, some region of the family describes the move. */
  lemma SomeRegionDescribesMove(t: TransitionInput, cal: Calibration, q: Point) returns (c: nat, r: nat)
    requires Qualified(cal) && ContainsPoint(cal.certified, q)
    requires FamilyCertified(cal, t.profile, t.direction, t.maximum - t.minimum)
    ensures MovesIn(t, cal, q, c, r)
  {
    var span := t.maximum - t.minimum;
    SelectedSpanFound(cal, t.profile, t.direction, span);
    FamilyIsCertified(cal, t.profile, t.direction, span);
    c :| LargeEnough(cal, t.profile, t.direction, span, c)
         && cal.transitionCells[c].spanMax == SelectedSpan(cal, t.profile, t.direction, span);
    BestIsSelected(cal, t.profile, t.direction, span, c);
    assert TransitionCellValid(cal, cal.transitionCells[c]);
    var domains := TransitionDomains(cal.transitionCells[c].regions);
    assert SomeRegionContains(domains, q);
    r :| 0 <= r < |domains| && ContainsPoint(domains[r], q);
  }

  // ---------------------------------------------------------------------------------------------
  // What boot validation promises every move
  // ---------------------------------------------------------------------------------------------

  /** The families against which moves and zero commands are judged. */
  predicate JudgedFamily(profile: Profile, direction: Direction) {
    || (profile in {SlewLimited, Composed} && direction in {FromZero, SameSignIncrease, SameSignDecrease})
    || (profile.ZeroAssert? && direction.ToZero?) || (profile.UnknownToZero? && direction.ToZero?)
    || (profile.ReversalToZero? && direction.ReversalFirstLeg?)
  }

  function FamilyIndex(profile: Profile, direction: Direction): (f: nat)
    requires JudgedFamily(profile, direction)
    ensures f < |REQUIRED_FAMILIES| && REQUIRED_FAMILIES[f] == (profile, direction)
  {
    if profile.ZeroAssert? then 6
    else if profile.ReversalToZero? then 7
    else if profile.UnknownToZero? then 8
    else
      (if profile.Composed? then 3 else 0) +
      (if direction.FromZero? then 0 else if direction.SameSignIncrease? then 1 else 2)
  }

  /** Every family that a move may be judged against is certified as far as either end of the torque axis is from
      zero. */
  lemma JudgedFamilyIsCertified(cal: Calibration, profile: Profile, direction: Direction) returns (c: nat)
    requires Qualified(cal) && JudgedFamily(profile, direction)
    ensures c < |cal.transitionCells|
    ensures cal.transitionCells[c].profile == profile && cal.transitionCells[c].direction == direction
    ensures var span, last := cal.transitionCells[c].spanMax, |cal.torqueAxis| - 1;
            -span <= cal.torqueAxis[0] <= span && -span <= cal.torqueAxis[last] <= span
  {
    var f := FamilyIndex(profile, direction);
    assert FamilyCoversSpan(cal, REQUIRED_FAMILIES[f], RequiredSpan(cal));
    c :| 0 <= c < |cal.transitionCells|
         && CellCoversSpan(cal.transitionCells[c], REQUIRED_FAMILIES[f], RequiredSpan(cal));
  }
}
