/** The steady pack-current evaluators: the widened hull of every calibrated region that an uncertainty box touches. */
module SteadyModel {
  import opened Numeric
  import opened GridCoverage
  import opened Calibration

  const MAX_CELLS_PER_POINT: nat := 4
  const MAX_REGIONS_PER_POINT: nat := 16

  datatype Status = ModelInvalid | ModelOk | OutOfDomain | RegionOverflow | NumericFault | Uncalibrated

  /** One measured operating point and the age of each measurement. */
  datatype OperatingPoint = OperatingPoint(
    speed: real, vdc: real, inverterTemp: real, motorTemp: real,
    speedAgeUs: nat, vdcAgeUs: nat, inverterTempAgeUs: nat, motorTempAgeUs: nat)

  datatype SteadyInput = SteadyInput(torque: real, point: OperatingPoint, microstepMargin: bool)

  datatype SteadyOutput = SteadyOutput(
    status: Status, current: Interval, cells: nat, regions: nat, lowSpeedOrZeroCrossing: bool)

  function Failed(status: Status): SteadyOutput {
    SteadyOutput(status, Interval(0.0, 0.0), 0, 0, false)
  }

  datatype Box = Box(torque: Interval, operating: Domain)

  function Around(x: real, negative: real, positive: real): Interval {
    Interval(x - negative, x + positive)
  }

  /** The speed interval also grows with the age of the sample. */
  function OperatingBox(p: OperatingPoint, cal: Calibration): Domain {
    var ageSeconds := p.speedAgeUs as real / 1000000.0;
    Domain(Around(p.speed,
                  cal.speedNegative + cal.maximumDeceleration * ageSeconds,
                  cal.speedPositive + cal.maximumAcceleration * ageSeconds),
           Around(p.vdc, cal.vdcNegative, cal.vdcPositive),
           Around(p.inverterTemp, cal.inverterTempNegative, cal.inverterTempPositive),
           Around(p.motorTemp, cal.motorTempNegative, cal.motorTempPositive))
  }

  function TorqueInterval(torque: real, cal: Calibration): Interval {
    Around(torque, cal.torqueNegative, cal.torquePositive)
  }

  predicate Fresh(p: OperatingPoint, cal: Calibration) {
    && p.speedAgeUs <= cal.maximumSpeedAgeUs
    && p.vdcAgeUs <= cal.maximumVdcAgeUs
    && p.inverterTempAgeUs <= cal.maximumInverterTempAgeUs
    && p.motorTempAgeUs <= cal.maximumMotorTempAgeUs
  }

  function AxisSpan(cal: Calibration): Interval
    requires |cal.torqueAxis| >= 1
  {
    Interval(cal.torqueAxis[0], cal.torqueAxis[|cal.torqueAxis| - 1])
  }

  predicate OrderedDomain(d: Domain) {
    Ordered(d.speed) && Ordered(d.vdc) && Ordered(d.inverterTemp) && Ordered(d.motorTemp)
  }

  predicate TorqueOnAxis(torque: real, cal: Calibration)
    requires |cal.torqueAxis| >= 1
  {
    Ordered(TorqueInterval(torque, cal)) && Within(TorqueInterval(torque, cal), AxisSpan(cal))
  }

  predicate PointCertified(p: OperatingPoint, cal: Calibration) {
    Fresh(p, cal) && OrderedDomain(OperatingBox(p, cal)) && Includes(cal.certified, OperatingBox(p, cal))
  }

  /** The uncertainty box of an input, if it is fresh and lies in the certified domain and on the torque axis. */
  function BuildBox(torque: real, p: OperatingPoint, cal: Calibration): Option<Box>
    requires |cal.torqueAxis| >= 1
  {
    if PointCertified(p, cal) && TorqueOnAxis(torque, cal) then
      Some(Box(TorqueInterval(torque, cal), OperatingBox(p, cal)))
    else None
  }

  predicate RegionTouched(box: Domain, region: Domain) {
    && Overlap(box.speed, region.speed)
    && Overlap(box.vdc, region.vdc)
    && Overlap(box.inverterTemp, region.inverterTemp)
    && Overlap(box.motorTemp, region.motorTemp)
  }

  // ---------------------------------------------------------------------------------------------
  // Hull accumulation
  // ---------------------------------------------------------------------------------------------

  /** interval_union_in_place: None is the not yet initialised aggregate. */
  function Absorb(hull: Option<Interval>, v: Interval): Option<Interval> {
    match hull
    case None => Some(v)
    case Some(h) => Some(Interval(if v.lo < h.lo then v.lo else h.lo, if v.hi > h.hi then v.hi else h.hi))
  }

  ghost predicate IsHull(h: Interval, s: seq<Interval>) {
    && (forall x :: x in s ==> Within(x, h))
    && (exists x :: x in s && x.lo == h.lo)
    && (exists x :: x in s && x.hi == h.hi)
  }

  function HullOf(s: seq<Interval>): Option<Interval> {
    if s == [] then None else Absorb(HullOf(s[..|s| - 1]), s[|s| - 1])
  }

  lemma {:induction false} HullOfIsHull(s: seq<Interval>)
    requires s != []
    ensures HullOf(s).Some? && IsHull(HullOf(s).value, s)
  {
    var t, v := s[..|s| - 1], s[|s| - 1];
    assert s == t + [v];
    assert forall x :: x in s <==> x in t || x == v;
    if t != [] {
      HullOfIsHull(t);
    } else {
      assert v in s;
    }
  }

  datatype Scan = Scan(hull: Option<Interval>, regions: nat)

  /** One pass over the regions of a cell; None is the region-count overflow. */
  function ScanRegions(regions: seq<SteadyRegion>, from: nat, box: Domain, acc: Scan): Option<Scan>
    requires from <= |regions|
    decreases |regions| - from
  {
    if from == |regions| then Some(acc)
    else if !RegionTouched(box, regions[from].domain) then ScanRegions(regions, from + 1, box, acc)
    else if acc.regions >= MAX_REGIONS_PER_POINT then None
    else ScanRegions(regions, from + 1, box, Scan(Absorb(acc.hull, regions[from].current), acc.regions + 1))
  }

  datatype CellScan = Scanned(scan: Scan) | Stopped(status: Status)

  function ScanCells(cells: seq<nat>, from: nat, box: Domain, cal: Calibration, acc: Scan): CellScan
    requires from <= |cells|
    decreases |cells| - from
  {
    if from == |cells| then Scanned(acc)
    else if cells[from] >= |cal.steadyCells| then Stopped(ModelInvalid)
    else match ScanRegions(cal.steadyCells[cells[from]].regions, 0, box, acc)
         case None => Stopped(RegionOverflow)
         case Some(next) =>
           if next.regions == acc.regions then Stopped(OutOfDomain)
           else ScanCells(cells, from + 1, box, cal, next)
  }

  /** Auxiliary load, numeric margins and, for a microstep, the tracking margin widen the hull outward. */
  function Widened(i: Interval, microstep: bool, cal: Calibration): Interval {
    Interval(i.lo + cal.aux.lo - cal.numericNegative - (if microstep then cal.microstepNegative else 0.0),
             i.hi + cal.aux.hi + cal.numericPositive + (if microstep then cal.microstepPositive else 0.0))
  }

  function EvaluateCells(cells: seq<nat>, input: SteadyInput, cal: Calibration): SteadyOutput
    requires |cal.torqueAxis| >= 1
  {
    match BuildBox(input.torque, input.point, cal)
    case None => Failed(OutOfDomain)
    case Some(box) =>
      match ScanCells(cells, 0, box.operating, cal, Scan(None, 0))
      case Stopped(status) => Failed(status)
      case Scanned(scan) =>
        if scan.hull.None? then Failed(OutOfDomain)
        else
          var current := Widened(scan.hull.value, input.microstepMargin, cal);
          SteadyOutput(if Ordered(current) then ModelOk else NumericFault, current, |cells|, scan.regions,
                       box.operating.speed.lo <= 0.0 <= box.operating.speed.hi)
  }

  /** The indices, in order, of the torque cells that meet an interval. */
  function TouchedCells(cal: Calibration, torque: Interval, upTo: nat): (cells: seq<nat>)
    requires upTo <= |cal.steadyCells|
    ensures forall c :: c in cells <==> 0 <= c < upTo && Overlap(torque, cal.steadyCells[c].torque)
  {
    if upTo == 0 then []
    else
      var before := TouchedCells(cal, torque, upTo - 1);
      if Overlap(torque, cal.steadyCells[upTo - 1].torque) then before + [upTo - 1] else before
  }

  function CellsAt(cal: Calibration, torque: Interval): seq<nat> {
    TouchedCells(cal, torque, |cal.steadyCells|)
  }

  function EvaluateSteady(input: SteadyInput, rt: Runtime): SteadyOutput {
    if !RuntimeValid(rt) then Failed(Uncalibrated)
    else
      var cal := rt.calibration.value;
      match BuildBox(input.torque, input.point, cal)
      case None => Failed(OutOfDomain)
      case Some(box) =>
        var cells := CellsAt(cal, box.torque);
        if |cells| > MAX_CELLS_PER_POINT then Failed(RegionOverflow)
        else if |cells| == 0 then Failed(OutOfDomain)
        else EvaluateCells(cells, input, cal)
  }

  function EvaluateSteadyCell(cell: nat, input: SteadyInput, rt: Runtime): SteadyOutput {
    if !RuntimeValid(rt) then Failed(Uncalibrated)
    else if cell >= |rt.calibration.value.steadyCells| then Failed(OutOfDomain)
    else EvaluateCells([cell], input, rt.calibration.value)
  }

  // ---------------------------------------------------------------------------------------------
  // The evaluator loops
  // ---------------------------------------------------------------------------------------------

  method EvaluateCellsLoop(indices: array<nat>, count: nat, input: SteadyInput, cal: Calibration)
    returns (output: SteadyOutput)
    requires |cal.torqueAxis| >= 1 && count <= indices.Length
    ensures output == EvaluateCells(indices[..count], input, cal)
  {
    ghost var cells := indices[..count];
    var box := BuildBox(input.torque, input.point, cal);
    if box.None? {
      return Failed(OutOfDomain);
    }
    var aggregate: Option<Interval>, regionsEvaluated := None, 0;
    var position := 0;
    while position < count
      invariant 0 <= position <= count
      invariant ScanCells(cells, 0, box.value.operating, cal, Scan(None, 0)) ==
                ScanCells(cells, position, box.value.operating, cal, Scan(aggregate, regionsEvaluated))
    {
      var index := indices[position];
      if index >= |cal.steadyCells| {
        return Failed(ModelInvalid);
      }
      var regions := cal.steadyCells[index].regions;
      var found := false;
      ghost var before := Scan(aggregate, regionsEvaluated);
      var r := 0;
      while r < |regions|
        invariant 0 <= r <= |regions|
        invariant found <==> regionsEvaluated > before.regions
        invariant regionsEvaluated >= before.regions
        invariant ScanRegions(regions, 0, box.value.operating, before) ==
                  ScanRegions(regions, r, box.value.operating, Scan(aggregate, regionsEvaluated))
      {
        if RegionTouched(box.value.operating, regions[r].domain) {
          if regionsEvaluated >= MAX_REGIONS_PER_POINT {
            return Failed(RegionOverflow);
          }
          aggregate := Absorb(aggregate, regions[r].current);
          regionsEvaluated := regionsEvaluated + 1;
          found := true;
        }
        r := r + 1;
      }
      if !found {
        return Failed(OutOfDomain);
      }
      position := position + 1;
    }
    if aggregate.None? {
      return Failed(OutOfDomain);
    }
    var current := Interval(aggregate.value.lo + (cal.aux.lo - cal.numericNegative),
                            aggregate.value.hi + (cal.aux.hi + cal.numericPositive));
    if input.microstepMargin {
      current := Interval(current.lo - cal.microstepNegative, current.hi + cal.microstepPositive);
    }
    var speed := box.value.operating.speed;
    output := SteadyOutput(if Ordered(current) then ModelOk else NumericFault, current, count, regionsEvaluated,
                           speed.lo <= 0.0 <= speed.hi);
  }

  method EvaluateSteadyLoop(input: SteadyInput, rt: Runtime) returns (output: SteadyOutput)
    ensures output == EvaluateSteady(input, rt)
  {
    if !RuntimeValid(rt) {
      return Failed(Uncalibrated);
    }
    var cal := rt.calibration.value;
    var box := BuildBox(input.torque, input.point, cal);
    if box.None? {
      return Failed(OutOfDomain);
    }
    var indices := new nat[MAX_CELLS_PER_POINT];
    var count := 0;
    var index := 0;
    while index < |cal.steadyCells|
      invariant 0 <= index <= |cal.steadyCells| && count <= indices.Length
      invariant indices[..count] == TouchedCells(cal, box.value.torque, index)
    {
      if Overlap(box.value.torque, cal.steadyCells[index].torque) {
        if count >= MAX_CELLS_PER_POINT {
          TouchedCellsGrow(cal, box.value.torque, index + 1, |cal.steadyCells|);
          return Failed(RegionOverflow);
        }
        indices[count] := index;
        count := count + 1;
        assert indices[..count] == indices[..count - 1] + [index];
      }
      index := index + 1;
    }
    if count == 0 {
      return Failed(OutOfDomain);
    }
    output := EvaluateCellsLoop(indices, count, input, cal);
  }

  method EvaluateSteadyCellLoop(cell: nat, input: SteadyInput, rt: Runtime) returns (output: SteadyOutput)
    ensures output == EvaluateSteadyCell(cell, input, rt)
  {
    if !RuntimeValid(rt) {
      return Failed(Uncalibrated);
    }
    if cell >= |rt.calibration.value.steadyCells| {
      return Failed(OutOfDomain);
    }
    var indices := new nat[1];
    indices[0] := cell;
    assert indices[..1] == [cell];
    output := EvaluateCellsLoop(indices, 1, input, rt.calibration.value);
  }

  lemma {:induction false} TouchedCellsGrow(cal: Calibration, torque: Interval, i: nat, j: nat)
    requires i <= j <= |cal.steadyCells|
    ensures |TouchedCells(cal, torque, i)| <= |TouchedCells(cal, torque, j)|
    decreases j
  {
    if i < j {
      TouchedCellsGrow(cal, torque, i, j - 1);
    }
  }

  // ---------------------------------------------------------------------------------------------
  // Exactness of the scans
  // ---------------------------------------------------------------------------------------------

  /** The current intervals of the regions that the box touches. */
  function TouchedIn(regions: seq<SteadyRegion>, from: nat, box: Domain): (touched: seq<Interval>)
    requires from <= |regions|
    ensures |touched| <= |regions| - from
    ensures forall x :: x in touched <==>
        exists r :: from <= r < |regions| && RegionTouched(box, regions[r].domain) && regions[r].current == x
    decreases |regions| - from
  {
    if from == |regions| then []
    else if RegionTouched(box, regions[from].domain) then [regions[from].current] + TouchedIn(regions, from + 1, box)
    else TouchedIn(regions, from + 1, box)
  }

  function TouchedOver(cells: seq<nat>, from: nat, box: Domain, cal: Calibration): seq<Interval>
    requires from <= |cells|
    requires forall i :: 0 <= i < |cells| ==> cells[i] < |cal.steadyCells|
    decreases |cells| - from
  {
    if from == |cells| then []
    else TouchedIn(cal.steadyCells[cells[from]].regions, 0, box) + TouchedOver(cells, from + 1, box, cal)
  }

  ghost predicate InCell(x: Interval, cell: SteadyCell, box: Domain) {
    exists r :: 0 <= r < |cell.regions| && RegionTouched(box, cell.regions[r].domain) && cell.regions[r].current == x
  }

  lemma {:induction false} TouchedOverMembers(cells: seq<nat>, from: nat, box: Domain, cal: Calibration, x: Interval)
    requires from <= |cells|
    requires forall i :: 0 <= i < |cells| ==> cells[i] < |cal.steadyCells|
    ensures x in TouchedOver(cells, from, box, cal) <==>
        exists i :: from <= i < |cells| && InCell(x, cal.steadyCells[cells[i]], box)
    decreases |cells| - from
  {
    if from < |cells| {
      TouchedOverMembers(cells, from + 1, box, cal, x);
      assert x in TouchedIn(cal.steadyCells[cells[from]].regions, 0, box) <==>
          InCell(x, cal.steadyCells[cells[from]], box);
    }
  }

  lemma HullAppend(s: seq<Interval>, x: Interval)
    ensures HullOf(s + [x]) == Absorb(HullOf(s), x)
  {
    assert (s + [x])[..|s|] == s;
  }

  lemma {:induction false} ScanRegionsExact(regions: seq<SteadyRegion>, from: nat, box: Domain, seen: seq<Interval>)
    requires from <= |regions| && |seen| + (|regions| - from) <= MAX_REGIONS_PER_POINT
    ensures var all := seen + TouchedIn(regions, from, box);
            ScanRegions(regions, from, box, Scan(HullOf(seen), |seen|)) == Some(Scan(HullOf(all), |all|))
    decreases |regions| - from
  {
    if from == |regions| {
      assert seen + [] == seen;
    } else if RegionTouched(box, regions[from].domain) {
      var x := regions[from].current;
      HullAppend(seen, x);
      ScanRegionsExact(regions, from + 1, box, seen + [x]);
      assert seen + ([x] + TouchedIn(regions, from + 1, box)) == seen + [x] + TouchedIn(regions, from + 1, box);
    } else {
      ScanRegionsExact(regions, from + 1, box, seen);
    }
  }

  /** Within the region budget the scan of several cells is exactly the hull of everything touched in them. */
  lemma {:induction false} ScanCellsExact(cells: seq<nat>, from: nat, box: Domain, cal: Calibration,
                                          seen: seq<Interval>)
    requires from <= |cells|
    requires forall i :: 0 <= i < |cells| ==> cells[i] < |cal.steadyCells|
    requires forall i :: 0 <= i < |cells| ==> |cal.steadyCells[cells[i]].regions| <= MAX_REGIONS_PER_CELL
    requires forall i :: 0 <= i < |cells| ==> TouchedIn(cal.steadyCells[cells[i]].regions, 0, box) != []
    requires |seen| + MAX_REGIONS_PER_CELL * (|cells| - from) <= MAX_REGIONS_PER_POINT
    ensures var all := seen + TouchedOver(cells, from, box, cal);
            ScanCells(cells, from, box, cal, Scan(HullOf(seen), |seen|)) == Scanned(Scan(HullOf(all), |all|))
    decreases |cells| - from
  {
    if from == |cells| {
      assert seen + [] == seen;
    } else {
      var regions := cal.steadyCells[cells[from]].regions;
      var here := TouchedIn(regions, 0, box);
      ScanRegionsExact(regions, 0, box, seen);
      ScanCellsExact(cells, from + 1, box, cal, seen + here);
      assert seen + (here + TouchedOver(cells, from + 1, box, cal)) ==
          seen + here + TouchedOver(cells, from + 1, box, cal);
    }
  }

  // ---------------------------------------------------------------------------------------------
  // What qualification buys at run time
  // ---------------------------------------------------------------------------------------------

  /** Coverage of the certified domain means that a box inside it touches a region of every cell. */
  lemma BoxTouchesCell(cal: Calibration, box: Domain, c: nat)
    requires Qualified(cal) && c < |cal.steadyCells|
    requires OrderedDomain(box) && Includes(cal.certified, box)
    ensures TouchedIn(cal.steadyCells[c].regions, 0, box) != []
  {
    assert SteadyCellValid(cal, c);
    var regions := cal.steadyCells[c].regions;
    var corner := Point(box.speed.lo, box.vdc.lo, box.inverterTemp.lo, box.motorTemp.lo);
    assert ContainsPoint(cal.certified, corner);
    assert SomeRegionContains(SteadyDomains(regions), corner);
    var r :| 0 <= r < |regions| && ContainsPoint(SteadyDomains(regions)[r], corner);
    assert RegionTouched(box, regions[r].domain);
    assert regions[r].current in TouchedIn(regions, 0, box);
  }

  /** The cells tile the axis, so every torque interval on the axis meets one of them. */
  lemma TorqueTouchesCell(cal: Calibration, torque: Interval)
    requires Qualified(cal) && Ordered(torque) && Within(torque, AxisSpan(cal))
    ensures CellsAt(cal, torque) != []
  {
    var k := FindGridCell(cal.torqueAxis, torque.lo);
    assert SteadyCellValid(cal, k);
    assert k in CellsAt(cal, torque);
  }

  /** Region r of cell c holds a point of the box. */
  predicate Touches(cal: Calibration, box: Box, c: int, r: int) {
    && 0 <= c < |cal.steadyCells| && 0 <= r < |cal.steadyCells[c].regions|
    && Overlap(box.torque, cal.steadyCells[c].torque)
    && RegionTouched(box.operating, cal.steadyCells[c].regions[r].domain)
  }

  function RegionCurrent(cal: Calibration, c: nat, r: nat): Interval
    requires c < |cal.steadyCells| && r < |cal.steadyCells[c].regions|
  {
    cal.steadyCells[c].regions[r].current
  }

  /** The interval is the widened hull of exactly the touched regions. */
  ghost predicate IsWidenedHull(cal: Calibration, box: Box, microstep: bool, current: Interval) {
    && (forall c, r :: Touches(cal, box, c, r) ==> Within(Widened(RegionCurrent(cal, c, r), microstep, cal), current))
    && (exists c, r :: Touches(cal, box, c, r) && Widened(RegionCurrent(cal, c, r), microstep, cal).lo == current.lo)
    && (exists c, r :: Touches(cal, box, c, r) && Widened(RegionCurrent(cal, c, r), microstep, cal).hi == current.hi)
  }

  /** Evaluation over in-range cells of a qualified calibration: never an overflow, never a numeric fault. */
  lemma EvaluateCellsExact(cells: seq<nat>, input: SteadyInput, cal: Calibration)
    requires Qualified(cal) && BuildBox(input.torque, input.point, cal).Some?
    requires 0 < |cells| <= MAX_CELLS_PER_POINT
    requires forall i :: 0 <= i < |cells| ==> cells[i] < |cal.steadyCells|
    ensures var box := BuildBox(input.torque, input.point, cal).value.operating;
            var touched := TouchedOver(cells, 0, box, cal);
            var out := EvaluateCells(cells, input, cal);
            && touched != [] && IsHull(HullOf(touched).value, touched)
            && out.status == ModelOk && out.cells == |cells| && out.regions == |touched|
            && out.current == Widened(HullOf(touched).value, input.microstepMargin, cal)
  {
    var box := BuildBox(input.torque, input.point, cal).value.operating;
    forall i | 0 <= i < |cells|
      ensures |cal.steadyCells[cells[i]].regions| <= MAX_REGIONS_PER_CELL
      ensures TouchedIn(cal.steadyCells[cells[i]].regions, 0, box) != []
    {
      assert SteadyCellValid(cal, cells[i]);
      BoxTouchesCell(cal, box, cells[i]);
    }
    ScanCellsExact(cells, 0, box, cal, []);
    var touched := TouchedOver(cells, 0, box, cal);
    assert [] + touched == touched;
    HullOfIsHull(touched);
    var first := touched[0];
    TouchedOverMembers(cells, 0, box, cal, first);
    var i :| 0 <= i < |cells| && InCell(first, cal.steadyCells[cells[i]], box);
    assert SteadyCellValid(cal, cells[i]);
    assert Ordered(first);
  }

  /** Steady evaluation of a qualified calibration is total and exact: it succeeds exactly when at most four torque
      cells are touched, the only other outcome is the cell overflow, and its result is the widened hull. */
  lemma SteadyTotalAndExact(input: SteadyInput, rt: Runtime)
    requires QualifiedRuntime(rt) && BuildBox(input.torque, input.point, rt.calibration.value).Some?
    ensures var cal := rt.calibration.value;
            var box := BuildBox(input.torque, input.point, cal).value;
            var out := EvaluateSteady(input, rt);
            && (out.status == ModelOk <==> |CellsAt(cal, box.torque)| <= 4)
            && (out.status != ModelOk ==> out.status == RegionOverflow)
            && (out.status == ModelOk ==> IsWidenedHull(cal, box, input.microstepMargin, out.current))
  {
    var cal := rt.calibration.value;
    var box := BuildBox(input.torque, input.point, cal).value;
    var cells := CellsAt(cal, box.torque);
    TorqueTouchesCell(cal, box.torque);
    if |cells| <= MAX_CELLS_PER_POINT {
      assert forall i :: 0 <= i < |cells| ==> cells[i] in cells;
      EvaluateCellsExact(cells, input, cal);
      var touched := TouchedOver(cells, 0, box.operating, cal);
      var hull := HullOf(touched).value;
      forall c, r | Touches(cal, box, c, r)
        ensures Within(Widened(RegionCurrent(cal, c, r), input.microstepMargin, cal), EvaluateSteady(input, rt).current)
      {
        assert c in cells;
        var i :| 0 <= i < |cells| && cells[i] == c;
        var x := RegionCurrent(cal, c, r);
        assert InCell(x, cal.steadyCells[cells[i]], box.operating);
        TouchedOverMembers(cells, 0, box.operating, cal, x);
      }
      var low :| low in touched && low.lo == hull.lo;
      var cl, rl := FindTouched(cells, box, cal, low);
      var high :| high in touched && high.hi == hull.hi;
      var ch, rh := FindTouched(cells, box, cal, high);
    }
  }

  lemma FindTouched(cells: seq<nat>, box: Box, cal: Calibration, x: Interval) returns (c: nat, r: nat)
    requires cells == CellsAt(cal, box.torque)
    requires forall i :: 0 <= i < |cells| ==> cells[i] < |cal.steadyCells|
    requires x in TouchedOver(cells, 0, box.operating, cal)
    ensures Touches(cal, box, c, r) && RegionCurrent(cal, c, r) == x
  {
    TouchedOverMembers(cells, 0, box.operating, cal, x);
    var i :| 0 <= i < |cells| && InCell(x, cal.steadyCells[cells[i]], box.operating);
    c := cells[i];
    assert c in cells;
    r :| 0 <= r < |cal.steadyCells[c].regions| && RegionTouched(box.operating, cal.steadyCells[c].regions[r].domain)
         && cal.steadyCells[c].regions[r].current == x;
  }

  lemma ProductMonotone(a: real, x: real, y: real)
    requires a >= 0.0 && x <= y
    ensures a * x <= a * y
  {
  }

  lemma AgedBoxIsWider(p: OperatingPoint, older: nat, cal: Calibration)
    requires ScalarsValid(cal) && p.speedAgeUs <= older
    ensures var box, wide := OperatingBox(p, cal), OperatingBox(p.(speedAgeUs := older), cal);
            && Ordered(box.speed) && Within(box.speed, wide.speed)
            && wide == box.(speed := wide.speed)
  {
    var s, t := p.speedAgeUs as real / 1000000.0, older as real / 1000000.0;
    assert 0.0 <= s <= t;
    ProductMonotone(cal.maximumAcceleration, s, t);
    ProductMonotone(cal.maximumDeceleration, s, t);
    ProductMonotone(cal.maximumAcceleration, 0.0, s);
    ProductMonotone(cal.maximumDeceleration, 0.0, s);
  }

  /** A larger box over the same torque interval gives an enclosing hull. */
  lemma WiderBoxEncloses(cal: Calibration, box: Box, wide: Box, microstep: bool, current: Interval,
                         wideCurrent: Interval)
    requires wide.torque == box.torque && Includes(wide.operating, box.operating)
    requires IsWidenedHull(cal, box, microstep, current) && IsWidenedHull(cal, wide, microstep, wideCurrent)
    ensures Within(current, wideCurrent)
  {
    var cl, rl :| Touches(cal, box, cl, rl) && Widened(RegionCurrent(cal, cl, rl), microstep, cal).lo == current.lo;
    assert Touches(cal, wide, cl, rl);
    var ch, rh :| Touches(cal, box, ch, rh) && Widened(RegionCurrent(cal, ch, rh), microstep, cal).hi == current.hi;
    assert Touches(cal, wide, ch, rh);
  }

  /** An older but still fresh speed sample never narrows the prediction: if it still evaluates, the newer one does
      too, and its interval lies inside. */
  lemma OlderSpeedNeverNarrows(input: SteadyInput, older: nat, rt: Runtime)
    requires QualifiedRuntime(rt) && input.point.speedAgeUs <= older
    requires EvaluateSteady(input.(point := input.point.(speedAgeUs := older)), rt).status == ModelOk
    ensures EvaluateSteady(input, rt).status == ModelOk
    ensures Within(EvaluateSteady(input, rt).current,
                   EvaluateSteady(input.(point := input.point.(speedAgeUs := older)), rt).current)
  {
    var cal := rt.calibration.value;
    var aged := input.(point := input.point.(speedAgeUs := older));
    AgedBoxIsWider(input.point, older, cal);
    var box := Box(TorqueInterval(input.torque, cal), OperatingBox(input.point, cal));
    var wide := Box(TorqueInterval(input.torque, cal), OperatingBox(aged.point, cal));
    assert BuildBox(aged.torque, aged.point, cal) == Some(wide)
        && BuildBox(input.torque, input.point, cal) == Some(box);
    SteadyTotalAndExact(aged, rt);
    SteadyTotalAndExact(input, rt);
    WiderBoxEncloses(cal, box, wide, input.microstepMargin,
                     EvaluateSteady(input, rt).current, EvaluateSteady(aged, rt).current);
  }
}
