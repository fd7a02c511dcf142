/** The transition evaluator: the envelope of the smallest certified span that contains the commanded bracket. */
module TransitionModel {
  import opened Numeric
  import opened GridCoverage
  import opened Calibration
  import opened SteadyModel

  /** The largest finite single-precision float, which marks "no span selected yet". */
  const FLT_MAX: real := 340282346638528859811704183484516925440.0

  datatype TransitionInput = TransitionInput(
    anchor: real, minimum: real, maximum: real, latestTarget: real,
    point: OperatingPoint, profile: Profile, direction: Direction)

  datatype TransitionOutput = TransitionOutput(status: Status, current: Interval, settlingUs: nat, regions: nat)

  function FailedTransition(status: Status): TransitionOutput {
    TransitionOutput(status, Interval(0.0, 0.0), 0, 0)
  }

  predicate InFamily(cell: TransitionCell, profile: Profile, direction: Direction) {
    cell.profile == profile && cell.direction == direction
  }

  /** The smallest span of the family, among the cells from an index on, that is large enough. */
  function SelectSpan(cal: Calibration, profile: Profile, direction: Direction, span: real, from: nat, best: real): real
    requires from <= |cal.transitionCells|
    decreases |cal.transitionCells| - from
  {
    if from == |cal.transitionCells| then best
    else
      var cell := cal.transitionCells[from];
      SelectSpan(cal, profile, direction, span, from + 1,
                 if InFamily(cell, profile, direction) && span <= cell.spanMax && cell.spanMax < best then cell.spanMax
                 else best)
  }

  function SelectedSpan(cal: Calibration, profile: Profile, direction: Direction, span: real): real {
    SelectSpan(cal, profile, direction, span, 0, FLT_MAX)
  }

  datatype EnvelopeScan = EnvelopeScan(hull: Option<Interval>, settlingUs: nat, regions: nat)

  function AbsorbRegion(acc: EnvelopeScan, r: TransitionRegion): EnvelopeScan {
    EnvelopeScan(Absorb(acc.hull, r.current), if r.settlingUs > acc.settlingUs then r.settlingUs else acc.settlingUs,
                 acc.regions + 1)
  }

  function ScanEnvelopeRegions(regions: seq<TransitionRegion>, from: nat, box: Domain,
                               acc: EnvelopeScan): Option<EnvelopeScan>
    requires from <= |regions|
    decreases |regions| - from
  {
    if from == |regions| then Some(acc)
    else if !RegionTouched(box, regions[from].domain) then ScanEnvelopeRegions(regions, from + 1, box, acc)
    else if acc.regions >= MAX_REGIONS_PER_POINT then None
    else ScanEnvelopeRegions(regions, from + 1, box, AbsorbRegion(acc, regions[from]))
  }

  function ScanEnvelope(cal: Calibration, profile: Profile, direction: Direction, span: real, from: nat, box: Domain,
                        acc: EnvelopeScan): Option<EnvelopeScan>
    requires from <= |cal.transitionCells|
    decreases |cal.transitionCells| - from
  {
    if from == |cal.transitionCells| then Some(acc)
    else
      var cell := cal.transitionCells[from];
      if InFamily(cell, profile, direction) && cell.spanMax == span then
        match ScanEnvelopeRegions(cell.regions, 0, box, acc)
        case None => None
        case Some(next) => ScanEnvelope(cal, profile, direction, span, from + 1, box, next)
      else ScanEnvelope(cal, profile, direction, span, from + 1, box, acc)
  }

  /** The numeric margins widen a transition envelope; it is absolute, so no auxiliary load is added. */
  function WidenedEnvelope(i: Interval, cal: Calibration): Interval {
    Interval(i.lo - cal.numericNegative, i.hi + cal.numericPositive)
  }

  const EMPTY_SCAN := EnvelopeScan(None, 0, 0)

  function EvaluateTransition(input: TransitionInput, rt: Runtime): TransitionOutput {
    if input.profile.InvalidProfile? || input.direction.InvalidDirection? then FailedTransition(ModelInvalid)
    else if !RuntimeValid(rt) then FailedTransition(Uncalibrated)
    else
      var cal := rt.calibration.value;
      match BuildBox(input.latestTarget, input.point, cal)
      case None => FailedTransition(OutOfDomain)
      case Some(box) =>
        var span := input.maximum - input.minimum;
        if span < 0.0 then FailedTransition(NumericFault)
        else
          var selected := SelectedSpan(cal, input.profile, input.direction, span);
          if selected == FLT_MAX then FailedTransition(OutOfDomain)
          else
            match ScanEnvelope(cal, input.profile, input.direction, selected, 0, box.operating, EMPTY_SCAN)
            case None => FailedTransition(RegionOverflow)
            case Some(scan) =>
              if scan.hull.None? then FailedTransition(OutOfDomain)
              else
                var current := WidenedEnvelope(scan.hull.value, cal);
                TransitionOutput(if Ordered(current) then ModelOk else NumericFault, current, scan.settlingUs,
                                 scan.regions)
  }

  method EvaluateTransitionLoop(input: TransitionInput, rt: Runtime) returns (output: TransitionOutput)
    ensures output == EvaluateTransition(input, rt)
  {
    if input.profile.InvalidProfile? || input.direction.InvalidDirection? {
      return FailedTransition(ModelInvalid);
    }
    if !RuntimeValid(rt) {
      return FailedTransition(Uncalibrated);
    }
    var cal := rt.calibration.value;
    var box := BuildBox(input.latestTarget, input.point, cal);
    if box.None? {
      return FailedTransition(OutOfDomain);
    }
    var operating := box.value.operating;
    var span := input.maximum - input.minimum;
    if span < 0.0 {
      return FailedTransition(NumericFault);
    }
    var selected := FLT_MAX;
    var index := 0;
    while index < |cal.transitionCells|
      invariant 0 <= index <= |cal.transitionCells|
      invariant SelectedSpan(cal, input.profile, input.direction, span) ==
                SelectSpan(cal, input.profile, input.direction, span, index, selected)
    {
      var cell := cal.transitionCells[index];
      if InFamily(cell, input.profile, input.direction) && span <= cell.spanMax && cell.spanMax < selected {
        selected := cell.spanMax;
      }
      index := index + 1;
    }
    if selected == FLT_MAX {
      return FailedTransition(OutOfDomain);
    }
    var aggregate: Option<Interval>, settlingUs, regionsEvaluated := None, 0, 0;
    index := 0;
    while index < |cal.transitionCells|
      invariant 0 <= index <= |cal.transitionCells|
      invariant ScanEnvelope(cal, input.profile, input.direction, selected, 0, operating, EMPTY_SCAN) ==
                ScanEnvelope(cal, input.profile, input.direction, selected, index, operating,
                             EnvelopeScan(aggregate, settlingUs, regionsEvaluated))
    {
      var cell := cal.transitionCells[index];
      if InFamily(cell, input.profile, input.direction) && cell.spanMax == selected {
        ghost var before := EnvelopeScan(aggregate, settlingUs, regionsEvaluated);
        var r := 0;
        while r < |cell.regions|
          invariant 0 <= r <= |cell.regions|
          invariant ScanEnvelopeRegions(cell.regions, 0, operating, before) ==
                    ScanEnvelopeRegions(cell.regions, r, operating,
                                        EnvelopeScan(aggregate, settlingUs, regionsEvaluated))
        {
          var region := cell.regions[r];
          if RegionTouched(operating, region.domain) {
            if regionsEvaluated >= MAX_REGIONS_PER_POINT {
              return FailedTransition(RegionOverflow);
            }
            aggregate := Absorb(aggregate, region.current);
            if region.settlingUs > settlingUs {
              settlingUs := region.settlingUs;
            }
            regionsEvaluated := regionsEvaluated + 1;
          }
          r := r + 1;
        }
      }
      index := index + 1;
    }
    if aggregate.None? {
      return FailedTransition(OutOfDomain);
    }
    var current := Interval(aggregate.value.lo - cal.numericNegative, aggregate.value.hi + cal.numericPositive);
    output := TransitionOutput(if Ordered(current) then ModelOk else NumericFault, current, settlingUs,
                               regionsEvaluated);
  }

  // ---------------------------------------------------------------------------------------------
  // Exactness
  // ---------------------------------------------------------------------------------------------

  ghost predicate LargeEnough(cal: Calibration, profile: Profile, direction: Direction, span: real, c: int) {
    && 0 <= c < |cal.transitionCells|
    && InFamily(cal.transitionCells[c], profile, direction)
    && span <= cal.transitionCells[c].spanMax < FLT_MAX
  }

  /** The selected span is the least span of the family that is large enough; without one it stays FLT_MAX. */
  lemma {:induction false} SelectSpanIsLeast(cal: Calibration, profile: Profile, direction: Direction, span: real,
                                             from: nat, best: real)
    requires from <= |cal.transitionCells| && best <= FLT_MAX
    ensures var s := SelectSpan(cal, profile, direction, span, from, best);
            && s <= best
            && (forall c :: from <= c && LargeEnough(cal, profile, direction, span, c) ==>
                s <= cal.transitionCells[c].spanMax)
            && (s == best || exists c ::
                  from <= c && LargeEnough(cal, profile, direction, span, c) && cal.transitionCells[c].spanMax == s)
    decreases |cal.transitionCells| - from
  {
    if from < |cal.transitionCells| {
      var cell := cal.transitionCells[from];
      if InFamily(cell, profile, direction) && span <= cell.spanMax && cell.spanMax < best {
        assert LargeEnough(cal, profile, direction, span, from);
        SelectSpanIsLeast(cal, profile, direction, span, from + 1, cell.spanMax);
      } else {
        SelectSpanIsLeast(cal, profile, direction, span, from + 1, best);
      }
    }
  }

  /** The touched regions of one cell, in order. */
  function TouchedRegions(regions: seq<TransitionRegion>, from: nat, box: Domain): (touched: seq<TransitionRegion>)
    requires from <= |regions|
    ensures forall x :: x in touched <==>
        exists r :: from <= r < |regions| && RegionTouched(box, regions[r].domain) && regions[r] == x
    decreases |regions| - from
  {
    if from == |regions| then []
    else if RegionTouched(box, regions[from].domain) then [regions[from]] + TouchedRegions(regions, from + 1, box)
    else TouchedRegions(regions, from + 1, box)
  }

  /** The touched regions of every cell of the family with exactly this span. */
  function TouchedFamily(cal: Calibration, profile: Profile, direction: Direction, span: real, from: nat,
                         box: Domain): seq<TransitionRegion>
    requires from <= |cal.transitionCells|
    decreases |cal.transitionCells| - from
  {
    if from == |cal.transitionCells| then []
    else
      var cell := cal.transitionCells[from];
      var rest := TouchedFamily(cal, profile, direction, span, from + 1, box);
      if InFamily(cell, profile, direction) && cell.spanMax == span then TouchedRegions(cell.regions, 0, box) + rest
          else rest
  }

  ghost predicate InSpanFamily(cal: Calibration, profile: Profile, direction: Direction, span: real, box: Domain,
                               c: int, x: TransitionRegion) {
    && 0 <= c < |cal.transitionCells|
    && InFamily(cal.transitionCells[c], profile, direction) && cal.transitionCells[c].spanMax == span
    && x in cal.transitionCells[c].regions && RegionTouched(box, x.domain)
  }

  lemma {:induction false} TouchedFamilyMembers(cal: Calibration, profile: Profile, direction: Direction, span: real,
                                                from: nat, box: Domain, x: TransitionRegion)
    requires from <= |cal.transitionCells|
    ensures x in TouchedFamily(cal, profile, direction, span, from, box) <==>
        exists c :: from <= c && InSpanFamily(cal, profile, direction, span, box, c, x)
    decreases |cal.transitionCells| - from
  {
    if from < |cal.transitionCells| {
      TouchedFamilyMembers(cal, profile, direction, span, from + 1, box, x);
      var cell := cal.transitionCells[from];
      assert x in TouchedRegions(cell.regions, 0, box) <==> x in cell.regions && RegionTouched(box, x.domain);
      if x in TouchedFamily(cal, profile, direction, span, from, box)
          && x !in TouchedFamily(cal, profile, direction, span, from + 1, box) {
        assert InSpanFamily(cal, profile, direction, span, box, from, x);
      }
      if InSpanFamily(cal, profile, direction, span, box, from, x) {
        assert x in TouchedFamily(cal, profile, direction, span, from, box);
      }
    }
  }

  function Fold(s: seq<TransitionRegion>): EnvelopeScan {
    if s == [] then EMPTY_SCAN else AbsorbRegion(Fold(s[..|s| - 1]), s[|s| - 1])
  }

  lemma FoldAppend(s: seq<TransitionRegion>, x: TransitionRegion)
    ensures Fold(s + [x]) == AbsorbRegion(Fold(s), x)
  {
    assert (s + [x])[..|s|] == s;
  }

  /** The fold is the hull of the currents and the longest settling time. */
  lemma {:induction false} FoldIsEnvelope(s: seq<TransitionRegion>)
    requires s != []
    ensures var f := Fold(s);
            && f.hull.Some? && f.regions == |s|
            && (forall x :: x in s ==> Within(x.current, f.hull.value) && x.settlingUs <= f.settlingUs)
            && (exists x :: x in s && x.current.lo == f.hull.value.lo)
            && (exists x :: x in s && x.current.hi == f.hull.value.hi)
            && (f.settlingUs == 0 || exists x :: x in s && x.settlingUs == f.settlingUs)
  {
    var t, v := s[..|s| - 1], s[|s| - 1];
    assert s == t + [v];
    assert forall x :: x in s <==> x in t || x == v;
    if t != [] {
      FoldIsEnvelope(t);
    } else {
      assert v in s;
    }
  }

  lemma {:induction false} FoldCounts(s: seq<TransitionRegion>)
    ensures Fold(s).regions == |s|
  {
    if s != [] {
      FoldCounts(s[..|s| - 1]);
    }
  }

  function Bounded(s: seq<TransitionRegion>): Option<EnvelopeScan> {
    if |s| <= MAX_REGIONS_PER_POINT then Some(Fold(s)) else None
  }

  lemma {:induction false} ScanEnvelopeRegionsExact(regions: seq<TransitionRegion>, from: nat, box: Domain,
                                                    seen: seq<TransitionRegion>)
    requires from <= |regions| && |seen| <= MAX_REGIONS_PER_POINT
    ensures ScanEnvelopeRegions(regions, from, box, Fold(seen)) == Bounded(seen + TouchedRegions(regions, from, box))
    decreases |regions| - from
  {
    FoldCounts(seen);
    if from == |regions| {
      assert seen + [] == seen;
    } else if RegionTouched(box, regions[from].domain) {
      var x := regions[from];
      var rest := TouchedRegions(regions, from + 1, box);
      assert seen + ([x] + rest) == seen + [x] + rest;
      if |seen| < MAX_REGIONS_PER_POINT {
        FoldAppend(seen, x);
        ScanEnvelopeRegionsExact(regions, from + 1, box, seen + [x]);
      }
    } else {
      ScanEnvelopeRegionsExact(regions, from + 1, box, seen);
    }
  }

  lemma {:induction false} ScanEnvelopeExact(cal: Calibration, profile: Profile, direction: Direction, span: real,
                                             from: nat, box: Domain, seen: seq<TransitionRegion>)
    requires from <= |cal.transitionCells| && |seen| <= MAX_REGIONS_PER_POINT
    ensures ScanEnvelope(cal, profile, direction, span, from, box, Fold(seen)) ==
            Bounded(seen + TouchedFamily(cal, profile, direction, span, from, box))
    decreases |cal.transitionCells| - from
  {
    if from == |cal.transitionCells| {
      assert seen + [] == seen;
    } else {
      var cell := cal.transitionCells[from];
      if InFamily(cell, profile, direction) && cell.spanMax == span {
        var here := TouchedRegions(cell.regions, 0, box);
        var rest := TouchedFamily(cal, profile, direction, span, from + 1, box);
        ScanEnvelopeRegionsExact(cell.regions, 0, box, seen);
        assert seen + (here + rest) == seen + here + rest;
        if |seen + here| <= MAX_REGIONS_PER_POINT {
          ScanEnvelopeExact(cal, profile, direction, span, from + 1, box, seen + here);
        }
      } else {
        ScanEnvelopeExact(cal, profile, direction, span, from + 1, box, seen);
      }
    }
  }

  /** The regions behind one evaluation. */
  ghost function Envelope(input: TransitionInput, cal: Calibration): seq<TransitionRegion> {
    SpanEnvelope(cal, input.profile, input.direction, input.maximum - input.minimum, OperatingBox(input.point, cal))
  }

  ghost function SpanEnvelope(cal: Calibration, p: Profile, d: Direction, span: real,
                              box: Domain): seq<TransitionRegion> {
    TouchedFamily(cal, p, d, SelectedSpan(cal, p, d, span), 0, box)
  }

  ghost predicate FamilyHasSpan(cal: Calibration, profile: Profile, direction: Direction, span: real) {
    exists c :: LargeEnough(cal, profile, direction, span, c)
  }

  /** The envelope region x widened by the numeric margins is inside the evaluated one. */
  predicate Contributes(x: TransitionRegion, out: TransitionOutput, cal: Calibration) {
    Within(WidenedEnvelope(x.current, cal), out.current) && x.settlingUs <= out.settlingUs
  }

  /** A box of the certified domain touches a region of every transition cell. */
  lemma BoxTouchesTransitionCell(cal: Calibration, box: Domain, c: nat) returns (x: TransitionRegion)
    requires Qualified(cal) && c < |cal.transitionCells|
    requires OrderedDomain(box) && Includes(cal.certified, box)
    ensures x in cal.transitionCells[c].regions && RegionTouched(box, x.domain)
  {
    assert TransitionCellValid(cal, cal.transitionCells[c]);
    var regions := cal.transitionCells[c].regions;
    var corner := Point(box.speed.lo, box.vdc.lo, box.inverterTemp.lo, box.motorTemp.lo);
    assert ContainsPoint(cal.certified, corner);
    assert SomeRegionContains(TransitionDomains(regions), corner);
    var r :| 0 <= r < |regions| && ContainsPoint(TransitionDomains(regions)[r], corner);
    x := regions[r];
  }

  lemma EnvelopeRegionValid(cal: Calibration, profile: Profile, direction: Direction, span: real, box: Domain,
                            x: TransitionRegion) returns (c: nat)
    requires Qualified(cal) && x in TouchedFamily(cal, profile, direction, span, 0, box)
    ensures InSpanFamily(cal, profile, direction, span, box, c, x) && TransitionRegionValid(x)
  {
    TouchedFamilyMembers(cal, profile, direction, span, 0, box, x);
    var i :| 0 <= i && InSpanFamily(cal, profile, direction, span, box, i, x);
    assert TransitionCellValid(cal, cal.transitionCells[i]);
    c := i;
  }

  lemma SelectedSpanFound(cal: Calibration, profile: Profile, direction: Direction, span: real)
    ensures var s := SelectedSpan(cal, profile, direction, span);
            && (s != FLT_MAX <==> FamilyHasSpan(cal, profile, direction, span))
            && (s != FLT_MAX ==>
                  exists c :: LargeEnough(cal, profile, direction, span, c) && cal.transitionCells[c].spanMax == s)
  {
    SelectSpanIsLeast(cal, profile, direction, span, 0, FLT_MAX);
    if c :| LargeEnough(cal, profile, direction, span, c) {
      assert SelectedSpan(cal, profile, direction, span) <= cal.transitionCells[c].spanMax;
    }
  }

  lemma EnvelopeNonempty(cal: Calibration, profile: Profile, direction: Direction, span: real, box: Domain, c: nat)
    requires Qualified(cal) && OrderedDomain(box) && Includes(cal.certified, box)
    requires c < |cal.transitionCells| && InFamily(cal.transitionCells[c], profile, direction)
        && cal.transitionCells[c].spanMax == span
    ensures TouchedFamily(cal, profile, direction, span, 0, box) != []
  {
    var x := BoxTouchesTransitionCell(cal, box, c);
    assert InSpanFamily(cal, profile, direction, span, box, c, x);
    TouchedFamilyMembers(cal, profile, direction, span, 0, box, x);
  }

  /** The evaluation is the fold of the touched regions, up to the region budget. */
  lemma EvaluateByFold(input: TransitionInput, rt: Runtime)
    requires QualifiedRuntime(rt)
    requires !input.profile.InvalidProfile? && !input.direction.InvalidDirection?
    requires BuildBox(input.latestTarget, input.point, rt.calibration.value).Some?
    requires input.minimum <= input.maximum
    ensures var cal := rt.calibration.value;
            var touched := Envelope(input, cal);
            var out := EvaluateTransition(input, rt);
            if !FamilyHasSpan(cal, input.profile, input.direction, input.maximum - input.minimum) then
                out.status == OutOfDomain
            else if |touched| > MAX_REGIONS_PER_POINT then out.status == RegionOverflow
            else
              && touched != [] && Fold(touched).hull.Some?
              && out.current == WidenedEnvelope(Fold(touched).hull.value, cal)
              && out.settlingUs == Fold(touched).settlingUs && out.regions == |touched|
              && (out.status == ModelOk <==> Ordered(out.current))
  {
    var cal := rt.calibration.value;
    var span := input.maximum - input.minimum;
    var box := OperatingBox(input.point, cal);
    var selected := SelectedSpan(cal, input.profile, input.direction, span);
    var touched := Envelope(input, cal);
    SelectedSpanFound(cal, input.profile, input.direction, span);
    if selected != FLT_MAX {
      var c :| LargeEnough(cal, input.profile, input.direction, span, c) && cal.transitionCells[c].spanMax == selected;
      EnvelopeNonempty(cal, input.profile, input.direction, selected, box, c);
      ScanEnvelopeExact(cal, input.profile, input.direction, selected, 0, box, []);
      assert Fold([]) == EMPTY_SCAN && [] + touched == touched;
      FoldIsEnvelope(touched);
    }
  }

  /** Transition evaluation of a qualified calibration succeeds exactly when the family certifies a large enough span
      and at most sixteen regions are touched; its result is the widened hull and the longest settling time. */
  lemma TransitionTotalAndExact(input: TransitionInput, rt: Runtime)
    requires QualifiedRuntime(rt)
    requires !input.profile.InvalidProfile? && !input.direction.InvalidDirection?
    requires BuildBox(input.latestTarget, input.point, rt.calibration.value).Some?
    requires input.minimum <= input.maximum
    ensures var cal := rt.calibration.value;
            var touched := Envelope(input, cal);
            var out := EvaluateTransition(input, rt);
            && (out.status == ModelOk <==>
                  && FamilyHasSpan(cal, input.profile, input.direction, input.maximum - input.minimum)
                  && |touched| <= 16)
            && (out.status == ModelOk ==> out.regions == |touched| && IsWidenedEnvelope(touched, out, cal))
  {
    EvaluateByFold(input, rt);
    var cal := rt.calibration.value;
    var touched := Envelope(input, cal);
    if touched != [] {
      FoldIsEnvelope(touched);
      var span := SelectedSpan(cal, input.profile, input.direction, input.maximum - input.minimum);
      var c := EnvelopeRegionValid(cal, input.profile, input.direction, span, OperatingBox(input.point, cal),
                                   touched[0]);
      assert touched[0] in touched;
    }
  }

  /** The output is the widened hull of the regions, with the longest of their settling times. */
  ghost predicate IsWidenedEnvelope(touched: seq<TransitionRegion>, out: TransitionOutput, cal: Calibration) {
    && (forall x :: x in touched ==> Contributes(x, out, cal))
    && (exists x :: x in touched && WidenedEnvelope(x.current, cal).lo == out.current.lo)
    && (exists x :: x in touched && WidenedEnvelope(x.current, cal).hi == out.current.hi)
    && (exists x :: x in touched && x.settlingUs == out.settlingUs)
  }

  // ---------------------------------------------------------------------------------------------
  // Monotonicity and the static late-zero envelope
  // ---------------------------------------------------------------------------------------------

  lemma LargerSpanSelectsLarger(cal: Calibration, p: Profile, d: Direction, s: real, l: real)
    requires s <= l && FamilyHasSpan(cal, p, d, l)
    ensures SelectedSpan(cal, p, d, s) <= SelectedSpan(cal, p, d, l)
  {
    SelectSpanIsLeast(cal, p, d, s, 0, FLT_MAX);
    SelectedSpanFound(cal, p, d, l);
    var c :| LargeEnough(cal, p, d, l, c) && cal.transitionCells[c].spanMax == SelectedSpan(cal, p, d, l);
    assert LargeEnough(cal, p, d, s, c);
  }

  lemma EnvelopesNest(
    cal: Calibration, p: Profile, d: Direction, box: Domain, s: real, l: real, smallOut: TransitionOutput,
    largeOut: TransitionOutput)
    requires Qualified(cal) && s <= l && FamilyHasSpan(cal, p, d, l)
    requires IsWidenedEnvelope(SpanEnvelope(cal, p, d, s, box), smallOut, cal)
    requires IsWidenedEnvelope(SpanEnvelope(cal, p, d, l, box), largeOut, cal)
    ensures Within(smallOut.current, largeOut.current) && smallOut.settlingUs <= largeOut.settlingUs
  {
    LargerSpanSelectsLarger(cal, p, d, s, l);
    SelectedSpanFound(cal, p, d, l);
    var lc :| LargeEnough(cal, p, d, l, lc) && cal.transitionCells[lc].spanMax == SelectedSpan(cal, p, d, l);
    forall x | x in SpanEnvelope(cal, p, d, s, box)
      ensures Contributes(x, largeOut, cal)
    {
      DominatedInLarger(cal, p, d, box, x, SelectedSpan(cal, p, d, s), SelectedSpan(cal, p, d, l), lc, largeOut);
    }
  }

  /** A successful evaluation had a certified box and a non-negative span, and is exact. */
  lemma SuccessMeans(input: TransitionInput, rt: Runtime)
    requires QualifiedRuntime(rt) && EvaluateTransition(input, rt).status == ModelOk
    ensures var cal := rt.calibration.value;
            && BuildBox(input.latestTarget, input.point, cal).Some? && input.minimum <= input.maximum
            && FamilyHasSpan(cal, input.profile, input.direction, input.maximum - input.minimum)
            && IsWidenedEnvelope(Envelope(input, cal), EvaluateTransition(input, rt), cal)
  {
    assert BuildBox(input.latestTarget, input.point, rt.calibration.value).Some? && input.minimum <= input.maximum;
    TransitionTotalAndExact(input, rt);
  }

  /** At one profile, direction and operating point a larger span gives an enclosing envelope and no shorter settling
      time, whenever both evaluations succeed. */
  lemma LargerSpanDominates(small: TransitionInput, large: TransitionInput, rt: Runtime)
    requires QualifiedRuntime(rt)
    requires small.profile == large.profile && small.direction == large.direction && small.point == large.point
    requires small.maximum - small.minimum <= large.maximum - large.minimum
    requires EvaluateTransition(small, rt).status == ModelOk && EvaluateTransition(large, rt).status == ModelOk
    ensures Within(EvaluateTransition(small, rt).current, EvaluateTransition(large, rt).current)
    ensures EvaluateTransition(small, rt).settlingUs <= EvaluateTransition(large, rt).settlingUs
  {
    SuccessMeans(small, rt);
    SuccessMeans(large, rt);
    EnvelopesNest(rt.calibration.value, small.profile, small.direction, OperatingBox(small.point, rt.calibration.value),
                  small.maximum - small.minimum, large.maximum - large.minimum,
                  EvaluateTransition(small, rt), EvaluateTransition(large, rt));
  }

  lemma DominatedInLarger(
    cal: Calibration, p: Profile, d: Direction, box: Domain, x: TransitionRegion, s: real, l: real, lc: nat,
    out: TransitionOutput)
    requires Qualified(cal) && s <= l
    requires x in TouchedFamily(cal, p, d, s, 0, box)
    requires lc < |cal.transitionCells| && InFamily(cal.transitionCells[lc], p, d)
        && cal.transitionCells[lc].spanMax == l
    requires forall y :: y in TouchedFamily(cal, p, d, l, 0, box) ==> Contributes(y, out, cal)
    ensures Contributes(x, out, cal)
  {
    if s < l {
      var sc := EnvelopeRegionValid(cal, p, d, s, box, x);
      var small, large := cal.transitionCells[sc], cal.transitionCells[lc];
      assert SpanPairMonotone(small, large) && LargerInFamily(small, large);
      var r :| 0 <= r < |small.regions| && small.regions[r] == x;
      assert DominatedAmong(small.regions[r], large.regions);
      var j :| 0 <= j < |large.regions| && FirstMatch(x, large.regions, j) && Dominates(large.regions[j], x);
      var y := large.regions[j];
      assert InSpanFamily(cal, p, d, l, box, lc, y);
      TouchedFamilyMembers(cal, p, d, l, 0, box, y);
      assert Contributes(y, out, cal);
    }
  }

  /** The static late-zero envelope and settling time dominate every successful evaluation of a zero family. */
  lemma LateZeroDominatesEvaluation(input: TransitionInput, rt: Runtime)
    requires QualifiedRuntime(rt) && ZeroFamily(input.profile)
    requires EvaluateTransition(input, rt).status == ModelOk
    ensures Within(EvaluateTransition(input, rt).current, rt.calibration.value.lateZero)
    ensures EvaluateTransition(input, rt).settlingUs <= rt.calibration.value.lateZeroSettlingUs
  {
    var cal := rt.calibration.value;
    var out := EvaluateTransition(input, rt);
    SuccessMeans(input, rt);
    var touched := Envelope(input, cal);
    forall x | x in touched
      ensures LateZeroDominates(cal, x)
    {
      var span := SelectedSpan(cal, input.profile, input.direction, input.maximum - input.minimum);
      var c := EnvelopeRegionValid(cal, input.profile, input.direction, span, OperatingBox(input.point, cal), x);
      assert LateZeroDominatesCell(cal, cal.transitionCells[c]);
    }
  }

  /** A certified family is evaluable for every span the torque axis allows, up to the sixteen-region budget, with one
      exception: the evaluation is out of domain exactly when all large enough cells of the family carry the span value
      that marks "none selected". */
  lemma RequiredFamilyEvaluates(input: TransitionInput, rt: Runtime, f: nat)
    requires QualifiedRuntime(rt) && f < |REQUIRED_FAMILIES|
    requires (input.profile, input.direction) == REQUIRED_FAMILIES[f]
    requires BuildBox(input.latestTarget, input.point, rt.calibration.value).Some?
    requires 0.0 <= input.maximum - input.minimum <= RequiredSpan(rt.calibration.value)
    ensures var cal, span := rt.calibration.value, input.maximum - input.minimum;
            var status := EvaluateTransition(input, rt).status;
            && FamilyCoversSpan(cal, REQUIRED_FAMILIES[f], span)
            && (status.OutOfDomain? <==>
                  forall c :: 0 <= c < |cal.transitionCells| ==>
                    CellCoversSpan(cal.transitionCells[c], REQUIRED_FAMILIES[f], span) ==>
                      cal.transitionCells[c].spanMax >= FLT_MAX)
            && (!status.OutOfDomain? ==>
                  status == if |Envelope(input, cal)| <= 16 then ModelOk else RegionOverflow)
  {
    var cal, span := rt.calibration.value, input.maximum - input.minimum;
    assert FamilyCoversSpan(cal, REQUIRED_FAMILIES[f], RequiredSpan(cal));
    var required := RequiredSpan(cal);
    var i :| 0 <= i < |cal.transitionCells| && CellCoversSpan(cal.transitionCells[i], REQUIRED_FAMILIES[f], required);
    assert CellCoversSpan(cal.transitionCells[i], REQUIRED_FAMILIES[f], span);
    EvaluateByFold(input, rt);
    TransitionTotalAndExact(input, rt);
    forall c | 0 <= c < |cal.transitionCells|
      ensures LargeEnough(cal, input.profile, input.direction, span, c) <==>
              CellCoversSpan(cal.transitionCells[c], REQUIRED_FAMILIES[f], span)
              && cal.transitionCells[c].spanMax < FLT_MAX
    {
    }
  }
}
