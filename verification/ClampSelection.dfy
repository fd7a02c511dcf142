/** Which torque a run may select: its sign, its magnitude and the cells it crosses. */
module ClampSelection {
  import opened Numeric
  import opened Calibration
  import opened SteadyModel
  import opened TransitionModel
  import opened TorqueClamp
  import opened ClampRun
  import opened ClampCells
  import opened ClampSafety

  // ---------------------------------------------------------------------------------------------
  // Where an accepted walk ends
  // ---------------------------------------------------------------------------------------------

  /** The path crosses a positive length of cell c. */
  predicate Crosses(path: Interval, c: int, cal: Calibration) {
    0 <= c < |cal.steadyCells| && CellPathOverlap(path, cal.steadyCells[c].torque)
  }

  ghost predicate CrossedAuthorized(path: Interval, input: ClampInput, rt: Runtime)
    requires RuntimeValid(rt)
  {
    forall c :: Crosses(path, c, rt.calibration.value) ==> CellAuthorized(c, input, rt)
  }

  ghost predicate AuthorizedBelow(path: Interval, limit: int, input: ClampInput, rt: Runtime)
    requires RuntimeValid(rt)
  {
    forall c :: Crosses(path, c, rt.calibration.value) && c < limit ==> CellAuthorized(c, input, rt)
  }

  ghost predicate AuthorizedFrom(path: Interval, limit: int, input: ClampInput, rt: Runtime)
    requires RuntimeValid(rt)
  {
    forall c :: Crosses(path, c, rt.calibration.value) && limit <= c ==> CellAuthorized(c, input, rt)
  }

  /** Nothing is crossed strictly between two cells. */
  ghost predicate NoneCrossed(path: Interval, low: int, high: int, cal: Calibration) {
    forall c :: Crosses(path, c, cal) ==> c <= low || c >= high
  }

  /** The walk cannot go on above cell c: no crossed cell is left, or the next one is not authorised. */
  ghost predicate StopsAbove(path: Interval, c: int, input: ClampInput, rt: Runtime)
    requires RuntimeValid(rt)
  {
    var cal := rt.calibration.value;
    || NoneCrossed(path, c, |cal.steadyCells|, cal)
    || exists b :: c < b && Crosses(path, b, cal) && !CellAuthorized(b, input, rt) && NoneCrossed(path, c, b, cal)
  }

  ghost predicate StopsBelow(path: Interval, c: int, input: ClampInput, rt: Runtime)
    requires RuntimeValid(rt)
  {
    var cal := rt.calibration.value;
    || NoneCrossed(path, -1, c, cal)
    || exists b :: b < c && Crosses(path, b, cal) && !CellAuthorized(b, input, rt) && NoneCrossed(path, b, c, cal)
  }

  /** The walk so far: its best torque is what the last crossed cell offers, and nothing was crossed
      before if nothing was accepted. */
  ghost predicate WalkedUp(acc: Prefix, path: Interval, request: real, last: int, index: int, cal: Calibration) {
    && -1 <= last < index && NoneCrossed(path, last, index, cal)
    && (acc.accepted <==> last >= 0)
    && (acc.accepted ==> Crosses(path, last, cal) && acc.best == UpwardBest(cal, cal.steadyCells[last], request))
  }

  ghost predicate WalkedDown(acc: Prefix, path: Interval, request: real, last: int, reverse: int, cal: Calibration) {
    && reverse <= last <= |cal.steadyCells| && NoneCrossed(path, reverse - 1, last, cal)
    && (acc.accepted <==> last < |cal.steadyCells|)
    && (acc.accepted ==> Crosses(path, last, cal) && acc.best == DownwardBest(cal, cal.steadyCells[last], request))
  }

  lemma {:induction false} WalkUpEnds(
    path: Interval, request: real, input: ClampInput, rt: Runtime, index: nat, acc: Prefix, last: int)
    returns (end: int)
    requires RuntimeValid(rt) && index <= |rt.calibration.value.steadyCells|
    requires WalkedUp(acc, path, request, last, index, rt.calibration.value)
    requires AuthorizedBelow(path, index, input, rt)
    ensures var p, cal := PrefixUp(path, request, input, rt, index, acc), rt.calibration.value;
            && WalkedUp(p, path, request, end, end + 1, cal)
            && AuthorizedBelow(path, end + 1, input, rt) && StopsAbove(path, end, input, rt)
    decreases |rt.calibration.value.steadyCells| - index
  {
    var cal := rt.calibration.value;
    end := last;
    if index < |cal.steadyCells| {
      var cell := cal.steadyCells[index];
      if !CellPathOverlap(path, cell.torque) {
        end := WalkUpEnds(path, request, input, rt, index + 1, acc, last);
      } else if CellAuthorized(index, input, rt) {
        var best := UpwardBest(cal, cell, request);
        var next := Prefix(best, CellSteady(index, input, rt).current, true, CountCell(acc.tally));
        end := WalkUpEnds(path, request, input, rt, index + 1, next, index);
      } else {
        assert Crosses(path, index, cal) && NoneCrossed(path, last, index, cal);
      }
    }
  }

  lemma {:induction false} WalkDownEnds(
    path: Interval, request: real, input: ClampInput, rt: Runtime, reverse: nat, acc: Prefix, last: int)
    returns (end: int)
    requires RuntimeValid(rt) && reverse <= |rt.calibration.value.steadyCells|
    requires WalkedDown(acc, path, request, last, reverse, rt.calibration.value)
    requires AuthorizedFrom(path, reverse, input, rt)
    ensures var p, cal := PrefixDown(path, request, input, rt, reverse, acc), rt.calibration.value;
            && WalkedDown(p, path, request, end, end, cal)
            && AuthorizedFrom(path, end, input, rt) && StopsBelow(path, end, input, rt)
  {
    var cal := rt.calibration.value;
    end := last;
    if reverse > 0 {
      var index := reverse - 1;
      var cell := cal.steadyCells[index];
      if !CellPathOverlap(path, cell.torque) {
        end := WalkDownEnds(path, request, input, rt, index, acc, last);
      } else if CellAuthorized(index, input, rt) {
        var best := DownwardBest(cal, cell, request);
        var next := Prefix(best, CellSteady(index, input, rt).current, true, CountCell(acc.tally));
        end := WalkDownEnds(path, request, input, rt, index, next, index);
      } else {
        assert Crosses(path, index, cal) && NoneCrossed(path, index, last, cal);
      }
    }
  }

  /** The walk from the previous torque ended in this cell: all cells crossed up to it are
      authorised, no further one is. */
  ghost predicate EndsIn(c: int, previous: real, request: real, input: ClampInput, rt: Runtime)
    requires RuntimeValid(rt)
  {
    var path := PathOf(previous, request);
    && Crosses(path, c, rt.calibration.value)
    && if request > previous then AuthorizedBelow(path, c + 1, input, rt) && StopsAbove(path, c, input, rt)
       else AuthorizedFrom(path, c, input, rt) && StopsBelow(path, c, input, rt)
  }

  /** An accepted prefix increase is the offer of the last authorised cell on the way. */
  lemma PrefixEndsInCell(previous: real, request: real, input: ClampInput, rt: Runtime, tally: Tally) returns (c: int)
    requires QualifiedRuntime(rt) && SameSign(previous, request) && Increasing(previous, request)
    requires IncreasePrefix(previous, request, input, rt, tally).accepted
    ensures var cal := rt.calibration.value;
            && EndsIn(c, previous, request, input, rt)
            && Serves(cal.steadyCells[c], request)
            && IncreasePrefix(previous, request, input, rt, tally).best == Offer(cal.steadyCells[c], cal, request)
  {
    var cal := rt.calibration.value;
    var path, start := PathOf(previous, request), Prefix(previous, NO_CURRENT, false, tally);
    if request > previous {
      c := WalkUpEnds(path, request, input, rt, 0, start, -1);
    } else {
      c := WalkDownEnds(path, request, input, rt, |cal.steadyCells|, start, |cal.steadyCells|);
    }
    CellNonempty(cal, c);
  }

  // ---------------------------------------------------------------------------------------------
  // Where a reduction comes from
  // ---------------------------------------------------------------------------------------------

  /** Where the torque that the downward search returns comes from. */
  lemma {:induction false} ReducePositiveFound(
    request: real, input: ClampInput, rt: Runtime, reverse: nat, tally: Tally) returns (found: nat)
    requires RuntimeValid(rt) && reverse <= |rt.calibration.value.steadyCells|
    requires ReducePositive(request, input, rt, reverse, tally).found.Some?
    ensures found < |rt.calibration.value.steadyCells|
    ensures var cal := rt.calibration.value;
            var cell := cal.steadyCells[found];
            && cell.torque.hi > 0.0 && cell.torque.lo < request && CellAuthorized(found, input, rt)
            && SearchReturns(ReducePositive(request, input, rt, reverse, tally).found,
                             Quantize(PositiveCandidate(cell, cal, request)), input, rt)
  {
    var cal := rt.calibration.value;
    var index := reverse - 1;
    var cell := cal.steadyCells[index];
    if cell.torque.hi <= 0.0 || cell.torque.lo >= request {
      found := ReducePositiveFound(request, input, rt, index, tally);
    } else if !CellAuthorized(index, input, rt) {
      found := ReducePositiveFound(request, input, rt, index, CountCell(tally));
    } else {
      var exact := ExactSteady(Quantize(PositiveCandidate(cell, cal, request)), false, input, rt);
      if SteadyAuthorized(exact, input) {
        found := index;
      } else {
        found := ReducePositiveFound(request, input, rt, index, CountSteady(CountCell(tally), exact));
      }
    }
  }

  /** The search returned this torque, which passed the exact check and is outside the zero band. */
  predicate SearchReturns(found: Option<(real, Interval)>, torque: real, input: ClampInput, rt: Runtime)
    requires RuntimeValid(rt)
  {
    && found.Some? && found.value.0 == torque
    && SteadyAuthorized(ExactSteady(torque, false, input, rt), input)
    && !NormalizedZero(torque, false, rt.calibration.value)
  }

  lemma {:induction false} ReduceNegativeFound(
    request: real, input: ClampInput, rt: Runtime, index: nat, tally: Tally) returns (found: nat)
    requires RuntimeValid(rt) && index <= |rt.calibration.value.steadyCells|
    requires ReduceNegative(request, input, rt, index, tally).found.Some?
    ensures found < |rt.calibration.value.steadyCells|
    ensures var cal := rt.calibration.value;
            var cell := cal.steadyCells[found];
            && cell.torque.lo < 0.0 && cell.torque.hi > request && CellAuthorized(found, input, rt)
            && SearchReturns(ReduceNegative(request, input, rt, index, tally).found,
                             Quantize(NegativeCandidate(cell, cal, request)), input, rt)
    decreases |rt.calibration.value.steadyCells| - index
  {
    var cal := rt.calibration.value;
    var cell := cal.steadyCells[index];
    if cell.torque.lo >= 0.0 || cell.torque.hi <= request {
      found := ReduceNegativeFound(request, input, rt, index + 1, tally);
    } else if !CellAuthorized(index, input, rt) {
      found := ReduceNegativeFound(request, input, rt, index + 1, CountCell(tally));
    } else {
      var exact := ExactSteady(Quantize(NegativeCandidate(cell, cal, request)), false, input, rt);
      if SteadyAuthorized(exact, input) {
        found := index;
      } else {
        found := ReduceNegativeFound(request, input, rt, index + 1, CountSteady(CountCell(tally), exact));
      }
    }
  }

  /** A reduction returns the offer of an authorised cell that serves the torque to be reduced. */
  lemma ReductionFound(request: real, input: ClampInput, rt: Runtime, tally: Tally) returns (c: nat)
    requires QualifiedRuntime(rt) && ReduceTowardZero(request, input, rt, tally).found.Some?
    ensures var cal, found := rt.calibration.value, ReduceTowardZero(request, input, rt, tally).found;
            && c < |cal.steadyCells| && Serves(cal.steadyCells[c], request) && CellAuthorized(c, input, rt)
            && SearchReturns(found, Offer(cal.steadyCells[c], cal, request), input, rt)
  {
    var cal := rt.calibration.value;
    if request > 0.0 {
      c := ReducePositiveFound(request, input, rt, |cal.steadyCells|, tally);
      CellNonempty(cal, c);
      UpwardCandidate(cal.steadyCells[c], cal, request);
    } else {
      c := ReduceNegativeFound(request, input, rt, 0, tally);
      CellNonempty(cal, c);
      DownwardCandidate(cal.steadyCells[c], cal, request);
    }
  }

  // ---------------------------------------------------------------------------------------------
  // Sign and magnitude of a choice
  // ---------------------------------------------------------------------------------------------

  /** On the side of the request where the cells keep its sign, and no farther from zero where they also admit it. */
  ghost predicate Aims(x: real, request: real, kept: bool, admitted: bool) {
    && IsQuantum(x)
    && (kept ==> OnSide(x, SignOf(request)))
    && (kept && admitted ==> Abs(x) <= Abs(request))
  }

  lemma OfferAims(c: nat, target: real, cal: Calibration)
    requires Qualified(cal) && c < |cal.steadyCells| && Serves(cal.steadyCells[c], target)
    ensures Aims(Offer(cal.steadyCells[c], cal, target), target, SignKept(cal, target), Admits(cal, target))
  {
    CellNonempty(cal, c);
    OfferExact(cal.steadyCells[c], cal, target);
  }

  lemma ReduceAims(request: real, input: ClampInput, rt: Runtime, tally: Tally)
    requires QualifiedRuntime(rt)
    ensures var r, cal := ReduceTowardZero(request, input, rt, tally), rt.calibration.value;
            r.found.Some? ==> Aims(r.found.value.0, request, SignKept(cal, request), Admits(cal, request))
  {
    if ReduceTowardZero(request, input, rt, tally).found.Some? {
      var c := ReductionFound(request, input, rt, tally);
      OfferAims(c, request, rt.calibration.value);
    }
  }

  lemma PrefixAims(previous: real, request: real, input: ClampInput, rt: Runtime, tally: Tally)
    requires QualifiedRuntime(rt) && SameSign(previous, request) && Increasing(previous, request)
    ensures var p, cal := IncreasePrefix(previous, request, input, rt, tally), rt.calibration.value;
            p.accepted ==> Aims(p.best, request, SignKept(cal, request), Admits(cal, request))
  {
    if IncreasePrefix(previous, request, input, rt, tally).accepted {
      var c := PrefixEndsInCell(previous, request, input, rt, tally);
      OfferAims(c, request, rt.calibration.value);
    }
  }

  ghost predicate BothAdmitted(cal: Calibration, previous: real, request: real) {
    Admits(cal, previous) && Admits(cal, request)
  }

  ghost predicate BothSignsKept(cal: Calibration, previous: real, request: real) {
    SignKept(cal, previous) && SignKept(cal, request)
  }

  lemma ChoiceAims(previous: real, request: real, input: ClampInput, rt: Runtime, st: State)
    requires QualifiedRuntime(rt)
    requires IsQuantum(previous) && IsQuantum(request) && request != 0.0 && SameSign(previous, request)
    ensures var choice, cal := Choose(previous, request, Hold(previous, input, rt, st), input, rt,
                                      st), rt.calibration.value;
            choice.Pick? ==>
              Aims(choice.torque, request, BothSignsKept(cal, previous, request), BothAdmitted(cal, previous, request))
  {
    var held := Hold(previous, input, rt, st);
    ReduceAims(previous, input, rt, held.tally);
    if Increasing(previous, request) {
      PrefixAims(previous, request, input, rt, held.tally);
    } else {
      var microstep := TracksMicrostep(previous, request, input, st, rt.calibration.value);
      ReduceAims(request, input, rt, CountSteady(held.tally, ExactSteady(request, microstep, input, rt)));
    }
  }

  lemma RefinedBounded(pick: Choice, movement: (Profile, Direction), required: bool, tally: Tally, previous: real,
                       held: Held, input: ClampInput, rt: Runtime, st: State, sign: Sign, magnitude: real)
    requires pick.Pick? && IsQuantum(previous)
    requires WithinBounds(previous, sign, magnitude) && WithinBounds(pick.torque, sign, magnitude)
    ensures var j := JudgeRefined(pick, movement, required, tally, previous, held, input, rt, st);
            j.Judged? ==> IsQuantum(j.torque) && WithinBounds(j.torque, sign, magnitude)
  {
    var start := Refinement(previous, pick.torque, held.steady, held.transition, held.settlingUs,
                            if st.transition.active then held.transitionOk else true, tally);
    RefineStaysSafe(MAX_REFINE_ITERATIONS, start, movement, input, rt, st, sign, magnitude);
  }

  /** Judging an increase keeps the bounds shared by the previous torque and the pick; a decrease is not moved. */
  lemma JudgeBounded(pick: Choice, microstep: bool, previous: real, request: real, held: Held,
                     input: ClampInput, rt: Runtime, st: State, sign: Sign, magnitude: real)
    requires pick.Pick? && IsQuantum(previous) && IsQuantum(pick.torque)
    requires Increasing(previous, request) ==> WithinBounds(previous, sign, magnitude)
    requires WithinBounds(pick.torque, sign, magnitude)
    ensures var j := Judge(pick, microstep, previous, request, held, input, rt, st);
            j.Judged? ==> IsQuantum(j.torque) && WithinBounds(j.torque, sign, magnitude)
  {
    if Increasing(previous, request) {
      var required := Abs(pick.torque) > Abs(previous) || (pick.torque == previous && st.transition.active);
      RefinedBounded(pick, Movement(st, previous, pick.torque, false), required, CountTransition(pick.tally),
                     previous, held, input, rt, st, sign, magnitude);
    }
  }

  lemma AdmittedRequest(input: ClampInput, rt: Runtime, st: State)
    requires QualifiedRuntime(rt) && Admit(input, rt.calibration.value, st).Admitted?
    requires input.negativeCap <= 0.0 <= input.positiveCap
    ensures Request(input) != 0.0 && IsQuantum(Request(input))
    ensures input.negativeCap <= Request(input) <= input.positiveCap
  {
    QuantizeTowardZero(ClampCapability(input.requested, input));
  }

  /** No amplification: where the cells keep the signs of the request and of the previous torque,
      the selected torque has the sign of the request or is zero, and where they also admit both it
      never exceeds the request, hence the inverter caps. */
  lemma NoAmplification(input: ClampInput, rt: Runtime, st: State)
    requires QualifiedRuntime(rt) && IsQuantum(st.committed)
    ensures var selected, cal := Run(input, rt, st).1.selected, rt.calibration.value;
            && IsQuantum(selected)
            && (BothSignsKept(cal, Previous(st), Request(input)) && selected != 0.0 ==>
                  && SignOf(selected) == SignOf(Request(input))
                  && (BothAdmitted(cal, Previous(st), Request(input)) ==>
                        Abs(selected) <= Abs(Request(input)) && input.negativeCap <= selected <= input.positiveCap))
  {
    ZeroIsQuantum();
    var selected := Run(input, rt, st).1.selected;
    if selected != 0.0 {
      var previous, request := Previous(st), Request(input);
      NonzeroCandidate(input, rt, st);
      AdmittedRequest(input, rt, st);
      ChoiceAims(previous, request, input, rt, st);
      var pick := ChoiceOf(input, rt, st);
      var sign := if OnSide(pick.torque, SignOf(request)) then SignOf(request) else NoSign;
      var magnitude := if Abs(pick.torque) <= Abs(request) then Abs(request) else Max(Abs(previous), Abs(pick.torque));
      JudgeBounded(pick, MicrostepOf(input, rt, st), previous, request, HeldOf(input, rt, st), input, rt, st,
                   sign, magnitude);
    }
  }

  // ---------------------------------------------------------------------------------------------
  // The converse
  // ---------------------------------------------------------------------------------------------

  /** The run grows a feasible torque by a walk that is a microstep to the request or has its transition authorised. */
  predicate GrowsAuthorized(input: ClampInput, rt: Runtime, st: State)
    requires RuntimeValid(rt)
  {
    var previous, request, held := Previous(st), Request(input), HeldOf(input, rt, st);
    && SameSign(previous, request) && Increasing(previous, request) && held.Feasible()
    && var p := IncreasePrefix(previous, request, input, rt, held.tally);
       var movement := Movement(st, previous, p.best, false);
       && PrefixMoves(p, previous)
       && ((TracksMicrostep(previous, request, input, st, rt.calibration.value) && p.best == request)
           || TransitionAuthorized(TransitionFor(p.best, movement.0, movement.1, input, rt, st), input))
  }

  lemma SelectsThePrefix(input: ClampInput, rt: Runtime, st: State)
    requires QualifiedRuntime(rt) && GrowsAuthorized(input, rt, st) && Run(input, rt, st).1.selected != 0.0
    ensures var p := IncreasePrefix(Previous(st), Request(input), input, rt, HeldOf(input, rt, st).tally);
            p.accepted && Run(input, rt, st).1.selected == p.best
  {
    NonzeroCandidate(input, rt, st);
    var previous, request, held := Previous(st), Request(input), HeldOf(input, rt, st);
    var pick := ChoiceOf(input, rt, st);
    assert pick == ChooseIncrease(previous, request, held, input, rt);
    var movement := Movement(st, previous, pick.torque, false);
    if !MicrostepOf(input, rt, st) && pick.torque != 0.0 {
      assert JudgedOf(input, rt, st) == JudgeMovement(pick, movement, previous, request, held, input, rt, st);
    }
  }

  /** Amplification is exact: the torque selected by an authorised walk comes from the last
      authorised cell on the way. It has the sign of the request exactly when that cell keeps it,
      and then it exceeds the request exactly when that cell does not admit it. */
  lemma SelectedBeyondRequestIff(input: ClampInput, rt: Runtime, st: State) returns (c: int)
    requires QualifiedRuntime(rt) && GrowsAuthorized(input, rt, st) && Run(input, rt, st).1.selected != 0.0
    ensures EndsIn(c, Previous(st), Request(input), input, rt)
    ensures var selected, request, cal := Run(input, rt, st).1.selected, Request(input), rt.calibration.value;
            var cell := cal.steadyCells[c];
            && (SignOf(selected) == SignOf(request) <==> CellKeepsSign(cell, cal, request))
            && (CellKeepsSign(cell, cal, request) ==>
                  (Abs(selected) > Abs(request) <==> !CellAdmits(cell, cal, request)))
  {
    SelectsThePrefix(input, rt, st);
    var cal := rt.calibration.value;
    c := PrefixEndsInCell(Previous(st), Request(input), input, rt, HeldOf(input, rt, st).tally);
    CellNonempty(cal, c);
    OfferExact(cal.steadyCells[c], cal, Request(input));
  }

  /** What a request that does not grow searches below when it cannot be taken as it is. */
  predicate Searches(input: ClampInput, rt: Runtime, st: State)
    requires RuntimeValid(rt)
  {
    var previous, request := Previous(st), Request(input);
    var microstep := TracksMicrostep(previous, request, input, st, rt.calibration.value);
    && !Increasing(previous, request)
    && if request == previous then !HeldOf(input, rt, st).steadyOk
       else !SteadyAuthorized(ExactSteady(request, microstep, input, rt), input)
  }

  lemma SearchIsReduction(input: ClampInput, rt: Runtime, st: State) returns (tally: Tally)
    requires QualifiedRuntime(rt) && Searches(input, rt, st) && Run(input, rt, st).1.selected != 0.0
    ensures var r := ReduceTowardZero(Request(input), input, rt, tally);
            r.found.Some? && Run(input, rt, st).1.selected == r.found.value.0
  {
    NonzeroCandidate(input, rt, st);
    var previous, request, held := Previous(st), Request(input), HeldOf(input, rt, st);
    var pick := ChoiceOf(input, rt, st);
    assert pick == ChooseDecrease(previous, request, held, input, rt, st);
    var microstep := TracksMicrostep(previous, request, input, st, rt.calibration.value);
    tally := if request == previous then held.tally
             else CountSteady(held.tally, ExactSteady(request, microstep, input, rt));
    if !MicrostepOf(input, rt, st) && pick.torque != 0.0 && (pick.torque != previous || st.transition.active) {
      assert JudgedOf(input, rt, st) ==
             JudgeMovement(pick, Movement(st, previous, pick.torque, false), previous, request, held, input, rt, st);
    }
  }

  /** The same for a search below a request that does not grow: an authorised cell is behind the selected torque, which
      keeps the sign of the request, and exceeds it, exactly as that cell says. */
  lemma SearchedBeyondRequestIff(input: ClampInput, rt: Runtime, st: State) returns (c: nat)
    requires QualifiedRuntime(rt) && Searches(input, rt, st) && Run(input, rt, st).1.selected != 0.0
    ensures c < |rt.calibration.value.steadyCells| && CellAuthorized(c, input, rt)
    ensures var selected, request, cal := Run(input, rt, st).1.selected, Request(input), rt.calibration.value;
            var cell := cal.steadyCells[c];
            && Serves(cell, request)
            && (SignOf(selected) == SignOf(request) <==> CellKeepsSign(cell, cal, request))
            && (CellKeepsSign(cell, cal, request) ==>
                  (Abs(selected) > Abs(request) <==> !CellAdmits(cell, cal, request)))
  {
    var tally := SearchIsReduction(input, rt, st);
    var cal := rt.calibration.value;
    c := ReductionFound(Request(input), input, rt, tally);
    CellNonempty(cal, c);
    OfferExact(cal.steadyCells[c], cal, Request(input));
  }

  // ---------------------------------------------------------------------------------------------
  // No jumped band
  // ---------------------------------------------------------------------------------------------

  /** A prefix increase never jumps an unauthorised band: every cell between the previous torque and its best torque is
      authorised, whenever the best torque is farther from zero. */
  lemma PrefixCrossesAuthorizedCells(previous: real, request: real, input: ClampInput, rt: Runtime, tally: Tally)
    requires QualifiedRuntime(rt) && SameSign(previous, request) && Increasing(previous, request)
    requires IncreasePrefix(previous, request, input, rt, tally).accepted
    ensures CrossedAuthorized(PathOf(previous, IncreasePrefix(previous, request, input, rt, tally).best), input, rt)
            || Abs(IncreasePrefix(previous, request, input, rt, tally).best) <= Abs(previous)
  {
    var cal := rt.calibration.value;
    var best := IncreasePrefix(previous, request, input, rt, tally).best;
    var last := PrefixEndsInCell(previous, request, input, rt, tally);
    CellNonempty(cal, last);
    if request > 0.0 {
      UpwardCandidate(cal.steadyCells[last], cal, request);
    } else {
      DownwardCandidate(cal.steadyCells[last], cal, request);
    }
    if Abs(best) > Abs(previous) {
      forall c | Crosses(PathOf(previous, best), c, cal) ensures CellAuthorized(c, input, rt) {
        CellNonempty(cal, c);
        if c < last {
          CellsInOrder(cal, c, last);
        } else if c > last {
          CellsInOrder(cal, last, c);
        }
      }
    }
  }

  lemma ShorterPathCrossesLess(previous: real, near: real, far: real, input: ClampInput, rt: Runtime)
    requires RuntimeValid(rt) && CrossedAuthorized(PathOf(previous, far), input, rt)
    requires previous <= near <= far || previous >= near >= far
    ensures CrossedAuthorized(PathOf(previous, near), input, rt)
  {
    var cal := rt.calibration.value;
    forall c | Crosses(PathOf(previous, near), c, cal) ensures CellAuthorized(c, input, rt) {
      assert Crosses(PathOf(previous, far), c, cal);
    }
  }

  lemma QuantizeMonotone(x: real, y: real)
    requires x <= y
    ensures Quantize(x) <= Quantize(y)
  {
    assert Truncate(x * QUANTA_PER_NM) <= Truncate(y * QUANTA_PER_NM);
  }

  predicate Between(x: real, a: real, b: real) {
    Min(a, b) <= x <= Max(a, b)
  }

  lemma MidpointBetween(safe: real, unsafe: real, a: real, b: real)
    requires IsQuantum(a) && IsQuantum(b) && Between(safe, a, b) && Between(unsafe, a, b)
    ensures Between(Quantize(safe + 0.5 * (unsafe - safe)), a, b)
  {
    var midpoint := safe + 0.5 * (unsafe - safe);
    QuantizeMonotone(Min(a, b), midpoint);
    QuantizeMonotone(midpoint, Max(a, b));
  }

  /** The bisection stays between its two ends, even across zero. */
  lemma {:induction false} RefineStaysBetween(
    iterations: nat, start: Refinement, movement: (Profile, Direction), input: ClampInput, rt: Runtime, st: State,
    a: real, b: real)
    requires IsQuantum(a) && IsQuantum(b) && Between(start.safe, a, b) && Between(start.unsafe, a, b)
    ensures var r := Refine(iterations, start, movement, input, rt, st);
            Between(r.safe, a, b) && Between(r.unsafe, a, b)
  {
    if iterations > 0 {
      RefineStaysBetween(iterations - 1, start, movement, input, rt, st, a, b);
      var r := Refine(iterations - 1, start, movement, input, rt, st);
      RefineStepMoves(r, movement, input, rt, st);
      MidpointBetween(r.safe, r.unsafe, a, b);
    }
  }

  lemma RefinedBetween(pick: Choice, movement: (Profile, Direction), required: bool, tally: Tally, previous: real,
                       held: Held, input: ClampInput, rt: Runtime, st: State)
    requires pick.Pick? && IsQuantum(previous) && IsQuantum(pick.torque)
    ensures var j := JudgeRefined(pick, movement, required, tally, previous, held, input, rt, st);
            j.Judged? ==> Between(j.torque, previous, pick.torque)
  {
    var start := Refinement(previous, pick.torque, held.steady, held.transition, held.settlingUs,
                            if st.transition.active then held.transitionOk else true, tally);
    RefineStaysBetween(MAX_REFINE_ITERATIONS, start, movement, input, rt, st, previous, pick.torque);
  }

  /** Judging an increase leaves the torque between the previous one and the pick. */
  lemma JudgedBetween(pick: Choice, microstep: bool, previous: real, request: real, held: Held,
                      input: ClampInput, rt: Runtime, st: State)
    requires pick.Pick? && IsQuantum(previous) && IsQuantum(pick.torque)
    ensures var j := Judge(pick, microstep, previous, request, held, input, rt, st);
            j.Judged? ==> Between(j.torque, previous, pick.torque)
  {
    var required := Abs(pick.torque) > Abs(previous) || (pick.torque == previous && st.transition.active);
    RefinedBetween(pick, Movement(st, previous, pick.torque, false), required, CountTransition(pick.tally), previous,
                   held, input, rt, st);
  }

  /** No jumped band: when a feasible held torque grows, every cell between it and the selected torque passed its
      whole-cell check. */
  lemma NoJumpedBand(input: ClampInput, rt: Runtime, st: State)
    requires QualifiedRuntime(rt) && IsQuantum(st.committed)
    requires Run(input, rt, st).1.selected != 0.0
    requires Increasing(Previous(st), Request(input)) && HeldOf(input, rt, st).Feasible()
    requires Abs(Run(input, rt, st).1.selected) > Abs(Previous(st))
    ensures CrossedAuthorized(PathOf(Previous(st), Run(input, rt, st).1.selected), input, rt)
  {
    ZeroIsQuantum();
    var previous, request, selected := Previous(st), Request(input), Run(input, rt, st).1.selected;
    var pick, held := ChoiceOf(input, rt, st), HeldOf(input, rt, st);
    NonzeroCandidate(input, rt, st);
    AdmittedRequest(input, rt, st);
    ChoiceAims(previous, request, input, rt, st);
    JudgedBetween(pick, MicrostepOf(input, rt, st), previous, request, held, input, rt, st);
    assert pick == ChooseIncrease(previous, request, held, input, rt);
    assert pick.torque != previous;
    PrefixCrossesAuthorizedCells(previous, request, input, rt, held.tally);
    ShorterPathCrossesLess(previous, selected, pick.torque, input, rt);
  }

  // ---------------------------------------------------------------------------------------------
  // The other origins of a growing torque
  // ---------------------------------------------------------------------------------------------

  /** The bisection starts: the walk moved, is no microstep to the request, and its transition is not authorised. */
  predicate GrowsRefined(input: ClampInput, rt: Runtime, st: State)
    requires RuntimeValid(rt)
  {
    var previous, request, held := Previous(st), Request(input), HeldOf(input, rt, st);
    && SameSign(previous, request) && Increasing(previous, request) && held.Feasible()
    && var p := IncreasePrefix(previous, request, input, rt, held.tally);
       PrefixMoves(p, previous) && !GrowsAuthorized(input, rt, st)
  }

  lemma RefinedIsAuthorized(pick: Choice, movement: (Profile, Direction), required: bool, tally: Tally, previous: real,
                            held: Held, input: ClampInput, rt: Runtime, st: State)
    requires pick.Pick? && IsQuantum(previous) && IsQuantum(pick.torque)
    ensures var j := JudgeRefined(pick, movement, required, tally, previous, held, input, rt, st);
            j.Judged? ==>
              && Between(j.torque, previous, pick.torque)
              && ((j.torque == previous && held.Feasible())
                  || TransitionAuthorized(TransitionFor(j.torque, movement.0, movement.1, input, rt, st), input))
  {
    var start := Refinement(previous, pick.torque, held.steady, held.transition, held.settlingUs,
                            if st.transition.active then held.transitionOk else true, tally);
    RefinedBetween(pick, movement, required, tally, previous, held, input, rt, st);
    var magnitude := Max(Abs(previous), Abs(pick.torque));
    RefineStaysSafe(MAX_REFINE_ITERATIONS, start, movement, input, rt, st, NoSign, magnitude);
  }

  /** A refined increase ends between the held torque and what the last authorised cell offers, at the
      held torque or one whose transition is authorised. Where that cell keeps the sign of the request,
      the selected torque keeps it too, and exceeds the request only if the cell does not admit it. */
  lemma RefinedBeyondRequest(input: ClampInput, rt: Runtime, st: State) returns (c: int)
    requires QualifiedRuntime(rt) && IsQuantum(st.committed)
    requires GrowsRefined(input, rt, st) && Run(input, rt, st).1.selected != 0.0
    ensures EndsIn(c, Previous(st), Request(input), input, rt)
    ensures var selected, previous, request := Run(input, rt, st).1.selected, Previous(st), Request(input);
            var cell, cal := rt.calibration.value.steadyCells[c], rt.calibration.value;
            var offer := Offer(cell, cal, request);
            var movement := Movement(st, previous, offer, false);
            && Between(selected, previous, offer)
            && (selected == previous
                || TransitionAuthorized(TransitionFor(selected, movement.0, movement.1, input, rt, st), input))
            && (CellKeepsSign(cell, cal, request) ==>
                  && SignOf(selected) == SignOf(request)
                  && (Abs(selected) > Abs(request) ==> !CellAdmits(cell, cal, request)))
  {
    ZeroIsQuantum();
    NonzeroCandidate(input, rt, st);
    AdmittedRequest(input, rt, st);
    var previous, request, held, cal := Previous(st), Request(input), HeldOf(input, rt, st), rt.calibration.value;
    var pick := ChoiceOf(input, rt, st);
    assert pick == ChooseIncrease(previous, request, held, input, rt);
    c := PrefixEndsInCell(previous, request, input, rt, held.tally);
    CellNonempty(cal, c);
    OfferExact(cal.steadyCells[c], cal, request);
    var movement := Movement(st, previous, pick.torque, false);
    if pick.torque != 0.0 {
      assert JudgedOf(input, rt, st) == JudgeMovement(pick, movement, previous, request, held, input, rt, st);
      var required := Abs(pick.torque) > Abs(previous) || (pick.torque == previous && st.transition.active);
      RefinedIsAuthorized(pick, movement, required, CountTransition(pick.tally), previous, held, input, rt, st);
    }
  }

  /** A growing request whose held torque is infeasible is searched for below the held torque. */
  predicate SearchesHeld(input: ClampInput, rt: Runtime, st: State) {
    Increasing(Previous(st), Request(input)) && !HeldOf(input, rt, st).Feasible()
  }

  /** The offer for a target exceeds a larger torque exactly when the guard bands leave no room and the middle is
      beyond. */
  predicate MiddleBeyond(cell: SteadyCell, cal: Calibration, target: real, bound: real) {
    && (if target > 0.0 then !FitsUp(cell, cal, target) else !FitsDown(cell, cal, target))
    && Abs(Quantize(Middle(cell))) > Abs(bound)
  }

  lemma OfferBeyond(cell: SteadyCell, cal: Calibration, target: real, bound: real)
    requires ScalarsValid(cal) && cell.torque.lo < cell.torque.hi && Serves(cell, target) && Abs(target) <= Abs(bound)
    requires CellKeepsSign(cell, cal, target)
    ensures Abs(Offer(cell, cal, target)) > Abs(bound) <==> MiddleBeyond(cell, cal, target, bound)
  {
    OfferExact(cell, cal, target);
    if target > 0.0 {
      UpwardCandidate(cell, cal, target);
      QuantizeTowardZero(Min(target, UpperRoom(cell, cal)));
    } else {
      DownwardCandidate(cell, cal, target);
      QuantizeTowardZero(Max(target, LowerRoom(cell, cal)));
    }
  }

  /** Where a search below the held torque ends: between that torque and the offer of an authorised
      cell, and at the offer itself unless its transition is refused. Where the cell keeps the sign, the
      offer exceeds the request exactly when the guard bands leave no room below the held torque and the
      middle of the cell is beyond the request. */
  lemma HeldSearchBeyondRequestIff(input: ClampInput, rt: Runtime, st: State) returns (c: nat)
    requires QualifiedRuntime(rt) && IsQuantum(st.committed)
    requires SearchesHeld(input, rt, st) && Run(input, rt, st).1.selected != 0.0
    ensures c < |rt.calibration.value.steadyCells| && CellAuthorized(c, input, rt)
    ensures var selected, previous, request := Run(input, rt, st).1.selected, Previous(st), Request(input);
            var cell, cal := rt.calibration.value.steadyCells[c], rt.calibration.value;
            var offer := Offer(cell, cal, previous);
            var movement := Movement(st, previous, offer, false);
            var authorized := TransitionAuthorized(TransitionFor(offer, movement.0, movement.1, input, rt, st), input);
            && Serves(cell, previous) && Between(selected, previous, offer)
            && (offer == previous || authorized ==> selected == offer)
            && (CellKeepsSign(cell, cal, previous) ==>
                  SignOf(selected) == SignOf(request)
                  && (Abs(offer) > Abs(request) <==> MiddleBeyond(cell, cal, previous, request)))
  {
    ZeroIsQuantum();
    NonzeroCandidate(input, rt, st);
    var previous, request, held, cal := Previous(st), Request(input), HeldOf(input, rt, st), rt.calibration.value;
    var pick := ChoiceOf(input, rt, st);
    assert pick == ChooseIncrease(previous, request, held, input, rt);
    c := ReductionFound(previous, input, rt, held.tally);
    var cell := cal.steadyCells[c];
    CellNonempty(cal, c);
    OfferExact(cell, cal, previous);
    if CellKeepsSign(cell, cal, previous) {
      OfferBeyond(cell, cal, previous, request);
    }
    JudgedBetween(pick, MicrostepOf(input, rt, st), previous, request, held, input, rt, st);
  }
}
