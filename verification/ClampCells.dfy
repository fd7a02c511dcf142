/** The torque a cell offers for a target: when it keeps the sign of the target and when it stays within it. */
module ClampCells {
  import opened Numeric
  import opened Calibration
  import opened TorqueClamp
  import opened ClampRun

  const QUANTUM := 1.0 / QUANTA_PER_NM

  /** No steady cell has zero strictly inside. Boot validation does not demand this. */
  predicate NoCellStraddlesZero(cal: Calibration) {
    forall c :: 0 <= c < |cal.steadyCells| ==>
      cal.steadyCells[c].torque.lo >= 0.0 || cal.steadyCells[c].torque.hi <= 0.0
  }

  function Middle(cell: SteadyCell): real {
    0.5 * (cell.torque.lo + cell.torque.hi)
  }

  /** The highest torque of the cell that respects its upper guard band. */
  function UpperRoom(cell: SteadyCell, cal: Calibration): real {
    cell.torque.hi - Max(cal.torquePositive, QUANTUM)
  }

  function LowerRoom(cell: SteadyCell, cal: Calibration): real {
    cell.torque.lo + Max(cal.torqueNegative, QUANTUM)
  }

  /** Below the target the guard bands leave room; otherwise the middle of the cell is offered. */
  predicate FitsUp(cell: SteadyCell, cal: Calibration, target: real) {
    Min(target, UpperRoom(cell, cal)) >= cell.torque.lo + cal.torqueNegative
  }

  predicate FitsDown(cell: SteadyCell, cal: Calibration, target: real) {
    Max(target, LowerRoom(cell, cal)) <= cell.torque.hi - cal.torquePositive
  }

  predicate AdmitsUp(cell: SteadyCell, cal: Calibration, target: real) {
    FitsUp(cell, cal, target) || Quantize(Middle(cell)) <= target
  }

  predicate AdmitsDown(cell: SteadyCell, cal: Calibration, target: real) {
    FitsDown(cell, cal, target) || Quantize(Middle(cell)) >= target
  }

  /** The upper guard band, or else the middle, does not reach one command step below zero. */
  predicate KeepsSignUp(cell: SteadyCell, cal: Calibration, target: real) {
    (if FitsUp(cell, cal, target) then UpperRoom(cell, cal) else Middle(cell)) > -QUANTUM
  }

  predicate KeepsSignDown(cell: SteadyCell, cal: Calibration, target: real) {
    (if FitsDown(cell, cal, target) then LowerRoom(cell, cal) else Middle(cell)) < QUANTUM
  }

  /** A quantised torque is below zero exactly when the torque is at least one step below zero. */
  lemma QuantizedSign(x: real)
    ensures Quantize(x) >= 0.0 <==> x > -QUANTUM
    ensures Quantize(x) <= 0.0 <==> x < QUANTUM
  {
    TruncateProperties(x * QUANTA_PER_NM);
  }

  /** For a positive target the offer stays within it exactly when the cell admits it, has its sign
      exactly when the cell keeps it, and never leaves the cell away from zero. */
  lemma UpwardCandidate(cell: SteadyCell, cal: Calibration, target: real)
    requires ScalarsValid(cal) && cell.torque.lo < cell.torque.hi && cell.torque.lo < target && 0.0 < target
    ensures Quantize(PositiveCandidate(cell, cal, target)) == UpwardBest(cal, cell, target)
    ensures UpwardBest(cal, cell, target) <= target <==> AdmitsUp(cell, cal, target)
    ensures UpwardBest(cal, cell, target) >= 0.0 <==> KeepsSignUp(cell, cal, target)
    ensures UpwardBest(cal, cell, target) <= Max(cell.torque.hi, 0.0)
    ensures UpwardBest(cal, cell, target) < 0.0 ==> cell.torque.lo <= UpwardBest(cal, cell, target)
    ensures IsQuantum(UpwardBest(cal, cell, target))
  {
    var offer := PositiveCandidate(cell, cal, target);
    assert offer == if FitsUp(cell, cal, target) then Min(target, UpperRoom(cell, cal)) else Middle(cell);
    assert offer == PositiveCandidate(cell, cal, Min(target, cell.torque.hi));
    QuantizeTowardZero(offer);
    QuantizedSign(offer);
  }

  lemma DownwardCandidate(cell: SteadyCell, cal: Calibration, target: real)
    requires ScalarsValid(cal) && cell.torque.lo < cell.torque.hi && target < cell.torque.hi && target < 0.0
    ensures Quantize(NegativeCandidate(cell, cal, target)) == DownwardBest(cal, cell, target)
    ensures DownwardBest(cal, cell, target) >= target <==> AdmitsDown(cell, cal, target)
    ensures DownwardBest(cal, cell, target) <= 0.0 <==> KeepsSignDown(cell, cal, target)
    ensures DownwardBest(cal, cell, target) >= Min(cell.torque.lo, 0.0)
    ensures DownwardBest(cal, cell, target) > 0.0 ==> DownwardBest(cal, cell, target) <= cell.torque.hi
    ensures IsQuantum(DownwardBest(cal, cell, target))
  {
    var offer := NegativeCandidate(cell, cal, target);
    assert offer == if FitsDown(cell, cal, target) then Max(target, LowerRoom(cell, cal)) else Middle(cell);
    assert offer == NegativeCandidate(cell, cal, Max(target, cell.torque.lo));
    QuantizeTowardZero(offer);
    QuantizedSign(offer);
  }

  // ---------------------------------------------------------------------------------------------
  // Either direction
  // ---------------------------------------------------------------------------------------------

  /** The cell reaches past zero towards the target and begins before it: one a search for the target may use. */
  predicate Serves(cell: SteadyCell, target: real) {
    (target > 0.0 && cell.torque.hi > 0.0 && cell.torque.lo < target)
    || (target < 0.0 && cell.torque.lo < 0.0 && cell.torque.hi > target)
  }

  predicate CellAdmits(cell: SteadyCell, cal: Calibration, target: real) {
    if target > 0.0 then AdmitsUp(cell, cal, target) else AdmitsDown(cell, cal, target)
  }

  predicate CellKeepsSign(cell: SteadyCell, cal: Calibration, target: real) {
    if target > 0.0 then KeepsSignUp(cell, cal, target) else KeepsSignDown(cell, cal, target)
  }

  /** The torque a cell offers for a target. */
  function Offer(cell: SteadyCell, cal: Calibration, target: real): real {
    if target > 0.0 then UpwardBest(cal, cell, target) else DownwardBest(cal, cell, target)
  }

  /** Every cell between zero and the target admits it. */
  predicate Admits(cal: Calibration, target: real) {
    forall c :: 0 <= c < |cal.steadyCells| ==>
      (Serves(cal.steadyCells[c], target) ==> CellAdmits(cal.steadyCells[c], cal, target))
  }

  /** Every cell between zero and the target keeps its sign. */
  predicate SignKept(cal: Calibration, target: real) {
    forall c :: 0 <= c < |cal.steadyCells| ==>
      (Serves(cal.steadyCells[c], target) ==> CellKeepsSign(cal.steadyCells[c], cal, target))
  }

  /** The offer of a serving cell, in either direction. */
  lemma OfferExact(cell: SteadyCell, cal: Calibration, target: real)
    requires ScalarsValid(cal) && cell.torque.lo < cell.torque.hi && Serves(cell, target)
    ensures IsQuantum(Offer(cell, cal, target))
    ensures Offer(cell, cal, target) == 0.0 || SignOf(Offer(cell, cal, target)) == SignOf(target)
            <==> CellKeepsSign(cell, cal, target)
    ensures CellKeepsSign(cell, cal, target) ==>
              (Abs(Offer(cell, cal, target)) <= Abs(target) <==> CellAdmits(cell, cal, target))
  {
    if target > 0.0 {
      UpwardCandidate(cell, cal, target);
    } else {
      DownwardCandidate(cell, cal, target);
    }
  }

  /** Cells on one side of zero keep every sign. */
  lemma OneSidedCellsKeepSigns(cal: Calibration, target: real)
    requires ScalarsValid(cal) && NoCellStraddlesZero(cal)
    requires forall c :: 0 <= c < |cal.steadyCells| ==> cal.steadyCells[c].torque.lo < cal.steadyCells[c].torque.hi
    ensures SignKept(cal, target)
  {
    forall c | 0 <= c < |cal.steadyCells| && Serves(cal.steadyCells[c], target)
      ensures CellKeepsSign(cal.steadyCells[c], cal, target)
    {
      assert cal.steadyCells[c].torque.lo >= 0.0 || cal.steadyCells[c].torque.hi <= 0.0;
    }
  }
}
