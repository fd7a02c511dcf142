/** What a commit that finds the calibration handle no longer valid leaves to the next run. */
module ClampUncalibrated {
  import opened Numeric
  import opened Calibration
  import opened TorqueClamp
  import opened ClampRun
  import opened ClampCommit
  import opened ClampSafety
  import opened ClampRuns

  /** Whatever was committed, the next run starts from no torque and remembers the sign of the last nonzero commit. Past
      the other gates it is admitted exactly when zero is confirmed in its own input, or zero was committed and the
      request does not oppose that sign; without admission it selects no torque. */
  lemma NextRunStartsFromZero(
    st: State, committed: real, nowUs: Word32, zeroConfirmed: bool, input: ClampInput, rt: Runtime)
    requires RuntimeValid(rt)
    ensures var after := NoteUncalibratedCommit(st, committed, nowUs, zeroConfirmed);
            var admitted := Admit(input, rt.calibration.value, after).Admitted?;
            && Previous(after) == 0.0
            && after.lastNonzeroSign == (if committed != 0.0 then SignOf(committed) else st.lastNonzeroSign)
            && (admitted <==>
                  && input.operatingPointValid && input.authorityValid
                  && !NormalizedZero(Request(input), true, rt.calibration.value)
                  && (input.physicalZeroConfirmed || (committed == 0.0 && !ReversalRequest(st, Request(input)))))
            && (!admitted ==> Run(input, rt, after).1.selected == 0.0)
  {
    var after := NoteUncalibratedCommit(st, committed, nowUs, zeroConfirmed);
    if Run(input, rt, after).1.selected != 0.0 {
      NonzeroCandidate(input, rt, after);
    }
  }

  /** The bracket of any later command: from rest once zero is confirmed; otherwise it still spans
      the torque given up. */
  lemma BracketAfterZero(st: State, nowUs: Word32, zeroConfirmed: bool, candidate: real)
    ensures var after := NoteUncalibratedCommit(st, 0.0, nowUs, zeroConfirmed);
            if zeroConfirmed then Bracket(after, candidate) == Interval(Min(0.0, candidate), Max(0.0, candidate))
            else if st.committed != 0.0 then
              Bracket(after, candidate) ==
              Interval(Min(Min(st.committed, 0.0), candidate), Max(Max(st.committed, 0.0), candidate))
            else Bracket(after, candidate) == Bracket(st, candidate)
  {
  }

  /** Such a commit keeps the invariant of calibrated runs exactly when it carries zero and, giving
      up torque without a confirmed zero, leaves the settled anchor between that torque and zero:
      the bracket it records is not the union with an older one. */
  lemma KeepsInvIff(st: State, committed: real, nowUs: Word32, zeroConfirmed: bool, cal: Calibration)
    requires Qualified(cal) && Inv(st, cal)
    ensures Inv(NoteUncalibratedCommit(st, committed, nowUs, zeroConfirmed), cal) <==>
            && committed == 0.0
            && (zeroConfirmed || st.committed == 0.0
                || Min(st.committed, 0.0) <= st.transition.anchor <= Max(st.committed, 0.0))
  {
    ZeroIsQuantum();
  }

  // ---------------------------------------------------------------------------------------------
  // Until the transition settles
  // ---------------------------------------------------------------------------------------------

  /** The state after calibrated steps from a given state. */
  function StateFrom(st: State, steps: seq<Step>, rt: Runtime): State
    requires RuntimeValid(rt)
  {
    if steps == [] then st else Next(steps[|steps| - 1], rt, StateFrom(st, steps[..|steps| - 1], rt))
  }

  /** The transition stays unfinished from the given state through all these steps. */
  ghost predicate Unfinished(st: State, steps: seq<Step>, rt: Runtime)
    requires RuntimeValid(rt)
  {
    forall i :: 0 <= i <= |steps| ==> StateFrom(st, steps[..i], rt).transition.active
  }

  lemma SettlingKeepsBracket(p: Progress, previous: real, committed: real, m: Move, nowZero: bool, nowUs: Word32,
                             consistent: bool, cal: Calibration)
    requires p.transition.active
    ensures var after := Advance(p, previous, committed, m, nowZero, nowUs, consistent, cal).transition;
            after.active ==> after.minimum <= p.transition.minimum && p.transition.maximum <= after.maximum
  {
  }

  /** A calibrated step never narrows the bracket of a transition that it leaves unfinished. */
  lemma BracketOnlyGrows(step: Step, rt: Runtime, st: State)
    requires RuntimeValid(rt) && st.transition.active && Next(step, rt, st).transition.active
    ensures var after := Next(step, rt, st).transition;
            after.minimum <= st.transition.minimum && st.transition.maximum <= after.maximum
  {
    var cal, candidate, committed := rt.calibration.value, Candidate(step, rt, st), Committed(step, rt, st);
    var p := AdvancedBy(st, candidate, committed, step.commitUs, step.zeroConfirmed, step.consistent, cal);
    NoteTransition(st, candidate, committed, step.commitUs, step.zeroConfirmed, step.consistent, cal, p);
    var nowZero := NormalizedZero(committed, st.normalizedZero, cal);
    var start := Progress(CommitPath(st, candidate, committed, nowZero, step.zeroConfirmed), st.phase,
                          st.transition.(previousCommitted := st.committed));
    SettlingKeepsBracket(start, st.committed, committed, MoveOf(candidate, st.committed, committed, cal), nowZero,
                         step.commitUs, step.consistent, cal);
  }

  lemma {:induction false} BracketFromGrows(st: State, steps: seq<Step>, rt: Runtime)
    requires RuntimeValid(rt) && Unfinished(st, steps, rt)
    ensures var after := StateFrom(st, steps, rt).transition;
            after.active && after.minimum <= st.transition.minimum && st.transition.maximum <= after.maximum
  {
    assert steps[..|steps|] == steps;
    if steps == [] {
      assert steps[..0] == [];
    } else {
      var n := |steps| - 1;
      forall i | 0 <= i <= n ensures StateFrom(st, steps[..n][..i], rt).transition.active {
        assert steps[..n][..i] == steps[..i];
      }
      BracketFromGrows(st, steps[..n], rt);
      BracketOnlyGrows(steps[n], rt, StateFrom(st, steps[..n], rt));
    }
  }

  /** After a zero commit without confirmed zero the bracket of every command, until the transition settles, spans the
      torque given up, zero and the command itself. */
  lemma BracketUntilSettled(st: State, nowUs: Word32, steps: seq<Step>, rt: Runtime, candidate: real)
    requires RuntimeValid(rt) && st.committed != 0.0
    requires Unfinished(NoteUncalibratedCommit(st, 0.0, nowUs, false), steps, rt)
    ensures var later := StateFrom(NoteUncalibratedCommit(st, 0.0, nowUs, false), steps, rt);
            var b := Bracket(later, candidate);
            b.lo <= Min(Min(st.committed, 0.0), candidate) && Max(Max(st.committed, 0.0), candidate) <= b.hi
  {
    BracketFromGrows(NoteUncalibratedCommit(st, 0.0, nowUs, false), steps, rt);
  }
}
