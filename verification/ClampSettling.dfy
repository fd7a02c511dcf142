/** When a transition is declared settled: over whole runs, exactly after enough consecutive confirming commits. */
module ClampSettling {
  import opened Numeric
  import opened Calibration
  import opened TorqueClamp
  import opened ClampRun
  import opened ClampCommit
  import opened ClampRuns

  // ---------------------------------------------------------------------------------------------
  // The moves of a run
  // ---------------------------------------------------------------------------------------------

  /** The commit carries the torque of its candidate. */
  predicate FollowsCandidate(step: Step, rt: Runtime, st: State) {
    var candidate := Candidate(step, rt, st);
    candidate.Some? && candidate.value.outputValid && candidate.value.selected == Committed(step, rt, st)
  }

  predicate IsMicrostep(step: Step, rt: Runtime, st: State) {
    FollowsCandidate(step, rt, st) && Candidate(step, rt, st).value.microstep
  }

  /** The family of the move: that of the candidate, or a zero asserted without one. */
  function FamilyOf(step: Step, rt: Runtime, st: State): (Profile, Direction) {
    if FollowsCandidate(step, rt, st) then
      (Candidate(step, rt, st).value.profile, Candidate(step, rt, st).value.direction)
    else (ZeroAssert, ToZero)
  }

  /** How long the current may take to settle after the move. */
  function SettlingOf(step: Step, rt: Runtime, st: State): nat
    requires RuntimeValid(rt)
  {
    if FollowsCandidate(step, rt, st) then Candidate(step, rt, st).value.settlingUs
    else rt.calibration.value.lateZeroSettlingUs
  }

  /** The commit opens a transition, or moves outside what the unfinished one has been judged for. */
  predicate IsMaterial(step: Step, rt: Runtime, st: State)
    requires RuntimeValid(rt)
  {
    var c, t, cal := Committed(step, rt, st), st.transition, rt.calibration.value;
    && c != st.committed && !IsMicrostep(step, rt, st)
    && (|| !t.active || c < t.minimum || c > t.maximum
        || Abs(c) <= (if st.normalizedZero then cal.zeroExit else cal.zeroEnter)
        || FamilyOf(step, rt, st) != (t.profile, t.direction))
  }

  predicate MaterialAt(steps: seq<Step>, rt: Runtime, k: nat)
    requires RuntimeValid(rt) && k < |steps|
  {
    IsMaterial(steps[k], rt, StateAt(steps, rt, k))
  }

  function SettlingAt(steps: seq<Step>, rt: Runtime, k: nat): nat
    requires RuntimeValid(rt) && k < |steps|
  {
    SettlingOf(steps[k], rt, StateAt(steps, rt, k))
  }

  /** Bookkeeping reads the same move. */
  lemma MoveIsRead(step: Step, rt: Runtime, st: State)
    requires QualifiedRuntime(rt) && Inv(st, rt.calibration.value)
    ensures var m := MoveOf(Candidate(step, rt, st), st.committed, Committed(step, rt, st), rt.calibration.value);
            && m.microstep == IsMicrostep(step, rt, st) && (m.profile, m.direction) == FamilyOf(step, rt, st)
            && m.settlingUs == SettlingOf(step, rt, st)
            && (m.material <==> !m.microstep && Committed(step, rt, st) != st.committed)
  {
    CandidateDescribesItsMove(step, rt, st);
    MoveIsConsistent(st, Candidate(step, rt, st), Committed(step, rt, st), rt.calibration.value);
  }

  lemma MaterialRestarts(step: Step, rt: Runtime, st: State)
    requires QualifiedRuntime(rt) && Inv(st, rt.calibration.value)
    ensures var c, cal := Committed(step, rt, st), rt.calibration.value;
            IsMaterial(step, rt, st) <==>
            RestartsSettling(MoveOf(Candidate(step, rt, st), st.committed, c, cal), st.transition, c,
                             NormalizedZero(c, st.normalizedZero, cal))
  {
    MoveIsRead(step, rt, st);
  }

  // ---------------------------------------------------------------------------------------------
  // What one commit records
  // ---------------------------------------------------------------------------------------------

  function Longer(a: nat, b: nat): nat {
    if a > b then a else b
  }

  /** The tick and the settling time of the moves of a transition. */
  predicate Recorded(before: ActiveTransition, after: ActiveTransition, material: bool, settlingUs: nat,
                     commitUs: Word32) {
    && after.lastCommitUs == commitUs
    && after.startedUs == (if material && !before.active then commitUs else before.startedUs)
    && (material ==>
          && after.active && after.lastMaterialUs == commitUs
          && after.maximumSettlingUs == Longer(before.maximumSettlingUs, settlingUs))
    && (!material && after.active ==>
          && before.active && after.lastMaterialUs == before.lastMaterialUs
          && after.maximumSettlingUs == before.maximumSettlingUs)
    && (!after.active ==> !material && after.maximumSettlingUs in {0, before.maximumSettlingUs}
                          && (before.active ==> after.maximumSettlingUs == 0))
  }

  /** A commit under which the recorded transition looks finished. */
  predicate Confirms(t: ActiveTransition, previous: real, committed: real, nowUs: Word32, consistent: bool,
                     cal: Calibration) {
    t.active && SettlingTimePassed(t, nowUs, cal) && TrackingStable(t, previous, committed, nowUs, cal) && consistent
  }

  function OneMore(count: nat): nat {
    if count < MAX_CONFIRMATIONS then count + 1 else count
  }

  /** How one commit moves the confirmation counter and the activity of the transition. */
  predicate Counted(before: ActiveTransition, after: ActiveTransition, confirms: bool, committed: real, samples: nat) {
    && (confirms ==> before.active)
    && (after.active ==>
          && after.latestTarget == committed
          && after.confirmationObserved == (if confirms then OneMore(before.confirmationObserved) else 0)
          && (confirms ==> after.confirmationObserved < after.confirmationRequired))
    && (after.active && !before.active ==> after.confirmationRequired == samples)
    && (after.active && before.active ==> after.confirmationRequired in {before.confirmationRequired, samples})
    && (before.active && !after.active ==>
          && confirms && OneMore(before.confirmationObserved) >= before.confirmationRequired
          && after.anchor == committed)
  }

  /** One commit of the run, on the record alone. */
  lemma AdvanceRecords(p: Progress, previous: real, committed: real, m: Move, nowZero: bool, nowUs: Word32,
                       consistent: bool, cal: Calibration)
    requires m.microstep ==> !p.transition.active
    ensures var after := Advance(p, previous, committed, m, nowZero, nowUs, consistent, cal).transition;
            var restarts := RestartsSettling(m, p.transition, committed, nowZero) && !m.microstep;
            && Recorded(p.transition, after.(lastCommitUs := nowUs), restarts, m.settlingUs, nowUs)
            && Counted(p.transition, after,
                       !restarts && Confirms(p.transition, previous, committed, nowUs, consistent, cal),
                       committed, cal.steadyConfirmationSamples)
  {
  }

  predicate ConfirmsAt(steps: seq<Step>, rt: Runtime, k: nat)
    requires RuntimeValid(rt) && k < |steps|
  {
    var st, step := StateAt(steps, rt, k), steps[k];
    && !MaterialAt(steps, rt, k)
    && Confirms(st.transition, st.committed, CommitAt(steps, rt, k), step.commitUs, step.consistent,
                rt.calibration.value)
  }

  lemma NoteRecords(st: State, candidate: Option<Output>, committed: real, nowUs: Word32, zeroConfirmed: bool,
                    consistent: bool, cal: Calibration)
    requires MoveOf(candidate, st.committed, committed, cal).microstep ==> !st.transition.active
    ensures var after := NoteCommit(st, candidate, committed, nowUs, zeroConfirmed, consistent, cal).transition;
            var m := MoveOf(candidate, st.committed, committed, cal);
            var nowZero := NormalizedZero(committed, st.normalizedZero, cal);
            var restarts := RestartsSettling(m, st.transition, committed, nowZero) && !m.microstep;
            && Recorded(st.transition, after, restarts, m.settlingUs, nowUs)
            && Counted(st.transition, after,
                       !restarts && Confirms(st.transition, st.committed, committed, nowUs, consistent, cal),
                       committed, cal.steadyConfirmationSamples)
  {
    var nowZero := NormalizedZero(committed, st.normalizedZero, cal);
    AdvanceRecords(Progress(CommitPath(st, candidate, committed, nowZero, zeroConfirmed), st.phase,
                            st.transition.(previousCommitted := st.committed)),
                   st.committed, committed, MoveOf(candidate, st.committed, committed, cal), nowZero, nowUs, consistent,
                   cal);
  }

  lemma StepRecords(step: Step, rt: Runtime, st: State)
    requires QualifiedRuntime(rt) && Inv(st, rt.calibration.value)
    ensures var after, c, cal := Next(step, rt, st).transition, Committed(step, rt, st), rt.calibration.value;
            var material := IsMaterial(step, rt, st);
            && Recorded(st.transition, after, material, SettlingOf(step, rt, st), step.commitUs)
            && Counted(st.transition, after,
                       !material && Confirms(st.transition, st.committed, c, step.commitUs, step.consistent, cal),
                       c, cal.steadyConfirmationSamples)
  {
    var candidate, c, cal := Candidate(step, rt, st), Committed(step, rt, st), rt.calibration.value;
    MoveIsRead(step, rt, st);
    MaterialRestarts(step, rt, st);
    CandidateDescribesItsMove(step, rt, st);
    MoveIsConsistent(st, candidate, c, cal);
    NoteRecords(st, candidate, c, step.commitUs, step.zeroConfirmed, step.consistent, cal);
  }

  // ---------------------------------------------------------------------------------------------
  // Induction over a trace of records
  // ---------------------------------------------------------------------------------------------

  /** What one commit contributes to the record. */
  datatype Noted = Noted(material: bool, settlingUs: nat, commitUs: Word32, confirms: bool, committed: real)

  ghost predicate Traced(ts: seq<ActiveTransition>, notes: seq<Noted>, samples: nat) {
    && |ts| == |notes| + 1 && !ts[0].active && ts[0].maximumSettlingUs == 0
    && forall k :: 0 <= k < |notes| ==>
                     && Recorded(ts[k], ts[k + 1], notes[k].material, notes[k].settlingUs, notes[k].commitUs)
                     && Counted(ts[k], ts[k + 1], notes[k].confirms, notes[k].committed, samples)
                     && !(notes[k].material && notes[k].confirms)
  }

  /** Commit o opened the transition that is active after n commits, and m is its last material commit so far. */
  ghost predicate Opened(ts: seq<ActiveTransition>, notes: seq<Noted>, o: nat, m: nat, n: nat)
    requires n < |ts| == |notes| + 1
  {
    && o <= m < n && !ts[o].active && notes[o].material && notes[m].material
    && (forall k :: o < k <= n ==> ts[k].active)
    && (forall k :: m < k < n ==> !notes[k].material)
  }

  /** The recorded settling time is the longest of the material commits from o on, and the clock runs from m. */
  ghost predicate RecordsLongest(t: ActiveTransition, notes: seq<Noted>, o: nat, m: nat, n: nat)
    requires o <= m < n <= |notes|
  {
    && t.startedUs == notes[o].commitUs && t.lastMaterialUs == notes[m].commitUs
    && (forall j :: o <= j < n && notes[j].material ==> notes[j].settlingUs <= t.maximumSettlingUs)
    && (exists j :: o <= j < n && notes[j].material && notes[j].settlingUs == t.maximumSettlingUs)
  }

  lemma {:induction false} InactiveIsClear(ts: seq<ActiveTransition>, notes: seq<Noted>, samples: nat, n: nat)
    requires Traced(ts, notes, samples) && n <= |notes|
    ensures !ts[n].active ==> ts[n].maximumSettlingUs == 0
  {
    if n > 0 {
      InactiveIsClear(ts, notes, samples, n - 1);
      assert Recorded(ts[n - 1], ts[n], notes[n - 1].material, notes[n - 1].settlingUs, notes[n - 1].commitUs);
    }
  }

  lemma {:induction false} FindOpening(ts: seq<ActiveTransition>, notes: seq<Noted>, samples: nat, n: nat)
    returns (o: nat, m: nat)
    requires Traced(ts, notes, samples) && n <= |notes| && ts[n].active
    ensures Opened(ts, notes, o, m, n) && RecordsLongest(ts[n], notes, o, m, n)
  {
    var last := notes[n - 1];
    assert Recorded(ts[n - 1], ts[n], last.material, last.settlingUs, last.commitUs);
    if ts[n - 1].active {
      var m': nat;
      o, m' := FindOpening(ts, notes, samples, n - 1);
      m := if last.material then n - 1 else m';
      var w :| o <= w < n - 1 && notes[w].material && notes[w].settlingUs == ts[n - 1].maximumSettlingUs;
      var w' := if last.material && last.settlingUs > ts[n - 1].maximumSettlingUs then n - 1 else w;
      assert notes[w'].settlingUs == ts[n].maximumSettlingUs;
    } else {
      InactiveIsClear(ts, notes, samples, n - 1);
      o, m := n - 1, n - 1;
    }
  }

  function Least(a: nat, b: nat): nat {
    if a < b then a else b
  }

  /** The last r of the first n commits all confirmed. */
  ghost predicate ConfirmedRun(notes: seq<Noted>, n: nat, r: nat)
    requires n <= |notes|
  {
    r <= n && forall k :: n - r <= k < n ==> notes[k].confirms
  }

  /** The counter of an active transition is the saturated length of the trailing run of confirming commits. */
  lemma {:induction false} CounterIsTrailingRun(ts: seq<ActiveTransition>, notes: seq<Noted>, samples: nat, n: nat)
    requires Traced(ts, notes, samples) && n <= |notes| && ts[n].active
    ensures ts[n].confirmationRequired == samples && ts[n].confirmationObserved <= MAX_CONFIRMATIONS
    ensures ConfirmedRun(notes, n, ts[n].confirmationObserved)
    ensures forall r: nat :: ConfirmedRun(notes, n, r) ==> ts[n].confirmationObserved >= Least(r, MAX_CONFIRMATIONS)
  {
    var last := notes[n - 1];
    assert Counted(ts[n - 1], ts[n], last.confirms, last.committed, samples);
    if ts[n - 1].active {
      CounterIsTrailingRun(ts, notes, samples, n - 1);
    }
    forall r: nat | ConfirmedRun(notes, n, r) ensures ts[n].confirmationObserved >= Least(r, MAX_CONFIRMATIONS) {
      assert r > 0 ==> last.confirms && ConfirmedRun(notes, n - 1, r - 1);
    }
  }

  /** An active transition ends at a commit exactly when the certified number of commits up to it all confirmed. */
  lemma SettlesAfterRun(ts: seq<ActiveTransition>, notes: seq<Noted>, samples: nat, n: nat)
    requires Traced(ts, notes, samples) && n < |notes| && ts[n].active && samples > 0
    ensures !ts[n + 1].active <==>
            && samples <= MAX_CONFIRMATIONS
            && ConfirmedRun(notes, n + 1, samples)
    ensures !ts[n + 1].active ==> ts[n + 1].anchor == notes[n].committed
  {
    CounterIsTrailingRun(ts, notes, samples, n);
    assert Counted(ts[n], ts[n + 1], notes[n].confirms, notes[n].committed, samples);
    if ConfirmedRun(notes, n + 1, samples) {
      assert ConfirmedRun(notes, n, samples - 1);
    }
  }

  // ---------------------------------------------------------------------------------------------
  // Whole runs
  // ---------------------------------------------------------------------------------------------

  function TransitionsUpTo(steps: seq<Step>, rt: Runtime, n: nat): (ts: seq<ActiveTransition>)
    requires RuntimeValid(rt) && n <= |steps|
    ensures |ts| == n + 1 && forall k :: 0 <= k <= n ==> ts[k] == StateAt(steps, rt, k).transition
  {
    seq(n + 1, k requires 0 <= k <= n => StateAt(steps, rt, k).transition)
  }

  function NoteAt(steps: seq<Step>, rt: Runtime, k: nat): Noted
    requires RuntimeValid(rt) && k < |steps|
  {
    Noted(MaterialAt(steps, rt, k), SettlingAt(steps, rt, k), steps[k].commitUs, ConfirmsAt(steps, rt, k),
          CommitAt(steps, rt, k))
  }

  function NotesUpTo(steps: seq<Step>, rt: Runtime, n: nat): (notes: seq<Noted>)
    requires RuntimeValid(rt) && n <= |steps|
    ensures |notes| == n && forall k :: 0 <= k < n ==> notes[k] == NoteAt(steps, rt, k)
  {
    seq(n, k requires 0 <= k < n => NoteAt(steps, rt, k))
  }

  lemma StepAtRecords(steps: seq<Step>, rt: Runtime, k: nat)
    requires QualifiedRuntime(rt) && k < |steps|
    ensures var before, after := StateAt(steps, rt, k).transition, StateAt(steps, rt, k + 1).transition;
            var note := NoteAt(steps, rt, k);
            && Recorded(before, after, note.material, note.settlingUs, note.commitUs)
            && Counted(before, after, note.confirms, note.committed, rt.calibration.value.steadyConfirmationSamples)
  {
    RunKeepsInv(steps, rt, k);
    StateAtNext(steps, rt, k);
    StepRecords(steps[k], rt, StateAt(steps, rt, k));
  }

  lemma RunIsTraced(steps: seq<Step>, rt: Runtime, n: nat)
    requires QualifiedRuntime(rt) && n <= |steps|
    ensures Traced(TransitionsUpTo(steps, rt, n), NotesUpTo(steps, rt, n),
                   rt.calibration.value.steadyConfirmationSamples)
  {
    assert StateAt(steps, rt, 0) == INITIAL_STATE;
    forall k | 0 <= k < n
      ensures var before, after := StateAt(steps, rt, k).transition, StateAt(steps, rt, k + 1).transition;
              var note := NoteAt(steps, rt, k);
              && Recorded(before, after, note.material, note.settlingUs, note.commitUs)
              && Counted(before, after, note.confirms, note.committed, rt.calibration.value.steadyConfirmationSamples)
    {
      StepAtRecords(steps, rt, k);
    }
  }

  predicate ActiveAt(steps: seq<Step>, rt: Runtime, i: nat)
    requires RuntimeValid(rt) && i <= |steps|
  {
    StateAt(steps, rt, i).transition.active
  }

  /** The transition active before step i was opened by the material commit o; m is the last material commit so far. */
  ghost predicate OpenSince(steps: seq<Step>, rt: Runtime, o: nat, m: nat, i: nat)
    requires RuntimeValid(rt) && i <= |steps|
  {
    && o <= m < i && !ActiveAt(steps, rt, o) && MaterialAt(steps, rt, o) && MaterialAt(steps, rt, m)
    && (forall k :: o < k <= i ==> ActiveAt(steps, rt, k))
    && (forall k :: m < k < i ==> !MaterialAt(steps, rt, k))
  }

  /** In every reachable state with an active transition the recorded settling time is the longest of all the moves
      whose material commits opened or widened it; it started with the first of them, and the settling clock runs
      from the last. */
  lemma RecordedSettling(steps: seq<Step>, rt: Runtime, i: nat) returns (o: nat, m: nat)
    requires QualifiedRuntime(rt) && i <= |steps| && ActiveAt(steps, rt, i)
    ensures OpenSince(steps, rt, o, m, i)
    ensures var t := StateAt(steps, rt, i).transition;
            && t.startedUs == steps[o].commitUs && t.lastMaterialUs == steps[m].commitUs
            && (forall j :: o <= j < i && MaterialAt(steps, rt, j) ==> SettlingAt(steps, rt, j) <= t.maximumSettlingUs)
            && exists j :: o <= j < i && MaterialAt(steps, rt, j) && SettlingAt(steps, rt, j) == t.maximumSettlingUs
  {
    var ts, notes := TransitionsUpTo(steps, rt, i), NotesUpTo(steps, rt, i);
    RunIsTraced(steps, rt, i);
    o, m := FindOpening(ts, notes, rt.calibration.value.steadyConfirmationSamples, i);
    forall k | o < k <= i ensures ActiveAt(steps, rt, k) {
      assert ts[k].active;
    }
    forall k | m < k < i ensures !MaterialAt(steps, rt, k) {
      assert !notes[k].material;
    }
    forall j | o <= j < i && MaterialAt(steps, rt, j) ensures SettlingAt(steps, rt, j) <= ts[i].maximumSettlingUs {
      assert notes[j].material;
    }
    var w :| o <= w < i && notes[w].material && notes[w].settlingUs == ts[i].maximumSettlingUs;
    assert MaterialAt(steps, rt, w) && SettlingAt(steps, rt, w) == ts[i].maximumSettlingUs;
  }

  lemma OpeningIsUnique(steps: seq<Step>, rt: Runtime, o: nat, m: nat, p: nat, q: nat, i: nat)
    requires RuntimeValid(rt) && i <= |steps| && OpenSince(steps, rt, o, m, i) && OpenSince(steps, rt, p, q, i)
    ensures o == p && m == q
  {
  }

  /** From one commit to the next the command stays within the tracking band and moves no faster than the settled rate,
      in the units of the artifact (Nm and Nm/s). */
  predicate Tracks(before: real, after: real, beforeUs: Word32, afterUs: Word32, cal: Calibration) {
    var elapsedUs := (afterUs - beforeUs) % 0x1_0000_0000;
    && beforeUs != 0 && elapsedUs != 0
    && -cal.trackingBand <= after - before <= cal.trackingBand
    && (after - before) * 1000000.0 <= cal.maximumSettledRate * elapsedUs as real
    && (before - after) * 1000000.0 <= cal.maximumSettledRate * elapsedUs as real
  }

  /** Commit k tracks the commit before it, and the measured current agrees with the model. */
  predicate TracksAt(steps: seq<Step>, rt: Runtime, k: nat)
    requires RuntimeValid(rt) && k < |steps|
  {
    && k > 0 && steps[k].consistent
    && Tracks(CommitAt(steps, rt, k - 1), CommitAt(steps, rt, k), steps[k - 1].commitUs, steps[k].commitUs,
              rt.calibration.value)
  }

  /** The certified tracking time and the settling time of each material move in o .. k - 1 fit into this many
      microseconds. */
  ghost predicate LongEnough(steps: seq<Step>, rt: Runtime, o: nat, k: nat, restUs: int)
    requires RuntimeValid(rt) && k < |steps|
  {
    && restUs >= rt.calibration.value.settledTrackingTimeUs
    && forall j :: o <= j < k && MaterialAt(steps, rt, j) ==> restUs >= SettlingAt(steps, rt, j)
  }

  /** They have passed at commit k since the material commit m. */
  ghost predicate RestedAt(steps: seq<Step>, rt: Runtime, o: nat, m: nat, k: nat)
    requires RuntimeValid(rt) && m < k < |steps|
  {
    LongEnough(steps, rt, o, k, (steps[k].commitUs - steps[m].commitUs) % 0x1_0000_0000)
  }

  lemma StableIffTracks(t: ActiveTransition, before: real, after: real, nowUs: Word32, cal: Calibration)
    requires t.latestTarget == before
    ensures TrackingStable(t, before, after, nowUs, cal) <==> Tracks(before, after, t.lastCommitUs, nowUs, cal)
  {
    var elapsedUs := Sub32(nowUs, t.lastCommitUs);
    if elapsedUs != 0 {
      var distance, elapsed := Abs(after - before), elapsedUs as real;
      RateBound(distance, elapsed, cal.maximumSettledRate);
    }
  }

  /** An active transition remembers the commit before. */
  lemma RemembersCommit(steps: seq<Step>, rt: Runtime, k: nat)
    requires QualifiedRuntime(rt) && 0 < k < |steps| && ActiveAt(steps, rt, k)
    ensures var t := StateAt(steps, rt, k).transition;
            t.latestTarget == CommitAt(steps, rt, k - 1) && t.lastCommitUs == steps[k - 1].commitUs
  {
    StepAtRecords(steps, rt, k - 1);
  }

  lemma CommittedIs(steps: seq<Step>, rt: Runtime, k: nat)
    requires RuntimeValid(rt) && 0 < k < |steps|
    ensures StateAt(steps, rt, k).committed == CommitAt(steps, rt, k - 1)
  {
    StateAtNext(steps, rt, k - 1);
  }

  lemma LongestDecides(steps: seq<Step>, rt: Runtime, o: nat, m: nat, k: nat, restUs: int)
    requires QualifiedRuntime(rt) && k < |steps| && OpenSince(steps, rt, o, m, k)
    ensures StateAt(steps, rt, k).transition.lastMaterialUs == steps[m].commitUs
    ensures LongEnough(steps, rt, o, k, restUs) <==>
            && restUs >= rt.calibration.value.settledTrackingTimeUs
            && restUs >= StateAt(steps, rt, k).transition.maximumSettlingUs
  {
    var p, q := RecordedSettling(steps, rt, k);
    OpeningIsUnique(steps, rt, o, m, p, q, k);
    var longest := StateAt(steps, rt, k).transition.maximumSettlingUs;
    var w :| o <= w < k && MaterialAt(steps, rt, w) && SettlingAt(steps, rt, w) == longest;
  }

  /** Commit k confirms that the transition is over. */
  ghost predicate Quiet(steps: seq<Step>, rt: Runtime, o: nat, m: nat, k: nat)
    requires RuntimeValid(rt) && m < k < |steps|
  {
    !MaterialAt(steps, rt, k) && TracksAt(steps, rt, k) && RestedAt(steps, rt, o, m, k)
  }

  lemma ConfirmsIff(steps: seq<Step>, rt: Runtime, o: nat, m: nat, k: nat)
    requires QualifiedRuntime(rt) && k < |steps| && OpenSince(steps, rt, o, m, k)
    ensures ConfirmsAt(steps, rt, k) <==>
            Quiet(steps, rt, o, m, k)
  {
    LongestDecides(steps, rt, o, m, k, Sub32(steps[k].commitUs, steps[m].commitUs));
    RemembersCommit(steps, rt, k);
    CommittedIs(steps, rt, k);
    StableIffTracks(StateAt(steps, rt, k).transition, CommitAt(steps, rt, k - 1), CommitAt(steps, rt, k),
                    steps[k].commitUs, rt.calibration.value);
  }

  /** A transition is declared settled, and the anchor moved to the committed torque, exactly at the commit that
      ends the certified number of commits, all after the last material one, that each track the commit before it,
      find the measured current consistent, and lie late enough for every move the transition has made. */
  lemma SettlesExactly(steps: seq<Step>, rt: Runtime, i: nat) returns (o: nat, m: nat)
    requires QualifiedRuntime(rt) && i < |steps| && ActiveAt(steps, rt, i)
    ensures OpenSince(steps, rt, o, m, i)
    ensures var samples := rt.calibration.value.steadyConfirmationSamples;
            !ActiveAt(steps, rt, i + 1) <==>
            samples <= 0xFFFF && m + samples <= i && forall k :: i - samples < k <= i ==> Quiet(steps, rt, o, m, k)
    ensures !ActiveAt(steps, rt, i + 1) ==> StateAt(steps, rt, i + 1).transition.anchor == CommitAt(steps, rt, i)
  {
    var samples := rt.calibration.value.steadyConfirmationSamples;
    var ts, notes := TransitionsUpTo(steps, rt, i + 1), NotesUpTo(steps, rt, i + 1);
    o, m := RecordedSettling(steps, rt, i);
    RunIsTraced(steps, rt, i + 1);
    SettlesAfterRun(ts, notes, samples, i);
    assert !notes[m].confirms;
    forall k | m < k <= i ensures notes[k].confirms <==> Quiet(steps, rt, o, m, k) {
      ConfirmsIff(steps, rt, o, m, k);
    }
  }
}
