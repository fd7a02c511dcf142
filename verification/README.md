# Torque authority of the DER26 ECU, modelled and proved in Dafny

The ECU turns a driver's torque request into a CAN command for a CM200 inverter, and must never command a torque whose
battery current the accumulator has not authorised. This project models the chain that decides this and proves what it
guarantees. `dafny verify dfyconfig.toml` checks everything.

| module | what it models |
|---|---|
| `Numeric` | finite reals for C floats, 32-bit counters and timestamps with wrap-around |
| `GridCoverage`, `Calibration` | boot qualification of the pack-current artifact, with the finite midpoint test of region coverage |
| `SteadyModel`, `TransitionModel` | the interval evaluators used on every control step |
| `OperatingTruth` | both evaluators against every true torque and operating point that the tolerances of a measurement allow |
| `TorqueClamp`, `ClampRun`, `ClampCode` | one control step: the vocabulary, the step as a function, and the loops that update one output record in place |
| `ClampCommit`, `ClampRuns` | re-verification at commit, the committed state, and whole runs from initialisation |
| `ClampCells`, `ClampSelection` | what a torque cell offers for a target; which torque a step may select |
| `ClampSafety`, `ClampExposure` | what a step may commit; when the transition it publishes is authorised |
| `ClampFamilies`, `ClampRefined` | the certified family each move is judged against; a run in which it is not that of the move |
| `ClampConditions` | the decisions of a step as conditions on its input: request, gates, microsteps, reasons, margins, fallback |
| `ClampRelease`, `ClampGrant`, `ClampCost` | what a step must grant, downward and upward, and may cost |
| `ClampUncalibrated`, `ClampAnchor` | what a commit under an invalid calibration handle leaves behind; a run in which it drops the settled anchor |
| `ClampStale`, `ClampStaleExample` | runs whose candidates are older than the state they are committed into |
| `ClampSettling`, `ClampRecords` | exactly when a transition is declared settled; what every commit leaves in the record |
| `Bytes`, `PowerCrc`, `PowerConsumer` | the CRC-protected four-frame power bundle |
| `PowerBytes`, `PowerGolden` | the wire format byte by byte; the golden vectors of the sender |
| `PowerHistory`, `PowerAdvisory`, `PowerRecovery` | what valid authority and advisory data say about the past; recovery from any state |
| `TorqueChain` | bus frames, consumer and clamp put together |
| `SampleArtifact`, `ClampExample` | small qualified artifacts, and runs that commit torque under them |
| `ClampWitnesses`, `ClampOverrun` | runs under such artifacts in which a natural claim fails, or the execution contract is left |
| `AmsGate`, `AmsIsolation` | the AMS receive dispatch and the torque permission; isolation from observation traffic |
| `AmsPermission`, `AmsObservations` | exactly which latest frames grant torque; what the observation channels hold |
| `TxMailbox`, `TxInterleaving` | transmit mailbox ownership; every interleaving of task, interrupt and hardware |
| `ResidualMonitor` | persistence of the current residual, counted in distinct samples |
| `LoggerRing` | the raw CAN ring between the receive interrupt and the logger task |

Code that works by changing state step by step is a class or a method with loops, proved equal to a function of its input
and old state; the theorems are about those functions. Events, signals and steps are sequences of any length and content.

Conventions. C floats are reals and `truncf` is truncation toward zero. Bit masks over slots and mailboxes are sets.
Error returns are constructors or options. In `PowerHistory` a *signal* is what an event means to the bundle (silence, a
transport fault, or a clean frame for one slot), so statements about signals are statements about frames:
`PowerBytes.SignalIff` says which frame is which signal. In the run models the committed step carries every input the firmware reads: the request, the
operating point, the authority at compute time and at commit time, timestamps and confirmations are all arbitrary.

Findings made precise.

- The middle-of-cell fall-back of the cell candidates can answer a request with a larger torque: 1.5 Nm puts 50 Nm on the
  bus in `ClampWitnesses.SelectionExceedsRequest`. `ClampCells.UpwardCandidate` and `DownwardCandidate` give the exact
  condition per cell, `ClampSelection.NoAmplification` rests on it, and `SelectedBeyondRequestIff`,
  `SearchedBeyondRequestIff`, `HeldSearchBeyondRequestIff` and `RefinedBeyondRequest` treat whole steps, by the origin of
  their torque.
- Boot validation does not exclude a torque cell with zero strictly inside. Such a cell can answer with the wrong sign, up
  to the bus (`ClampWitnesses.SelectionOpposesRequest`), and make neighbouring commits oppose each other without a
  confirmed zero (`NeighboursOppose`). The sign and reversal theorems ask only that the guard bands, or else the middle, of
  the cells between zero and the two torques keep their sign; `OneSidedCellsKeepSigns` shows that cells on one side of zero
  always do.
- The whole-cell check builds its box at torque zero. The fast search therefore finds what the exact check accepts if and
  only if zero, widened by the torque uncertainty, is on the axis (`ClampSafety.CellSearchAgreesIff`). Boot validation accepts
  artifacts where it is not, and under those no run ever commands torque (`ClampRuns.OffAxisNeverCommands`,
  `ClampWitnesses.SearchMissesTorque`).
- A run may publish an unfinished transition that its own limits do not authorise, and only re-verification removes it
  (`ClampWitnesses.UnauthorizedTransitionIsPublished`). `ClampExposure.IncreasingExposureIff` and `ExposureIff` say exactly
  when: the unfinished bracket has lost its authority and the cell of the held torque still returns it. `ExposureExactly`
  covers every exposing candidate. Transition safety is therefore a statement about commits.
- A refined increase is judged, all the way, against the family towards the torque that the steady selection aimed at. Where
  a cell loses a sign that torque may lie beyond zero, and the selected one may end up smaller than the held one under the
  family of an increase (`ClampRefined.FallingMoveIsJudgedAsIncrease`); `ClampFamilies.FamilyOfSelectedIff` is the exact
  condition. A torque that grows is always judged against its own family.
- The transition evaluator marks "no span selected" with the largest finite float, and boot validation accepts that value as
  a certified span. Such a family is never found (`ClampWitnesses.QualifiedSpanIsNotFound`);
  `TransitionModel.RequiredFamilyEvaluates` states the exact condition.
- A zero commit under an invalid calibration handle replaces the active bracket by the span from the torque given up to
  zero, even if the settled anchor lies outside it, as in `ClampAnchor.AnchorIsDropped`. `ClampUncalibrated.KeepsInvIff`
  says exactly when the invariant of calibrated runs survives.
- `docs/ECU_TORQUE_TO_PACK_CURRENT_CLAMP.md` says that clamp state changes when the transmit mailbox accepts the command;
  the code changes it after the mailbox reports TXOK. It also describes calibration schema 2; the code demands schema 3.
  The model follows the code.
- The 32-call contract on steady evaluations is checked after the calls were made, and the static zero that replaces the
  output resets the counters. The calls made are at most 2N+7 (`ClampCost.ExecutionBounded`); `ClampOverrun.ContractIsExceeded`
  is a step that makes 39 and reports none. `ClampCost.CountersTell` says when the counters can be believed.
- The control task computes a candidate from a snapshot of the clamp state, and other commits may complete before it is sent.
  The run theorems of `ClampRuns` and `ClampSettling` are about candidates computed from the state they are committed into.
  For older ones `ClampStale` proves that the steady limits and the caps still hold, and that reversal safety fails only if
  the snapshot disagrees with the state; `ClampStaleExample` shows that it then does fail, and bracket agreement with it.
- After an interrupted bundle, two consecutive clean bundles restore authority exactly when no stage with the first one's
  counter is still open; otherwise three are needed, and three always suffice.

## Model

| member | source | states |
|---|---|---|
| `GridCoverage.RegionsCoverDomain` | Core/Src/power/ecu_pack_current_model.c:266-349 | For up to four well-formed regions the answer is true exactly when every real point of the closed four-dimensional box lies in some region; with a malformed region, exactly when an earlier region contains the whole box |
| `GridCoverage.MidpointsDecideCoverage` | Core/Src/power/ecu_pack_current_model.c:311-348 | On any grid that contains every clipped region end, every point of the box is covered if and only if all cell midpoints are |
| `GridCoverage.UncoveredMidpoint` | Core/Src/power/ecu_pack_current_model.c:340-343 | A midpoint in no region is a point of the box that no region covers, so the refusal is never spurious |
| `GridCoverage.AddUniqueBoundary` | Core/Src/power/ecu_pack_current_model.c:191-205 | In the ten-slot array a new boundary is appended, a present one is not repeated, and no other slot changes |
| `GridCoverage.InsertAt` | Core/Src/power/ecu_pack_current_model.c:207-220 | One insertion step sorts one more slot and permutes the prefix |
| `GridCoverage.SortBoundaries` | Core/Src/power/ecu_pack_current_model.c:207-220 | The prefix is sorted and is a permutation of what it was; the rest is untouched |
| `GridCoverage.BuildBoundaries` | Core/Src/power/ecu_pack_current_model.c:222-264 | The array ends up strictly increasing and holds exactly the domain ends and the region ends strictly inside the domain: nothing is dropped for lack of slots |
| `GridCoverage.GridMidpointsCovered` | Core/Src/power/ecu_pack_current_model.c:317-348 | The four nested loops answer true exactly when every cell midpoint is covered |
| `GridCoverage.AnyRegionContains` | Core/Src/power/ecu_pack_current_model.c:331-339 | The innermost loop finds out whether some region contains the point |
| `Calibration.CheckAxis` | Core/Src/power/ecu_pack_current_model.c:444-452 | Accepts exactly the strictly increasing torque axes |
| `Calibration.CheckSteadyCells` | Core/Src/power/ecu_pack_current_model.c:454-480 | Accepts exactly when each steady cell spans its axis interval and its valid regions cover the certified domain |
| `Calibration.CheckTransitionCells` | Core/Src/power/ecu_pack_current_model.c:482-510 | The same for transition cells, their profile, direction and span |
| `Calibration.CheckFamilies` | Core/Src/power/ecu_pack_current_model.c:512-549 | Accepts exactly when all nine required families reach the largest axis torque |
| `Calibration.CheckLateZero` | Core/Src/power/ecu_pack_current_model.c:551-581 | Accepts exactly when the static late-zero envelope and settling time dominate every region of every zero family |
| `Calibration.CheckDominated` | Core/Src/power/ecu_pack_current_model.c:613-638 | Compares only the first larger-span region with the same domain |
| `Calibration.CheckSpanMonotone` | Core/Src/power/ecu_pack_current_model.c:583-641 | Accepts exactly when larger spans of a family dominate smaller ones region by region |
| `Calibration.ValidateFull` | Core/Src/power/ecu_pack_current_model.c:384-644 | Boot validation decides exactly the declarative predicate Qualified |
| `Calibration.Qualify` | Core/Src/power/ecu_pack_current_model.c:646-667 | A runtime handle that passes the bounded run-time check is produced for qualified artifacts only |
| `Calibration.QualifiedIdentity` | Core/Src/power/ecu_pack_current_model.c:384-443 | A qualified artifact in numbers: schema 3, its magic number, evidence, a matching nonzero checksum, and the sizes of its tables |
| `Calibration.CellsInOrder` | Core/Src/power/ecu_pack_current_model.c:444-463 | Cells of a qualified artifact follow each other without overlap |
| `SteadyModel.EvaluateCellsLoop` | Core/Src/power/ecu_pack_current_model.c:807-891 | The accumulation loop over the touched cells computes the function EvaluateCells |
| `SteadyModel.EvaluateSteadyLoop` | Core/Src/power/ecu_pack_current_model.c:893-946 | The cell lookup loop with its four-entry index array computes EvaluateSteady |
| `SteadyModel.EvaluateSteadyCellLoop` | Core/Src/power/ecu_pack_current_model.c:948-976 | The whole-cell evaluation computes EvaluateSteadyCell |
| `SteadyModel.HullOfIsHull` | Core/Src/power/ecu_pack_current_model.c:787-805 | Absorbing intervals one by one gives the least interval that contains them all |
| `SteadyModel.EvaluateCellsExact` | Core/Src/power/ecu_pack_current_model.c:807-891 | Over in-range cells of a qualified artifact the sixteen-region overflow and the numeric fault are unreachable, and the result is the widened hull of exactly the touched regions |
| `SteadyModel.SteadyTotalAndExact` | Core/Src/power/ecu_pack_current_model.c:893-946 | For a box inside the certified domain and axis, evaluation succeeds exactly when at most four cells are touched, fails only by cell overflow, and returns the margin-widened hull of exactly the touched regions; what box and margins mean is the next row |
| `OperatingTruth.SteadyIsTrueHull` | Core/Src/power/ecu_pack_current_model.c:702-946 | The prediction in terms of what may be true: out of domain exactly when a sample is too old or some torque, speed, voltage or temperature within the calibrated tolerances (with the speed drift of its age) is not certified; otherwise the least interval that holds the current of every region in which the motor may then work, with auxiliary load, numeric and tracking margins added up, and a flag exactly when standstill may be true |
| `OperatingTruth.BoxExists` | Core/Src/power/ecu_pack_current_model.c:702-763 | There is an uncertainty box exactly when every torque and operating point within the tolerances is certified and no sample is too old |
| `SteadyModel.OlderSpeedNeverNarrows` | Core/Src/power/ecu_pack_current_model.c:702-763 | An older but still fresh speed sample never gives a narrower current interval |
| `TransitionModel.EvaluateTransitionLoop` | Core/Src/power/ecu_pack_current_model.c:995-1126 | The span selection and envelope loops compute the function EvaluateTransition |
| `TransitionModel.SelectSpanIsLeast` | Core/Src/power/ecu_pack_current_model.c:1041-1060 | The selected span is the least certified span of the family that is large enough |
| `TransitionModel.TransitionTotalAndExact` | Core/Src/power/ecu_pack_current_model.c:995-1126 | Evaluation succeeds exactly when the family certifies a large enough span and at most sixteen regions are touched; the result is their widened hull with the longest settling time |
| `OperatingTruth.TransitionIsTrueEnvelope` | Core/Src/power/ecu_pack_current_model.c:995-1126 | The transition prediction in the same terms: out of domain exactly when something that may be true is not certified or the family certifies no such span; otherwise the least interval and the longest settling time over every region that may describe the move at the least certified span that is large enough, with the numeric margins added |
| `TransitionModel.LargerSpanDominates` | Core/Src/power/ecu_pack_current_model.c:583-641 | At one profile, direction and operating point a larger span gives a containing interval and no shorter settling time whenever both evaluations succeed |
| `TransitionModel.LateZeroDominatesEvaluation` | Core/Src/power/ecu_pack_current_model.c:551-581 | The static late-zero envelope and settling time dominate every successful evaluation of a zero family |
| `TransitionModel.RequiredFamilyEvaluates` | Core/Src/power/ecu_pack_current_model.c:512-549 | For every span up to the largest axis torque a required family is evaluable within the sixteen-region budget, except that the evaluation is out of domain exactly when all its large enough cells carry the span value that marks none selected |
| `OperatingTruth.JudgedFamilyIsCertified` | Core/Src/power/ecu_pack_current_model.c:512-549 | Every family that a move or a zero command may be judged against is certified as far as either end of the torque axis is from zero |
| `TorqueClamp.QuantizeTowardZero` | Core/Src/power/ecu_torque_clamp.c:8-16 | Quantising keeps the sign, never grows the magnitude and gives a fixed point of quantising |
| `TorqueClamp.NonzeroQuantum` | Core/Src/power/ecu_torque_clamp.c:1189-1192 | A nonzero command step is at least 0.1 Nm, so the commit match tolerance never confuses it with zero |
| `ClampCode.EvaluateExactSteady` | Core/Src/power/ecu_torque_clamp.c:110-129 | One counted steady evaluation; the interval is written only on success |
| `ClampCode.EvaluateCellAuthorized` | Core/Src/power/ecu_torque_clamp.c:146-168 | The whole-cell check at torque zero and its counters |
| `ClampCode.EvaluateTransitionFor` | Core/Src/power/ecu_torque_clamp.c:424-478 | The bracket handed to the transition model and its counter |
| `ClampCode.SelectIncreasePrefix` | Core/Src/power/ecu_torque_clamp.c:189-264 | Both walking loops compute IncreasePrefix, including the counters at an early stop |
| `ClampCode.SelectReductionTowardZero` | Core/Src/power/ecu_torque_clamp.c:304-380 | Both searching loops compute ReduceTowardZero |
| `ClampCode.RefineIncrease` | Core/Src/power/ecu_torque_clamp.c:964-1007 | The four-step bisection computes Refine |
| `ClampCode.EvaluateZeroFallback` | Core/Src/power/ecu_torque_clamp.c:505-536 | The fallback fields come from the zero transition or the static envelope |
| `ClampCode.FinishZeroOutput` | Core/Src/power/ecu_torque_clamp.c:715-754 | The whole zero output equals FinishZero |
| `ClampCode.ForceStaticZeroOutput` | Core/Src/power/ecu_torque_clamp.c:646-702 | The whole static output equals ForceStaticZero |
| `ClampCode.EvaluateHeld` | Core/Src/power/ecu_torque_clamp.c:838-857 | What holding the previous torque would mean |
| `ClampCode.SelectSteady` | Core/Src/power/ecu_torque_clamp.c:865-927 | The selection branches compute Choose |
| `ClampCode.JudgeTransition` | Core/Src/power/ecu_torque_clamp.c:929-1048 | The transition branches compute Judge; which family they judge a move against is ClampFamilies.SelectedFamily |
| `ClampCode.ConcludeRun` | Core/Src/power/ecu_torque_clamp.c:1050-1088 | Final check, fallback and execution contract compute Conclude |
| `ClampCode.RunClamp` | Core/Src/power/ecu_torque_clamp.c:756-1089 | The imperative run leaves exactly the output of the function Run, and the calls it counts before any reset are the function Work |
| `ClampCommit.ClampState.ResetSettledAnchor` | Core/Src/power/ecu_torque_clamp.c:1091-1109 | The record after settling |
| `ClampUncalibrated.NextRunStartsFromZero` | Core/Src/power/ecu_torque_clamp.c:1131-1180 | After a commit that finds the calibration handle invalid, the next run starts from no torque, remembers the sign of the last nonzero commit, and is admitted exactly when its own input confirms zero, or zero was committed and the request does not oppose that sign |
| `ClampUncalibrated.BracketAfterZero` | Core/Src/power/ecu_torque_clamp.c:1154-1178 | After such a zero commit the bracket of the next command starts from rest if zero was confirmed, and otherwise still spans the torque given up |
| `ClampUncalibrated.BracketUntilSettled` | Core/Src/power/ecu_torque_clamp.c:1154-1178 | After such a zero commit without confirmed zero the bracket of every later command, until the transition settles, spans the torque given up, zero and the command |
| `ClampAnchor.AnchorIsDropped` | Core/Src/power/ecu_torque_clamp.c:1165-1178 | In a reachable state with 40 Nm committed and the anchor settled at 50 Nm such a zero commit records the bracket [0, 40], and the invariant of calibrated runs is lost |
| `ClampUncalibrated.KeepsInvIff` | Core/Src/power/ecu_torque_clamp.c:1131-1180 | Such a commit keeps the invariant of calibrated runs exactly when it carries zero and, giving up torque without a confirmed zero, leaves the settled anchor between that torque and zero |
| `ClampCommit.ClampState.NoteCommitted` | Core/Src/power/ecu_torque_clamp.c:1111-1368 | The in-place bookkeeping leaves exactly the state NoteHardwareCommit; what that state records over a run is ClampRecords.EachCommitKeeps, ClampSettling.RecordedSettling and SettlesExactly |
| `ClampSafety.NonzeroCandidate` | Core/Src/power/ecu_torque_clamp.c:756-1089 | A nonzero candidate passed every gate and the final exact check, and stays inside the execution contract |
| `ClampSafety.RefineStaysSafe` | Core/Src/power/ecu_torque_clamp.c:964-1016 | The bisection moves only to authorised quanta between its two ends |
| `ClampSafety.CandidateTransition` | Core/Src/power/ecu_torque_clamp.c:948-1030 | An exposing candidate that is not a microstep demands transition authority, and a valid transition interval is the evaluation of that very command |
| `ClampSafety.AuthorizedCurrents` | Core/Src/power/ecu_torque_clamp.c:31-55 | An interval is authorised exactly when it is not empty, the limits are not negative, and every current in it is within them, each direction with its own permission |
| `ClampSafety.CommittedIffInForce` | Core/Src/power/ecu_torque_clamp.c:1370-1475 | A selected nonzero torque is committed, unchanged, if and only if the speed, voltage, temperature, calibration and capability generations are those of its input, at most 10 ms have passed, calibration, authority and safety gate are valid, the caps hold, the cached intervals fit the limits, and zero is confirmed if the torque opposes the last one or is the first |
| `ClampFamilies.SelectedFamily` | Core/Src/power/ecu_torque_clamp.c:382-422 | Every nonzero selection that is no microstep: an unfinished transition that holds its torque keeps its family, a hold without one is not judged, and any other move is judged as composed exactly while a transition is unfinished and slewed otherwise, from zero, away from zero or towards zero |
| `ClampFamilies.FamilyOfSelected` | Core/Src/power/ecu_torque_clamp.c:382-422 | That family leads to the selected torque itself whenever the torque grows, the request does not, or the cells keep the signs |
| `ClampFamilies.FamilyOfSelectedIff` | Core/Src/power/ecu_torque_clamp.c:382-422 | And in general if and only if the selected torque and the torque that the steady selection aimed at lie on the same side of the held magnitude |
| `ClampFamilies.EveryMoveIsEvaluated` | Core/Src/power/ecu_torque_clamp.c:929-1048 | A selected torque that is neither held nor a microstep, whether it grows or falls, carries the envelope and the settling time of its own move in its own family |
| `ClampRefined.FallingMoveIsJudgedAsIncrease` | Core/Src/power/ecu_torque_clamp.c:964-1036 | A reachable run in which they do not: after 99 Nm and 1 Nm a request of 2 Nm selects -0.9 Nm under the family of an increase |
| `ClampFamilies.CommittedTorqueIsSafe` | Core/Src/power/ecu_torque_clamp.c:1370-1475 | For a committed nonzero torque: the inverter caps hold, everything it was computed for is in force, for every true torque and operating point within the tolerances some region describes the motor and each one that does lies in [-CCL, DCL] at commit, and for an exposing command so does each region that may describe its move, in the family and for the bracket of that move |
| `ClampSafety.CellSearchAgreesWithExactCheck` | Core/Src/power/ecu_torque_clamp.c:110-168 | With the zero-torque box on the axis, a torque passes the exact check exactly when its interval is on the axis, meets at most four cells, and every one of them passes the whole-cell check |
| `ClampSafety.CellSearchAgreesIff` | Core/Src/power/ecu_torque_clamp.c:110-168 | For every torque and input the fast search and the exact check agree if and only if zero, widened by the torque uncertainty, is on the axis, or the exact check refuses the torque |
| `ClampRuns.OffAxisNeverCommands` | Core/Src/power/ecu_torque_clamp.c:146-168 | Under a qualified artifact with zero off the axis every commit of every run is zero |
| `ClampWitnesses.SearchMissesTorque` | Core/Src/power/ecu_torque_clamp.c:146-168 | Such an artifact passes boot validation: 50 Nm passes the exact check while its only cell fails, and no run ever commits torque |
| `ClampCells.UpwardCandidate` | Core/Src/power/ecu_torque_clamp.c:266-283 | For a positive target the offer of any cell stays within it exactly when the guard bands leave room or the quantised middle is no farther out, and is not negative exactly when the upper guard band, or else the middle, is less than one command step below zero |
| `ClampCells.DownwardCandidate` | Core/Src/power/ecu_torque_clamp.c:285-302 | The mirror image below zero |
| `ClampCells.OneSidedCellsKeepSigns` | Core/Src/power/ecu_torque_clamp.c:266-302 | Cells that lie on one side of zero keep the sign of every target |
| `ClampSelection.ReducePositiveFound` | Core/Src/power/ecu_torque_clamp.c:304-345 | The torque the search returns is the quantised candidate of an authorised cell between zero and the request, passes the exact check and is outside the zero band |
| `ClampSelection.ReduceNegativeFound` | Core/Src/power/ecu_torque_clamp.c:346-380 | The mirror image below zero |
| `ClampSelection.NoAmplification` | Core/Src/power/ecu_torque_clamp.c:816-1036 | Where the cells keep the signs of the request and of the previous torque, the selected torque has the sign of the request or is zero, and where they also admit both it never exceeds the request, hence the inverter caps |
| `ClampSelection.SelectedBeyondRequestIff` | Core/Src/power/ecu_torque_clamp.c:189-283 | The converse for a run that grows a feasible torque by an authorised walk: the selected torque is offered by the last authorised cell on the way, has the sign of the request if and only if that cell keeps it, and then exceeds the request if and only if that cell does not admit it |
| `ClampSelection.SearchedBeyondRequestIff` | Core/Src/power/ecu_torque_clamp.c:304-380 | The same for the search below a request that does not grow |
| `ClampSelection.RefinedBeyondRequest` | Core/Src/power/ecu_torque_clamp.c:964-1036 | A refined increase ends between the held torque and the offer of the last authorised cell, at the held torque or one whose transition is authorised, and exceeds the request only if that cell does not admit it |
| `ClampSelection.HeldSearchBeyondRequestIff` | Core/Src/power/ecu_torque_clamp.c:908-1036 | A growing request from an infeasible torque is answered between that torque and the offer of an authorised cell, at the offer unless its transition is refused; the offer exceeds the request if and only if the guard bands leave no room and the middle of the cell is beyond |
| `ClampSelection.PrefixCrossesAuthorizedCells` | Core/Src/power/ecu_torque_clamp.c:189-264 | Whenever the best torque of an accepted prefix increase is farther from zero than the previous one, every cell crossed on the way to it was authorised |
| `ClampSelection.NoJumpedBand` | Core/Src/power/ecu_torque_clamp.c:908-1036 | When a feasible held torque grows, every cell between it and the selected torque was authorised |
| `ClampCost.ExecutionBounded` | Core/Src/power/ecu_torque_clamp.c:631-641 | The calls made by a step over N cells, counted before any reset, are at most 2N+7 steady and 7 transition evaluations and four refinements |
| `ClampCost.CountersTell` | Core/Src/power/ecu_torque_clamp.c:631-702 | The published counters are the calls made, except that a judged run beyond the 32/8/64/4 contract publishes zero torque with all counters at zero; a nonzero selection is always inside the contract |
| `ClampOverrun.ContractIsExceeded` | Core/Src/power/ecu_torque_clamp.c:631-641 | In a reachable state under a qualified artifact with twenty cells a step makes 39 steady calls and publishes zero torque with all counters at zero |
| `ClampCost.JudgedIsSelected` | Core/Src/power/ecu_torque_clamp.c:1050-1088 | With at most five torque cells every judged nonzero torque that passes the final exact check is selected, with the fields of that judgement: the execution contract never interferes |
| `ClampGrant.WalkIsGranted` | Core/Src/power/ecu_torque_clamp.c:908-1048 | For every number of torque cells the answer of a walk from a feasible torque is selected once its exact check and, unless it is a microstep, its transition are authorised |
| `ClampGrant.IncreaseIsGranted` | Core/Src/power/ecu_torque_clamp.c:908-1048 | A growing request whose crossed cells, exact check and transition are authorised, and whose own cell keeps it within the guard bands, is selected exactly as requested |
| `ClampExposure.IncreasingExposure` | Core/Src/power/ecu_torque_clamp.c:929-1036 | For a growing request an exposing candidate publishes an authorised transition if and only if the held one still was authorised or the choice is not the held torque |
| `ClampExposure.SearchReturnsItselfIff` | Core/Src/power/ecu_torque_clamp.c:304-380 | The search below a torque returns that very torque if and only if its own cell is authorised and holds it within its guard bands, or as its middle, and it passes the exact check outside the zero band |
| `ClampExposure.IncreasingExposureIff` | Core/Src/power/ecu_torque_clamp.c:838-1036 | For a growing request the published transition lacks authority if and only if the unfinished bracket does and the cell of the held torque returns it |
| `ClampExposure.StandingExposure` | Core/Src/power/ecu_torque_clamp.c:874-1048 | For a request that does not grow an exposing candidate exceeds the request if and only if it was searched for, and every other one publishes an authorised transition |
| `ClampExposure.SearchedExposure` | Core/Src/power/ecu_torque_clamp.c:874-1048 | What a search below a request that does not grow returned publishes an authorised transition if and only if the evaluation of its own move is authorised |
| `ClampExposure.ExposureExactly` | Core/Src/power/ecu_torque_clamp.c:756-1089 | The exact condition for every exposing candidate, without any hypothesis on the cells |
| `ClampExposure.ExposureIff` | Core/Src/power/ecu_torque_clamp.c:756-1089 | Where the cells keep signs and admit request and previous torque, the exact condition for every exposing candidate: its transition is authorised unless the unfinished bracket is not and the cell of the held torque returns it |
| `ClampWitnesses.SelectionExceedsRequest` | Core/Src/power/ecu_torque_clamp.c:278-281 | Under a qualified artifact without a cell across zero, a request of 1.5 Nm is selected, re-verified and committed as 50 Nm |
| `ClampWitnesses.SelectionOpposesRequest` | Core/Src/power/ecu_torque_clamp.c:278-281 | Under a qualified artifact with a cell across zero, a request of +1.5 Nm is selected, re-verified and committed as -0.5 Nm |
| `ClampWitnesses.NeighboursOppose` | Core/Src/power/ecu_torque_clamp.c:304-345 | Under the same artifact a run commits 50 Nm and then, on a positive request and without any confirmed zero, -0.5 Nm: the sign condition of the reversal theorems cannot be dropped |
| `ClampWitnesses.UnauthorizedTransitionIsPublished` | Core/Src/power/ecu_torque_clamp.c:908-1048 | In a reachable state with 50 Nm committed a run publishes 50 Nm with a transition envelope beyond its own discharge limit, and re-verification refuses it |
| `ClampWitnesses.QualifiedSpanIsNotFound` | Core/Src/power/ecu_pack_current_model.c:1041-1060 | A qualified artifact whose spans are the largest finite float: the evaluator finds no span for 50 Nm from rest |
| `ClampRuns.SelectedIsQuantum` | Core/Src/power/ecu_torque_clamp.c:816-817 | What a run selects is a whole number of 0.1 Nm steps |
| `ClampRuns.CommitKeepsInv` | Core/Src/power/ecu_torque_clamp.c:1251-1366 | Bookkeeping keeps the run invariant and records exactly the bracket the transition model was evaluated on |
| `ClampRuns.RunKeepsInv` | Core/Src/power/ecu_torque_clamp.c:1111-1368 | The invariant holds in every state of every run from initialisation |
| `ClampRuns.BracketAgreement` | Core/Src/power/ecu_torque_clamp.c:435-449 | In every reachable state an active bracket contains the anchor and the committed torque, and each commit that leaves a transition active records the bracket of its evaluation |
| `ClampRuns.BoundedMicrostepDrift` | Core/Src/power/ecu_torque_clamp.c:559-582 | With no active transition the committed torque is within the cumulative drift of the anchor, which is within the certified maximum |
| `ClampRuns.EveryCommitIsSafe` | Core/Src/power/ecu_torque_clamp.c:1370-1475 | The statement of ClampFamilies.CommittedTorqueIsSafe at every step of every run |
| `ClampRuns.EveryCommitIsCurrent` | Core/Src/power/ecu_torque_clamp.c:1400-1453 | Every nonzero commit of every run was computed for the generations in force at commit, at most 10 ms before, under a valid calibration, authority and safety gate |
| `ClampRuns.LastSignIsRemembered` | Core/Src/power/ecu_torque_clamp.c:1183-1215 | The remembered sign is the sign of the last commit outside the hysteretic zero band |
| `ClampRuns.NeighboursNeverOppose` | Core/Src/power/ecu_torque_clamp.c:825-872 | Where the cells keep the signs of the request and of the previous torque, neighbouring commits never carry nonzero torques of opposite sign |
| `ClampRuns.ReversalNeedsConfirmedZero` | Core/Src/power/ecu_torque_clamp.c:1415-1421 | Where the cells keep those signs, a nonzero commit that opposes the last commit outside the zero band had physical zero confirmed when computed and when committed |
| `ClampRuns.OneSidedRunsKeepSigns` | Core/Src/power/ecu_torque_clamp.c:266-302 | If no cell lies across zero the cells keep those signs at every step of every run |
| `ClampStale.FreshSnapshotsAgree` | Core/Src/tasks/apps_task.c:215-275 | Runs in which every candidate is computed from the state it is committed into are exactly the runs above |
| `ClampStale.StaleCommitIsSafe` | Core/Src/tasks/apps_task.c:215-351 | However old the snapshot of its candidate, a nonzero commit respects the caps and has its whole steady current uncertainty within the limits read at that commit |
| `ClampStale.StaleCommitIsCurrent` | Core/Src/tasks/apps_task.c:215-351 | However old the snapshot, a nonzero commit was computed for the generations in force at commit, at most 10 ms before |
| `ClampStale.StaleNeighboursOppose` | Core/Src/tasks/apps_task.c:215-351 | Where the cells keep the signs, a commit opposes the one before it only if its snapshot does not hold that torque |
| `ClampStale.StaleSignIsRemembered` | Core/Src/tasks/canbus_task.c:535-560 | The remembered sign is that of the last commit outside the zero band, whatever the snapshots |
| `ClampStale.StaleReversal` | Core/Src/tasks/canbus_task.c:435-560 | Where the cells keep the signs, a nonzero commit that opposes the last one outside the zero band had zero confirmed at compute and at commit, or its snapshot remembers another sign than the state it is committed into |
| `ClampStaleExample.StaleCandidatesOppose` | Core/Src/tasks/canbus_task.c:435-560 | Two candidates from one snapshot at rest commit 50 Nm and then -50 Nm without any confirmed zero, and the envelope of the second was evaluated for half of the recorded bracket |
| `ClampSettling.RecordedSettling` | Core/Src/power/ecu_torque_clamp.c:1265-1311 | In every reachable state with an active transition the recorded settling time is the longest of all the moves whose material commits opened or widened it, and the settling clock runs from the last of them |
| `ClampSettling.SettlesExactly` | Core/Src/power/ecu_torque_clamp.c:1312-1362 | Over whole runs a transition is declared settled, and the anchor moved to the committed torque, exactly at the commit that ends the certified number of commits, all after the last material one, each within the tracking band and the settled rate of the commit before it, with the measured current consistent, and at least the tracking time and the settling time of every material move of the transition after the last of them |
| `ClampRecords.SettlingIsCertified` | Core/Src/power/ecu_torque_clamp.c:1189-1311 | The settling time that a material move to torque brings into that record is at least that of each certified region that may describe the move |
| `ClampRecords.EachCommitKeeps` | Core/Src/power/ecu_torque_clamp.c:1183-1366 | Every commit of every run: the zero band is hysteretic, the path follows the command, the anchor moves only when a transition settles or at first rest, and the recorded drift is the travel of the command since |
| `ClampRecords.EachCommitReportsPhase` | Core/Src/power/ecu_torque_clamp.c:1251-1366 | The reported phase after every commit of every run |
| `ClampConditions.RequestMeans` | Core/Src/power/ecu_torque_clamp.c:8-16 | The request is the requested torque between the caps, cut to the nearest whole tenth of a newton metre on the way to zero |
| `ClampConditions.GatesDecide` | Core/Src/power/ecu_torque_clamp.c:800-872 | The gates as conditions on the input: a refused run sends zero with the first reason that applies, and a nonzero torque met none |
| `ClampConditions.MicrostepIff` | Core/Src/power/ecu_torque_clamp.c:538-582 | A torque is a microstep exactly when the steady selection takes the request and the request is a small step: settled, same sign, outside the zero band, within the step, band, rate, anchor and drift limits |
| `ClampConditions.ReasonTells` | Core/Src/power/ecu_torque_clamp.c:865-1048 | A torque reports no reason exactly when it is the request, and otherwise the current or the transition limit |
| `ClampConditions.MarginIsReported` | Core/Src/power/ecu_torque_clamp.c:584-629 | A torque reports low authority exactly when the prediction takes the certified fraction of a limit, leaves less than the certified headroom, or the torque is negligible |
| `ClampConditions.VerdictTells` | Core/Src/power/ecu_torque_clamp.c:1370-1475 | Re-verification accepts a selected torque exactly when nothing it was computed for has changed, and otherwise sends zero and names the first change in the order of the source |
| `ClampConditions.EveryOutputHasFallback` | Core/Src/power/ecu_torque_clamp.c:505-536 | Whatever a run selects, it carries a valid way to zero within the static late-zero envelope and settled no later |
| `ClampConditions.RefusalIsZero` | Core/Src/power/ecu_torque_clamp.c:480-536 | A refused run, or one that must give up torque of the opposite sign first, sends zero under the reversal, unknown or plain zero family, with the envelope of that very move or the static one |
| `ClampConditions.ZeroReports` | Core/Src/power/ecu_torque_clamp.c:715-754 | What a zero output reports: the prediction at zero torque, an infeasible auxiliary load, and exhaustion only if torque was considered |
| `ClampRelease.ReductionIsGranted` | Core/Src/power/ecu_torque_clamp.c:874-907 | A same-sign reduction that passes the exact check and has a decay envelope is selected exactly as requested and waits for no transition authority |
| `ClampRelease.EveryStepAnswers` | Core/Src/power/ecu_torque_clamp.c:756-1089 | A step is refused only for caps of the wrong sign; every other step ends in a valid output |
| `ClampRelease.ZeroIsAlwaysCommandable` | Core/Src/power/ecu_torque_clamp.c:1392-1398 | A step with usable caps that selects no torque is accepted under every verification, and so is the static zero after an overrun |
| `PowerCrc.AbsorbByte` | Core/Src/ext_drivers/ams_power_consumer.c:58-64 | The bitwise inner loop |
| `PowerCrc.ComputeCrc8` | Core/Src/ext_drivers/ams_power_consumer.c:44-67 | The checksum loop over identifier and payload |
| `PowerCrc.OneByteChangesRemainder` | Core/Src/ext_drivers/ams_power_consumer.c:56-65 | Messages that differ in one byte have different remainders |
| `PowerCrc.CorruptedByteDetected` | Core/Src/ext_drivers/ams_power_consumer.c:532-537 | A valid frame with one payload or checksum byte changed is rejected |
| `PowerCrc.IdentifierIsProtected` | Core/Src/ext_drivers/ams_power_consumer.c:51-53 | A payload valid under one power identifier is never valid under another |
| `PowerConsumer.NextCounterFollows` | Core/Src/ext_drivers/ams_power_consumer.c:326-329 | The expected counter is the integer successor modulo 16 |
| `PowerConsumer.CounterOnTheWire` | Core/Src/ext_drivers/ams_power_consumer.c:539-547 | The counter of a frame is its first byte modulo 16 |
| `PowerBytes.SignalIff` | Core/Src/ext_drivers/ams_power_consumer.c:497-547 | The consumer takes exactly the standard data frames of eight bytes under 0x684-0x687 with version nibble 2, the right checksum and well-formed content, sorted by identifier and by the low nibble of the first byte; anything else under these identifiers is a fault |
| `PowerBytes.CoreFrameIff` | Core/Src/ext_drivers/ams_power_consumer.c:105-208 | The content rules of the four core frames in numbers: flag bits, ranges in tenths of an ampere and tens of watts, nibbles, percentages, falling envelopes |
| `PowerBytes.BundleIff` | Core/Src/ext_drivers/ams_power_consumer.c:240-254 | The envelope of a bundle agrees with its scalar limits to half an ampere |
| `PowerBytes.DirectionOnWire` | Core/Src/ext_drivers/ams_power_consumer.c:268-297 | The authority bits and the scales of a decoded direction |
| `PowerBytes.AdvisoryIff` | Core/Src/ext_drivers/ams_power_consumer.c:200-238 | Which strategy and binding frames are taken, byte by byte |
| `PowerGolden.GoldenVectors` | host_tests/power/ams_v036_golden_vector_test.c:27-152 | The frames that the accumulator firmware generates, taken through checksum, bundle machine and decoders, show exactly the values the sender meant: limits, envelope, bindings, state of health and strategy |
| `PowerGolden.FirstSetShowsNothing` | host_tests/power/ams_v036_golden_vector_test.c:79-82 | After the first set no authority is shown |
| `PowerConsumer.PowerConsumer.InvalidateTransport` | Core/Src/ext_drivers/ams_power_consumer.c:97-103 | Drops the active bundle, the streak and the stage |
| `PowerConsumer.PowerConsumer.CompleteBundle` | Core/Src/ext_drivers/ams_power_consumer.c:256-351 | Decodes a consistent full stage, extends or restarts the streak, or invalidates |
| `PowerConsumer.PowerConsumer.OpenStage` | Core/Src/ext_drivers/ams_power_consumer.c:548-562 | Opens a stage for the counter, abandoning an incomplete one |
| `PowerConsumer.PowerConsumer.JoinStage` | Core/Src/ext_drivers/ams_power_consumer.c:563-583 | Skew, duplicate, store and completion; the answer says whether the frame was kept |
| `PowerConsumer.PowerConsumer.IngestFrame` | Core/Src/ext_drivers/ams_power_consumer.c:497-584 | The whole ingest equals the function Ingest, and its answer the predicate Accepted |
| `PowerConsumer.PowerConsumer.IngestAdvisory` | Core/Src/ext_drivers/ams_power_consumer.c:443-475 | A bad advisory frame hides its own channel only |
| `PowerConsumer.PowerConsumer.InvalidateFrame` | Core/Src/ext_drivers/ams_power_consumer.c:477-495 | The malformed-frame notice |
| `PowerConsumer.PowerConsumer.GetImmediateAuthority` | Core/Src/ext_drivers/ams_power_consumer.c:586-615 | The freshness rule of the getter |
| `PowerConsumer.CheckBindings` | Core/Src/ext_drivers/ams_power_consumer.c:210-238 | The six-nibble check |
| `PowerHistory.StageWitness` | Core/Src/ext_drivers/ams_power_consumer.c:545-583 | Every slot of an open stage was brought by a clean frame of its counter within 50 ms of the first, with no other core traffic in between |
| `PowerHistory.CompletionHasEvidence` | Core/Src/ext_drivers/ams_power_consumer.c:256-351 | A completed bundle is backed by four such frames and shows exactly their decoded values |
| `PowerHistory.StreakCountsChain` | Core/Src/ext_drivers/ams_power_consumer.c:324-350 | The streak is the saturated length of the unbroken chain of bundles since the last disturbance or counter break |
| `PowerHistory.ValidIffJustified` | Core/Src/ext_drivers/ams_power_consumer.c:345-347 | Authority is held exactly when the last two complete bundles have consecutive counters and nothing was disturbed since the first of them |
| `PowerHistory.AuthorityIsJustified` | Core/Src/ext_drivers/ams_power_consumer.c:586-615 | Whenever authority is shown, its values decode one evidenced bundle at most 250 ms old that satisfies the previous row |
| `PowerHistory.JustifiedIsShown` | Core/Src/ext_drivers/ams_power_consumer.c:586-595 | The converse, up to the age and the 50 ms limit on a later open stage |
| `PowerHistory.CoreFollowsSignals` | Core/Src/ext_drivers/ams_power_consumer.c:497-584 | Advisory and unrelated events never reach the bundle state machine |
| `PowerRecovery.FreshBundle` | Core/Src/ext_drivers/ams_power_consumer.c:545-583 | A clean bundle that opens its own stage completes at its fourth frame, in any order |
| `PowerRecovery.TwoBundlesSuffice` | Core/Src/ext_drivers/ams_power_consumer.c:324-350 | Two consecutive clean bundles restore authority when no open stage carries the first counter |
| `PowerRecovery.TwoBundlesSufficeIff` | Core/Src/ext_drivers/ams_power_consumer.c:548-575 | For every reachable state shape, two bundles restore authority exactly when no open stage carries the first counter |
| `PowerRecovery.ThreeBundlesRecover` | Core/Src/ext_drivers/ams_power_consumer.c:497-615 | From any state whatsoever three consecutive clean bundles leave authority valid at the last frame |
| `PowerRecovery.SelfStabilizes` | Core/Src/ext_drivers/ams_power_consumer.c:497-615 | The same for the whole consumer with arbitrary advisory and unrelated events interleaved |
| `PowerRecovery.ReachableShape` | Core/Src/ext_drivers/ams_power_consumer.c:548-583 | An open stage of a reachable state holds some frames but not all |
| `PowerConsumer.PowerConsumer.BundleFresh` | Core/Src/ext_drivers/ams_power_consumer.c:586-595 | The freshness rule: valid, at most 250 ms old, and no open stage older than 50 ms |
| `PowerConsumer.PowerConsumer.GetSoh` | Core/Src/ext_drivers/ams_power_consumer.c:687-703 | The state-of-health getter |
| `PowerConsumer.PowerConsumer.GetResourceState` | Core/Src/ext_drivers/ams_power_consumer.c:660-685 | The resource getter |
| `PowerConsumer.PowerConsumer.GetFeasibilityEnvelope` | Core/Src/ext_drivers/ams_power_consumer.c:617-658 | The envelope getter with its optional metadata |
| `PowerAdvisory.ResourceIsJustified` | Core/Src/ext_drivers/ams_power_consumer.c:660-685 | Strategy data is shown only if the latest strategy event was a good frame, at most 250 ms old, with the counter of the bundle in force and within 50 ms of it |
| `PowerAdvisory.BindingsAreJustified` | Core/Src/ext_drivers/ams_power_consumer.c:633-656 | The same for the binding metadata beside the envelope |
| `PowerAdvisory.GoodStrategyIsShown` | Core/Src/ext_drivers/ams_power_consumer.c:660-685 | The converse: a latest good strategy frame is shown exactly while authority is and it goes with the bundle in force |
| `PowerAdvisory.GoodBindingsAreShown` | Core/Src/ext_drivers/ams_power_consumer.c:617-658 | The envelope is shown exactly while authority is, and its bindings exactly when they go with it |
| `AmsGate.AmsDevice.InvalidateCanFrame` | Core/Src/ext_drivers/ams.c:209-266 | Withdraws what the identifier carried and refreshes the stale summary |
| `AmsGate.AmsDevice.ParseCompact` | Core/Src/ext_drivers/ams.c:474-616 | Status, electrical and thermal frames |
| `AmsGate.AmsDevice.ParseTelemetry` | Core/Src/ext_drivers/ams.c:397-450 | Legacy telemetry |
| `AmsGate.AmsDevice.ParsePower` | Core/Src/ext_drivers/ams.c:920-949 | Power frames and the immediate refresh of the cached authority |
| `AmsGate.AmsDevice.ParseCanFrame` | Core/Src/ext_drivers/ams.c:862-952 | The dispatch |
| `AmsGate.AmsDevice.UpdateStaleness` | Core/Src/ext_drivers/ams.c:954-984 | The periodic ageing |
| `AmsGate.OneStatusPattern` | Core/Src/ext_drivers/ams.c:1046-1060 | Exactly the status byte 0x71 with no fault bit other than the reserved one permits torque |
| `AmsPermission.PermissionIff` | Core/Src/ext_drivers/ams.c:474-616 | After any bus history, aged to any time, torque is allowed if and only if the latest status, electrical and thermal frames were not withdrawn, are at most 500 ms old and grant it byte for byte (version 1, flags 0x71, no fault but the reserved bit, consecutive sequence byte, plausible voltages, current and temperatures, thermal flags free of 0xB0), and the shown authority has a direction with positive current and power |
| `AmsPermission.AuthorityIsCached` | Core/Src/ext_drivers/ams.c:195-207 | When the cached authority is refreshed, dropped and left alone |
| `AmsObservations.DiagnosesAreHeld` | Core/Src/ext_drivers/ams.c:618-694 | Health and current-diagnostic blocks hold the latest frame of their own unless it was withdrawn |
| `AmsObservations.FramesAreHeld` | Core/Src/ext_drivers/ams.c:397-472 | Estimator, logger and legacy telemetry keep the latest frame of each kind |
| `AmsObservations.LegacyLiveness` | Core/Src/ext_drivers/ams.c:954-984 | What counts as a reception, and the 500 ms liveness rule without a status frame |
| `AmsIsolation.Noninterference` | Core/Src/ext_drivers/ams.c:1028-1077 | Deleting every logger, estimator, legacy-telemetry, health, current-diagnostic, strategy and binding event, well formed or not, changes neither the permission nor the authority |
| `AmsIsolation.RunAgrees` | Core/Src/ext_drivers/ams.c:188-266 | The two runs agree on everything the permission reads |
| `AmsIsolation.PermissionIsFresh` | Core/Src/ext_drivers/ams.c:954-1077 | Permission after ageing means three compact frames of at most 500 ms and an authority the consumer shows at this time |
| `AmsIsolation.DevicePower` | Core/Src/ext_drivers/ams.c:862-952 | The consumer inside the device has seen exactly the power events of the bus |
| `AmsIsolation.PowerFrameOrigin` | Core/Src/ext_drivers/ams.c:862-952 | Every power frame the consumer received arrived at the device as a data frame of eight bytes, in the order of the bus |
| `AmsIsolation.PermissionIsJustified` | Core/Src/ext_drivers/ams.c:1028-1089 | After any bus history torque is allowed only on the evidence of two consecutive complete bundles, the later at most 250 ms old, whose four frames arrived on the bus with one counter, right checksums and well-formed content |
| `TxMailbox.CanDriver.TransmitReadyTracked` | Core/Src/ext_drivers/canbus.c:242-311 | Nothing is enqueued behind an unresolved frame or after the latch; the new owner clears old outcomes |
| `TxMailbox.CanDriver.TxCallbackIsr` | Core/Src/ext_drivers/canbus.c:400-423 | A terminal callback moves only an owned mailbox |
| `TxMailbox.CanDriver.TxErrorIsr` | Core/Src/ext_drivers/canbus.c:435-474 | Only the mailboxes named by transmit bits lose their frame |
| `TxMailbox.CanDriver.PollOutcome` | Core/Src/ext_drivers/canbus.c:325-336 | One look at the masks |
| `TxMailbox.CanDriver.WaitTxComplete` | Core/Src/ext_drivers/canbus.c:313-398 | The two polling loops answer with the outcome that is already in the masks, or else the first terminal callback of the mailbox in either window, and latch when there is none |
| `TxMailbox.CallbacksTell` | Core/Src/ext_drivers/canbus.c:400-423 | Any sequence of callbacks leaves the driver knowing the outcome it knew before, or else exactly the first outcome of the mailbox |
| `TxInterleaving.ServeSettles` | Core/Src/stm32f7xx_it.c:474-495 | One interrupt settles each mailbox by the ending of its frame, whatever controller errors accompany it |
| `TxInterleaving.StepKeepsInv` | Core/Src/ext_drivers/canbus.c:242-474 | Every atomic step of task, interrupt and hardware keeps the ownership invariant |
| `TxInterleaving.OneFrameAtATime` | Core/Src/ext_drivers/canbus.c:265-309 | In every reachable state at most one mailbox is pending, the masks are pairwise disjoint and at most one frame is in the hardware |
| `TxInterleaving.WaitTellsTheTruth` | Core/Src/ext_drivers/canbus.c:313-398 | OK means that very frame had reached TXOK; abort means it never does, however the run continues |
| `TxInterleaving.NothingAfterLatch` | Core/Src/ext_drivers/canbus.c:276-280 | After the uncertain latch nothing is enqueued until reinitialisation |
| `TxInterleaving.CommandsAreConsecutive` | Core/Src/tasks/canbus_task.c:508-576 | The commands that reach the bus carry consecutive rolling counters |
| `TxInterleaving.ReplayedBitWouldLie` | Core/Src/stm32f7xx_it.c:483-488 | Why the error vector must be consumed: in a state that the model never reaches, with a stale transmit bit left in it, the loss of a frame in flight would be reported |
| `TorqueChain.LimitsAreOnTheWire` | Core/Src/tasks/canbus_task.c:440-463 | The limits read at commit are tenths of the big-endian words in bytes 2-3 of the first two frames, and zero in a direction whose flag byte is not valid, authorised, uninhibited and no fallback |
| `TorqueChain.CommittedTorqueIsBackedByTheBus` | Core/Src/tasks/canbus_task.c:435-491 | In every run a nonzero torque is committed only on the evidence of two consecutive complete bundles among the CAN frames that arrived at the device, the later at most 250 ms old; its four frames arrived with right checksums, and the whole steady current uncertainty lies within the limits decoded from them |
| `SampleArtifact.ArtifactQualifies` | Core/Src/power/ecu_pack_current_model.c:384-644 | Every sketched artifact of up to twenty torque cells passes boot qualification |
| `SampleArtifact.MarkerSpanIsLost` | Core/Src/power/ecu_pack_current_model.c:1041-1060 | With the largest finite float as the span of every family, every required family is out of domain although the artifact qualifies |
| `ClampExample.FirstCommand` | Core/Src/power/ecu_torque_clamp.c:756-1089 | From confirmed zero the torque with which the prefix walk answers a first request is selected with its transition, accepted by re-verification and committed |
| `ClampExample.FirstCommandReachesTheBus` | Core/Src/power/ecu_torque_clamp.c:1370-1475 | A request of 50 Nm is committed as 50 Nm under a qualified artifact: the hypotheses of the run theorems can be met |
| `ResidualMonitor.CurrentResidualMonitor.UpdateMonitor` | Core/Src/power/ecu_current_residual_monitor.c:23-142 | The update equals the function Update; an unusable configuration reports a fault and changes nothing |
| `ResidualMonitor.RepeatsDoNotCount` | Core/Src/power/ecu_current_residual_monitor.c:70-78 | Dropping every call that repeats the previous sample number changes nothing |
| `ResidualMonitor.JudgedByMeasurement` | Core/Src/power/ecu_current_residual_monitor.c:80-126 | A recent, settled, distinct sample counts against the model exactly when the measured current leaves the predicted interval widened by the measurement uncertainty on each side, or there was no usable prediction for its moment |
| `ResidualMonitor.CountersAreRuns` | Core/Src/power/ecu_current_residual_monitor.c:80-139 | Within an epoch the counters are the saturated trailing runs of judged violations and recoveries |
| `ResidualMonitor.FaultLatchesAtTrip` | Core/Src/power/ecu_current_residual_monitor.c:115-126 | A clear fault latches exactly when the trailing run of judged violations reaches the trip count |
| `ResidualMonitor.FaultClearsAfterRecovery` | Core/Src/power/ecu_current_residual_monitor.c:127-139 | A latched fault falls on a judged sample exactly when latching is off and the trailing run of recoveries reaches the clear count |
| `LoggerRing.RawRing.CanRxIsr` | Core/Src/ext_drivers/ecu_data_logger.c:930-968 | Appends the record, or counts a drop when one slot is left |
| `LoggerRing.RawRing.FlushRaw` | Core/Src/ext_drivers/ecu_data_logger.c:447-469 | Removes up to 64 records from the front, in order |
| `LoggerRing.ContentGrows` | Core/Src/ext_drivers/ecu_data_logger.c:943-967 | Moving the head appends the slot it leaves |
| `LoggerRing.ContentShrinks` | Core/Src/ext_drivers/ecu_data_logger.c:452-460 | Moving the tail removes the slot it leaves |
| `LoggerRing.StepKeepsInv` | Core/Src/ext_drivers/ecu_data_logger.c:447-469 | Every micro-step of producer and consumer keeps the queue invariant |
| `LoggerRing.OfferIsRecorded` | Core/Src/ext_drivers/ecu_data_logger.c:930-968 | An offered frame is refused exactly when 511 records wait; otherwise its record, with time, identifier, at most eight data bytes and flags, is the last accepted one |
| `LoggerRing.RingIsFifo` | Core/Src/ext_drivers/ecu_data_logger.c:930-968 | Under every interleaving drained, queued and unpublished records are the accepted ones in order, with contiguous sequence numbers, complete drop accounting and occupancy at most 511 |
| `LoggerRing.NoTornReads` | Core/Src/ext_drivers/ecu_data_logger.c:452-456 | The drain copies only published records, each one the next accepted record |

## Left out

- Float rounding, NaN, infinities and NULL arguments: every float is a finite real and every pointer is present.
- The CRC-32 over the raw bytes of the calibration: the image checksum is a given field that qualification compares.
- A calibration that becomes invalid between two steps of a run: `ClampUncalibrated` says what the commit that finds it leaves behind, but the run theorems assume one qualified calibration throughout.
- Candidates older than the state they are committed into: `ClampStale` treats safety, sign memory and reversal for them; drift, settling and `TorqueChain` assume fresh snapshots.
- Output fields that nothing reads back (the boundary refinement counter, the authority counter and its reception time) and the diagnostic error counters of the consumer, the gate, the mailboxes and the monitor.
- Torque conversion between the committed float and the 0.1 Nm wire integer in the CAN task: committed torques are quanta, so it is the identity.
- Reinitialisation inside a run of the mailbox model: a run is what happens between two initialisations of the device.
- The hardware abstraction layer returning success with mailbox token zero: its implementation always returns a real token.
- Polling delays and the tick arithmetic of the waiting loops: `TxMailbox.CanDriver.WaitTxComplete` takes the interrupts that arrive between polls as a parameter; in `TxInterleaving` a deadline may pass at any time.
- The wait for a free mailbox before a commit: it only reads state.
- Field-by-field decoding of AMS telemetry and logger frames, with its fragment and gap tracking: the gate model keeps the latest payload per identifier or packet header.
- The mission request encoder, the analog sensors, cooling, ready-to-drive and inverter supervision: mostly one-branch claims.
- Stopping a logging session and switching raw capture off, which move the tail from outside the drain loop.
- File system, SD card, command line, dashboard, tools and task scheduling.
