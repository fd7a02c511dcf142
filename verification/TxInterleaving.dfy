/** Every interleaving of the CAN task, the interrupt and the hardware. */
module TxInterleaving {
  import opened Numeric
  import opened TxMailbox

  type Counter = x: nat | x < 16

  /** The inverter accepts a command only with the next rolling counter. */
  function NextRolling(counter: Counter): Counter {
    (counter + 1) % 16
  }

  /** A CM200 command carries the rolling counter; the AMS feedback frame is sent without waiting for it. */
  datatype Frame = Command(counter: Counter) | Feedback

  datatype Ending = TxOk | LostArbitration | TxFailed | Aborted

  /** A hardware mailbox; once finished it waits for the interrupt. */
  datatype Slot = Empty | InFlight(id: nat, frame: Frame) | Finished(id: nat, frame: Frame, ending: Ending)

  /** Where the CAN task stands. */
  datatype Task =
    | Ready | Committing(frame: Frame) | Waiting(mailbox: Mailbox, id: nat) | Reconciling(mailbox: Mailbox, id: nat)

  datatype Report = Report(id: nat, status: Status)

  /** The whole system; `sent`, `bus` and `reports` record history: the frames that reached TXOK, the counters of the
      commands among them, and what the waits returned. */
  datatype System = System(
    driver: Driver, hardware: seq<Slot>, errorCode: set<ErrorBit>, task: Task, counter: Counter,
    nextId: nat, sent: set<nat>, bus: seq<Counter>, reports: seq<Report>)

  function Fresh(counter: Counter): System {
    System(NO_OWNERSHIP, [Empty, Empty, Empty], {}, Ready, counter, 0, {}, [], [])
  }

  /** One atomic step. Begin passes the free-mailbox check; Enqueue and Refuse are the critical
      section that follows; Poll is one look at the masks; Deadline requests the abort; GiveUp sets
      the latch; Finish is the hardware; Interrupt is the CAN interrupt with the controller errors
      it finds; TaskError is an error bit left by a driver call. */
  datatype Step =
    | Begin(command: bool) | Enqueue(mailbox: Mailbox) | Refuse | Poll | Deadline | GiveUp
    | Finish(mailbox: Mailbox, ending: Ending) | Interrupt(errors: set<ErrorBit>) | TaskError(error: ErrorBit)

  predicate IsTransmitBit(bit: ErrorBit) {
    bit.ArbitrationLost? || bit.TransmitError?
  }

  ghost predicate NoTransmitBits(bits: set<ErrorBit>) {
    forall bit :: bit in bits ==> !IsTransmitBit(bit)
  }

  ghost predicate Enabled(s: System, step: Step)
    requires |s.hardware| == 3
  {
    match step
    case Begin(_) => s.task.Ready?
    case Enqueue(m) => s.task.Committing? && !s.driver.uncertain && s.driver.pending == {} && !s.hardware[m].InFlight?
    case Refuse => s.task.Committing?
    case Poll => s.task.Waiting? || s.task.Reconciling?
    case Deadline => s.task.Waiting?
    case GiveUp => s.task.Reconciling?
    case Finish(m, _) => s.hardware[m].InFlight?
    case Interrupt(errors) => NoTransmitBits(errors)
    case TaskError(error) => !IsTransmitBit(error)
  }

  // ---------------------------------------------------------------------------------------------
  // The interrupt
  // ---------------------------------------------------------------------------------------------

  /** A finished mailbox is acknowledged: completion and plain abort have callbacks, the two errors set an error bit. */
  function Acknowledge(d: Driver, slot: Slot, m: Mailbox): Driver {
    if !slot.Finished? then d
    else match slot.ending
      case TxOk => OnCallback(d, Callback(m, true))
      case Aborted => OnCallback(d, Callback(m, false))
      case LostArbitration => d
      case TxFailed => d
  }

  function BitsOf(slot: Slot, m: Mailbox): set<ErrorBit> {
    if slot.Finished? && slot.ending.LostArbitration? then {ArbitrationLost(m)}
    else if slot.Finished? && slot.ending.TxFailed? then {TransmitError(m)}
    else {}
  }

  function Cleared(slot: Slot): Slot {
    if slot.Finished? then Empty else slot
  }

  /** The error callback runs only when this interrupt found an error; it consumes the accumulated vector. */
  function Serve(s: System, errors: set<ErrorBit>): System
    requires |s.hardware| == 3
  {
    var hw := s.hardware;
    var d := Acknowledge(Acknowledge(Acknowledge(s.driver, hw[0], 0), hw[1], 1), hw[2], 2);
    var found := BitsOf(hw[0], 0) + BitsOf(hw[1], 1) + BitsOf(hw[2], 2) + errors;
    var cleared := [Cleared(hw[0]), Cleared(hw[1]), Cleared(hw[2])];
    if found == {} then s.(driver := d, hardware := cleared)
    else s.(driver := OnError(d, s.errorCode + found), hardware := cleared, errorCode := {})
  }

  // ---------------------------------------------------------------------------------------------
  // The step function
  // ---------------------------------------------------------------------------------------------

  function Placed(s: System, m: Mailbox): System
    requires |s.hardware| == 3 && s.task.Committing?
  {
    var frame := s.task.frame;
    s.(driver := Own(s.driver, m), hardware := s.hardware[m := InFlight(s.nextId, frame)], nextId := s.nextId + 1,
       task := if frame.Command? then Waiting(m, s.nextId) else Ready)
  }

  /** Only a confirmed transmission advances the rolling counter. */
  function Polled(s: System): System
    requires s.task.Waiting? || s.task.Reconciling?
  {
    var m, id := s.task.mailbox, s.task.id;
    match Outcome(s.driver, m)
    case HalOk =>
      s.(driver := Collect(s.driver, m), task := Ready, counter := NextRolling(s.counter),
         reports := s.reports + [Report(id, HalOk)])
    case HalError => s.(driver := Collect(s.driver, m), task := Ready, reports := s.reports + [Report(id, HalError)])
    case HalBusy => s
    case HalTimeout => s
  }

  function Ended(s: System, m: Mailbox, ending: Ending): System
    requires |s.hardware| == 3 && s.hardware[m].InFlight?
  {
    var slot := s.hardware[m];
    var done := s.(hardware := s.hardware[m := Finished(slot.id, slot.frame, ending)]);
    if !ending.TxOk? then done
    else done.(sent := s.sent + {slot.id}, bus := if slot.frame.Command? then s.bus + [slot.frame.counter] else s.bus)
  }

  function After(s: System, step: Step): System
    requires |s.hardware| == 3 && Enabled(s, step)
  {
    match step
    case Begin(command) => s.(task := Committing(if command then Command(s.counter) else Feedback))
    case Enqueue(m) => Placed(s, m)
    case Refuse => s.(task := Ready)
    case Poll => Polled(s)
    case Deadline => s.(task := Reconciling(s.task.mailbox, s.task.id))
    case GiveUp =>
      s.(driver := s.driver.(uncertain := true), task := Ready, reports := s.reports + [Report(s.task.id, HalTimeout)])
    case Finish(m, ending) => Ended(s, m, ending)
    case Interrupt(errors) => Serve(s, errors)
    case TaskError(error) => s.(errorCode := s.errorCode + {error})
  }

  /** A run since the last device initialisation. */
  ghost predicate IsRun(states: seq<System>, steps: seq<Step>, counter: Counter) {
    && |states| == |steps| + 1 && states[0] == Fresh(counter)
    && forall i :: 0 <= i < |steps| ==> Follows(states[i], steps[i], states[i + 1])
  }

  ghost predicate Follows(s: System, step: Step, next: System) {
    |s.hardware| == 3 && Enabled(s, step) && next == After(s, step)
  }

  // ---------------------------------------------------------------------------------------------
  // The invariant
  // ---------------------------------------------------------------------------------------------

  /** A mailbox is owned exactly while its frame is in the hardware. */
  predicate Ownership(s: System) {
    && |s.hardware| == 3 && Exclusive(s.driver)
    && forall m: Mailbox :: m in s.driver.pending <==> !s.hardware[m].Empty?
  }

  predicate Occupies(slot: Slot, id: nat) {
    !slot.Empty? && slot.id == id
  }

  /** The history of sent frames agrees with the hardware. */
  predicate SentRight(slot: Slot, sent: set<nat>, nextId: nat) {
    !slot.Empty? ==> slot.id < nextId && (slot.id in sent <==> slot.Finished? && slot.ending.TxOk?)
  }

  ghost predicate History(s: System) {
    && |s.hardware| == 3
    && (forall m: Mailbox :: SentRight(s.hardware[m], s.sent, s.nextId))
    && (forall id :: id in s.sent ==> id < s.nextId)
    && NoTransmitBits(s.errorCode)
  }

  /** The frame a wait is about: still in the hardware, or its fate is in the masks. */
  predicate Tracks(s: System, m: Mailbox, id: nat)
    requires |s.hardware| == 3
  {
    && id < s.nextId && (forall k :: k in s.driver.pending ==> k == m)
    && if m in s.driver.pending then Occupies(s.hardware[m], id) && s.hardware[m].frame.Command?
       else if id in s.sent then m in s.driver.complete
       else m in s.driver.abort
  }

  /** A command in the hardware is being waited for, unless its outcome was given up. */
  predicate Awaited(s: System, m: Mailbox)
    requires |s.hardware| == 3
  {
    !s.hardware[m].Empty? && s.hardware[m].frame.Command? ==>
      s.driver.uncertain || ((s.task.Waiting? || s.task.Reconciling?) && s.task.mailbox == m
                             && s.task.id == s.hardware[m].id)
  }

  predicate Tracking(s: System)
    requires |s.hardware| == 3
  {
    && (forall m: Mailbox :: Awaited(s, m))
    && (s.task.Waiting? || s.task.Reconciling? ==> !s.driver.uncertain && Tracks(s, s.task.mailbox, s.task.id))
    && (s.task.Committing? && s.task.frame.Command? ==> s.task.frame.counter == s.counter)
  }

  /** Nothing in the hardware has this identity any more. */
  predicate Gone(s: System, id: nat)
    requires |s.hardware| == 3
  {
    id < s.nextId && forall m: Mailbox :: !Occupies(s.hardware[m], id)
  }

  predicate Truthful(s: System, r: Report)
    requires |s.hardware| == 3
  {
    && (r.status == HalOk ==> r.id in s.sent)
    && (r.status == HalError ==> r.id !in s.sent && Gone(s, r.id))
    && (r.status == HalTimeout ==> s.driver.uncertain)
  }

  /** The next command continues the sequence on the bus, or repeats its last counter. */
  predicate Ahead(s: System) {
    s.bus == [] || s.counter == (s.bus[|s.bus| - 1] as int + 1) % 16
  }

  predicate Level(s: System) {
    s.bus != [] && s.counter == s.bus[|s.bus| - 1]
  }

  predicate Consecutive(bus: seq<Counter>) {
    forall i :: 1 <= i < |bus| ==> bus[i] == (bus[i - 1] as int + 1) % 16
  }

  predicate CarriesCounter(s: System, slot: Slot) {
    slot.InFlight? && slot.frame.Command? ==> slot.frame.counter == s.counter && Ahead(s)
  }

  predicate Counting(s: System)
    requires |s.hardware| == 3
  {
    && Consecutive(s.bus)
    && (forall m: Mailbox :: CarriesCounter(s, s.hardware[m]))
    && (s.task.Waiting? || s.task.Reconciling? ==> if s.task.id in s.sent then Level(s) else Ahead(s))
    && ((s.task.Ready? || s.task.Committing?) && !s.driver.uncertain ==> Ahead(s))
  }

  ghost predicate Inv(s: System) {
    && Ownership(s) && History(s) && Tracking(s) && Counting(s)
    && forall i :: 0 <= i < |s.reports| ==> Truthful(s, s.reports[i])
  }

  // ---------------------------------------------------------------------------------------------
  // The interrupt tells the truth
  // ---------------------------------------------------------------------------------------------

  /** What a finished frame does to the masks. */
  function Settled(d: Driver, slot: Slot, m: Mailbox): Driver {
    if slot.Finished? then OnCallback(d, Callback(m, slot.ending.TxOk?)) else d
  }

  /** The frame was lost to arbitration or to a transmit error. */
  predicate FailedIn(slot: Slot) {
    slot.Finished? && (slot.ending.LostArbitration? || slot.ending.TxFailed?)
  }

  lemma OnlyOwnerAnswers(d: Driver, m: Mailbox, completed: bool)
    requires m !in d.pending
    ensures OnCallback(d, Callback(m, completed)) == d
  {
  }

  lemma ServeMailbox(d: Driver, slot: Slot, m: Mailbox, bits: set<ErrorBit>)
    requires Failed(bits, m) <==> slot.Finished? && (slot.ending.LostArbitration? || slot.ending.TxFailed?)
    ensures FailIf(Acknowledge(d, slot, m), bits, m) == Settled(d, slot, m)
  {
  }

  /** One interrupt settles each mailbox by the ending of its frame, whatever controller errors accompany it. */
  lemma ServeSettles(s: System, errors: set<ErrorBit>)
    requires Ownership(s) && NoTransmitBits(s.errorCode) && NoTransmitBits(errors)
    ensures var next := Serve(s, errors);
            && next.driver == Settled(Settled(Settled(s.driver, s.hardware[0], 0), s.hardware[1], 1), s.hardware[2], 2)
            && next.errorCode <= s.errorCode
            && (errors != {} || (exists m: Mailbox :: FailedIn(s.hardware[m])) ==> next.errorCode == {})
  {
    var hw := s.hardware;
    var found := BitsOf(hw[0], 0) + BitsOf(hw[1], 1) + BitsOf(hw[2], 2) + errors;
    forall m: Mailbox ensures Failed(s.errorCode + found, m) <==>
        hw[m].Finished? && (hw[m].ending.LostArbitration? || hw[m].ending.TxFailed?) {
      assert ArbitrationLost(m) !in s.errorCode && ArbitrationLost(m) !in errors;
      assert TransmitError(m) !in s.errorCode && TransmitError(m) !in errors;
    }
    if found == {} {
      forall m: Mailbox ensures !Failed(found, m) {
      }
      assert Failed(s.errorCode + found, 0) == false;
    }
  }

  /** The masks after an interrupt: a finished frame moves its mailbox from pending to complete or abort. */
  lemma ServeMasks(s: System, errors: set<ErrorBit>, m: Mailbox)
    requires Ownership(s) && NoTransmitBits(s.errorCode) && NoTransmitBits(errors)
    ensures var next, slot := Serve(s, errors), s.hardware[m];
            && next.hardware[m] == Cleared(slot)
            && (m in next.driver.pending <==> slot.InFlight?)
            && (m in next.driver.complete <==> m in s.driver.complete || (slot.Finished? && slot.ending.TxOk?))
            && (m in next.driver.abort <==> m in s.driver.abort || (slot.Finished? && !slot.ending.TxOk?))
            && next.driver.uncertain == s.driver.uncertain
  {
    ServeSettles(s, errors);
  }

  lemma ServeKeepsOwnership(s: System, errors: set<ErrorBit>)
    requires Ownership(s) && NoTransmitBits(s.errorCode) && NoTransmitBits(errors)
    ensures Ownership(Serve(s, errors))
  {
    forall m: Mailbox ensures m in Serve(s, errors).driver.pending <==> !Serve(s, errors).hardware[m].Empty? {
      ServeMasks(s, errors, m);
    }
    var d := Serve(s, errors).driver;
    forall a: Mailbox ensures !(a in d.pending && a in d.complete) && !(a in d.pending && a in d.abort)
        && !(a in d.complete && a in d.abort) {
      ServeMasks(s, errors, a);
    }
    forall a, b | a in d.pending && b in d.pending ensures a == b {
      ServeMasks(s, errors, a);
      ServeMasks(s, errors, b);
      assert a in s.driver.pending && b in s.driver.pending;
    }
  }

  // ---------------------------------------------------------------------------------------------
  // Every step keeps the invariant
  // ---------------------------------------------------------------------------------------------

  lemma OwnershipStep(s: System, step: Step)
    requires Inv(s) && Enabled(s, step)
    ensures Ownership(After(s, step))
  {
    if step.Interrupt? {
      ServeKeepsOwnership(s, step.errors);
    }
  }

  lemma HistoryStep(s: System, step: Step)
    requires Inv(s) && Enabled(s, step)
    ensures History(After(s, step))
  {
    var next := After(s, step);
    match step
    case Interrupt(errors) =>
      ServeSettles(s, errors);
      forall m: Mailbox ensures SentRight(next.hardware[m], next.sent, next.nextId) {
        assert SentRight(s.hardware[m], s.sent, s.nextId);
        ServeMasks(s, errors, m);
      }
    case Finish(m, ending) =>
      forall k: Mailbox ensures SentRight(next.hardware[k], next.sent, next.nextId) {
        assert SentRight(s.hardware[k], s.sent, s.nextId) && SentRight(s.hardware[m], s.sent, s.nextId);
        assert k in s.driver.pending ==> k == m;
      }
    case Enqueue(m) =>
      forall k: Mailbox ensures SentRight(next.hardware[k], next.sent, next.nextId) {
        assert SentRight(s.hardware[k], s.sent, s.nextId);
      }
    case _ =>
      forall k: Mailbox ensures SentRight(next.hardware[k], next.sent, next.nextId) {
        assert SentRight(s.hardware[k], s.sent, s.nextId);
      }
  }

  lemma TrackingStep(s: System, step: Step)
    requires Inv(s) && Enabled(s, step)
    ensures |After(s, step).hardware| == 3 && Tracking(After(s, step))
  {
    if s.task.Waiting? || s.task.Reconciling? {
      assert SentRight(s.hardware[s.task.mailbox], s.sent, s.nextId);
      if step.Interrupt? {
        ServeMasks(s, step.errors, s.task.mailbox);
      }
    }
    if step.Finish? {
      assert SentRight(s.hardware[step.mailbox], s.sent, s.nextId);
    }
    forall m: Mailbox ensures Awaited(After(s, step), m) {
      assert Awaited(s, m);
      if step.Interrupt? {
        ServeMasks(s, step.errors, m);
      }
    }
    if step.Interrupt? {
      forall k: Mailbox ensures k in After(s, step).driver.pending ==> k in s.driver.pending {
        ServeMasks(s, step.errors, k);
      }
    }
  }

  /** The hardware ends a frame: only a command that was being waited for, or given up, extends the
      sequence on the bus. */
  lemma CountingFinish(s: System, m: Mailbox, ending: Ending)
    requires Inv(s) && s.hardware[m].InFlight?
    ensures |Ended(s, m, ending).hardware| == 3 && Counting(Ended(s, m, ending))
  {
    var next := Ended(s, m, ending);
    assert SentRight(s.hardware[m], s.sent, s.nextId) && Awaited(s, m) && CarriesCounter(s, s.hardware[m]);
    forall k: Mailbox ensures CarriesCounter(next, next.hardware[k]) {
      assert k in s.driver.pending ==> k == m;
      assert CarriesCounter(s, s.hardware[k]);
    }
  }

  lemma CountingStep(s: System, step: Step)
    requires Inv(s) && Enabled(s, step)
    ensures |After(s, step).hardware| == 3 && Counting(After(s, step))
  {
    var next := After(s, step);
    if step.Finish? {
      CountingFinish(s, step.mailbox, step.ending);
    } else {
      if step.Interrupt? {
        ServeMasks(s, step.errors, 0);
      }
      forall m: Mailbox ensures CarriesCounter(next, next.hardware[m]) {
        assert CarriesCounter(s, s.hardware[m]) && Awaited(s, m) && SentRight(s.hardware[m], s.sent, s.nextId);
        if step.Interrupt? {
          ServeMasks(s, step.errors, m);
        }
      }
    }
  }

  /** Reports stay true: what was sent stays sent, and a frame that left the hardware never returns. */
  lemma ReportStands(s: System, step: Step, r: Report)
    requires Inv(s) && Enabled(s, step) && Truthful(s, r)
    ensures |After(s, step).hardware| == 3 && Truthful(After(s, step), r)
  {
    if step.Interrupt? {
      forall m: Mailbox ensures After(s, step).hardware[m] == Cleared(s.hardware[m]) {
        ServeMasks(s, step.errors, m);
      }
      ServeMasks(s, step.errors, 0);
    }
    if step.Finish? {
      assert Gone(s, r.id) ==> !Occupies(s.hardware[step.mailbox], r.id);
    }
  }

  lemma NewReport(s: System, step: Step)
    requires Inv(s) && Enabled(s, step) && After(s, step).reports != s.reports
    ensures var next := After(s, step);
            next.reports == s.reports + [next.reports[|s.reports|]] && |next.hardware| == 3
                && Truthful(next, next.reports[|s.reports|])
  {
    forall m: Mailbox ensures SentRight(s.hardware[m], s.sent, s.nextId) {
    }
  }

  lemma StepKeepsInv(s: System, step: Step)
    requires Inv(s) && Enabled(s, step)
    ensures Inv(After(s, step))
  {
    var next := After(s, step);
    OwnershipStep(s, step);
    HistoryStep(s, step);
    TrackingStep(s, step);
    CountingStep(s, step);
    forall i | 0 <= i < |next.reports| ensures Truthful(next, next.reports[i]) {
      if i < |s.reports| {
        if next.reports != s.reports {
          NewReport(s, step);
        }
        ReportStands(s, step, s.reports[i]);
      } else {
        NewReport(s, step);
      }
    }
  }

  // ---------------------------------------------------------------------------------------------
  // Whole runs
  // ---------------------------------------------------------------------------------------------

  lemma FreshInv(counter: Counter)
    ensures Inv(Fresh(counter))
  {
  }

  lemma {:induction false} RunKeepsInv(states: seq<System>, steps: seq<Step>, counter: Counter, i: nat)
    requires IsRun(states, steps, counter) && i < |states|
    ensures Inv(states[i])
  {
    if i == 0 {
      FreshInv(counter);
    } else {
      RunKeepsInv(states, steps, counter, i - 1);
      assert Follows(states[i - 1], steps[i - 1], states[i]);
      StepKeepsInv(states[i - 1], steps[i - 1]);
    }
  }

  /** In every reachable state one mailbox at most is owned, the masks are disjoint, and at most one
      frame is in the hardware. */
  lemma OneFrameAtATime(states: seq<System>, steps: seq<Step>, counter: Counter, i: nat)
    requires IsRun(states, steps, counter) && i < |states|
    ensures Exclusive(states[i].driver)
    ensures |states[i].hardware| == 3
    ensures forall a: Mailbox, b: Mailbox :: !states[i].hardware[a].Empty? && !states[i].hardware[b].Empty? ==> a == b
  {
    RunKeepsInv(states, steps, counter, i);
    var s := states[i];
    forall a: Mailbox, b: Mailbox | !s.hardware[a].Empty? && !s.hardware[b].Empty? ensures a == b {
      assert a in s.driver.pending && b in s.driver.pending;
    }
  }

  lemma {:induction false} HistoryGrows(states: seq<System>, steps: seq<Step>, counter: Counter, i: nat, j: nat)
    requires IsRun(states, steps, counter) && i <= j < |states|
    ensures states[i].sent <= states[j].sent && states[i].reports <= states[j].reports
    ensures states[i].driver.uncertain ==> states[j].driver.uncertain && states[j].nextId == states[i].nextId
  {
    if i < j {
      HistoryGrows(states, steps, counter, i, j - 1);
      var s, step := states[j - 1], steps[j - 1];
      assert Follows(s, step, states[j]);
      if step.Interrupt? {
        RunKeepsInv(states, steps, counter, j - 1);
        ServeMasks(s, step.errors, 0);
      }
    }
  }

  /** A wait that answered OK was about a frame that had reached TXOK; one that answered abort was about a frame that
      never does, however the run continues. */
  lemma WaitTellsTheTruth(states: seq<System>, steps: seq<Step>, counter: Counter, i: nat, j: nat, k: nat)
    requires IsRun(states, steps, counter) && i <= j < |states| && k < |states[i].reports|
    ensures var r := states[i].reports[k];
            && (r.status == HalOk ==> r.id in states[i].sent)
            && (r.status == HalError ==> r.id !in states[j].sent)
            && (r.status == HalTimeout ==> states[j].driver.uncertain)
  {
    RunKeepsInv(states, steps, counter, i);
    RunKeepsInv(states, steps, counter, j);
    HistoryGrows(states, steps, counter, i, j);
    assert Truthful(states[i], states[i].reports[k]);
    assert states[j].reports[k] == states[i].reports[k] && Truthful(states[j], states[j].reports[k]);
  }

  /** After the latch no frame is handed to the hardware until the device is initialised again. */
  lemma NothingAfterLatch(states: seq<System>, steps: seq<Step>, counter: Counter, i: nat, j: nat)
    requires IsRun(states, steps, counter) && i <= j < |steps| && states[i].driver.uncertain
    ensures !steps[j].Enqueue?
    ensures states[j].driver.uncertain && states[j].nextId == states[i].nextId
  {
    HistoryGrows(states, steps, counter, i, j);
    assert Follows(states[j], steps[j], states[j + 1]);
  }

  /** The commands that reach the bus carry consecutive rolling counters: none is skipped and none is repeated. */
  lemma CommandsAreConsecutive(states: seq<System>, steps: seq<Step>, counter: Counter, i: nat)
    requires IsRun(states, steps, counter) && i < |states|
    ensures Consecutive(states[i].bus)
  {
    RunKeepsInv(states, steps, counter, i);
  }

  /** Losing the reset of the error vector would break all this: an old transmit bit, replayed by a later receive
      error, reports the loss of a frame that is still in flight. */
  lemma ReplayedBitWouldLie(m: Mailbox, frame: Frame)
    ensures var s := Fresh(0).(driver := Own(NO_OWNERSHIP, m), hardware := Fresh(0).hardware[m := InFlight(0, frame)],
                               nextId := 1, errorCode := {TransmitError(m)});
            var next := Serve(s, {OtherError});
            m in next.driver.abort && next.hardware[m].InFlight?
  {
    assert TransmitError(m) in {TransmitError(m)} + {OtherError};
  }
}
