/** What the observation channels hold: always the latest frame of their own, decoded from its bytes. */
module AmsObservations {
  import opened Numeric
  import opened PowerCrc
  import Consumer = PowerConsumer
  import opened AmsGate
  import opened AmsPermission

  // ---------------------------------------------------------------------------------------------
  // The bytes
  // ---------------------------------------------------------------------------------------------

  /** Five segments of 15 cells and 24 sensors: three locations, then the counts of 75 cells and 120 sensors. */
  predicate HealthPlausible(p: Payload) {
    && p[0] as int < 5 && p[2] as int < 5 && p[4] as int < 5
    && p[1] as int < 15 && p[3] as int < 15 && p[5] as int < 24 && p[6] as int <= 75 && p[7] as int <= 120
  }

  /** Either no current sensor at all, or one with its state, and an age of at most 500 ms. */
  predicate DiagnosisPlausible(p: Payload) {
    && Word(p, 6) <= 500
    && (|| (p[0] == 0 && p[1] == 0 && p[2] == 0)
        || (p[0] in {1, 2} && p[1] in {2, 3} && p[2] == 1))
  }

  lemma HealthBytes(p: Payload)
    ensures HealthSane(p) <==> HealthPlausible(p)
  {
  }

  lemma DiagnosisBytes(p: Payload)
    ensures CurrentDiagSane(p) <==> DiagnosisPlausible(p)
  {
    WordsAgree(p, 6);
  }

  // ---------------------------------------------------------------------------------------------
  // The latest frame, kept through withdrawals
  // ---------------------------------------------------------------------------------------------

  /** The last well-formed frame under an identifier. */
  function LastCarried(events: seq<Event>, id: nat): Option<Payload> {
    if events == [] then None
    else
      var n := |events| - 1;
      if Carries(events[n], id) then Some(events[n].frame.data) else LastCarried(events[..n], id)
  }

  /** The last legacy telemetry packet with this number. */
  function LastPacket(events: seq<Event>, header: int): Option<Payload> {
    if events == [] then None
    else
      var n := |events| - 1;
      if Carries(events[n], 0x6B1) && Word(events[n].frame.data, 0) == header then Some(events[n].frame.data)
      else LastPacket(events[..n], header)
  }

  function Lookup(frames: map<nat, Payload>, key: nat): Option<Payload> {
    if key in frames then Some(frames[key]) else None
  }

  // ---------------------------------------------------------------------------------------------
  // One event
  // ---------------------------------------------------------------------------------------------

  predicate IsLoggerFrame(e: Event) {
    e.Arrives? && 0x690 <= e.frame.id <= 0x6C0 && e.frame.id !in {0x6B1, 0x6B2} && Carries(e, e.frame.id)
  }

  /** How an event changes the health data, apart from its age. */
  predicate HealthStep(was: Block, next: Block, e: Event) {
    if Carries(e, 0x683) then
      next.valid && next.sane == HealthSane(e.frame.data) && next.lastMs == e.nowMs
    else if Concerns(e, 0x683) then !next.valid
    else SameBlock(next, was)
  }

  predicate DiagnosisStep(was: Passive, next: Passive, e: Event) {
    if Carries(e, 0x68B) then next.diagValid && next.diagSane == CurrentDiagSane(e.frame.data)
    else if Concerns(e, 0x68B) then !next.diagValid && !next.diagSane
    else next.diagValid == was.diagValid && next.diagSane == was.diagSane
  }

  /** The frames that are kept as they are. */
  predicate FramesStep(was: Passive, next: Passive, e: Event) {
    && next.estimator == (if Carries(e, 0x6B2) then Some(e.frame.data) else was.estimator)
    && next.loggerFrames ==
       (if IsLoggerFrame(e) then was.loggerFrames[e.frame.id := e.frame.data] else was.loggerFrames)
    && next.packets ==
       (if Carries(e, 0x6B1) && Word(e.frame.data, 0) < 72 then was.packets[Word(e.frame.data, 0) := e.frame.data]
        else was.packets)
  }

  lemma NotePowerKeeps(g: Gate, consumer: Consumer.Consumer, id: nat, accepted: bool, nowMs: Word32)
    ensures NotePower(g, consumer, id, accepted, nowMs).passive == g.passive
  {
  }

  lemma PowerKeepsPassive(g: Gate, id: nat, p: Payload, nowMs: Word32)
    requires IsPowerId(id)
    ensures ReceivePower(g, id, p, nowMs).passive == g.passive
  {
    var f := Consumer.Frame(id, false, false, 8, p);
    NotePowerKeeps(g, Consumer.Ingest(g.power, f, nowMs), id, Consumer.Accepted(g.power, f, nowMs), nowMs);
  }

  lemma WellFormedHealth(g: Gate, f: CanFrame, nowMs: Word32)
    requires f.standard && f.dlc == 8
    ensures HealthStep(g.passive.health, ReceiveWellFormed(g, f.id, f.data, nowMs).passive.health, Arrives(f, nowMs))
  {
    if IsPowerId(f.id) {
      PowerKeepsPassive(g, f.id, f.data, nowMs);
    }
  }

  lemma WellFormedDiagnosis(g: Gate, f: CanFrame, nowMs: Word32)
    requires f.standard && f.dlc == 8
    ensures DiagnosisStep(g.passive, ReceiveWellFormed(g, f.id, f.data, nowMs).passive, Arrives(f, nowMs))
  {
    if IsPowerId(f.id) {
      PowerKeepsPassive(g, f.id, f.data, nowMs);
    }
  }

  lemma WellFormedFrames(g: Gate, f: CanFrame, nowMs: Word32)
    requires f.standard && f.dlc == 8
    ensures FramesStep(g.passive, ReceiveWellFormed(g, f.id, f.data, nowMs).passive, Arrives(f, nowMs))
  {
    WordsAgree(f.data, 0);
    if IsPowerId(f.id) {
      PowerKeepsPassive(g, f.id, f.data, nowMs);
    }
  }

  lemma WithdrawalObserves(g: Gate, id: nat)
    ensures var next := InvalidateFrame(g, id).passive;
            && (if id == 0x683 then !next.health.valid else next.health == g.passive.health)
            && (if id == 0x68B then !next.diagValid && !next.diagSane
                else next.diagValid == g.passive.diagValid && next.diagSane == g.passive.diagSane)
            && next.estimator == g.passive.estimator && next.loggerFrames == g.passive.loggerFrames
            && next.packets == g.passive.packets
  {
  }

  lemma MalformedObserves(g: Gate, f: CanFrame, nowMs: Word32)
    requires !f.standard || f.dlc != 8
    ensures ReceiveFrame(g, f, nowMs).passive == InvalidateFrame(g, f.id).passive
  {
  }

  lemma AgedContent(b: Block, nowMs: Word32)
    ensures SameBlock(Aged(b, nowMs), b)
  {
  }

  lemma RefreshObserves(g: Gate, nowMs: Word32)
    ensures RefreshAuthority(g, nowMs).passive == g.passive
  {
  }

  lemma AgeingObserves(g: Gate, nowMs: Word32)
    ensures UpdateStale(g, nowMs).passive ==
            if g.status.valid then g.passive.(health := Aged(g.passive.health, nowMs)) else g.passive
  {
    RefreshObserves(UpdateStaleFlags(g, nowMs), nowMs);
  }

  lemma StepDiagnoses(g: Gate, e: Event)
    ensures HealthStep(g.passive.health, Step(g, e).passive.health, e)
    ensures DiagnosisStep(g.passive, Step(g, e).passive, e)
  {
    match e
    case Arrives(f, nowMs) =>
      if f.standard && f.dlc == 8 {
        WellFormedHealth(g, f, nowMs);
        WellFormedDiagnosis(g, f, nowMs);
      } else {
        MalformedObserves(g, f, nowMs);
        WithdrawalObserves(g, f.id);
      }
    case Withdrawn(id) => WithdrawalObserves(g, id);
    case Ages(nowMs) =>
      AgeingObserves(g, nowMs);
      AgedContent(g.passive.health, nowMs);
  }

  lemma StepFrames(g: Gate, e: Event)
    ensures FramesStep(g.passive, Step(g, e).passive, e)
  {
    match e
    case Arrives(f, nowMs) =>
      if f.standard && f.dlc == 8 {
        WellFormedFrames(g, f, nowMs);
      } else {
        MalformedObserves(g, f, nowMs);
        WithdrawalObserves(g, f.id);
      }
    case Withdrawn(id) => WithdrawalObserves(g, id);
    case Ages(nowMs) => AgeingObserves(g, nowMs);
  }

  // ---------------------------------------------------------------------------------------------
  // Any history
  // ---------------------------------------------------------------------------------------------

  predicate HealthHeld(events: seq<Event>, health: Block) {
    match Held(events, 0x683)
    case None => !health.valid
    case Some(k) =>
      health.valid && health.lastMs == events[k].nowMs && health.sane == HealthSane(events[k].frame.data)
  }

  predicate DiagnosisHeld(events: seq<Event>, passive: Passive) {
    match Held(events, 0x68B)
    case None => !passive.diagValid && !passive.diagSane
    case Some(k) => passive.diagValid && passive.diagSane == CurrentDiagSane(events[k].frame.data)
  }

  /** Health and current diagnosis hold their latest frame unless it was withdrawn. */
  lemma {:induction false} DiagnosesAreHeld(events: seq<Event>)
    ensures HealthHeld(events, Run(events).passive.health) && DiagnosisHeld(events, Run(events).passive)
  {
    if events != [] {
      var n := |events| - 1;
      DiagnosesAreHeld(events[..n]);
      StepDiagnoses(Run(events[..n]), events[n]);
    }
  }

  predicate FramesHeld(events: seq<Event>, passive: Passive) {
    && passive.estimator == LastCarried(events, 0x6B2)
    && (forall id :: 0x690 <= id <= 0x6C0 && id !in {0x6B1, 0x6B2} ==>
          Lookup(passive.loggerFrames, id) == LastCarried(events, id))
    && (forall header :: 0 <= header < 72 ==> Lookup(passive.packets, header) == LastPacket(events, header))
  }

  lemma FramesStayHeld(events: seq<Event>, was: Passive, next: Passive)
    requires events != [] && FramesHeld(events[..|events| - 1], was) && FramesStep(was, next, events[|events| - 1])
    ensures FramesHeld(events, next)
  {
  }

  /** Estimator, logger and legacy telemetry keep the latest frame of each kind, after any bus history. */
  lemma {:induction false} FramesAreHeld(events: seq<Event>)
    ensures FramesHeld(events, Run(events).passive)
  {
    if events != [] {
      var n := |events| - 1;
      FramesAreHeld(events[..n]);
      StepFrames(Run(events[..n]), events[n]);
      FramesStayHeld(events, Run(events[..n]).passive, Run(events).passive);
    }
  }

  // ---------------------------------------------------------------------------------------------
  // Legacy liveness
  // ---------------------------------------------------------------------------------------------

  /** The event counts as a reception: a well-formed frame of any known identifier, except the estimator, a
      telemetry packet beyond the last, and a power frame that the consumer rejects. */
  predicate Counts(g: Gate, e: Event) {
    && e.Arrives? && e.frame.standard && e.frame.dlc == 8
    && var id := e.frame.id;
       || (id == 0x6B1 && Word(e.frame.data, 0) < 72)
       || id in {0x680, 0x681, 0x682, 0x683, 0x68B} || IsLoggerFrame(e)
       || (IsPowerId(id) && Consumer.Accepted(g.power, Consumer.Frame(id, false, false, 8, e.frame.data), e.nowMs))
  }

  predicate Received(g: Gate, next: Gate, counts: bool, nowMs: Word32) {
    if counts then next.lastRxMs == nowMs && next.rxCount == (g.rxCount + 1) % 0x1_0000_0000
    else next.lastRxMs == g.lastRxMs && next.rxCount == g.rxCount
  }

  lemma NotePowerReceives(g: Gate, consumer: Consumer.Consumer, id: nat, accepted: bool, nowMs: Word32)
    ensures Received(g, NotePower(g, consumer, id, accepted, nowMs), accepted, nowMs)
  {
  }

  lemma WellFormedReceives(g: Gate, f: CanFrame, nowMs: Word32)
    requires f.standard && f.dlc == 8
    ensures Received(g, ReceiveWellFormed(g, f.id, f.data, nowMs), Counts(g, Arrives(f, nowMs)), nowMs)
  {
    WordsAgree(f.data, 0);
    if IsPowerId(f.id) {
      var frame := Consumer.Frame(f.id, false, false, 8, f.data);
      var accepted := Consumer.Accepted(g.power, frame, nowMs);
      NotePowerReceives(g, Consumer.Ingest(g.power, frame, nowMs), f.id, accepted, nowMs);
    }
  }

  lemma WithdrawalReceives(g: Gate, id: nat)
    ensures Received(g, InvalidateFrame(g, id), false, 0)
  {
  }

  /** Without a status frame the device is alive as long as anything was received in the last 500 ms; a telemetry
      packet says so at once. */
  lemma LegacyLiveness(g: Gate, e: Event, nowMs: Word32)
    ensures Received(g, Step(g, e), Counts(g, e), if e.Arrives? then e.nowMs else 0)
    ensures !g.status.valid ==>
              UpdateStale(g, nowMs).stale == (g.rxCount == 0 || (nowMs - g.lastRxMs) % 0x1_0000_0000 > 500)
    ensures !g.status.valid && Carries(e, 0x6B1) && Counts(g, e) ==> !Step(g, e).stale
  {
    match e
    case Arrives(f, at) =>
      WithdrawalReceives(g, f.id);
      if f.standard && f.dlc == 8 {
        WellFormedReceives(g, f, at);
        WordsAgree(f.data, 0);
      }
    case Withdrawn(id) => WithdrawalReceives(g, id);
    case Ages(_) =>
  }
}
