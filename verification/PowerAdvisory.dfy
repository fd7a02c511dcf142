/** The optional strategy and binding channels: what is shown was sent, is the latest word, and
    belongs to the bundle in force. */
module PowerAdvisory {
  import opened Numeric
  import opened PowerCrc
  import opened PowerConsumer
  import opened PowerHistory

  /** Event j is the last one of its identifier among the first n, and carried a good advisory frame. */
  ghost predicate LatestGood(events: seq<Event>, n: nat, j: nat, id: CanId) {
    && IsAdvisoryId(id) && j < n <= |events|
    && events[j].Receive? && events[j].frame.id == id && AdvisoryAccepted(events[j].frame)
    && forall k :: j < k < n ==> IdOf(events[k]) != id
  }

  lemma LatestExtends(events: seq<Event>, n: nat, j: nat, id: CanId)
    requires n < |events| && LatestGood(events, n, j, id) && IdOf(events[n]) != id
    ensures LatestGood(events, n + 1, j, id)
  {
  }

  /** One event and the strategy channel. */
  lemma StrategyStep(s: Consumer, e: Event)
    ensures var next := Apply(s, e).advisory.resource;
            if IdOf(e) != STRATEGY_ID then next == s.advisory.resource
            else if e.Receive? && AdvisoryAccepted(e.frame) then next == DecodeStrategy(e.frame.payload, e.nowMs)
            else !next.valid
  {
  }

  lemma BindingsStep(s: Consumer, e: Event)
    ensures var next := Apply(s, e).advisory.bindings;
            if IdOf(e) != BINDINGS_ID then next == s.advisory.bindings
            else if e.Receive? && AdvisoryAccepted(e.frame) then next == DecodeBindings(e.frame.payload, e.nowMs)
            else !next.valid
  {
  }

  lemma {:induction false} StrategyWitness(events: seq<Event>, n: nat) returns (j: nat)
    requires n <= |events| && After(INITIAL_CONSUMER, events, n).advisory.resource.valid
    ensures LatestGood(events, n, j, STRATEGY_ID)
    ensures After(INITIAL_CONSUMER, events, n).advisory.resource ==
        DecodeStrategy(events[j].frame.payload, events[j].nowMs)
  {
    var e := events[n - 1];
    StrategyStep(After(INITIAL_CONSUMER, events, n - 1), e);
    if IdOf(e) == STRATEGY_ID {
      j := n - 1;
    } else {
      j := StrategyWitness(events, n - 1);
      LatestExtends(events, n - 1, j, STRATEGY_ID);
    }
  }

  lemma {:induction false} BindingsWitness(events: seq<Event>, n: nat) returns (j: nat)
    requires n <= |events| && After(INITIAL_CONSUMER, events, n).advisory.bindings.valid
    ensures LatestGood(events, n, j, BINDINGS_ID)
    ensures After(INITIAL_CONSUMER, events, n).advisory.bindings ==
        DecodeBindings(events[j].frame.payload, events[j].nowMs)
  {
    var e := events[n - 1];
    BindingsStep(After(INITIAL_CONSUMER, events, n - 1), e);
    if IdOf(e) == BINDINGS_ID {
      j := n - 1;
    } else {
      j := BindingsWitness(events, n - 1);
      LatestExtends(events, n - 1, j, BINDINGS_ID);
    }
  }

  /** An advisory frame goes with a bundle: the same counter, no more than 250 ms old, and received within 50 ms of it,
      before or after. */
  predicate GoesWith(payload: Payload, receivedMs: Word32, counter: bv8, bundleMs: Word32, nowMs: Word32) {
    && payload[0] as int % 16 == counter as int && (nowMs - receivedMs) % 0x1_0000_0000 <= 250
    && (|| (receivedMs - bundleMs) % 0x1_0000_0000 <= 50 || (bundleMs - receivedMs) % 0x1_0000_0000 <= 50)
  }

  lemma SynchronizedGoesWith(payload: Payload, receivedMs: Word32, counter: bv8, bundleMs: Word32, nowMs: Word32)
    ensures Synchronized(counter, bundleMs, CounterOf(payload), receivedMs, nowMs) <==>
            GoesWith(payload, receivedMs, counter, bundleMs, nowMs)
  {
    CounterOnTheWire(payload);
    if CounterOf(payload) as int == counter as int {
      SameByte(CounterOf(payload), counter);
    }
  }

  lemma {:induction false} LatestIsHeld(events: seq<Event>, n: nat, j: nat)
    requires n <= |events|
    ensures var a := After(INITIAL_CONSUMER, events, n).advisory;
            && (LatestGood(events, n, j, STRATEGY_ID) ==>
                  a.resource == DecodeStrategy(events[j].frame.payload, events[j].nowMs))
            && (LatestGood(events, n, j, BINDINGS_ID) ==>
                  a.bindings == DecodeBindings(events[j].frame.payload, events[j].nowMs))
  {
    if j < n {
      var s, e := After(INITIAL_CONSUMER, events, n - 1), events[n - 1];
      StrategyStep(s, e);
      BindingsStep(s, e);
      if j < n - 1 {
        LatestIsHeld(events, n - 1, j);
      }
    }
  }

  /** Strategy data is shown only if the latest strategy event was a good frame, at most 250 ms old, with the counter of
      the bundle in force and received within 50 ms of it. */
  lemma ResourceIsJustified(events: seq<Event>, nowMs: Word32) returns (j: nat)
    requires Resource(After(INITIAL_CONSUMER, events, |events|), nowMs).Some?
    ensures LatestGood(events, |events|, j, STRATEGY_ID)
    ensures var s := After(INITIAL_CONSUMER, events, |events|);
            && Resource(s, nowMs) == Some(DecodeStrategy(events[j].frame.payload, events[j].nowMs))
            && GoesWith(events[j].frame.payload, events[j].nowMs, s.core.active.immediate.counter,
                        s.core.active.immediate.receivedMs, nowMs)
            && ImmediateAuthority(s.core, nowMs).Some?
  {
    j := StrategyWitness(events, |events|);
    var bundle := After(INITIAL_CONSUMER, events, |events|).core.active.immediate;
    SynchronizedGoesWith(events[j].frame.payload, events[j].nowMs, bundle.counter, bundle.receivedMs, nowMs);
  }

  /** Binding metadata beside an envelope is justified in the same way; without it the envelope is still shown. */
  lemma BindingsAreJustified(events: seq<Event>, nowMs: Word32) returns (j: nat)
    requires var shown := FeasibilityEnvelope(After(INITIAL_CONSUMER, events, |events|), nowMs);
             shown.Some? && shown.value.1.Some?
    ensures LatestGood(events, |events|, j, BINDINGS_ID)
    ensures var s := After(INITIAL_CONSUMER, events, |events|);
            && FeasibilityEnvelope(s, nowMs) == Some((s.core.active.envelope,
                                                      Some(DecodeBindings(events[j].frame.payload, events[j].nowMs))))
            && GoesWith(events[j].frame.payload, events[j].nowMs, s.core.active.envelope.counter,
                        s.core.active.immediate.receivedMs, nowMs)
  {
    j := BindingsWitness(events, |events|);
    var active := After(INITIAL_CONSUMER, events, |events|).core.active;
    SynchronizedGoesWith(events[j].frame.payload, events[j].nowMs, active.envelope.counter,
                         active.immediate.receivedMs, nowMs);
  }

  /** The converse: a latest good strategy frame is shown exactly while authority is, and it goes with the bundle in
      force. */
  lemma GoodStrategyIsShown(events: seq<Event>, j: nat, nowMs: Word32)
    requires LatestGood(events, |events|, j, STRATEGY_ID)
    ensures var s, e := After(INITIAL_CONSUMER, events, |events|), events[j];
            var bundle := s.core.active.immediate;
            Resource(s, nowMs) ==
            if ImmediateAuthority(s.core, nowMs).Some?
               && GoesWith(e.frame.payload, e.nowMs, bundle.counter, bundle.receivedMs, nowMs) then
              Some(DecodeStrategy(e.frame.payload, e.nowMs))
            else None
  {
    var bundle := After(INITIAL_CONSUMER, events, |events|).core.active.immediate;
    LatestIsHeld(events, |events|, j);
    SynchronizedGoesWith(events[j].frame.payload, events[j].nowMs, bundle.counter, bundle.receivedMs, nowMs);
  }

  /** The envelope is shown exactly while authority is, and its bindings exactly when they go with it. */
  lemma GoodBindingsAreShown(events: seq<Event>, j: nat, nowMs: Word32)
    requires LatestGood(events, |events|, j, BINDINGS_ID)
    ensures var s, e := After(INITIAL_CONSUMER, events, |events|), events[j];
            var active := s.core.active;
            var together := GoesWith(e.frame.payload, e.nowMs, active.envelope.counter, active.immediate.receivedMs,
                                     nowMs);
            FeasibilityEnvelope(s, nowMs) ==
            if ImmediateAuthority(s.core, nowMs).None? then None
            else Some((active.envelope,
                       if together then Some(DecodeBindings(e.frame.payload, e.nowMs)) else None))
  {
    var active := After(INITIAL_CONSUMER, events, |events|).core.active;
    LatestIsHeld(events, |events|, j);
    SynchronizedGoesWith(events[j].frame.payload, events[j].nowMs, active.envelope.counter,
                         active.immediate.receivedMs, nowMs);
  }
}
