/** Recovery of the bundle protocol: clean bundles restore authority from any state, however corrupted. */
module PowerRecovery {
  import opened Numeric
  import opened PowerCrc
  import opened PowerConsumer
  import opened PowerHistory

  /** Four clean frames of one counter, one per slot in any order, within 50 ms of the first; the
      payloads by slot are consistent. */
  predicate CleanBundle(b: seq<Signal>, counter: bv8, payloads: Payloads) {
    && |b| == 4 && BundleValid(payloads)
    && (forall i :: 0 <= i < 4 ==> Member(b[i], counter, payloads))
    && (forall i :: 0 <= i < 4 ==> Sub32(b[i].nowMs, b[0].nowMs) <= 50)
    && (forall i, j :: 0 <= i < j < 4 ==> b[i].slot != b[j].slot)
  }

  predicate Member(s: Signal, counter: bv8, payloads: Payloads) {
    s.Clean? && s.counter == counter && s.payload == payloads[s.slot]
  }

  function SlotsOf(b: seq<Signal>, k: nat): set<Slot>
    requires k <= |b| && forall i :: 0 <= i < k ==> b[i].Clean?
  {
    if k == 0 then {} else SlotsOf(b, k - 1) + {b[k - 1].slot}
  }

  lemma {:induction false} SlotsOfMember(b: seq<Signal>, k: nat, slot: Slot)
    requires k <= |b| && forall i :: 0 <= i < k ==> b[i].Clean?
    ensures slot in SlotsOf(b, k) <==> exists i :: 0 <= i < k && b[i].slot == slot
  {
    if k > 0 {
      SlotsOfMember(b, k - 1, slot);
    }
  }

  /** Four distinct slots are all slots, and no three are. */
  lemma FourSlots(b: seq<Signal>, counter: bv8, payloads: Payloads)
    requires CleanBundle(b, counter, payloads)
    ensures SlotsOf(b, 4) == ALL_SLOTS
    ensures forall k :: 0 <= k < 4 ==> b[k].slot !in SlotsOf(b, k) && SlotsOf(b, k + 1) == SlotsOf(b, k) + {b[k].slot}
  {
    assert SlotsOf(b, 1) == {b[0].slot};
    assert SlotsOf(b, 2) == {b[0].slot, b[1].slot};
    assert SlotsOf(b, 3) == {b[0].slot, b[1].slot, b[2].slot};
    assert SlotsOf(b, 4) == {b[0].slot, b[1].slot, b[2].slot, b[3].slot};
  }

  // ---------------------------------------------------------------------------------------------
  // A bundle that opens its own stage completes
  // ---------------------------------------------------------------------------------------------

  /** The stage after k frames of a bundle that opened it. */
  predicate Building(stage: Stage, b: seq<Signal>, k: nat, counter: bv8, payloads: Payloads)
    requires CleanBundle(b, counter, payloads) && k <= 4
  {
    && stage.active && stage.counter == counter && stage.startedMs == b[0].nowMs && stage.mask == SlotsOf(b, k)
    && forall slot :: slot in stage.mask ==> stage.payloads[slot] == payloads[slot]
  }

  function StreakOnOpening(c: Core, counter: bv8): nat {
    if Abandons(c, counter) then 0 else c.streak
  }

  lemma StageGrows(stage: Stage, b: seq<Signal>, k: nat, counter: bv8, payloads: Payloads)
    requires CleanBundle(b, counter, payloads) && k < 4 && Building(stage, b, k, counter, payloads)
    ensures Building(Stored(stage, b[k].slot, b[k].payload), b, k + 1, counter, payloads)
  {
    FourSlots(b, counter, payloads);
    assert Member(b[k], counter, payloads);
  }

  lemma FirstFrame(c: Core, b: seq<Signal>, counter: bv8, payloads: Payloads)
    requires CleanBundle(b, counter, payloads) && !Continues(c, counter)
    ensures var next := React(c, b[0]);
            Building(next.stage, b, 1, counter, payloads) && SameBundle(next, c)
                && next.streak == StreakOnOpening(c, counter)
  {
    FourSlots(b, counter, payloads);
    assert Member(b[0], counter, payloads);
    assert 0 in ALL_SLOTS && 1 in ALL_SLOTS;
    StageGrows(StageFor(c, counter, b[0].nowMs), b, 0, counter, payloads);
    assert StageFor(c, counter, b[0].nowMs).mask + {b[0].slot} == {b[0].slot};
    ReactToClean(c, b[0]);
    ReactToKept(c, b[0]);
  }

  lemma MiddleFrame(c: Core, b: seq<Signal>, k: nat, counter: bv8, payloads: Payloads)
    requires CleanBundle(b, counter, payloads) && 1 <= k <= 2 && Building(c.stage, b, k, counter, payloads)
    ensures var next := React(c, b[k]);
            Building(next.stage, b, k + 1, counter, payloads) && SameBundle(next, c) && next.streak == c.streak
  {
    FourSlots(b, counter, payloads);
    assert Member(b[k], counter, payloads);
    StageGrows(c.stage, b, k, counter, payloads);
    SlotsOfMember(b, k + 1, b[3].slot);
    assert b[3].slot in ALL_SLOTS;
    ReactToClean(c, b[k]);
    ReactToKept(c, b[k]);
  }

  /** The state after a bundle has completed. */
  predicate Finished(c: Core, s: Signal, payloads: Payloads, streak: nat) {
    && s.Clean? && Shows(c, s, payloads) && !c.stage.active
    && c.completeSeen && c.lastCounter == s.counter && c.streak == streak
    && c.activeValid == (streak >= REQUIRED_GOOD_BUNDLES)
  }

  lemma LastFrame(c: Core, b: seq<Signal>, counter: bv8, payloads: Payloads)
    requires CleanBundle(b, counter, payloads) && Building(c.stage, b, 3, counter, payloads)
    ensures Finished(React(c, b[3]), b[3], payloads, StreakAfter(c))
  {
    FourSlots(b, counter, payloads);
    assert Member(b[3], counter, payloads);
    StageGrows(c.stage, b, 3, counter, payloads);
    var full := FullStage(c, b[3]);
    assert full.payloads == payloads by {
      forall slot | 0 <= slot < 4 ensures full.payloads[slot] == payloads[slot] {
        assert slot in full.mask;
      }
    }
    ReactToCompletion(c, b[3]);
  }

  /** The streak after a bundle with this counter. */
  function Extended(c: Core, streak: nat, counter: bv8): nat {
    var kept := if c.completeSeen && !Follows(counter, c.lastCounter) then 0 else streak;
    if kept < MAX_STREAK then kept + 1 else kept
  }

  /** A clean bundle whose counter no open stage carries is completed by its fourth frame. */
  lemma FreshBundle(c: Core, b: seq<Signal>, counter: bv8, payloads: Payloads)
    requires CleanBundle(b, counter, payloads) && !Continues(c, counter)
    ensures Finished(CoreAfter(c, b, 4), b[3], payloads, Extended(c, StreakOnOpening(c, counter), counter))
  {
    FirstFrame(c, b, counter, payloads);
    var c1 := React(c, b[0]);
    MiddleFrame(c1, b, 1, counter, payloads);
    var c2 := React(c1, b[1]);
    MiddleFrame(c2, b, 2, counter, payloads);
    var c3 := React(c2, b[2]);
    LastFrame(c3, b, counter, payloads);
    NextCounterFollows(counter, c.lastCounter);
    assert CoreAfter(c, b, 1) == c1;
    assert CoreAfter(c, b, 2) == c2;
    assert CoreAfter(c, b, 3) == c3;
  }

  // ---------------------------------------------------------------------------------------------
  // Three bundles from any state
  // ---------------------------------------------------------------------------------------------

  /** Whatever the state was, a clean frame leaves no stage with another counter open. */
  lemma FrameClaimsStage(c: Core, s: Signal)
    requires s.Clean?
    ensures var next := React(c, s).stage; next.active ==> next.counter == s.counter
  {
    ReactToClean(c, s);
  }

  lemma NextDiffers(later: bv8, earlier: bv8)
    requires Follows(later, earlier)
    ensures later != earlier
  {
  }

  lemma {:induction false} AfterConcat(c: Core, a: seq<Signal>, b: seq<Signal>, k: nat)
    requires k <= |b|
    ensures CoreAfter(c, a + b, |a| + k) == CoreAfter(CoreAfter(c, a, |a|), b, k)
  {
    if k == 0 {
      AfterPrefix(c, a, b, |a|);
    } else {
      AfterConcat(c, a, b, k - 1);
    }
  }

  lemma {:induction false} AfterPrefix(c: Core, a: seq<Signal>, b: seq<Signal>, k: nat)
    requires k <= |a|
    ensures CoreAfter(c, a + b, k) == CoreAfter(c, a, k)
  {
    if k > 0 {
      AfterPrefix(c, a, b, k - 1);
    }
  }

  /** Two consecutive clean bundles restore authority when no open stage carries the first one's counter. */
  lemma TwoBundlesSuffice(c: Core, b1: seq<Signal>, b2: seq<Signal>, k1: bv8, k2: bv8, p1: Payloads, p2: Payloads)
    requires CleanBundle(b1, k1, p1) && CleanBundle(b2, k2, p2) && Follows(k2, k1) && !Continues(c, k1)
    ensures ImmediateAuthority(CoreAfter(c, b1 + b2, 8), b2[3].nowMs) == Some(DecodeImmediate(p2, k2, b2[3].nowMs))
  {
    FreshBundle(c, b1, k1, p1);
    var mid := CoreAfter(c, b1, 4);
    assert Member(b1[3], k1, p1) && Member(b2[3], k2, p2);
    FreshBundle(mid, b2, k2, p2);
    AfterConcat(c, b1, b2, 4);
  }

  /** Self-stabilisation: from any state, three consecutive clean bundles leave authority valid at the last frame. */
  lemma ThreeBundlesRecover(c: Core, b1: seq<Signal>, b2: seq<Signal>, b3: seq<Signal>, k1: bv8, k2: bv8, k3: bv8,
                            p1: Payloads, p2: Payloads, p3: Payloads)
    requires CleanBundle(b1, k1, p1) && CleanBundle(b2, k2, p2) && CleanBundle(b3, k3, p3)
    requires Follows(k2, k1) && Follows(k3, k2)
    ensures ImmediateAuthority(CoreAfter(c, b1 + (b2 + b3), 12), b3[3].nowMs) ==
            Some(DecodeImmediate(p3, k3, b3[3].nowMs))
  {
    assert Member(b1[3], k1, p1);
    FrameClaimsStage(CoreAfter(c, b1, 3), b1[3]);
    NextDiffers(k2, k1);
    AfterConcat(c, b1, b2 + b3, 8);
    TwoBundlesSuffice(CoreAfter(c, b1, 4), b2, b3, k2, k3, p2, p3);
  }

  // ---------------------------------------------------------------------------------------------
  // Other traffic in between
  // ---------------------------------------------------------------------------------------------

  /** The signals that concern the bundle. */
  function Loud(signals: seq<Signal>): seq<Signal> {
    if signals == [] then []
    else
      var rest, s := Loud(signals[..|signals| - 1]), signals[|signals| - 1];
      if s.Silence? then rest else rest + [s]
  }

  lemma {:induction false} SilenceIsIgnored(c: Core, signals: seq<Signal>)
    ensures CoreAfter(c, signals, |signals|) == CoreAfter(c, Loud(signals), |Loud(signals)|)
  {
    if signals != [] {
      var n := |signals| - 1;
      var rest := Loud(signals[..n]);
      SilenceIsIgnored(c, signals[..n]);
      assert signals == signals[..n] + [signals[n]];
      AfterPrefix(c, signals[..n], [signals[n]], n);
      AfterPrefix(c, rest, [signals[n]], |rest|);
    }
  }

  /** Recovery with any advisory and unrelated traffic interleaved, for the whole consumer. */
  lemma SelfStabilizes(s: Consumer, events: seq<Event>, b1: seq<Signal>, b2: seq<Signal>, b3: seq<Signal>,
                       k1: bv8, k2: bv8, k3: bv8, p1: Payloads, p2: Payloads, p3: Payloads)
    requires CleanBundle(b1, k1, p1) && CleanBundle(b2, k2, p2) && CleanBundle(b3, k3, p3)
    requires Follows(k2, k1) && Follows(k3, k2)
    requires Loud(Signals(events)) == b1 + (b2 + b3)
    ensures ImmediateAuthority(After(s, events, |events|).core, b3[3].nowMs) ==
            Some(DecodeImmediate(p3, k3, b3[3].nowMs))
  {
    CoreFollowsSignals(s, events, |events|);
    SilenceIsIgnored(s.core, Signals(events));
    ThreeBundlesRecover(s.core, b1, b2, b3, k1, k2, k3, p1, p2, p3);
  }

  // ---------------------------------------------------------------------------------------------
  // Exactly when two bundles are enough
  // ---------------------------------------------------------------------------------------------

  /** An open stage holds some frames, but not all. */
  predicate WellShaped(c: Core) {
    c.stage.active ==> c.stage.mask != {} && c.stage.mask != ALL_SLOTS
  }

  lemma StepKeepsShape(c: Core, s: Signal)
    requires WellShaped(c)
    ensures WellShaped(React(c, s))
  {
    if s.Clean? {
      ReactToClean(c, s);
      assert s.slot in FullStage(c, s).mask;
    }
  }

  lemma {:induction false} ReachableShape(signals: seq<Signal>, n: nat)
    requires n <= |signals|
    ensures WellShaped(CoreAt(signals, n))
  {
    if n > 0 {
      ReachableShape(signals, n - 1);
      StepKeepsShape(CoreAt(signals, n - 1), signals[n - 1]);
    }
  }

  /** The bundle is still filling up the stage that was open before it. */
  predicate Mixing(stage: Stage, b: seq<Signal>, k: nat, counter: bv8)
    requires k <= |b| && forall i :: 0 <= i < k ==> b[i].Clean?
  {
    stage.active && stage.counter == counter && SlotsOf(b, k) < stage.mask && stage.mask != ALL_SLOTS
  }

  /** The old stage is gone; a new one, if open, misses the slot of the first frame. */
  predicate Restarted(c: Core, b: seq<Signal>, k: nat, counter: bv8)
    requires 1 <= k <= |b| && forall i :: 0 <= i < |b| ==> b[i].Clean?
  {
    if c.stage.active then c.stage.counter == counter && c.stage.mask <= SlotsOf(b, k) && b[0].slot !in c.stage.mask
    else k <= 3 || c.streak == 0
  }

  lemma MixingStep(c: Core, b: seq<Signal>, k: nat, counter: bv8, payloads: Payloads)
    requires CleanBundle(b, counter, payloads) && k < 4 && Mixing(c.stage, b, k, counter)
    ensures var next := React(c, b[k]); Mixing(next.stage, b, k + 1, counter) || Restarted(next, b, k + 1, counter)
  {
    FourSlots(b, counter, payloads);
    assert Member(b[k], counter, payloads);
    assert c.stage.mask <= ALL_SLOTS;
    assert k <= 2;
    ReactToClean(c, b[k]);
    if Kept(c, b[k]) && !Fills(c, b[k]) {
      assert b[k].slot !in c.stage.mask;
    }
  }

  lemma RestartedStep(c: Core, b: seq<Signal>, k: nat, counter: bv8, payloads: Payloads)
    requires CleanBundle(b, counter, payloads) && 1 <= k < 4 && Restarted(c, b, k, counter)
    ensures Restarted(React(c, b[k]), b, k + 1, counter)
  {
    FourSlots(b, counter, payloads);
    assert Member(b[k], counter, payloads);
    assert b[0].slot in ALL_SLOTS && b[0].slot != b[k].slot;
    ReactToClean(c, b[k]);
    if !Kept(c, b[k]) {
      ReactToRejected(c, b[k]);
    }
  }

  lemma {:induction false} MixedBundle(c: Core, b: seq<Signal>, k: nat, counter: bv8, payloads: Payloads)
    requires CleanBundle(b, counter, payloads) && 1 <= k <= 4 && WellShaped(c) && Continues(c, counter)
    ensures var next := CoreAfter(c, b, k); Mixing(next.stage, b, k, counter) || Restarted(next, b, k, counter)
    decreases k
  {
    assert forall i :: 0 <= i < 4 ==> Member(b[i], counter, payloads);
    if k == 1 {
      MixingStep(c, b, 0, counter, payloads);
      assert CoreAfter(c, b, 1) == React(c, b[0]);
    } else {
      MixedBundle(c, b, k - 1, counter, payloads);
      var before := CoreAfter(c, b, k - 1);
      if Mixing(before.stage, b, k - 1, counter) {
        MixingStep(before, b, k - 1, counter, payloads);
      } else {
        RestartedStep(before, b, k - 1, counter, payloads);
      }
    }
  }

  /** After a bundle that met an open stage with its own counter: an incomplete stage, or a lost streak. */
  lemma AfterMixedBundle(c: Core, b: seq<Signal>, counter: bv8, payloads: Payloads)
    requires CleanBundle(b, counter, payloads) && WellShaped(c) && Continues(c, counter)
    ensures var mid := CoreAfter(c, b, 4);
            if mid.stage.active then mid.stage.counter == counter && mid.stage.mask != ALL_SLOTS else mid.streak == 0
  {
    MixedBundle(c, b, 4, counter, payloads);
    FourSlots(b, counter, payloads);
    assert CoreAfter(c, b, 4).stage.mask <= ALL_SLOTS;
    assert b[0].slot in ALL_SLOTS;
  }

  lemma TwoBundlesNotEnough(c: Core, b1: seq<Signal>, b2: seq<Signal>, k1: bv8, k2: bv8, p1: Payloads, p2: Payloads)
    requires CleanBundle(b1, k1, p1) && CleanBundle(b2, k2, p2) && Follows(k2, k1) && WellShaped(c)
    requires Continues(c, k1)
    ensures !CoreAfter(c, b1 + b2, 8).activeValid
  {
    AfterMixedBundle(c, b1, k1, p1);
    NextDiffers(k2, k1);
    FreshBundle(CoreAfter(c, b1, 4), b2, k2, p2);
    AfterConcat(c, b1, b2, 4);
  }

  /** Two consecutive clean bundles restore authority exactly when no open stage carries the first one's counter. */
  lemma TwoBundlesSufficeIff(c: Core, b1: seq<Signal>, b2: seq<Signal>, k1: bv8, k2: bv8, p1: Payloads, p2: Payloads)
    requires CleanBundle(b1, k1, p1) && CleanBundle(b2, k2, p2) && Follows(k2, k1) && WellShaped(c)
    ensures ImmediateAuthority(CoreAfter(c, b1 + b2, 8), b2[3].nowMs).Some? <==> !Continues(c, k1)
  {
    if Continues(c, k1) {
      TwoBundlesNotEnough(c, b1, b2, k1, k2, p1, p2);
    } else {
      TwoBundlesSuffice(c, b1, b2, k1, k2, p1, p2);
    }
  }
}
