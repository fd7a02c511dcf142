/** What valid power authority says about the past. */
module PowerHistory {
  import opened Numeric
  import opened PowerCrc
  import opened PowerConsumer

  /** The core after the first n signals, started in c. */
  function CoreAfter(c: Core, signals: seq<Signal>, n: nat): Core
    requires n <= |signals|
  {
    if n == 0 then c else React(CoreAfter(c, signals, n - 1), signals[n - 1])
  }

  /** A reachable core. */
  function CoreAt(signals: seq<Signal>, n: nat): Core
    requires n <= |signals|
  {
    CoreAfter(INITIAL_CORE, signals, n)
  }

  // ---------------------------------------------------------------------------------------------
  // Completions and disturbances
  // ---------------------------------------------------------------------------------------------

  predicate Kept(c: Core, s: Signal) {
    s.Clean? && JoinAccepted(StageFor(c, s.counter, s.nowMs), s.slot, s.payload, s.nowMs)
  }

  predicate Fills(c: Core, s: Signal)
    requires s.Clean?
  {
    StageFor(c, s.counter, s.nowMs).mask + {s.slot} == ALL_SLOTS
  }

  /** The signal completes a consistent bundle. */
  predicate Completes(c: Core, s: Signal) {
    Kept(c, s) && Fills(c, s)
  }

  /** The signal is a transport error, or abandons an incomplete stage. */
  predicate Disturbs(c: Core, s: Signal) {
    s.Fault? || (s.Clean? && (!Kept(c, s) || Abandons(c, s.counter)))
  }

  predicate CompletesAt(signals: seq<Signal>, i: nat)
    requires i < |signals|
  {
    Completes(CoreAt(signals, i), signals[i])
  }

  // ---------------------------------------------------------------------------------------------
  // Where the frames of the open stage came from
  // ---------------------------------------------------------------------------------------------

  /** Signal `at` brought the frame that the stage holds in this slot. */
  predicate Brought(signals: seq<Signal>, at: nat, slot: Slot, stage: Stage)
    requires at < |signals|
  {
    && signals[at].Clean?
    && signals[at].slot == slot && signals[at].counter == stage.counter && signals[at].payload == stage.payloads[slot]
    && Sub32(signals[at].nowMs, stage.startedMs) <= 50
  }

  /** Every slot of the stage was brought by the signal at its position, and nothing else happened since the first. */
  ghost predicate Provenance(signals: seq<Signal>, n: nat, stage: Stage, positions: seq<nat>, first: nat)
    requires n <= |signals|
  {
    && |positions| == 4 && first < n
    && signals[first].Clean? && signals[first].nowMs == stage.startedMs
    && (forall k :: k in stage.mask ==> first <= positions[k] < n && Brought(signals, positions[k], k, stage))
    && (forall j :: first <= j < n ==>
          || signals[j].Silence?
          || (signals[j].Clean? && signals[j].slot in stage.mask && positions[signals[j].slot] == j))
  }

  lemma ReactToClean(c: Core, s: Signal)
    requires s.Clean?
    ensures var next := React(c, s).stage;
            if Kept(c, s) && !Fills(c, s) then next == Stored(StageFor(c, s.counter, s.nowMs), s.slot, s.payload)
                else !next.active
  {
  }

  lemma ProvenanceOpens(signals: seq<Signal>, n: nat, was: Payloads)
    requires n < |signals| && signals[n].Clean?
    ensures var s := signals[n];
            Provenance(signals, n + 1, Stored(Stage(true, s.counter, s.nowMs, {}, was), s.slot, s.payload),
                       [n, n, n, n], n)
  {
  }

  lemma ProvenanceExtends(signals: seq<Signal>, n: nat, stage: Stage, positions: seq<nat>, first: nat)
    requires n < |signals| && Provenance(signals, n, stage, positions, first)
    requires signals[n].Clean? && signals[n].counter == stage.counter && signals[n].slot !in stage.mask
    requires Sub32(signals[n].nowMs, stage.startedMs) <= 50
    ensures Provenance(signals, n + 1, Stored(stage, signals[n].slot, signals[n].payload),
                       positions[signals[n].slot := n], first)
  {
    var s := signals[n];
    var next, moved := Stored(stage, s.slot, s.payload), positions[s.slot := n];
    forall k | k in next.mask ensures first <= moved[k] < n + 1 && Brought(signals, moved[k], k, next) {
      assert k == s.slot || Brought(signals, positions[k], k, stage);
    }
  }

  lemma {:induction false} StageWitness(signals: seq<Signal>, n: nat) returns (positions: seq<nat>, first: nat)
    requires n <= |signals|
    ensures var stage := CoreAt(signals, n).stage; stage.active ==> Provenance(signals, n, stage, positions, first)
  {
    positions, first := [0, 0, 0, 0], 0;
    if n > 0 {
      var c, s := CoreAt(signals, n - 1), signals[n - 1];
      positions, first := StageWitness(signals, n - 1);
      if s.Clean? && Kept(c, s) && !Fills(c, s) {
        ReactToClean(c, s);
        if Continues(c, s.counter) {
          ProvenanceExtends(signals, n - 1, c.stage, positions, first);
          positions := positions[s.slot := n - 1];
        } else {
          ProvenanceOpens(signals, n - 1, c.stage.payloads);
          positions, first := [n - 1, n - 1, n - 1, n - 1], n - 1;
        }
      } else if s.Clean? {
        ReactToClean(c, s);
      }
    }
  }

  /** The evidence behind a complete bundle: four clean frames, one per slot, with one counter, each within 50 ms of the
      first, the last one being signal i, and no other core traffic in between. */
  ghost predicate Evidence(signals: seq<Signal>, i: nat, positions: seq<nat>, first: nat, payloads: Payloads)
    requires i < |signals|
  {
    && signals[i].Clean? && first < |signals| && signals[first].Clean? && BundleValid(payloads)
    && Provenance(signals, i + 1, Stage(true, signals[i].counter, signals[first].nowMs, ALL_SLOTS, payloads),
                  positions, first)
    && positions[signals[i].slot] == i
  }

  predicate Shows(c: Core, s: Signal, payloads: Payloads)
    requires s.Clean?
  {
    && c.active.immediate == DecodeImmediate(payloads, s.counter, s.nowMs)
    && c.active.envelope == DecodeEnvelope(payloads[3], s.counter, s.nowMs)
    && c.active.soh == DecodeSoh(payloads[2], s.counter, s.nowMs)
  }

  function FullStage(c: Core, s: Signal): Stage
    requires s.Clean?
  {
    Stored(StageFor(c, s.counter, s.nowMs), s.slot, s.payload)
  }

  lemma ReactToCompletion(c: Core, s: Signal)
    requires Completes(c, s)
    ensures Continues(c, s.counter)
    ensures var next := React(c, s);
            && Shows(next, s, FullStage(c, s).payloads) && !next.stage.active
            && next.lastCounter == s.counter && next.completeSeen
            && next.streak == StreakAfter(c) && next.activeValid == (next.streak >= REQUIRED_GOOD_BUNDLES)
  {
    assert 0 in ALL_SLOTS && 1 in ALL_SLOTS;
  }

  lemma CompletionHasEvidence(signals: seq<Signal>, i: nat)
    returns (positions: seq<nat>, first: nat, payloads: Payloads)
    requires i < |signals| && CompletesAt(signals, i)
    ensures Evidence(signals, i, positions, first, payloads)
    ensures Shows(CoreAt(signals, i + 1), signals[i], payloads)
  {
    var c, s := CoreAt(signals, i), signals[i];
    ReactToCompletion(c, s);
    positions, first := StageWitness(signals, i);
    ProvenanceExtends(signals, i, c.stage, positions, first);
    positions := positions[s.slot := i];
    payloads := FullStage(c, s).payloads;
  }

  // ---------------------------------------------------------------------------------------------
  // What one signal does to the streak
  // ---------------------------------------------------------------------------------------------

  datatype Mark = Bundle(counter: bv8) | Disturbance | Uneventful

  function MarkOf(c: Core, s: Signal): Mark {
    if Completes(c, s) then Bundle(s.counter) else if Disturbs(c, s) then Disturbance else Uneventful
  }

  lemma OpenedStage(c: Core, counter: bv8, nowMs: Word32)
    ensures Opened(c, counter, nowMs).stage == StageFor(c, counter, nowMs)
  {
  }

  lemma JoinKept(o: Core, s: Signal)
    requires s.Clean? && JoinAccepted(o.stage, s.slot, s.payload, s.nowMs)
        && Stored(o.stage, s.slot, s.payload).mask != ALL_SLOTS
    ensures Joined(o, s.slot, s.payload, s.nowMs) == o.(stage := Stored(o.stage, s.slot, s.payload))
  {
  }

  predicate SameBundle(a: Core, b: Core) {
    a.active == b.active && a.lastCounter == b.lastCounter && a.completeSeen == b.completeSeen
  }

  lemma ReactToKept(c: Core, s: Signal)
    requires Kept(c, s) && !Fills(c, s)
    ensures var next := React(c, s);
            && SameBundle(next, c)
            && next.streak == (if Abandons(c, s.counter) then 0 else c.streak)
            && next.activeValid == (!Abandons(c, s.counter) && c.activeValid)
  {
    OpenedStage(c, s.counter, s.nowMs);
    JoinKept(Opened(c, s.counter, s.nowMs), s);
  }

  lemma ReactToRejected(c: Core, s: Signal)
    requires s.Clean? && !Kept(c, s)
    ensures var next := React(c, s); SameBundle(next, c) && next.streak == 0 && !next.activeValid
  {
  }

  lemma ReactOtherwise(c: Core, s: Signal)
    requires !Completes(c, s)
    ensures var next, disturbs := React(c, s), Disturbs(c, s);
            && SameBundle(next, c)
            && next.streak == (if disturbs then 0 else c.streak) && next.activeValid == (!disturbs && c.activeValid)
  {
    if s.Clean? {
      if Kept(c, s) {
        ReactToKept(c, s);
      } else {
        ReactToRejected(c, s);
      }
    }
  }

  /** What happened at each step of the run. */
  function Marks(signals: seq<Signal>, n: nat): (marks: seq<Mark>)
    requires n <= |signals|
    ensures |marks| == n
  {
    if n == 0 then [] else Marks(signals, n - 1) + [MarkOf(CoreAt(signals, n - 1), signals[n - 1])]
  }

  lemma {:induction false} MarksAt(signals: seq<Signal>, n: nat, i: nat)
    requires i < n <= |signals|
    ensures Marks(signals, n)[i] == MarkOf(CoreAt(signals, i), signals[i])
  {
    if i < n - 1 {
      MarksAt(signals, n - 1, i);
    }
  }

  // ---------------------------------------------------------------------------------------------
  // The unbroken chain of bundles
  // ---------------------------------------------------------------------------------------------

  /** The bundles completed since the last disturbance or counter break. */
  function Chain(marks: seq<Mark>): (chain: seq<nat>)
    ensures forall k :: 0 <= k < |chain| ==> chain[k] < |marks| && marks[chain[k]].Bundle?
  {
    if marks == [] then []
    else
      var i := |marks| - 1;
      var rest := Chain(marks[..i]);
      match marks[i]
      case Bundle(counter) =>
        if rest != [] && Follows(counter, marks[rest[|rest| - 1]].counter) then rest + [i] else [i]
      case Disturbance => []
      case Uneventful => rest
  }

  function Last(chain: seq<nat>): nat
    requires chain != []
  {
    chain[|chain| - 1]
  }

  predicate CountsChain(c: Core, marks: seq<Mark>) {
    var chain := Chain(marks);
    && c.streak == (if |chain| < MAX_STREAK then |chain| else MAX_STREAK)
    && c.activeValid == (|chain| >= REQUIRED_GOOD_BUNDLES)
    && (chain != [] ==> c.completeSeen && c.lastCounter == marks[Last(chain)].counter)
  }

  /** How one mark changes the chain. */
  lemma ChainAfter(marks: seq<Mark>, m: Mark)
    ensures var rest, next := Chain(marks), Chain(marks + [m]);
            match m
            case Bundle(counter) =>
              next == if rest != [] && Follows(counter, marks[Last(rest)].counter) then rest + [|marks|] else [|marks|]
            case Disturbance => next == []
            case Uneventful => next == rest
  {
    assert (marks + [m])[..|marks|] == marks;
  }

  lemma CountCompletion(c: Core, s: Signal, marks: seq<Mark>)
    requires CountsChain(c, marks) && Completes(c, s)
    ensures CountsChain(React(c, s), marks + [Bundle(s.counter)])
  {
    ReactToCompletion(c, s);
    NextCounterFollows(s.counter, c.lastCounter);
    ChainAfter(marks, Bundle(s.counter));
  }

  lemma CountOther(c: Core, s: Signal, marks: seq<Mark>)
    requires CountsChain(c, marks) && !Completes(c, s)
    ensures CountsChain(React(c, s), marks + [MarkOf(c, s)])
  {
    ReactOtherwise(c, s);
    ChainAfter(marks, MarkOf(c, s));
  }

  lemma CountStep(c: Core, s: Signal, marks: seq<Mark>)
    requires CountsChain(c, marks)
    ensures CountsChain(React(c, s), marks + [MarkOf(c, s)])
  {
    if Completes(c, s) {
      CountCompletion(c, s, marks);
    } else {
      CountOther(c, s, marks);
    }
  }

  /** The streak counter of the consumer is the length of the chain, saturated. */
  lemma {:induction false} StreakCountsChain(signals: seq<Signal>, n: nat)
    requires n <= |signals|
    ensures CountsChain(CoreAt(signals, n), Marks(signals, n))
  {
    if n > 0 {
      StreakCountsChain(signals, n - 1);
      CountStep(CoreAt(signals, n - 1), signals[n - 1], Marks(signals, n - 1));
    }
  }

  /** Nothing completes and nothing is disturbed strictly between two points. */
  ghost predicate Quiet(marks: seq<Mark>, a: nat, b: nat)
    requires b <= |marks|
  {
    forall j :: a < j < b ==> marks[j].Uneventful?
  }

  /** Bundles h and i are the last two, have consecutive counters, and nothing was disturbed since the first of them. */
  ghost predicate LastTwo(marks: seq<Mark>, h: nat, i: nat) {
    && h < i < |marks| && marks[h].Bundle? && marks[i].Bundle?
    && Quiet(marks, h, i) && Quiet(marks, i, |marks|)
    && Follows(marks[i].counter, marks[h].counter)
  }

  /** The chain ends in the last two bundles. */
  ghost predicate Linked(marks: seq<Mark>) {
    var chain := Chain(marks);
    && (chain != [] ==> Quiet(marks, Last(chain), |marks|))
    && (|chain| >= 2 ==> LastTwo(marks, chain[|chain| - 2], Last(chain)))
  }

  lemma LinkedAfterBundle(marks: seq<Mark>, counter: bv8)
    requires Linked(marks)
    ensures Linked(marks + [Bundle(counter)])
  {
    ChainAfter(marks, Bundle(counter));
  }

  lemma LinkedAfterQuiet(marks: seq<Mark>)
    requires Linked(marks)
    ensures Linked(marks + [Uneventful])
  {
    ChainAfter(marks, Uneventful);
  }

  lemma {:induction false} ChainLinks(marks: seq<Mark>)
    ensures Linked(marks)
  {
    if marks != [] {
      var n := |marks| - 1;
      var before := marks[..n];
      ChainLinks(before);
      assert marks == before + [marks[n]];
      match marks[n]
      case Bundle(counter) => LinkedAfterBundle(before, counter);
      case Disturbance => ChainAfter(before, Disturbance);
      case Uneventful => LinkedAfterQuiet(before);
    }
  }

  lemma {:induction false} QuietKeepsChain(marks: seq<Mark>, i: nat)
    requires i < |marks| && Quiet(marks, i, |marks|)
    ensures Chain(marks) == Chain(marks[..i + 1])
  {
    var n := |marks| - 1;
    if i < n {
      QuietKeepsChain(marks[..n], i);
      assert marks[..n][..i + 1] == marks[..i + 1];
      assert marks[n].Uneventful?;
    } else {
      assert marks[..i + 1] == marks;
    }
  }

  lemma ChainEndsInBundle(marks: seq<Mark>, k: nat)
    requires k < |marks| && marks[k].Bundle?
    ensures var chain := Chain(marks[..k + 1]); chain != [] && Last(chain) == k
  {
    assert marks[..k + 1][k] == marks[k];
  }

  lemma ChainGrows(marks: seq<Mark>)
    requires marks != [] && marks[|marks| - 1].Bundle?
    requires var rest := Chain(marks[..|marks| - 1]);
             rest != [] && Follows(marks[|marks| - 1].counter, marks[Last(rest)].counter)
    ensures Chain(marks) == Chain(marks[..|marks| - 1]) + [|marks| - 1]
  {
  }

  lemma LastTwoChain(marks: seq<Mark>, h: nat, i: nat)
    requires LastTwo(marks, h, i)
    ensures |Chain(marks)| >= 2
  {
    QuietKeepsChain(marks, i);
    var upTo, before := marks[..i + 1], marks[..i];
    assert upTo[..i] == before && before[..h + 1] == marks[..h + 1];
    assert Quiet(before, h, |before|);
    QuietKeepsChain(before, h);
    ChainEndsInBundle(marks, h);
    assert Last(Chain(before)) == h && before[h] == marks[h];
    ChainGrows(upTo);
  }

  lemma ChainIffLastTwo(marks: seq<Mark>)
    ensures |Chain(marks)| >= 2 <==> exists h, i :: LastTwo(marks, h, i)
  {
    ChainLinks(marks);
    var chain := Chain(marks);
    if |chain| >= 2 {
      assert LastTwo(marks, chain[|chain| - 2], Last(chain));
    }
    forall h, i | LastTwo(marks, h, i) ensures |chain| >= 2 {
      LastTwoChain(marks, h, i);
    }
  }

  /** The consumer holds valid authority exactly when its history justifies it. */
  lemma ValidIffJustified(signals: seq<Signal>, n: nat)
    requires n <= |signals|
    ensures CoreAt(signals, n).activeValid <==> exists h, i :: LastTwo(Marks(signals, n), h, i)
  {
    StreakCountsChain(signals, n);
    ChainIffLastTwo(Marks(signals, n));
  }

  /** A completed bundle stays on show until the next one is completed. */
  lemma {:induction false} BundleStays(signals: seq<Signal>, n: nat, i: nat)
    requires i < n <= |signals| && Quiet(Marks(signals, n), i, n)
    ensures CoreAt(signals, n).active == CoreAt(signals, i + 1).active
  {
    if i + 1 < n {
      var before := Marks(signals, n - 1);
      assert Marks(signals, n)[..n - 1] == before;
      BundleStays(signals, n - 1, i);
      MarksAt(signals, n, n - 1);
      ReactOtherwise(CoreAt(signals, n - 1), signals[n - 1]);
    }
  }

  // ---------------------------------------------------------------------------------------------
  // The consumer as a whole
  // ---------------------------------------------------------------------------------------------

  function Signals(events: seq<Event>): (signals: seq<Signal>)
    ensures |signals| == |events|
  {
    seq(|events|, i requires 0 <= i < |events| => SignalOf(events[i]))
  }

  function After(s: Consumer, events: seq<Event>, n: nat): Consumer
    requires n <= |events|
  {
    if n == 0 then s else Apply(After(s, events, n - 1), events[n - 1])
  }

  /** Only the signals reach the bundle state machine: advisory traffic leaves it alone. */
  lemma {:induction false} CoreFollowsSignals(s: Consumer, events: seq<Event>, n: nat)
    requires n <= |events|
    ensures After(s, events, n).core == CoreAfter(s.core, Signals(events), n)
  {
    if n > 0 {
      CoreFollowsSignals(s, events, n - 1);
    }
  }

  /** Signal i is the last of the four clean frames that `authority` was decoded from, and it is at most 250 ms old. */
  ghost predicate Backs(signals: seq<Signal>, i: nat, positions: seq<nat>, first: nat, payloads: Payloads,
                        authority: Immediate, nowMs: Word32) {
    && i < |signals| && Evidence(signals, i, positions, first, payloads)
    && authority == DecodeImmediate(payloads, signals[i].counter, signals[i].nowMs)
    && Sub32(nowMs, signals[i].nowMs) <= 250
  }

  /** Authority is justified by history. */
  lemma AuthorityIsJustified(events: seq<Event>, nowMs: Word32)
    returns (h: nat, i: nat, positions: seq<nat>, first: nat, payloads: Payloads)
    requires ImmediateAuthority(After(INITIAL_CONSUMER, events, |events|).core, nowMs).Some?
    ensures LastTwo(Marks(Signals(events), |events|), h, i)
    ensures Backs(Signals(events), i, positions, first, payloads,
                  ImmediateAuthority(After(INITIAL_CONSUMER, events, |events|).core, nowMs).value, nowMs)
  {
    var signals, n := Signals(events), |events|;
    CoreFollowsSignals(INITIAL_CONSUMER, events, n);
    ValidIffJustified(signals, n);
    h, i :| LastTwo(Marks(signals, n), h, i);
    positions, first, payloads := ShownBundle(signals, n, h, i);
  }

  /** The bundle that is on show after a justified history. */
  lemma ShownBundle(signals: seq<Signal>, n: nat, h: nat, i: nat)
    returns (positions: seq<nat>, first: nat, payloads: Payloads)
    requires n <= |signals| && LastTwo(Marks(signals, n), h, i)
    ensures Evidence(signals, i, positions, first, payloads)
    ensures Shows(CoreAt(signals, n), signals[i], payloads)
  {
    MarksAt(signals, n, i);
    positions, first, payloads := CompletionHasEvidence(signals, i);
    BundleStays(signals, n, i);
  }

  lemma ShownTime(signals: seq<Signal>, n: nat, h: nat, i: nat)
    requires n <= |signals| && LastTwo(Marks(signals, n), h, i)
    ensures signals[i].Clean? && CoreAt(signals, n).active.immediate.receivedMs == signals[i].nowMs
  {
    var positions, first, payloads := ShownBundle(signals, n, h, i);
  }

  lemma JustifiedIsValid(signals: seq<Signal>, n: nat, h: nat, i: nat)
    requires n <= |signals| && LastTwo(Marks(signals, n), h, i)
    ensures CoreAt(signals, n).activeValid
  {
    StreakCountsChain(signals, n);
    LastTwoChain(Marks(signals, n), h, i);
  }

  /** The converse: a justified bundle is shown for 250 ms, unless a later stage has stayed open for more than 50 ms. */
  lemma JustifiedIsShown(signals: seq<Signal>, n: nat, nowMs: Word32, h: nat, i: nat)
    requires n <= |signals| && LastTwo(Marks(signals, n), h, i)
    ensures var c := CoreAt(signals, n);
            && signals[i].Clean?
            && (ImmediateAuthority(c, nowMs).Some? <==>
                  && Sub32(nowMs, signals[i].nowMs) <= 250
                  && !(c.stage.active && Sub32(nowMs, c.stage.startedMs) > 50))
  {
    JustifiedIsValid(signals, n, h, i);
    ShownTime(signals, n, h, i);
  }
}
