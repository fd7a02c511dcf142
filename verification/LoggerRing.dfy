/** The raw CAN ring of the data logger: the receive interrupt produces, the logger task drains. */
module LoggerRing {
  import opened Numeric

  const CAPACITY: nat := 512
  const BATCH: nat := 64

  type Index = x: nat | x < CAPACITY

  /** A received frame as the interrupt sees it. */
  datatype Frame = Frame(
    id: nat, standard: bool, remote: bool, dlc: nat, data: seq<bv8>, knownAms: bool, knownCm200: bool, parsed: bool)

  datatype Flags = Flags(standard: bool, remote: bool, knownAms: bool, knownCm200: bool, parsed: bool)

  datatype Record = Record(timestampMs: Word32, sequence: Word32, id: nat, dlc: nat, flags: Flags, data: seq<bv8>)

  const EMPTY_RECORD := Record(0, 0, 0, 0, Flags(false, false, false, false, false), [])

  function RecordOf(f: Frame, nowMs: Word32, sequence: Word32): Record {
    Record(nowMs, sequence, f.id, if f.dlc <= 8 then f.dlc else 8,
           Flags(f.standard, f.remote, f.knownAms, f.knownCm200, f.parsed), f.data)
  }

  function Next(i: Index): Index {
    (i + 1) % CAPACITY
  }

  /** The slot k places after the tail. */
  function At(tail: Index, k: nat): Index {
    (tail + k) % CAPACITY
  }

  /** Occupied slots between tail and head. */
  function Used(head: Index, tail: Index): (used: nat)
    ensures used <= CAPACITY - 1 && head == At(tail, used)
  {
    (head - tail) % CAPACITY
  }

  /** The slots from tail on, around the end of the buffer. */
  function Window<T>(slots: seq<T>, tail: Index, count: nat): (window: seq<T>)
    requires |slots| == CAPACITY
    ensures |window| == count && forall k :: 0 <= k < count ==> window[k] == slots[At(tail, k)]
  {
    seq(count, k requires 0 <= k < count => slots[At(tail, k)])
  }

  /** The content of a ring. */
  function Content<T>(slots: seq<T>, head: Index, tail: Index): seq<T>
    requires |slots| == CAPACITY
  {
    Window(slots, tail, Used(head, tail))
  }

  /** Writing the free slot at the head leaves the queued ones alone. */
  lemma ContentIgnoresHead<T>(slots: seq<T>, head: Index, tail: Index, slot: T)
    requires |slots| == CAPACITY
    ensures Content(slots[head := slot], head, tail) == Content(slots, head, tail)
  {
    var used := Used(head, tail);
    forall k | 0 <= k < used ensures At(tail, k) != head {
    }
  }

  lemma AroundTheRing(x: int)
    requires 0 <= x + CAPACITY && x < 2 * CAPACITY
    ensures x % CAPACITY == if x < 0 then x + CAPACITY else if x < CAPACITY then x else x - CAPACITY
  {
  }

  lemma UsedGrows(head: Index, tail: Index)
    requires Next(head) != tail
    ensures Used(Next(head), tail) == Used(head, tail) + 1
  {
    AroundTheRing(head + 1);
    AroundTheRing(head - tail);
    AroundTheRing(Next(head) - tail);
  }

  /** The ring is full when one free slot is left. */
  lemma FullIff(head: Index, tail: Index)
    ensures Next(head) == tail <==> Used(head, tail) == 511
  {
    AroundTheRing(head + 1);
    AroundTheRing(head - tail);
  }

  /** Moving the head appends the slot it leaves. */
  lemma ContentGrows<T>(slots: seq<T>, head: Index, tail: Index)
    requires |slots| == CAPACITY && Next(head) != tail
    ensures Content(slots, Next(head), tail) == Content(slots, head, tail) + [slots[head]]
  {
    UsedGrows(head, tail);
  }

  /** Moving the tail removes the slot it leaves. */
  lemma ContentShrinks<T>(slots: seq<T>, head: Index, tail: Index)
    requires |slots| == CAPACITY && head != tail
    ensures Content(slots, head, tail) == [slots[tail]] + Content(slots, head, Next(tail))
  {
    var used := Used(head, tail);
    assert Used(head, Next(tail)) == used - 1;
    var rest := Content(slots, head, Next(tail));
    assert At(tail, 0) == tail;
    forall k | 1 <= k < used ensures Content(slots, head, tail)[k] == rest[k - 1] {
      assert At(Next(tail), k - 1) == At(tail, k);
    }
  }

  // ---------------------------------------------------------------------------------------------
  // The in-place ring
  // ---------------------------------------------------------------------------------------------

  class RawRing {
    const records: array<Record>
    var head: Index
    var tail: Index
    var sequence: Word32
    var dropped: Word32
    var highWater: nat

    ghost predicate Valid()
      reads this
    {
      records.Length == CAPACITY
    }

    /** The queued records, oldest first. */
    ghost function Queue(): seq<Record>
      reads this, records
      requires Valid()
    {
      Content(records[..], head, tail)
    }

    constructor ()
      ensures Valid() && fresh(records) && Queue() == [] && sequence == 0 && dropped == 0 && highWater == 0
    {
      records := new Record[CAPACITY](_ => EMPTY_RECORD);
      head, tail, sequence, dropped, highWater := 0, 0, 0, 0, 0;
    }

    /** The receive interrupt: appends a record, or counts a drop when one slot is left. */
    method CanRxIsr(capture: bool, f: Frame, nowMs: Word32)
      requires Valid()
      modifies this, records
      ensures Valid() && tail == old(tail)
      ensures !capture ==> Queue() == old(Queue()) && sequence == old(sequence) && dropped == old(dropped)
      ensures capture && |old(Queue())| == 511 ==>
                Queue() == old(Queue()) && sequence == old(sequence) && dropped == Add32(old(dropped), 1)
      ensures capture && |old(Queue())| < 511 ==>
                && sequence == Add32(old(sequence), 1) && dropped == old(dropped)
                && Queue() == old(Queue()) + [RecordOf(f, nowMs, sequence)]
                && highWater == if |Queue()| > old(highWater) then |Queue()| else old(highWater)
    {
      if !capture {
        return;
      }
      var next := Next(head);
      if next == tail {
        dropped := (dropped + 1) % TWO_32;
        return;
      }
      sequence := (sequence + 1) % TWO_32;
      Append(RecordOf(f, nowMs, sequence));
      var occupied := (head - tail) % CAPACITY;
      if occupied > highWater {
        highWater := occupied;
      }
    }

    /** Fills the slot at the head, then publishes it. */
    method Append(record: Record)
      requires Valid() && Next(head) != tail
      modifies this`head, records
      ensures Queue() == old(Queue()) + [record]
    {
      ghost var before := records[..];
      records[head] := record;
      assert records[..] == before[head := record];
      ContentIgnoresHead(before, head, tail, record);
      ContentGrows(records[..], head, tail);
      head := Next(head);
    }

    /** Takes the oldest record. */
    method Take() returns (record: Record)
      requires Valid() && tail != head
      modifies this`tail
      ensures old(Queue()) == [record] + Queue()
    {
      ContentShrinks(records[..], head, tail);
      record := records[tail];
      tail := Next(tail);
    }

    /** The drain loop takes up to one batch from the front. */
    method FlushRaw() returns (batch: seq<Record>)
      requires Valid()
      modifies this`tail
      ensures |batch| == if |old(Queue())| < 64 then |old(Queue())| else 64
      ensures batch + Queue() == old(Queue())
    {
      batch := [];
      while |batch| < BATCH && tail != head
        invariant |batch| <= BATCH
        invariant batch + Queue() == old(Queue())
        decreases BATCH - |batch|
      {
        ghost var queue := Queue();
        var record := Take();
        assert batch + queue == (batch + [record]) + Queue();
        batch := batch + [record];
      }
    }
  }

  // ---------------------------------------------------------------------------------------------
  // Interleaving
  // ---------------------------------------------------------------------------------------------

  /** A slot whose record is being written is torn. */
  datatype Slot = Torn | Whole(record: Record)

  /** The interrupt: outside, filling the slot at the head, or about to publish it. */
  datatype Producer = Outside | Filling(record: Record) | Filled(record: Record)

  /** The drain loop: at its test, past the test, or holding a copy before it moves the tail. */
  datatype Consumer = Testing | Passed | Copied(slot: Slot)

  /** `accepted`, `drained`, `offered` and `refused` record history. */
  datatype System = System(
    slots: seq<Slot>, head: Index, tail: Index, sequence: Word32, dropped: Word32, capture: bool,
    producer: Producer, consumer: Consumer,
    accepted: seq<Record>, drained: seq<Slot>, offered: nat, refused: nat)

  datatype Step = Capture(on: bool) | Offer(frame: Frame, nowMs: Word32) | Fill | Publish | Test | Copy | Advance

  function InitialSystem(): System {
    System(Blank(), 0, 0, 0, 0, false, Outside, Testing, [], [], 0, 0)
  }

  function Blank(): (slots: seq<Slot>)
    ensures |slots| == CAPACITY
  {
    seq(CAPACITY, _ => Whole(EMPTY_RECORD))
  }

  predicate Enabled(s: System, step: Step) {
    && |s.slots| == CAPACITY
    && match step
       case Capture(_) => true
       case Offer(_, _) => s.producer.Outside? && s.capture
       case Fill => s.producer.Filling?
       case Publish => s.producer.Filled?
       case Test => s.consumer.Testing?
       case Copy => s.consumer.Passed?
       case Advance => s.consumer.Copied?
  }

  /** The interrupt decides on the tail it reads; the slot stays torn until it has been filled. */
  function Offered(s: System, f: Frame, nowMs: Word32): System
    requires |s.slots| == CAPACITY
  {
    if Next(s.head) == s.tail then s.(dropped := Add32(s.dropped, 1), offered := s.offered + 1,
                                      refused := s.refused + 1)
    else
      var sequence := Add32(s.sequence, 1);
      var record := RecordOf(f, nowMs, sequence);
      s.(sequence := sequence, producer := Filling(record), slots := s.slots[s.head := Torn],
         accepted := s.accepted + [record], offered := s.offered + 1)
  }

  function After(s: System, step: Step): System
    requires Enabled(s, step)
  {
    match step
    case Capture(on) => s.(capture := on)
    case Offer(f, nowMs) => Offered(s, f, nowMs)
    case Fill => s.(slots := s.slots[s.head := Whole(s.producer.record)], producer := Filled(s.producer.record))
    case Publish => s.(head := Next(s.head), producer := Outside)
    case Test => if s.tail != s.head then s.(consumer := Passed) else s
    case Copy => s.(consumer := Copied(s.slots[s.tail]))
    case Advance => s.(tail := Next(s.tail), consumer := Testing, drained := s.drained + [s.consumer.slot])
  }

  /** Records as slots. */
  function Wholes(records: seq<Record>): (slots: seq<Slot>)
    ensures |slots| == |records| && forall i :: 0 <= i < |records| ==> slots[i] == Whole(records[i])
  {
    seq(|records|, i requires 0 <= i < |records| => Whole(records[i]))
  }

  function Queued(s: System): seq<Slot>
    requires |s.slots| == CAPACITY
  {
    Content(s.slots, s.head, s.tail)
  }

  /** The record in the hands of the interrupt, accepted but not yet published. */
  function Unpublished(s: System): seq<Slot> {
    if s.producer.Outside? then [] else [Whole(s.producer.record)]
  }

  predicate Busy(s: System)
    requires |s.slots| == CAPACITY
  {
    && (!s.producer.Outside? ==> Next(s.head) != s.tail)
    && (s.producer.Filled? ==> s.slots[s.head] == Whole(s.producer.record))
    && (!s.consumer.Testing? ==> s.head != s.tail)
    && (s.consumer.Copied? ==> s.consumer.slot == s.slots[s.tail])
  }

  predicate Numbered(s: System) {
    && s.sequence == |s.accepted| % TWO_32 && s.dropped == s.refused % TWO_32
    && s.offered == |s.accepted| + s.refused
    && forall i :: 0 <= i < |s.accepted| ==> s.accepted[i].sequence == (i + 1) % TWO_32
  }

  /** Drained, queued and unpublished records are the accepted ones, in order. */
  ghost predicate Inv(s: System) {
    && |s.slots| == CAPACITY && Busy(s) && Numbered(s)
    && s.drained + Queued(s) + Unpublished(s) == Wholes(s.accepted)
  }

  lemma InitialInv()
    ensures Inv(InitialSystem())
  {
    assert Queued(InitialSystem()) == [];
  }

  lemma WholesGrow(records: seq<Record>, r: Record)
    ensures Wholes(records + [r]) == Wholes(records) + [Whole(r)]
  {
  }

  lemma NextSequence(k: nat)
    ensures (k + 1) % TWO_32 == Add32(k % TWO_32, 1)
  {
  }

  lemma OfferKeepsNumbers(s: System, f: Frame, nowMs: Word32)
    requires Numbered(s) && Enabled(s, Offer(f, nowMs))
    ensures Numbered(Offered(s, f, nowMs))
  {
    NextSequence(|s.accepted|);
    NextSequence(s.refused);
  }

  lemma OfferKeepsInv(s: System, f: Frame, nowMs: Word32)
    requires Inv(s) && Enabled(s, Offer(f, nowMs))
    ensures Inv(Offered(s, f, nowMs))
  {
    if Next(s.head) != s.tail {
      var next := Offered(s, f, nowMs);
      ContentIgnoresHead(s.slots, s.head, s.tail, Torn);
      WholesGrow(s.accepted, next.producer.record);
      OfferKeepsNumbers(s, f, nowMs);
      assert Queued(next) == Queued(s);
      assert s.drained + Queued(s) + [] == s.drained + Queued(s);
    }
  }

  lemma FillKeepsInv(s: System)
    requires Inv(s) && Enabled(s, Fill)
    ensures Inv(After(s, Fill))
  {
    ContentIgnoresHead(s.slots, s.head, s.tail, Whole(s.producer.record));
    assert Queued(After(s, Fill)) == Queued(s);
  }

  lemma PublishKeepsInv(s: System)
    requires Inv(s) && Enabled(s, Publish)
    ensures Inv(After(s, Publish))
  {
    ContentGrows(s.slots, s.head, s.tail);
    assert Queued(After(s, Publish)) == Queued(s) + [s.slots[s.head]];
  }

  lemma AdvanceKeepsInv(s: System)
    requires Inv(s) && Enabled(s, Advance)
    ensures Inv(After(s, Advance))
  {
    var next := After(s, Advance);
    ContentShrinks(s.slots, s.head, s.tail);
    assert Queued(s) == [s.consumer.slot] + Queued(next);
    Regroup(s.drained, s.consumer.slot, Queued(next));
    TailKeepsBusy(s);
  }

  lemma Regroup<T>(front: seq<T>, middle: T, rest: seq<T>)
    ensures (front + [middle]) + rest == front + ([middle] + rest)
  {
  }

  lemma TailKeepsBusy(s: System)
    requires |s.slots| == CAPACITY && Busy(s) && s.consumer.Copied?
    ensures Busy(s.(tail := Next(s.tail), consumer := Testing))
  {
  }

  lemma StepKeepsInv(s: System, step: Step)
    requires Inv(s) && Enabled(s, step)
    ensures Inv(After(s, step))
  {
    match step
    case Offer(f, nowMs) => OfferKeepsInv(s, f, nowMs);
    case Fill => FillKeepsInv(s);
    case Publish => PublishKeepsInv(s);
    case Advance => AdvanceKeepsInv(s);
    case Capture(_) => assert Queued(After(s, step)) == Queued(s);
    case Test => assert Queued(After(s, step)) == Queued(s);
    case Copy => assert Queued(After(s, step)) == Queued(s);
  }

  ghost predicate IsRun(states: seq<System>, steps: seq<Step>) {
    && |states| == |steps| + 1 && states[0] == InitialSystem()
    && forall i :: 0 <= i < |steps| ==> Follows(states[i], steps[i], states[i + 1])
  }

  ghost predicate Follows(s: System, step: Step, next: System) {
    Enabled(s, step) && next == After(s, step)
  }

  lemma {:induction false} RunKeepsInv(states: seq<System>, steps: seq<Step>, i: nat)
    requires IsRun(states, steps) && i < |states|
    ensures Inv(states[i])
  {
    if i == 0 {
      InitialInv();
    } else {
      RunKeepsInv(states, steps, i - 1);
      assert Follows(states[i - 1], steps[i - 1], states[i]);
      StepKeepsInv(states[i - 1], steps[i - 1]);
    }
  }

  /** Under every interleaving the ring is a first-in first-out queue: what was drained, followed by what is queued and
      what the interrupt is about to publish, is what was accepted; sequence numbers are contiguous; every offered
      frame was accepted or counted as dropped; the occupancy is the difference of the two and at most 511. */
  lemma RingIsFifo(states: seq<System>, steps: seq<Step>, i: nat)
    requires IsRun(states, steps) && i < |states|
    ensures var s := states[i];
            && |s.slots| == CAPACITY
            && s.drained + Queued(s) + Unpublished(s) == Wholes(s.accepted)
            && (forall k :: 1 <= k < |s.accepted| ==> s.accepted[k].sequence == Add32(s.accepted[k - 1].sequence, 1))
            && s.offered == |s.accepted| + s.refused && s.dropped == s.refused % TWO_32
            && |Queued(s)| == |s.accepted| - |s.drained| - |Unpublished(s)| <= 511
  {
    RunKeepsInv(states, steps, i);
    var s := states[i];
    assert |s.drained + Queued(s) + Unpublished(s)| == |s.accepted|;
    forall k | 1 <= k < |s.accepted| ensures s.accepted[k].sequence == Add32(s.accepted[k - 1].sequence, 1) {
      assert s.accepted[k].sequence == (k + 1) % TWO_32 && s.accepted[k - 1].sequence == k % TWO_32;
      NextSequence(k);
    }
  }

  /** An offered frame is refused exactly when 511 records wait; otherwise its record is the last accepted one, with
      the time of its reception, its identifier, at most eight data bytes, and its flags. */
  lemma OfferIsRecorded(s: System, f: Frame, nowMs: Word32)
    requires Inv(s) && Enabled(s, Offer(f, nowMs))
    ensures var next := Offered(s, f, nowMs);
            if |Queued(s)| == 511 then next.accepted == s.accepted && next.refused == s.refused + 1
            else
              && |next.accepted| == |s.accepted| + 1 && next.refused == s.refused
              && var r := next.accepted[|s.accepted|];
                 && next.accepted[..|s.accepted|] == s.accepted
                 && r.timestampMs == nowMs && r.id == f.id && r.dlc == (if f.dlc > 8 then 8 else f.dlc)
                 && r.data == f.data && r.sequence == (|s.accepted| + 1) % 0x1_0000_0000
                 && r.flags.standard == f.standard && r.flags.remote == f.remote && r.flags.parsed == f.parsed
                 && r.flags.knownAms == f.knownAms && r.flags.knownCm200 == f.knownCm200
  {
    FullIff(s.head, s.tail);
    NextSequence(|s.accepted|);
  }

  /** The drain loop never copies a torn slot, and never overtakes the head. */
  lemma NoTornReads(states: seq<System>, steps: seq<Step>, i: nat)
    requires IsRun(states, steps) && i < |steps| && steps[i].Copy?
    ensures |states[i].slots| == CAPACITY && states[i].slots[states[i].tail].Whole?
    ensures |states[i].drained| < |states[i].accepted|
    ensures states[i].slots[states[i].tail] == Whole(states[i].accepted[|states[i].drained|])
  {
    RunKeepsInv(states, steps, i);
    var s := states[i];
    assert Follows(s, steps[i], states[i + 1]);
    ContentShrinks(s.slots, s.head, s.tail);
    assert (s.drained + Queued(s) + Unpublished(s))[|s.drained|] == s.slots[s.tail];
  }
}
