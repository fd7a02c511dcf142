/** Software ownership of the three CAN transmit mailboxes: one task, the completion interrupts and
    the error interrupt. */
module TxMailbox {
  import opened Numeric

  type Mailbox = x: nat | x < 3

  /** The mailbox masks of the driver, and the one-way latch for a frame whose fate is unknown. */
  datatype Driver = Driver(pending: set<Mailbox>, complete: set<Mailbox>, abort: set<Mailbox>, uncertain: bool)

  const NO_OWNERSHIP := Driver({}, {}, {}, false)

  datatype Status = HalOk | HalBusy | HalError | HalTimeout

  /** A terminal callback of the hardware abstraction layer. */
  datatype Callback = Callback(mailbox: Mailbox, completed: bool)

  /** The bits of the controller's error vector: terminal transmit errors by mailbox, controller failures, the rest. */
  datatype ErrorBit = ArbitrationLost(mailbox: Mailbox) | TransmitError(mailbox: Mailbox) | ControllerFatal | OtherError

  // ---------------------------------------------------------------------------------------------
  // Atomic steps
  // ---------------------------------------------------------------------------------------------

  /** A new frame owns the mailbox; outcomes of earlier frames in it are forgotten. */
  function Own(d: Driver, m: Mailbox): Driver {
    d.(pending := d.pending + {m}, complete := d.complete - {m}, abort := d.abort - {m})
  }

  function OnCallback(d: Driver, c: Callback): Driver {
    if c.mailbox !in d.pending then d
    else
      var rest := d.(pending := d.pending - {c.mailbox});
      if c.completed then rest.(complete := rest.complete + {c.mailbox}) else rest.(abort := rest.abort + {c.mailbox})
  }

  function OnCallbacks(d: Driver, callbacks: seq<Callback>): Driver {
    if callbacks == [] then d else OnCallback(OnCallbacks(d, callbacks[..|callbacks| - 1]), callbacks[|callbacks| - 1])
  }

  predicate Failed(bits: set<ErrorBit>, m: Mailbox) {
    ArbitrationLost(m) in bits || TransmitError(m) in bits
  }

  function FailIf(d: Driver, bits: set<ErrorBit>, m: Mailbox): Driver {
    if Failed(bits, m) then OnCallback(d, Callback(m, false)) else d
  }

  /** Only the mailboxes named by a transmit bit lose their frame; controller failures leave ownership alone. */
  function OnError(d: Driver, bits: set<ErrorBit>): Driver {
    FailIf(FailIf(FailIf(d, bits, 0), bits, 1), bits, 2)
  }

  function Outcome(d: Driver, m: Mailbox): Status {
    if m in d.complete then HalOk else if m in d.abort then HalError else HalBusy
  }

  function Collect(d: Driver, m: Mailbox): Driver {
    if m in d.complete then d.(complete := d.complete - {m})
    else if m in d.abort then d.(abort := d.abort - {m})
    else d
  }

  predicate Disjoint(d: Driver) {
    d.pending !! d.complete && d.pending !! d.abort && d.complete !! d.abort
  }

  /** At most one mailbox is owned, and no mailbox is in two masks. */
  predicate Exclusive(d: Driver) {
    Disjoint(d) && forall a, b :: a in d.pending && b in d.pending ==> a == b
  }

  // ---------------------------------------------------------------------------------------------
  // What the waiting loop returns
  // ---------------------------------------------------------------------------------------------

  function Flatten(batches: seq<seq<Callback>>): seq<Callback> {
    if batches == [] then [] else Flatten(batches[..|batches| - 1]) + batches[|batches| - 1]
  }

  /** The first callback for this mailbox tells how its frame ended. */
  function FirstOutcome(callbacks: seq<Callback>, m: Mailbox): Option<bool> {
    if callbacks == [] then None
    else
      var rest, c := FirstOutcome(callbacks[..|callbacks| - 1], m), callbacks[|callbacks| - 1];
      if rest.Some? then rest else if c.mailbox == m then Some(c.completed) else None
  }

  function StatusFor(outcome: Option<bool>): Status {
    match outcome
    case None => HalTimeout
    case Some(completed) => if completed then HalOk else HalError
  }

  /** The driver knows this much about the frame in the mailbox. */
  predicate Knows(d: Driver, m: Mailbox, outcome: Option<bool>) {
    match outcome
    case None => m in d.pending && m !in d.complete && m !in d.abort
    case Some(completed) => m !in d.pending && (m in d.complete <==> completed) && (m in d.abort <==> !completed)
  }

  /** What is known after these callbacks: the outcome already known stands, else the first one tells. */
  function Told(known: Option<bool>, callbacks: seq<Callback>, m: Mailbox): Option<bool> {
    if known.Some? then known else FirstOutcome(callbacks, m)
  }

  lemma {:induction false} CallbacksTell(d: Driver, callbacks: seq<Callback>, m: Mailbox, known: Option<bool>)
    requires Knows(d, m, known)
    ensures Knows(OnCallbacks(d, callbacks), m, Told(known, callbacks, m))
    ensures OnCallbacks(d, callbacks).uncertain == d.uncertain
  {
    if callbacks != [] {
      CallbacksTell(d, callbacks[..|callbacks| - 1], m, known);
    }
  }

  lemma {:induction false} CallbacksConcat(d: Driver, a: seq<Callback>, b: seq<Callback>)
    ensures OnCallbacks(d, a + b) == OnCallbacks(OnCallbacks(d, a), b)
  {
    if b == [] {
      assert a + b == a;
    } else {
      CallbacksConcat(d, a, b[..|b| - 1]);
      assert (a + b)[..|a + b| - 1] == a + b[..|b| - 1];
    }
  }

  // ---------------------------------------------------------------------------------------------
  // The in-place form
  // ---------------------------------------------------------------------------------------------

  /** What the hardware answers to one enqueue request. */
  datatype Enqueue = NoneFree | Rejected | Took(mailbox: Mailbox)

  class CanDriver {
    var pending: set<Mailbox>
    var complete: set<Mailbox>
    var abort: set<Mailbox>
    var uncertain: bool

    ghost function View(): Driver
      reads this
    {
      Driver(pending, complete, abort, uncertain)
    }

    constructor ()
      ensures View() == NO_OWNERSHIP
    {
      pending, complete, abort, uncertain := {}, {}, {}, false;
    }

    /** Nothing is enqueued behind an unresolved frame, or after the latch. */
    method TransmitReadyTracked(hardware: Enqueue) returns (status: Status, mailbox: Mailbox)
      modifies this
      ensures status == HalOk <==> hardware.Took? && !old(uncertain) && old(pending) == {}
      ensures status == HalOk ==> mailbox == hardware.mailbox && View() == Own(old(View()), mailbox)
      ensures status != HalOk ==> View() == old(View())
      ensures status == HalBusy <==> hardware.NoneFree? || (!old(uncertain) && old(pending) != {})
    {
      mailbox := 0;
      if hardware.NoneFree? {
        return HalBusy, 0;
      }
      if uncertain {
        return HalError, 0;
      }
      if pending != {} {
        return HalBusy, 0;
      }
      if hardware.Rejected? {
        return HalError, 0;
      }
      mailbox := hardware.mailbox;
      pending := pending + {mailbox};
      complete := complete - {mailbox};
      abort := abort - {mailbox};
      status := HalOk;
    }

    method TxCallbackIsr(c: Callback)
      modifies this
      ensures View() == OnCallback(old(View()), c)
    {
      if c.mailbox !in pending {
        return;
      }
      pending := pending - {c.mailbox};
      if c.completed {
        complete := complete + {c.mailbox};
      } else {
        abort := abort + {c.mailbox};
      }
    }

    method TxErrorIsr(bits: set<ErrorBit>)
      modifies this
      ensures View() == OnError(old(View()), bits)
    {
      if ArbitrationLost(0) in bits || TransmitError(0) in bits {
        TxCallbackIsr(Callback(0, false));
      }
      if ArbitrationLost(1) in bits || TransmitError(1) in bits {
        TxCallbackIsr(Callback(1, false));
      }
      if ArbitrationLost(2) in bits || TransmitError(2) in bits {
        TxCallbackIsr(Callback(2, false));
      }
    }

    /** One critical section of the waiting loop. */
    method PollOutcome(m: Mailbox) returns (status: Status)
      modifies this
      ensures status == Outcome(old(View()), m) && View() == Collect(old(View()), m)
    {
      status := HalBusy;
      if m in complete {
        complete := complete - {m};
        status := HalOk;
      } else if m in abort {
        abort := abort - {m};
        status := HalError;
      }
    }

    method Interrupts(callbacks: seq<Callback>)
      modifies this
      ensures View() == OnCallbacks(old(View()), callbacks)
    {
      var i := 0;
      while i < |callbacks|
        invariant 0 <= i <= |callbacks|
        invariant View() == OnCallbacks(old(View()), callbacks[..i])
      {
        assert callbacks[..i + 1][..i] == callbacks[..i];
        TxCallbackIsr(callbacks[i]);
        i := i + 1;
      }
      assert callbacks[..|callbacks|] == callbacks;
    }

    /** One poll after the interrupts seen so far: the answer is final, or the driver still waits. */
    method PollAfter(m: Mailbox, ghost known: Option<bool>, ghost seen: seq<Callback>, ghost start: Driver)
      returns (status: Status)
      requires Knows(start, m, known) && View() == OnCallbacks(start, seen)
      modifies this
      ensures status == HalBusy <==> Told(known, seen, m) == None
      ensures status == HalBusy ==> View() == old(View())
      ensures status != HalBusy ==> status == StatusFor(Told(known, seen, m)) && !Owned(m)
      ensures uncertain == start.uncertain
    {
      CallbacksTell(start, seen, m, known);
      status := PollOutcome(m);
    }

    /** Polls once, then once more after each batch of interrupts; stops at the first answer. */
    method PollThrough(m: Mailbox, batches: seq<seq<Callback>>, ghost known: Option<bool>, ghost before: seq<Callback>,
                       ghost start: Driver) returns (status: Status, ghost seen: seq<Callback>)
      requires Knows(start, m, known) && View() == OnCallbacks(start, before)
      modifies this
      ensures status == HalBusy ==> seen == before + Flatten(batches) && View() == OnCallbacks(start, seen)
      ensures status == HalBusy <==> Told(known, before + Flatten(batches), m) == None
      ensures status != HalBusy ==> status == StatusFor(Told(known, before + Flatten(batches), m)) && !Owned(m)
      ensures uncertain == start.uncertain
    {
      seen := before;
      var i := 0;
      status := PollAfter(m, known, seen, start);
      while status == HalBusy && i < |batches|
        invariant 0 <= i <= |batches|
        invariant seen == before + Flatten(batches[..i])
        invariant status == HalBusy <==> Told(known, seen, m) == None
        invariant status == HalBusy ==> View() == OnCallbacks(start, seen)
        invariant status != HalBusy ==> status == StatusFor(Told(known, seen, m)) && !Owned(m)
        invariant uncertain == start.uncertain
      {
        assert batches[..i + 1][..i] == batches[..i];
        CallbacksConcat(start, seen, batches[i]);
        Interrupts(batches[i]);
        seen := seen + batches[i];
        status := PollAfter(m, known, seen, start);
        i := i + 1;
      }
      OutcomeStands(before, batches, i, m);
      assert batches[..|batches|] == batches;
    }

    /** The mailbox is still in a mask. */
    predicate Owned(m: Mailbox)
      reads this
    {
      m in pending || m in complete || m in abort
    }

    /** Waits through the deadline window and then through the abort-reconcile window. The answer is
        the outcome already in the masks, or else the first terminal callback of this mailbox in
        either window; without one the outcome is unknown and the latch is set. */
    method WaitTxComplete(m: Mailbox, window: seq<seq<Callback>>, reconcile: seq<seq<Callback>>,
                          ghost known: Option<bool>)
      returns (status: Status)
      requires Knows(View(), m, known)
      modifies this
      ensures status == StatusFor(Told(known, Flatten(window) + Flatten(reconcile), m))
      ensures uncertain == (old(uncertain) || status == HalTimeout)
      ensures status != HalTimeout ==> !Owned(m)
    {
      ghost var start := View();
      ghost var seen := [];
      assert [] + Flatten(window) == Flatten(window);
      status, seen := PollThrough(m, window, known, [], start);
      OutcomePrefix(Flatten(window), Flatten(reconcile), m);
      if status != HalBusy {
        return;
      }
      status, seen := PollThrough(m, reconcile, known, seen, start);
      if status == HalBusy {
        uncertain := true;
        status := HalTimeout;
      }
    }
  }

  lemma {:induction false} OutcomePrefix(a: seq<Callback>, b: seq<Callback>, m: Mailbox)
    ensures FirstOutcome(a + b, m) == if FirstOutcome(a, m).Some? then FirstOutcome(a, m) else FirstOutcome(b, m)
  {
    if b == [] {
      assert a + b == a;
    } else {
      OutcomePrefix(a, b[..|b| - 1], m);
      assert (a + b)[..|a + b| - 1] == a + b[..|b| - 1];
    }
  }

  lemma {:induction false} FlattenPrefix(batches: seq<seq<Callback>>, i: nat) returns (rest: seq<Callback>)
    requires i <= |batches|
    ensures Flatten(batches) == Flatten(batches[..i]) + rest
  {
    if i == |batches| {
      assert batches[..i] == batches;
      rest := [];
    } else {
      var n := |batches| - 1;
      rest := FlattenPrefix(batches[..n], i);
      assert batches[..n][..i] == batches[..i];
      rest := rest + batches[n];
    }
  }

  /** An outcome seen after i batches is the outcome of all of them. */
  lemma OutcomeStands(before: seq<Callback>, batches: seq<seq<Callback>>, i: nat, m: Mailbox)
    requires i <= |batches|
    ensures var early := FirstOutcome(before + Flatten(batches[..i]), m);
            early.Some? ==> FirstOutcome(before + Flatten(batches), m) == early
  {
    var rest := FlattenPrefix(batches, i);
    assert before + Flatten(batches) == (before + Flatten(batches[..i])) + rest;
    OutcomePrefix(before + Flatten(batches[..i]), rest, m);
  }
}
