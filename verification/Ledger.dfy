/** At-most-once admission of reliable actions. The reference is an unbounded
    history of outcomes; the program keeps a small ring and a consumed floor. */
module Ledger {
  import opened Common

  const MAX_RETAINED_RECEIPTS: nat := 32

  datatype InputOutcome =
    | SubmittedToOs | AppliedLocally
    | RejectedBeforeSubmission | ExpiredBeforeSubmission | CancelledBeforeSubmission
    | PartiallySubmittedToOs | EffectUnknown

  predicate Succeeded(o: InputOutcome) { o == SubmittedToOs || o == AppliedLocally }

  datatype Admission = Admitted | InFlight | Completed(outcome: InputOutcome) | ConsumedWithoutReceipt

  datatype SequenceError =
    | InvalidCapacity(requested: nat)
    | StaleLease
    | Fenced
    | PreviousActionPending(sequence: u64)
    | SequenceGap(expected: u64, received: u64)
    | NotPending

  // ------------------------------------------------------ unbounded reference

  /** Every outcome ever recorded, in sequence order, and whether the next
      sequence is already consumed and awaits its outcome. */
  datatype History = History(outcomes: seq<InputOutcome>, pending: bool, fenced: bool) {
    function Consumed(): (r: nat) { |outcomes| + if pending then 1 else 0 }
  }

  function Admit(h: History, capacity: nat, sequence: u64): (r: (History, Result<Admission, SequenceError>)) {
    if h.pending && sequence == |h.outcomes| then (h, Ok(InFlight))
    else if sequence < |h.outcomes| then
      (h, Ok(if sequence + capacity >= |h.outcomes| then Completed(h.outcomes[sequence]) else ConsumedWithoutReceipt))
    else if h.fenced then (h, Err(Fenced))
    else if h.pending then (h, Err(PreviousActionPending(|h.outcomes|)))
    else if sequence != |h.outcomes| then
      (h.(fenced := true), Err(SequenceGap(|h.outcomes|, sequence)))
    else (h.(pending := true), Ok(Admitted))
  }

  function Record(h: History, sequence: u64, outcome: InputOutcome): (r: (History, Result<(), SequenceError>)) {
    if !h.pending || sequence != |h.outcomes| then (h, Err(NotPending))
    else (History(h.outcomes + [outcome], false, h.fenced || !Succeeded(outcome)), Ok(()))
  }

  datatype Op = OpAdmit(sequence: u64) | OpRecord(sequence: u64, outcome: InputOutcome) | OpFence

  function Step(h: History, capacity: nat, op: Op): (r: History) {
    match op
    case OpAdmit(n) => Admit(h, capacity, n).0
    case OpRecord(n, o) => Record(h, n, o).0
    case OpFence => h.(fenced := true)
  }

  function Run(capacity: nat, ops: seq<Op>): (r: History) {
    if ops == [] then History([], false, false)
    else Step(Run(capacity, ops[..|ops| - 1]), capacity, ops[|ops| - 1])
  }

  /** The sequences admitted by a run, in order. */
  function AdmittedBy(capacity: nat, ops: seq<Op>): (r: seq<nat>) {
    if ops == [] then []
    else
      var before := ops[..|ops| - 1];
      var op := ops[|ops| - 1];
      AdmittedBy(capacity, before)
      + if op.OpAdmit? && Admit(Run(capacity, before), capacity, op.sequence).1 == Ok(Admitted) then [op.sequence]
        else []
  }

  /** Admitted sequences are exactly 0, 1, 2, ...: none twice, none skipped. */
  lemma {:induction false} AdmissionIsContiguous(capacity: nat, ops: seq<Op>)
    ensures AdmittedBy(capacity, ops) == seq(Run(capacity, ops).Consumed(), i => i)
  {
    if ops != [] {
      AdmissionIsContiguous(capacity, ops[..|ops| - 1]);
    }
  }

  /** A run extended by further operations never changes a recorded outcome,
      never executes a consumed sequence again, and answers a repeat with the
      recorded outcome exactly while it is among the last `capacity`. */
  lemma {:induction false} OutcomesAreFinal(capacity: nat, ops: seq<Op>, more: seq<Op>, n: u64)
    requires n < |Run(capacity, ops).outcomes|
    ensures var h := Run(capacity, ops); var later := Run(capacity, ops + more);
      && |h.outcomes| <= |later.outcomes| && later.outcomes[n] == h.outcomes[n]
      && Admit(later, capacity, n) == (later, Ok(if |later.outcomes| - n <= capacity then Completed(h.outcomes[n])
                                                 else ConsumedWithoutReceipt))
  {
    if more == [] {
      assert ops + more == ops;
    } else {
      OutcomesAreFinal(capacity, ops, more[..|more| - 1], n);
      assert (ops + more)[..|ops + more| - 1] == ops + more[..|more| - 1];
    }
  }

  /** The outcomes accepted by a run, in order. */
  function RecordedBy(capacity: nat, ops: seq<Op>): (r: seq<InputOutcome>) {
    if ops == [] then []
    else
      var before, op := ops[..|ops| - 1], ops[|ops| - 1];
      RecordedBy(capacity, before)
      + if op.OpRecord? && Record(Run(capacity, before), op.sequence, op.outcome).1.Ok? then [op.outcome] else []
  }

  /** The last operation of the run is a reason to admit nothing new: an explicit fence, an
      outcome other than success, or a number beyond the next one. */
  predicate FencesNow(capacity: nat, ops: seq<Op>)
    requires ops != []
  {
    var before, op := ops[..|ops| - 1], ops[|ops| - 1];
    || op.OpFence?
    || (op.OpRecord? && RecordedBy(capacity, ops) != RecordedBy(capacity, before) && !Succeeded(op.outcome))
    || (op.OpAdmit? && Admit(Run(capacity, before), capacity, op.sequence).1.Err?
        && Admit(Run(capacity, before), capacity, op.sequence).1.error.SequenceGap?)
  }

  /** After any run: the outcomes are those recorded, an action is pending exactly if one
      more was admitted than recorded, and nothing new is admitted exactly if some earlier
      operation was a reason for that. */
  lemma {:induction false} HistoryExactly(capacity: nat, ops: seq<Op>)
    ensures var h := Run(capacity, ops);
      && h.outcomes == RecordedBy(capacity, ops)
      && |AdmittedBy(capacity, ops)| == |h.outcomes| + (if h.pending then 1 else 0)
      && (h.fenced <==> exists n :: 0 < n <= |ops| && FencesNow(capacity, ops[..n]))
  {
    AdmissionIsContiguous(capacity, ops);
    if ops != [] {
      var m := |ops| - 1;
      HistoryExactly(capacity, ops[..m]);
      HistoryStep(capacity, ops);
      hide Run, RecordedBy, AdmittedBy, FencesNow;
      assert ops[..m + 1] == ops;
      assert forall n :: 0 < n <= m ==> ops[..m][..n] == ops[..n];
    }
  }

  lemma HistoryStep(capacity: nat, ops: seq<Op>)
    requires ops != [] && Run(capacity, ops[..|ops| - 1]).outcomes == RecordedBy(capacity, ops[..|ops| - 1])
    ensures var h, before := Run(capacity, ops), Run(capacity, ops[..|ops| - 1]);
      && h.outcomes == RecordedBy(capacity, ops)
      && (h.fenced <==> before.fenced || FencesNow(capacity, ops))
  {}

  /** After any run, the answer to a number, told from how many actions were admitted and
      recorded: exactly the next number is admitted, exactly the pending one is in flight,
      a number beyond the next is a gap that names the next, and an outcome is taken
      exactly for the pending number. */
  lemma AnswersExactly(capacity: nat, ops: seq<Op>, n: u64, outcome: InputOutcome)
    ensures var h := Run(capacity, ops); var r := Admit(h, capacity, n).1;
      var admitted, recorded := |AdmittedBy(capacity, ops)|, |RecordedBy(capacity, ops)|;
      && (r == Ok(Admitted) <==> !h.fenced && n == admitted == recorded)
      && (r == Ok(InFlight) <==> n == recorded < admitted)
      && (r.Ok? && (r.value.Completed? || r.value.ConsumedWithoutReceipt?) <==> n < recorded)
      && (r == Err(Fenced) <==> h.fenced && n >= admitted)
      && (recorded < n && !h.fenced ==> r == Err(
         if admitted == recorded then SequenceGap(recorded, n) else PreviousActionPending(recorded)))
      && (Record(h, n, outcome).1.Ok? <==> n == recorded < admitted)
  {
    HistoryExactly(capacity, ops);
  }

  // ------------------------------------------------------------- ring positions

  /** The ring slot of the n-th recorded receipt: n modulo the capacity. */
  function Slot(n: nat, capacity: nat): (i: nat)
    requires capacity > 0
    ensures i < capacity
  {
    if n < capacity then n else Slot(n - capacity, capacity)
  }

  lemma {:induction false} SlotStep(n: nat, capacity: nat)
    requires capacity > 0
    ensures Slot(n + 1, capacity) == if Slot(n, capacity) + 1 == capacity then 0 else Slot(n, capacity) + 1
  {
    if n >= capacity { SlotStep(n - capacity, capacity); }
  }

  lemma {:induction false} SlotDistinct(k: nat, n: nat, capacity: nat)
    requires k < n < k + capacity
    ensures Slot(k, capacity) != Slot(n, capacity)
  {
    if k >= capacity { SlotDistinct(k - capacity, n - capacity, capacity); }
  }

  /** The newest of the first n receipts that was written to slot i, if any. */
  function Latest(n: nat, capacity: nat, i: nat): (k: Option<nat>)
    requires i < capacity
    ensures k.Some? ==> k.value < n
  {
    if n == 0 then None
    else if Slot(n - 1, capacity) == i then Some(n - 1)
    else Latest(n - 1, capacity, i)
  }

  /** Slot i holds receipt k exactly when k is in that slot and among the newest
      `capacity` receipts: the ring forgets nothing earlier than it must. */
  lemma {:induction false} LatestIsWindow(n: nat, capacity: nat, i: nat, k: nat)
    requires i < capacity
    ensures Latest(n, capacity, i) == Some(k) <==> Slot(k, capacity) == i && k < n <= k + capacity
  {
    if n > 0 {
      LatestIsWindow(n - 1, capacity, i, k);
      if k < n - 1 && Slot(k, capacity) == i {
        if n - 1 < k + capacity { SlotDistinct(k, n - 1, capacity); }
        else if n - 1 == k + capacity { assert Slot(n - 1, capacity) == Slot(k, capacity); }
      }
    }
  }

  lemma WrapAround(i: nat, capacity: nat)
    requires i < capacity
    ensures (i + 1) % capacity == if i + 1 == capacity then 0 else i + 1
  {}

  // ------------------------------------------------------------------ the owner

  datatype Entry = Entry(sequence: u64, outcome: InputOutcome)

  class InputSequenceLedger {
    const lease: u64
    const capacity: nat
    const receipts: array<Option<Entry>>
    var nextSequence: Option<u64>
    var pending: Option<u64>
    var cursor: nat
    var fenced: bool
    /** Every recorded outcome, retained or evicted. */
    ghost var history: seq<InputOutcome>

    ghost predicate Valid()
      reads this, receipts
    {
      var n := |history|;
      && 1 <= capacity <= MAX_RETAINED_RECEIPTS == receipts.Length
      && n + (if pending.Some? then 1 else 0) <= U64_MAX + 1
      && (pending.Some? ==> pending.value == n)
      && nextSequence == (if Model().Consumed() <= U64_MAX then Some(Model().Consumed()) else None)
      && cursor == Slot(n, capacity)
      && (forall i :: 0 <= i < capacity ==> receipts[i] == Expected(i))
    }

    ghost function Expected(i: nat): (r: Option<Entry>)
      requires i < capacity && |history| <= U64_MAX + 1
      reads this
    {
      var k := Latest(|history|, capacity, i);
      if k.Some? then Some(Entry(k.value, history[k.value])) else None
    }

    /** The reference history this ring stands for. */
    ghost function Model(): (r: History)
      reads this
    {
      History(history, pending.Some?, fenced)
    }

    constructor (lease: u64, capacity: nat)
      requires 1 <= capacity <= MAX_RETAINED_RECEIPTS
      ensures Valid() && fresh(receipts) && this.lease == lease && this.capacity == capacity
      ensures Model() == History([], false, false)
    {
      this.lease := lease;
      this.capacity := capacity;
      receipts := new Option<Entry>[MAX_RETAINED_RECEIPTS](_ => None);
      nextSequence, pending, cursor, fenced := Some(0), None, 0, false;
      history := [];
    }

    /** A receipt window outside the fixed storage bound is refused. */
    static method Open(lease: u64, capacity: nat) returns (r: Result<InputSequenceLedger, SequenceError>)
      ensures 1 <= capacity <= MAX_RETAINED_RECEIPTS ==>
                r.Ok? && fresh(r.value) && r.value.Valid() && r.value.Model() == History([], false, false)
      ensures !(1 <= capacity <= MAX_RETAINED_RECEIPTS) ==> r == Err(InvalidCapacity(capacity))
    {
      if !(1 <= capacity <= MAX_RETAINED_RECEIPTS) { return Err(InvalidCapacity(capacity)); }
      var ledger := new InputSequenceLedger(lease, capacity);
      r := Ok(ledger);
    }

    method FindReceipt(sequence: u64) returns (r: Option<InputOutcome>)
      requires Valid()
      ensures r == if sequence < |history| <= sequence + capacity then Some(history[sequence]) else None
    {
      var i := 0;
      while i < capacity
        invariant 0 <= i <= capacity
        invariant forall j :: 0 <= j < i ==> receipts[j].None? || receipts[j].value.sequence != sequence
      {
        LatestIsWindow(|history|, capacity, i, sequence);
        if receipts[i].Some? && receipts[i].value.sequence == sequence {
          return Some(receipts[i].value.outcome);
        }
        i := i + 1;
      }
      LatestIsWindow(|history|, capacity, Slot(sequence, capacity), sequence);
      assert receipts[Slot(sequence, capacity)] == Expected(Slot(sequence, capacity));
      r := None;
    }

    /** Consumes exactly the next sequence, or answers without executing again. */
    method AdmitAction(lease: u64, sequence: u64) returns (r: Result<Admission, SequenceError>)
      requires Valid()
      modifies this
      ensures Valid() && unchanged(receipts)
      ensures lease == this.lease ==> (Model(), r) == Admit(old(Model()), capacity, sequence)
      ensures lease != this.lease ==> Model() == old(Model()) && r == Err(StaleLease)
    {
      if lease != this.lease { return Err(StaleLease); }
      if pending == Some(sequence) { return Ok(InFlight); }
      var receipt := FindReceipt(sequence);
      if receipt.Some? { return Ok(Completed(receipt.value)); }
      if nextSequence.None? || sequence < nextSequence.value { return Ok(ConsumedWithoutReceipt); }
      if fenced { return Err(Fenced); }
      if pending.Some? { return Err(PreviousActionPending(pending.value)); }
      var expected := nextSequence.value;
      if sequence != expected {
        fenced := true;
        return Err(SequenceGap(expected, sequence));
      }
      nextSequence := CheckedAdd(sequence, 1);
      pending := Some(sequence);
      r := Ok(Admitted);
    }

    /** Records the one terminal outcome of the pending action. */
    method RecordOutcome(lease: u64, sequence: u64, outcome: InputOutcome) returns (r: Result<(), SequenceError>)
      requires Valid()
      modifies this, receipts
      ensures Valid()
      ensures lease == this.lease ==> (Model(), r) == Record(old(Model()), sequence, outcome)
      ensures lease != this.lease ==> Model() == old(Model()) && r == Err(StaleLease)
    {
      if lease != this.lease { return Err(StaleLease); }
      if pending != Some(sequence) { return Err(NotPending); }
      ghost var n := |history|;
      SlotStep(n, capacity);
      WrapAround(cursor, capacity);
      hide Slot;
      pending := None;
      receipts[cursor] := Some(Entry(sequence, outcome));
      cursor := (cursor + 1) % capacity;
      history := history + [outcome];
      if !Succeeded(outcome) {
        fenced := true;
      }
      r := Ok(());
    }

    method Fence()
      requires Valid()
      modifies this`fenced
      ensures Valid() && Model() == old(Model()).(fenced := true)
    {
      fenced := true;
    }
  }
}
