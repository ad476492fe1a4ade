/** The one-slot mailbox between transport threads and the disk worker, step by
    step: unlocked checks of the stop flag, one lock, one worker. */
module Mailbox {
  import opened Common

  datatype Work<C> = Work(sequence: nat, command: C)
  datatype Receipt<R> = Receipt(sequence: nat, result: R)

  datatype Slot<C, R> = Idle | Queued(work: Work<C>) | Executing | Complete(receipt: Receipt<R>)

  /** Where a submitting thread is: outside, past the unlocked check, or holding
      the lock after the second check. */
  datatype Submitter<C> = Outside | Checked(command: C) | Holding(command: C)

  /** Where the worker is. It has stopped the mailbox before it is `Failing`. */
  datatype Worker<C, R> =
    | Serving | Looking | Working(work: Work<C>) | Finishing(receipt: Receipt<R>) | Failing(error: R) | Exited

  datatype State<C, R> = State(
    slot: Slot<C, R>,
    next: nat,
    stopped: bool,
    lock: Option<nat>,
    submitters: map<nat, Submitter<C>>,
    worker: Worker<C, R>,
    /** Accepted commands in order; their sequence numbers are 1, 2, 3, ... */
    accepted: seq<C>,
    /** Receipts handed to the collector, in order. */
    collected: seq<Receipt<R>>,
    /** What executing each taken command really returned. */
    executed: map<nat, R>)

  datatype Step<C, R> =
    | SubmitCheck(thread: nat, command: C)
    | SubmitLock(thread: nat)
    | SubmitEnqueue(thread: nat, copied: bool)
    | Stop
    | ServiceSucceeds
    | ServiceFails(error: R)
    | WorkerTakes
    | WorkerExecutes(result: R, panics: bool)
    | WorkerPublishes
    | WorkerDrains
    | Collect

  function Start<C, R>(): (r: State<C, R>) {
    State(Idle, 1, false, None, map[], Serving, [], [], map[])
  }

  // ---------------------------------------------------------- what the lock protects

  function Enqueued<C, R>(slot: Slot<C, R>, next: nat, c: C, copied: bool): (r: (Slot<C, R>, Option<nat>)) {
    if !slot.Idle? || next == U64_MAX || !copied then (slot, None) else (Queued(Work(next, c)), Some(next))
  }

  function Drained<C, R>(slot: Slot<C, R>, error: R): (r: Slot<C, R>) {
    if slot.Queued? then Complete(Receipt(slot.work.sequence, error)) else slot
  }

  /** The shared inbox, as each locked section changes it. */
  class Inbox<C, R> {
    var slot: Slot<C, R>
    var next: nat

    constructor ()
      ensures slot == Idle && next == 1
    {
      slot, next := Idle, 1;
    }

    /** The one free place, or nothing; a failed copy consumes no number. */
    method Enqueue(command: C, copied: bool) returns (r: Option<nat>)
      modifies this
      ensures (slot, r) == Enqueued(old(slot), old(next), command, copied)
      ensures next == old(next) + if r.Some? then 1 else 0
      ensures r.Some? <==> old(slot) == Idle && old(next) != U64_MAX && copied
      ensures if r.Some? then r.value == old(next) && slot == Queued(Work(old(next), command)) else slot == old(slot)
    {
      if !slot.Idle? || next == U64_MAX || !copied { return None; }
      slot := Queued(Work(next, command));
      r := Some(next);
      next := next + 1;
    }

    method Take() returns (work: Option<Work<C>>)
      modifies this`slot
      ensures if old(slot).Queued? then slot == Executing && work == Some(old(slot).work)
        else slot == old(slot) && work.None?
    {
      work := None;
      if slot.Queued? {
        work := Some(slot.work);
        slot := Executing;
      }
    }

    /** A worker that gives up answers what it never executed. */
    method Drain(error: R)
      modifies this`slot
      ensures slot == Drained(old(slot), error)
      ensures if old(slot).Queued? then slot == Complete(Receipt(old(slot).work.sequence, error)) else slot == old(slot)
    {
      if slot.Queued? { slot := Complete(Receipt(slot.work.sequence, error)); }
    }

    method TakeReceipt() returns (receipt: Option<Receipt<R>>)
      modifies this`slot
      ensures if old(slot).Complete? then slot == Idle && receipt == Some(old(slot).receipt)
        else slot == old(slot) && receipt.None?
    {
      receipt := None;
      if slot.Complete? {
        receipt := Some(slot.receipt);
        slot := Idle;
      }
    }
  }

  // ------------------------------------------------------------------ interleavings

  function At<C, R>(s: State<C, R>, thread: nat): (r: Submitter<C>) {
    if thread in s.submitters then s.submitters[thread] else Outside
  }

  predicate Enabled<C, R>(s: State<C, R>, step: Step<C, R>) {
    match step
    case SubmitCheck(t, _) => At(s, t).Outside?
    case SubmitLock(t) => At(s, t).Checked?
    case SubmitEnqueue(t, _) => At(s, t).Holding?
    case Stop => true
    case ServiceSucceeds => s.worker.Serving?
    case ServiceFails(_) => s.worker.Serving?
    case WorkerTakes => s.worker.Looking? && s.lock.None?
    case WorkerExecutes(_, _) => s.worker.Working?
    case WorkerPublishes => s.worker.Finishing? && s.lock.None?
    case WorkerDrains => s.worker.Failing? && s.lock.None?
    case Collect => s.lock.None?
  }

  function Next<C, R>(s: State<C, R>, step: Step<C, R>): (r: State<C, R>)
    requires Enabled(s, step)
  {
    match step
    case SubmitCheck(t, c) => if s.stopped then s else s.(submitters := s.submitters[t := Checked(c)])
    case SubmitLock(t) =>
      if s.lock.Some? || s.stopped then s.(submitters := s.submitters[t := Outside])
      else s.(lock := Some(t), submitters := s.submitters[t := Holding(At(s, t).command)])
    case SubmitEnqueue(t, copied) =>
      var u := s.(lock := None, submitters := s.submitters[t := Outside]);
      var c := At(s, t).command;
      var (slot, accepted) := Enqueued(s.slot, s.next, c, copied);
      if accepted.None? then u else u.(slot := slot, next := s.next + 1, accepted := s.accepted + [c])
    case Stop => s.(stopped := true)
    case ServiceSucceeds => s.(worker := Looking)
    case ServiceFails(e) => s.(stopped := true, worker := Failing(e))
    case WorkerTakes =>
      if s.slot.Queued? then s.(slot := Executing, worker := Working(s.slot.work)) else s.(worker := Serving)
    case WorkerExecutes(result, panics) =>
      var n := s.worker.work.sequence;
      s.(worker := Finishing(Receipt(n, result)), executed := s.executed[n := result], stopped := s.stopped || panics)
    case WorkerPublishes => s.(slot := Complete(s.worker.receipt), worker := Serving)
    case WorkerDrains =>
      s.(worker := Exited, slot := Drained(s.slot, s.worker.error))
    case Collect =>
      if s.slot.Complete? then s.(slot := Idle, collected := s.collected + [s.slot.receipt]) else s
  }

  // ---------------------------------------------------------------- the invariant

  /** The number of the one command between acceptance and collection, if any. */
  function Open<C, R>(s: State<C, R>): (r: Option<nat>) {
    match s.slot
    case Idle => None
    case Queued(work) => Some(work.sequence)
    case Complete(receipt) => Some(receipt.sequence)
    case Executing =>
      match s.worker
      case Working(work) => Some(work.sequence)
      case Finishing(receipt) => Some(receipt.sequence)
      case _ => None
  }

  /** Receipts come back one per accepted command and in the order of acceptance,
      and the only command without one is the one in the slot. */
  ghost predicate Accounted<C, R>(s: State<C, R>) {
    && s.next == |s.accepted| + 1 && s.next <= U64_MAX
    && |s.accepted| == |s.collected| + (if s.slot.Idle? then 0 else 1)
    && (forall i :: 0 <= i < |s.collected| ==> s.collected[i].sequence == i + 1)
    && (!s.slot.Idle? ==> Open(s) == Some(|s.accepted|))
  }

  /** Exactly the worker executes, only what it took, and the lock is held by
      exactly the submitter past its second check. */
  ghost predicate Owned<C, R>(s: State<C, R>) {
    && (s.slot.Executing? <==> s.worker.Working? || s.worker.Finishing?)
    && (forall t: nat :: At(s, t).Holding? <==> s.lock == Some(t))
    && (s.worker.Failing? || s.worker.Exited? ==> s.stopped)
    && (s.worker.Exited? ==> s.lock.None? && !s.slot.Queued?)
    && (s.slot.Queued? ==> |s.accepted| > 0 && s.slot.work.command == s.accepted[|s.accepted| - 1])
    && (s.worker.Working? ==> |s.accepted| > 0 && s.worker.work.command == s.accepted[|s.accepted| - 1])
  }

  /** What has been or can now be collected. */
  function Answers<C, R>(s: State<C, R>): (r: seq<Receipt<R>>) {
    s.collected + if s.slot.Complete? then [s.slot.receipt] else []
  }

  ghost predicate Backed<C, R>(s: State<C, R>, n: nat, result: R) {
    if n in s.executed then result == s.executed[n] else s.worker.Exited?
  }

  /** A receipt of an executed command is what its execution returned; only a
      command that was never executed is answered with the worker's own failure. */
  ghost predicate Honest<C, R>(s: State<C, R>) {
    && (forall n :: n in s.executed ==> 1 <= n <= |s.accepted|)
    && (forall i :: 0 <= i < |s.collected| ==> Backed(s, i + 1, s.collected[i].result))
    && (s.slot.Complete? ==> Backed(s, s.slot.receipt.sequence, s.slot.receipt.result))
    && (s.worker.Finishing? ==>
       s.worker.receipt.sequence in s.executed && s.worker.receipt.result == s.executed[s.worker.receipt.sequence])
    && (s.slot.Queued? || s.worker.Working? ==> |s.accepted| !in s.executed)
  }

  ghost predicate Inv<C, R>(s: State<C, R>) {
    Accounted(s) && (|s.accepted| > 0 || s.slot.Idle?) && Owned(s) && Honest(s)
  }

  lemma SubmitKeeps<C, R>(s: State<C, R>, step: Step<C, R>)
    requires Inv(s) && Enabled(s, step) && (step.SubmitCheck? || step.SubmitLock? || step.SubmitEnqueue? || step.Stop?)
    ensures Inv(Next(s, step))
  {
    var u := Next(s, step);
    if !step.Stop? {
      assert forall t :: t != step.thread ==> At(u, t) == At(s, t);
    }
  }

  lemma WorkerKeeps<C, R>(s: State<C, R>, step: Step<C, R>)
    requires Inv(s) && Enabled(s, step) && !(step.SubmitCheck? || step.SubmitLock? || step.SubmitEnqueue? || step.Stop?)
    ensures Inv(Next(s, step))
  {
    var u := Next(s, step);
    assert forall t :: At(u, t) == At(s, t);
  }

  // ------------------------------------------------------------------- whole runs

  ghost predicate IsRun<C, R>(states: seq<State<C, R>>, steps: seq<Step<C, R>>) {
    && |states| == |steps| + 1 && states[0] == Start()
    && forall i :: 0 <= i < |steps| ==> Enabled(states[i], steps[i]) && states[i + 1] == Next(states[i], steps[i])
  }

  lemma {:induction false} RunKeeps<C, R>(states: seq<State<C, R>>, steps: seq<Step<C, R>>, n: nat)
    requires IsRun(states, steps) && n <= |steps|
    ensures Inv(states[n])
  {
    hide Next, Accounted, Owned, Honest;
    if n == 0 {
      StartKeeps<C, R>();
    } else {
      RunKeeps(states, steps, n - 1);
      var step := steps[n - 1];
      if step.SubmitCheck? || step.SubmitLock? || step.SubmitEnqueue? || step.Stop? {
        SubmitKeeps(states[n - 1], step);
      } else {
        WorkerKeeps(states[n - 1], step);
      }
    }
  }

  lemma StartKeeps<C, R>()
    ensures Inv(Start<C, R>())
  {}

  /** In every interleaving: the receipts collected so far, and the one still in the
      mailbox, answer the accepted commands one by one in order; each answer is what
      executing that command returned, or, only from a worker that has exited, its
      failure for a command it never executed; and once the worker has exited no
      accepted command is left without an answer. */
  lemma EveryCommandAnsweredOnce<C, R>(states: seq<State<C, R>>, steps: seq<Step<C, R>>, n: nat)
    requires IsRun(states, steps) && n <= |steps|
    ensures var s := states[n]; var answers := Answers(s);
      && |answers| <= |s.accepted| <= |answers| + 1
      && (forall i :: 0 <= i < |answers| ==> answers[i].sequence == i + 1 && Backed(s, i + 1, answers[i].result))
      && (s.worker.Exited? ==> |answers| == |s.accepted|)
  {
    RunKeeps(states, steps, n);
    var s := states[n];
    forall i | 0 <= i < |Answers(s)|
      ensures Answers(s)[i].sequence == i + 1 && Backed(s, i + 1, Answers(s)[i].result)
    {}
  }

  /** Nothing is collected twice, taken back, or changed after it was collected, and
      what was executed is never executed again. */
  lemma {:induction false} AnswersAreFinal<C, R>(states: seq<State<C, R>>, steps: seq<Step<C, R>>, m: nat, n: nat)
    requires IsRun(states, steps) && m <= n <= |steps|
    ensures states[m].collected <= states[n].collected && states[m].accepted <= states[n].accepted
    ensures forall k :: k in states[m].executed ==>
      k in states[n].executed && states[m].executed[k] == states[n].executed[k]
    ensures states[m].stopped ==> states[n].stopped
    decreases n - m
  {
    hide Next, Inv;
    if m < n {
      AnswersAreFinal(states, steps, m, n - 1);
      RunKeeps(states, steps, n - 1);
      StepExtends(states[n - 1], steps[n - 1]);
    }
  }

  lemma StepExtends<C, R>(s: State<C, R>, step: Step<C, R>)
    requires Inv(s) && Enabled(s, step)
    ensures var u := Next(s, step);
      && s.collected <= u.collected && s.accepted <= u.accepted && (s.stopped ==> u.stopped)
      && (forall k :: k in s.executed ==> k in u.executed && u.executed[k] == s.executed[k])
  {
    if step.WorkerExecutes? { assert s.worker.work.sequence == |s.accepted|; }
  }

  // ------------------------------------------------------------ a command completes

  /** A command given to a mailbox that is idle, unlocked and not stopped, with numbers
      left, is accepted. */
  lemma IdleAccepts<C, R>(s: State<C, R>, thread: nat, command: C) returns (t: State<C, R>)
    requires Inv(s) && s.slot.Idle? && s.lock.None? && !s.stopped && s.next < U64_MAX && At(s, thread).Outside?
    ensures Enabled(s, SubmitCheck(thread, command))
    ensures var a := Next(s, SubmitCheck(thread, command));
      && Enabled(a, SubmitLock(thread))
      && var b := Next(a, SubmitLock(thread));
         Enabled(b, SubmitEnqueue(thread, true)) && t == Next(b, SubmitEnqueue(thread, true))
    ensures Inv(t) && t.accepted == s.accepted + [command] && t.slot == Queued(Work(s.next, command))
    ensures t.lock.None? && t.worker == s.worker && t.collected == s.collected && t.executed == s.executed
  {
    var a := Next(s, SubmitCheck(thread, command));
    SubmitKeeps(s, SubmitCheck(thread, command));
    var b := Next(a, SubmitLock(thread));
    SubmitKeeps(a, SubmitLock(thread));
    t := Next(b, SubmitEnqueue(thread, true));
    SubmitKeeps(b, SubmitEnqueue(thread, true));
  }

  /** A command that waits for a serving worker is executed and its own result collected,
      under its own number; the mailbox is idle again. */
  lemma QueuedCompletes<C, R>(s: State<C, R>, result: R) returns (t: State<C, R>)
    requires Inv(s) && s.slot.Queued? && s.lock.None? && s.worker.Serving?
    ensures Enabled(s, ServiceSucceeds)
    ensures var a := Next(s, ServiceSucceeds);
      && Enabled(a, WorkerTakes)
      && var b := Next(a, WorkerTakes);
         && b.worker == Working(s.slot.work) && Enabled(b, WorkerExecutes(result, false))
         && var d := Next(b, WorkerExecutes(result, false));
            && Enabled(d, WorkerPublishes)
            && var e := Next(d, WorkerPublishes); Enabled(e, Collect) && t == Next(e, Collect)
    ensures Inv(t) && t.slot.Idle? && t.worker.Serving? && t.lock.None? && t.accepted == s.accepted
    ensures t.collected == s.collected + [Receipt(s.slot.work.sequence, result)]
    ensures t.executed == s.executed[s.slot.work.sequence := result]
  {
    var a := Next(s, ServiceSucceeds);
    WorkerKeeps(s, ServiceSucceeds);
    var b := Next(a, WorkerTakes);
    WorkerKeeps(a, WorkerTakes);
    var d := Next(b, WorkerExecutes(result, false));
    WorkerKeeps(b, WorkerExecutes(result, false));
    var e := Next(d, WorkerPublishes);
    WorkerKeeps(d, WorkerPublishes);
    t := Next(e, Collect);
    WorkerKeeps(e, Collect);
  }
}
