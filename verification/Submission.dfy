/** The final input boundary: one granted native owner, its held state, and one
    dispatched request at a time, against an arbitrary operating-system sink and
    arbitrary calls of other threads on the shared authority. */
module Submission {
  import opened Common
  import opened Input
  import opened Meaning
  import opened Authority
  import opened AuthorityProofs
  import opened Decisions
  import opened AuthorityOwner
  import opened Ledger

  datatype Refusal =
    | RefAuthority(error: AuthorityError)
    | RefSequence(sequenceError: SequenceError)
    | RefStaleSession | RefStaleLease | RefStaleView
    | RefEvent(fault: Fault)
    | RefRevoked
    | RefPlatform(platform: PlatformError)
    | RefUnknownEffect
    | RefExpiredAtBoundary

  datatype Receipt = Receipt(sequence: u64, outcome: InputOutcome, submitted: nat, refusal: Option<Refusal>)

  // ----------------------------------------------------- the world around a call

  /** What another thread does while this owner runs: a call on the shared
      authority, or the independent one-way revocation. */
  datatype Other = OtherCall(call: Call) | OtherRevoke

  datatype Preparation = Prepared | PreparationRefused(error: PlatformError) | PreparationUnwinds

  /** What the sink does before it asks for final authorisation. */
  datatype Preflight = Authorize(now: u64) | PreflightRefused(refusal: Refusal) | PreflightUnwinds

  /** One use of the sink: everything that is not decided by this owner. */
  datatype Cell = Cell(
    before: seq<Other>,
    preparation: Preparation,
    preflight: Preflight,
    between: seq<Other>,
    during: seq<Other>,
    result: NativeResult<Refusal>,
    afterwards: seq<Other>,
    cancelUnwinds: bool)

  /** A clock sample for a check outside the sink. */
  datatype Sample = Sample(before: seq<Other>, unwinds: bool, now: u64, between: seq<Other>)

  /** No other thread confirms the release of this owner's held input. */
  predicate Foreign(owner: nat, others: seq<Other>) {
    forall i :: 0 <= i < |others| && others[i].OtherCall? ==>
      !others[i].call.CConfirmSuspensionRelease? && (others[i].call.CConfirmAs? ==> others[i].call.owner != owner)
  }

  predicate ForeignCell(owner: nat, c: Cell) {
    Foreign(owner, c.before) && Foreign(owner, c.between) && Foreign(owner, c.during) && Foreign(owner, c.afterwards)
  }

  predicate ForeignSample(owner: nat, s: Sample) {
    Foreign(owner, s.before) && Foreign(owner, s.between)
  }

  /** The sink's behaviour over a whole attempt, one cell per native operation. */
  type Tape = nat -> Cell

  ghost predicate ForeignTape(owner: nat, tape: Tape) {
    forall i: nat :: ForeignCell(owner, tape(i))
  }

  /** How a step of the attempt ended; `Unwound` is a panic passing through it. */
  datatype Flow = Done | Stopped(refusal: Refusal) | Unwound

  /** What a native call that was entered means for the attempt. */
  function Classify(result: NativeResult<Refusal>): (r: Flow) {
    match result
    case Submitted => Done
    case NotSubmitted(e) => Stopped(RefPlatform(e))
    case Unknown => Stopped(RefUnknownEffect)
    case Expired => Stopped(RefExpiredAtBoundary)
    case Fenced => Stopped(RefRevoked)
    case Withdrawn(e) => Stopped(e)
    case Unwinds => Unwound
  }

  /** The classification of one use of the sink. */
  function Verdict(c: Cell, checked: Result<u64, Refusal>): (r: Flow) {
    match c.preparation
    case PreparationUnwinds => Unwound
    case PreparationRefused(e) => if c.cancelUnwinds then Unwound else Stopped(RefPlatform(e))
    case Prepared =>
      match c.preflight
      case PreflightUnwinds => Unwound
      case PreflightRefused(e) => if c.cancelUnwinds then Unwound else Stopped(e)
      case Authorize(_) =>
        if c.cancelUnwinds then Unwound
        else if checked.Err? then Stopped(checked.error)
        else Classify(c.result)
  }

  /** Every way a native call may end reaches the answer as itself, unless the sink panics
      while it cancels. */
  lemma EndingsAreTold(c: Cell, at: u64)
    requires c.preparation.Prepared? && c.preflight.Authorize?
    ensures var r := Verdict(c, Ok(at));
      && (r == Unwound <==> c.cancelUnwinds || c.result.Unwinds?)
      && (r == Done <==> !c.cancelUnwinds && c.result == Submitted)
      && (!c.cancelUnwinds ==>
         && (c.result == Unknown ==> r == Stopped(RefUnknownEffect))
         && (c.result == Expired ==> r == Stopped(RefExpiredAtBoundary))
         && (c.result == NativeResult.Fenced ==> r == Stopped(RefRevoked))
         && (c.result.NotSubmitted? ==> r == Stopped(RefPlatform(c.result.error)))
         && (c.result.Withdrawn? ==> r == Stopped(c.result.refusal)))
  {}

  /** The sink itself refused with `e`, or let a panic through. */
  predicate Said(c: Cell, e: Refusal) {
    || (c.preparation.PreparationRefused? && e == RefPlatform(c.preparation.error))
    || c.preflight == PreflightRefused(e)
    || Classify(c.result) == Stopped(e)
  }

  predicate Unwinding(c: Cell) {
    c.preparation.PreparationUnwinds? || c.preflight.PreflightUnwinds? || c.result.Unwinds? || c.cancelUnwinds
  }

  /** The sink carries one operation out. */
  predicate Confirms(c: Cell) { c.preparation.Prepared? && c.preflight.Authorize? && c.result.Submitted? }

  /** The sink carries out the first `n` operations, and lets no panic through before
      the last of them is confirmed. */
  ghost predicate Smooth(tape: Tape, n: nat) {
    n == 0 || (Smooth(tape, n - 1) && Confirms(tape(n - 1)) && (n > 1 ==> !tape(n - 2).cancelUnwinds))
  }

  /** Nobody else acts during one use of the sink, and its check is made at `now`. */
  predicate Calm(c: Cell, now: u64) {
    && c.before == [] && c.between == [] && c.during == [] && c.afterwards == []
    && (c.preflight.Authorize? ==> c.preflight.now == now)
  }

  ghost predicate CalmTape(tape: Tape, now: u64) {
    forall i: nat :: Calm(tape(i), now)
  }

  /** Nobody else acts during a whole request, and every check is made at one time. */
  ghost predicate Undisturbed(start: Sample, tape: Tape, others: seq<Other>) {
    start.before == [] && start.between == [] && !start.unwinds && others == [] && CalmTape(tape, start.now)
  }

  /** How many of `n` operations were confirmed, and how that went: only a smooth
      prefix ever is; in a calm world, all of the longest one. A panic follows a
      complete plan exactly if the sink panics while it cancels after the last one. */
  ghost predicate Traced(k: nat, n: nat, flow: Flow, tape: Tape, calm: bool) {
    && k <= n && Smooth(tape, k)
    && (k == n > 0 ==> (flow.Unwound? <==> tape(n - 1).cancelUnwinds))
    && (calm ==> (k < n ==> !Smooth(tape, k + 1)) && (n == 0 ==> flow.Done?))
  }

  /** Entries of the ghost record of native calls: those made for a request or a
      reconciliation, with the run of authority calls their final check was made
      in, and releases made by local cleanup. */
  datatype Native =
    | Checked(op: Operation, calls: seq<Call>, at: u64, ticket: u64, revoked: bool)
    | Reconciled(op: Operation, calls: seq<Call>, at: u64, revoked: bool)
    | Cleanup(op: Operation)

  /** The operations of a record, in order. */
  function OpsOf(log: seq<Native>): (ops: seq<Operation>) {
    seq(|log|, i requires 0 <= i < |log| => log[i].op)
  }

  /** Relative motion adds up; other operations do not move the relative origin. */
  function Shift(p: Position, op: Operation): (r: Position) {
    if op.OpRelative? then Position(p.x + op.x, p.y + op.y) else p
  }

  /** Mode, epoch and relative position once an event is complete. */
  function PointerAfter(v: HostView, e: Event): (r: (PointerMode, u64, Position)) {
    match e
    case Mode(mode, epoch) => (mode, epoch, Position(0, 0))
    case Relative(_, x, y) => (v.mode, v.modeEpoch, Position(x, y))
    case _ => (v.mode, v.modeEpoch, v.cumulative)
  }

  /** A completed mode change is in force and starts relative motion anew; completed
      relative motion is where it was to be; nothing else changes either. */
  lemma PointerExactly(v: HostView, e: Event)
    ensures var (mode, epoch, at) := PointerAfter(v, e);
      && (e.Mode? ==> mode == e.mode && epoch == e.epoch && at == Position(0, 0))
      && (!e.Mode? ==> mode == v.mode && epoch == v.modeEpoch)
      && (e.Relative? ==> at == Position(e.x, e.y))
      && (!e.Mode? && !e.Relative? ==> at == v.cumulative)
  {}

  /** The pointer floor raised to a barrier. */
  function Raised(floor: Option<u64>, barrier: u64): (r: Option<u64>) {
    Some(if floor.Some? then Max(floor.value, barrier) else barrier)
  }

  predicate HasBarrier(e: Event) { e.Button? || e.Scroll? }

  /** The refusal an attempt that ended in `flow` is answered with. */
  function RefusalOf(flow: Flow, uncertain: bool): (r: Option<Refusal>) {
    match flow
    case Done => None
    case Stopped(e) => Some(e)
    case Unwound => Some(if uncertain then RefUnknownEffect else RefRevoked)
  }

  function OutcomeOf(refusal: Option<Refusal>, submitted: nat, uncertain: bool): (r: InputOutcome) {
    if uncertain then EffectUnknown
    else if refusal.None? then (if submitted == 0 then AppliedLocally else SubmittedToOs)
    else if submitted > 0 then PartiallySubmittedToOs
    else if refusal.value == RefExpiredAtBoundary
         || refusal.value in {RefAuthority(TicketExpired), RefAuthority(LeaseExpired), RefAuthority(ObservationExpired)}
    then ExpiredBeforeSubmission
    else if refusal.value == RefRevoked then CancelledBeforeSubmission
    else RejectedBeforeSubmission
  }

  function ReceiptOf(sequence: u64, flow: Flow, submitted: nat, uncertain: bool): (r: Receipt) {
    var refusal := RefusalOf(flow, uncertain);
    Receipt(sequence, OutcomeOf(refusal, submitted, uncertain), submitted, refusal)
  }

  /** What a dispatched request did: nothing ran, or the confirmed prefix of its
      plan, whether one more operation may have happened, and how it ended. */
  datatype Outcome = NotRun | Ran(confirmed: seq<Operation>, uncertain: bool, flow: Flow)

  datatype Dispatched =
    | Returned(receipt: Receipt)
    | ConsumedUnanswered
    | ObsoletePointer
    | NotAdmitted(refusal: Refusal)
    | Panicked

  /** The release of something held. */
  function ReleaseOf(h: Held): (op: Operation)
    requires h.HeldKey? ==> IsKey(h.usage)
    requires h.HeldButton? ==> 0 <= h.button < BUTTONS
    ensures IsRelease(op) && Subject(op) == Some(h)
  {
    match h
    case HeldKey(u) => OpKey(u, Release)
    case HeldButton(b) => OpButton(b, false)
    case HeldWheel(d) => OpWheel(d, false)
  }

  /** What the sink does with the release of each held key, button or wheel step. */
  type Sweep = Held -> Cell

  ghost predicate ForeignSweep(owner: nat, sweep: Sweep) {
    forall h :: ForeignCell(owner, sweep(h))
  }

  /** Nobody else acts during a sweep. */
  ghost predicate SilentSweep(sweep: Sweep) {
    forall h :: sweep(h).before == [] && sweep(h).during == []
  }

  /** No release of something held lets a panic through. */
  ghost predicate SteadySweep(m: Mirror, sweep: Sweep)
    requires m.Shaped()
  {
    forall h :: m.Holds(h) ==> !Unwinding(sweep(h))
  }

  /** The system releases everything that is held. */
  ghost predicate ClearingSweep(m: Mirror, sweep: Sweep)
    requires m.Shaped()
  {
    SteadySweep(m, sweep) && forall h :: m.Holds(h) ==> Releases(sweep(h))
  }

  /** A suspension still waits for its release to be confirmed. */
  predicate Unconfirmed(s: Auth) { s.suspension.Some? && !s.suspension.value.released }

  predicate Releases(c: Cell) { c.preparation.Prepared? && c.result.Submitted? }

  /** What is still held after one sweep: exactly what the system did not confirm. */
  function Unreleased(m: Mirror, sweep: Sweep): (r: Mirror)
    requires m.Shaped()
    ensures r.Shaped()
  {
    Mirror(
      seq(KEYS, u requires 0 <= u < KEYS => m.keys[u] && !Releases(sweep(HeldKey(u)))),
      seq(BUTTONS, b requires 0 <= b < BUTTONS => m.buttons[b] && !Releases(sweep(HeldButton(b)))),
      if m.wheel.Some? && Releases(sweep(HeldWheel(m.wheel.value))) then None else m.wheel)
  }

  /** Something is still held exactly if it was held and the system did not release it. */
  lemma UnreleasedExactly(m: Mirror, sweep: Sweep, h: Held)
    requires m.Shaped()
    ensures Unreleased(m, sweep).Holds(h) <==>
      m.Holds(h) && !(sweep(h).preparation.Prepared? && sweep(h).result.Submitted?)
  {}

  datatype Cleaned = Cleaned(submitted: nat, remaining: nat) | CleanupUnwound

  /** Only releases were added to the record. */
  ghost predicate OnlyReleases(before: seq<Native>, now: seq<Native>) {
    before <= now && forall i :: |before| <= i < |now| ==> now[i].Cleanup? && IsRelease(now[i].op)
  }

  lemma OnlyReleasesNothing(log: seq<Native>)
    ensures OnlyReleases(log, log)
  {}

  lemma OnlyReleasesOnward(before: seq<Native>, between: seq<Native>, now: seq<Native>)
    requires OnlyReleases(before, between) && OnlyReleases(between, now)
    ensures OnlyReleases(before, now)
  {}

  lemma SilentAt(sweep: Sweep, h: Held)
    ensures SilentSweep(sweep) ==> sweep(h).before == [] && sweep(h).during == []
  {}

  // ------------------------------------------------------------- reconciliation

  datatype ReconciliationOutcome = Applied | Ignored | Declined | Interrupted | ReleaseUnknown
  datatype Reconciliation = Reconciliation(
    sequence: u64,
    outcome: ReconciliationOutcome,
    submitted: nat,
    remaining: nat,
    refusal: Option<Refusal>)

  /** The viewer's own held keys and buttons, and its next action number. */
  datatype HeldRequest = HeldRequest(session: u64, lease: u64, sequence: u64, nextAction: u64, held: set<Held>)

  datatype ReconcileReply = Reported(report: Reconciliation) | SnapshotGap(refusal: Refusal) | ReconcileUnwound

  /** One release and the clock sample of its check. */
  type ReconcileTape = nat -> (Cell, Sample)

  ghost predicate ForeignReconcile(owner: nat, tape: ReconcileTape) {
    forall i: nat :: ForeignCell(owner, tape(i).0) && ForeignSample(owner, tape(i).1)
  }

  /** Nobody else acts during a reconciliation, every look is at one time, and the system
      carries out each of the first `n` releases. */
  ghost predicate CalmReconcile(start: Sample, tape: ReconcileTape, n: nat) {
    && start.before == [] && start.between == [] && !start.unwinds
    && forall i: nat :: i < n ==> CalmRelease(tape(i).0, tape(i).1, start.now)
  }

  predicate CalmRelease(c: Cell, s: Sample, now: u64) {
    && c.before == [] && c.during == [] && Releases(c) && !c.cancelUnwinds
    && s.before == [] && s.between == [] && !s.unwinds && s.now == now
  }

  /** Held here but not at the viewer: each released once, keys before buttons. */
  function MissingKeys(m: Mirror, held: set<Held>, n: nat): (ops: seq<Operation>)
    requires m.Shaped() && n <= KEYS
    ensures forall op :: op in ops <==>
      op.OpKey? && op.transition == Release && op.key < n && m.keys[op.key] && HeldKey(op.key) !in held
    ensures forall i, j :: 0 <= i < j < |ops| ==> ops[i] != ops[j]
  {
    if n == 0 then []
    else if m.keys[n - 1] && HeldKey(n - 1) !in held then
      assert IsKey(n - 1);
      MissingKeys(m, held, n - 1) + [OpKey(n - 1, Release)]
    else MissingKeys(m, held, n - 1)
  }

  function MissingButtons(m: Mirror, held: set<Held>, n: nat): (ops: seq<Operation>)
    requires m.Shaped() && n <= BUTTONS
    ensures forall op :: op in ops <==>
      op.OpButton? && !op.pressed && op.button < n && m.buttons[op.button] && HeldButton(op.button) !in held
    ensures forall i, j :: 0 <= i < j < |ops| ==> ops[i] != ops[j]
  {
    if n == 0 then []
    else MissingButtons(m, held, n - 1)
         + if m.buttons[n - 1] && HeldButton(n - 1) !in held then [OpButton(n - 1, false)] else []
  }

  function MissingReleases(m: Mirror, held: set<Held>): (r: seq<Operation>)
    requires m.Shaped()
  {
    MissingKeys(m, held, KEYS) + MissingButtons(m, held, BUTTONS)
  }

  /** A list of key and button releases clears exactly what it names. */
  lemma {:induction false} ReleasesClear(m: Mirror, ops: seq<Operation>)
    requires m.Shaped() && forall op :: op in ops ==> IsRelease(op) && !op.OpWheel?
    ensures var r := ConfirmAll(m, ops);
      && r.wheel == m.wheel
      && (forall u | IsKey(u) :: r.keys[u] <==> m.keys[u] && OpKey(u, Release) !in ops)
      && (forall b | 0 <= b < BUTTONS :: r.buttons[b] <==> m.buttons[b] && OpButton(b, false) !in ops)
  {
    if ops != [] {
      var n := |ops| - 1;
      ReleasesClear(m, ops[..n]);
      assert ops[n] in ops;
      var q, r := ConfirmAll(m, ops[..n]), ConfirmAll(m, ops);
      assert r == Confirm(q, ops[n]);
      forall u | IsKey(u) ensures r.keys[u] <==> m.keys[u] && OpKey(u, Release) !in ops {
        assert OpKey(u, Release) in ops <==> OpKey(u, Release) in ops[..n] || OpKey(u, Release) == ops[n];
      }
      forall b | 0 <= b < BUTTONS ensures r.buttons[b] <==> m.buttons[b] && OpButton(b, false) !in ops {
        assert OpButton(b, false) in ops <==> OpButton(b, false) in ops[..n] || OpButton(b, false) == ops[n];
      }
    }
  }

  /** Once every missing release is confirmed, both sides hold the same. */
  lemma MissingReleasesReconcile(m: Mirror, held: set<Held>)
    requires m.Shaped()
    ensures ConfirmAll(m, MissingReleases(m, held)) == Shared(m, held)
  {
    var ops := MissingReleases(m, held);
    ReleasesClear(m, ops);
    forall u | 0 <= u < KEYS
      ensures ConfirmAll(m, ops).keys[u] == Shared(m, held).keys[u]
    {
      if IsKey(u) { assert OpKey(u, Release) in ops <==> m.keys[u] && HeldKey(u) !in held; }
    }
    forall b | 0 <= b < BUTTONS
      ensures ConfirmAll(m, ops).buttons[b] == Shared(m, held).buttons[b]
    {
      assert OpButton(b, false) in ops <==> m.buttons[b] && HeldButton(b) !in held;
    }
  }

  /** Until its turn comes, a listed release is still held and names no wheel. */
  lemma StillHeld(m: Mirror, held: set<Held>, i: nat)
    requires m.Shaped() && i < |MissingReleases(m, held)|
    ensures var op := MissingReleases(m, held)[i];
      IsRelease(op) && !op.OpWheel? && Subject(op).Some?
        && ConfirmAll(m, MissingReleases(m, held)[..i]).Holds(Subject(op).value)
      && ReleaseOf(Subject(op).value) == op
  {
    hide ConfirmAll;
    var ops := MissingReleases(m, held);
    assert ops[i] in ops;
    assert forall op :: op in ops[..i] ==> op in ops;
    ReleasesClear(m, ops[..i]);
    assert ops[i] !in ops[..i];
  }

  /** Executed pointer samples and the barriers of executed buttons and scrolls. */
  datatype Mark = PointerMark(n: u64) | BarrierMark(n: u64)

  /** A pointer sample is newer than everything before it, and the floor than everything. */
  ghost predicate InOrder(marks: seq<Mark>, floor: Option<u64>) {
    && (forall i, j :: 0 <= i < j < |marks| && marks[j].PointerMark? ==> marks[i].n < marks[j].n)
    && (forall i :: 0 <= i < |marks| ==> floor.Some? && marks[i].n <= floor.value)
  }

  lemma MarkGrows(marks: seq<Mark>, floor: Option<u64>, more: seq<Mark>)
    requires InOrder(marks, floor) && |more| <= 1
    requires more != [] ==> floor.Some? && more[0].n <= floor.value
    requires more != [] && more[0].PointerMark? ==> forall i :: 0 <= i < |marks| ==> marks[i].n < more[0].n
    ensures InOrder(marks + more, floor)
  {
    var all := marks + more;
    forall i | 0 <= i < |all| ensures floor.Some? && all[i].n <= floor.value {
      if i < |marks| { assert all[i] == marks[i]; } else { assert all[i] == more[0]; }
    }
    forall i, j | 0 <= i < j < |all| && all[j].PointerMark? ensures all[i].n < all[j].n {
      assert all[i] == marks[i];
      if j < |marks| { assert all[j] == marks[j]; } else { assert all[j] == more[0]; }
    }
  }

  class InputSession {
    const authority: SessionAuthority
    const owner: nat
    const session: u64
    const lease: u64
    const bounds: InputBounds
    const capabilities: Capabilities
    const ledger: InputSequenceLedger
    const receipts: array<Option<Receipt>>
    const keys: array<bool>
    const buttons: array<bool>
    var cursor: nat
    var revoked: bool
    var view: InputView
    var wheel: Option<WheelDirection>
    var pointerFloor: Option<u64>
    var mode: PointerMode
    var modeEpoch: u64
    var cumulative: Position
    var clock: u64
    var reconciliationFloor: Option<u64>
    var reconciliation: Option<Reconciliation>

    /** Every call made on the authority so far, by anyone. */
    ghost var calls: seq<Call>
    /** Pressed through this owner and not confirmed released at the system. */
    ghost var down: set<Held>
    ghost var log: seq<Native>
    /** What was down at each moment a suspension of this lease ended. */
    ghost var resumed: seq<set<Held>>
    /** Every answer to a reliable action, in sequence order. */
    ghost var answered: seq<Receipt>
    ghost var marks: seq<Mark>
    /** The sum of the relative motion confirmed since the last mode change. */
    ghost var moved: Position

    function Mirrored(): (r: Mirror)
      reads this`wheel, keys, buttons
    {
      Mirror(keys[..], buttons[..], wheel)
    }

    ghost predicate Shape()
      reads this`wheel, keys, buttons
    {
      keys != buttons && keys.Length == KEYS && buttons.Length == BUTTONS && Mirrored().Shaped()
    }

    /** What this owner's grant covers: the granted kinds of input, inside its bounds. */
    predicate Permits(op: Operation) {
      match op
      case OpKey(_, t) => CapKeys in capabilities && (t == Repeat ==> CapRepeat in capabilities)
      case OpAbsolute(p) =>
        && CapAbsolute in capabilities
        && bounds.origin.x <= p.x < bounds.origin.x + bounds.width
        && bounds.origin.y <= p.y < bounds.origin.y + bounds.height
      case OpButton(_, _) => CapButtons in capabilities
      case OpRelative(_, _) => CapRelative in capabilities
      case OpScroll(_, _, unit) => (if unit == Pixels then CapPixelScroll else CapLineScroll) in capabilities
      case OpWheel(_, _) => CapLineScroll in capabilities
      case OpText(_) => CapText in capabilities
    }

    /** The final check: accepted by the authority this owner holds, in the run it was
        made in, and not revoked. */
    ghost predicate Accepted(calls: seq<Call>, at: u64, ticket: u64, wasRevoked: bool) {
      && !wasRevoked && ApplyAll(New(authority.policy), calls).nativeOwner == Some(owner)
      && SubmissionDeadline(ApplyAll(New(authority.policy), calls), lease, ticket, at).1.Ok?
    }

    /** Final authorisation of a native call. */
    ghost predicate Authorized(e: Native) {
      match e
      case Checked(op, calls, at, ticket, wasRevoked) => Permits(op) && Accepted(calls, at, ticket, wasRevoked)
      case Reconciled(op, calls, at, wasRevoked) =>
        && !wasRevoked && IsRelease(op) && ApplyAll(New(authority.policy), calls).nativeOwner == Some(owner)
        && HasLiveControl(ApplyAll(New(authority.policy), calls), at).1
      case Cleanup(op) => IsRelease(op)
    }

    /** Every final check is part of the one run of calls on the authority. */
    ghost predicate Recorded()
      reads this`log, this`calls
    {
      forall i :: 0 <= i < |log| && !log[i].Cleanup? ==> log[i].calls <= calls
    }

    /** The authority has been called once more. */
    ghost method Append(c: Call)
      modifies this`calls
      ensures calls == old(calls) + [c] && (old(Recorded()) ==> Recorded())
    {
      calls := calls + [c];
    }

    ghost method Note(e: Native)
      requires e.Cleanup? || e.calls <= calls
      modifies this`log
      ensures log == old(log) + [e] && (old(Recorded()) ==> Recorded())
    {
      log := log + [e];
    }

    /** Everything added to the record since `before` was finally checked under this
        ticket, in a run of calls that goes on from `was`. */
    ghost predicate Stamped(before: seq<Native>, was: seq<Call>, ticket: u64)
      reads this`log, this`calls
    {
      && was <= calls
      && (forall i :: |before| <= i < |log| ==> log[i].Checked? && log[i].ticket == ticket && was <= log[i].calls)
    }

    /** What holds at every instant, also in the middle of a dispatch. */
    ghost predicate Safe()
      reads this`wheel, this`calls, this`down, this`log, this`resumed, keys, buttons, authority
    {
      && Shape()
      && authority.State() == ApplyAll(New(authority.policy), calls)
      && owner < authority.owners
      && Covers(Mirrored(), down)
      && (ConfirmedFor(authority.State(), owner) ==> down == {})
      && (forall i :: 0 <= i < |resumed| ==> resumed[i] == {})
      && (forall i :: 0 <= i < |log| ==> Authorized(log[i])) && Recorded()
    }

    /** The session's own ring answers with the receipt of every outcome the ledger
        still retains: both rings hold the same window of the same history. */
    ghost predicate Rings()
      reads this`cursor, this`answered, receipts, ledger, ledger.receipts
    {
      && ledger.Valid() && ledger.capacity == MAX_RETAINED_RECEIPTS == receipts.Length && ledger.lease == lease
      && |answered| == |ledger.history| && cursor == Slot(|answered|, MAX_RETAINED_RECEIPTS)
      && (forall k :: 0 <= k < |answered| ==> answered[k].sequence == k && answered[k].outcome == ledger.history[k])
      && (forall i :: 0 <= i < MAX_RETAINED_RECEIPTS ==>
           var k := Latest(|answered|, MAX_RETAINED_RECEIPTS, i);
           receipts[i] == if k.Some? then Some(answered[k.value]) else None)
    }

    ghost predicate Marked()
      reads this`marks, this`pointerFloor
    {
      InOrder(marks, pointerFloor)
    }

    /** The floor is no higher than some pointer sample or barrier that was executed. */
    ghost predicate FloorMarked()
      reads this`marks, this`pointerFloor
    {
      pointerFloor.Some? ==> exists i :: 0 <= i < |marks| && marks[i].n == pointerFloor.value
    }

    /** What holds between requests. */
    ghost predicate Valid()
      reads this, keys, buttons, authority, ledger, receipts, ledger.receipts
    {
      && Safe() && Rings() && ledger.pending.None? && Marked()
      && (!ledger.fenced ==> wheel.None? && moved == cumulative && FloorMarked())
    }

    /** A claimed owner of a granted lease: nothing held, nothing submitted yet. */
    constructor (authority: SessionAuthority, owner: nat, credentials: Credentials, bounds: InputBounds,
                 capabilities: Capabilities, now: u64, ghost calls: seq<Call>)
      requires authority.State() == ApplyAll(New(authority.policy), calls)
      requires owner < authority.owners && !ConfirmedFor(authority.State(), owner)
      ensures Valid() && fresh(keys) && fresh(buttons) && fresh(receipts) && fresh(ledger) && fresh(ledger.receipts)
      ensures Mirrored() == NOTHING_HELD && down == {} && log == [] && resumed == [] && answered == [] && !revoked
      ensures this.authority == authority && this.owner == owner && this.calls == calls
        && this.lease == credentials.lease
      ensures this.session == credentials.session && this.bounds == bounds && this.capabilities == capabilities
      ensures view == credentials.view && clock == now && !ledger.fenced && marks == [] && pointerFloor.None?
      ensures (mode, modeEpoch, cumulative) == (AbsoluteMode, 0, Position(0, 0)) && reconciliationFloor.None?
    {
      this.authority, this.owner, this.session, this.lease := authority, owner, credentials.session, credentials.lease;
      this.bounds, this.capabilities, view := bounds, capabilities, credentials.view;
      ledger := new InputSequenceLedger(credentials.lease, MAX_RETAINED_RECEIPTS);
      receipts := new Option<Receipt>[MAX_RETAINED_RECEIPTS](_ => None);
      keys := new bool[KEYS](_ => false);
      buttons := new bool[BUTTONS](_ => false);
      cursor, revoked, wheel, pointerFloor := 0, false, None, None;
      mode, modeEpoch, cumulative, clock := AbsoluteMode, 0, Position(0, 0), now;
      this.calls, down, log, resumed, moved := calls, {}, [], [], Position(0, 0);
      answered, marks := [], [];
      reconciliationFloor, reconciliation := None, None;
      new;
      FreshMirror();
      FreshRings();
    }

    /** New rings are empty. */
    lemma FreshRings()
      requires ledger.Valid() && ledger.Model() == History([], false, false) && ledger.lease == lease
      requires ledger.capacity == MAX_RETAINED_RECEIPTS == receipts.Length && answered == [] && cursor == 0
      requires forall i :: 0 <= i < receipts.Length ==> receipts[i].None?
      ensures Rings() && ledger.pending.None? && !ledger.fenced
    {
      assert Slot(0, MAX_RETAINED_RECEIPTS) == 0;
      assert forall i :: 0 <= i < MAX_RETAINED_RECEIPTS ==> Latest(0, MAX_RETAINED_RECEIPTS, i).None?;
    }

    lemma FreshMirror()
      requires keys.Length == KEYS && buttons.Length == BUTTONS && wheel.None?
      requires (forall i :: 0 <= i < KEYS ==> !keys[i]) && forall i :: 0 <= i < BUTTONS ==> !buttons[i]
      ensures Mirrored() == NOTHING_HELD
    {
      assert keys[..] == NOTHING_HELD.keys && buttons[..] == NOTHING_HELD.buttons;
    }

    /** The confirmed operations are a prefix of `plan`, at most one further
        operation of it may have happened, the mirror follows them from `m`, and
        exactly those operations were added to the record `before` of native calls. */
    ghost predicate Followed(plan: seq<Operation>, m: Mirror, before: seq<Native>, confirmed: seq<Operation>,
                             uncertain: bool)
      requires m.Shaped()
      reads this`wheel, this`log, keys, buttons
    {
      && |confirmed| <= |plan| && confirmed == plan[..|confirmed|]
      && (uncertain ==> |confirmed| < |plan|)
      && Mirrored() == (if uncertain then Assume(ConfirmAll(m, confirmed), plan[|confirmed|])
         else ConfirmAll(m, confirmed))
      && before <= log && |log| == |before| + |confirmed| + (if uncertain then 1 else 0)
      && (forall i :: 0 <= i < |log| - |before| ==> log[|before| + i].op == plan[i])
    }

    lemma FollowedPrefix(plan: seq<Operation>, m: Mirror, before: seq<Native>, confirmed: seq<Operation>,
                         uncertain: bool)
      requires m.Shaped() && Followed(plan, m, before, confirmed, uncertain)
      ensures |confirmed| <= |plan| && confirmed == plan[..|confirmed|] && (uncertain ==> |confirmed| < |plan|)
      ensures confirmed == [] && !uncertain ==> log == before
      ensures |confirmed| == |plan| ==> confirmed == plan
    {
      hide ConfirmAll;
    }

    /** What was added to the record is what the event is for, or the beginning of it. */
    lemma FollowedMeans(v: HostView, e: Event, backend: Backend, m: Mirror, before: seq<Native>, o: Outcome)
      requires v.held.Shaped() && m.Shaped() && Truthful(o, Plan(e, v.cumulative, backend))
      requires Followed(Plan(e, v.cumulative, backend), m, before, o.confirmed, o.uncertain)
      requires EventFault(v, e, backend).Some? ==> !o.flow.Done? && o.confirmed == [] && !o.uncertain
      ensures |before| <= |log|
      ensures Meant(e, OpsOf(log[|before|..]), v.cumulative, backend, o.flow.Done?)
    {
      hide ConfirmAll, Plan, EventFault, Meant;
      var plan := Plan(e, v.cumulative, backend);
      var k := |log| - |before|;
      assert OpsOf(log[|before|..]) == plan[..k];
      PlanIsMeant(v, e, backend, k, o.flow.Done?);
    }

    lemma HasShape()
      requires Safe()
      ensures Shape() && Mirrored().Shaped()
    {
      hide Authorized, Recorded, Covers, ConfirmedFor, ApplyAll;
    }

    lemma FollowedNothing(plan: seq<Operation>)
      requires Safe()
      ensures Mirrored().Shaped() && Followed(plan, Mirrored(), log, [], false)
    {
      hide Authorized, Recorded, Covers, ConfirmedFor, ApplyAll;
    }

    lemma FollowedAll(plan: seq<Operation>, m: Mirror, before: seq<Native>)
      requires m.Shaped() && Followed(plan, m, before, plan[..|plan|], false)
      ensures Mirrored() == ConfirmAll(m, plan)
    {
      assert plan[..|plan|] == plan;
    }

    /** Another thread acts. */
    method Interfere(others: seq<Other>)
      requires Safe() && Foreign(owner, others)
      modifies authority, this`revoked, this`calls, this`resumed
      ensures Safe() && old(calls) <= calls
      ensures old(revoked) ==> revoked
      ensures ConfirmedFor(authority.State(), owner) ==> ConfirmedFor(old(authority.State()), owner)
      ensures others == [] ==> unchanged(authority) && revoked == old(revoked)
    {
      hide Apply, Inv, Authorized, Recorded, Covers, ApplyAll, Released;
      var i := 0;
      while i < |others|
        invariant 0 <= i <= |others| && Safe() && old(calls) <= calls
        invariant old(revoked) ==> revoked
        invariant i == 0 ==> unchanged(authority) && revoked == old(revoked)
        invariant ConfirmedFor(authority.State(), owner) ==> ConfirmedFor(old(authority.State()), owner)
      {
        match others[i] {
          case OtherRevoke => revoked := true;
          case OtherCall(c) =>
            ghost var s := authority.State();
            ReachableInv(authority.policy, calls);
            AuthorityProofs.OtherCall(s, c, owner);
            ApplyAllAppend(New(authority.policy), calls, c);
            authority.Perform(c);
            Append(c);
            if Resumed(s, authority.State()) && s.nativeOwner == Some(owner) {
              resumed := resumed + [down];
            }
        }
        i := i + 1;
      }
    }

    /** The view with the newest reference-recovery generation. */
    function NewestView(): (r: InputView)
      reads this`view, authority
    {
      view.(recovery := if authority.recovery.Some? then Max(view.recovery, authority.recovery.value)
        else view.recovery)
    }

    /** Adopt the newest reference-recovery generation the media owner installed. */
    method FollowRecovery()
      modifies this`view
      ensures view == old(NewestView()) == NewestView()
      ensures view == old(view).(recovery := view.recovery) && old(view).recovery <= view.recovery
      ensures authority.recovery.Some? ==> authority.recovery.value <= view.recovery
      ensures view.recovery == old(view).recovery || authority.recovery == Some(view.recovery)
    {
      if authority.recovery.Some? && authority.recovery.value > view.recovery {
        view := view.(recovery := authority.recovery.value);
      }
    }

    /** What this owner decides an event on, besides authority. */
    function Facts(): (r: HostView)
      reads this`wheel, this`mode, this`modeEpoch, this`cumulative, keys, buttons
    {
      HostView(capabilities, bounds, mode, modeEpoch, cumulative, Mirrored())
    }

    predicate Active()
      reads this`revoked, ledger`fenced
    {
      !revoked && !ledger.fenced
    }

    /** A check of these credentials at `now` passes, unless somebody else acts first. */
    ghost predicate Usable(credentials: Credentials, now: u64)
      reads this`revoked, this`view, this`clock, ledger`fenced, authority
    {
      && Active() && clock <= now && Installed() && credentials.view == NewestView()
      && var s := authority.State();
         SubmissionDeadline(s, lease, credentials.ticket, SerializedTime(s, now)).1.Ok?
    }

    /** Why this owner may refuse a request besides its event and the sink. */
    predicate Refuses(credentials: Credentials, e: Refusal)
      reads this`revoked, this`view, ledger`fenced
    {
      (e == RefRevoked && !Active()) || (e == RefStaleView && credentials.view != view) || e.RefAuthority?
    }

    /** Invalidate every ticket of this lease, if it is still this owner's. */
    method RetireTickets(others: seq<Other>) returns (r: Result<(), Refusal>)
      requires Safe() && Foreign(owner, others)
      modifies authority, this`revoked, this`calls, this`resumed
      ensures Safe() && (r.Ok? ==> NoTickets(authority.State()))
        && (r.Err? ==> r.error.RefAuthority? || (r.error == RefRevoked && revoked))
      ensures old(calls) <= calls
      ensures others == [] && old(!revoked && Installed()) ==> r.Ok?
    {
      hide Apply, Inv, ApplyAll, Released, Authorized, Recorded, Covers, InvalidateTickets;
      Interfere(others);
      if revoked { return Err(RefRevoked); }
      if !Installed() {
        return Err(RefAuthority(AuthorityError.StaleLease));
      }
      ghost var c := CInvalidateTickets(lease);
      InvalidateIsCall(authority.State(), lease);
      ReachableInv(authority.policy, calls);
      AuthorityProofs.OtherCall(authority.State(), c, owner);
      ApplyAllAppend(New(authority.policy), calls, c);
      var reply := authority.InvalidateTickets(lease);
      Append(c);
      r := match reply case Ok(_) => Ok(()) case Err(e) => Err(RefAuthority(e));
    }

    /** Stop new work, and say so to every holder of the revocation flag. */
    method Revoke()
      requires Rings()
      modifies this`revoked, ledger`fenced
      ensures revoked && Rings() && ledger.fenced
    {
      revoked := true;
      ledger.Fence();
    }

    /** Record the one answer to the pending action. */
    method RecordReceipt(receipt: Receipt)
      requires Rings() && ledger.pending == Some(receipt.sequence)
      modifies this`cursor, this`answered, this`revoked, receipts, ledger, ledger.receipts
      ensures Rings() && ledger.pending.None? && answered == old(answered) + [receipt]
      ensures Succeeded(receipt.outcome) ==> ledger.fenced == old(ledger.fenced) && revoked == old(revoked)
      ensures !Succeeded(receipt.outcome) ==> ledger.fenced && revoked
    {
      hide Slot;
      SlotStep(|answered|, MAX_RETAINED_RECEIPTS);
      WrapAround(cursor, MAX_RETAINED_RECEIPTS);
      var recorded := ledger.RecordOutcome(lease, receipt.sequence, receipt.outcome);
      assert recorded.Ok?;
      receipts[cursor] := Some(receipt);
      cursor := (cursor + 1) % receipts.Length;
      answered := answered + [receipt];
      if !Succeeded(receipt.outcome) { Revoke(); }
    }

    /** The answer of an attempt: reliable actions are recorded, and anything but
        success revokes this owner. */
    method RecordAnswer(receipt: Receipt, pointer: bool)
      requires Rings() && ledger.pending == (if pointer then None else Some(receipt.sequence)) && !ledger.fenced
      modifies this`cursor, this`answered, this`revoked, receipts, ledger, ledger.receipts
      ensures Rings() && ledger.pending.None?
      ensures answered == if pointer then old(answered) else old(answered) + [receipt]
      ensures if Succeeded(receipt.outcome) then !ledger.fenced && revoked == old(revoked) else ledger.fenced && revoked
    {
      if pointer {
        if !Succeeded(receipt.outcome) { Revoke(); }
      } else {
        RecordReceipt(receipt);
      }
    }

    /** What executing this event leaves in the record of pointer order. */
    static function MarkOf(request: Request): (r: seq<Mark>) {
      if request.event.Pointer? then [PointerMark(request.sequence)]
      else if HasBarrier(request.event) then [BarrierMark(request.event.barrier)]
      else []
    }

    /** The floor admits this request's mark after all earlier ones. */
    ghost predicate MarkFits(request: Request)
      reads this`marks, this`pointerFloor
    {
      && (request.event.Pointer? ==> pointerFloor.Some? && request.sequence <= pointerFloor.value
                                     && forall i :: 0 <= i < |marks| ==> marks[i].n < request.sequence)
      && (HasBarrier(request.event) ==> pointerFloor.Some? && request.event.barrier <= pointerFloor.value)
    }

    ghost method AddMark(request: Request)
      requires Marked() && MarkFits(request)
      modifies this`marks
      ensures Marked() && marks == old(marks) + MarkOf(request)
    {
      MarkGrows(marks, pointerFloor, MarkOf(request));
      marks := marks + MarkOf(request);
    }

    /** A completed request leaves the floor at an executed sample or barrier. */
    lemma FloorStays(floor: Option<u64>, before: seq<Mark>, request: Request, moved: bool)
      requires marks == before + if moved then MarkOf(request) else []
      requires request.event.Pointer? || HasBarrier(request.event) ==> moved
      requires request.event.Pointer? ==> pointerFloor == floor
      requires !request.event.Pointer? ==>
        pointerFloor == if HasBarrier(request.event) then Raised(floor, request.event.barrier) else floor
      requires (floor.Some? ==> exists i :: 0 <= i < |before| && before[i].n == floor.value)
        || (request.event.Pointer? && floor == Some(request.sequence))
      ensures FloorMarked()
    {
      if floor.Some? && exists i :: 0 <= i < |before| && before[i].n == floor.value {
        var i :| 0 <= i < |before| && before[i].n == floor.value;
        assert marks[i] == before[i];
      }
      if request.event.Pointer? || HasBarrier(request.event) {
        assert marks[|before|] == MarkOf(request)[0];
      }
    }

    method FindAnswer(sequence: u64) returns (r: Option<Receipt>)
      requires Rings()
      ensures r == if sequence < |answered| <= sequence + MAX_RETAINED_RECEIPTS then Some(answered[sequence]) else None
    {
      var i := 0;
      while i < receipts.Length
        invariant 0 <= i <= receipts.Length
        invariant forall j :: 0 <= j < i ==> receipts[j].None? || receipts[j].value.sequence != sequence
      {
        LatestIsWindow(|answered|, MAX_RETAINED_RECEIPTS, i, sequence);
        if receipts[i].Some? && receipts[i].value.sequence == sequence { return receipts[i]; }
        i := i + 1;
      }
      ghost var slot := Slot(sequence, MAX_RETAINED_RECEIPTS);
      LatestIsWindow(|answered|, MAX_RETAINED_RECEIPTS, slot, sequence);
      assert receipts[slot] == var k := Latest(|answered|, MAX_RETAINED_RECEIPTS, slot);
                               if k.Some? then Some(answered[k.value]) else None;
      r := None;
    }

    /** How many keys, buttons and wheel directions are tracked as held. */
    method HeldCount() returns (n: nat)
      requires Safe()
      ensures n == CountHeld(Mirrored()) && Mirrored().Shaped() && (n == 0 <==> Mirrored().Empty())
    {
      hide Authorized, Recorded, Covers, ConfirmedFor, ApplyAll;
      n := if wheel.Some? then 1 else 0;
      for i := 0 to KEYS
        invariant n == (if wheel.Some? then 1 else 0) + CountTrue(keys[..i])
      {
        assert keys[..i + 1] == keys[..i] + [keys[i]];
        if keys[i] { n := n + 1; }
      }
      assert keys[..KEYS] == keys[..];
      for i := 0 to BUTTONS
        invariant n == (if wheel.Some? then 1 else 0) + CountTrue(keys[..]) + CountTrue(buttons[..i])
      {
        assert buttons[..i + 1] == buttons[..i] + [buttons[i]];
        if buttons[i] { n := n + 1; }
      }
      assert buttons[..BUTTONS] == buttons[..];
      CountTrueZero(keys[..]);
      CountTrueZero(buttons[..]);
    }

    /** Pointer samples at or below an executed barrier are obsolete. */
    method Barrier(barrier: u64)
      modifies this`pointerFloor
      ensures pointerFloor == Raised(old(pointerFloor), barrier)
    {
      pointerFloor := Some(if pointerFloor.Some? then Max(pointerFloor.value, barrier) else barrier);
    }

    /** The preamble of every timed use of the authority: this owner's clock must
        not go back, and its lease and identity must still be installed. */
    method Serialize(now: u64, between: seq<Other>) returns (r: Result<u64, Refusal>)
      requires Safe() && Foreign(owner, between)
      modifies authority, this`revoked, this`calls, this`resumed, this`clock
      ensures Safe() && (old(revoked) ==> revoked)
      ensures ConfirmedFor(authority.State(), owner) ==> ConfirmedFor(old(authority.State()), owner)
      ensures now < old(clock) ==> r == Err(RefAuthority(ClockRegression)) && revoked
      ensures r.Err? && now >= old(clock) ==>
        (r.error == RefRevoked && revoked) || (r.error == RefAuthority(AuthorityError.StaleLease) && !Installed())
      ensures r.Ok? ==>
        && !revoked && clock == now && Installed()
        && r.value == SerializedTime(authority.State(), now)
      ensures between == [] ==> unchanged(authority)
      ensures old(calls) <= calls
      ensures between == [] && now >= old(clock) && old(!revoked && Installed()) ==> r.Ok?
    {
      hide Apply, Inv, Covers, ApplyAll, Released, Authorized, Recorded;
      Interfere(between);
      if now < clock {
        revoked := true;
        return Err(RefAuthority(ClockRegression));
      }
      clock := now;
      if revoked { return Err(RefRevoked); }
      if !Installed() {
        return Err(RefAuthority(AuthorityError.StaleLease));
      }
      r := Ok(SerializedTime(authority.State(), now));
    }

    /** Final authorisation. Acceptance names the run of authority calls and the
        serialized time it was decided at. */
    method Check(credentials: Credentials, now: u64, between: seq<Other>)
      returns (r: Result<u64, Refusal>, ghost at: u64)
      requires Safe() && Foreign(owner, between)
      modifies authority, this`revoked, this`calls, this`resumed, this`view, this`clock
      ensures Safe()
      ensures old(revoked) ==> revoked
      ensures old(!Active()) ==> r == Err(RefRevoked)
      ensures r.Ok? ==>
        && Active() && credentials.view == view && calls != []
        && calls[|calls| - 1] == CSubmissionDeadline(lease, credentials.ticket, at)
        && Accepted(calls[..|calls| - 1], at, credentials.ticket, revoked)
        && !ConfirmedFor(authority.State(), owner) && authority.nativeOwner == Some(owner)
      ensures r.Err? ==> Refuses(credentials, r.error)
      ensures r.Err? && r.error.RefAuthority? && now >= old(clock) && Installed() ==>
        && calls != [] && calls[|calls| - 1] == CSubmissionDeadline(lease, credentials.ticket, at)
        && SubmissionDeadline(ApplyAll(New(authority.policy), calls[..|calls| - 1]), lease, credentials.ticket, at).1
           == Err(r.error.error)
      ensures old(calls) <= calls && (r.Ok? ==> old(calls) <= calls[..|calls| - 1])
      ensures between == [] && old(Usable(credentials, now)) ==> r.Ok? && Usable(credentials, now)
    {
      hide Apply, Inv, Covers, ApplyAll, SubmissionDeadline, Released, Recorded, SerializedTime;
      at := 0;
      if !Active() { return Err(RefRevoked), at; }
      FollowRecovery();
      if credentials.view != view { return Err(RefStaleView), at; }
      r := Serialize(now, between);
      if r.Err? { return r, at; }
      ghost var s := authority.State();
      var time := r.value;
      at := time;
      ReachableInv(authority.policy, calls);
      SubmissionIsCall(s, lease, credentials.ticket, time, owner);
      SubmissionRepeats(s, lease, credentials.ticket, now);
      ApplyAllAppend(New(authority.policy), calls, CSubmissionDeadline(lease, credentials.ticket, time));
      var reply := authority.SubmissionDeadline(lease, credentials.ticket, time);
      ghost var before := calls;
      Append(CSubmissionDeadline(lease, credentials.ticket, time));
      assert calls[..|calls| - 1] == before;
      r := if reply.Ok? then Ok(reply.value) else Err(RefAuthority(reply.error));
    }

    lemma CleanupIsAuthorized(op: Operation)
      requires IsRelease(op)
      ensures Authorized(Cleanup(op))
    {}

    /** The system sees a release; other threads may act before it. */
    method SubmitRelease(op: Operation, cell: Cell, ghost entry: Native)
      requires Safe() && IsRelease(op) && WheelReady(Mirrored(), op) && ForeignCell(owner, cell)
      requires entry.op == op && Authorized(entry) && (entry.Cleanup? || entry.calls <= calls)
      modifies authority, this`revoked, this`calls, this`resumed, this`down, this`log
      ensures old(calls) <= calls
      ensures Safe() && (old(revoked) ==> revoked) && down <= old(down)
      ensures cell.result.Submitted? ==> Covers(Confirm(Mirrored(), op), down)
      ensures log == old(log) + if MayHaveHappened(cell.result) then [entry] else []
      ensures cell.during == [] ==> unchanged(authority) && revoked == old(revoked)
    {
      hide Apply, Inv, ApplyAll, Released, Authorized, Recorded;
      Interfere(cell.during);
      TrackingCovers(Mirrored(), down, op, cell.result);
      down := OsAfter(down, op, cell.result);
      if MayHaveHappened(cell.result) { Note(entry); }
    }

    /** A confirmed release is no longer tracked. */
    method Untrack(h: Held)
      requires Safe() && Mirrored().Holds(h) && Covers(Confirm(Mirrored(), ReleaseOf(h)), down)
      modifies this`wheel, keys, buttons
      ensures Safe() && Mirrored() == Confirm(old(Mirrored()), ReleaseOf(h))
    {
      hide Apply, Inv, ApplyAll, Released, Authorized, Recorded, Covers;
      ghost var m := Mirrored();
      match h {
        case HeldKey(u) => keys[u] := false; assert keys[..] == m.keys[u := false];
        case HeldButton(b) => buttons[b] := false; assert buttons[..] == m.buttons[b := false];
        case HeldWheel(_) => wheel := None;
      }
    }

    /** One release of local cleanup. No authority is asked, and none is needed. */
    method ReleaseOne(h: Held, cell: Cell) returns (cleared: bool, unwound: bool)
      requires Safe() && Mirrored().Holds(h) && ForeignCell(owner, cell)
      modifies authority, this`revoked, this`calls, this`resumed, this`down, this`log, this`wheel, keys, buttons
      ensures old(calls) <= calls
      ensures Safe() && cleared == Releases(cell) && (old(revoked) ==> revoked)
      ensures Mirrored() == if cleared then Confirm(old(Mirrored()), ReleaseOf(h)) else old(Mirrored())
      ensures down <= old(down) && OnlyReleases(old(log), log)
      ensures cell.before == [] && cell.during == [] ==> unchanged(authority) && revoked == old(revoked)
      ensures unwound ==> Unwinding(cell)
    {
      hide Apply, Inv, ApplyAll, Released, Authorized, Recorded, Covers, Confirm;
      Interfere(cell.before);
      cleared, unwound := false, cell.preparation.PreparationUnwinds?;
      if cell.preparation.Prepared? {
        var op := ReleaseOf(h);
        CleanupIsAuthorized(op);
        SubmitRelease(op, cell, Cleanup(op));
        unwound := cell.result.Unwinds?;
        if cell.result.Submitted? {
          Untrack(h);
          cleared := true;
        }
      }
      if h.HeldWheel? && cell.cancelUnwinds { unwound := true; }
    }

    /** Release everything held, once each, without fencing this owner: what the
        system confirms is no longer tracked, and everything else stays tracked. */
    method ReleaseHeld(sweep: Sweep) returns (r: Cleaned)
      requires Safe() && ForeignSweep(owner, sweep)
      modifies authority, this`revoked, this`calls, this`resumed, this`down, this`log, this`wheel, keys, buttons
      ensures old(calls) <= calls
      ensures Safe() && (old(revoked) ==> revoked) && down <= old(down) && OnlyReleases(old(log), log)
      ensures forall h :: Mirrored().Holds(h) ==> old(Mirrored()).Holds(h)
      ensures wheel.Some? ==> wheel == old(wheel)
      ensures r.Cleaned? ==>
        && Mirrored() == Unreleased(old(Mirrored()), sweep) && r.remaining == CountHeld(Mirrored())
        && r.submitted + r.remaining == CountHeld(old(Mirrored()))
      ensures SilentSweep(sweep) ==> unchanged(authority) && revoked == old(revoked)
      ensures SteadySweep(old(Mirrored()), sweep) ==> r.Cleaned?
    {
      hide Apply, Inv, ApplyAll, Released, Authorized, Recorded, Covers, ConfirmedFor, Releases, ForeignSweep,
        CountTrue, Unwinding, SilentSweep, SteadySweep, Safe;
      SweepFacts(sweep);
      var n := ReleaseWheel(sweep);
      if n.None? { return CleanupUnwound; }
      var submitted := n.value;
      n := ReleaseKeys(sweep);
      if n.None? { return CleanupUnwound; }
      submitted := submitted + n.value;
      n := ReleaseButtons(sweep);
      if n.None? { return CleanupUnwound; }
      submitted := submitted + n.value;
      var remaining := HeldCount();
      r := Cleaned(submitted, remaining);
    }

    lemma SweepFacts(sweep: Sweep)
      requires Safe()
      ensures Shape()
      ensures SteadySweep(Mirrored(), sweep) ==>
        && (wheel.Some? ==> !Unwinding(sweep(HeldWheel(wheel.value))))
        && (forall i :: 0 <= i < KEYS && keys[i] ==> !Unwinding(sweep(HeldKey(i))))
        && (forall i :: 0 <= i < BUTTONS && buttons[i] ==> !Unwinding(sweep(HeldButton(i))))
    {
      hide Authorized, Recorded, Covers, ConfirmedFor, ApplyAll, Unwinding;
      assert forall i :: 0 <= i < KEYS && keys[i] ==> Mirrored().Holds(HeldKey(i));
      assert forall i :: 0 <= i < BUTTONS && buttons[i] ==> Mirrored().Holds(HeldButton(i));
      assert wheel.Some? ==> Mirrored().Holds(HeldWheel(wheel.value));
    }

    method ReleaseWheel(sweep: Sweep) returns (n: Option<nat>)
      requires Safe() && ForeignSweep(owner, sweep)
      modifies authority, this`revoked, this`calls, this`resumed, this`down, this`log, this`wheel, keys, buttons
      ensures old(calls) <= calls
      ensures Safe() && (old(revoked) ==> revoked) && down <= old(down) && OnlyReleases(old(log), log)
      ensures keys[..] == old(keys[..]) && buttons[..] == old(buttons[..]) && (wheel.Some? ==> wheel == old(wheel))
      ensures n.Some? ==> wheel == Unreleased(old(Mirrored()), sweep).wheel
      ensures n.Some? ==> n.value + (if wheel.Some? then 1 else 0) == if old(wheel).Some? then 1 else 0
      ensures SilentSweep(sweep) ==> unchanged(authority) && revoked == old(revoked)
      ensures n.None? ==> old(wheel).Some? && Unwinding(sweep(HeldWheel(old(wheel).value)))
    {
      hide Apply, Inv, ApplyAll, Released, Authorized, Recorded, Covers, ConfirmedFor;
      n := Some(0);
      if wheel.Some? {
        var cleared, unwound := ReleaseOne(HeldWheel(wheel.value), sweep(HeldWheel(wheel.value)));
        n := if unwound then None else if cleared then Some(1) else Some(0);
      }
    }

    method ReleaseKeys(sweep: Sweep) returns (n: Option<nat>)
      requires Safe() && ForeignSweep(owner, sweep)
      modifies authority, this`revoked, this`calls, this`resumed, this`down, this`log, this`wheel, keys, buttons
      ensures old(calls) <= calls
      ensures Safe() && (old(revoked) ==> revoked) && down <= old(down) && OnlyReleases(old(log), log)
      ensures wheel == old(wheel) && buttons[..] == old(buttons[..])
      ensures forall u :: 0 <= u < KEYS && keys[u] ==> old(keys[u])
      ensures n.Some? ==> keys[..] == Unreleased(old(Mirrored()), sweep).keys
      ensures n.Some? ==> n.value + CountTrue(keys[..]) == CountTrue(old(keys[..]))
      ensures SilentSweep(sweep) ==> unchanged(authority) && revoked == old(revoked)
      ensures n.None? ==> exists i :: 0 <= i < KEYS && old(keys[i]) && Unwinding(sweep(HeldKey(i)))
    {
      hide Apply, Inv, ApplyAll, Released, Authorized, Recorded, Covers, ConfirmedFor, Safe, SilentSweep, Unwinding,
        OnlyReleases, CountTrue, Releases;
      HasShape();
      OnlyReleasesNothing(log);
      var submitted := 0;
      for i := 0 to KEYS
        invariant old(calls) <= calls && Shape()
        invariant Safe() && (old(revoked) ==> revoked) && down <= old(down) && OnlyReleases(old(log), log)
        invariant wheel == old(wheel) && buttons[..] == old(buttons[..])
        invariant forall u :: i <= u < KEYS ==> keys[u] == old(keys[u])
        invariant forall u :: 0 <= u < i ==> keys[u] == (old(keys[u]) && !Releases(sweep(HeldKey(u))))
        invariant submitted + CountTrue(keys[..]) == CountTrue(old(keys[..]))
        invariant SilentSweep(sweep) ==> unchanged(authority) && revoked == old(revoked)
      {
        if keys[i] {
          ghost var before, was := keys[..], log;
          SilentAt(sweep, HeldKey(i));
          var cleared, unwound := ReleaseOne(HeldKey(i), sweep(HeldKey(i)));
          OnlyReleasesOnward(old(log), was, log);
          HasShape();
          CountTrueClear(before, i);
          assert keys[..] == if cleared then before[i := false] else before;
          if unwound { return None; }
          if cleared { submitted := submitted + 1; }
        }
      }
      n := Some(submitted);
    }

    method ReleaseButtons(sweep: Sweep) returns (n: Option<nat>)
      requires Safe() && ForeignSweep(owner, sweep)
      modifies authority, this`revoked, this`calls, this`resumed, this`down, this`log, this`wheel, keys, buttons
      ensures old(calls) <= calls
      ensures Safe() && (old(revoked) ==> revoked) && down <= old(down) && OnlyReleases(old(log), log)
      ensures wheel == old(wheel) && keys[..] == old(keys[..])
      ensures forall b :: 0 <= b < BUTTONS && buttons[b] ==> old(buttons[b])
      ensures n.Some? ==> buttons[..] == Unreleased(old(Mirrored()), sweep).buttons
      ensures n.Some? ==> n.value + CountTrue(buttons[..]) == CountTrue(old(buttons[..]))
      ensures SilentSweep(sweep) ==> unchanged(authority) && revoked == old(revoked)
      ensures n.None? ==> exists i :: 0 <= i < BUTTONS && old(buttons[i]) && Unwinding(sweep(HeldButton(i)))
    {
      hide Apply, Inv, ApplyAll, Released, Authorized, Recorded, Covers, ConfirmedFor, Safe, SilentSweep, Unwinding,
        OnlyReleases, CountTrue, Releases;
      HasShape();
      OnlyReleasesNothing(log);
      var submitted := 0;
      for i := 0 to BUTTONS
        invariant old(calls) <= calls && Shape()
        invariant Safe() && (old(revoked) ==> revoked) && down <= old(down) && OnlyReleases(old(log), log)
        invariant wheel == old(wheel) && keys[..] == old(keys[..])
        invariant forall b :: i <= b < BUTTONS ==> buttons[b] == old(buttons[b])
        invariant forall b :: 0 <= b < i ==> buttons[b] == (old(buttons[b]) && !Releases(sweep(HeldButton(b))))
        invariant submitted + CountTrue(buttons[..]) == CountTrue(old(buttons[..]))
        invariant SilentSweep(sweep) ==> unchanged(authority) && revoked == old(revoked)
      {
        if buttons[i] {
          ghost var before, was := buttons[..], log;
          SilentAt(sweep, HeldButton(i));
          var cleared, unwound := ReleaseOne(HeldButton(i), sweep(HeldButton(i)));
          OnlyReleasesOnward(old(log), was, log);
          HasShape();
          CountTrueClear(before, i);
          assert buttons[..] == if cleared then before[i := false] else before;
          if unwound { return None; }
          if cleared { submitted := submitted + 1; }
        }
      }
      n := Some(submitted);
    }

    /** The authority still knows this lease and this very owner of it. */
    predicate Installed()
      reads authority
    {
      LeaseId(authority.State()) == Some(lease) && authority.nativeOwner == Some(owner)
    }

    /** Read this lease's status, at this owner's serialized time. */
    method ReadStatus(now: u64, between: seq<Other>) returns (r: Result<ControlStatus, Refusal>, ghost at: u64)
      requires Safe() && Foreign(owner, between)
      modifies authority, this`revoked, this`calls, this`resumed, this`clock
      ensures old(calls) <= calls
      ensures r.Ok? && r.value.Suspended? ==> authority.readiness != Ready
      ensures Safe() && (old(revoked) ==> revoked)
      ensures r.Ok? || (now >= old(clock) && !revoked && Installed()) ==>
        && now >= old(clock) && calls != [] && calls[|calls| - 1] == CReadControlStatus(at)
        && var reply := ReadControlStatus(ApplyAll(New(authority.policy), calls[..|calls| - 1]), at).1;
           if r.Ok? then reply == Ok(r.value) else reply.Err? && r.error == RefAuthority(reply.error)
      ensures between == [] && now >= old(clock) && old(!revoked && Installed()) ==>
        && !revoked && at == SerializedTime(old(authority.State()), now)
        && authority.State() == ReadControlStatus(old(authority.State()), at).0
        && var reply := ReadControlStatus(old(authority.State()), at).1;
           r == if reply.Ok? then Ok(reply.value) else Err(RefAuthority(reply.error))
    {
      hide Apply, Inv, Covers, ApplyAll, Released, Authorized, Recorded, ReadControlStatus;
      at := 0;
      var time := Serialize(now, between);
      if time.Err? { return Err(time.error), at; }
      at := time.value;
      ghost var before := calls;
      ReachableInv(authority.policy, calls);
      StatusIsCall(authority.State(), time.value);
      StatusFacts(authority.State(), time.value);
      AuthorityProofs.OtherCall(authority.State(), CReadControlStatus(time.value), owner);
      ApplyAllAppend(New(authority.policy), calls, CReadControlStatus(time.value));
      var reply := authority.ReadControlStatus(time.value);
      Append(CReadControlStatus(time.value));
      assert calls[..|calls| - 1] == before;
      r := if reply.Ok? then Ok(reply.value) else Err(RefAuthority(reply.error));
    }

    /** Tell the authority that nothing of this suspended lease is held any more. */
    method ConfirmRelease(between: seq<Other>)
      requires Safe() && Foreign(owner, between) && down == {}
      modifies authority, this`revoked, this`calls, this`resumed
      ensures old(calls) <= calls
      ensures Safe() && (old(revoked) ==> revoked)
      ensures !revoked && Installed() ==> !Unconfirmed(authority.State())
      ensures between == [] && !old(revoked) ==>
        !revoked && authority.State() == ConfirmAs(old(authority.State()), owner, lease).0
    {
      hide Apply, Inv, Covers, ApplyAll, Released, Authorized, Recorded;
      Interfere(between);
      if revoked { return; }
      ConfirmIsCall(authority.State(), owner, lease);
      ApplyAllAppend(New(authority.policy), calls, CConfirmAs(owner, lease));
      var _ := authority.ConfirmAs(owner, lease);
      Append(CConfirmAs(owner, lease));
    }

    /** Release-only service of a revoked owner. */
    method CleanUp(sweep: Sweep) returns (r: Cleaned)
      requires Valid() && ForeignSweep(owner, sweep)
      modifies authority, this`revoked, this`calls, this`resumed, this`down, this`log, this`wheel, keys, buttons,
        ledger`fenced
      ensures old(calls) <= calls
      ensures Valid() && revoked && ledger.fenced && down <= old(down) && OnlyReleases(old(log), log)
      ensures forall h :: Mirrored().Holds(h) ==> old(Mirrored()).Holds(h)
      ensures r.Cleaned? ==>
        && Mirrored() == Unreleased(old(Mirrored()), sweep) && r.remaining == CountHeld(Mirrored())
        && r.submitted + r.remaining == CountHeld(old(Mirrored()))
      ensures SteadySweep(old(Mirrored()), sweep) ==> r.Cleaned?
    {
      hide Apply, Inv, Covers, ApplyAll, Released, Authorized, Recorded, Unreleased, ConfirmedFor, ForeignSweep,
        SteadySweep;
      Revoke();
      r := ReleaseHeld(sweep);
    }

    /** The release of everything a suspended lease holds, confirmed once nothing is held. */
    method ReleaseSuspended(released: bool, sweep: Sweep, later: seq<Other>) returns (r: Cleaned)
      requires Valid() && ForeignSweep(owner, sweep) && Foreign(owner, later)
      modifies authority, this`revoked, this`calls, this`resumed, this`down, this`log, this`wheel, keys, buttons
      ensures Valid() && (old(revoked) ==> revoked) && down <= old(down) && OnlyReleases(old(log), log)
      ensures old(calls) <= calls
      ensures forall h :: Mirrored().Holds(h) ==> old(Mirrored()).Holds(h)
      ensures r.Cleaned? ==>
        && Mirrored() == Unreleased(old(Mirrored()), sweep) && r.remaining == CountHeld(Mirrored())
        && r.submitted + r.remaining == CountHeld(old(Mirrored()))
      ensures !released && r.Cleaned? && r.remaining == 0 && !revoked && Installed() ==>
        !Unconfirmed(authority.State())
      ensures SteadySweep(old(Mirrored()), sweep) ==> r.Cleaned?
      ensures ClearingSweep(old(Mirrored()), sweep) ==>
        r == Cleaned(CountHeld(old(Mirrored())), 0) && Mirrored() == NOTHING_HELD && down == {}
      ensures SilentSweep(sweep) && later == [] ==>
        && revoked == old(revoked)
        && (!revoked && r.Cleaned? && r.remaining == 0 ==>
           authority.State() ==
             if released then old(authority.State()) else ConfirmAs(old(authority.State()), owner, lease).0)
    {
      hide Apply, Inv, Covers, ApplyAll, Released, Authorized, Recorded, Unreleased, ConfirmedFor, ForeignSweep, Marked,
        Safe, Rings, CountHeld, SteadySweep, ClearingSweep, ConfirmAs;
      AllReleased(sweep);
      r := ReleaseHeld(sweep);
      if r.Cleaned? && r.remaining == 0 {
        NothingHeld();
        if !released { ConfirmRelease(later); }
      }
    }

    /** This owner's lease and observation run on, its view has lapsed, and the time it may
        stay suspended has not passed yet. */
    ghost predicate InSuspension(now: u64)
      reads this`revoked, this`clock, authority
    {
      && !revoked && Installed() && clock <= now
      && var s := authority.State();
         var t: u64 := if s.lastChecked.Some? then Max(s.lastChecked.value, now) else now;
         && !s.clockFaulted && Observing(s, t) && t < s.lease.value.until && !Seeing(s, t)
         && SuspensionAt(s, t).Some?
         && t < SuspensionAt(s, t).value.since + MAX_VIEW_SUSPENSION <= U64_MAX
    }

    /** In time, and by a sweep in which the system releases everything and nobody else acts. */
    ghost predicate Releasable(now: u64, sweep: Sweep)
      requires Shape()
      reads this`revoked, this`clock, this`wheel, keys, buttons, authority
    {
      InSuspension(now) && SilentSweep(sweep) && ClearingSweep(Mirrored(), sweep)
    }

    lemma ReleasableFacts(now: u64, sweep: Sweep)
      requires Safe()
      ensures Shape()
      ensures Releasable(now, sweep) ==>
        && SilentSweep(sweep) && ClearingSweep(Mirrored(), sweep) && !revoked && Installed() && clock <= now
        && var s := authority.State(); var t := SerializedTime(s, now); var (u, r) := ReadControlStatus(s, t);
           && r.Ok? && r.value.Suspended?
           && (if r.value.released then u else ConfirmAs(u, owner, lease).0) == ReleasedAt(s, t)
    {
      HasShape();
      ReachableRun();
      hide Safe, Shape, SilentSweep, ClearingSweep, Inv;
      if Releasable(now, sweep) { SuspensionIsReported(authority.State(), now, owner, lease); }
    }

    /** Periodic service. A live lease is left alone; a suspended one has everything
        it holds released, and the release is confirmed only once nothing is held;
        any other status revokes this owner and cleans up. */
    method Maintain(now: u64, between: seq<Other>, sweep: Sweep, later: seq<Other>)
      returns (r: Cleaned, ghost status: Option<Result<ControlStatus, Refusal>>, ghost p: seq<Call>)
      requires Valid() && Foreign(owner, between) && ForeignSweep(owner, sweep) && Foreign(owner, later)
      modifies authority, this`revoked, this`calls, this`resumed, this`clock, this`down, this`log, this`wheel, keys,
        buttons
      modifies ledger`fenced
      ensures Valid() && (old(revoked) ==> revoked) && down <= old(down) && OnlyReleases(old(log), log)
      ensures forall h :: Mirrored().Holds(h) ==> old(Mirrored()).Holds(h)
      ensures r.Cleaned? ==>
        && (Mirrored() == old(Mirrored()) || Mirrored() == Unreleased(old(Mirrored()), sweep))
        && r.remaining == CountHeld(Mirrored()) && r.submitted + r.remaining == CountHeld(old(Mirrored()))
      ensures old(calls) <= p <= calls
      ensures status.Some? && status.value.Ok? && status.value.value.Suspended? ==>
        ApplyAll(New(authority.policy), p).readiness != Ready
      ensures old(ledger.fenced) ==> ledger.fenced
      ensures status.None? <==> old(revoked)
      ensures status.None? || status.value.Err? ==> revoked && ledger.fenced
      ensures r.Cleaned? && (status.None? || !(status.value.Ok? && status.value.value.Live?)) ==>
        Mirrored() == Unreleased(old(Mirrored()), sweep)
      ensures status.Some? && status.value.Ok? && status.value.value.Live? && !revoked ==>
        log == old(log) && down == old(down) && Mirrored() == old(Mirrored())
      ensures status.Some? && status.value.Ok? && status.value.value.Suspended? && !status.value.value.released ==>
        (r.Cleaned? && r.remaining == 0 && !revoked && Installed() ==> !Unconfirmed(authority.State()))
      ensures SteadySweep(old(Mirrored()), sweep) ==> r.Cleaned?
      ensures now < old(clock) ==> revoked
      ensures between == [] && old(!revoked && Installed() && clock <= now) ==>
        var reply := ReadControlStatus(old(authority.State()), SerializedTime(old(authority.State()), now)).1;
        status == Some(if reply.Ok? then Ok(reply.value) else Err(RefAuthority(reply.error)))
      ensures between == [] && later == [] && old(Releasable(now, sweep)) ==>
        && r == Cleaned(CountHeld(old(Mirrored())), 0) && Mirrored() == NOTHING_HELD && down == {}
        && !revoked && ledger.fenced == old(ledger.fenced)
        && authority.State() == ReleasedAt(old(authority.State()), SerializedTime(old(authority.State()), now))
    {
      hide Apply, Inv, Covers, ApplyAll, Released, Authorized, Recorded, Unreleased, ConfirmedFor, ForeignSweep, Marked,
        Safe, Rings, CountHeld, SteadySweep, ClearingSweep, SilentSweep, Releasable, Unconfirmed, ReadControlStatus,
        ReleasedAt, ConfirmAs, SerializedTime;
      status, p := None, calls;
      ReleasableFacts(now, sweep);
      if !revoked {
        ghost var at;
        var read;
        read, at := ReadStatus(now, between);
        status, p := Some(read), calls;
        RunOf();
        match read {
          case Ok(Live(_)) =>
          case Ok(Suspended(_, released)) =>
            r := ReleaseSuspended(released, sweep, later);
            return;
          case Err(_) => Revoke();
        }
      }
      if revoked {
        r := CleanUp(sweep);
      } else {
        var remaining := HeldCount();
        r := Cleaned(0, remaining);
      }
    }

    lemma ReachableRun()
      requires Safe()
      ensures Inv(authority.State())
    {
      hide Authorized, Recorded, Covers, ConfirmedFor, ApplyAll, Inv;
      ReachableInv(authority.policy, calls);
    }

    /** Nothing is left of what the system releases. */
    lemma AllReleased(sweep: Sweep)
      requires Safe()
      ensures Mirrored().Shaped()
      ensures ClearingSweep(Mirrored(), sweep) ==>
        && SteadySweep(Mirrored(), sweep)
        && Unreleased(Mirrored(), sweep) == NOTHING_HELD && CountHeld(Unreleased(Mirrored(), sweep)) == 0
    {
      hide Authorized, Recorded, Covers, ConfirmedFor, ApplyAll, SteadySweep, Releases;
      HasShape();
      var m := Mirrored();
      if ClearingSweep(m, sweep) {
        var left := Unreleased(m, sweep);
        assert forall u :: 0 <= u < KEYS && m.keys[u] ==> m.Holds(HeldKey(u));
        assert forall b :: 0 <= b < BUTTONS && m.buttons[b] ==> m.Holds(HeldButton(b));
        assert m.wheel.Some? ==> m.Holds(HeldWheel(m.wheel.value));
        assert left == NOTHING_HELD;
        CountTrueZero(left.keys);
        CountTrueZero(left.buttons);
      }
    }

    lemma RunOf()
      requires Safe()
      ensures authority.State() == ApplyAll(New(authority.policy), calls)
    {
      hide Authorized, Recorded, Covers, ConfirmedFor, ApplyAll;
    }

    lemma NothingHeld()
      requires Safe() && CountHeld(Mirrored()) == 0
      ensures down == {}
    {
      hide Apply, Inv, ApplyAll, Released, Authorized, Recorded, ConfirmedFor;
      CountTrueZero(keys[..]);
      CountTrueZero(buttons[..]);
    }

    /** A look at `now` finds live control of this owner, unless somebody else acts first. */
    ghost predicate LiveAt(now: u64)
      reads this`revoked, this`clock, ledger`fenced, authority
    {
      && Active() && clock <= now && Installed()
      && HasLiveControl(authority.State(), SerializedTime(authority.State(), now)).1
    }

    /** The check before each release of a reconciliation: no ticket, but live control. */
    method CheckLive(now: u64, between: seq<Other>) returns (r: Result<(), Refusal>, ghost at: u64)
      requires Safe() && Foreign(owner, between)
      modifies authority, this`revoked, this`calls, this`resumed, this`clock
      ensures old(calls) <= calls && (r.Ok? ==> old(calls) <= calls[..|calls| - 1])
      ensures r.Ok? ==> ApplyAll(New(authority.policy), calls[..|calls| - 1]).readiness == Ready
      ensures Safe() && (old(revoked) ==> revoked) && (old(!Active()) ==> r == Err(RefRevoked))
      ensures r.Ok? ==>
        calls != [] && forall op | IsRelease(op) :: Authorized(Reconciled(op, calls[..|calls| - 1], at, revoked))
      ensures r.Err? && now >= old(clock) && Active() && Installed() ==>
        && r.error == RefAuthority(NoLease) && calls != [] && calls[|calls| - 1] == CHasLiveControl(at)
        && !HasLiveControl(ApplyAll(New(authority.policy), calls[..|calls| - 1]), at).1
      ensures between == [] && old(LiveAt(now)) ==> r.Ok? && LiveAt(now)
    {
      hide Apply, Inv, Covers, ApplyAll, Released, HasLiveControl, Recorded, SerializedTime;
      at := 0;
      if !Active() { return Err(RefRevoked), at; }
      var time := Serialize(now, between);
      if time.Err? { return Err(time.error), at; }
      at := time.value;
      LiveControlIsCall(authority.State(), time.value);
      LiveIsReady(authority.State(), time.value);
      LiveRepeats(authority.State(), now);
      ReachableInv(authority.policy, calls);
      AuthorityProofs.OtherCall(authority.State(), CHasLiveControl(time.value), owner);
      ApplyAllAppend(New(authority.policy), calls, CHasLiveControl(time.value));
      var live := authority.HasLiveControl(time.value);
      ghost var before := calls;
      Append(CHasLiveControl(time.value));
      assert calls[..|calls| - 1] == before;
      r := if live then Ok(()) else Err(RefAuthority(NoLease));
    }

    /** The report says which listed releases were confirmed, and whether one more
        may have happened. */
    ghost predicate Reports(plan: seq<Operation>, m: Mirror, before: seq<Native>)
      requires m.Shaped()
      reads this`wheel, this`log, this`reconciliation, keys, buttons
    {
      && reconciliation.Some? && reconciliation.value.submitted + reconciliation.value.remaining == |plan|
      && Followed(plan, m, before, plan[..reconciliation.value.submitted], reconciliation.value.outcome
         == ReleaseUnknown)
    }

    /** One listed release. */
    method ReconcileOne(op: Operation, cell: Cell, sample: Sample, ghost plan: seq<Operation>, ghost m: Mirror,
                        ghost before: seq<Native>)
      returns (r: Flow)
      requires Safe() && m.Shaped() && Reports(plan, m, before) && ForeignCell(owner, cell)
        && ForeignSample(owner, sample)
      requires reconciliation.value.outcome == Interrupted && reconciliation.value.submitted < |plan|
      requires op == plan[reconciliation.value.submitted] && IsRelease(op) && !op.OpWheel?
      requires Mirrored().Holds(Subject(op).value) && ReleaseOf(Subject(op).value) == op
      modifies authority, this`revoked, this`calls, this`resumed, this`clock, this`down, this`log, this`wheel, keys,
        buttons
      modifies this`reconciliation
      ensures old(calls) <= calls
      ensures Safe() && down <= old(down) && Reports(plan, m, before) && wheel == old(wheel)
      ensures reconciliation.value.sequence == old(reconciliation.value.sequence)
      ensures reconciliation.value.refusal == old(reconciliation.value.refusal)
      ensures reconciliation.value.outcome in {Interrupted, Declined, ReleaseUnknown}
      ensures r.Done? ==> reconciliation.value.outcome == Interrupted
                          && reconciliation.value.submitted == old(reconciliation.value.submitted) + 1
      ensures CalmRelease(cell, sample, sample.now) && old(LiveAt(sample.now)) ==> r.Done? && LiveAt(sample.now)
    {
      hide Apply, Inv, ApplyAll, Released, Authorized, Recorded, Covers, ConfirmedFor, Safe, LiveAt, Followed;
      HasShape();
      var report := reconciliation.value;
      Interfere(cell.before);
      if cell.preparation.PreparationUnwinds? { return Unwound; }
      if cell.preparation.PreparationRefused? {
        return if cell.cancelUnwinds then Unwound else Stopped(RefPlatform(cell.preparation.error));
      }
      Interfere(sample.before);
      if sample.unwinds { return Unwound; }
      ghost var at;
      var checked;
      checked, at := CheckLive(sample.now, sample.between);
      if checked.Err? { return if cell.cancelUnwinds then Unwound else Stopped(checked.error); }
      EnterRelease(op, cell, plan, m, before, Reconciled(op, calls[..|calls| - 1], at, revoked));
      r := if cell.cancelUnwinds then Unwound else Classify(cell.result);
    }

    method EnterRelease(op: Operation, cell: Cell, ghost plan: seq<Operation>, ghost m: Mirror,
                        ghost before: seq<Native>,
                        ghost entry: Native)
      requires Safe() && m.Shaped() && Reports(plan, m, before) && ForeignCell(owner, cell)
      requires reconciliation.value.outcome == Interrupted && reconciliation.value.submitted < |plan|
      requires op == plan[reconciliation.value.submitted] && IsRelease(op) && !op.OpWheel?
      requires Mirrored().Holds(Subject(op).value) && ReleaseOf(Subject(op).value) == op && entry.op == op
        && Authorized(entry)
      requires entry.Cleanup? || entry.calls <= calls
      modifies authority, this`revoked, this`calls, this`resumed, this`down, this`log, this`wheel, keys, buttons
      modifies this`reconciliation
      ensures old(calls) <= calls
      ensures Safe() && down <= old(down) && Reports(plan, m, before) && wheel == old(wheel)
      ensures var was := old(reconciliation.value); reconciliation == Some(
        if cell.result.Submitted? then was.(submitted := was.submitted + 1, remaining := was.remaining - 1)
        else if MayHaveHappened(cell.result) then was.(outcome := ReleaseUnknown)
        else was.(outcome := Declined))
      ensures cell.during == [] ==> unchanged(authority) && revoked == old(revoked)
    {
      hide Apply, Inv, ApplyAll, Released, Authorized, Recorded, Covers, ConfirmedFor, Safe, Confirm, ConfirmAll,
        Subject;
      var report := reconciliation.value;
      ReleaseFollows(m, plan, report.submitted);
      reconciliation := Some(report.(outcome := ReleaseUnknown));
      SubmitRelease(op, cell, entry);
      if cell.result.Submitted? {
        Untrack(Subject(op).value);
        reconciliation := Some(report.(submitted := report.submitted + 1, remaining := report.remaining - 1));
      } else if !MayHaveHappened(cell.result) {
        reconciliation := Some(report.(outcome := Declined));
      }
    }

    /** All listed releases, in order, each finally checked. */
    method ReconcileAll(ops: seq<Operation>, start: Sample, tape: ReconcileTape, ghost m: Mirror, ghost held: set<Held>)
      returns (r: Flow, ghost p: seq<Call>)
      requires Safe() && m == Mirrored() && ops == MissingReleases(m, held) && reconciliation.Some?
      requires reconciliation.value.outcome == Interrupted && reconciliation.value.submitted == 0
      requires reconciliation.value.remaining == |ops| && ForeignSample(owner, start) && ForeignReconcile(owner, tape)
      modifies authority, this`revoked, this`calls, this`resumed, this`clock, this`down, this`log, this`wheel, keys,
        buttons
      modifies this`reconciliation
      ensures old(calls) <= p <= calls && (r.Done? ==> ApplyAll(New(authority.policy), p).readiness == Ready)
      ensures Safe() && down <= old(down) && Reports(ops, m, old(log)) && wheel == old(wheel)
      ensures reconciliation.value.sequence == old(reconciliation.value.sequence)
      ensures reconciliation.value.refusal == old(reconciliation.value.refusal)
      ensures reconciliation.value.outcome in {Interrupted, Declined, ReleaseUnknown}
      ensures r.Done? ==> reconciliation.value.outcome == Interrupted && reconciliation.value.submitted == |ops|
      ensures CalmReconcile(start, tape, |ops|) && old(LiveAt(start.now)) ==> r.Done?
    {
      hide Apply, Inv, ApplyAll, Released, Authorized, Recorded, Covers, ConfirmedFor, Safe, MissingReleases, LiveAt;
      FollowedNothing(ops);
      p := calls;
      assert ops[..0] == [];
      Interfere(start.before);
      if start.unwinds { return Unwound, p; }
      ghost var at;
      var checked;
      checked, at := CheckLive(start.now, start.between);
      if checked.Err? { return Stopped(checked.error), p; }
      p := calls[..|calls| - 1];
      var i := 0;
      while i < |ops|
        invariant 0 <= i <= |ops| && Safe() && down <= old(down) && Reports(ops, m, old(log)) && wheel == old(wheel)
        invariant p <= calls
        invariant reconciliation.value.outcome == Interrupted && reconciliation.value.submitted == i
        invariant reconciliation.value.sequence == old(reconciliation.value.sequence)
        invariant reconciliation.value.refusal == old(reconciliation.value.refusal)
        invariant CalmReconcile(start, tape, |ops|) && old(LiveAt(start.now)) ==> LiveAt(start.now)
      {
        StillHeld(m, held, i);
        assert CalmReconcile(start, tape, |ops|) ==> CalmRelease(tape(i).0, tape(i).1, start.now);
        r := ReconcileOne(ops[i], tape(i).0, tape(i).1, ops, m, old(log));
        if !r.Done? { return; }
        i := i + 1;
      }
      r := Done;
    }

    /** Whether a snapshot is current: for this lease, newer than any before, and
        made after exactly the actions admitted here. */
    predicate Current(request: HeldRequest)
      reads this`revoked, this`reconciliationFloor, ledger`fenced, ledger`nextSequence
    {
      && request.session == session && request.lease == lease && Active()
      && (reconciliationFloor.Some? ==> request.sequence > reconciliationFloor.value)
      && ledger.nextSequence.Some?
    }

    /** A snapshot counts exactly if it is for this session and lease, newer than the last
        one, and action numbers are left, while this owner works. */
    lemma CurrentExactly(request: HeldRequest)
      requires Valid()
      ensures Current(request) <==>
        && request.session == session && request.lease == lease && !revoked && !ledger.fenced
        && (reconciliationFloor.Some? ==> reconciliationFloor.value < request.sequence) && |answered| <= U64_MAX
    {
      hide Safe, Marked;
    }

    /** Release what is held here but not at the viewer; never press. */
    method ReconcileHeld(request: HeldRequest, start: Sample, tape: ReconcileTape)
      returns (r: ReconcileReply, ghost p: seq<Call>)
      requires Valid() && ForeignSample(owner, start) && ForeignReconcile(owner, tape)
      modifies authority, this`revoked, this`calls, this`resumed, this`clock, this`down, this`log, this`wheel, keys,
        buttons
      modifies this`reconciliation, this`reconciliationFloor, ledger`fenced
      ensures Valid() && down <= old(down) && old(calls) <= p <= calls
      ensures r.Reported? && r.report.outcome == Applied ==> ApplyAll(New(authority.policy), p).readiness == Ready
      ensures !old(Current(request)) || request.nextAction < |old(answered)| ==>
        r == Reported(Reconciliation(request.sequence, Ignored, 0, 0, None)) && log == old(log)
          && Mirrored() == old(Mirrored())
        && revoked == old(revoked) && ledger.fenced == old(ledger.fenced)
        && reconciliationFloor == old(reconciliationFloor)
      ensures old(Current(request)) && request.nextAction > |old(answered)| ==>
        r == SnapshotGap(RefSequence(SequenceGap(|old(answered)|, request.nextAction))) && log == old(log)
        && Mirrored() == old(Mirrored()) && revoked && ledger.fenced
      ensures old(Current(request)) && request.nextAction == |old(answered)| ==>
        && reconciliationFloor == Some(request.sequence)
        && Reports(MissingReleases(old(Mirrored()), request.held), old(Mirrored()), old(log))
        && (r.Reported? ==> reconciliation == Some(r.report) && r.report.sequence == request.sequence)
        && (r.Reported? ==> r.report.outcome in {Applied, Declined, ReleaseUnknown})
        && (r.Reported? && r.report.outcome == Applied ==> Mirrored() == Shared(old(Mirrored()), request.held))
        && (!(r.Reported? && r.report.outcome == Applied) ==> revoked && ledger.fenced)
        && (CalmReconcile(start, tape, |MissingReleases(old(Mirrored()), request.held)|) && old(LiveAt(start.now)) ==>
           r.Reported? && r.report.outcome == Applied)
    {
      hide Apply, Inv, ApplyAll, Released, Authorized, Recorded, Covers, ConfirmedFor, Safe, MissingReleases, Rings,
        Marked, Shared, ForeignReconcile, ForeignSample, Followed, CalmReconcile, LiveAt;
      var expected := NextAction();
      if !Current(request) || request.nextAction < expected {
        return Reported(Reconciliation(request.sequence, Ignored, 0, 0, None)), calls;
      }
      if request.nextAction > expected {
        Revoke();
        return SnapshotGap(RefSequence(SequenceGap(expected, request.nextAction))), calls;
      }
      r, p := ApplySnapshot(request, start, tape);
    }

    method ApplySnapshot(request: HeldRequest, start: Sample, tape: ReconcileTape)
      returns (r: ReconcileReply, ghost p: seq<Call>)
      requires Safe() && Rings() && ForeignSample(owner, start) && ForeignReconcile(owner, tape)
      modifies authority, this`revoked, this`calls, this`resumed, this`clock, this`down, this`log, this`wheel, keys,
        buttons
      modifies this`reconciliation, this`reconciliationFloor, ledger`fenced
      ensures Safe() && Rings() && down <= old(down) && wheel == old(wheel)
        && (ledger.fenced || ledger.fenced == old(ledger.fenced))
      ensures old(calls) <= p <= calls
      ensures r.Reported? && r.report.outcome == Applied ==> ApplyAll(New(authority.policy), p).readiness == Ready
      ensures reconciliationFloor == Some(request.sequence)
      ensures Reports(MissingReleases(old(Mirrored()), request.held), old(Mirrored()), old(log))
      ensures r.Reported? ==> reconciliation == Some(r.report) && r.report.sequence == request.sequence
      ensures r.Reported? ==> r.report.outcome in {Applied, Declined, ReleaseUnknown}
      ensures r.Reported? && r.report.outcome == Applied ==> Mirrored() == Shared(old(Mirrored()), request.held)
      ensures (r.Reported? && r.report.outcome == Applied) || (revoked && ledger.fenced)
      ensures old(LiveAt(start.now)) && CalmReconcile(start, tape, |MissingReleases(old(Mirrored()), request.held)|) ==>
        r.Reported? && r.report.outcome == Applied
    {
      hide Apply, Inv, ApplyAll, Released, Authorized, Recorded, Covers, ConfirmedFor, Safe, MissingReleases, Rings,
        Marked, Shared, ForeignReconcile, ForeignSample, Followed, ConfirmAll, CalmReconcile, LiveAt, Shape,
        Mirror.Shaped;
      HasShape();
      reconciliationFloor := Some(request.sequence);
      var m := Mirrored();
      var ops := MissingReleases(m, request.held);
      reconciliation := Some(Reconciliation(request.sequence, Interrupted, 0, |ops|, None));
      var flow;
      flow, p := ReconcileAll(ops, start, tape, m, request.held);
      var report := reconciliation.value;
      match flow {
        case Done =>
          FollowedAll(ops, m, old(log));
          MissingReleasesReconcile(m, request.held);
          report := report.(outcome := Applied);
          r := Reported(report);
        case Stopped(e) =>
          Revoke();
          report := report.(outcome := if report.outcome == ReleaseUnknown then ReleaseUnknown
            else Declined, refusal := Some(e));
          r := Reported(report);
        case Unwound =>
          Revoke();
          r := ReconcileUnwound;
      }
      reconciliation := Some(report);
    }

    /** The next action number, if any is left. */
    method NextAction() returns (n: nat)
      requires Rings() && ledger.pending.None?
      ensures n == |answered| && (ledger.nextSequence.Some? ==> n <= U64_MAX)
    {
      n := if ledger.nextSequence.Some? then ledger.nextSequence.value else U64_MAX + 1;
    }

    /** The answer to a request that is not executed; none if it is. */
    ghost function Settled(request: Request): (r: Option<Dispatched>)
      requires Rings()
      reads this`cursor, this`answered, this`revoked, this`pointerFloor, receipts, ledger, ledger.receipts
    {
      var Request(credentials, sequence, event) := request;
      if credentials.session != session then Some(NotAdmitted(RefStaleSession))
      else if credentials.lease != lease then Some(NotAdmitted(RefStaleLease))
      else if event.Pointer? then
        if pointerFloor.Some? && sequence <= pointerFloor.value then Some(ObsoletePointer)
        else if !Active() then Some(NotAdmitted(RefRevoked))
        else None
      else
        match Admit(ledger.Model(), MAX_RETAINED_RECEIPTS, sequence).1
        case Ok(Admitted) => None
        case Ok(Completed(_)) => Some(Returned(answered[sequence]))
        case Ok(_) => Some(ConsumedUnanswered)
        case Err(e) => Some(NotAdmitted(RefSequence(e)))
    }

    /** A request is executed if and only if it is for this session and lease and is next:
        a pointer sample above everything executed by it, or exactly the action after the
        last answered one; and this owner still works. Every other request has its own
        answer: an action that was answered gets the same answer again while it is among
        the last retained ones, and a gap names the next action. */
    lemma SettledExactly(request: Request)
      requires Valid()
      ensures var r := Settled(request); var n := request.sequence;
        var ours := request.credentials.session == session && request.credentials.lease == lease;
        && (r.None? <==>
           ours && if request.event.Pointer? then Active() && (pointerFloor.Some? ==> pointerFloor.value < n)
                   else !ledger.fenced && n == |answered|)
        && (request.credentials.session != session ==> r == Some(NotAdmitted(RefStaleSession)))
        && (!ours && request.credentials.session == session ==> r == Some(NotAdmitted(RefStaleLease)))
        && (ours && request.event.Pointer? && pointerFloor.Some? && n <= pointerFloor.value ==>
           r == Some(ObsoletePointer))
        && (ours && !request.event.Pointer? && n < |answered| ==>
           r == Some(if |answered| - n <= MAX_RETAINED_RECEIPTS then Returned(answered[n]) else ConsumedUnanswered))
        && (ours && !request.event.Pointer? && ledger.fenced && |answered| <= n ==>
           r == Some(NotAdmitted(RefSequence(SequenceError.Fenced))))
        && (ours && !request.event.Pointer? && !ledger.fenced && |answered| < n ==>
           r == Some(NotAdmitted(RefSequence(SequenceGap(|answered|, n)))))
    {
      hide Safe, Marked;
    }

    /** Admission of a request: an answer, or leave to execute. */
    method AdmitRequest(request: Request) returns (r: Option<Dispatched>)
      requires Valid()
      modifies this`revoked, this`pointerFloor, ledger
      ensures r == old(Settled(request)) && Safe() && Rings() && Marked()
        && (!ledger.fenced ==> wheel.None? && moved == cumulative)
      ensures r.Some? ==> ledger.pending.None? && pointerFloor == old(pointerFloor) && (old(revoked) ==> revoked)
      ensures r.Some? && !ledger.fenced ==> FloorMarked()
      ensures r.None? ==> FloorMarked() || (request.event.Pointer? && pointerFloor == Some(request.sequence))
      ensures r.Some? && r.value.NotAdmitted? && r.value.refusal.RefSequence? ==> revoked && ledger.fenced
      ensures r.None? ==>
        !ledger.fenced && ledger.pending == if request.event.Pointer? then None else Some(request.sequence)
      ensures r.None? ==> revoked == old(revoked) && (request.event.Pointer? ==> MarkFits(request))
    {
      hide Apply, Inv, ApplyAll, Released, Authorized, Recorded, Covers, ConfirmedFor, Safe;
      var Request(credentials, sequence, event) := request;
      if credentials.session != session { return Some(NotAdmitted(RefStaleSession)); }
      if credentials.lease != lease { return Some(NotAdmitted(RefStaleLease)); }
      if event.Pointer? {
        if pointerFloor.Some? && sequence <= pointerFloor.value { return Some(ObsoletePointer); }
        if !Active() { return Some(NotAdmitted(RefRevoked)); }
        pointerFloor := Some(sequence);
        return None;
      }
      var admission := ledger.AdmitAction(lease, sequence);
      match admission {
        case Ok(Admitted) => r := None;
        case Ok(Completed(_)) =>
          var found := FindAnswer(sequence);
          r := Some(if found.Some? then Returned(found.value) else ConsumedUnanswered);
        case Ok(_) => r := Some(ConsumedUnanswered);
        case Err(e) =>
          if ledger.fenced { Revoke(); }
          r := Some(NotAdmitted(RefSequence(e)));
      }
    }

    /** One request of the viewer. Executed requests follow their plan; every other
        request is answered without touching the system. */
    method Dispatch(request: Request, start: Sample, tape: Tape, backend: Backend, others: seq<Other>)
      returns (r: Dispatched, ghost o: Outcome)
      requires Valid() && ForeignSample(owner, start) && ForeignTape(owner, tape) && Foreign(owner, others)
      modifies this, authority, keys, buttons, ledger, ledger.receipts, receipts
      ensures Valid() && (o.Ran? <==> old(Settled(request)).None?)
      ensures o.NotRun? ==>
        && r == old(Settled(request)).value && log == old(log) && Mirrored() == old(Mirrored()) && down == old(down)
        && answered == old(answered) && marks == old(marks) && Facts() == old(Facts())
      ensures r.NotAdmitted? && r.refusal.RefSequence? ==> revoked && ledger.fenced
      ensures o.Ran? ==>
        && Truthful(o, Plan(request.event, old(cumulative), backend))
        && Explained(this, request.credentials, o, EventFault(old(Facts()), request.event, backend), start, tape)
        && Traced(|o.confirmed|, |Plan(request.event, old(cumulative), backend)|, o.flow, tape,
             && Undisturbed(start, tape, others) && old(Usable(request.credentials, start.now))
             && EventFault(old(Facts()), request.event, backend).None?)
        && Followed(Plan(request.event, old(cumulative), backend), old(Mirrored()), old(log), o.confirmed, o.uncertain)
        && |old(log)| <= |log|
        && Meant(request.event, OpsOf(log[|old(log)|..]), old(cumulative), backend, o.flow.Done?)
        && (EventFault(old(Facts()), request.event, backend).Some? ==>
           !o.flow.Done? && o.confirmed == [] && !o.uncertain)
        && (o.flow.Done? ==> (mode, modeEpoch, cumulative) == PointerAfter(old(Facts()), request.event))
        && (if o.flow.Done? then !ledger.fenced else revoked && ledger.fenced)
        && r == (if o.flow.Unwound? then Panicked
           else Returned(ReceiptOf(request.sequence, o.flow, |o.confirmed|, o.uncertain)))
        && Stamped(old(log), old(calls), request.credentials.ticket)
        && answered == old(answered) + (if request.event.Pointer? then []
                                        else [ReceiptOf(request.sequence, o.flow, |o.confirmed|, o.uncertain)])
        && marks == old(marks) + (if o.confirmed != [] || o.uncertain then MarkOf(request) else [])
      ensures old(revoked) ==> log == old(log) && revoked && (o.Ran? ==> !o.flow.Done?)
    {
      hide Apply, Inv, ApplyAll, Released, Authorized, Recorded, Covers, ConfirmedFor, Plan, EventFault, PointerAfter,
        Followed, Rings, Safe, Marked, ReceiptOf, Settled, MarkFits, Shape, Meant, FloorMarked;
      HasShape();
      var settled := AdmitRequest(request);
      if settled.Some? {
        return settled.value, NotRun;
      }
      r, o := ExecuteAndRecord(this, request, start, tape, backend, others);
      FollowedMeans(old(Facts()), request.event, backend, old(Mirrored()), old(log), o);
    }
  }

  /** Everything at a place begins with a move there. */
  lemma PlanMoves(e: Event, from: Position, backend: Backend)
    ensures e.Pointer? || HasBarrier(e) ==> Plan(e, from, backend) != []
  {}

  lemma OnlyDoneSucceeds(sequence: u64, flow: Flow, submitted: nat, uncertain: bool)
    ensures Succeeded(ReceiptOf(sequence, flow, submitted, uncertain).outcome) <==> flow.Done? && !uncertain
    ensures ReceiptOf(sequence, flow, submitted, uncertain).sequence == sequence
  {}

  /** The receipt says what happened, and nothing was executed beyond the plan. */
  ghost predicate Truthful(o: Outcome, plan: seq<Operation>) {
    && o.Ran? && |o.confirmed| <= |plan| && o.confirmed == plan[..|o.confirmed|]
    && (o.uncertain ==> |o.confirmed| < |plan| && !o.flow.Done?)
    && (o.flow.Done? ==> o.confirmed == plan)
    && (o.flow.Stopped? && plan != [] ==> |o.confirmed| < |plan|)
    && (o.flow.Stopped? && o.uncertain ==> o.flow.refusal == RefUnknownEffect)
  }

  /** Why an executed request did not complete: its event, a check, or the sink at the
      operation after the last confirmed one, or a panic just behind that one. */
  ghost predicate Explained(s: InputSession, credentials: Credentials, o: Outcome, fault: Option<Fault>, start: Sample,
                            tape: Tape)
    requires o.Ran?
    reads s`revoked, s`view, s.ledger`fenced
  {
    var k := |o.confirmed|;
    && (o.flow.Stopped? ==>
         || (fault.Some? && o.flow.refusal == RefEvent(fault.value)) || s.Refuses(credentials, o.flow.refusal)
         || Said(tape(k), o.flow.refusal))
    && (o.flow.Unwound? ==> start.unwinds || Unwinding(tape(k)) || (k > 0 && tape(k - 1).cancelUnwinds))
  }

  /** Execute an admitted request, up to its answer. */
  method ExecuteAdmitted(s: InputSession, request: Request, start: Sample, tape: Tape, backend: Backend,
                         others: seq<Other>)
    returns (flow: Flow, submitted: nat, uncertain: bool, ghost o: Outcome)
    requires s.Safe() && s.Marked() && s.wheel.None? && s.moved == s.cumulative
    requires request.event.Pointer? ==> s.MarkFits(request)
    requires s.FloorMarked() || (request.event.Pointer? && s.pointerFloor == Some(request.sequence))
    requires ForeignSample(s.owner, start) && ForeignTape(s.owner, tape) && Foreign(s.owner, others)
    modifies s.authority, s.keys, s.buttons
    modifies s`revoked, s`calls, s`resumed, s`view, s`clock, s`down, s`log, s`moved, s`wheel, s`marks
    modifies s`pointerFloor, s`mode, s`modeEpoch, s`cumulative
    ensures s.Safe() && s.Marked() && (flow.Done? ==> s.wheel.None? && s.moved == s.cumulative && s.FloorMarked())
    ensures o.Ran? && o.uncertain == uncertain && o.flow == flow && submitted == |o.confirmed|
    ensures Truthful(o, Plan(request.event, old(s.cumulative), backend))
    ensures s.Stamped(old(s.log), old(s.calls), request.credentials.ticket)
    ensures Explained(s, request.credentials, o, EventFault(old(s.Facts()), request.event, backend), start, tape)
    ensures Traced(|o.confirmed|, |Plan(request.event, old(s.cumulative), backend)|, o.flow, tape,
      && Undisturbed(start, tape, others) && old(s.Usable(request.credentials, start.now))
      && EventFault(old(s.Facts()), request.event, backend).None?)
    ensures s.Followed(Plan(request.event, old(s.cumulative), backend), old(s.Mirrored()), old(s.log), o.confirmed,
      uncertain)
    ensures EventFault(old(s.Facts()), request.event, backend).Some? ==> !flow.Done? && o.confirmed == [] && !uncertain
    ensures flow.Done? ==> (s.mode, s.modeEpoch, s.cumulative) == PointerAfter(old(s.Facts()), request.event)
    ensures old(s.revoked) ==> s.log == old(s.log) && !flow.Done?
    ensures s.marks == old(s.marks) + if o.confirmed != [] || uncertain then InputSession.MarkOf(request) else []
  {
    hide Apply, Inv, ApplyAll, Released, InputSession.Authorized, InputSession.Recorded, Covers, ConfirmedFor, Plan,
      EventFault, PointerAfter, InputSession.Followed, Smooth, InputSession.Usable, CalmTape, Said, Unwinding,
      InputSession.Safe;
    s.HasShape();
    var a := new Attempt(s, request);
    flow := a.Execute(start, tape, backend, others);
    submitted, uncertain := a.submitted, a.uncertain;
    o := Ran(a.confirmed, a.uncertain, flow);
    s.FollowedPrefix(Plan(request.event, old(s.cumulative), backend), old(s.Mirrored()), old(s.log), a.confirmed,
      a.uncertain);
    assert s.Marked();
    PlanMoves(request.event, old(s.cumulative), backend);
    if a.confirmed != [] || a.uncertain { s.AddMark(request); }
    if flow.Done? { s.FloorStays(old(s.pointerFloor), old(s.marks), request, a.confirmed != []); }
  }

  /** Execute an admitted request, then record its answer. */
  method ExecuteAndRecord(s: InputSession, request: Request, start: Sample, tape: Tape, backend: Backend,
                          others: seq<Other>)
    returns (r: Dispatched, ghost o: Outcome)
    requires s.Safe() && s.Rings() && s.Marked() && s.wheel.None? && s.moved == s.cumulative && !s.ledger.fenced
    requires s.ledger.pending == if request.event.Pointer? then None else Some(request.sequence)
    requires request.event.Pointer? ==> s.MarkFits(request)
    requires s.FloorMarked() || (request.event.Pointer? && s.pointerFloor == Some(request.sequence))
    requires ForeignSample(s.owner, start) && ForeignTape(s.owner, tape) && Foreign(s.owner, others)
    modifies s, s.authority, s.keys, s.buttons, s.ledger, s.ledger.receipts, s.receipts
    ensures s.Valid() && Truthful(o, Plan(request.event, old(s.cumulative), backend))
    ensures s.Stamped(old(s.log), old(s.calls), request.credentials.ticket)
    ensures Explained(s, request.credentials, o, EventFault(old(s.Facts()), request.event, backend), start, tape)
    ensures Traced(|o.confirmed|, |Plan(request.event, old(s.cumulative), backend)|, o.flow, tape,
      && Undisturbed(start, tape, others) && old(s.Usable(request.credentials, start.now))
      && EventFault(old(s.Facts()), request.event, backend).None?)
    ensures s.Followed(Plan(request.event, old(s.cumulative), backend), old(s.Mirrored()), old(s.log), o.confirmed,
      o.uncertain)
    ensures EventFault(old(s.Facts()), request.event, backend).Some? ==>
      !o.flow.Done? && o.confirmed == [] && !o.uncertain
    ensures o.flow.Done? ==> (s.mode, s.modeEpoch, s.cumulative) == PointerAfter(old(s.Facts()), request.event)
    ensures old(s.revoked) ==> s.log == old(s.log) && s.revoked && !o.flow.Done?
    ensures r == if o.flow.Unwound? then Panicked
      else Returned(ReceiptOf(request.sequence, o.flow, |o.confirmed|, o.uncertain))
    ensures s.answered == old(s.answered) + if request.event.Pointer? then []
                                            else [ReceiptOf(request.sequence, o.flow, |o.confirmed|, o.uncertain)]
    ensures if o.flow.Done? then !s.ledger.fenced else s.revoked && s.ledger.fenced
    ensures s.marks == old(s.marks) + if o.confirmed != [] || o.uncertain then InputSession.MarkOf(request) else []
  {
    hide Apply, Inv, ApplyAll, Released, InputSession.Authorized, InputSession.Recorded, Covers, ConfirmedFor, Plan,
      EventFault, PointerAfter, InputSession.Followed, InputSession.Rings, InputSession.Safe, InputSession.Marked,
      ReceiptOf, Succeeded;
    var flow, submitted, uncertain;
    flow, submitted, uncertain, o := ExecuteAdmitted(s, request, start, tape, backend, others);
    OnlyDoneSucceeds(request.sequence, flow, submitted, uncertain);
    var receipt := ReceiptOf(request.sequence, flow, submitted, uncertain);
    s.RecordAnswer(receipt, request.event.Pointer?);
    r := if flow.Unwound? then Panicked else Returned(receipt);
  }

  /** One request being executed on behalf of its owner. */
  class Attempt {
    const owner: InputSession
    const request: Request
    var submitted: nat
    var uncertain: bool
    /** The calls on the authority before this attempt. */
    ghost const was: seq<Call>
    /** The operations confirmed so far. */
    ghost var confirmed: seq<Operation>

    constructor (owner: InputSession, request: Request)
      ensures this.owner == owner && this.request == request && submitted == 0 && !uncertain && confirmed == []
      ensures was == owner.calls
    {
      this.owner, this.request, submitted, uncertain, confirmed := owner, request, 0, false, [];
      was := owner.calls;
    }

    /** Track a press before the call, and a release only after it. */
    method Track(op: Operation, before: bool)
      requires owner.Shape()
      modifies owner`wheel, owner.keys, owner.buttons
      ensures owner.Shape()
      ensures owner.Mirrored() == if before then Assume(old(owner.Mirrored()), op)
        else Confirm(old(owner.Mirrored()), op)
    {
      match op {
        case OpWheel(d, pressed) =>
          if pressed { owner.wheel := Some(d); } else if !before { owner.wheel := None; }
        case OpKey(key, t) =>
          if t == Press { owner.keys[key] := true; } else if t == Release && !before { owner.keys[key] := false; }
        case OpButton(b, pressed) =>
          if pressed { owner.buttons[b] := true; } else if !before { owner.buttons[b] := false; }
        case _ =>
      }
    }

    /** Put pessimistic tracking back after a confirmed absence of the call. */
    method Restore(op: Operation, held: bool, wheel: Option<WheelDirection>, ghost m: Mirror)
      requires owner.Shape() && m.Shaped() && owner.Mirrored() == Assume(m, op) && wheel == m.wheel
      requires op.OpKey? ==> held == m.keys[op.key]
      requires op.OpButton? ==> held == m.buttons[op.button]
      modifies owner`wheel, owner.keys, owner.buttons
      ensures owner.Shape() && owner.Mirrored() == m
    {
      match op {
        case OpWheel(d, pressed) => if pressed { owner.wheel := wheel; }
        case OpKey(key, t) => if t == Press { owner.keys[key] := held; assert owner.keys[..] == m.keys; }
        case OpButton(b, pressed) => if pressed { owner.buttons[b] := held; assert owner.buttons[..] == m.buttons; }
        case _ =>
      }
    }

    /** The system sees the call; other threads may act before and after. */
    method NativeCall(op: Operation, cell: Cell, ghost m: Mirror, ghost at: u64)
      requires owner.Safe() && ForeignCell(owner.owner, cell)
      requires m.Shaped() && WheelReady(m, op) && Covers(m, owner.down) && owner.Mirrored() == Assume(m, op)
      requires !ConfirmedFor(owner.authority.State(), owner.owner)
      requires owner.calls != [] && !owner.revoked
      requires owner.Authorized(Checked(op, owner.calls[..|owner.calls| - 1], at, request.credentials.ticket,
        owner.revoked))
      modifies owner.authority, owner`revoked, owner`calls, owner`resumed, owner`down, owner`log, owner`moved
      ensures owner.Safe() && !ConfirmedFor(owner.authority.State(), owner.owner)
      ensures owner.down == OsAfter(old(owner.down), op, cell.result)
      ensures owner.log == old(owner.log) + if MayHaveHappened(cell.result)
        then [Checked(op, old(owner.calls)[..|old(owner.calls)| - 1], at, request.credentials.ticket, false)] else []
      ensures owner.moved == if cell.result.Submitted? then Shift(old(owner.moved), op) else old(owner.moved)
      ensures old(owner.calls) <= owner.calls
      ensures cell.during == [] && cell.afterwards == [] ==>
        unchanged(owner.authority) && owner.revoked == old(owner.revoked)
    {
      hide Apply, Inv, ApplyAll, Released, InputSession.Authorized, InputSession.Recorded;
      ghost var entry := Checked(op, owner.calls[..|owner.calls| - 1], at, request.credentials.ticket, false);
      owner.Interfere(cell.during);
      TrackingCovers(m, owner.down, op, if MayHaveHappened(cell.result) then cell.result else Unknown);
      owner.down := OsAfter(owner.down, op, cell.result);
      if MayHaveHappened(cell.result) { owner.Note(entry); }
      if cell.result.Submitted? { owner.moved := Shift(owner.moved, op); }
      owner.Interfere(cell.afterwards);
    }

    ghost predicate Ready()
      reads this, owner`wheel, owner`calls, owner`down, owner`log, owner`resumed, owner.keys, owner.buttons,
        owner.authority
    {
      owner.Safe() && submitted == |confirmed| && !uncertain && was <= owner.calls
    }

    /** One checked call of `op` was added to the record. */
    ghost predicate Appends(before: seq<Native>, op: Operation)
      reads owner`log
    {
      && |owner.log| == |before| + 1 && before <= owner.log
      && var e := owner.log[|before|];
         e.Checked? && e.op == op && e.ticket == request.credentials.ticket && was <= e.calls
    }

    /** The call itself, once finally authorised: assumed, entered, then confirmed,
        left assumed, or put back. */
    method Enter(op: Operation, cell: Cell, previous: bool, previousWheel: Option<WheelDirection>, ghost m: Mirror,
                 ghost at: u64)
      returns (r: Flow)
      requires Ready() && WheelReady(m, op) && ForeignCell(owner.owner, cell) && owner.Mirrored() == m
      requires previousWheel == m.wheel && |owner.calls| > 0 && was <= owner.calls[..|owner.calls| - 1]
      requires (op.OpKey? ==> previous == m.keys[op.key]) && (op.OpButton? ==> previous == m.buttons[op.button])
      requires !ConfirmedFor(owner.authority.State(), owner.owner) && owner.calls != [] && !owner.revoked
      requires owner.Authorized(Checked(op, owner.calls[..|owner.calls| - 1], at, request.credentials.ticket,
        owner.revoked))
      modifies this, owner.authority, owner.keys, owner.buttons
      modifies owner`revoked, owner`calls, owner`resumed, owner`down, owner`log, owner`moved, owner`wheel
      ensures was <= owner.calls
      ensures owner.Safe() && submitted == |confirmed|
      ensures confirmed == if cell.result.Submitted? then old(confirmed) + [op] else old(confirmed)
      ensures uncertain <==> cell.result.Unknown? || cell.result.Unwinds?
      ensures owner.Mirrored() == if cell.result.Submitted? then Confirm(m, op) else if uncertain then Assume(m, op)
        else m
      ensures owner.moved == if cell.result.Submitted? then Shift(old(owner.moved), op) else old(owner.moved)
      ensures if MayHaveHappened(cell.result)
              then Appends(old(owner.log), op) else owner.log == old(owner.log)
      ensures r == if cell.cancelUnwinds then Unwound else Classify(cell.result)
      ensures cell.during == [] && cell.afterwards == [] ==>
        unchanged(owner.authority) && owner.revoked == old(owner.revoked)
    {
      hide Apply, Inv, ApplyAll, Released, InputSession.Authorized, InputSession.Recorded, Classify, Covers,
        ConfirmedFor, Confirm, Assume, OsAfter;
      AssumeThenConfirm(m, op, owner.down);
      Track(op, true);
      uncertain := true;
      NativeCall(op, cell, m, at);
      TrackingCovers(m, old(owner.down), op, cell.result);
      if cell.result.Submitted? {
        uncertain := false;
        submitted := submitted + 1;
        confirmed := confirmed + [op];
        Track(op, false);
      } else if !cell.result.Unknown? && !cell.result.Unwinds? {
        uncertain := false;
        Restore(op, previous, previousWheel, m);
      }
      r := if cell.cancelUnwinds then Unwound else Classify(cell.result);
    }

    /** The final check of a prepared operation, and the call if it passes. */
    method Authorise(op: Operation, cell: Cell, sampled: u64, ghost now: u64)
      returns (r: Flow, ghost checked: Result<u64, Refusal>)
      requires Ready() && owner.Permits(op) && WheelReady(owner.Mirrored(), op) && ForeignCell(owner.owner, cell)
      modifies this, owner.authority, owner.keys, owner.buttons
      modifies owner`revoked, owner`calls, owner`resumed, owner`view, owner`clock, owner`down, owner`log, owner`moved,
        owner`wheel
      ensures was <= owner.calls
      ensures owner.Safe() && submitted == |confirmed|
      ensures r == if cell.cancelUnwinds then Unwound else if checked.Err? then Stopped(checked.error)
        else Classify(cell.result)
      ensures checked.Err? ==> owner.Refuses(request.credentials, checked.error)
      ensures confirmed == old(confirmed) + if checked.Ok? && cell.result.Submitted? then [op] else []
      ensures uncertain <==> checked.Ok? && (cell.result.Unknown? || cell.result.Unwinds?)
      ensures old(!owner.Active()) ==> checked.Err?
      ensures owner.Mirrored() == if checked.Ok? && cell.result.Submitted? then Confirm(old(owner.Mirrored()), op)
                                  else if uncertain then Assume(old(owner.Mirrored()), op)
                                  else old(owner.Mirrored())
      ensures owner.moved == if checked.Ok? && cell.result.Submitted? then Shift(old(owner.moved), op)
                             else old(owner.moved)
      ensures if checked.Ok? && MayHaveHappened(cell.result)
              then Appends(old(owner.log), op) else owner.log == old(owner.log)
      ensures Calm(cell, now) && sampled == now && old(owner.Usable(request.credentials, now)) ==>
        checked.Ok? && owner.Usable(request.credentials, now)
    {
      hide Apply, Inv, ApplyAll, Released, InputSession.Authorized, InputSession.Recorded, Covers, ConfirmedFor,
        Confirm, Assume, InputSession.Safe, InputSession.Usable, Classify, InputSession.Accepted;
      owner.HasShape();
      ghost var m := owner.Mirrored();
      var previous := match op case OpKey(k, _) => owner.keys[k] case OpButton(b,
        _) => owner.buttons[b] case _ => false;
      var previousWheel := owner.wheel;
      ghost var at: u64;
      var verdict;
      verdict, at := owner.Check(request.credentials, sampled, cell.between);
      checked := verdict;
      if verdict.Err? { return if cell.cancelUnwinds then Unwound else Stopped(verdict.error), checked; }
      AuthorizedFor(op, at);
      r := Enter(op, cell, previous, previousWheel, m, at);
    }

    /** One native operation: prepared, finally authorised, submitted, tracked. */
    method One(op: Operation, cell: Cell, ghost now: u64) returns (r: Flow, ghost checked: Result<u64, Refusal>)
      requires Ready() && owner.Permits(op) && WheelReady(owner.Mirrored(), op) && ForeignCell(owner.owner, cell)
      modifies this, owner.authority, owner.keys, owner.buttons
      modifies owner`revoked, owner`calls, owner`resumed, owner`view, owner`clock, owner`down, owner`log, owner`moved,
        owner`wheel
      ensures was <= owner.calls
      ensures owner.Safe() && submitted == |confirmed| && r == Verdict(cell, checked)
      ensures cell.preparation.Prepared? && cell.preflight.Authorize? && checked.Err? ==>
        owner.Refuses(request.credentials, checked.error)
      ensures confirmed == old(confirmed) + if Confirms(cell) && checked.Ok? then [op] else []
      ensures r.Done? ==> confirmed == old(confirmed) + [op]
      ensures r.Stopped? ==> confirmed == old(confirmed)
      ensures uncertain ==> confirmed == old(confirmed) && !r.Done? && (r.Stopped? ==> r.refusal == RefUnknownEffect)
      ensures old(!owner.Active()) ==> confirmed == old(confirmed) && !uncertain
      ensures owner.Mirrored() == if confirmed != old(confirmed) then Confirm(old(owner.Mirrored()), op)
                                  else if uncertain then Assume(old(owner.Mirrored()), op)
                                  else old(owner.Mirrored())
      ensures owner.moved == if confirmed != old(confirmed) then Shift(old(owner.moved), op) else old(owner.moved)
      ensures if confirmed != old(confirmed) || uncertain
              then Appends(old(owner.log), op) else owner.log == old(owner.log)
      ensures Calm(cell, now) && old(owner.Usable(request.credentials, now)) ==>
        owner.Usable(request.credentials, now) && (Confirms(cell) ==> checked.Ok?)
    {
      hide Apply, Inv, ApplyAll, Released, InputSession.Authorized, InputSession.Recorded, Covers, ConfirmedFor,
        Confirm, Assume, InputSession.Safe, InputSession.Usable;
      owner.HasShape();
      checked := Err(RefRevoked);
      owner.Interfere(cell.before);
      match cell.preparation {
        case PreparationUnwinds => r := Unwound;
        case PreparationRefused(e) => r := if cell.cancelUnwinds then Unwound else Stopped(RefPlatform(e));
        case Prepared =>
          match cell.preflight {
            case PreflightUnwinds => r := Unwound;
            case PreflightRefused(e) => r := if cell.cancelUnwinds then Unwound else Stopped(e);
            case Authorize(sampled) => r, checked := Authorise(op, cell, sampled, now);
          }
      }
    }

    ghost predicate Follows(plan: seq<Operation>, m: Mirror, log: seq<Native>)
      requires m.Shaped()
      reads this, owner`wheel, owner`log, owner`calls, owner.keys, owner.buttons
    {
      && submitted == |confirmed| && owner.Followed(plan, m, log, confirmed, uncertain)
      && owner.Stamped(log, was, request.credentials.ticket)
    }

    /** An attempt that did not complete was ended by the sink or by a check, at the
        operation after the last confirmed one, or by a panic just behind that one. */
    ghost predicate Excused(r: Flow, tape: Tape, plan: seq<Operation>, calm: bool)
      reads this, owner`revoked, owner`view, owner.ledger`fenced
    {
      && Traced(|confirmed|, |plan|, r, tape, calm)
      && (r.Stopped? ==> Said(tape(|confirmed|), r.refusal) || owner.Refuses(request.credentials, r.refusal))
      && (r.Unwound? ==>
           (|confirmed| < |plan| && Unwinding(tape(|confirmed|)))
             || (confirmed != [] && tape(|confirmed| - 1).cancelUnwinds))
    }

    /** The world in which this attempt is left alone, with credentials that pass. */
    ghost predicate LeftAlone(tape: Tape, now: u64)
      reads this, owner`revoked, owner`view, owner`clock, owner.ledger`fenced, owner.authority
    {
      CalmTape(tape, now) && owner.Usable(request.credentials, now)
    }

    /** So far the sink has carried out every operation, without a panic. */
    ghost predicate Going(tape: Tape)
      reads this
    {
      Smooth(tape, |confirmed|) && (confirmed != [] ==> !tape(|confirmed| - 1).cancelUnwinds)
    }

    /** The next operation of the plan. */
    method Advance(op: Operation, tape: Tape, ghost plan: seq<Operation>, ghost m: Mirror, ghost log: seq<Native>,
                   ghost now: u64)
      returns (r: Flow)
      requires Ready() && m.Shaped() && Follows(plan, m, log) && |confirmed| < |plan| && op == plan[|confirmed|]
      requires owner.Permits(op)
      requires WheelReady(owner.Mirrored(), op) && ForeignTape(owner.owner, tape) && Going(tape)
      modifies this, owner.authority, owner.keys, owner.buttons
      modifies owner`revoked, owner`calls, owner`resumed, owner`view, owner`clock, owner`down, owner`log, owner`moved,
        owner`wheel
      ensures owner.Safe() && Follows(plan, m, log)
      ensures |old(confirmed)| <= |confirmed| <= |old(confirmed)| + 1
      ensures r.Done? ==> |confirmed| == |old(confirmed)| + 1 && !uncertain && Going(tape)
      ensures r.Stopped? ==> confirmed == old(confirmed) && (uncertain ==> r.refusal == RefUnknownEffect)
      ensures old(!owner.Active()) ==> confirmed == old(confirmed) && !uncertain
      ensures owner.moved == if confirmed != old(confirmed) then Shift(old(owner.moved), op) else old(owner.moved)
      ensures !op.OpWheel? ==> owner.wheel == old(owner.wheel)
      ensures !r.Done? ==> Excused(r, tape, plan, old(LeftAlone(tape, now)))
      ensures old(LeftAlone(tape, now)) ==> LeftAlone(tape, now)
    {
      hide Apply, Inv, ApplyAll, Released, InputSession.Authorized, InputSession.Recorded, Covers, ConfirmedFor,
        InputSession.Usable, Smooth, InputSession.Safe, ForeignCell, InputSession.Active;
      SmoothNext(tape, |confirmed|);
      SmoothNext(tape, |confirmed| + 1);
      assert CalmTape(tape, now) ==> Calm(tape(|confirmed|), now);
      ghost var checked;
      r, checked := One(op, tape(submitted), now);
      assert confirmed != old(confirmed) ==> confirmed[..|confirmed| - 1] == old(confirmed);
    }

    /** How far the attempt may have come when its event ended in `r`. */
    ghost predicate Ended(r: Flow, plan: seq<Operation>)
      reads this
    {
      && (r.Done? ==> |confirmed| == |plan| && !uncertain)
      && (r.Stopped? && plan != [] ==> |confirmed| < |plan|)
      && (r.Stopped? && uncertain ==> r.refusal == RefUnknownEffect)
    }

    method KeyTransition(key: PhysicalKey, t: Transition, tape: Tape, backend: Backend, ghost now: u64)
      returns (r: Flow)
      requires Ready() && confirmed == [] && ForeignTape(owner.owner, tape)
      modifies this, owner.authority, owner.keys, owner.buttons
      modifies owner`revoked, owner`calls, owner`resumed, owner`view, owner`clock, owner`down, owner`log, owner`moved,
        owner`wheel
      ensures owner.Safe() && Follows(Plan(Key(key, t), old(owner.cumulative), backend), old(owner.Mirrored()),
        old(owner.log))
      ensures Ended(r, Plan(Key(key, t), old(owner.cumulative), backend)) && owner.moved == old(owner.moved)
        && owner.wheel == old(owner.wheel)
      ensures old(!owner.Active()) ==> confirmed == [] && !uncertain
      ensures var fault := EventFault(old(owner.Facts()), Key(key, t), backend);
        if fault.Some? then r == Stopped(RefEvent(fault.value)) && confirmed == [] && !uncertain
        else Excused(r, tape, Plan(Key(key, t), old(owner.cumulative), backend), old(LeftAlone(tape, now)))
    {
      hide Apply, Inv, ApplyAll, Released, InputSession.Authorized, InputSession.Recorded, Covers, ConfirmedFor,
        LeftAlone, ForeignTape, Smooth, Said, Unwinding;
      SmoothNothing(tape);
      ghost var m, log, plan := owner.Mirrored(), owner.log, Plan(Key(key, t), owner.cumulative, backend);
      if CapKeys !in owner.capabilities { return Stopped(RefEvent(FaultUnsupported)); }
      assert owner.Shape() && IsKey(key);
      var held := owner.keys[key];
      if t == Repeat && CapRepeat !in owner.capabilities { return Stopped(RefEvent(FaultUnsupported)); }
      if (t == Repeat && !held) || (t == Press && held) || (t == Release && !held) {
        return Stopped(RefEvent(FaultInvalidTransition));
      }
      if t == Repeat && backend.repeatPair {
        r := Advance(OpKey(key, Release), tape, plan, m, log, now);
        if !r.Done? { return; }
        r := Advance(OpKey(key, Press), tape, plan, m, log, now);
      } else {
        r := Advance(OpKey(key, t), tape, plan, m, log, now);
      }
    }

    /** One step of the wheel: a press and a release, through one free slot. */
    method WheelStep(d: WheelDirection, tape: Tape, ghost plan: seq<Operation>, ghost m: Mirror,
                     ghost log: seq<Native>, ghost now: u64)
      returns (r: Flow)
      requires Ready() && m.Shaped() && Follows(plan, m, log) && owner.wheel.None? && |confirmed| + 1 < |plan|
      requires plan[|confirmed|] == OpWheel(d, true) && plan[|confirmed| + 1] == OpWheel(d, false)
      requires CapLineScroll in owner.capabilities
      requires ForeignTape(owner.owner, tape) && Going(tape)
      modifies this, owner.authority, owner.keys, owner.buttons
      modifies owner`revoked, owner`calls, owner`resumed, owner`view, owner`clock, owner`down, owner`log, owner`moved,
        owner`wheel
      ensures owner.Safe() && Follows(plan, m, log) && owner.moved == old(owner.moved)
      ensures r.Done? ==> |confirmed| == |old(confirmed)| + 2 && !uncertain && owner.wheel.None? && Going(tape)
      ensures |old(confirmed)| <= |confirmed| <= |old(confirmed)| + 2
      ensures r.Stopped? ==> |confirmed| < |old(confirmed)| + 2 && (uncertain ==> r.refusal == RefUnknownEffect)
      ensures !r.Done? ==> Excused(r, tape, plan, old(LeftAlone(tape, now)))
      ensures old(LeftAlone(tape, now)) ==> LeftAlone(tape, now)
    {
      hide Apply, Inv, ApplyAll, Released, InputSession.Authorized, InputSession.Recorded, Covers, ConfirmedFor,
        LeftAlone, Going, ForeignTape, Smooth, Said, Unwinding;
      assert plan[..|confirmed| + 1][..|confirmed|] == plan[..|confirmed|];
      r := Advance(OpWheel(d, true), tape, plan, m, log, now);
      if !r.Done? { return; }
      assert owner.wheel == Some(d);
      r := Advance(OpWheel(d, false), tape, plan, m, log, now);
      assert r.Done? ==> confirmed[..|confirmed| - 1] == plan[..|confirmed| - 1];
    }

    method WheelSteps(steps: seq<WheelDirection>, tape: Tape, p: DesktopPoint, ghost m: Mirror, ghost log: seq<Native>,
                      ghost now: u64)
      returns (r: Flow)
      requires Ready() && m.Shaped() && m.wheel.None? && ForeignTape(owner.owner, tape)
      requires CapLineScroll in owner.capabilities
      requires Follows([OpAbsolute(p)] + WheelOps(steps), m, log) && confirmed == [OpAbsolute(p)]
      requires Going(tape)
      modifies this, owner.authority, owner.keys, owner.buttons
      modifies owner`revoked, owner`calls, owner`resumed, owner`view, owner`clock, owner`down, owner`log, owner`moved,
        owner`wheel
      ensures owner.Safe() && Follows([OpAbsolute(p)] + WheelOps(steps), m, log)
        && Ended(r, [OpAbsolute(p)] + WheelOps(steps))
      ensures owner.moved == old(owner.moved) && (r.Done? ==> owner.wheel.None?)
      ensures Excused(r, tape, [OpAbsolute(p)] + WheelOps(steps), old(LeftAlone(tape, now)))
    {
      hide Apply, Inv, ApplyAll, Released, InputSession.Authorized, InputSession.Recorded, Covers, ConfirmedFor;
      ghost var plan := [OpAbsolute(p)] + WheelOps(steps);
      assert confirmed[..|confirmed| - 1] == [];
      assert owner.Mirrored() == ConfirmAll(m, confirmed) == m;
      hide InputSession.Followed, InputSession.Safe;
      var i := 0;
      while i < |steps|
        invariant 0 <= i <= |steps| && Ready() && Follows(plan, m, log)
        invariant |confirmed| == 1 + 2 * i && owner.wheel.None? && owner.moved == old(owner.moved)
        invariant Going(tape) && (old(LeftAlone(tape, now)) ==> LeftAlone(tape, now))
      {
        WheelOpsAt(steps, i);
        assert plan[1 + 2 * i] == OpWheel(steps[i], true) && plan[2 + 2 * i] == OpWheel(steps[i], false);
        r := WheelStep(steps[i], tape, plan, m, log, now);
        if !r.Done? { return; }
        i := i + 1;
      }
      r := Done;
    }

    method RunPointer(tape: Tape, backend: Backend, ghost now: u64) returns (r: Flow)
      requires Ready() && confirmed == [] && ForeignTape(owner.owner, tape) && request.event.Pointer?
      modifies this, owner.authority, owner.keys, owner.buttons
      modifies owner`revoked, owner`calls, owner`resumed, owner`view, owner`clock, owner`down, owner`log, owner`moved,
        owner`wheel
      ensures owner.Safe() && Follows(Plan(request.event, old(owner.cumulative), backend), old(owner.Mirrored()),
        old(owner.log))
      ensures Ended(r, Plan(request.event, old(owner.cumulative), backend))
      ensures old(!owner.Active()) ==> confirmed == [] && !uncertain
      ensures var fault := EventFault(old(owner.Facts()), request.event, backend);
        if fault.Some? then r == Stopped(RefEvent(fault.value)) && confirmed == [] && !uncertain
        else Excused(r, tape, Plan(request.event, old(owner.cumulative), backend), old(LeftAlone(tape, now)))
      ensures owner.moved == old(owner.moved) && owner.wheel == old(owner.wheel)
    {
      hide Apply, Inv, ApplyAll, Released, InputSession.Authorized, InputSession.Recorded, Covers, ConfirmedFor,
        LeftAlone, ForeignTape, Smooth, Said, Unwinding;
      SmoothNothing(tape);
      ghost var m, log, plan := owner.Mirrored(), owner.log, Plan(request.event, owner.cumulative, backend);
      var fault := PositionFault(owner.Facts(), request.event.position);
      if fault.Some? { return Stopped(RefEvent(fault.value)); }
      r := Advance(OpAbsolute(request.event.position), tape, plan, m, log, now);
    }

    method RunButton(tape: Tape, backend: Backend, ghost now: u64) returns (r: Flow)
      requires Ready() && confirmed == [] && ForeignTape(owner.owner, tape) && request.event.Button?
      modifies this, owner.authority, owner.keys, owner.buttons
      modifies owner`revoked, owner`calls, owner`resumed, owner`view, owner`clock, owner`down, owner`log, owner`moved,
        owner`wheel
      modifies owner`pointerFloor
      ensures owner.Safe() && Follows(Plan(request.event, old(owner.cumulative), backend), old(owner.Mirrored()),
        old(owner.log))
      ensures Ended(r, Plan(request.event, old(owner.cumulative), backend))
      ensures old(!owner.Active()) ==> confirmed == [] && !uncertain
      ensures var fault := EventFault(old(owner.Facts()), request.event, backend);
        if fault.Some? then r == Stopped(RefEvent(fault.value)) && confirmed == [] && !uncertain
        else Excused(r, tape, Plan(request.event, old(owner.cumulative), backend), old(LeftAlone(tape, now)))
      ensures owner.moved == old(owner.moved) && owner.wheel == old(owner.wheel)
      ensures owner.pointerFloor == old(owner.pointerFloor)
        || owner.pointerFloor == Raised(old(owner.pointerFloor), request.event.barrier)
      ensures confirmed != [] || uncertain ==>
        owner.pointerFloor == Raised(old(owner.pointerFloor), request.event.barrier)
    {
      hide Apply, Inv, ApplyAll, Released, InputSession.Authorized, InputSession.Recorded, Covers, ConfirmedFor,
        LeftAlone, ForeignTape, Smooth, Said, Unwinding;
      SmoothNothing(tape);
      ghost var m, log, plan := owner.Mirrored(), owner.log, Plan(request.event, owner.cumulative, backend);
      var Button(b, pressed, p, barrier) := request.event;
      if CapButtons !in owner.capabilities { return Stopped(RefEvent(FaultUnsupported)); }
      var fault := PositionFault(owner.Facts(), p);
      if fault.Some? { return Stopped(RefEvent(fault.value)); }
      assert owner.Shape();
      if owner.buttons[b] == pressed { return Stopped(RefEvent(FaultInvalidTransition)); }
      owner.Barrier(barrier);
      r := Advance(OpAbsolute(p), tape, plan, m, log, now);
      if !r.Done? { return; }
      r := Advance(OpButton(b, pressed), tape, plan, m, log, now);
    }

    method RunScroll(tape: Tape, backend: Backend, ghost now: u64) returns (r: Flow)
      requires Ready() && confirmed == [] && ForeignTape(owner.owner, tape) && request.event.Scroll?
        && owner.wheel.None?
      modifies this, owner.authority, owner.keys, owner.buttons
      modifies owner`revoked, owner`calls, owner`resumed, owner`view, owner`clock, owner`down, owner`log, owner`moved,
        owner`wheel
      modifies owner`pointerFloor
      ensures owner.Safe() && Follows(Plan(request.event, old(owner.cumulative), backend), old(owner.Mirrored()),
        old(owner.log))
      ensures Ended(r, Plan(request.event, old(owner.cumulative), backend))
      ensures old(!owner.Active()) ==> confirmed == [] && !uncertain
      ensures var fault := EventFault(old(owner.Facts()), request.event, backend);
        if fault.Some? then r == Stopped(RefEvent(fault.value)) && confirmed == [] && !uncertain
        else Excused(r, tape, Plan(request.event, old(owner.cumulative), backend), old(LeftAlone(tape, now)))
      ensures owner.moved == old(owner.moved)
      ensures owner.pointerFloor == old(owner.pointerFloor)
        || owner.pointerFloor == Raised(old(owner.pointerFloor), request.event.barrier)
      ensures confirmed != [] || uncertain ==>
        owner.pointerFloor == Raised(old(owner.pointerFloor), request.event.barrier)
      ensures r.Done? ==> owner.wheel.None?
    {
      hide Apply, Inv, ApplyAll, Released, InputSession.Authorized, InputSession.Recorded, Covers, ConfirmedFor,
        LeftAlone, ForeignTape, Smooth, Said, Unwinding;
      SmoothNothing(tape);
      ghost var m, log, plan := owner.Mirrored(), owner.log, Plan(request.event, owner.cumulative, backend);
      var Scroll(p, barrier, dx, dy, unit) := request.event;
      if (if unit == Pixels then CapPixelScroll else CapLineScroll) !in owner.capabilities {
        return Stopped(RefEvent(FaultUnsupported));
      }
      var fault := PositionFault(owner.Facts(), p);
      if fault.Some? { return Stopped(RefEvent(fault.value)); }
      var discrete := if unit == Lines && backend.linePairs then LineScroll(dx, dy) else None;
      if unit == Lines && backend.linePairs && discrete.None? { return Stopped(RefEvent(FaultUnsupported)); }
      owner.Barrier(barrier);
      r := MoveAndScroll(tape, p, OpScroll(dx, dy, unit), discrete, plan, m, log, now);
    }

    /** A move, then the scroll itself or its separate steps. */
    method MoveAndScroll(tape: Tape, p: DesktopPoint, op: Operation, discrete: Option<seq<WheelDirection>>,
                         ghost plan: seq<Operation>, ghost m: Mirror, ghost log: seq<Native>, ghost now: u64)
      returns (r: Flow)
      requires Ready() && confirmed == [] && ForeignTape(owner.owner, tape) && Going(tape) && op.OpScroll?
      requires m.Shaped() && m.wheel.None? && m == owner.Mirrored() && Follows(plan, m, log)
      requires plan == [OpAbsolute(p)] + if discrete.Some? then WheelOps(discrete.value) else [op]
      requires owner.Permits(OpAbsolute(p)) && owner.Permits(op)
      requires discrete.Some? ==> CapLineScroll in owner.capabilities
      modifies this, owner.authority, owner.keys, owner.buttons
      modifies owner`revoked, owner`calls, owner`resumed, owner`view, owner`clock, owner`down, owner`log, owner`moved,
        owner`wheel
      ensures owner.Safe() && Follows(plan, m, log) && Ended(r, plan)
        && Excused(r, tape, plan, old(LeftAlone(tape, now)))
      ensures old(!owner.Active()) ==> confirmed == [] && !uncertain
      ensures owner.moved == old(owner.moved) && (r.Done? ==> owner.wheel.None?)
    {
      hide Apply, Inv, ApplyAll, Released, InputSession.Authorized, InputSession.Recorded, Covers, ConfirmedFor,
        LeftAlone, ForeignTape, Smooth, Said, Unwinding;
      r := Advance(OpAbsolute(p), tape, plan, m, log, now);
      if !r.Done? { return; }
      assert confirmed == [OpAbsolute(p)];
      if discrete.Some? {
        r := WheelSteps(discrete.value, tape, p, m, log, now);
      } else {
        assert confirmed[..|confirmed| - 1] == [];
        assert owner.Mirrored() == ConfirmAll(m, confirmed) == m;
        r := Advance(op, tape, plan, m, log, now);
        assert r.Done? ==> confirmed[..|confirmed| - 1] == [OpAbsolute(p)];
      }
    }

    method RunText(tape: Tape, backend: Backend, ghost now: u64) returns (r: Flow)
      requires Ready() && confirmed == [] && ForeignTape(owner.owner, tape) && request.event.Text?
      modifies this, owner.authority, owner.keys, owner.buttons
      modifies owner`revoked, owner`calls, owner`resumed, owner`view, owner`clock, owner`down, owner`log, owner`moved,
        owner`wheel
      ensures owner.Safe() && Follows(Plan(request.event, old(owner.cumulative), backend), old(owner.Mirrored()),
        old(owner.log))
      ensures Ended(r, Plan(request.event, old(owner.cumulative), backend))
      ensures old(!owner.Active()) ==> confirmed == [] && !uncertain
      ensures var fault := EventFault(old(owner.Facts()), request.event, backend);
        if fault.Some? then r == Stopped(RefEvent(fault.value)) && confirmed == [] && !uncertain
        else Excused(r, tape, Plan(request.event, old(owner.cumulative), backend), old(LeftAlone(tape, now)))
      ensures owner.moved == old(owner.moved) && owner.wheel == old(owner.wheel)
    {
      hide Apply, Inv, ApplyAll, Released, InputSession.Authorized, InputSession.Recorded, Covers, ConfirmedFor,
        LeftAlone, ForeignTape, Smooth, Said, Unwinding;
      SmoothNothing(tape);
      ghost var m, log, plan := owner.Mirrored(), owner.log, Plan(request.event, owner.cumulative, backend);
      var text := request.event.scalars;
      if CapText !in owner.capabilities { return Stopped(RefEvent(FaultUnsupported)); }
      if text == [] || TextBytes(text) > MAX_COMMITTED_TEXT_BYTES { return Stopped(RefEvent(FaultUnsupported)); }
      ghost var active := owner.Active();
      var i := 0;
      while i < |text|
        invariant 0 <= i <= |text| && Ready() && Follows(plan, m, log) && |confirmed| == i
        invariant Going(tape) && (old(LeftAlone(tape, now)) ==> LeftAlone(tape, now))
        invariant owner.moved == old(owner.moved) && owner.wheel == old(owner.wheel) && (!active ==> i == 0)
          && (i == 0 ==> owner.Active() == active)
      {
        r := Advance(OpText(text[i]), tape, plan, m, log, now);
        if !r.Done? { return; }
        i := i + 1;
      }
      r := Done;
    }

    method RunRelative(tape: Tape, backend: Backend, ghost now: u64) returns (r: Flow)
      requires Ready() && confirmed == [] && ForeignTape(owner.owner, tape) && request.event.Relative?
      modifies this, owner.authority, owner.keys, owner.buttons
      modifies owner`revoked, owner`calls, owner`resumed, owner`view, owner`clock, owner`down, owner`log, owner`moved,
        owner`wheel
      modifies owner`cumulative
      ensures owner.Safe() && Follows(Plan(request.event, old(owner.cumulative), backend), old(owner.Mirrored()),
        old(owner.log))
      ensures Ended(r, Plan(request.event, old(owner.cumulative), backend))
      ensures old(!owner.Active()) ==> confirmed == [] && !uncertain
      ensures var fault := EventFault(old(owner.Facts()), request.event, backend);
        if fault.Some? then r == Stopped(RefEvent(fault.value)) && confirmed == [] && !uncertain
        else Excused(r, tape, Plan(request.event, old(owner.cumulative), backend), old(LeftAlone(tape, now)))
      ensures r.Done? ==> owner.cumulative == Position(request.event.x, request.event.y)
      ensures r.Done? && old(owner.moved) == old(owner.cumulative) ==> owner.moved == owner.cumulative
      ensures !r.Done? ==> owner.cumulative == old(owner.cumulative)
      ensures owner.wheel == old(owner.wheel)
    {
      hide Apply, Inv, ApplyAll, Released, InputSession.Authorized, InputSession.Recorded, Covers, ConfirmedFor,
        LeftAlone, ForeignTape, Smooth, Said, Unwinding;
      SmoothNothing(tape);
      ghost var m, log, plan := owner.Mirrored(), owner.log, Plan(request.event, owner.cumulative, backend);
      var Relative(epoch, x, y) := request.event;
      if CapRelative !in owner.capabilities { return Stopped(RefEvent(FaultUnsupported)); }
      if owner.mode != RelativeMode || epoch != owner.modeEpoch { return Stopped(RefEvent(FaultModeMismatch)); }
      var dx, dy := x - owner.cumulative.x, y - owner.cumulative.y;
      if !(I32_MIN <= dx <= I32_MAX) || !(I32_MIN <= dy <= I32_MAX) { return Stopped(RefEvent(FaultRelativeOverflow)); }
      if dx != 0 || dy != 0 {
        r := Advance(OpRelative(dx, dy), tape, plan, m, log, now);
        if !r.Done? { return; }
      }
      owner.cumulative := Position(x, y);
      r := Done;
    }

    /** A mode change applies locally and retires every ticket of the old mode. */
    method RunMode(backend: Backend, others: seq<Other>, ghost now: u64) returns (r: Flow)
      requires Ready() && confirmed == [] && request.event.Mode? && Foreign(owner.owner, others)
      modifies owner.authority, owner`revoked, owner`calls, owner`resumed
      modifies owner`mode, owner`modeEpoch, owner`cumulative, owner`moved
      ensures owner.Safe() && Follows(Plan(request.event, old(owner.cumulative), backend), old(owner.Mirrored()),
        old(owner.log))
      ensures Ended(r, Plan(request.event, old(owner.cumulative), backend))
      ensures var fault := EventFault(old(owner.Facts()), request.event, backend);
        if fault.Some? then r == Stopped(RefEvent(fault.value))
        else (r.Done? || (r.Stopped? && owner.Refuses(request.credentials, r.refusal)))
             && (others == [] && old(owner.Usable(request.credentials, now)) ==> r.Done?)
      ensures r.Done? ==> owner.mode == request.event.mode && owner.modeEpoch == request.event.epoch
      ensures r.Done? ==> owner.cumulative == owner.moved == Position(0, 0) && NoTickets(owner.authority.State())
      ensures !r.Unwound? && !(r.Stopped? && r.refusal == RefUnknownEffect)
    {
      hide Apply, Inv, ApplyAll, Released, InputSession.Authorized, InputSession.Recorded, Covers, ConfirmedFor,
        NoTickets, InputSession.Followed, InputSession.Safe;
      owner.FollowedNothing([]);
      var Mode(mode, epoch) := request.event;
      if (if mode == AbsoluteMode then CapAbsolute else CapRelative) !in owner.capabilities {
        return Stopped(RefEvent(FaultUnsupported));
      }
      var count := owner.HeldCount();
      if epoch <= owner.modeEpoch || count != 0 { return Stopped(RefEvent(FaultInvalidTransition)); }
      owner.mode, owner.modeEpoch, owner.cumulative := mode, epoch, Position(0, 0);
      owner.moved := Position(0, 0);
      var reply := owner.RetireTickets(others);
      r := if reply.Ok? then Done else Stopped(reply.error);
    }

    /** The event of the request, once a first check accepted it. */
    method Run(tape: Tape, backend: Backend, others: seq<Other>, ghost now: u64) returns (r: Flow)
      requires Ready() && confirmed == [] && owner.wheel.None?
      requires ForeignTape(owner.owner, tape) && Foreign(owner.owner, others)
      modifies this, owner.authority, owner.keys, owner.buttons
      modifies owner`revoked, owner`calls, owner`resumed, owner`view, owner`clock, owner`down, owner`log, owner`moved,
        owner`wheel
      modifies owner`pointerFloor, owner`mode, owner`modeEpoch, owner`cumulative
      ensures owner.Safe() && Follows(Plan(request.event, old(owner.cumulative), backend), old(owner.Mirrored()),
        old(owner.log))
      ensures Ended(r, Plan(request.event, old(owner.cumulative), backend))
      ensures var fault := EventFault(old(owner.Facts()), request.event, backend);
        if fault.Some? then r == Stopped(RefEvent(fault.value)) && confirmed == [] && !uncertain
        else Excused(r, tape, Plan(request.event, old(owner.cumulative), backend), others == []
          && old(LeftAlone(tape, now)))
      ensures owner.pointerFloor == old(owner.pointerFloor)
        || (HasBarrier(request.event) && owner.pointerFloor == Raised(old(owner.pointerFloor), request.event.barrier))
      ensures HasBarrier(request.event) && (confirmed != [] || uncertain)
        ==> owner.pointerFloor == Raised(old(owner.pointerFloor), request.event.barrier)
      ensures r.Done? ==>
        owner.wheel.None? && (old(owner.moved) == old(owner.cumulative) ==> owner.moved == owner.cumulative)
      ensures r.Done? ==>
        (owner.mode, owner.modeEpoch, owner.cumulative) == PointerAfter(old(owner.Facts()), request.event)
    {
      hide Apply, Inv, ApplyAll, Released, InputSession.Authorized, InputSession.Recorded, Covers, ConfirmedFor,
        ConfirmAll, NoTickets, Plan, EventFault, InputSession.Followed, Mirror.Shaped;
      match request.event {
        case Key(key, t) => r := KeyTransition(key, t, tape, backend, now);
        case Pointer(_) => r := RunPointer(tape, backend, now);
        case Button(_, _, _, _) => r := RunButton(tape, backend, now);
        case Scroll(_, _, _, _, _) => r := RunScroll(tape, backend, now);
        case Text(_) => r := RunText(tape, backend, now);
        case Relative(_, _, _) => r := RunRelative(tape, backend, now);
        case Mode(_, _) => r := RunMode(backend, others, now);
      }
    }

    /** A first check, then the event. */
    method Execute(start: Sample, tape: Tape, backend: Backend, others: seq<Other>) returns (r: Flow)
      requires Ready() && confirmed == [] && owner.wheel.None?
      requires ForeignSample(owner.owner, start) && ForeignTape(owner.owner, tape) && Foreign(owner.owner, others)
      modifies this, owner.authority, owner.keys, owner.buttons
      modifies owner`revoked, owner`calls, owner`resumed, owner`view, owner`clock, owner`down, owner`log, owner`moved,
        owner`wheel
      modifies owner`pointerFloor, owner`mode, owner`modeEpoch, owner`cumulative
      ensures owner.Safe() && Follows(Plan(request.event, old(owner.cumulative), backend), old(owner.Mirrored()),
        old(owner.log))
      ensures Ended(r, Plan(request.event, old(owner.cumulative), backend))
      ensures EventFault(old(owner.Facts()), request.event, backend).Some? ==> !r.Done? && confirmed == [] && !uncertain
      ensures owner.pointerFloor == old(owner.pointerFloor)
        || (HasBarrier(request.event) && owner.pointerFloor == Raised(old(owner.pointerFloor), request.event.barrier))
      ensures HasBarrier(request.event) && (confirmed != [] || uncertain)
        ==> owner.pointerFloor == Raised(old(owner.pointerFloor), request.event.barrier)
      ensures r.Done? ==>
        owner.wheel.None? && (old(owner.moved) == old(owner.cumulative) ==> owner.moved == owner.cumulative)
      ensures r.Done? ==>
        (owner.mode, owner.modeEpoch, owner.cumulative) == PointerAfter(old(owner.Facts()), request.event)
      ensures old(!owner.Active()) ==> !r.Done? && confirmed == [] && !uncertain
      ensures var fault := EventFault(old(owner.Facts()), request.event, backend);
        || (r == Unwound && start.unwinds) || (r.Stopped? && owner.Refuses(request.credentials, r.refusal))
        || (if fault.Some? then r == Stopped(RefEvent(fault.value))
            else Excused(r, tape, Plan(request.event, old(owner.cumulative), backend), false))
      ensures Traced(|confirmed|, |Plan(request.event, old(owner.cumulative), backend)|, r, tape,
        && Undisturbed(start, tape, others) && old(owner.Usable(request.credentials, start.now))
        && EventFault(old(owner.Facts()), request.event, backend).None?)
    {
      hide Apply, Inv, ApplyAll, Released, InputSession.Authorized, InputSession.Recorded, Covers, ConfirmedFor, Plan,
        EventFault, PointerAfter, InputSession.Followed, InputSession.Safe, Raised, InputSession.Usable, Smooth, Said,
        Unwinding, CalmTape, InputSession.Accepted;
      SmoothNothing(tape);
      owner.FollowedNothing(Plan(request.event, owner.cumulative, backend));
      owner.Interfere(start.before);
      if start.unwinds { return Unwound; }
      ghost var at;
      var checked;
      checked, at := owner.Check(request.credentials, start.now, start.between);
      if checked.Err? { return Stopped(checked.error); }
      r := Run(tape, backend, others, start.now);
    }

    lemma AuthorizedFor(op: Operation, at: u64)
      requires owner.calls != [] && owner.Permits(op)
      requires owner.Accepted(owner.calls[..|owner.calls| - 1], at, request.credentials.ticket, owner.revoked)
      ensures owner.Authorized(Checked(op, owner.calls[..|owner.calls| - 1], at, request.credentials.ticket,
        owner.revoked))
    {
      hide SubmissionDeadline, ApplyAll;
    }
  }

  /** The one way a complete plan is answered as partial: the sink carries it out, and
      panics while it cancels after the last operation. */
  ghost predicate PanicsLate(tape: Tape, plan: seq<Operation>) {
    plan != [] && Smooth(tape, |plan|) && tape(|plan| - 1).cancelUnwinds
  }

  lemma {:induction false} SmoothPrefix(tape: Tape, n: nat, k: nat)
    requires Smooth(tape, n)
    ensures k <= n ==> Smooth(tape, k)
  {
    if k < n { SmoothPrefix(tape, n - 1, k); }
  }

  lemma SmoothNothing(tape: Tape)
    ensures Smooth(tape, 0)
  {}

  lemma SmoothNext(tape: Tape, k: nat)
    ensures Smooth(tape, 0)
    ensures Smooth(tape, k + 1) <==> Smooth(tape, k) && Confirms(tape(k)) && (k > 0 ==> !tape(k - 1).cancelUnwinds)
  {}

  lemma {:induction false} WheelOpsAt(steps: seq<WheelDirection>, i: nat)
    requires i < |steps|
    ensures WheelOps(steps)[2 * i] == OpWheel(steps[i], true) && WheelOps(steps)[2 * i + 1] == OpWheel(steps[i], false)
  {
    if i < |steps| - 1 { WheelOpsAt(steps[..|steps| - 1], i); }
  }

  /** The policy transition of a final check, as one call of the run. */
  lemma SubmissionIsCall(s: Auth, leaseId: u64, ticketId: u64, now: u64, owner: nat)
    requires Inv(s) && owner < s.owners
    ensures SubmissionDeadline(s, leaseId, ticketId, now).0 == Apply(s, CSubmissionDeadline(leaseId, ticketId, now))
    ensures Inv(SubmissionDeadline(s, leaseId, ticketId, now).0)
      && owner < SubmissionDeadline(s, leaseId, ticketId, now).0.owners
    ensures ConfirmedFor(SubmissionDeadline(s, leaseId, ticketId, now).0, owner) ==> ConfirmedFor(s, owner)
    ensures SubmissionDeadline(s, leaseId, ticketId, now).1.Ok? ==>
              !Released(SubmissionDeadline(s, leaseId, ticketId, now).0)
              && SubmissionDeadline(s, leaseId, ticketId, now).0.nativeOwner == s.nativeOwner
  {
    hide Inv, CheckTime;
    CheckTimeKeeps(s, now);
    AuthorityProofs.OtherCall(s, CSubmissionDeadline(leaseId, ticketId, now), owner);
    if SubmissionDeadline(s, leaseId, ticketId, now).1.Ok? { AcceptedIsReady(s, leaseId, ticketId, now); }
  }

  /** A check that passes does so again at the same time. */
  lemma SubmissionRepeats(s: Auth, leaseId: u64, ticketId: u64, now: u64)
    requires Inv(s)
    ensures var (t, r) := SubmissionDeadline(s, leaseId, ticketId, SerializedTime(s, now));
      r.Ok? ==>
        && t.recovery == s.recovery && t.nativeOwner == s.nativeOwner && LeaseId(t) == LeaseId(s)
        && SubmissionDeadline(t, leaseId, ticketId, SerializedTime(t, now)).1.Ok?
  {}

  lemma InvalidateIsCall(s: Auth, leaseId: u64)
    ensures InvalidateTickets(s, leaseId).0 == Apply(s, CInvalidateTickets(leaseId))
    ensures InvalidateTickets(s, leaseId).1.Ok? ==> NoTickets(InvalidateTickets(s, leaseId).0)
    ensures LeaseId(s) == Some(leaseId) ==> InvalidateTickets(s, leaseId).1.Ok?
  {}

  /** Assuming an operation first uncovers nothing, and does not change what its
      confirmation leaves. */
  lemma AssumeThenConfirm(m: Mirror, op: Operation, down: set<Held>)
    requires m.Shaped() && Covers(m, down) && WheelReady(m, op)
    ensures Covers(Assume(m, op), down) && Confirm(Assume(m, op), op) == Confirm(m, op)
  {}

  lemma ReleaseFollows(m: Mirror, plan: seq<Operation>, k: nat)
    requires m.Shaped() && k < |plan| && IsRelease(plan[k]) && !plan[k].OpWheel?
    ensures ConfirmAll(m, plan[..k + 1]) == Confirm(ConfirmAll(m, plan[..k]), plan[k])
    ensures Assume(ConfirmAll(m, plan[..k]), plan[k]) == ConfirmAll(m, plan[..k])
    ensures ConfirmAll(m, plan[..k + 1]).wheel == ConfirmAll(m, plan[..k]).wheel
  {
    assert plan[..k + 1][..k] == plan[..k];
  }

  lemma StatusIsCall(s: Auth, now: u64)
    ensures ReadControlStatus(s, now).0 == Apply(s, CReadControlStatus(now))
  {}

  /** The state of a suspended lease whose release was confirmed at `now`. */
  function ReleasedAt(s: Auth, now: u64): (r: Auth) {
    Noticed(s, now).(suspension :=
      if SuspensionAt(s, now).Some? then Some(Suspension(SuspensionAt(s, now).value.since, true)) else None)
  }

  /** A suspension within its time is reported as one, and its release can be confirmed. */
  lemma SuspensionIsReported(s: Auth, now: u64, owner: nat, lease: u64)
    requires Inv(s) && LeaseId(s) == Some(lease) && s.nativeOwner == Some(owner) && !s.clockFaulted
    requires var t := SerializedTime(s, now);
      && Observing(s, t) && t < s.lease.value.until && !Seeing(s, t) && SuspensionAt(s, t).Some?
      && t < SuspensionAt(s, t).value.since + MAX_VIEW_SUSPENSION <= U64_MAX
    ensures var t := SerializedTime(s, now); var (u, r) := ReadControlStatus(s, t);
      && r.Ok? && r.value.Suspended?
      && (if r.value.released then u else ConfirmAs(u, owner, lease).0) == ReleasedAt(s, t)
  {
    StatusExactly(s, SerializedTime(s, now));
    hide ReadControlStatus;
  }

  /** A lease released in time is resumed by evidence in time: the same lease of the same
      owner is ready again, with no suspension. */
  lemma ReleasedResumes(s: Auth, released: u64, until: u64, now: u64)
    requires Inv(s) && !s.clockFaulted && s.lease.Some? && SuspensionAt(s, released).Some?
    requires s.lastChecked.Some? && s.lastChecked.value <= now && released <= now < until && Observing(s, now)
    requires now < SuspensionAt(s, released).value.since + MAX_VIEW_SUSPENSION <= U64_MAX
    ensures var (u, r) := MarkViewReadyUntil(ReleasedAt(s, released), until, now);
      && r.Ok? && u.readiness == Ready && u.viewUntil == Some(until) && u.suspension.None?
      && LeaseId(u) == LeaseId(s) && u.lease.value.until == s.lease.value.until && u.nativeOwner == s.nativeOwner
  {
    var t := ReleasedAt(s, released);
    assert Inv(t);
    EvidenceExactly(t, until, now);
  }

  lemma StatusFacts(s: Auth, now: u64)
    requires Inv(s)
    ensures var (t, r) := ReadControlStatus(s, now); r.Ok? && r.value.Suspended? ==> t.readiness != Ready
  {}

  /** Live control found at a time is found again at that time. */
  lemma LiveRepeats(s: Auth, now: u64)
    ensures var (t, live) := HasLiveControl(s, SerializedTime(s, now));
      live ==>
        && LeaseId(t) == LeaseId(s) && t.nativeOwner == s.nativeOwner
        && HasLiveControl(t, SerializedTime(t, now)).1
  {}

  lemma LiveIsReady(s: Auth, now: u64)
    ensures HasLiveControl(s, now).1 ==> s.readiness == Ready
  {}

  lemma LiveControlIsCall(s: Auth, now: u64)
    ensures HasLiveControl(s, now).0 == Apply(s, CHasLiveControl(now))
  {}

  lemma ConfirmIsCall(s: Auth, owner: nat, lease: u64)
    ensures ConfirmAs(s, owner, lease).0 == Apply(s, CConfirmAs(owner, lease))
    ensures ConfirmAs(s, owner, lease).0.owners == s.owners
  {}

  lemma ReachableInv(policy: Policy, calls: seq<Call>)
    ensures Inv(ApplyAll(New(policy), calls))
  {
    ReachableKeeps(policy, calls, |calls|);
  }
}
