/** The viewer's side of one input grant: numbered actions, their receipts, the
    remembered held keys and buttons, and suspension by a stale view. */
module Client {
  import opened Common
  import opened Input
  import opened Ledger

  const MAX_PENDING_ACTIONS: nat := 32
  const MAX_VIEW_SUSPENSION_US: u64 := 10_000_000
  const HELD_STATE_INTERVAL_US: u64 := 250_000
  const MAX_VIEW_AGE_US: u64 := 1_500_000
  const MAX_RECEIPT_TIMEOUT_US: u64 := 10_000_000

  datatype StopReason =
    | Suspended | ViewStale | ViewChanged | ClockRegression | CounterExhausted | ReceiptTimeout
    | ActionFailed | InvalidReceipt | InvalidTicket

  datatype Error =
    | InvalidConfiguration
    | StaleSession
    | Stopped(reason: StopReason)
    | MappingUnconfirmed | NoPresentedView | ObsoleteObservation | Unsupported | OutOfBounds
    | InvalidTransition | Backpressure | TicketExpired | ViewSuspended | ReleasedBySuspension | WireRefused

  datatype Action =
    | KeyAction(key: PhysicalKey, transition: Transition)
    | ButtonAction(button: PointerButton, pressed: bool, position: DesktopPoint)
    | ScrollAction(position: DesktopPoint, x: i32, y: i32, unit: ScrollUnit)
    | TextAction(scalars: seq<char>)

  /** What the viewer decides an action on, besides readiness. */
  datatype ClientView = ClientView(
    capabilities: Capabilities,
    bounds: InputBounds,
    held: Mirror,
    released: Mirror)

  /** An action as it is sent, and the fewest and most operations it may stand for. */
  datatype Prepared = Prepared(event: Event, minimum: nat, maximum: nat)

  function PositionRefusal(v: ClientView, p: DesktopPoint): (r: Option<Error>) {
    if CapAbsolute !in v.capabilities then Some(Error.Unsupported)
    else if !v.bounds.Contains(p) then Some(OutOfBounds)
    else None
  }

  function EventFor(v: ClientView, action: Action, barrier: u64): (r: Result<Prepared, Error>)
    requires v.held.Shaped() && v.released.Shaped()
  {
    match action
    case KeyAction(key, t) =>
      var held := v.held.keys[key];
      if CapKeys !in v.capabilities then Err(Error.Unsupported)
      else if t != Press && !held && v.released.keys[key] then Err(ReleasedBySuspension)
      else if (t == Press) == held then Err(InvalidTransition)
      else if t == Repeat && CapRepeat !in v.capabilities then Err(Error.Unsupported)
      else Ok(Prepared(Key(key, t), 1, if t == Repeat then 2 else 1))
    case ButtonAction(b, pressed, p) =>
      if CapButtons !in v.capabilities then Err(Error.Unsupported)
      else if PositionRefusal(v, p).Some? then Err(PositionRefusal(v, p).value)
      else if !pressed && !v.held.buttons[b] && v.released.buttons[b] then Err(ReleasedBySuspension)
      else if v.held.buttons[b] == pressed then Err(InvalidTransition)
      else Ok(Prepared(Button(b, pressed, p, barrier), 2, 2))
    case ScrollAction(p, x, y, unit) =>
      if PositionRefusal(v, p).Some? then Err(PositionRefusal(v, p).value)
      else if (if unit == Pixels then CapPixelScroll else CapLineScroll) !in v.capabilities then Err(Error.Unsupported)
      else
        var compound := if unit == Lines && LineScroll(x, y).Some? then NativeOperations(LineScroll(x, y).value) else 2;
        Ok(Prepared(Scroll(p, barrier, x, y, unit), Min(2, compound), Max(2, compound)))
    case TextAction(s) =>
      if CapText !in v.capabilities || s == [] || TextBytes(s) > MAX_COMMITTED_TEXT_BYTES then Err(Error.Unsupported)
      else Ok(Prepared(Text(s), |s|, |s|))
  }

  /** The event sent is the action itself, with its own place, deltas, unit and text; and
      an action is sent if and only if its kind is granted, its place lies inside the
      bounds, it changes what is remembered as held, and text is neither empty nor longer
      than its encoding may be. What a suspension released is told apart. */
  lemma EventExactly(v: ClientView, action: Action, barrier: u64)
    requires v.held.Shaped() && v.released.Shaped()
    ensures var r := EventFor(v, action, barrier);
      r.Ok? ==>
        match action
        case KeyAction(key, t) => r.value.event == Key(key, t)
        case ButtonAction(b, pressed, p) => r.value.event == Button(b, pressed, p, barrier)
        case ScrollAction(p, x, y, unit) => r.value.event == Scroll(p, barrier, x, y, unit)
        case TextAction(s) => r.value.event == Text(s)
    ensures var r := EventFor(v, action, barrier);
      match action
      case KeyAction(key, t) =>
        && (r.Ok? <==>
           CapKeys in v.capabilities && (t == Repeat ==> CapRepeat in v.capabilities)
           && (v.held.keys[key] <==> t != Press))
        && (r == Err(ReleasedBySuspension) <==>
           CapKeys in v.capabilities && t != Press && !v.held.keys[key] && v.released.keys[key])
      case ButtonAction(b, pressed, p) =>
        && (r.Ok? <==> CapButtons in v.capabilities && Reaches(v, p) && v.held.buttons[b] != pressed)
        && (r == Err(ReleasedBySuspension) <==>
           CapButtons in v.capabilities && Reaches(v, p) && !pressed && !v.held.buttons[b] && v.released.buttons[b])
      case ScrollAction(p, _, _, unit) =>
        r.Ok? <==> Reaches(v, p) && (if unit == Pixels then CapPixelScroll else CapLineScroll) in v.capabilities
      case TextAction(s) =>
        r.Ok? <==> CapText in v.capabilities && s != [] && |Encoded(s)| <= MAX_COMMITTED_TEXT_BYTES
  {
    if action.TextAction? { TextIsMeasuredInBytes(action.scalars); }
  }

  /** Absolute positions are granted, and this one lies inside the bounds. */
  predicate Reaches(v: ClientView, p: DesktopPoint) {
    && CapAbsolute in v.capabilities
    && v.bounds.origin.x <= p.x < v.bounds.origin.x + v.bounds.width
    && v.bounds.origin.y <= p.y < v.bounds.origin.y + v.bounds.height
  }

  /** What the viewer remembers as held once an action has been sent. */
  function Sent(m: Mirror, e: Event): (r: Mirror)
    requires m.Shaped()
    ensures r.Shaped() && r.wheel == m.wheel
  {
    match e
    case Key(key, t) => m.(keys := m.keys[key := t != Release])
    case Button(b, pressed, _, _) => m.(buttons := m.buttons[b := pressed])
    case _ => m
  }

  /** A suspension's record of what it released ends with the next transition sent. */
  function Forgiven(m: Mirror, e: Event): (r: Mirror)
    requires m.Shaped()
    ensures r.Shaped()
  {
    match e
    case Key(key, _) => m.(keys := m.keys[key := false])
    case Button(b, _, _, _) => m.(buttons := m.buttons[b := false])
    case _ => m
  }

  function Either(a: Mirror, b: Mirror): (r: Mirror)
    requires a.Shaped() && b.Shaped()
    ensures r.Shaped()
  {
    Mirror(seq(KEYS, u requires 0 <= u < KEYS => a.keys[u] || b.keys[u]),
           seq(BUTTONS, i requires 0 <= i < BUTTONS => a.buttons[i] || b.buttons[i]), None)
  }

  /** A suspension adds what was remembered to what it released; the next transition sent
      for a key or button, and only that, takes it off again. */
  lemma ReleasedExactly(a: Mirror, b: Mirror, e: Event, h: Held)
    requires a.Shaped() && b.Shaped() && !h.HeldWheel?
    ensures Either(a, b).Holds(h) <==> a.Holds(h) || b.Holds(h)
    ensures Forgiven(a, e).Holds(h) <==>
      a.Holds(h) && !(e.Key? && h == HeldKey(e.key)) && !(e.Button? && h == HeldButton(e.button))
  {}

  function HeldSet(m: Mirror): (r: set<Held>)
    requires m.Shaped()
    ensures forall h :: h in r <==> !h.HeldWheel? && m.Holds(h)
  {
    (set u | 0 <= u < KEYS && m.keys[u] :: HeldKey(u)) + (set b | 0 <= b < BUTTONS && m.buttons[b] :: HeldButton(b))
  }

  // ------------------------------------------------------------------- receipts

  datatype Space = ActionSpace | PointerSpace
  datatype InputResult = InputResult(space: Space, sequence: u64, outcome: InputOutcome, submitted: nat)
  datatype ResultEvent =
    | Completed(result: InputResult)
    | Duplicate(result: InputResult)
    | Unretained
    | PointerResult(result: InputResult)
  datatype Pending = Pending(sequence: u64, deadline: u64, minimum: nat, maximum: nat)
  datatype Unsent = UnsentAction(sequence: u64) | UnsentPointer | UnsentHeld(sequence: u64)
  datatype HeldSnapshot = HeldSnapshot(sequence: u64, nextAction: u64, held: set<Held>)

  /** Whether an operation count fits the outcome it is reported with. */
  predicate CountFits(outcome: InputOutcome, count: nat, minimum: nat, maximum: nat) {
    match outcome
    case SubmittedToOs => count == minimum || count == maximum
    case PartiallySubmittedToOs => count < maximum
    case EffectUnknown => count < maximum
    case AppliedLocally => false
    case _ => count == 0
  }

  // ----------------------------------------------------------- accounting of numbers

  predicate IsPending(p: seq<Option<Pending>>, n: nat) {
    exists i :: 0 <= i < |p| && p[i].Some? && p[i].value.sequence == n
  }

  predicate IsCompleted(c: seq<InputResult>, n: nat) {
    exists k :: 0 <= k < |c| && c[k].sequence == n
  }

  ghost predicate DistinctPending(p: seq<Option<Pending>>) {
    forall i, j :: 0 <= i < j < |p| && p[i].Some? && p[j].Some? ==> p[i].value.sequence != p[j].value.sequence
  }

  ghost predicate DistinctCompleted(c: seq<InputResult>) {
    forall j, k :: 0 <= j < k < |c| ==> c[j].sequence != c[k].sequence
  }

  /** Every action number below `n` is either awaiting its receipt or completed,
      never both, and each exactly once. */
  ghost predicate Accounts(p: seq<Option<Pending>>, c: seq<InputResult>, n: nat) {
    && DistinctPending(p) && DistinctCompleted(c)
    && (forall m: nat :: IsPending(p, m) || IsCompleted(c, m) <==> m < n)
    && (forall m: nat :: !(IsPending(p, m) && IsCompleted(c, m)))
  }

  lemma PendingAt(p: seq<Option<Pending>>, i: nat)
    requires i < |p| && p[i].Some?
    ensures IsPending(p, p[i].value.sequence)
  {}

  lemma CompletedAt(c: seq<InputResult>, k: nat)
    requires k < |c|
    ensures IsCompleted(c, c[k].sequence)
  {}

  /** Filling a free place adds exactly its number. */
  lemma PendingFilled(p: seq<Option<Pending>>, slot: nat, x: Pending, m: nat)
    requires slot < |p| && p[slot].None?
    ensures IsPending(p[slot := Some(x)], m) <==> IsPending(p, m) || m == x.sequence
  {
    var q := p[slot := Some(x)];
    PendingAt(q, slot);
    if IsPending(p, m) {
      var i :| 0 <= i < |p| && p[i].Some? && p[i].value.sequence == m;
      assert q[i] == p[i];
      PendingAt(q, i);
    }
    if IsPending(q, m) {
      var i :| 0 <= i < |q| && q[i].Some? && q[i].value.sequence == m;
      if i != slot { PendingAt(p, i); }
    }
  }

  /** Clearing a place removes exactly its number. */
  lemma PendingCleared(p: seq<Option<Pending>>, slot: nat, m: nat)
    requires slot < |p| && p[slot].Some? && DistinctPending(p)
    ensures IsPending(p[slot := None], m) <==> IsPending(p, m) && m != p[slot].value.sequence
  {
    var q := p[slot := None];
    if IsPending(p, m) && m != p[slot].value.sequence {
      var i :| 0 <= i < |p| && p[i].Some? && p[i].value.sequence == m;
      assert q[i] == p[i];
      PendingAt(q, i);
    }
    if IsPending(q, m) {
      var i :| 0 <= i < |q| && q[i].Some? && q[i].value.sequence == m;
      assert i != slot && q[i] == p[i];
      PendingAt(p, i);
    }
  }

  lemma CompletedMore(c: seq<InputResult>, r: InputResult, m: nat)
    ensures IsCompleted(c + [r], m) <==> IsCompleted(c, m) || m == r.sequence
  {
    var d := c + [r];
    CompletedAt(d, |c|);
    if IsCompleted(c, m) {
      var k :| 0 <= k < |c| && c[k].sequence == m;
      CompletedAt(d, k);
    }
    if IsCompleted(d, m) {
      var k :| 0 <= k < |d| && d[k].sequence == m;
      if k < |c| { CompletedAt(c, k); }
    }
  }

  lemma AccountAdd(p: seq<Option<Pending>>, c: seq<InputResult>, n: nat, slot: nat, x: Pending)
    requires Accounts(p, c, n) && slot < |p| && p[slot].None? && x.sequence == n
    ensures Accounts(p[slot := Some(x)], c, n + 1)
  {
    var q := p[slot := Some(x)];
    assert DistinctPending(q) by {
      forall i | 0 <= i < |p| && p[i].Some? ensures p[i].value.sequence != n { PendingAt(p, i); }
    }
    hide IsPending, IsCompleted, DistinctPending, DistinctCompleted;
    forall m: nat ensures IsPending(q, m) <==> IsPending(p, m) || m == n { PendingFilled(p, slot, x, m); }
  }

  lemma AccountAbandon(p: seq<Option<Pending>>, c: seq<InputResult>, n: nat, slot: nat)
    requires Accounts(p, c, n) && slot < |p| && p[slot].Some? && p[slot].value.sequence + 1 == n
    ensures Accounts(p[slot := None], c, n - 1)
  {
    var q := p[slot := None];
    assert DistinctPending(q);
    PendingAt(p, slot);
    hide IsPending, IsCompleted, DistinctPending, DistinctCompleted;
    forall m: nat ensures IsPending(q, m) <==> IsPending(p, m) && m != n - 1 { PendingCleared(p, slot, m); }
  }

  lemma AccountComplete(p: seq<Option<Pending>>, c: seq<InputResult>, n: nat, slot: nat, r: InputResult)
    requires Accounts(p, c, n) && slot < |p| && p[slot].Some? && p[slot].value.sequence == r.sequence
    ensures Accounts(p[slot := None], c + [r], n)
  {
    var q := p[slot := None];
    assert DistinctPending(q);
    PendingAt(p, slot);
    assert DistinctCompleted(c + [r]) by {
      forall k | 0 <= k < |c| ensures c[k].sequence != r.sequence { CompletedAt(c, k); }
    }
    hide IsPending, IsCompleted, DistinctPending, DistinctCompleted;
    forall m: nat ensures IsPending(q, m) <==> IsPending(p, m) && m != r.sequence { PendingCleared(p, slot, m); }
    forall m: nat ensures IsCompleted(c + [r], m) <==> IsCompleted(c, m) || m == r.sequence { CompletedMore(c, r, m); }
  }

  // -------------------------------------------------------------- causal readiness

  /** What the viewer still needs before a suspension may end. */
  datatype Resume = Clear | NeedLossReport | AfterLoss(sequence: u64)

  /** Numbers of the last admitted and the last acknowledged presentation report. */
  datatype Readiness = Readiness(ceiling: u64, acknowledged: u64, resume: Resume)

  function Acknowledge(s: Readiness, sequence: u64): (r: Option<(Readiness, bool)>) {
    if sequence == 0 || sequence > s.ceiling || sequence < s.acknowledged then None
    else
      var t := s.(acknowledged := sequence);
      match s.resume
      case Clear => Some((t, true))
      case AfterLoss(loss) => if sequence > loss then Some((t.(resume := Clear), true)) else Some((t, false))
      case NeedLossReport => Some((t, false))
  }

  /** A report is acknowledged if and only if it was admitted and is not older than the last
      acknowledged one; a suspension is overtaken exactly by a report after its own loss. */
  lemma AcknowledgeExactly(s: Readiness, sequence: u64)
    ensures var r := Acknowledge(s, sequence);
      && (r.Some? <==> 0 < sequence <= s.ceiling && s.acknowledged <= sequence)
      && (r.Some? ==>
         && r.value.0.ceiling == s.ceiling && r.value.0.acknowledged == sequence
         && (r.value.1 <==> s.resume == Clear || (s.resume.AfterLoss? && s.resume.sequence < sequence))
         && r.value.0.resume == if r.value.1 then Clear else s.resume)
  {}

  /** A ticket as the viewer reads it: its order, its own deadline on this clock,
      and the presentation report it answers. */
  datatype TicketRecord = TicketRecord(sequence: u64, until: u64, presented: u64)

  // ------------------------------------------------------------------- the owner

  /** What the host's view of this viewer depends on. */
  datatype Side = Side(live: bool, remembered: Mirror, readiness: Readiness)

  /** A ticket is taken: its report is acknowledged, and input may resume if nothing is
      owed any more. */
  predicate Ticketed(v: Side, w: Side, presented: u64) {
    && Acknowledge(v.readiness, presented).Some?
    && var readiness := Acknowledge(v.readiness, presented).value.0;
       w == Side(v.live, v.remembered, readiness)
         || (w == Side(true, v.remembered, readiness) && readiness.resume == Clear)
  }

  /** A report that entered the transport; a negative one suspends. */
  function AfterReport(v: Side, sequence: u64, visible: bool): (w: Side) {
    if visible then v.(readiness := v.readiness.(ceiling := sequence))
    else Side(false, NOTHING_HELD, v.readiness.(ceiling := sequence, resume := AfterLoss(sequence)))
  }

  /** A lapse of the view: everything remembered is left to the host to release. */
  function Lapsed(v: Side): (w: Side) {
    Side(false, NOTHING_HELD, v.readiness.(resume := NeedLossReport))
  }

  method AllFalse(n: nat) returns (a: array<bool>)
    ensures fresh(a) && a.Length == n && forall i :: 0 <= i < n ==> !a[i]
  {
    a := new bool[n](_ => false);
  }

  class InputClient {
    const bounds: InputBounds
    const capabilities: Capabilities
    const receiptTimeout: u64
    const viewBound: u64
    const started: u64
    const pending: array<Option<Pending>>
    const receipts: array<Option<InputResult>>
    const keys: array<bool>
    const buttons: array<bool>
    const releasedKeys: array<bool>
    const releasedButtons: array<bool>
    var receiptCursor: nat
    var clock: u64
    var stopped: Option<StopReason>
    var mapped: bool
    var observation: Option<u64>
    var viewUntil: Option<u64>
    var nextAction: Option<u64>
    var nextPointer: Option<u64>
    var nextHeld: Option<u64>
    var heldAfter: Option<u64>
    var ticket: Option<TicketRecord>
    var readiness: Readiness
    var suspendedSince: Option<u64>
    var awaitingTicket: bool

    /** Action numbers admitted by the transport, and those encoded after them. */
    ghost var sent: seq<u64>
    ghost var unsent: seq<u64>
    /** Every completed action, in order of completion. */
    ghost var completed: seq<InputResult>

    function Remembered(): (r: Mirror)
      reads keys, buttons
    {
      Mirror(keys[..], buttons[..], None)
    }

    function ReleasedByHost(): (r: Mirror)
      reads releasedKeys, releasedButtons
    {
      Mirror(releasedKeys[..], releasedButtons[..], None)
    }

    function Seen(): (v: Side)
      reads this`suspendedSince, this`readiness, keys, buttons
    {
      Side(suspendedSince.None?, Remembered(), readiness)
    }

    predicate Apart() {
      && keys != buttons && keys != releasedKeys && keys != releasedButtons
      && buttons != releasedKeys && buttons != releasedButtons && releasedKeys != releasedButtons
    }

    ghost predicate Shape()
      reads this`suspendedSince, keys, buttons, releasedKeys, releasedButtons
    {
      && Apart()
      && Remembered().Shaped() && ReleasedByHost().Shaped()
      && (suspendedSince.Some? ==> Remembered() == NOTHING_HELD)
      && (forall u :: 0 <= u < KEYS ==> !(keys[u] && releasedKeys[u]))
      && (forall b :: 0 <= b < BUTTONS ==> !(buttons[b] && releasedButtons[b]))
    }

    /** The numbers that entered or may still enter the transport are exactly
        0, 1, 2, ... in order: no gap and no repetition. */
    ghost predicate Numbered()
      reads this`nextAction, this`sent, this`unsent
    {
      var n := |sent| + |unsent|;
      && sent + unsent == seq(n, i => i) && n <= U64_MAX + 1
      && nextAction == (if n <= U64_MAX then Some(n) else None)
    }

    ghost predicate Accounted()
      reads this`sent, this`unsent, this`completed, this`receiptCursor, pending, receipts
    {
      && pending.Length == MAX_PENDING_ACTIONS == receipts.Length
      && Accounts(pending[..], completed, |sent| + |unsent|)
      && receiptCursor == Slot(|completed|, MAX_PENDING_ACTIONS)
      && (forall i :: 0 <= i < MAX_PENDING_ACTIONS ==>
           var k := Latest(|completed|, MAX_PENDING_ACTIONS, i);
           receipts[i] == if k.Some? then Some(completed[k.value]) else None)
    }

    ghost predicate Valid()
      reads this, pending, receipts, keys, buttons, releasedKeys, releasedButtons
    {
      Shape() && Numbered() && Accounted() && Gated()
    }

    /** Input that is not suspended owes no evidence; a suspension waits for its
        ticket exactly while its loss report has not been overtaken. */
    ghost predicate Gated()
      reads this`suspendedSince, this`readiness, this`awaitingTicket
    {
      && (suspendedSince.None? ==> readiness.resume == Clear)
      && (awaitingTicket <==> readiness.resume != Clear)
    }

    constructor (bounds: InputBounds, capabilities: Capabilities, viewBound: u64, receiptTimeout: u64, now: u64)
      ensures Valid() && sent == [] && unsent == [] && completed == []
      ensures Seen() == Side(true, NOTHING_HELD, Readiness(0, 0, Clear)) && stopped.None?
      ensures this.bounds == bounds && this.capabilities == capabilities && this.viewBound == viewBound
      ensures this.receiptTimeout == receiptTimeout && clock == started == now && !mapped
      ensures ticket.None? && observation.None? && viewUntil.None? && heldAfter.None?
      ensures nextAction == nextPointer == nextHeld == Some(0) && ReleasedByHost() == NOTHING_HELD
      ensures pending.Length == MAX_PENDING_ACTIONS && forall i :: 0 <= i < pending.Length ==> pending[i].None?
      ensures fresh(pending) && fresh(receipts) && fresh(keys) && fresh(buttons) && fresh(releasedKeys)
        && fresh(releasedButtons)
    {
      this.bounds, this.capabilities, this.viewBound, this.receiptTimeout := bounds, capabilities, viewBound,
        receiptTimeout;
      started := now;
      pending := new Option<Pending>[MAX_PENDING_ACTIONS](_ => None);
      receipts := new Option<InputResult>[MAX_PENDING_ACTIONS](_ => None);
      var k := AllFalse(KEYS);
      var b := AllFalse(BUTTONS);
      var l := AllFalse(KEYS);
      var c := AllFalse(BUTTONS);
      keys, buttons, releasedKeys, releasedButtons := k, b, l, c;
      receiptCursor, clock, stopped, mapped, observation, viewUntil := 0, now, None, false, None, None;
      nextAction, nextPointer, nextHeld, heldAfter, ticket := Some(0), Some(0), Some(0), None, None;
      readiness, suspendedSince, awaitingTicket := Readiness(0, 0, Clear), None, false;
      sent, unsent, completed := [], [], [];
      new;
      hide Shape, Accounted, Untouched, Mirror.Shaped;
      BlankShape();
      BlankAccounts();
    }

    /** A client for an explicit grant; identifiers and durations out of range are refused. */
    static method Open(channel: nat, credentials: Credentials, bounds: InputBounds, capabilities: Capabilities,
                       viewAge: u64,
                       receiptTimeout: u64, now: u64)
      returns (r: Result<InputClient, Error>)
      ensures r.Ok? <==>
        && channel != 0 && credentials.session != 0 && credentials.lease != 0 && credentials.ticket != 0
        && 1 <= viewAge <= MAX_VIEW_AGE_US && 1 <= receiptTimeout <= MAX_RECEIPT_TIMEOUT_US
      ensures r.Err? ==> r.error == InvalidConfiguration
      ensures r.Ok? ==>
        && fresh(r.value) && r.value.Valid() && r.value.sent == r.value.unsent == []
        && r.value.Seen() == Side(true, NOTHING_HELD, Readiness(0, 0, Clear))
    {
      if channel == 0 || credentials.session == 0 || credentials.lease == 0 || credentials.ticket == 0
         || !(1 <= viewAge <= MAX_VIEW_AGE_US) || !(1 <= receiptTimeout <= MAX_RECEIPT_TIMEOUT_US) {
        return Err(InvalidConfiguration);
      }
      var client := new InputClient(bounds, capabilities, viewAge, receiptTimeout, now);
      r := Ok(client);
    }

    lemma BlankShape()
      requires keys.Length == releasedKeys.Length == KEYS && buttons.Length == releasedButtons.Length == BUTTONS
      requires Apart()
      requires forall i :: 0 <= i < KEYS ==> !keys[i] && !releasedKeys[i]
      requires forall i :: 0 <= i < BUTTONS ==> !buttons[i] && !releasedButtons[i]
      ensures Shape() && Remembered() == NOTHING_HELD == ReleasedByHost()
    {
      assert keys[..] == NOTHING_HELD.keys && buttons[..] == NOTHING_HELD.buttons;
      assert releasedKeys[..] == NOTHING_HELD.keys && releasedButtons[..] == NOTHING_HELD.buttons;
    }

    lemma BlankAccounts()
      requires pending.Length == MAX_PENDING_ACTIONS == receipts.Length && receiptCursor == 0
      requires forall i :: 0 <= i < MAX_PENDING_ACTIONS ==> pending[i].None? && receipts[i].None?
      requires sent == [] && unsent == [] && completed == []
      ensures Accounted()
    {
      forall m: nat ensures !IsPending(pending[..], m) && !IsCompleted(completed, m) {}
    }

    /** Stop this owner for good; the first reason stays. */
    method Stop(reason: StopReason) returns (e: Error)
      modifies this`stopped
      ensures stopped == (if old(stopped).Some? then old(stopped) else Some(reason))
        && e == Error.Stopped(stopped.value)
    {
      if stopped.None? { stopped := Some(reason); }
      e := Error.Stopped(stopped.value);
    }

    static method MoveInto(held: array<bool>, released: array<bool>)
      requires held != released && held.Length == released.Length
      modifies held, released
      ensures forall i :: 0 <= i < held.Length ==> released[i] == old(released[i] || held[i]) && !held[i]
    {
      for i := 0 to held.Length
        invariant forall j :: 0 <= j < i ==> released[j] == old(released[j] || held[j]) && !held[j]
        invariant forall j :: i <= j < held.Length ==> released[j] == old(released[j]) && held[j] == old(held[j])
      {
        released[i], held[i] := released[i] || held[i], false;
      }
    }

    /** A stale view suspends input: nothing more is sent, and everything the host
        will release on its own is remembered as released, not as held. */
    method Suspend(now: u64)
      requires Shape() && Gated()
      modifies this`viewUntil, this`readiness, this`suspendedSince, this`awaitingTicket, keys, buttons, releasedKeys,
        releasedButtons
      ensures Shape() && viewUntil.None? && (old(suspendedSince).Some? || stopped.None? ==> Gated())
      ensures var begins := old(suspendedSince).None? && stopped.None?;
        && suspendedSince == (if begins then Some(now) else old(suspendedSince))
        && Remembered() == (if begins then NOTHING_HELD else old(Remembered()))
        && ReleasedByHost() == (if begins then Either(old(ReleasedByHost()), old(Remembered()))
           else old(ReleasedByHost()))
      ensures var lapses := stopped.None? && (old(viewUntil).Some? || old(suspendedSince).None?);
        && readiness == (if lapses then old(readiness).(resume := NeedLossReport) else old(readiness))
        && awaitingTicket == (lapses || old(awaitingTicket))
      ensures stopped.None? ==> Seen() == Lapsed(old(Seen())) || (Seen() == old(Seen()) && suspendedSince.Some?)
    {
      if (viewUntil.Some? || suspendedSince.None?) && stopped.None? {
        readiness := readiness.(resume := NeedLossReport);
        awaitingTicket := true;
      }
      viewUntil := None;
      if suspendedSince.None? && stopped.None? {
        MoveInto(keys, releasedKeys);
        MoveInto(buttons, releasedButtons);
        suspendedSince := Some(now);
        assert ReleasedByHost() == Either(old(ReleasedByHost()), old(Remembered()));
        assert Remembered() == NOTHING_HELD;
      }
    }

    /** Input resumes once the view is fresh and the awaited ticket has come. */
    method TryResume()
      requires Shape() && Gated()
      modifies this`suspendedSince
      ensures Shape() && Gated()
      ensures suspendedSince == if !awaitingTicket && viewUntil.Some? then None else old(suspendedSince)
      ensures Seen() == old(Seen()) || (Seen() == old(Seen()).(live := true) && readiness.resume == Clear)
    {
      if suspendedSince.Some? && !awaitingTicket && viewUntil.Some? { suspendedSince := None; }
    }

    /** Some receipt is overdue. */
    method Overdue(now: u64) returns (late: bool)
      ensures late <==> exists i :: 0 <= i < pending.Length && pending[i].Some? && now >= pending[i].value.deadline
    {
      for i := 0 to pending.Length
        invariant forall j :: 0 <= j < i && pending[j].Some? ==> now < pending[j].value.deadline
      {
        if pending[i].Some? && now >= pending[i].value.deadline { return true; }
      }
      late := false;
    }

    /** Not stopped, the clock does not go back, no receipt is overdue, and a suspension has
        not lasted too long. */
    ghost predicate InTime(now: u64)
      reads this`stopped, this`clock, this`suspendedSince, pending
    {
      && stopped.None? && clock <= now
      && (forall i :: 0 <= i < pending.Length && pending[i].Some? ==> now < pending[i].value.deadline)
      && (suspendedSince.Some? ==> now < suspendedSince.value + MAX_VIEW_SUSPENSION_US)
    }

    /** In time, with a confirmed mapping, a fresh view and a ticket that runs on. */
    ghost predicate Sendable(now: u64)
      reads this`stopped, this`clock, this`suspendedSince, this`viewUntil, this`ticket, this`mapped, pending
    {
      && InTime(now) && suspendedSince.None? && viewUntil.Some? && now < viewUntil.value && mapped
      && (ticket.Some? ==> now < ticket.value.until)
    }

    /** Housekeeping before everything else. Success means: not stopped, the clock
        did not go back, no receipt is overdue, the view is fresh or absent, and a
        suspension has not outlasted its limit. */
    method Tick(now: u64) returns (r: Result<(), Error>)
      requires Shape() && Gated()
      modifies this`clock, this`stopped, this`viewUntil, this`readiness, this`suspendedSince, this`awaitingTicket
      modifies keys, buttons, releasedKeys, releasedButtons
      ensures r.Ok? <==> old(InTime(now))
      ensures stopped == old(stopped) || stopped in {Some(ClockRegression), Some(ReceiptTimeout), Some(ViewStale)}
      ensures Shape() && Gated() && (r.Ok? <==> stopped.None?) && (old(stopped).Some? ==> stopped == old(stopped))
      ensures r.Ok? ==>
        && clock == now && (viewUntil.Some? ==> now < viewUntil.value)
        && (suspendedSince.None? <==>
           old(suspendedSince).None? && (old(viewUntil).Some? ==> now < old(viewUntil).value))
      ensures suspendedSince == old(suspendedSince)
        || (old(suspendedSince).None? && suspendedSince == Some(now) && readiness.resume == NeedLossReport
           && viewUntil.None?)
      ensures suspendedSince == old(suspendedSince) ==>
        Remembered() == old(Remembered()) && ReleasedByHost() == old(ReleasedByHost())
      ensures viewUntil.Some? ==> viewUntil == old(viewUntil)
      ensures Seen() == old(Seen()) || (Seen() == Lapsed(old(Seen())) && viewUntil.None?)
      ensures readiness == old(readiness) || readiness == old(readiness).(resume := NeedLossReport)
      ensures suspendedSince.None? ==>
        viewUntil == old(viewUntil) && readiness == old(readiness) && awaitingTicket == old(awaitingTicket)
    {
      if stopped.Some? { return Err(Error.Stopped(stopped.value)); }
      if now < clock {
        var e := Stop(ClockRegression);
        return Err(e);
      }
      clock := now;
      var late := Overdue(now);
      if late {
        var e := Stop(ReceiptTimeout);
        return Err(e);
      }
      if viewUntil.Some? && now >= viewUntil.value { Suspend(now); }
      if suspendedSince.Some? && now >= suspendedSince.value + MAX_VIEW_SUSPENSION_US {
        var e := Stop(ViewStale);
        return Err(e);
      }
      r := Ok(());
    }

    /** The host acknowledged this grant's mapping. Acknowledging another one ends the grant. */
    method ConfirmMapping(sameSession: bool, sameView: bool, now: u64) returns (r: Result<(), Error>)
      requires Valid()
      modifies this`clock, this`stopped, this`mapped, this`viewUntil, this`readiness, this`suspendedSince,
        this`awaitingTicket
      modifies keys, buttons, releasedKeys, releasedButtons
      ensures Valid()
      ensures r.Ok? <==> sameSession && old(InTime(now)) && sameView
      ensures mapped == (old(mapped) || r.Ok?)
      ensures r.Ok? ==> stopped.None? && clock == now
      ensures sameSession && old(InTime(now)) && !sameView ==> stopped == Some(ViewChanged)
      ensures suspendedSince.None? ==> viewUntil == old(viewUntil) && View() == old(View())
      ensures r.Ok? && old(suspendedSince).None? && old(viewUntil).None? ==> suspendedSince.None?
      ensures Seen() == old(Seen()) || Seen() == Lapsed(old(Seen()))
    {
      hide Numbered, Accounted, Shape, Either, Mirror.Shaped;
      if !sameSession { return Err(StaleSession); }
      r := Tick(now);
      if r.Err? { return; }
      if !sameView {
        var e := Stop(ViewChanged);
        return Err(e);
      }
      mapped := true;
    }

    /** Qualified evidence of this grant's view extends it; evidence that is already
        too old suspends input. `sameView` is whether it names that view. */
    method Presented(serial: u64, sameView: bool, receivedAt: u64, sourceAge: u64, now: u64)
      returns (r: Result<(), Error>)
      requires Valid()
      modifies this`clock, this`stopped, this`observation, this`viewUntil, this`readiness, this`suspendedSince,
        this`awaitingTicket
      modifies keys, buttons, releasedKeys, releasedButtons
      ensures Valid()
      ensures viewUntil.Some? && viewUntil != old(viewUntil) ==>
        viewUntil.value == receivedAt + viewBound - sourceAge > now
          && (old(observation).Some? ==> old(observation).value < serial)
      ensures r.Ok? && sourceAge <= viewBound && now < receivedAt + viewBound - sourceAge ==>
        viewUntil == Some(receivedAt + viewBound - sourceAge) && observation == Some(serial)
      ensures r.Ok? && !(sourceAge <= viewBound && now < receivedAt + viewBound - sourceAge) ==>
        viewUntil.None? && suspendedSince.Some?
      ensures r.Ok? <==>
        && old(InTime(now)) && sameView && started <= receivedAt <= now
        && (old(observation).Some? ==> old(observation).value < serial)
        && (sourceAge <= viewBound ==> receivedAt + viewBound - sourceAge <= U64_MAX)
      ensures old(suspendedSince).Some? && suspendedSince.None? ==> !awaitingTicket && viewUntil.Some? && stopped.None?
      ensures r.Ok? ==> stopped.None? && clock == now && (viewUntil.Some? && !awaitingTicket ==> suspendedSince.None?)
      ensures r.Ok? && viewUntil.Some? && old(suspendedSince.None? && (viewUntil.Some? ==> now < viewUntil.value)) ==>
        suspendedSince.None? && Remembered() == old(Remembered()) && ReleasedByHost() == old(ReleasedByHost())
      ensures || Seen() == old(Seen()) || Seen() == Lapsed(old(Seen()))
              || (Seen() == old(Seen()).(live := true) && readiness.resume == Clear)
    {
      hide Numbered, Accounted, Shape, Either, Mirror.Shaped;
      r := Tick(now);
      if r.Err? { return; }
      if receivedAt < started { return Err(ObsoleteObservation); }
      if !sameView {
        var e := Stop(ViewChanged);
        return Err(e);
      }
      if observation.Some? && serial <= observation.value { return Err(ObsoleteObservation); }
      if receivedAt > now {
        var e := Stop(ClockRegression);
        return Err(e);
      }
      r := Observe(serial, receivedAt, sourceAge, now);
    }

    method Observe(serial: u64, receivedAt: u64, sourceAge: u64, now: u64) returns (r: Result<(), Error>)
      requires Shape() && Gated() && stopped.None?
      modifies this`stopped, this`observation, this`viewUntil, this`readiness, this`suspendedSince, this`awaitingTicket
      modifies keys, buttons, releasedKeys, releasedButtons
      ensures Shape() && Gated()
      ensures var until := receivedAt + viewBound - sourceAge;
        if sourceAge <= viewBound && until > U64_MAX then
          stopped == Some(CounterExhausted) && viewUntil == old(viewUntil)
        else
          && viewUntil == (if sourceAge <= viewBound && now < until then Some(until) else None)
          && observation == Some(serial)
      ensures suspendedSince.None? <==>
        if viewUntil.Some? && stopped.None? then old(suspendedSince).None? || !awaitingTicket
        else old(suspendedSince).None? && stopped.Some?
      ensures viewUntil.Some? ==> Remembered() == old(Remembered()) && ReleasedByHost() == old(ReleasedByHost())
      ensures r.Err? <==> stopped.Some?
      ensures stopped.Some? <==> sourceAge <= viewBound && receivedAt + viewBound - sourceAge > U64_MAX
      ensures || Seen() == old(Seen()) || Seen() == Lapsed(old(Seen()))
              || (Seen() == old(Seen()).(live := true) && readiness.resume == Clear)
    {
      hide Shape, Either, Mirror.Shaped;
      if sourceAge > viewBound {
        observation := Some(serial);
        Suspend(now);
        return Ok(());
      }
      var until := receivedAt + (viewBound - sourceAge);
      if until > U64_MAX {
        var e := Stop(CounterExhausted);
        return Err(e);
      }
      observation := Some(serial);
      if now >= until {
        Suspend(now);
        return Ok(());
      }
      viewUntil := Some(until);
      TryResume();
      r := Ok(());
    }

    /** The transport took the oldest record still waiting. */
    ghost method Admitted()
      requires Valid() && unsent != []
      modifies this`sent, this`unsent
      ensures Valid() && sent == old(sent) + [old(unsent)[0]] && unsent == old(unsent)[1..]
    {
      hide Accounts, Latest, Slot;
      ghost var all := sent + unsent;
      sent, unsent := sent + [unsent[0]], unsent[1..];
      assert sent + unsent == all;
    }

    /** While suspended, the newest action that never entered the transport gives
        its number back; the next action uses it again. If the transport did take
        it, against what the caller promises, a number is used twice. */
    method AbandonUnsent(record: Unsent) returns (r: Result<(), Error>)
      requires Valid()
      modifies this`nextAction, this`nextHeld, this`heldAfter, this`unsent, pending
      ensures r.Ok? && record.UnsentAction? && old(unsent) == [] <==> !Valid()
      ensures r.Ok? && record.UnsentAction? ==> nextAction == Some(record.sequence)
      ensures r.Ok? && record.UnsentAction? && old(unsent) != [] ==>
        old(unsent)[|old(unsent)| - 1] == record.sequence && unsent == old(unsent)[..|old(unsent)| - 1]
      ensures r.Ok? && record.UnsentAction? && old(unsent) == [] ==> record.sequence in sent
      ensures record.UnsentAction? ==>
        (r.Ok? <==>
          && suspendedSince.Some? && old(nextAction) == CheckedAdd(record.sequence, 1)
          && IsPending(old(pending[..]), record.sequence))
      ensures record.UnsentHeld? ==>
        (r.Ok? <==> suspendedSince.Some? && old(nextHeld) == CheckedAdd(record.sequence, 1))
      ensures record.UnsentPointer? ==> (r.Ok? <==> suspendedSince.Some?)
      ensures nextHeld == if r.Ok? && record.UnsentHeld? then Some(record.sequence) else old(nextHeld)
      ensures r.Err? || !record.UnsentAction? ==>
        unsent == old(unsent) && nextAction == old(nextAction) && pending[..] == old(pending[..])
      ensures r.Ok? ==> suspendedSince.Some?
    {
      hide Accounts, Latest, Slot;
      if suspendedSince.None? { return Err(InvalidTransition); }
      match record {
        case UnsentAction(sequence) =>
          if nextAction != CheckedAdd(sequence, 1) { return Err(InvalidTransition); }
          var slot := FindPending(sequence);
          if slot == pending.Length { return Err(InvalidTransition); }
          ghost var n := |sent| + |unsent|;
          assert (sent + unsent)[n - 1] == sequence;
          if unsent != [] {
            AccountAbandon(pending[..], completed, n, slot);
            unsent := unsent[..|unsent| - 1];
            assert sent + unsent == (old(sent) + old(unsent))[..n - 1];
          } else {
            assert sent == sent + unsent;
          }
          pending[slot] := None;
          assert pending[..] == old(pending[..])[slot := None];
          nextAction := Some(sequence);
        case UnsentHeld(sequence) =>
          if nextHeld != CheckedAdd(sequence, 1) { return Err(InvalidTransition); }
          nextHeld, heldAfter := Some(sequence), None;
        case UnsentPointer =>
      }
      r := Ok(());
    }

    method FindPending(sequence: u64) returns (slot: nat)
      ensures slot <= pending.Length
      ensures slot < pending.Length ==> pending[slot].Some? && pending[slot].value.sequence == sequence
      ensures slot == pending.Length <==> !IsPending(pending[..], sequence)
    {
      slot := 0;
      while slot < pending.Length
        invariant slot <= pending.Length
        invariant forall j :: 0 <= j < slot && pending[j].Some? ==> pending[j].value.sequence != sequence
      {
        if pending[slot].Some? && pending[slot].value.sequence == sequence {
          assert pending[..][slot] == pending[slot];
          return;
        }
        slot := slot + 1;
      }
    }

    /** Whether an action may be sent now. */
    method Ready(now: u64) returns (r: Result<(), Error>)
      requires Shape() && Gated()
      modifies this`clock, this`stopped, this`viewUntil, this`readiness, this`suspendedSince, this`awaitingTicket
      modifies keys, buttons, releasedKeys, releasedButtons
      ensures Shape() && Gated()
      ensures r.Ok? ==>
        && stopped.None? && suspendedSince.None? && mapped && viewUntil.Some? && now < viewUntil.value
        && (ticket.Some? ==> now < ticket.value.until)
        && Remembered() == old(Remembered()) && ReleasedByHost() == old(ReleasedByHost())
        && Remembered().Shaped() && ReleasedByHost().Shaped()
        && readiness == old(readiness) && awaitingTicket == old(awaitingTicket) && viewUntil == old(viewUntil)
        && suspendedSince == old(suspendedSince)
      ensures r.Err? ==>
        stopped.Some? || suspendedSince.Some? || !mapped || viewUntil.None?
          || (ticket.Some? && now >= ticket.value.until)
      ensures Seen() == old(Seen()) || (r.Err? && Seen() == Lapsed(old(Seen())))
      ensures r.Ok? <==> old(Sendable(now))
    {
      r := Tick(now);
      if r.Err? { return; }
      if suspendedSince.Some? { return Err(ViewSuspended); }
      if ticket.Some? && now >= ticket.value.until { return Err(TicketExpired); }
      if !mapped { return Err(MappingUnconfirmed); }
      if viewUntil.None? { return Err(NoPresentedView); }
    }

    function View(): (r: ClientView)
      reads keys, buttons, releasedKeys, releasedButtons
    {
      ClientView(capabilities, bounds, Remembered(), ReleasedByHost())
    }

    /** A free place in the window of unanswered actions. */
    method FreeSlot() returns (slot: nat)
      ensures slot <= pending.Length && (slot < pending.Length ==> pending[slot].None?)
      ensures slot == pending.Length ==> forall i :: 0 <= i < pending.Length ==> pending[i].Some?
    {
      slot := 0;
      while slot < pending.Length
        invariant slot <= pending.Length && forall i :: 0 <= i < slot ==> pending[i].Some?
      {
        if pending[slot].None? { return; }
        slot := slot + 1;
      }
    }

    /** Track the transition an encoded event makes. */
    method Remember(e: Event)
      requires Shape() && suspendedSince.None?
      modifies keys, buttons, releasedKeys, releasedButtons
      ensures Shape() && Remembered() == Sent(old(Remembered()), e)
        && ReleasedByHost() == Forgiven(old(ReleasedByHost()), e)
    {
      match e {
        case Key(key, t) =>
          keys[key], releasedKeys[key] := t != Release, false;
        case Button(b, pressed, _, _) =>
          buttons[b], releasedButtons[b] := pressed, false;
        case _ =>
      }
      assert Remembered() == Sent(old(Remembered()), e);
      assert ReleasedByHost() == Forgiven(old(ReleasedByHost()), e);
    }

    /** One reliable action: checked, numbered, remembered. `encodes` is whether its
        record fits the wire; a refused encoding consumes nothing. */
    method Act(action: Action, encodes: bool, now: u64) returns (r: Result<(u64, Prepared), Error>, ghost barrier: u64)
      requires Valid()
      modifies this`clock, this`stopped, this`viewUntil, this`readiness, this`suspendedSince, this`awaitingTicket
      modifies this`nextAction, this`nextPointer, this`unsent, pending, keys, buttons, releasedKeys, releasedButtons
      ensures Valid()
      ensures r.Ok? ==>
        && old(nextAction) == Some(r.value.0) && unsent == old(unsent) + [r.value.0]
        && EventFor(old(View()), action, barrier) == Ok(r.value.1)
        && IsPendingAs(r.value.0, now + receiptTimeout, r.value.1.minimum, r.value.1.maximum)
        && Remembered() == Sent(old(Remembered()), r.value.1.event)
      ensures r.Ok? ==> old(suspendedSince).None? && suspendedSince.None? && encodes && mapped && stopped.None?
      ensures r.Err? ==> unsent == old(unsent) && nextAction == old(nextAction) && pending[..] == old(pending[..])
      ensures r.Ok? ==> Seen() == old(Seen()).(remembered := Sent(old(Remembered()), r.value.1.event))
      ensures r.Err? ==> Seen() == old(Seen()) || Seen() == Lapsed(old(Seen()))
      ensures r.Ok? <==>
        && old(Sendable(now)) && encodes && (exists i :: 0 <= i < pending.Length && old(pending[i]).None?)
        && old(nextAction).Some? && (action.ButtonAction? || action.ScrollAction? ==> old(nextPointer).Some?)
        && now + receiptTimeout <= U64_MAX && EventFor(old(View()), action, Barrier(action, old(nextPointer))).Ok?
      ensures r.Ok? ==> barrier == Barrier(action, old(nextPointer))
      ensures r.Ok? && (action.ButtonAction? || action.ScrollAction?) ==> old(nextPointer) == Some(barrier)
      ensures nextPointer == if r.Ok? && (action.ButtonAction? || action.ScrollAction?) then CheckedAdd(barrier, 1)
        else old(nextPointer)
    {
      hide Numbered, Accounted, EventFor, Sent, Forgiven, Shape, Mirror.Shaped;
      barrier := 0;
      var ready := Ready(now);
      if ready.Err? { return Err(ready.error), barrier; }
      assert View() == old(View());
      r, barrier := Submit(action, encodes, now);
    }

    /** Coordinate actions carry the next pointer number, so that older samples end. */
    static function Barrier(action: Action, nextPointer: Option<u64>): (r: u64) {
      if (action.ButtonAction? || action.ScrollAction?) && nextPointer.Some? then nextPointer.value else 0
    }

    /** An action of a live, fresh view: numbered and remembered, or refused. */
    method Submit(action: Action, encodes: bool, now: u64)
      returns (r: Result<(u64, Prepared), Error>, ghost barrier: u64)
      requires Valid() && suspendedSince.None? && Remembered().Shaped() && ReleasedByHost().Shaped()
      modifies this`stopped, this`nextAction, this`nextPointer, this`unsent, pending, keys, buttons, releasedKeys,
        releasedButtons
      ensures Valid()
      ensures r.Ok? ==>
        && old(nextAction) == Some(r.value.0) && unsent == old(unsent) + [r.value.0] && encodes
        && stopped == old(stopped)
        && EventFor(old(View()), action, barrier) == Ok(r.value.1)
        && IsPendingAs(r.value.0, now + receiptTimeout, r.value.1.minimum, r.value.1.maximum)
        && Remembered() == Sent(old(Remembered()), r.value.1.event)
      ensures r.Err? ==> unsent == old(unsent) && nextAction == old(nextAction) && pending[..] == old(pending[..])
      ensures r.Err? ==> Remembered() == old(Remembered())
      ensures r.Ok? <==>
        && encodes && (exists i :: 0 <= i < pending.Length && old(pending[i]).None?) && old(nextAction).Some?
        && (action.ButtonAction? || action.ScrollAction? ==> old(nextPointer).Some?) && now + receiptTimeout <= U64_MAX
        && EventFor(old(View()), action, Barrier(action, old(nextPointer))).Ok?
      ensures r.Ok? ==> barrier == Barrier(action, old(nextPointer))
      ensures r.Ok? && (action.ButtonAction? || action.ScrollAction?) ==> old(nextPointer) == Some(barrier)
      ensures nextPointer == if r.Ok? && (action.ButtonAction? || action.ScrollAction?) then CheckedAdd(barrier, 1)
        else old(nextPointer)
    {
      hide Numbered, Accounted, EventFor, Sent, Forgiven, Shape, Mirror.Shaped;
      barrier := 0;
      var slot := FreeSlot();
      if slot == pending.Length { return Err(Backpressure), barrier; }
      var coordinate := action.ButtonAction? || action.ScrollAction?;
      var deadline := CheckedAdd(now, receiptTimeout);
      if nextAction.None? || (coordinate && nextPointer.None?) {
        var e := Stop(CounterExhausted);
        return Err(e), barrier;
      }
      var sequence := nextAction.value;
      var cut := Barrier(action, nextPointer);
      barrier := cut;
      var prepared := EventFor(View(), action, cut);
      if prepared.Err? { return Err(prepared.error), barrier; }
      if deadline.None? {
        var e := Stop(CounterExhausted);
        return Err(e), barrier;
      }
      if !encodes { return Err(WireRefused), barrier; }
      Remember(prepared.value.event);
      Enqueue(slot, Pending(sequence, deadline.value, prepared.value.minimum, prepared.value.maximum));
      if coordinate { nextPointer := CheckedAdd(cut, 1); }
      r := Ok((sequence, prepared.value));
    }

    predicate IsPendingAs(sequence: u64, deadline: nat, minimum: nat, maximum: nat)
      reads pending
    {
      exists i :: 0 <= i < pending.Length && pending[i].Some? && pending[i].value.sequence == sequence
        && pending[i].value == Pending(sequence, pending[i].value.deadline, minimum, maximum)
        && pending[i].value.deadline == deadline
    }

    method Enqueue(slot: nat, x: Pending)
      requires Numbered() && Accounted() && slot < pending.Length && pending[slot].None?
        && nextAction == Some(x.sequence)
      modifies this`nextAction, this`unsent, pending
      ensures Numbered() && Accounted() && unsent == old(unsent) + [x.sequence]
      ensures IsPendingAs(x.sequence, x.deadline, x.minimum, x.maximum)
    {
      hide Accounts, Latest, Slot;
      AccountAdd(pending[..], completed, x.sequence, slot, x);
      ghost var p := pending[..];
      pending[slot] := Some(x);
      assert pending[..] == p[slot := Some(x)];
      unsent := unsent + [x.sequence];
      assert sent + unsent == (old(sent) + old(unsent)) + [x.sequence];
      nextAction := CheckedAdd(x.sequence, 1);
    }

    /** A replaceable pointer sample. Its number is never used again either. */
    method MovePointer(position: DesktopPoint, encodes: bool, now: u64) returns (r: Result<u64, Error>)
      requires Valid()
      modifies this`clock, this`stopped, this`viewUntil, this`readiness, this`suspendedSince, this`awaitingTicket
      modifies this`nextPointer, keys, buttons, releasedKeys, releasedButtons
      ensures Valid()
      ensures r.Ok? ==>
        old(nextPointer) == Some(r.value) && nextPointer == CheckedAdd(r.value, 1) && bounds.Contains(position)
      ensures r.Err? ==> nextPointer == old(nextPointer)
      ensures Seen() == old(Seen()) || Seen() == Lapsed(old(Seen()))
      ensures r.Ok? <==> old(Sendable(now)) && Reaches(old(View()), position) && old(nextPointer).Some? && encodes
    {
      hide Numbered, Accounted;
      var ready := Ready(now);
      if ready.Err? { return Err(ready.error); }
      var refusal := PositionRefusal(View(), position);
      if refusal.Some? { return Err(refusal.value); }
      if nextPointer.None? {
        var e := Stop(CounterExhausted);
        return Err(e);
      }
      if !encodes { return Err(WireRefused); }
      r := Ok(nextPointer.value);
      nextPointer := CheckedAdd(nextPointer.value, 1);
    }

    /** A retained receipt of this action, if any. */
    method FindReceipt(sequence: u64) returns (r: Option<InputResult>)
      requires Accounted()
      ensures r.Some? ==>
        && r.value.sequence == sequence
        && exists k :: 0 <= k < |completed| <= k + MAX_PENDING_ACTIONS && completed[k] == r.value
      ensures r.None? ==>
        forall k :: 0 <= k < |completed| <= k + MAX_PENDING_ACTIONS ==> completed[k].sequence != sequence
    {
      hide Accounts;
      for i := 0 to MAX_PENDING_ACTIONS
        invariant forall j :: 0 <= j < i && receipts[j].Some? ==> receipts[j].value.sequence != sequence
      {
        if receipts[i].Some? && receipts[i].value.sequence == sequence {
          ghost var k := Latest(|completed|, MAX_PENDING_ACTIONS, i).value;
          LatestIsWindow(|completed|, MAX_PENDING_ACTIONS, i, k);
          assert completed[k] == receipts[i].value;
          return receipts[i];
        }
      }
      forall k | 0 <= k < |completed| <= k + MAX_PENDING_ACTIONS
        ensures completed[k].sequence != sequence
      {
        ghost var slot := Slot(k, MAX_PENDING_ACTIONS);
        LatestIsWindow(|completed|, MAX_PENDING_ACTIONS, slot, k);
        assert receipts[slot] == var m := Latest(|completed|, MAX_PENDING_ACTIONS, slot);
                                 if m.Some? then Some(completed[m.value]) else None;
      }
      r := None;
    }

    /** Settle one pending action. */
    method Settle(slot: nat, result: InputResult)
      requires Numbered() && Accounted() && slot < pending.Length
      requires pending[slot].Some? && pending[slot].value.sequence == result.sequence
      modifies this`completed, this`receiptCursor, pending, receipts
      ensures Accounted() && completed == old(completed) + [result]
    {
      hide Accounts, Slot;
      AccountComplete(pending[..], completed, |sent| + |unsent|, slot, result);
      SlotStep(|completed|, MAX_PENDING_ACTIONS);
      WrapAround(receiptCursor, MAX_PENDING_ACTIONS);
      ghost var p := pending[..];
      pending[slot] := None;
      assert pending[..] == p[slot := None];
      receipts[receiptCursor] := Some(result);
      receiptCursor := (receiptCursor + 1) % MAX_PENDING_ACTIONS;
      completed := completed + [result];
    }

    /** A receipt of the host. Each action completes once, with a count that fits
        what was sent; a repeated receipt changes nothing; anything else stops this
        owner, and so does every outcome but success. */
    method Receive(result: InputResult, now: u64) returns (r: Result<ResultEvent, Error>)
      requires Valid()
      modifies this`clock, this`stopped, this`viewUntil, this`readiness, this`suspendedSince, this`awaitingTicket
      modifies this`completed, this`receiptCursor, pending, receipts, keys, buttons, releasedKeys, releasedButtons
      ensures Valid()
      ensures result.space == ActionSpace ==> Answered(old(pending[..]), old(completed), result, r)
      ensures result.space == PointerSpace ==>
        pending[..] == old(pending[..]) && (r.Ok? ==> r.value == PointerResult(result))
      ensures completed == old(completed) + if r.Ok? && r.value.Completed? then [result] else []
      ensures r.Err? || result.outcome != SubmittedToOs ==>
        stopped.Some? || (r.Ok? && (r.value.Duplicate? || r.value.Unretained?))
      ensures Seen() == old(Seen()) || Seen() == Lapsed(old(Seen()))
    {
      hide Numbered, Accounted, Shape, Answered, Gated;
      var _ := Tick(now);
      if result.space == ActionSpace {
        r := ReceiveAction(result);
      } else if nextPointer.Some? && result.sequence >= nextPointer.value {
        var e := Stop(InvalidReceipt);
        r := Err(e);
      } else {
        if result.outcome != SubmittedToOs { var _ := Stop(ActionFailed); }
        r := Ok(PointerResult(result));
      }
    }

    /** What a receipt means for the numbers that were open and settled before it. */
    static ghost predicate Answered(p: seq<Option<Pending>>, c: seq<InputResult>, result: InputResult,
                                    r: Result<ResultEvent, Error>) {
      if IsPending(p, result.sequence) then
        exists i :: 0 <= i < |p| && p[i].Some? && p[i].value.sequence == result.sequence
          && r.Ok? == CountFits(result.outcome, result.submitted, p[i].value.minimum, p[i].value.maximum)
          && (r.Ok? ==> r.value == ResultEvent.Completed(result))
      else if IsCompleted(c, result.sequence) then
        exists k :: 0 <= k < |c| && c[k].sequence == result.sequence
          && if |c| > k + MAX_PENDING_ACTIONS then r == Ok(Unretained)
             else if c[k] == result then r == Ok(Duplicate(result))
             else r.Err?
      else r.Err?
    }

    method ReceiveAction(result: InputResult) returns (r: Result<ResultEvent, Error>)
      requires Numbered() && Accounted() && result.space == ActionSpace
      modifies this`stopped, this`completed, this`receiptCursor, pending, receipts
      ensures Numbered() && Accounted() && Answered(old(pending[..]), old(completed), result, r)
      ensures completed == old(completed) + if r.Ok? && r.value.Completed? then [result] else []
      ensures if r.Err? then stopped.Some? else !r.value.PointerResult?
      ensures r.Ok? && r.value.Completed? && result.outcome != SubmittedToOs ==> stopped.Some?
      ensures old(stopped).Some? ==> stopped == old(stopped)
    {
      hide Accounts, Latest, Slot, CountFits;
      OnceOnly(pending[..], completed, |sent| + |unsent|, result.sequence);
      var retained := FindReceipt(result.sequence);
      if retained.Some? {
        Retained(pending[..], completed, |sent| + |unsent|, retained.value, result);
        if retained.value != result {
          var e := Stop(InvalidReceipt);
          return Err(e);
        }
        return Ok(Duplicate(result));
      }
      var slot := FindPending(result.sequence);
      if slot == pending.Length {
        if nextAction.None? || result.sequence < nextAction.value { return Ok(Unretained); }
        var e := Stop(InvalidReceipt);
        return Err(e);
      }
      var p := pending[slot].value;
      assert pending[..][slot] == Some(p);
      if !CountFits(result.outcome, result.submitted, p.minimum, p.maximum) {
        var e := Stop(InvalidReceipt);
        return Err(e);
      }
      Settle(slot, result);
      if result.outcome != SubmittedToOs { var _ := Stop(ActionFailed); }
      r := Ok(ResultEvent.Completed(result));
    }

    /** Report what is really held; never more than what this owner sent. */
    method ReconcileHeld(observed: set<Held>, encodes: bool, now: u64) returns (r: Result<Option<HeldSnapshot>, Error>)
      requires Valid()
      modifies this`clock, this`stopped, this`viewUntil, this`readiness, this`suspendedSince, this`awaitingTicket
      modifies this`nextHeld, this`heldAfter, keys, buttons, releasedKeys, releasedButtons
      ensures Valid()
      ensures r.Ok? && r.value.Some? ==>
        && suspendedSince.None? && old(nextAction) == Some(r.value.value.nextAction)
        && old(nextHeld) == Some(r.value.value.sequence)
        && Remembered() == Shared(old(Remembered()), observed) && r.value.value.held == HeldSet(Remembered())
      ensures r.Ok? && r.value.Some? ==>
        Seen() == old(Seen()).(remembered := Shared(old(Remembered()), observed)) && Seen().live
      ensures r.Ok? && r.value.Some? <==>
        && old(InTime(now)) && old(suspendedSince).None? && (old(viewUntil).Some? ==> now < old(viewUntil).value)
        && (old(heldAfter).Some? ==> old(heldAfter).value <= now) && encodes
        && old(nextHeld).Some? && nextAction.Some? && now + HELD_STATE_INTERVAL_US <= U64_MAX
      ensures r.Ok? && r.value.Some? ==>
        nextHeld == CheckedAdd(r.value.value.sequence, 1) && heldAfter == Some(now + HELD_STATE_INTERVAL_US)
      ensures !(r.Ok? && r.value.Some?) ==>
        nextHeld == old(nextHeld) && (Seen() == old(Seen()) || Seen() == Lapsed(old(Seen())))
    {
      hide Numbered, Accounted;
      var tick := Tick(now);
      if tick.Err? { return Err(tick.error); }
      if suspendedSince.Some? { return Err(ViewSuspended); }
      if heldAfter.Some? && now < heldAfter.value { return Ok(None); }
      if nextHeld.None? || nextAction.None? || now + HELD_STATE_INTERVAL_US > U64_MAX {
        var e := Stop(CounterExhausted);
        return Err(e);
      }
      if !encodes { return Err(WireRefused); }
      Keep(observed);
      r := Ok(Some(HeldSnapshot(nextHeld.value, nextAction.value, HeldSet(Remembered()))));
      nextHeld, heldAfter := CheckedAdd(nextHeld.value, 1), Some(now + HELD_STATE_INTERVAL_US);
    }

    method Keep(observed: set<Held>)
      requires Shape() && suspendedSince.None?
      modifies keys, buttons
      ensures Shape() && Remembered() == Shared(old(Remembered()), observed)
    {
      for i := 0 to KEYS
        modifies keys
        invariant forall u :: 0 <= u < i ==> keys[u] == (old(keys[u]) && HeldKey(u) in observed)
        invariant forall u :: i <= u < KEYS ==> keys[u] == old(keys[u])
      {
        keys[i] := keys[i] && HeldKey(i) in observed;
      }
      for i := 0 to BUTTONS
        modifies buttons
        invariant forall b :: 0 <= b < i ==> buttons[b] == (old(buttons[b]) && HeldButton(b) in observed)
        invariant forall b :: i <= b < BUTTONS ==> buttons[b] == old(buttons[b])
      {
        buttons[i] := buttons[i] && HeldButton(i) in observed;
      }
      assert Remembered() == Shared(old(Remembered()), observed);
    }

    /** A presentation report entered the transport. A negative one is the barrier
        of the current suspension, and starts one if there is none. */
    method ReportAdmitted(sequence: u64, visible: bool, now: u64) returns (r: Result<(), Error>)
      requires Valid()
      modifies this`clock, this`stopped, this`viewUntil, this`readiness, this`suspendedSince, this`awaitingTicket
      modifies keys, buttons, releasedKeys, releasedButtons
      ensures Valid()
      ensures r.Ok? <==> old(InTime(now)) && sequence == old(readiness).ceiling + 1
      ensures r.Ok? ==> sequence == readiness.ceiling
      ensures r.Ok? && !visible ==>
        suspendedSince.Some? && readiness.resume == AfterLoss(sequence) && Remembered() == NOTHING_HELD
      ensures suspendedSince.None? ==> old(suspendedSince).None?
      ensures r.Err? ==> Seen() == old(Seen()) || Seen() == Lapsed(old(Seen()))
      ensures r.Ok? ==>
        || Seen() == AfterReport(old(Seen()), sequence, visible)
        || Seen() == AfterReport(Lapsed(old(Seen())), sequence, visible)
    {
      hide Numbered, Accounted, Shape, Either, Mirror.Shaped;
      r := Tick(now);
      if r.Err? { return; }
      if readiness.ceiling + 1 != sequence {
        var e := Stop(InvalidTicket);
        return Err(e);
      }
      readiness := readiness.(ceiling := sequence);
      if !visible {
        if readiness.resume != NeedLossReport { Suspend(now); }
        readiness := readiness.(resume := AfterLoss(sequence));
        awaitingTicket := true;
      }
    }

    /** A ticket of the host. `bound` is whether it names this grant and view on a
        trusted clock. Input resumes only when the ticket answers a presentation
        report that entered the transport after this suspension's loss report. */
    method AcceptTicket(record: TicketRecord, bound: bool, now: u64) returns (r: Result<(), Error>)
      requires Valid()
      modifies this`clock, this`stopped, this`viewUntil, this`readiness, this`suspendedSince, this`awaitingTicket,
        this`ticket
      modifies keys, buttons, releasedKeys, releasedButtons
      ensures Valid()
      ensures r.Ok? ==> ticket == Some(record) && now < record.until && record.presented <= readiness.ceiling
      ensures old(ticket).Some? && ticket != old(ticket) ==>
        ticket == Some(record) && record.sequence > old(ticket).value.sequence
      ensures old(suspendedSince).Some? && suspendedSince.None? ==>
        && r.Ok? && stopped.None? && viewUntil.Some?
        && (old(readiness).resume == Clear
            || (old(readiness).resume.AfterLoss? && record.presented > old(readiness).resume.sequence))
      ensures r.Ok? && old(suspendedSince).None? && suspendedSince.None? ==> Remembered() == old(Remembered())
      ensures r.Err? ==> stopped.Some? || record.until <= now
      ensures old(stopped).None? && stopped == Some(InvalidTicket) ==>
        !bound || (old(ticket).Some? && record.sequence <= old(ticket).value.sequence)
          || Acknowledge(old(readiness), record.presented).None?
      ensures r.Ok? && viewUntil.Some? && readiness.resume == Clear ==> suspendedSince.None?
      ensures r.Err? ==> Seen() == old(Seen()) || Seen() == Lapsed(old(Seen()))
      ensures r.Ok? ==>
        Ticketed(old(Seen()), Seen(), record.presented) || Ticketed(Lapsed(old(Seen())), Seen(), record.presented)
      ensures r.Ok? <==>
        && old(InTime(now))
        && bound && (old(ticket).Some? ==> old(ticket).value.sequence < record.sequence) && now < record.until
        && 0 < record.presented <= old(readiness).ceiling && old(readiness).acknowledged <= record.presented
    {
      hide Numbered, Accounted, Shape, Either, Mirror.Shaped, Acknowledge;
      r := Tick(now);
      AcknowledgeFrame(old(readiness), readiness, record.presented);
      if r.Err? { return; }
      r := Install(record, bound, now);
    }

    method Install(record: TicketRecord, bound: bool, now: u64) returns (r: Result<(), Error>)
      requires Shape() && Gated() && stopped.None?
      modifies this`stopped, this`readiness, this`suspendedSince, this`awaitingTicket, this`ticket
      ensures Shape() && Gated()
      ensures r.Ok? ==>
        ticket == Some(record) && now < record.until && record.presented <= readiness.ceiling && stopped.None?
      ensures r.Err? ==> stopped.Some? || record.until <= now
      ensures stopped.Some? <==>
        !bound || (old(ticket).Some? && record.sequence <= old(ticket).value.sequence)
        || (record.until > now && Acknowledge(old(readiness), record.presented).None?)
      ensures stopped in {None, Some(InvalidTicket)}
      ensures ticket != old(ticket) ==>
        ticket == Some(record) && (old(ticket).Some? ==> record.sequence > old(ticket).value.sequence)
      ensures old(suspendedSince).Some? && suspendedSince.None? ==>
        && r.Ok? && viewUntil.Some?
        && (old(readiness).resume == Clear
            || (old(readiness).resume.AfterLoss? && record.presented > old(readiness).resume.sequence))
      ensures suspendedSince == old(suspendedSince) || suspendedSince.None?
      ensures r.Ok? && viewUntil.Some? && readiness.resume == Clear ==> suspendedSince.None?
      ensures if r.Ok? then Ticketed(old(Seen()), Seen(), record.presented) else Seen() == old(Seen())
      ensures r.Ok? <==>
        && bound && (old(ticket).Some? ==> old(ticket).value.sequence < record.sequence) && now < record.until
        && 0 < record.presented <= old(readiness).ceiling && old(readiness).acknowledged <= record.presented
    {
      hide Shape;
      if !bound || (ticket.Some? && record.sequence <= ticket.value.sequence) {
        var e := Stop(InvalidTicket);
        return Err(e);
      }
      ticket := Some(record);
      if record.until <= now { return Err(TicketExpired); }
      var acknowledged := Acknowledge(readiness, record.presented);
      if acknowledged.None? {
        var e := Stop(InvalidTicket);
        return Err(e);
      }
      readiness := acknowledged.value.0;
      if suspendedSince.Some? && acknowledged.value.1 {
        awaitingTicket := false;
        TryResume();
      }
      r := Ok(());
    }
  }

  /** A lapse does not change which reports may be acknowledged. */
  lemma AcknowledgeFrame(s: Readiness, t: Readiness, sequence: u64)
    requires t == s.(resume := t.resume)
    ensures Acknowledge(s, sequence).None? == Acknowledge(t, sequence).None?
  {}

  /** A completed action has one receipt. */
  lemma Retained(p: seq<Option<Pending>>, c: seq<InputResult>, n: nat, r: InputResult, other: InputResult)
    requires Accounts(p, c, n) && r in c && other.sequence == r.sequence
    ensures IsCompleted(c, r.sequence) && (other in c ==> other == r)
  {
    var k :| 0 <= k < |c| && c[k] == r;
    assert c[k].sequence == r.sequence;
  }

  lemma OnceOnly(p: seq<Option<Pending>>, c: seq<InputResult>, n: nat, sequence: nat)
    requires Accounts(p, c, n)
    ensures !(IsPending(p, sequence) && IsCompleted(c, sequence))
    ensures IsPending(p, sequence) || IsCompleted(c, sequence) <==> sequence < n
  {}
}
