/** The input vocabulary: events, the native operations they expand to, and the
    held state those operations leave behind. */
module Input {
  import opened Common

  const I32_MIN: int := -0x8000_0000
  const I32_MAX: int := 0x7FFF_FFFF
  const MAX_COMMITTED_TEXT_BYTES: nat := 4096
  const KEYS: nat := 256
  const BUTTONS: nat := 5

  type i32 = n: int | I32_MIN <= n <= I32_MAX

  /** USB keyboard page positions this protocol carries. */
  predicate IsKey(usage: int) { 4 <= usage <= 0xa4 || 0xe0 <= usage <= 0xe7 }

  type PhysicalKey = u: int | IsKey(u) witness 4

  datatype Transition = Release | Press | Repeat
  /** Primary, secondary, middle, back, forward. */
  type PointerButton = b: int | 0 <= b < BUTTONS
  datatype ScrollUnit = Pixels | Lines
  datatype PointerMode = AbsoluteMode | RelativeMode
  datatype WheelDirection = Left | Right | Up | Down
  datatype DesktopPoint = DesktopPoint(x: i32, y: i32)
  datatype InputBounds = InputBounds(origin: DesktopPoint, width: nat, height: nat) {
    predicate Contains(p: DesktopPoint) {
      0 <= p.x - origin.x < width && 0 <= p.y - origin.y < height
    }
  }
  datatype InputView = InputView(geometry: u64, viewport: u64, configuration: u64, recovery: u64)
  datatype Credentials = Credentials(session: u64, lease: u64, ticket: u64, view: InputView)

  datatype Capability =
    | CapKeys | CapRepeat | CapAbsolute | CapButtons | CapRelative | CapPixelScroll | CapLineScroll | CapText
  type Capabilities = set<Capability>

  /** Text is a sequence of Unicode scalars. */
  datatype Event =
    | Key(key: PhysicalKey, transition: Transition)
    | Button(button: PointerButton, pressed: bool, position: DesktopPoint, barrier: u64)
    | Pointer(position: DesktopPoint)
    | Relative(modeEpoch: u64, x: int, y: int)
    | Scroll(position: DesktopPoint, barrier: u64, dx: i32, dy: i32, unit: ScrollUnit)
    | Text(scalars: seq<char>)
    | Mode(mode: PointerMode, epoch: u64)

  datatype Request = Request(credentials: Credentials, sequence: u64, event: Event)

  datatype Operation =
    | OpKey(key: PhysicalKey, transition: Transition)
    | OpAbsolute(position: DesktopPoint)
    | OpButton(button: PointerButton, pressed: bool)
    | OpRelative(x: i32, y: i32)
    | OpScroll(dx: i32, dy: i32, unit: ScrollUnit)
    | OpWheel(direction: WheelDirection, pressed: bool)
    | OpText(scalar: char)

  /** The only operations local cleanup may submit after revocation. */
  predicate IsRelease(op: Operation) {
    match op
    case OpKey(_, t) => t == Release
    case OpButton(_, pressed) => !pressed
    case OpWheel(_, pressed) => !pressed
    case _ => false
  }

  // ------------------------------------------------------------ discrete wheel

  const LINE: int := 0x1_0000
  const MAX_STEPS: nat := 32

  function Abs(n: int): (r: nat) { if n < 0 then -n else n }

  function Copies(d: WheelDirection, n: nat): (r: seq<WheelDirection>) {
    seq(n, _ => d)
  }

  /** Whole, bounded lines only: horizontal steps first, then vertical ones. */
  function LineScroll(dx: i32, dy: i32): (r: Option<seq<WheelDirection>>) {
    if dx % LINE != 0 || dy % LINE != 0 || Abs(dx) / LINE + Abs(dy) / LINE > MAX_STEPS then None
    else Some(Copies(if dx < 0 then Left else Right, Abs(dx) / LINE)
              + Copies(if dy < 0 then Up else Down, Abs(dy) / LINE))
  }

  function WheelOps(steps: seq<WheelDirection>): (ops: seq<Operation>)
    ensures |ops| == 2 * |steps|
  {
    if steps == [] then []
    else WheelOps(steps[..|steps| - 1]) + [OpWheel(steps[|steps| - 1], true), OpWheel(steps[|steps| - 1], false)]
  }

  /** API submissions of a complete discrete scroll, its positioning included. */
  function NativeOperations(steps: seq<WheelDirection>): (r: nat) { 1 + 2 * |steps| }

  predicate Counts(delta: i32, lines: int) { delta == lines * LINE }

  lemma WholeLine(delta: i32)
    ensures delta % LINE == 0 <==> exists n: int :: Counts(delta, n)
    ensures forall n: int :: Counts(delta, n) ==> Abs(delta) / LINE == Abs(n)
  {
    if delta % LINE == 0 { assert Counts(delta, delta / LINE); }
  }

  /** A scroll has a discrete form if and only if it is at most that many whole lines. */
  lemma LinesExactly(dx: i32, dy: i32)
    ensures LineScroll(dx, dy).Some? <==>
      exists m: int, n: int :: Counts(dx, m) && Counts(dy, n) && Abs(m) + Abs(n) <= MAX_STEPS
  {
    hide Counts;
    WholeLine(dx);
    WholeLine(dy);
    if LineScroll(dx, dy).Some? {
      var m :| Counts(dx, m);
      var n :| Counts(dy, n);
      assert Abs(m) + Abs(n) <= MAX_STEPS;
    }
  }

  // ------------------------------------------------------------------ expansion

  function ScalarBytes(c: char): (r: nat) {
    var n := c as int;
    if n < 0x80 then 1 else if n < 0x800 then 2 else if n < 0x1_0000 then 3 else 4
  }

  function TextBytes(s: seq<char>): (n: nat)
    ensures s != [] ==> n > 0
  {
    if s == [] then 0 else TextBytes(s[..|s| - 1]) + ScalarBytes(s[|s| - 1])
  }

  /** The encoding text is sent in: one to four bytes a scalar. */
  function Utf8(c: char): (bytes: seq<Byte>) {
    var n := c as int;
    if n < 0x80 then [n]
    else if n < 0x800 then [0xC0 + n / 0x40, 0x80 + n % 0x40]
    else if n < 0x1_0000 then [0xE0 + n / 0x1000, 0x80 + n / 0x40 % 0x40, 0x80 + n % 0x40]
    else [0xF0 + n / 0x4_0000, 0x80 + n / 0x1000 % 0x40, 0x80 + n / 0x40 % 0x40, 0x80 + n % 0x40]
  }

  function Encoded(s: seq<char>): (bytes: seq<Byte>) {
    if s == [] then [] else Encoded(s[..|s| - 1]) + Utf8(s[|s| - 1])
  }

  /** Text is measured by its encoded length. */
  lemma {:induction false} TextIsMeasuredInBytes(s: seq<char>)
    ensures TextBytes(s) == |Encoded(s)|
  {
    if s != [] { TextIsMeasuredInBytes(s[..|s| - 1]); }
  }

  /** Which actions a backend wants as separately authorised press/release pairs. */
  datatype Backend = Backend(repeatPair: bool, linePairs: bool)

  datatype Position = Position(x: int, y: int)

  predicate DeltaFits(to: Position, from: Position) {
    I32_MIN <= to.x - from.x <= I32_MAX && I32_MIN <= to.y - from.y <= I32_MAX
  }

  /** The native operations an accepted event stands for, in order. */
  function Plan(e: Event, cumulative: Position, backend: Backend): (r: seq<Operation>) {
    match e
    case Key(key, t) =>
      if t == Repeat && backend.repeatPair then [OpKey(key, Release), OpKey(key, Press)] else [OpKey(key, t)]
    case Pointer(p) => [OpAbsolute(p)]
    case Button(b, pressed, p, _) => [OpAbsolute(p), OpButton(b, pressed)]
    case Scroll(p, _, dx, dy, unit) =>
      if unit == Lines && backend.linePairs && LineScroll(dx, dy).Some?
      then [OpAbsolute(p)] + WheelOps(LineScroll(dx, dy).value)
      else [OpAbsolute(p), OpScroll(dx, dy, unit)]
    case Text(s) => seq(|s|, i requires 0 <= i < |s| => OpText(s[i]))
    case Relative(_, x, y) =>
      var to := Position(x, y);
      if !DeltaFits(to, cumulative) || to == cumulative then []
      else [OpRelative(x - cumulative.x, y - cumulative.y)]
    case Mode(_, _) => []
  }

  // ----------------------------------------------------------------- held state

  datatype Held = HeldKey(usage: int) | HeldButton(button: int) | HeldWheel(direction: WheelDirection)

  /** What the owner believes is held: one flag per key and button, one wheel slot. */
  datatype Mirror = Mirror(keys: seq<bool>, buttons: seq<bool>, wheel: Option<WheelDirection>) {
    predicate Shaped() {
      && |keys| == KEYS && |buttons| == BUTTONS
      && (forall u :: 0 <= u < KEYS && keys[u] ==> IsKey(u))
    }
    predicate Holds(h: Held)
      requires Shaped()
    {
      match h
      case HeldKey(u) => 0 <= u < KEYS && keys[u]
      case HeldButton(b) => 0 <= b < BUTTONS && buttons[b]
      case HeldWheel(d) => wheel == Some(d)
    }
    predicate Empty()
      requires Shaped()
    {
      wheel.None? && (forall u :: 0 <= u < KEYS ==> !keys[u]) && (forall b :: 0 <= b < BUTTONS ==> !buttons[b])
    }
  }

  function CountTrue(s: seq<bool>): (r: nat) {
    if s == [] then 0 else CountTrue(s[..|s| - 1]) + if s[|s| - 1] then 1 else 0
  }

  lemma {:induction false} CountTrueZero(s: seq<bool>)
    ensures CountTrue(s) == 0 <==> forall i :: 0 <= i < |s| ==> !s[i]
  {
    if s != [] {
      CountTrueZero(s[..|s| - 1]);
      assert forall i :: 0 <= i < |s| - 1 ==> s[i] == s[..|s| - 1][i];
    }
  }

  lemma {:induction false} CountTrueClear(s: seq<bool>, i: nat)
    requires i < |s| && s[i]
    ensures CountTrue(s[i := false]) + 1 == CountTrue(s)
  {
    var n := |s| - 1;
    if i < n {
      CountTrueClear(s[..n], i);
      assert s[i := false][..n] == s[..n][i := false];
    } else {
      assert s[i := false][..n] == s[..n];
    }
  }

  function CountHeld(m: Mirror): (r: nat) {
    CountTrue(m.keys) + CountTrue(m.buttons) + if m.wheel.Some? then 1 else 0
  }

  function Untouched(): (r: Mirror) {
    Mirror(seq(KEYS, _ => false), seq(BUTTONS, _ => false), None)
  }

  const NOTHING_HELD: Mirror := Untouched()

  /** What a press or release of this operation concerns. */
  function Subject(op: Operation): (r: Option<Held>) {
    match op
    case OpKey(key, _) => Some(HeldKey(key))
    case OpButton(b, _) => Some(HeldButton(b))
    case OpWheel(d, _) => Some(HeldWheel(d))
    case _ => None
  }

  predicate IsPress(op: Operation) {
    match op
    case OpKey(_, t) => t == Press
    case OpButton(_, pressed) => pressed
    case OpWheel(_, pressed) => pressed
    case _ => false
  }

  /** The mirror once `op` is confirmed. */
  function Confirm(m: Mirror, op: Operation): (r: Mirror)
    requires m.Shaped()
    ensures r.Shaped()
  {
    match op
    case OpKey(key, t) => if t == Repeat then m else m.(keys := m.keys[key := t == Press])
    case OpButton(b, pressed) => m.(buttons := m.buttons[b := pressed])
    case OpWheel(d, pressed) => m.(wheel := if pressed then Some(d) else None)
    case _ => m
  }

  /** A confirmed press is held, a confirmed release is not, and nothing else changes; one
      wheel step is held at a time. */
  lemma ConfirmExactly(m: Mirror, op: Operation, h: Held)
    requires m.Shaped()
    ensures Confirm(m, op).Holds(h) <==>
      if Subject(op) == Some(h) && (IsPress(op) || IsRelease(op)) then IsPress(op)
      else m.Holds(h) && !(op.OpWheel? && h.HeldWheel?)
  {}

  function ConfirmAll(m: Mirror, ops: seq<Operation>): (r: Mirror)
    requires m.Shaped()
    ensures r.Shaped()
  {
    if ops == [] then m else Confirm(ConfirmAll(m, ops[..|ops| - 1]), ops[|ops| - 1])
  }

  /** What is held here and in `held`. */
  function Shared(m: Mirror, held: set<Held>): (r: Mirror)
    requires m.Shaped()
    ensures r.Shaped() && r.wheel == m.wheel
  {
    Mirror(
      seq(KEYS, u requires 0 <= u < KEYS => m.keys[u] && HeldKey(u) in held),
      seq(BUTTONS, b requires 0 <= b < BUTTONS => m.buttons[b] && HeldButton(b) in held),
      m.wheel)
  }

  lemma SharedExactly(m: Mirror, held: set<Held>, h: Held)
    requires m.Shaped()
    ensures Shared(m, held).Holds(h) <==> m.Holds(h) && (h in held || h.HeldWheel?)
  {}

  // ------------------------------------------------------- the operating system

  datatype PlatformError = Unsupported | Permission | GeometryChanged | Unavailable

  /** How a native call may end. `Withdrawn` is a refusal by the executor itself
      after authorisation; `Unwinds` is a panic inside the call. */
  datatype NativeResult<R> =
    | Submitted | NotSubmitted(error: PlatformError) | Unknown | Expired | Fenced | Withdrawn(refusal: R) | Unwinds

  predicate MayHaveHappened<R>(r: NativeResult<R>) { r.Submitted? || r.Unknown? || r.Unwinds? }

  /** What may be down at the operating system after a call on `op` ended in `r`:
      a press counts as soon as it may have happened, a release only once confirmed. */
  function OsAfter<R>(down: set<Held>, op: Operation, r: NativeResult<R>): (result: set<Held>) {
    if IsPress(op) && MayHaveHappened(r) then down + {Subject(op).value}
    else if IsRelease(op) && r.Submitted? then down - {Subject(op).value}
    else down
  }

  /** Something comes to be down only by its own press, and leaves only by its own
      confirmed release; a press that may have happened counts. */
  lemma DownExactly<R>(down: set<Held>, op: Operation, r: NativeResult<R>, h: Held)
    ensures h in OsAfter(down, op, r) <==>
      || (IsPress(op) && Subject(op) == Some(h) && (r.Submitted? || r.Unknown? || r.Unwinds?))
      || (h in down && !(IsRelease(op) && Subject(op) == Some(h) && r.Submitted?))
  {}

  /** Tracking before the call: a press is assumed, a release is not. */
  function Assume(m: Mirror, op: Operation): (r: Mirror)
    requires m.Shaped()
    ensures r.Shaped()
  {
    if IsPress(op) then Confirm(m, op) else m
  }

  ghost predicate Covers(m: Mirror, down: set<Held>)
    requires m.Shaped()
  {
    forall h :: h in down ==> m.Holds(h)
  }

  /** The single wheel slot is free for a press, and names the direction being released. */
  predicate WheelReady(m: Mirror, op: Operation) {
    op.OpWheel? ==> if op.pressed then m.wheel.None? else m.wheel == Some(op.direction)
  }

  /** However the call ended, what may be down stays covered by the mirror the
      owner keeps: confirmed, assumed, or put back. */
  lemma TrackingCovers<R>(m: Mirror, down: set<Held>, op: Operation, r: NativeResult<R>)
    requires m.Shaped() && Covers(m, down) && WheelReady(m, op)
    ensures Covers(if r.Submitted? then Confirm(m, op) else if MayHaveHappened(r) then Assume(m, op) else m,
                   OsAfter(down, op, r))
  {}

  // ---------------------------------------------------------- acceptance at host

  /** Everything the host decides an event on, besides authority. */
  datatype HostView = HostView(
    capabilities: Capabilities,
    bounds: InputBounds,
    mode: PointerMode,
    modeEpoch: u64,
    cumulative: Position,
    held: Mirror)

  datatype Fault =
    | FaultUnsupported | FaultInvalidTransition | FaultOutOfBounds | FaultModeMismatch | FaultRelativeOverflow

  function PositionFault(v: HostView, p: DesktopPoint): (r: Option<Fault>) {
    if CapAbsolute !in v.capabilities then Some(FaultUnsupported)
    else if v.mode != AbsoluteMode then Some(FaultModeMismatch)
    else if !v.bounds.Contains(p) then Some(FaultOutOfBounds)
    else None
  }

  /** Why the host refuses an event before its first native operation. */
  function EventFault(v: HostView, e: Event, backend: Backend): (r: Option<Fault>)
    requires v.held.Shaped()
  {
    match e
    case Key(key, t) =>
      if CapKeys !in v.capabilities || (t == Repeat && CapRepeat !in v.capabilities) then Some(FaultUnsupported)
      else if v.held.keys[key] == (t == Press) then Some(FaultInvalidTransition)
      else None
    case Pointer(p) => PositionFault(v, p)
    case Button(b, pressed, p, _) =>
      if CapButtons !in v.capabilities then Some(FaultUnsupported)
      else if PositionFault(v, p).Some? then PositionFault(v, p)
      else if v.held.buttons[b] == pressed then Some(FaultInvalidTransition)
      else None
    case Scroll(p, _, dx, dy, unit) =>
      if (if unit == Pixels then CapPixelScroll else CapLineScroll) !in v.capabilities then Some(FaultUnsupported)
      else if PositionFault(v, p).Some? then PositionFault(v, p)
      else if unit == Lines && backend.linePairs && LineScroll(dx, dy).None? then Some(FaultUnsupported)
      else None
    case Text(s) =>
      if CapText !in v.capabilities || s == [] || TextBytes(s) > MAX_COMMITTED_TEXT_BYTES then Some(FaultUnsupported)
      else None
    case Relative(epoch, x, y) =>
      if CapRelative !in v.capabilities then Some(FaultUnsupported)
      else if v.mode != RelativeMode || epoch != v.modeEpoch then Some(FaultModeMismatch)
      else if !DeltaFits(Position(x, y), v.cumulative) then Some(FaultRelativeOverflow)
      else None
    case Mode(mode, epoch) =>
      if (if mode == AbsoluteMode then CapAbsolute else CapRelative) !in v.capabilities then Some(FaultUnsupported)
      else if epoch <= v.modeEpoch || !v.held.Empty() then Some(FaultInvalidTransition)
      else None
  }

  /** A place the host moves to: granted, in absolute mode, inside the bounds. */
  predicate Reachable(v: HostView, p: DesktopPoint) {
    && CapAbsolute in v.capabilities && v.mode == AbsoluteMode
    && v.bounds.origin.x <= p.x < v.bounds.origin.x + v.bounds.width
    && v.bounds.origin.y <= p.y < v.bounds.origin.y + v.bounds.height
  }

  /** The host carries an event out if and only if its kind is granted, its place can be
      reached, and it fits what the host holds and the mode it is in: a press of what is
      up, a release or repeat of what is down, motion of the present relative epoch that
      fits its field, a newer mode with nothing held, text that is not empty and not too
      long once encoded, whole lines where the backend wants steps. */
  lemma AcceptedExactly(v: HostView, e: Event, backend: Backend)
    requires v.held.Shaped()
    ensures EventFault(v, e, backend).None? <==>
      match e
      case Key(key, t) =>
        CapKeys in v.capabilities && (t == Repeat ==> CapRepeat in v.capabilities)
        && (v.held.Holds(HeldKey(key)) <==> t != Press)
      case Button(b, pressed, p, _) =>
        CapButtons in v.capabilities && Reachable(v, p) && (v.held.Holds(HeldButton(b)) <==> !pressed)
      case Pointer(p) => Reachable(v, p)
      case Relative(epoch, x, y) =>
        && CapRelative in v.capabilities && v.mode == RelativeMode && epoch == v.modeEpoch
        && I32_MIN <= x - v.cumulative.x <= I32_MAX && I32_MIN <= y - v.cumulative.y <= I32_MAX
      case Scroll(p, _, dx, dy, unit) =>
        && Reachable(v, p) && (if unit == Pixels then CapPixelScroll else CapLineScroll) in v.capabilities
        && (unit == Lines && backend.linePairs ==>
           exists m: int, n: int :: Counts(dx, m) && Counts(dy, n) && Abs(m) + Abs(n) <= MAX_STEPS)
      case Text(s) => CapText in v.capabilities && 0 < |s| && |Encoded(s)| <= MAX_COMMITTED_TEXT_BYTES
      case Mode(mode, epoch) =>
        && (if mode == AbsoluteMode then CapAbsolute else CapRelative) in v.capabilities
        && v.modeEpoch < epoch && forall h :: !v.held.Holds(h)
  {
    match e {
      case Scroll(_, _, dx, dy, _) => LinesExactly(dx, dy);
      case Text(s) => TextIsMeasuredInBytes(s);
      case Mode(_, _) => EmptyHoldsNothing(v.held);
      case _ =>
    }
  }

  lemma EmptyHoldsNothing(m: Mirror)
    requires m.Shaped()
    ensures m.Empty() <==> forall h :: !m.Holds(h)
  {
    if forall h :: !m.Holds(h) {
      assert m.wheel.Some? ==> m.Holds(HeldWheel(m.wheel.value));
      assert forall u :: 0 <= u < KEYS && m.keys[u] ==> m.Holds(HeldKey(u));
      assert forall b :: 0 <= b < BUTTONS && m.buttons[b] ==> m.Holds(HeldButton(b));
    }
  }

  /** Which fault is told: what is not granted is unsupported; a place outside is out of
      bounds, in absolute mode; a transition that changes nothing is invalid; motion of
      another mode or epoch is a mismatch, and too far a motion an overflow. */
  lemma FaultsAreTold(v: HostView, e: Event, backend: Backend)
    requires v.held.Shaped() && EventFault(v, e, backend).Some?
    ensures var fault := EventFault(v, e, backend).value;
      match e
      case Key(_, t) =>
        fault == if CapKeys in v.capabilities && (t == Repeat ==> CapRepeat in v.capabilities)
                 then FaultInvalidTransition else FaultUnsupported
      case Text(_) => fault == FaultUnsupported
      case Relative(epoch, _, _) =>
        && (fault == FaultUnsupported <==> CapRelative !in v.capabilities)
        && (fault == FaultRelativeOverflow <==>
           CapRelative in v.capabilities && v.mode == RelativeMode && epoch == v.modeEpoch)
        && fault in {FaultUnsupported, FaultRelativeOverflow, FaultModeMismatch}
      case Mode(mode, _) =>
        fault == if (if mode == AbsoluteMode then CapAbsolute else CapRelative) in v.capabilities
                 then FaultInvalidTransition else FaultUnsupported
      case Pointer(_) => PlaceFault(v, fault)
      case Button(_, _, p, _) =>
        && (fault == FaultInvalidTransition <==> CapButtons in v.capabilities && Reachable(v, p))
        && (fault != FaultInvalidTransition && CapButtons in v.capabilities ==> PlaceFault(v, fault))
        && (CapButtons !in v.capabilities ==> fault == FaultUnsupported)
      case Scroll(p, _, _, _, unit) =>
        if (if unit == Pixels then CapPixelScroll else CapLineScroll) !in v.capabilities || Reachable(v, p)
        then fault == FaultUnsupported else PlaceFault(v, fault)
  {}

  predicate PlaceFault(v: HostView, fault: Fault) {
    fault == if CapAbsolute !in v.capabilities then FaultUnsupported
             else if v.mode != AbsoluteMode then FaultModeMismatch else FaultOutOfBounds
  }
}
