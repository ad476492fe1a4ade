/** What events are for, apart from how they are carried out: a desktop on which native
    operations have effects, and what each event is to leave there. */
module Meaning {
  import opened Common
  import opened Input

  /** The pointer, what was typed, the key strokes, the keys and buttons down, each click
      with its place, and everything scrolled and moved so far. */
  datatype Desktop = Desktop(
    pointer: DesktopPoint,
    text: seq<char>,
    strokes: seq<PhysicalKey>,
    keysDown: set<PhysicalKey>,
    clicks: seq<(PointerButton, bool, DesktopPoint)>,
    pixels: Position,
    lines: Position,
    travelled: Position)

  function Plus(p: Position, x: int, y: int): (r: Position) { Position(p.x + x, p.y + y) }

  /** How far a step of the wheel scrolls, in lines to the right and down. */
  function StepOf(d: WheelDirection): (r: Position) {
    match d
    case Left => Position(-1, 0)
    case Right => Position(1, 0)
    case Up => Position(0, -1)
    case Down => Position(0, 1)
  }

  /** The effect of one native operation. A wheel step scrolls when it is pressed. */
  function Perform(d: Desktop, op: Operation): (r: Desktop) {
    match op
    case OpKey(key, Press) => d.(keysDown := d.keysDown + {key}, strokes := d.strokes + [key])
    case OpKey(key, Repeat) => d.(strokes := d.strokes + [key])
    case OpKey(key, Release) => d.(keysDown := d.keysDown - {key})
    case OpAbsolute(p) => d.(pointer := p)
    case OpButton(b, pressed) => d.(clicks := d.clicks + [(b, pressed, d.pointer)])
    case OpRelative(x, y) => d.(travelled := Plus(d.travelled, x, y))
    case OpScroll(dx, dy, Pixels) => d.(pixels := Plus(d.pixels, dx, dy))
    case OpScroll(dx, dy, Lines) => d.(lines := Plus(d.lines, dx, dy))
    case OpWheel(w, true) => d.(lines := Plus(d.lines, StepOf(w).x * LINE, StepOf(w).y * LINE))
    case OpWheel(_, false) => d
    case OpText(c) => d.(text := d.text + [c])
  }

  function PerformAll(d: Desktop, ops: seq<Operation>): (r: Desktop) {
    if ops == [] then d else Perform(PerformAll(d, ops[..|ops| - 1]), ops[|ops| - 1])
  }

  /** What an event is to leave, whatever backend carries it out. Relative motion names
      where the relative pointer is to be, seen from where it was. */
  function Intended(d: Desktop, e: Event, from: Position): (r: Desktop) {
    match e
    case Key(key, Press) => d.(keysDown := d.keysDown + {key}, strokes := d.strokes + [key])
    case Key(key, Repeat) => d.(strokes := d.strokes + [key])
    case Key(key, Release) => d.(keysDown := d.keysDown - {key})
    case Button(b, pressed, p, _) => d.(pointer := p, clicks := d.clicks + [(b, pressed, p)])
    case Pointer(p) => d.(pointer := p)
    case Relative(_, x, y) => d.(travelled := Plus(d.travelled, x - from.x, y - from.y))
    case Scroll(p, _, dx, dy, Pixels) => d.(pointer := p, pixels := Plus(d.pixels, dx, dy))
    case Scroll(p, _, dx, dy, Lines) => d.(pointer := p, lines := Plus(d.lines, dx, dy))
    case Text(s) => d.(text := d.text + s)
    case Mode(_, _) => d
  }

  // --------------------------------------------------------- what a record of calls says

  /** The characters a record types, in order. */
  function Typed(ops: seq<Operation>): (s: seq<char>) {
    if ops == [] then []
    else
      var last := ops[|ops| - 1];
      Typed(ops[..|ops| - 1]) + if last.OpText? then [last.scalar] else []
  }

  /** The sum of the scroll deltas in one unit. */
  function Deltas(ops: seq<Operation>, unit: ScrollUnit): (p: Position) {
    if ops == [] then Position(0, 0)
    else
      var last, p := ops[|ops| - 1], Deltas(ops[..|ops| - 1], unit);
      if last.OpScroll? && last.unit == unit then Plus(p, last.dx, last.dy) else p
  }

  /** How often the wheel is pressed in one direction. */
  function Presses(ops: seq<Operation>, d: WheelDirection): (n: nat) {
    if ops == [] then 0
    else Presses(ops[..|ops| - 1], d) + if ops[|ops| - 1] == OpWheel(d, true) then 1 else 0
  }

  /** The operations `ops` are what the event is for, or, if it did not complete, the
      beginning of that. */
  ghost predicate Meant(e: Event, ops: seq<Operation>, from: Position, backend: Backend, complete: bool) {
    && (complete ==> forall d: Desktop :: (e.Key? && e.transition == Repeat ==> e.key in d.keysDown) ==>
         PerformAll(d, ops) == Intended(d, e, from))
    && (e.Text? ==> Typed(ops) <= e.scalars && |Typed(ops)| == |ops| && (complete ==> Typed(ops) == e.scalars))
    && (e.Pointer? || e.Button? || e.Scroll? ==>
         (complete ==> ops != []) && (ops != [] ==> ops[0] == OpAbsolute(e.position)))
    && (e.Scroll? && complete ==>
         if e.unit == Lines && backend.linePairs
         then
           && (Presses(ops, Right) - Presses(ops, Left)) * LINE == e.dx
           && (Presses(ops, Down) - Presses(ops, Up)) * LINE == e.dy
         else Deltas(ops, e.unit) == Position(e.dx, e.dy))
  }

  lemma {:induction false} PerformSplit(d: Desktop, a: seq<Operation>, b: seq<Operation>)
    ensures PerformAll(d, a + b) == PerformAll(PerformAll(d, a), b)
  {
    hide Perform;
    if b == [] {
      assert a + b == a;
    } else {
      var n := |b| - 1;
      assert (a + b)[..|a| + n] == a + b[..n];
      PerformSplit(d, a, b[..n]);
    }
  }

  // ------------------------------------------------------------------------- text

  lemma {:induction false} TypingMeans(d: Desktop, s: seq<char>, ops: seq<Operation>)
    requires |ops| == |s| && forall i :: 0 <= i < |s| ==> ops[i] == OpText(s[i])
    ensures PerformAll(d, ops) == d.(text := d.text + s) && Typed(ops) == s
  {
    if s == [] {
      assert d.text + s == d.text;
    } else {
      var n := |s| - 1;
      TypingMeans(d, s[..n], ops[..n]);
      assert s == s[..n] + [s[n]];
      assert d.text + s == (d.text + s[..n]) + [s[n]];
    }
  }

  // ------------------------------------------------------------------------ wheel

  lemma {:induction false} WheelMeans(d: Desktop, steps: seq<WheelDirection>)
    ensures var ops := WheelOps(steps);
      && PerformAll(d, ops) ==
         d.(lines := Plus(d.lines, (Presses(ops, Right) - Presses(ops, Left)) * LINE,
                                   (Presses(ops, Down) - Presses(ops, Up)) * LINE))
      && forall w :: Presses(ops, w) == |Only(steps, w)|
  {
    if steps != [] {
      var n := |steps| - 1;
      var before, w := WheelOps(steps[..n]), steps[n];
      var ops := WheelOps(steps);
      WheelMeans(d, steps[..n]);
      assert ops[..|ops| - 1] == before + [OpWheel(w, true)];
      assert (before + [OpWheel(w, true)])[..|before|] == before;
    }
  }

  function Only(steps: seq<WheelDirection>, w: WheelDirection): (r: seq<WheelDirection>) {
    if steps == [] then []
    else Only(steps[..|steps| - 1], w) + if steps[|steps| - 1] == w then [w] else []
  }

  lemma {:induction false} OnlyCopies(w: WheelDirection, n: nat, v: WheelDirection)
    ensures |Only(Copies(w, n), v)| == if v == w then n else 0
  {
    if n > 0 {
      assert Copies(w, n)[..n - 1] == Copies(w, n - 1);
      OnlyCopies(w, n - 1, v);
    }
  }

  lemma {:induction false} OnlyBoth(a: seq<WheelDirection>, b: seq<WheelDirection>, v: WheelDirection)
    ensures |Only(a + b, v)| == |Only(a, v)| + |Only(b, v)|
  {
    if b == [] {
      assert a + b == a;
    } else {
      assert (a + b)[..|a| + |b| - 1] == a + b[..|b| - 1];
      OnlyBoth(a, b[..|b| - 1], v);
    }
  }

  lemma WholeLines(delta: i32)
    requires delta % LINE == 0
    ensures (Abs(delta) / LINE) * LINE == Abs(delta)
  {}

  /** The steps of a line scroll add up to it. */
  lemma StepsAddUp(dx: i32, dy: i32)
    requires LineScroll(dx, dy).Some?
    ensures var steps := LineScroll(dx, dy).value;
      && (|Only(steps, Right)| - |Only(steps, Left)|) * LINE == dx
      && (|Only(steps, Down)| - |Only(steps, Up)|) * LINE == dy
  {
    var across, along := if dx < 0 then Left else Right, if dy < 0 then Up else Down;
    var m, n := Abs(dx) / LINE, Abs(dy) / LINE;
    forall v ensures |Only(Copies(across, m) + Copies(along, n), v)|
      == (if v == across then m else 0) + if v == along then n else 0
    {
      OnlyBoth(Copies(across, m), Copies(along, n), v);
      OnlyCopies(across, m, v);
      OnlyCopies(along, n, v);
    }
    WholeLines(dx);
    WholeLines(dy);
  }

  // ------------------------------------------------------------------- every event

  /** One operation, and two. */
  lemma Short(d: Desktop, a: Operation, b: Operation)
    ensures PerformAll(d, [a]) == Perform(d, a)
    ensures PerformAll(d, [a, b]) == Perform(Perform(d, a), b)
  {
    hide Perform;
    assert [a][..0] == [] && PerformAll(d, []) == d;
    assert [a, b][..1] == [a];
  }

  lemma KeyMeans(key: PhysicalKey, t: Transition, from: Position, backend: Backend, d: Desktop)
    requires t == Repeat ==> key in d.keysDown
    ensures PerformAll(d, Plan(Key(key, t), from, backend)) == Intended(d, Key(key, t), from)
  {
    hide PerformAll;
    if t == Repeat && backend.repeatPair {
      Short(d, OpKey(key, Release), OpKey(key, Press));
      assert d.keysDown - {key} + {key} == d.keysDown;
    } else {
      Short(d, OpKey(key, t), OpKey(key, t));
    }
  }

  lemma {:induction false} PressesBehind(first: Operation, ops: seq<Operation>, w: WheelDirection)
    requires !first.OpWheel?
    ensures Presses([first] + ops, w) == Presses(ops, w)
  {
    if ops == [] {
      assert ([first] + ops)[..0] == [];
    } else {
      assert ([first] + ops)[..|ops|] == [first] + ops[..|ops| - 1];
      PressesBehind(first, ops[..|ops| - 1], w);
    }
  }

  lemma DeltasOfTwo(p: DesktopPoint, dx: i32, dy: i32, unit: ScrollUnit)
    ensures Deltas([OpAbsolute(p), OpScroll(dx, dy, unit)], unit) == Position(dx, dy)
  {
    var ops := [OpAbsolute(p), OpScroll(dx, dy, unit)];
    assert ops[..1] == [OpAbsolute(p)] && ops[..1][..0] == [];
    assert Deltas(ops[..1], unit) == Position(0, 0);
  }

  lemma ScrollMeans(e: Event, from: Position, backend: Backend, d: Desktop)
    requires e.Scroll? && (e.unit == Lines && backend.linePairs ==> LineScroll(e.dx, e.dy).Some?)
    ensures var ops := Plan(e, from, backend);
      && PerformAll(d, ops) == Intended(d, e, from)
      && (if e.unit == Lines && backend.linePairs
          then
            && (Presses(ops, Right) - Presses(ops, Left)) * LINE == e.dx
            && (Presses(ops, Down) - Presses(ops, Up)) * LINE == e.dy
          else Deltas(ops, e.unit) == Position(e.dx, e.dy))
  {
    hide LineScroll;
    var Scroll(p, _, dx, dy, unit) := e;
    if unit == Lines && backend.linePairs {
      var steps := LineScroll(dx, dy).value;
      Short(d, OpAbsolute(p), OpAbsolute(p));
      PerformSplit(d, [OpAbsolute(p)], WheelOps(steps));
      WheelMeans(d.(pointer := p), steps);
      StepsAddUp(dx, dy);
      forall w ensures Presses([OpAbsolute(p)] + WheelOps(steps), w) == |Only(steps, w)| {
        PressesBehind(OpAbsolute(p), WheelOps(steps), w);
      }
    } else {
      Short(d, OpAbsolute(p), OpScroll(dx, dy, unit));
      DeltasOfTwo(p, dx, dy, unit);
    }
  }

  lemma PlanPerforms(v: HostView, e: Event, backend: Backend, d: Desktop)
    requires v.held.Shaped() && EventFault(v, e, backend).None?
    requires e.Key? && e.transition == Repeat ==> e.key in d.keysDown
    ensures PerformAll(d, Plan(e, v.cumulative, backend)) == Intended(d, e, v.cumulative)
  {
    hide PerformAll, LineScroll;
    var plan := Plan(e, v.cumulative, backend);
    match e {
      case Key(key, t) => KeyMeans(key, t, v.cumulative, backend, d);
      case Pointer(p) => Short(d, OpAbsolute(p), OpAbsolute(p));
      case Button(b, pressed, p, _) => Short(d, OpAbsolute(p), OpButton(b, pressed));
      case Scroll(_, _, _, _, _) => ScrollMeans(e, v.cumulative, backend, d);
      case Text(s) => TypingMeans(d, s, plan);
      case Relative(_, x, y) => RelativeMeans(v, e, backend, d);
      case Mode(_, _) => NothingMeans(d);
    }
  }

  lemma NothingMeans(d: Desktop)
    ensures PerformAll(d, []) == d
  {}

  lemma RelativeMeans(v: HostView, e: Event, backend: Backend, d: Desktop)
    requires v.held.Shaped() && e.Relative? && EventFault(v, e, backend).None?
    ensures PerformAll(d, Plan(e, v.cumulative, backend)) == Intended(d, e, v.cumulative)
  {
    var dx, dy := e.x - v.cumulative.x, e.y - v.cumulative.y;
    if dx == 0 && dy == 0 {
      NothingMeans(d);
    } else {
      Short(d, OpRelative(dx, dy), OpRelative(dx, dy));
    }
  }

  /** The plan of an accepted event, and every beginning of it, is what the event is for. */
  lemma PlanIsMeant(v: HostView, e: Event, backend: Backend, k: nat, complete: bool)
    requires v.held.Shaped() && k <= |Plan(e, v.cumulative, backend)|
    requires complete ==> k == |Plan(e, v.cumulative, backend)|
    requires EventFault(v, e, backend).None? || (k == 0 && !complete)
    ensures Meant(e, Plan(e, v.cumulative, backend)[..k], v.cumulative, backend, complete)
  {
    var plan := Plan(e, v.cumulative, backend);
    hide PerformAll, Perform, Intended, LineScroll, EventFault;
    if complete {
      assert plan[..k] == plan;
      forall d: Desktop | e.Key? && e.transition == Repeat ==> e.key in d.keysDown
        ensures PerformAll(d, plan) == Intended(d, e, v.cumulative)
      {
        PlanPerforms(v, e, backend, d);
      }
      if e.Scroll? { AcceptedLines(v, e, backend); ScrollMeans(e, v.cumulative, backend, SomeDesktop()); }
    }
    if e.Text? {
      TypingMeans(SomeDesktop(), e.scalars[..k], plan[..k]);
      assert complete ==> e.scalars[..k] == e.scalars;
    }
  }

  lemma AcceptedLines(v: HostView, e: Event, backend: Backend)
    requires v.held.Shaped() && e.Scroll? && EventFault(v, e, backend).None?
    ensures e.unit == Lines && backend.linePairs ==> LineScroll(e.dx, e.dy).Some?
  {}

  function SomeDesktop(): (d: Desktop) {
    Desktop(DesktopPoint(0, 0), [], [], {}, [], Position(0, 0), Position(0, 0), Position(0, 0))
  }
}
