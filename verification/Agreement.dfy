/** Viewer and host of one grant, joined by ordered streams: actions and snapshots
    one way, presentation reports the same way, tickets the other. The viewer's
    remembered keys and buttons are what the host will hold once it has caught up. */
module Agreement {
  import opened Common
  import opened Input
  import opened Ledger
  import opened Submission
  import opened Client

  datatype Config = Config(capabilities: Capabilities, bounds: InputBounds, backend: Backend)

  function HostFacts(c: Config, held: Mirror): (r: HostView) {
    HostView(c.capabilities, c.bounds, AbsoluteMode, 0, Position(0, 0), held)
  }

  // ------------------------------------------------------- one action on both sides

  /** A scroll the viewer sends although a backend of separate wheel steps cannot
      express it. */
  predicate PartialLines(e: Event, backend: Backend) {
    e.Scroll? && e.unit == Lines && backend.linePairs && LineScroll(e.dx, e.dy).None?
  }

  /** An action the viewer accepts is refused by a host that holds the same keys and
      buttons exactly if it is a partial line scroll: never as an invalid transition. */
  lemma AcceptedNeverFaults(c: Config, held: Mirror, released: Mirror, action: Action, barrier: u64)
    requires held.Shaped() && released.Shaped()
    requires EventFor(ClientView(c.capabilities, c.bounds, held, released), action, barrier).Ok?
    ensures var e := EventFor(ClientView(c.capabilities, c.bounds, held, released), action, barrier).value.event;
      EventFault(HostFacts(c, held), e, c.backend) == if PartialLines(e, c.backend) then Some(FaultUnsupported)
        else None
  {}

  /** One part of a line, in 65536, is such a scroll: accepted here, refused there. */
  lemma PartOfALine(c: Config, held: Mirror, released: Mirror, p: DesktopPoint, barrier: u64)
    requires held.Shaped() && released.Shaped() && c.backend.linePairs
    requires CapAbsolute in c.capabilities && CapLineScroll in c.capabilities && c.bounds.Contains(p)
    ensures var accepted := EventFor(ClientView(c.capabilities, c.bounds, held, released),
      ScrollAction(p, 1, 0, Lines), barrier);
      accepted.Ok? && EventFault(HostFacts(c, held), accepted.value.event, c.backend) == Some(FaultUnsupported)
  {
    assert LineScroll(1, 0).None?;
  }

  lemma {:induction false} WheelOpsKeepHeld(m: Mirror, steps: seq<WheelDirection>)
    requires m.Shaped() && m.wheel.None?
    ensures ConfirmAll(m, WheelOps(steps)) == m
  {
    if steps != [] {
      var n := |steps| - 1;
      WheelOpsKeepHeld(m, steps[..n]);
      ConfirmTwo(m, WheelOps(steps[..n]), OpWheel(steps[n], true), OpWheel(steps[n], false));
    }
  }

  lemma ConfirmTwo(m: Mirror, ops: seq<Operation>, a: Operation, b: Operation)
    requires m.Shaped()
    ensures ConfirmAll(m, ops + [a, b]) == Confirm(Confirm(ConfirmAll(m, ops), a), b)
  {
    var all := ops + [a, b];
    assert all[..|all| - 1] == ops + [a];
    assert (ops + [a])[..|ops|] == ops;
  }

  lemma {:induction false} ConfirmCons(m: Mirror, a: Operation, ops: seq<Operation>)
    requires m.Shaped()
    ensures ConfirmAll(m, [a] + ops) == ConfirmAll(Confirm(m, a), ops)
  {
    if ops == [] {
      assert [a] + ops == [a] && [a][..0] == [];
    } else {
      var n := |ops| - 1;
      ConfirmCons(m, a, ops[..n]);
      assert ([a] + ops)[..n + 1] == [a] + ops[..n];
    }
  }

  lemma {:induction false} TextKeepsHeld(m: Mirror, ops: seq<Operation>)
    requires m.Shaped() && forall i :: 0 <= i < |ops| ==> ops[i].OpText?
    ensures ConfirmAll(m, ops) == m
  {
    if ops != [] { TextKeepsHeld(m, ops[..|ops| - 1]); }
  }

  /** Executing the whole plan of an accepted action leaves the host holding exactly
      what the viewer remembers after sending it. */
  lemma PlanMatchesSent(c: Config, held: Mirror, released: Mirror, action: Action, barrier: u64)
    requires held.Shaped() && released.Shaped() && held.wheel.None?
    requires EventFor(ClientView(c.capabilities, c.bounds, held, released), action, barrier).Ok?
    ensures var e := EventFor(ClientView(c.capabilities, c.bounds, held, released), action, barrier).value.event;
      ConfirmAll(held, Plan(e, Position(0, 0), c.backend)) == Sent(held, e)
  {
    var e := EventFor(ClientView(c.capabilities, c.bounds, held, released), action, barrier).value.event;
    var plan := Plan(e, Position(0, 0), c.backend);
    match e {
      case Key(key, t) =>
        if t == Repeat && c.backend.repeatPair {
          assert plan == [] + [OpKey(key, Release), OpKey(key, Press)];
          ConfirmTwo(held, [], OpKey(key, Release), OpKey(key, Press));
          assert held.keys[key := false][key := true] == held.keys[key := true];
        } else {
          assert plan[..0] == [];
          if t == Repeat { assert held.keys[key := true] == held.keys; }
        }
      case Button(b, pressed, p, _) =>
        assert plan == [] + [OpAbsolute(p), OpButton(b, pressed)];
        ConfirmTwo(held, [], OpAbsolute(p), OpButton(b, pressed));
      case Scroll(p, _, dx, dy, unit) =>
        if unit == Lines && c.backend.linePairs && LineScroll(dx, dy).Some? {
          ConfirmCons(held, OpAbsolute(p), WheelOps(LineScroll(dx, dy).value));
          WheelOpsKeepHeld(held, LineScroll(dx, dy).value);
        } else {
          assert plan == [] + [OpAbsolute(p), OpScroll(dx, dy, unit)];
          ConfirmTwo(held, [], OpAbsolute(p), OpScroll(dx, dy, unit));
        }
      case Text(_) => TextKeepsHeld(held, plan);
    }
  }

  /** The viewer's count check and the host's receipt of an accepted action: the receipt
      passes unless the sink panics late on a plan of the longest length; if it does, and
      nobody else acts at the host, the receipt fails. */
  lemma ReceiptPassesExactly(c: Config, held: Mirror, released: Mirror, action: Action, barrier: u64, sequence: u64,
                             o: Outcome,
                             tape: Tape, calm: bool)
    requires held.Shaped() && released.Shaped()
    requires EventFor(ClientView(c.capabilities, c.bounds, held, released), action, barrier).Ok?
    requires var e := EventFor(ClientView(c.capabilities, c.bounds, held, released), action, barrier).value.event;
      var plan := Plan(e, Position(0, 0), c.backend);
      Truthful(o, plan) && Traced(|o.confirmed|, |plan|, o.flow, tape, calm)
    ensures var p := EventFor(ClientView(c.capabilities, c.bounds, held, released), action, barrier).value;
      var plan := Plan(p.event, Position(0, 0), c.backend);
      var r := ReceiptOf(sequence, o.flow, |o.confirmed|, o.uncertain);
      var late := PanicsLate(tape, plan) && |plan| == p.maximum;
      && (!late ==> CountFits(r.outcome, r.submitted, p.minimum, p.maximum))
      && (calm && late ==> !CountFits(r.outcome, r.submitted, p.minimum, p.maximum))
  {
    var p := EventFor(ClientView(c.capabilities, c.bounds, held, released), action, barrier).value;
    var plan := Plan(p.event, Position(0, 0), c.backend);
    assert |plan| == p.minimum || |plan| == p.maximum;
    assert 0 < |plan| <= p.maximum;
    if PanicsLate(tape, plan) && |o.confirmed| < |plan| { SmoothPrefix(tape, |plan|, |o.confirmed| + 1); }
  }

  /** The backends on which a sent action takes the most and the fewest operations. */
  lemma LongestAndShortest(v: ClientView, action: Action, barrier: u64) returns (long: Backend, short: Backend)
    requires v.held.Shaped() && v.released.Shaped() && EventFor(v, action, barrier).Ok?
    ensures var p := EventFor(v, action, barrier).value;
      && |Plan(p.event, Position(0, 0), long)| == p.maximum && |Plan(p.event, Position(0, 0), short)| == p.minimum
      && 0 < p.minimum <= p.maximum
  {
    var e := EventFor(v, action, barrier).value.event;
    var steps := e.Scroll? && LineScroll(e.dx, e.dy).Some? && LineScroll(e.dx, e.dy).value != [];
    long, short := Backend(true, steps), Backend(false, !steps);
  }

  /** The viewer accepts no count a host could not have reported: for every outcome and
      count that passes there is a backend and an end of the attempt with exactly that
      receipt. The one exception is a partial submission of nothing. */
  lemma PassingIsPossible(v: ClientView, action: Action, barrier: u64, sequence: u64, outcome: InputOutcome, count: nat)
    returns (backend: Backend, o: Outcome)
    requires v.held.Shaped() && v.released.Shaped() && EventFor(v, action, barrier).Ok?
    requires var p := EventFor(v, action, barrier).value; CountFits(outcome, count, p.minimum, p.maximum)
    requires !(outcome == PartiallySubmittedToOs && count == 0)
    ensures Truthful(o, Plan(EventFor(v, action, barrier).value.event, Position(0, 0), backend))
    ensures var r := ReceiptOf(sequence, o.flow, |o.confirmed|, o.uncertain);
      r.sequence == sequence && r.outcome == outcome && r.submitted == count
  {
    var p := EventFor(v, action, barrier).value;
    var long, short := LongestAndShortest(v, action, barrier);
    backend := if outcome == SubmittedToOs && count == p.minimum then short else long;
    hide EventFor, Plan;
    var plan := Plan(p.event, Position(0, 0), backend);
    match outcome {
      case SubmittedToOs => o := Ran(plan, false, Done);
      case PartiallySubmittedToOs => o := Ran(plan[..count], false, Flow.Stopped(RefRevoked));
      case EffectUnknown => o := Ran(plan[..count], true, Flow.Stopped(RefUnknownEffect));
      case ExpiredBeforeSubmission => o := Ran([], false, Flow.Stopped(RefExpiredAtBoundary));
      case CancelledBeforeSubmission => o := Ran([], false, Flow.Stopped(RefRevoked));
      case RejectedBeforeSubmission => o := Ran([], false, Flow.Stopped(RefStaleView));
    }
  }

  // ------------------------------------------------------- numbers on both sides

  /** The host's ledger, given the actions 0, 1, 2, ... one after the other, each
      with the outcome it had. */
  function Deliveries(outcomes: seq<InputOutcome>): (r: seq<Op>)
    requires |outcomes| <= U64_MAX
  {
    if outcomes == [] then []
    else
      var n := |outcomes| - 1;
      Deliveries(outcomes[..n]) + [OpAdmit(n), OpRecord(n, outcomes[n])]
  }

  ghost predicate AllSucceeded(outcomes: seq<InputOutcome>) {
    forall i :: 0 <= i < |outcomes| ==> Succeeded(outcomes[i])
  }

  /** The numbers the viewer puts into its ordered stream are admitted by the host's
      ledger without a gap, up to the first action that did not succeed; after it
      the host is fenced and admits nothing more. */
  lemma {:induction false} StreamIsAdmitted(capacity: nat, outcomes: seq<InputOutcome>)
    requires |outcomes| < U64_MAX && AllSucceeded(if outcomes == [] then [] else outcomes[..|outcomes| - 1])
    ensures Run(capacity, Deliveries(outcomes)) == History(outcomes, false, !AllSucceeded(outcomes))
    ensures Admit(Run(capacity, Deliveries(outcomes)), capacity, |outcomes|).1
         == if AllSucceeded(outcomes) then Ok(Admission.Admitted) else Err(SequenceError.Fenced)
  {
    hide Run, Ledger.Step;
    if outcomes == [] {
      RunNothing(capacity);
    } else {
      var n := |outcomes| - 1;
      StreamIsAdmitted(capacity, outcomes[..n]);
      RunTwo(capacity, Deliveries(outcomes[..n]), OpAdmit(n), OpRecord(n, outcomes[n]));
      DeliverOne(capacity, outcomes[..n], outcomes[n]);
      assert outcomes == outcomes[..n] + [outcomes[n]];
    }
  }

  lemma RunNothing(capacity: nat)
    ensures Run(capacity, []) == History([], false, false)
  {}

  lemma RunTwo(capacity: nat, ops: seq<Op>, a: Op, b: Op)
    ensures Run(capacity, ops + [a, b]) == Ledger.Step(Ledger.Step(Run(capacity, ops), capacity, a), capacity, b)
  {
    hide Ledger.Step;
    var all := ops + [a, b];
    assert all[..|all| - 1] == ops + [a];
    assert (ops + [a])[..|ops|] == ops;
  }

  lemma DeliverOne(capacity: nat, before: seq<InputOutcome>, o: InputOutcome)
    requires |before| <= U64_MAX
    ensures var n := |before|;
      Ledger.Step(Ledger.Step(History(before, false, false), capacity, OpAdmit(n)), capacity, OpRecord(n, o))
      == History(before + [o], false, !Succeeded(o))
  {}

  // --------------------------------------------------------------- the two parties

  /** Reliable records of the viewer, and the ticket epoch an action is sent under. */
  datatype Message = Act(epoch: nat, event: Event) | Snapshot(held: set<Held>)
  datatype Grant = Grant(epoch: nat, presented: nat)

  /** `epoch` counts the host's lapses: every lapse voids all tickets before it. */
  datatype State = State(
    live: bool,
    remembered: Mirror,
    ticketEpoch: nat,
    readiness: Readiness,
    stream: seq<Message>,
    reports: seq<bool>,
    grants: seq<Grant>,
    applied: nat,
    epoch: nat,
    ready: bool,
    released: bool,
    presented: Option<nat>,
    held: Mirror,
    fenced: bool,
    /** Every action ever sent was sent under an epoch below this. */
    unused: nat)

  datatype Step =
    | ViewerActs(action: Action, barrier: u64, released: Mirror)
    | ViewerSnapshots(observed: set<Held>)
    | ViewerLapses
    | ViewerReports(visible: bool)
    | ViewerTakesTicket
    | ViewerDropsTicket
    | ViewerResumes
    | ViewerAbandons
    | HostTakesReport(accepted: bool)
    | HostSkipsReport
    | HostLapses
    | HostReleases(left: Mirror)
    | HostConfirms
    | HostIssues
    | HostTakesMessage(succeeds: bool, after: Mirror)
    | HostStops(after: Mirror)

  function Start(): (r: State) {
    State(true, NOTHING_HELD, 0, Readiness(0, 0, Clear), [], [], [], 0, 0, true, false, None, NOTHING_HELD, false, 0)
  }

  function ViewOf(c: Config, s: State, released: Mirror): (r: ClientView) {
    ClientView(c.capabilities, c.bounds, s.remembered, released)
  }

  /** When a step can happen. */
  ghost predicate Enabled(c: Config, s: State, step: Step)
    requires s.remembered.Shaped() && s.held.Shaped()
  {
    match step
    case ViewerActs(action, barrier, released) =>
      s.live && released.Shaped() && EventFor(ViewOf(c, s, released), action, barrier).Ok?
    case ViewerSnapshots(_) => s.live
    case ViewerLapses => true
    case ViewerReports(_) => |s.reports| < U64_MAX
    case ViewerTakesTicket => s.grants != []
    case ViewerDropsTicket => s.grants != []
    case ViewerResumes => !s.live && s.readiness.resume == Clear
    case ViewerAbandons => !s.live && s.stream != []
    case HostTakesReport(_) => s.applied < |s.reports|
    case HostSkipsReport => s.applied < |s.reports| && s.reports[s.applied]
    case HostLapses => true
    case HostReleases(left) =>
      !s.ready && left.Shaped() && forall h :: left.Holds(h) ==> s.held.Holds(h)
    case HostConfirms => !s.ready && s.held == NOTHING_HELD
    case HostIssues => s.ready && s.presented.Some?
    case HostTakesMessage(_, after) => s.stream != [] && after.Shaped()
    case HostStops(after) => after.Shaped()
  }

  function LapseHost(s: State): (r: State) {
    s.(epoch := s.epoch + 1, ready := false, presented := None, released := !s.ready && s.released)
  }

  function SuspendViewer(s: State, resume: Resume): (r: State) {
    s.(live := false, remembered := NOTHING_HELD, readiness := s.readiness.(resume := resume))
  }

  function Reporting(s: State, visible: bool): (r: State)
    requires |s.reports| < U64_MAX
  {
    s.(reports := s.reports + [visible], readiness := s.readiness.(ceiling := |s.reports| + 1))
  }

  function Next(c: Config, s: State, step: Step): (r: State)
    requires s.remembered.Shaped() && s.held.Shaped() && Enabled(c, s, step)
  {
    match step
    case ViewerActs(action, barrier, released) =>
      var e := EventFor(ViewOf(c, s, released), action, barrier).value.event;
      s.(stream := s.stream + [Act(s.ticketEpoch, e)], remembered := Sent(s.remembered, e),
        unused := Max(s.unused, s.ticketEpoch + 1))
    case ViewerSnapshots(observed) =>
      var kept := Shared(s.remembered, observed);
      s.(stream := s.stream + [Snapshot(HeldSet(kept))], remembered := kept)
    case ViewerLapses => SuspendViewer(s, NeedLossReport)
    case ViewerReports(visible) =>
      var t := Reporting(s, visible);
      if visible then t else SuspendViewer(t, AfterLoss(|s.reports| + 1))
    case ViewerTakesTicket =>
      var g := s.grants[0];
      var t := s.(grants := s.grants[1..], ticketEpoch := g.epoch);
      if g.presented > U64_MAX || Acknowledge(s.readiness, g.presented).None? then t
      else t.(readiness := Acknowledge(s.readiness, g.presented).value.0)
    case ViewerDropsTicket => s.(grants := s.grants[1..])
    case ViewerResumes => s.(live := true)
    case ViewerAbandons => s.(stream := s.stream[..|s.stream| - 1])
    case HostTakesReport(accepted) =>
      var t := s.(applied := s.applied + 1);
      if !s.reports[s.applied] then LapseHost(t)
      else if accepted && (s.ready || s.released)
        then t.(ready := true, released := false, presented := Some(t.applied))
      else t.(presented := None)
    case HostSkipsReport => s.(applied := s.applied + 1)
    case HostLapses => LapseHost(s)
    case HostReleases(left) => s.(held := left)
    case HostConfirms => s.(released := true)
    case HostIssues => s.(grants := s.grants + [Grant(s.epoch, s.presented.value)])
    case HostTakesMessage(succeeds, after) =>
      var t := s.(stream := s.stream[1..]);
      if s.fenced then t
      else
        var done := Handle(c, s.held, s.ready, s.epoch, s.stream[0]);
        if done.Some? && succeeds then t.(held := done.value) else t.(held := after, fenced := true)
    case HostStops(after) => s.(held := after, fenced := true)
  }

  /** What a handled message leaves held, if the host does not refuse it. */
  function Handle(c: Config, held: Mirror, ready: bool, epoch: nat, m: Message): (r: Option<Mirror>)
    requires held.Shaped()
    ensures r.Some? ==> r.value.Shaped()
  {
    if !ready then None
    else
      match m
      case Act(ep, e) =>
        if ep != epoch || EventFault(HostFacts(c, held), e, c.backend).Some? then None
        else Some(ConfirmAll(held, Plan(e, Position(0, 0), c.backend)))
      case Snapshot(h) => Some(Shared(held, h))
  }

  // ---------------------------------------------------------- looking down the stream

  /** What the host will hold after the whole stream, or none if it refuses on the way. */
  function End(c: Config, held: Mirror, epoch: nat, stream: seq<Message>): (r: Option<Mirror>)
    requires held.Shaped()
    ensures r.Some? ==> r.value.Shaped()
  {
    if stream == [] then Some(held)
    else
      var before := End(c, held, epoch, stream[..|stream| - 1]);
      if before.None? then None else Handle(c, before.value, true, epoch, stream[|stream| - 1])
  }

  /** A message the host reaches is never refused as an invalid transition, nor for
      anything else but a void ticket or a partial line scroll. */
  ghost predicate Welcome(c: Config, held: Mirror, epoch: nat, m: Message)
    requires held.Shaped()
  {
    m.Act? && m.epoch == epoch && EventFault(HostFacts(c, held), m.event, c.backend).Some? ==>
      PartialLines(m.event, c.backend)
  }

  ghost predicate AllWelcome(c: Config, held: Mirror, epoch: nat, stream: seq<Message>)
    requires held.Shaped()
  {
    forall i :: 0 <= i < |stream| && End(c, held, epoch, stream[..i]).Some? ==>
      Welcome(c, End(c, held, epoch, stream[..i]).value, epoch, stream[i])
  }

  /** Taking the first message does not change what the stream leads to. */
  lemma {:induction false} EndCons(c: Config, held: Mirror, epoch: nat, m: Message, rest: seq<Message>)
    requires held.Shaped()
    ensures End(c, held, epoch, [m] + rest) ==
      var first := Handle(c, held, true, epoch, m);
      if first.None? then None else End(c, first.value, epoch, rest)
  {
    hide Handle;
    if rest == [] {
      assert [m] + rest == [m] && [m][..0] == [];
    } else {
      var n := |rest| - 1;
      EndCons(c, held, epoch, m, rest[..n]);
      assert ([m] + rest)[..n + 1] == [m] + rest[..n];
    }
  }

  lemma WelcomeTail(c: Config, held: Mirror, epoch: nat, stream: seq<Message>)
    requires held.Shaped() && stream != [] && AllWelcome(c, held, epoch, stream)
    ensures var first := Handle(c, held, true, epoch, stream[0]);
      first.Some? ==> AllWelcome(c, first.value, epoch, stream[1..])
  {
    hide Handle, Welcome;
    var first := Handle(c, held, true, epoch, stream[0]);
    if first.Some? {
      var rest := stream[1..];
      forall i | 0 <= i < |rest| && End(c, first.value, epoch, rest[..i]).Some?
        ensures Welcome(c, End(c, first.value, epoch, rest[..i]).value, epoch, rest[i])
      {
        EndCons(c, held, epoch, stream[0], rest[..i]);
        assert stream[..i + 1] == [stream[0]] + rest[..i];
        assert Welcome(c, End(c, held, epoch, stream[..i + 1]).value, epoch, stream[i + 1]);
      }
    }
  }

  lemma WelcomeAppend(c: Config, held: Mirror, epoch: nat, stream: seq<Message>, m: Message)
    requires held.Shaped() && AllWelcome(c, held, epoch, stream)
    requires End(c, held, epoch, stream).Some? ==> Welcome(c, End(c, held, epoch, stream).value, epoch, m)
    ensures AllWelcome(c, held, epoch, stream + [m])
    ensures End(c, held, epoch, stream + [m]) ==
      var before := End(c, held, epoch, stream); if before.None? then None else Handle(c, before.value, true, epoch, m)
  {
    hide Handle, Welcome;
    var all := stream + [m];
    assert all[..|stream|] == stream;
    forall i | 0 <= i < |all| && End(c, held, epoch, all[..i]).Some?
      ensures Welcome(c, End(c, held, epoch, all[..i]).value, epoch, all[i])
    {
      if i < |stream| { assert all[..i] == stream[..i]; }
    }
  }

  /** Actions of older epochs are refused by their ticket before anything else. */
  ghost predicate AllOld(stream: seq<Message>, epoch: nat) {
    forall i :: 0 <= i < |stream| && stream[i].Act? ==> stream[i].epoch < epoch
  }

  lemma OldIsWelcome(c: Config, held: Mirror, epoch: nat, stream: seq<Message>)
    requires held.Shaped() && AllOld(stream, epoch)
    ensures AllWelcome(c, held, epoch, stream)
  {
    hide End;
  }

  /** With nothing held, a stream of old actions ends the grant or leaves nothing held. */
  lemma {:induction false} OldLeavesNothing(c: Config, epoch: nat, stream: seq<Message>)
    requires AllOld(stream, epoch)
    ensures End(c, NOTHING_HELD, epoch, stream) in {None, Some(NOTHING_HELD)}
    ensures (exists i :: 0 <= i < |stream| && stream[i].Act?) <==> End(c, NOTHING_HELD, epoch, stream).None?
  {
    if stream != [] {
      var n := |stream| - 1;
      OldLeavesNothing(c, epoch, stream[..n]);
      SharedNothing(if stream[n].Snapshot? then stream[n].held else {});
      assert forall i :: 0 <= i < n ==> stream[..n][i] == stream[i];
      if stream[n].Act? { assert stream[n].epoch < epoch; }
    }
  }

  lemma SharedNothing(h: set<Held>)
    ensures Shared(NOTHING_HELD, h) == NOTHING_HELD
  {
    assert Shared(NOTHING_HELD, h).keys == NOTHING_HELD.keys;
    assert Shared(NOTHING_HELD, h).buttons == NOTHING_HELD.buttons;
  }

  // ---------------------------------------------------------------- the invariant

  ghost predicate Shapes(s: State) {
    && s.remembered.Shaped() && s.held.Shaped() && s.remembered.wheel.None?
    && (!s.live ==> s.remembered == NOTHING_HELD) && (s.live ==> s.readiness.resume == Clear)
  }

  /** Reports and tickets keep their order; a ticket of the host's current epoch
      means that the host has been ready ever since. */
  ghost predicate Ordered(s: State) {
    && s.readiness.ceiling == |s.reports| && s.readiness.acknowledged <= s.applied <= |s.reports|
    && s.ticketEpoch <= s.epoch && (s.ticketEpoch == s.epoch ==> s.ready)
    && (s.presented.Some? ==>
       s.ready && 1 <= s.presented.value <= s.applied && s.readiness.acknowledged <= s.presented.value)
    && (forall i :: 0 <= i < |s.grants| ==>
         && 1 <= s.grants[i].presented <= s.applied && s.readiness.acknowledged <= s.grants[i].presented
         && (s.presented.Some? ==> s.grants[i].presented <= s.presented.value)
         && s.ticketEpoch <= s.grants[i].epoch <= s.epoch && (s.grants[i].epoch == s.epoch ==> s.ready))
    && (forall i, j :: 0 <= i < j < |s.grants| ==>
         s.grants[i].presented <= s.grants[j].presented && s.grants[i].epoch <= s.grants[j].epoch)
  }

  ghost predicate Dated(s: State) {
    s.unused <= s.ticketEpoch + 1 && AllOld(s.stream, s.unused)
  }

  /** An epoch nothing was sent under begins with nothing held. */
  ghost predicate Emptied(s: State) {
    !s.fenced && (if s.ready then s.unused <= s.epoch else s.released) ==> s.held == NOTHING_HELD
  }

  /** The loss report of a suspension separates what was sent before it from every
      ticket that may end the suspension. */
  ghost predicate Barred(s: State) {
    && (s.readiness.resume.AfterLoss? ==>
         var loss := s.readiness.resume.sequence;
         && 1 <= loss <= |s.reports| && !s.reports[loss - 1]
         && (loss <= s.applied ==> s.unused <= s.epoch)
         && (forall i :: 0 <= i < |s.grants| && s.grants[i].presented > loss ==> s.unused <= s.grants[i].epoch))
    && (!s.live && s.readiness.resume == Clear ==> s.unused <= s.ticketEpoch)
  }

  /** Once the host has handled the stream it holds what the viewer remembers. */
  ghost predicate Agrees(c: Config, s: State)
    requires Shapes(s)
  {
    !s.fenced && s.live && s.ticketEpoch == s.epoch && End(c, s.held, s.epoch, s.stream).Some? ==>
      End(c, s.held, s.epoch, s.stream).value == s.remembered
  }

  ghost predicate Expected(c: Config, s: State)
    requires Shapes(s)
  {
    !s.fenced ==> AllWelcome(c, s.held, s.epoch, s.stream)
  }

  ghost predicate Inv(c: Config, s: State) {
    Shapes(s) && Ordered(s) && Dated(s) && Emptied(s) && Barred(s) && Agrees(c, s) && Expected(c, s)
  }

  /** The one way the mirrors come apart: the host lapsed and recovered without the
      viewer noticing, and the viewer still remembers something when it takes the
      new ticket. */
  ghost predicate RenewalKeeps(s: State)
    requires s.grants != []
  {
    var epoch := s.grants[0].epoch;
    s.live && !s.fenced && epoch == s.epoch && epoch != s.ticketEpoch
      && (forall i :: 0 <= i < |s.stream| ==> !s.stream[i].Act?)
    ==> s.remembered == NOTHING_HELD
  }

  // ---------------------------------------------------------------------- each step

  lemma SnapshotShares(m: Mirror, observed: set<Held>)
    requires m.Shaped()
    ensures Shared(m, HeldSet(Shared(m, observed))) == Shared(m, observed)
  {
    var kept := Shared(m, observed);
    forall u | 0 <= u < KEYS
      ensures Shared(m, HeldSet(kept)).keys[u] == kept.keys[u]
    {
      assert HeldKey(u) in HeldSet(kept) <==> kept.Holds(HeldKey(u));
    }
    forall b | 0 <= b < BUTTONS
      ensures Shared(m, HeldSet(kept)).buttons[b] == kept.buttons[b]
    {
      assert HeldButton(b) in HeldSet(kept) <==> kept.Holds(HeldButton(b));
    }
  }

  lemma ActKeeps(c: Config, s: State, step: Step)
    requires Inv(c, s) && step.ViewerActs? && Enabled(c, s, step)
    ensures Inv(c, Next(c, s, step))
  {
    hide EventFor, EventFault, Plan, ConfirmAll, Mirror.Shaped, PartialLines, End, AllWelcome;
    var e := EventFor(ViewOf(c, s, step.released), step.action, step.barrier).value.event;
    AcceptedNeverFaults(c, s.remembered, step.released, step.action, step.barrier);
    PlanMatchesSent(c, s.remembered, step.released, step.action, step.barrier);
    if !s.fenced {
      WelcomeAppend(c, s.held, s.epoch, s.stream, Act(s.ticketEpoch, e));
    }
  }

  lemma SnapshotKeeps(c: Config, s: State, step: Step)
    requires Inv(c, s) && step.ViewerSnapshots? && Enabled(c, s, step)
    ensures Inv(c, Next(c, s, step))
  {
    hide EventFault, Plan, ConfirmAll, PartialLines, End, AllWelcome, Shared, HeldSet;
    SnapshotShares(s.remembered, step.observed);
    if !s.fenced {
      WelcomeAppend(c, s.held, s.epoch, s.stream, Snapshot(HeldSet(Shared(s.remembered, step.observed))));
    }
  }

  lemma NothingIsShaped()
    ensures NOTHING_HELD.Shaped() && NOTHING_HELD.wheel.None?
  {}

  lemma WithinNothing(m: Mirror)
    requires m.Shaped() && NOTHING_HELD.Shaped() && forall h :: m.Holds(h) ==> NOTHING_HELD.Holds(h)
    ensures m == NOTHING_HELD
  {
    forall u | 0 <= u < KEYS ensures m.keys[u] == NOTHING_HELD.keys[u] {
      assert m.Holds(HeldKey(u)) ==> NOTHING_HELD.Holds(HeldKey(u));
    }
    forall b | 0 <= b < BUTTONS ensures m.buttons[b] == NOTHING_HELD.buttons[b] {
      assert m.Holds(HeldButton(b)) ==> NOTHING_HELD.Holds(HeldButton(b));
    }
    if m.wheel.Some? { assert m.Holds(HeldWheel(m.wheel.value)); }
  }

  /** What reports and tickets say does not depend on the stream or on what is held. */
  lemma EvidenceFrame(s: State, t: State)
    requires t == s.(stream := t.stream, held := t.held, fenced := t.fenced, remembered := t.remembered)
    ensures Ordered(s) == Ordered(t) && Barred(s) == Barred(t)
  {}

  lemma SuspendKeeps(c: Config, s: State, resume: Resume)
    requires Inv(c, s) && resume != Clear
    ensures var t := SuspendViewer(s, resume);
      Shapes(t) && Ordered(t) && Dated(t) && Emptied(t) && Agrees(c, t) && Expected(c, t)
    ensures resume == NeedLossReport ==> Inv(c, SuspendViewer(s, resume))
  {
    hide End, AllWelcome, AllOld, Mirror.Shaped;
    NothingIsShaped();
  }

  lemma ReportingKeeps(c: Config, s: State, visible: bool)
    requires Inv(c, s) && |s.reports| < U64_MAX
    ensures Inv(c, Reporting(s, visible))
  {
    hide End, AllWelcome, AllOld, Mirror.Shaped;
  }

  lemma LossBars(c: Config, s: State)
    requires Inv(c, s) && |s.reports| < U64_MAX
    ensures Barred(SuspendViewer(Reporting(s, false), AfterLoss(|s.reports| + 1)))
  {
    hide End, AllWelcome, AllOld, Mirror.Shaped, Agrees, Expected, Dated, Emptied;
    var n := |s.reports| + 1;
    var t := SuspendViewer(Reporting(s, false), AfterLoss(n));
    assert t.reports[n - 1] == false && t.applied < n;
    assert forall i :: 0 <= i < |t.grants| ==> t.grants[i].presented <= s.applied;
  }

  lemma ReportSent(c: Config, s: State, visible: bool)
    requires Inv(c, s) && |s.reports| < U64_MAX
    ensures Inv(c, Next(c, s, ViewerReports(visible)))
  {
    hide Ordered, Dated, Emptied, Barred, Agrees, Expected, SuspendViewer;
    ReportingKeeps(c, s, visible);
    assert Next(c, s, ViewerReports(visible))
        == if visible then Reporting(s, true) else SuspendViewer(Reporting(s, false), AfterLoss(|s.reports| + 1));
    if !visible {
      SuspendKeeps(c, Reporting(s, false), AfterLoss(|s.reports| + 1));
      LossBars(c, s);
    }
  }

  lemma TicketOrdered(c: Config, s: State, step: Step)
    requires Inv(c, s) && step.ViewerTakesTicket? && Enabled(c, s, step)
    ensures var g := s.grants[0];
      1 <= g.presented <= U64_MAX && Acknowledge(s.readiness, g.presented).Some? && s.ticketEpoch <= g.epoch
    ensures Ordered(Next(c, s, step))
  {
    hide End, AllWelcome, AllOld, Mirror.Shaped, Agrees, Expected, Dated, Emptied, Barred;
    var t := Next(c, s, step);
    assert forall i :: 0 <= i < |t.grants| ==> t.grants[i] == s.grants[i + 1];
  }

  lemma TicketBarred(c: Config, s: State, step: Step)
    requires Inv(c, s) && step.ViewerTakesTicket? && Enabled(c, s, step)
    ensures Barred(Next(c, s, step))
  {
    hide End, AllWelcome, AllOld, Mirror.Shaped, Agrees, Expected, Dated, Emptied, Ordered;
    TicketOrdered(c, s, step);
    var t := Next(c, s, step);
    assert forall i :: 0 <= i < |t.grants| ==> t.grants[i] == s.grants[i + 1];
  }

  lemma TicketKeeps(c: Config, s: State, step: Step)
    requires Inv(c, s) && step.ViewerTakesTicket? && Enabled(c, s, step)
    ensures var t := Next(c, s, step);
      Shapes(t) && Ordered(t) && Dated(t) && Emptied(t) && Barred(t) && Expected(c, t)
  {
    hide End, AllWelcome, AllOld, Mirror.Shaped, Agrees, Ordered, Barred;
    TicketOrdered(c, s, step);
    TicketBarred(c, s, step);
  }

  /** Taking a ticket keeps the agreement exactly under `RenewalKeeps`. */
  lemma TicketAgreesExactly(c: Config, s: State)
    requires Inv(c, s) && s.grants != []
    ensures Enabled(c, s, ViewerTakesTicket) && Shapes(Next(c, s, ViewerTakesTicket))
    ensures Agrees(c, Next(c, s, ViewerTakesTicket)) <==> RenewalKeeps(s)
  {
    hide Mirror.Shaped;
    TicketKeeps(c, s, ViewerTakesTicket);
    var g := s.grants[0];
    if s.live && !s.fenced && g.epoch == s.epoch && g.epoch != s.ticketEpoch {
      OldLeavesNothing(c, s.epoch, s.stream);
    }
  }

  /** A ticket that arrives too late changes nothing else. */
  lemma DropKeeps(c: Config, s: State, step: Step)
    requires Inv(c, s) && step.ViewerDropsTicket? && Enabled(c, s, step)
    ensures Inv(c, Next(c, s, step))
  {
    hide End, AllWelcome, AllOld, Mirror.Shaped;
    var t := Next(c, s, step);
    assert forall i :: 0 <= i < |t.grants| ==> t.grants[i] == s.grants[i + 1];
  }

  /** A record that a suspended viewer takes back was the newest one. */
  lemma AbandonKeeps(c: Config, s: State, step: Step)
    requires Inv(c, s) && step.ViewerAbandons? && Enabled(c, s, step)
    ensures Inv(c, Next(c, s, step))
  {
    hide End, Mirror.Shaped, Ordered, Barred, Welcome;
    var n := |s.stream| - 1;
    EvidenceFrame(s, Next(c, s, step));
    assert forall i :: 0 <= i < n ==> s.stream[..n][..i] == s.stream[..i] && s.stream[..n][i] == s.stream[i];
  }

  lemma ResumeKeeps(c: Config, s: State, step: Step)
    requires Inv(c, s) && step.ViewerResumes? && Enabled(c, s, step)
    ensures Inv(c, Next(c, s, step))
  {
    hide End, AllWelcome, Mirror.Shaped;
    if s.ticketEpoch == s.epoch { OldLeavesNothing(c, s.epoch, s.stream); }
  }

  lemma LapseKeeps(c: Config, s: State)
    requires Inv(c, s)
    ensures Inv(c, LapseHost(s))
  {
    hide End, AllWelcome, Mirror.Shaped;
    OldIsWelcome(c, s.held, s.epoch + 1, s.stream);
  }

  lemma LossKeeps(c: Config, s: State)
    requires Inv(c, s) && s.applied < |s.reports| && !s.reports[s.applied]
    ensures Inv(c, LapseHost(s.(applied := s.applied + 1)))
  {
    hide End, AllWelcome, Mirror.Shaped, AllOld;
    LapseKeeps(c, s);
    var t := LapseHost(s.(applied := s.applied + 1));
    assert t == LapseHost(s).(applied := s.applied + 1);
    assert s.unused <= t.epoch;
  }

  lemma SightKeeps(c: Config, s: State, accepted: bool)
    requires Inv(c, s) && s.applied < |s.reports| && s.reports[s.applied]
    ensures Inv(c, Next(c, s, HostTakesReport(accepted)))
  {
    hide End, AllWelcome, Mirror.Shaped, AllOld;
    var t := Next(c, s, HostTakesReport(accepted));
    assert s.readiness.resume.AfterLoss? && s.readiness.resume.sequence <= t.applied ==>
      s.readiness.resume.sequence <= s.applied;
  }

  /** A report that came too late to matter. */
  lemma SkipKeeps(c: Config, s: State)
    requires Inv(c, s) && s.applied < |s.reports| && s.reports[s.applied]
    ensures Enabled(c, s, HostSkipsReport) && Inv(c, Next(c, s, HostSkipsReport))
  {
    hide End, AllWelcome, Mirror.Shaped, AllOld;
    var t := Next(c, s, HostSkipsReport);
    assert s.readiness.resume.AfterLoss? && s.readiness.resume.sequence <= t.applied ==>
      s.readiness.resume.sequence <= s.applied;
  }

  lemma ReportKeeps(c: Config, s: State, step: Step)
    requires Inv(c, s) && step.HostTakesReport? && Enabled(c, s, step)
    ensures Inv(c, Next(c, s, step))
  {
    hide Shapes, Ordered, Dated, Emptied, Barred, Agrees, Expected, LapseHost;
    if s.reports[s.applied] { SightKeeps(c, s, step.accepted); } else { LossKeeps(c, s); }
  }

  lemma HostKeeps(c: Config, s: State, step: Step)
    requires Inv(c, s) && (step.HostReleases? || step.HostConfirms? || step.HostIssues?) && Enabled(c, s, step)
    ensures Inv(c, Next(c, s, step))
  {
    hide End, AllWelcome, Mirror.Shaped;
    if step.HostReleases? {
      EvidenceFrame(s, Next(c, s, step));
      NothingIsShaped();
      OldIsWelcome(c, step.left, s.epoch, s.stream);
      if s.held == NOTHING_HELD { WithinNothing(step.left); }
    }
  }

  /** Revocation ends the grant, whatever is still held then. */
  lemma StopKeeps(c: Config, s: State, step: Step)
    requires Inv(c, s) && step.HostStops? && Enabled(c, s, step)
    ensures Inv(c, Next(c, s, step))
  {
    hide End, AllWelcome, Mirror.Shaped, Ordered, Barred;
    EvidenceFrame(s, Next(c, s, step));
  }

  lemma MessageKeeps(c: Config, s: State, step: Step)
    requires Inv(c, s) && step.HostTakesMessage? && Enabled(c, s, step)
    ensures Inv(c, Next(c, s, step))
  {
    hide End, AllWelcome, Mirror.Shaped, EventFault, ConfirmAll, Plan, Shared, Ordered, Barred;
    EvidenceFrame(s, Next(c, s, step));
    var m := s.stream[0];
    if !s.fenced && s.ready {
      WelcomeTail(c, s.held, s.epoch, s.stream);
      EndCons(c, s.held, s.epoch, m, s.stream[1..]);
      assert s.stream == [m] + s.stream[1..];
      if m.Snapshot? { SharedNothing(m.held); }
    }
  }

  lemma StepKeeps(c: Config, s: State, step: Step)
    requires Inv(c, s) && Enabled(c, s, step) && (step.ViewerTakesTicket? ==> RenewalKeeps(s))
    ensures Inv(c, Next(c, s, step))
  {
    hide Next, Shapes, Ordered, Dated, Emptied, Barred, Agrees, Expected, RenewalKeeps;
    match step {
      case ViewerActs(_, _, _) => ActKeeps(c, s, step);
      case ViewerSnapshots(_) => SnapshotKeeps(c, s, step);
      case ViewerLapses => ViewerLapseKeeps(c, s);
      case ViewerReports(visible) => ReportSent(c, s, visible);
      case ViewerTakesTicket =>
        TicketKeeps(c, s, step);
        TicketAgreesExactly(c, s);
      case ViewerDropsTicket => DropKeeps(c, s, step);
      case ViewerResumes => ResumeKeeps(c, s, step);
      case ViewerAbandons => AbandonKeeps(c, s, step);
      case HostTakesReport(_) => ReportKeeps(c, s, step);
      case HostSkipsReport => SkipKeeps(c, s);
      case HostLapses => HostLapseKeeps(c, s);
      case HostReleases(_) => HostKeeps(c, s, step);
      case HostConfirms => HostKeeps(c, s, step);
      case HostIssues => HostKeeps(c, s, step);
      case HostTakesMessage(_, _) => MessageKeeps(c, s, step);
      case HostStops(_) => StopKeeps(c, s, step);
    }
  }

  lemma ViewerLapseKeeps(c: Config, s: State)
    requires Inv(c, s)
    ensures Enabled(c, s, ViewerLapses) && Inv(c, Next(c, s, ViewerLapses))
  {
    hide Inv, SuspendViewer;
    SuspendKeeps(c, s, NeedLossReport);
  }

  lemma HostLapseKeeps(c: Config, s: State)
    requires Inv(c, s)
    ensures Enabled(c, s, HostLapses) && Inv(c, Next(c, s, HostLapses))
  {
    hide Inv, LapseHost;
    LapseKeeps(c, s);
  }

  // ------------------------------------------------------------------ whole runs

  /** These steps lead from one state of the protocol to another. */
  ghost predicate Path(c: Config, s: State, steps: seq<Step>, t: State)
    decreases |steps|
  {
    if steps == [] then s == t
    else
      && s.remembered.Shaped() && s.held.Shaped() && Enabled(c, s, steps[0])
      && Path(c, Next(c, s, steps[0]), steps[1..], t)
  }

  lemma PathOne(c: Config, s: State, step: Step)
    requires s.remembered.Shaped() && s.held.Shaped() && Enabled(c, s, step)
    ensures Path(c, s, [step], Next(c, s, step))
  {
    hide Enabled, Next;
    assert [step][1..] == [];
  }

  lemma PathThen(c: Config, s: State, step: Step, steps: seq<Step>, t: State)
    requires s.remembered.Shaped() && s.held.Shaped() && Enabled(c, s, step) && Path(c, Next(c, s, step), steps, t)
    ensures Path(c, s, [step] + steps, t)
  {
    hide Enabled, Next;
    assert ([step] + steps)[1..] == steps;
  }

  lemma {:induction false} PathJoin(c: Config, s: State, xs: seq<Step>, t: State, ys: seq<Step>, u: State)
    requires Path(c, s, xs, t) && Path(c, t, ys, u)
    ensures Path(c, s, xs + ys, u)
    decreases |xs|
  {
    hide Enabled, Next;
    if xs == [] {
      assert xs + ys == ys;
    } else {
      PathJoin(c, Next(c, s, xs[0]), xs[1..], t, ys, u);
      assert (xs + ys)[1..] == xs[1..] + ys;
    }
  }


  /** A run of the two parties from the grant on. */
  ghost predicate IsRun(c: Config, states: seq<State>, steps: seq<Step>) {
    && |states| == |steps| + 1 && states[0] == Start()
    && forall i :: 0 <= i < |steps| ==>
      && states[i].remembered.Shaped() && states[i].held.Shaped() && Enabled(c, states[i], steps[i])
      && states[i + 1] == Next(c, states[i], steps[i])
  }

  /** No ticket of a later epoch is taken over a remembered press. */
  ghost predicate RenewalsKeep(states: seq<State>, steps: seq<Step>)
    requires |states| == |steps| + 1
  {
    forall i :: 0 <= i < |steps| && steps[i].ViewerTakesTicket? ==> states[i].grants != [] && RenewalKeeps(states[i])
  }

  lemma StartHolds(c: Config)
    ensures Inv(c, Start())
  {}

  lemma {:induction false} RunKeeps(c: Config, states: seq<State>, steps: seq<Step>, n: nat)
    requires IsRun(c, states, steps) && RenewalsKeep(states, steps) && n <= |steps|
    ensures Inv(c, states[n])
  {
    hide Inv, Next, Enabled, RenewalKeeps;
    if n == 0 {
      StartHolds(c);
    } else {
      RunKeeps(c, states, steps, n - 1);
      StepKeeps(c, states[n - 1], steps[n - 1]);
    }
  }

  /** In every such run, an action that reaches the host under a valid ticket is
      never refused as an invalid transition; and whenever the host has caught up
      with a live viewer, both hold the same keys and buttons. */
  lemma ViewerAndHostAgree(c: Config, states: seq<State>, steps: seq<Step>, n: nat)
    requires IsRun(c, states, steps) && RenewalsKeep(states, steps) && n <= |steps|
    ensures var s := states[n];
      && s.remembered.Shaped() && s.held.Shaped()
      && (!s.fenced && s.stream != [] && s.stream[0].Act? && s.stream[0].epoch == s.epoch ==>
           var fault := EventFault(HostFacts(c, s.held), s.stream[0].event, c.backend);
           fault.Some? ==> PartialLines(s.stream[0].event, c.backend))
      && (!s.fenced && s.stream == [] && s.live && s.ticketEpoch == s.epoch ==> s.held == s.remembered)
  {
    RunKeeps(c, states, steps, n);
    var s := states[n];
    if s.stream != [] && !s.fenced {
      assert s.stream[..0] == [];
      assert Welcome(c, s.held, s.epoch, s.stream[0]);
    }
  }

  // -------------------------------------------------------------- a way back

  /** A suspended viewer takes back everything it has not sent. */
  lemma {:induction false} AbandonsAll(c: Config, s: State) returns (steps: seq<Step>, t: State)
    requires !s.live && s.remembered.Shaped() && s.held.Shaped()
    ensures Path(c, s, steps, t) && t == s.(stream := [])
    decreases |s.stream|
  {
    if s.stream == [] {
      steps, t := [], s;
    } else {
      var u := Next(c, s, ViewerAbandons);
      var rest;
      rest, t := AbandonsAll(c, u);
      PathThen(c, s, ViewerAbandons, rest, t);
      steps := [ViewerAbandons] + rest;
    }
  }

  /** The host works off every report; the last one, a loss, lapses it. */
  lemma {:induction false} TakesReports(c: Config, s: State) returns (steps: seq<Step>, t: State)
    requires s.remembered.Shaped() && s.held.Shaped() && s.applied < |s.reports| && !s.reports[|s.reports| - 1]
    ensures Path(c, s, steps, t) && s.epoch < t.epoch && !t.ready && t.presented.None?
    ensures t == s.(applied := |s.reports|, epoch := t.epoch, ready := false, presented := None, released := t.released)
    decreases |s.reports| - s.applied
  {
    var u := Next(c, s, HostTakesReport(false));
    if u.applied == |s.reports| {
      PathOne(c, s, HostTakesReport(false));
      steps, t := [HostTakesReport(false)], u;
    } else {
      var rest;
      rest, t := TakesReports(c, u);
      PathThen(c, s, HostTakesReport(false), rest, t);
      steps := [HostTakesReport(false)] + rest;
    }
  }

  /** The viewer drops all tickets but the last. */
  lemma {:induction false} DropsToLast(c: Config, s: State) returns (steps: seq<Step>, t: State)
    requires s.remembered.Shaped() && s.held.Shaped() && s.grants != []
    ensures Path(c, s, steps, t) && t == s.(grants := [s.grants[|s.grants| - 1]])
    decreases |s.grants|
  {
    if |s.grants| == 1 {
      steps, t := [], s;
    } else {
      var u := Next(c, s, ViewerDropsTicket);
      var rest;
      rest, t := DropsToLast(c, u);
      PathThen(c, s, ViewerDropsTicket, rest, t);
      steps := [ViewerDropsTicket] + rest;
    }
  }

  /** A reported loss, worked off by the host: it has lapsed, and nothing is on its way. */
  lemma LossIsTaken(c: Config, s: State) returns (steps: seq<Step>, t: State)
    requires Inv(c, s) && |s.reports| < U64_MAX
    ensures Path(c, s, steps, t) && !t.ready && t.presented.None? && t.stream == [] && !t.live
    ensures t.remembered == NOTHING_HELD && t.held == s.held && t.fenced == s.fenced && t.grants == s.grants
    ensures t.applied == |t.reports| == |s.reports| + 1
    ensures t.readiness == Readiness(|t.reports|, s.readiness.acknowledged, AfterLoss(|t.reports|))
  {
    hide Inv, Path;
    InvShapes(c, s);
    NothingIsShaped();
    PathOne(c, s, ViewerReports(false));
    var a := Next(c, s, ViewerReports(false));
    var ys, b := AbandonsAll(c, a);
    PathJoin(c, s, [ViewerReports(false)], a, ys, b);
    var zs;
    zs, t := TakesReports(c, b);
    PathJoin(c, s, [ViewerReports(false)] + ys, b, zs, t);
    steps := [ViewerReports(false)] + ys + zs;
  }

  lemma InvShapes(c: Config, s: State)
    requires Inv(c, s)
    ensures s.remembered.Shaped() && s.held.Shaped() && s.applied <= |s.reports| == s.readiness.ceiling
    ensures s.readiness.acknowledged <= s.applied
  {}

  /** A lapsed host releases, confirms, and is ready again at the next picture, for which
      it issues a ticket. */
  lemma PictureIsTicketed(c: Config, s: State) returns (steps: seq<Step>, t: State)
    requires s.remembered == NOTHING_HELD && s.held.Shaped() && !s.ready && s.applied == |s.reports| < U64_MAX
    ensures Path(c, s, steps, t)
    ensures t == s.(held := NOTHING_HELD, released := false, reports := s.reports + [true],
      readiness := s.readiness.(ceiling := |s.reports| + 1), applied := |s.reports| + 1, ready := true,
      presented := Some(|s.reports| + 1), grants := s.grants + [Grant(s.epoch, |s.reports| + 1)])
  {
    hide Path;
    NothingIsShaped();
    var a := Next(c, s, HostReleases(NOTHING_HELD));
    var b := Next(c, a, HostConfirms);
    var d := Next(c, b, ViewerReports(true));
    var e := Next(c, d, HostTakesReport(true));
    t := Next(c, e, HostIssues);
    PathOne(c, e, HostIssues);
    PathThen(c, d, HostTakesReport(true), [HostIssues], t);
    PathThen(c, b, ViewerReports(true), [HostTakesReport(true)] + [HostIssues], t);
    PathThen(c, a, HostConfirms, [ViewerReports(true)] + ([HostTakesReport(true)] + [HostIssues]), t);
    steps := [HostConfirms] + ([ViewerReports(true)] + ([HostTakesReport(true)] + [HostIssues]));
    PathThen(c, s, HostReleases(NOTHING_HELD), steps, t);
    steps := [HostReleases(NOTHING_HELD)] + steps;
  }

  /** The ticket of a picture after the loss ends the suspension. */
  lemma TicketEndsSuspension(c: Config, s: State) returns (steps: seq<Step>, t: State)
    requires s.remembered == NOTHING_HELD && s.held.Shaped() && !s.live && s.grants != []
    requires var g := s.grants[|s.grants| - 1];
      && 0 < g.presented == s.readiness.ceiling && s.readiness.acknowledged <= g.presented
      && s.readiness.resume.AfterLoss? && s.readiness.resume.sequence < g.presented
    ensures Path(c, s, steps, t)
    ensures var g := s.grants[|s.grants| - 1];
      t == s.(live := true, grants := [], ticketEpoch := g.epoch,
              readiness := Readiness(g.presented, g.presented, Clear))
  {
    hide Path;
    NothingIsShaped();
    var xs, a := DropsToLast(c, s);
    var b := Next(c, a, ViewerTakesTicket);
    t := Next(c, b, ViewerResumes);
    PathOne(c, b, ViewerResumes);
    PathThen(c, a, ViewerTakesTicket, [ViewerResumes], t);
    PathJoin(c, s, xs, a, [ViewerTakesTicket] + [ViewerResumes], t);
    steps := xs + ([ViewerTakesTicket] + [ViewerResumes]);
  }

  /** From every reachable state in which the host still works there is a way back: both
      sides live and ready, with a current ticket, nothing held anywhere, and nothing on its
      way. No suspension, lapse or lost ticket is final by itself. */
  lemma RecoveryIsPossible(c: Config, s: State) returns (steps: seq<Step>, t: State)
    requires Inv(c, s) && !s.fenced && |s.reports| + 2 <= U64_MAX
    ensures Path(c, s, steps, t)
    ensures t.live && t.ready && !t.fenced && t.ticketEpoch == t.epoch && t.stream == [] && t.grants == []
    ensures t.held == t.remembered == NOTHING_HELD
  {
    hide Path, Inv;
    InvShapes(c, s);
    var xs, a := LossIsTaken(c, s);
    NothingIsShaped();
    var ys, b := PictureIsTicketed(c, a);
    var zs;
    zs, t := TicketEndsSuspension(c, b);
    PathJoin(c, s, xs, a, ys, b);
    PathJoin(c, s, xs + ys, b, zs, t);
    steps := xs + ys + zs;
  }

  // ----------------------------------------------------- a lapse only the host sees

  /** What the viewer remembers, it was entitled to press. */
  ghost predicate Entitled(c: Config, m: Mirror)
    requires m.Shaped()
  {
    && (forall u :: 0 <= u < KEYS && m.keys[u] ==> CapKeys in c.capabilities)
    && (forall b :: 0 <= b < BUTTONS && m.buttons[b] ==>
         CapButtons in c.capabilities && CapAbsolute in c.capabilities && exists p :: c.bounds.Contains(p))
  }

  lemma {:induction false} RunEntitles(c: Config, states: seq<State>, steps: seq<Step>, n: nat)
    requires IsRun(c, states, steps) && n <= |steps|
    ensures states[n].remembered.Shaped() && Entitled(c, states[n].remembered)
  {
    if n == 0 {
      NothingIsShaped();
    } else {
      RunEntitles(c, states, steps, n - 1);
      StepEntitles(c, states[n - 1], steps[n - 1]);
    }
  }

  lemma StepEntitles(c: Config, s: State, step: Step)
    requires s.remembered.Shaped() && s.held.Shaped() && Enabled(c, s, step) && Entitled(c, s.remembered)
    ensures Next(c, s, step).remembered.Shaped() && Entitled(c, Next(c, s, step).remembered)
  {
    hide EventFor, Sent, Handle, Acknowledge, Mirror.Shaped, Entitled;
    NothingEntitled(c);
    if step.ViewerActs? { SentEntitled(c, s.remembered, step.released, step.action, step.barrier); }
    if step.ViewerSnapshots? { SharedEntitled(c, s.remembered, step.observed); }
  }

  lemma NothingEntitled(c: Config)
    ensures NOTHING_HELD.Shaped() && Entitled(c, NOTHING_HELD)
  {}

  lemma SentEntitled(c: Config, m: Mirror, released: Mirror, action: Action, barrier: u64)
    requires m.Shaped() && released.Shaped() && Entitled(c, m)
    requires EventFor(ClientView(c.capabilities, c.bounds, m, released), action, barrier).Ok?
    ensures Entitled(c, Sent(m,
      EventFor(ClientView(c.capabilities, c.bounds, m, released), action, barrier).value.event))
  {}

  lemma SharedEntitled(c: Config, m: Mirror, held: set<Held>)
    requires m.Shaped() && Entitled(c, m)
    ensures Entitled(c, Shared(m, held))
  {}

  lemma EmptyIsNothing(m: Mirror)
    requires m.Shaped() && m.Empty()
    ensures m == NOTHING_HELD
  {
    assert m.keys == NOTHING_HELD.keys && m.buttons == NOTHING_HELD.buttons;
  }

  /** The release of something remembered. */
  lemma SomeRelease(c: Config, m: Mirror, released: Mirror, barrier: u64) returns (action: Action)
    requires m.Shaped() && m.wheel.None? && m != NOTHING_HELD && Entitled(c, m) && released.Shaped()
    ensures var r := EventFor(ClientView(c.capabilities, c.bounds, m, released), action, barrier);
      r.Ok? && EventFault(HostFacts(c, NOTHING_HELD), r.value.event, c.backend) == Some(FaultInvalidTransition)
  {
    if u :| 0 <= u < KEYS && m.keys[u] {
      action := KeyAction(u, Release);
    } else if b :| 0 <= b < BUTTONS && m.buttons[b] {
      var p :| c.bounds.Contains(p);
      action := ButtonAction(b, false, p);
    } else {
      EmptyIsNothing(m);
      assert false;
    }
  }

  /** Whenever agreement is lost, it shows: there is an action the viewer accepts next
      which the host, having handled everything before it, refuses as an invalid
      transition. */
  lemma LostAgreementShows(c: Config, states: seq<State>, steps: seq<Step>, n: nat) returns (action: Action)
    requires IsRun(c, states, steps) && n <= |steps| && RenewalsKeep(states[..n + 1], steps[..n])
    requires states[n].grants != [] && !RenewalKeeps(states[n])
    ensures states[n].remembered.Shaped() && states[n].held.Shaped() && Enabled(c, states[n], ViewerTakesTicket)
    ensures var t := Next(c, states[n], ViewerTakesTicket);
      && t.remembered.Shaped() && t.held.Shaped() && Enabled(c, t, ViewerActs(action, 0, NOTHING_HELD))
      && var u := Next(c, t, ViewerActs(action, 0, NOTHING_HELD));
         && u.stream == t.stream + [u.stream[|t.stream|]] && u.stream[|t.stream|].Act?
         && u.stream[|t.stream|].epoch == u.epoch
         && u.ready && !u.fenced && u.held == t.held && End(c, u.held, u.epoch, t.stream) == Some(NOTHING_HELD)
         && EventFault(HostFacts(c, NOTHING_HELD), u.stream[|t.stream|].event, c.backend)
            == Some(FaultInvalidTransition)
  {
    hide EventFor, EventFault, Mirror.Shaped, End, AllWelcome, Entitled;
    LostState(c, states, steps, n);
    var s := states[n];
    NothingIsShaped();
    action := SomeRelease(c, s.remembered, NOTHING_HELD, 0);
    OldLeavesNothing(c, s.epoch, s.stream);
  }

  /** What the state looks like in which agreement is about to be lost. */
  lemma LostState(c: Config, states: seq<State>, steps: seq<Step>, n: nat)
    requires IsRun(c, states, steps) && n <= |steps| && RenewalsKeep(states[..n + 1], steps[..n])
    requires states[n].grants != [] && !RenewalKeeps(states[n])
    ensures var s := states[n];
      && Inv(c, s) && Entitled(c, s.remembered) && s.live && !s.fenced && s.ready && s.held == NOTHING_HELD
      && s.remembered != NOTHING_HELD && s.grants[0].epoch == s.epoch && AllOld(s.stream, s.epoch)
      && (forall i :: 0 <= i < |s.stream| ==> !s.stream[i].Act?)
  {
    hide Enabled, Next, Entitled, End, AllWelcome;
    assert IsRun(c, states[..n + 1], steps[..n]);
    RunKeeps(c, states[..n + 1], steps[..n], n);
    RunEntitles(c, states, steps, n);
    assert states[..n + 1][n] == states[n];
  }

  const A_KEY: PhysicalKey := 4

  function Down(): (m: Mirror)
    ensures m.Shaped()
  {
    NothingIsShaped();
    NOTHING_HELD.(keys := NOTHING_HELD.keys[A_KEY := true])
  }

  /** A press; the host's lapse, release and recovery; the new ticket; a release. */
  function UnseenSteps(): (steps: seq<Step>)
    ensures |steps| == 10
  {
    [ViewerActs(KeyAction(A_KEY, Press), 0, NOTHING_HELD), HostTakesMessage(true, NOTHING_HELD),
     HostLapses, HostReleases(NOTHING_HELD), HostConfirms,
     ViewerReports(true), HostTakesReport(true), HostIssues, ViewerTakesTicket,
     ViewerActs(KeyAction(A_KEY, Release), 0, NOTHING_HELD)]
  }

  function Unseen(k: nat): (r: State)
    requires k <= 10
  {
    if k == 0 then Start()
    else
      var s := Unseen(k - 1);
      if k == 1 then s.(stream := [Act(0, Key(A_KEY, Press))], remembered := Down(), unused := 1)
      else if k == 2 then s.(stream := [], held := Down())
      else if k == 3 then s.(epoch := 1, ready := false)
      else if k == 4 then s.(held := NOTHING_HELD)
      else if k == 5 then s.(released := true)
      else if k == 6 then s.(reports := [true], readiness := Readiness(1, 0, Clear))
      else if k == 7 then s.(applied := 1, ready := true, released := false, presented := Some(1))
      else if k == 8 then s.(grants := [Grant(1, 1)])
      else if k == 9 then s.(grants := [], ticketEpoch := 1, readiness := Readiness(1, 1, Clear))
      else s.(stream := [Act(1, Key(A_KEY, Release))], remembered := NOTHING_HELD, unused := 2)
  }

  function UnseenRun(): (states: seq<State>)
    ensures |states| == 11 && forall k :: 0 <= k <= 10 ==> states[k] == Unseen(k)
  {
    seq(11, k requires 0 <= k <= 10 => Unseen(k))
  }

  ghost predicate Moves(c: Config, s: State, step: Step, t: State) {
    s.remembered.Shaped() && s.held.Shaped() && Enabled(c, s, step) && Next(c, s, step) == t
  }

  lemma PressMoves(c: Config)
    requires CapKeys in c.capabilities
    ensures Moves(c, Unseen(0), UnseenSteps()[0], Unseen(1)) && Moves(c, Unseen(1), UnseenSteps()[1], Unseen(2))
  {
    NothingIsShaped();
    assert !NOTHING_HELD.keys[A_KEY];
    var plan := Plan(Key(A_KEY, Press), Position(0, 0), c.backend);
    assert plan == [OpKey(A_KEY, Press)] && plan[..0] == [];
    assert ConfirmAll(NOTHING_HELD, plan[..0]) == NOTHING_HELD;
    assert ConfirmAll(NOTHING_HELD, plan) == Down();
  }

  lemma HostMoves(c: Config)
    ensures Moves(c, Unseen(2), UnseenSteps()[2], Unseen(3)) && Moves(c, Unseen(3), UnseenSteps()[3], Unseen(4))
    ensures Moves(c, Unseen(4), UnseenSteps()[4], Unseen(5))
  {
    NothingIsShaped();
    forall h | NOTHING_HELD.Holds(h) ensures Down().Holds(h) {}
  }

  lemma RecoveryMoves(c: Config)
    ensures Moves(c, Unseen(5), UnseenSteps()[5], Unseen(6)) && Moves(c, Unseen(6), UnseenSteps()[6], Unseen(7))
  {
    NothingIsShaped();
  }

  lemma RenewalMoves(c: Config)
    ensures Moves(c, Unseen(7), UnseenSteps()[7], Unseen(8)) && Moves(c, Unseen(8), UnseenSteps()[8], Unseen(9))
  {
    NothingIsShaped();
  }

  lemma ReleaseMoves(c: Config)
    requires CapKeys in c.capabilities
    ensures Moves(c, Unseen(9), UnseenSteps()[9], Unseen(10))
    ensures NOTHING_HELD.Shaped()
    ensures EventFault(HostFacts(c, NOTHING_HELD), Key(A_KEY, Release), c.backend) == Some(FaultInvalidTransition)
  {
    NothingIsShaped();
    assert !NOTHING_HELD.keys[A_KEY] && Down().keys[A_KEY];
    assert Down().keys[A_KEY := false] == NOTHING_HELD.keys;
  }

  /** The host's view of the viewer lapses and recovers while the viewer notices
      nothing and keeps a key down: the host has released the key, the viewer still
      remembers it, and its release of the key is refused as an invalid transition. */
  lemma UnseenLapse(c: Config)
    requires CapKeys in c.capabilities
    ensures var states := UnseenRun();
      && IsRun(c, states, UnseenSteps())
      && states[8].grants != [] && !RenewalKeeps(states[8])
      && !states[10].fenced && states[10].ready && states[10].stream == [Act(states[10].epoch, Key(A_KEY, Release))]
      && states[10].held.Shaped()
      && EventFault(HostFacts(c, states[10].held), Key(A_KEY, Release), c.backend) == Some(FaultInvalidTransition)
  {
    hide Next, Enabled, EventFault, Unseen, UnseenSteps, UnseenRun, Mirror.Shaped, RenewalKeeps, Start;
    UnseenStates();
    ReleaseMoves(c);
    var states := UnseenRun();
    forall i | 0 <= i < 10
      ensures states[i].remembered.Shaped() && states[i].held.Shaped()
      ensures Enabled(c, states[i], UnseenSteps()[i]) && states[i + 1] == Next(c, states[i], UnseenSteps()[i])
    {
      PressMoves(c);
      HostMoves(c);
      RecoveryMoves(c);
      RenewalMoves(c);
      assert Moves(c, states[i], UnseenSteps()[i], states[i + 1]);
    }
  }

  lemma UnseenStates()
    ensures Unseen(0) == Start()
    ensures Unseen(8).grants != [] && !RenewalKeeps(Unseen(8))
    ensures var s := Unseen(10); !s.fenced && s.ready && s.epoch == 1 && s.held == NOTHING_HELD
                                 && s.stream == [Act(1, Key(A_KEY, Release))]
  {
    assert Down().keys[A_KEY] && !NOTHING_HELD.keys[A_KEY];
    assert Unseen(8).remembered == Down();
  }
}
