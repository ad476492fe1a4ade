/** The two objects of a grant as the two parties of the protocol: every call of the
    viewer's client, and every message its host's owner takes, is a path of protocol
    steps. */
module Parties {
  import opened Common
  import opened Input
  import opened Submission
  import opened Client
  import opened Agreement
  import opened Evidence
  import opened HostSide
  import opened AuthorityProofs
  import Authority
  import InputRuns

  // ---------------------------------------------------------------------- the viewer

  function SideOf(s: State): (v: Side) { Side(s.live, s.remembered, s.readiness) }

  /** The client is the viewer of this state. */
  ghost predicate Plays(client: InputClient, c: Config, s: State)
    reads client`suspendedSince, client`readiness, client.keys, client.buttons
  {
    && client.capabilities == c.capabilities && client.bounds == c.bounds
    && s.remembered.Shaped() && s.held.Shaped() && client.Seen() == SideOf(s)
  }

  /** A lapse the viewer noticed on the way, or nothing. */
  ghost function Noticed(lapsed: bool, s: State): (t: State) {
    if lapsed then SuspendViewer(s, NeedLossReport) else s
  }

  ghost function Noticing(lapsed: bool): (steps: seq<Step>) {
    if lapsed then [ViewerLapses] else []
  }

  lemma NoticedPath(c: Config, s: State, lapsed: bool)
    requires s.remembered.Shaped() && s.held.Shaped()
    ensures var t := Noticed(lapsed, s);
      && Path(c, s, Noticing(lapsed), t) && t.remembered.Shaped() && t.held == s.held
      && SideOf(t) == if lapsed then Lapsed(SideOf(s)) else SideOf(s)
  {
    NothingIsShaped();
    if lapsed { PathOne(c, s, ViewerLapses); }
  }

  lemma NoticedThen(c: Config, s: State, lapsed: bool, step: Step)
    requires s.remembered.Shaped() && s.held.Shaped() && Noticed(lapsed, s).remembered.Shaped()
    requires Enabled(c, Noticed(lapsed, s), step)
    ensures Path(c, s, Noticing(lapsed) + [step], Next(c, Noticed(lapsed, s), step))
  {
    hide Next;
    PathOne(c, Noticed(lapsed, s), step);
    if lapsed {
      assert Next(c, s, ViewerLapses) == Noticed(true, s) by { NextLapses(c, s); }
      PathThen(c, s, ViewerLapses, [step], Next(c, Noticed(lapsed, s), step));
    } else {
      assert Noticing(lapsed) + [step] == [step];
    }
  }

  lemma NextLapses(c: Config, s: State)
    requires s.remembered.Shaped() && s.held.Shaped()
    ensures Enabled(c, s, ViewerLapses) && Next(c, s, ViewerLapses) == SuspendViewer(s, NeedLossReport)
  {}

  /** An action: one step that appends it to the stream, or at most a lapse. */
  method Acts(client: InputClient, action: Action, encodes: bool, now: u64, ghost c: Config, ghost s: State)
    returns (r: Result<(u64, Prepared), Error>, ghost steps: seq<Step>, ghost t: State)
    requires client.Valid() && Plays(client, c, s)
    modifies client, client.pending, client.keys, client.buttons, client.releasedKeys, client.releasedButtons
    ensures client.Valid() && Plays(client, c, t) && Path(c, s, steps, t)
    ensures if r.Ok? then |steps| == 1 && steps[0].ViewerActs? && steps[0].action == action
                          && t.stream == s.stream + [Act(s.ticketEpoch, r.value.1.event)]
            else steps in {[], [ViewerLapses]}
  {
    hide InputClient.Valid, EventFor, Sent, Mirror.Shaped;
    ghost var barrier;
    ghost var released := client.ReleasedByHost();
    ShapeOf(client);
    r, barrier := client.Act(action, encodes, now);
    if r.Ok? {
      ghost var step := ViewerActs(action, barrier, released);
      PathOne(c, s, step);
      steps, t := [step], Next(c, s, step);
    } else {
      ghost var lapsed := client.Seen() != SideOf(s);
      NoticedPath(c, s, lapsed);
      steps, t := Noticing(lapsed), Noticed(lapsed, s);
    }
  }

  lemma ShapeOf(client: InputClient)
    requires client.Valid()
    ensures client.Remembered().Shaped() && client.ReleasedByHost().Shaped()
    ensures client.suspendedSince.None? ==> client.readiness.resume == Clear
  {}

  /** A snapshot of what is held: one step, or at most a lapse. */
  method Snapshots(client: InputClient, observed: set<Held>, encodes: bool, now: u64, ghost c: Config, ghost s: State)
    returns (r: Result<Option<HeldSnapshot>, Error>, ghost steps: seq<Step>, ghost t: State)
    requires client.Valid() && Plays(client, c, s)
    modifies client, client.keys, client.buttons, client.releasedKeys, client.releasedButtons
    ensures client.Valid() && Plays(client, c, t) && Path(c, s, steps, t)
    ensures if r.Ok? && r.value.Some? then steps == [ViewerSnapshots(observed)]
      && t.stream == s.stream + [Snapshot(r.value.value.held)]
            else steps in {[], [ViewerLapses]}
  {
    hide InputClient.Valid, Mirror.Shaped, Shared, HeldSet;
    r := client.ReconcileHeld(observed, encodes, now);
    if r.Ok? && r.value.Some? {
      PathOne(c, s, ViewerSnapshots(observed));
      steps, t := [ViewerSnapshots(observed)], Next(c, s, ViewerSnapshots(observed));
    } else {
      ghost var lapsed := client.Seen() != SideOf(s);
      NoticedPath(c, s, lapsed);
      steps, t := Noticing(lapsed), Noticed(lapsed, s);
    }
  }

  /** A presentation report enters the transport. */
  method Reports(client: InputClient, sequence: u64, visible: bool, now: u64, ghost c: Config, ghost s: State)
    returns (r: Result<(), Error>, ghost steps: seq<Step>, ghost t: State)
    requires client.Valid() && Plays(client, c, s) && s.readiness.ceiling == |s.reports|
    modifies client, client.keys, client.buttons, client.releasedKeys, client.releasedButtons
    ensures client.Valid() && Plays(client, c, t) && Path(c, s, steps, t)
    ensures exists lapsed :: steps == Noticing(lapsed) + if r.Ok? then [ViewerReports(visible)] else []
    ensures t.reports == if r.Ok? then s.reports + [visible] else s.reports
  {
    hide InputClient.Valid, Mirror.Shaped;
    r := client.ReportAdmitted(sequence, visible, now);
    ghost var lapsed := if r.Ok? then client.Seen() != AfterReport(SideOf(s), sequence, visible)
      else client.Seen() != SideOf(s);
    NoticedPath(c, s, lapsed);
    steps, t := Noticing(lapsed), Noticed(lapsed, s);
    if r.Ok? {
      NothingIsShaped();
      NoticedThen(c, s, lapsed, ViewerReports(visible));
      steps, t := steps + [ViewerReports(visible)], Next(c, t, ViewerReports(visible));
    } else {
      assert steps == Noticing(lapsed) + [];
    }
  }

  /** Evidence of the view: a lapse, the end of a suspension, or nothing. */
  method Sees(client: InputClient, serial: u64, sameView: bool, receivedAt: u64, sourceAge: u64, now: u64,
              ghost c: Config, ghost s: State)
    returns (r: Result<(), Error>, ghost steps: seq<Step>, ghost t: State)
    requires client.Valid() && Plays(client, c, s)
    modifies client, client.keys, client.buttons, client.releasedKeys, client.releasedButtons
    ensures client.Valid() && Plays(client, c, t) && Path(c, s, steps, t)
      && steps in {[], [ViewerLapses], [ViewerResumes]}
  {
    hide InputClient.Valid, Mirror.Shaped;
    r := client.Presented(serial, sameView, receivedAt, sourceAge, now);
    if client.Seen() != SideOf(s) && client.Seen() != Lapsed(SideOf(s)) {
      PathOne(c, s, ViewerResumes);
      steps, t := [ViewerResumes], Next(c, s, ViewerResumes);
    } else {
      ghost var lapsed := client.Seen() != SideOf(s);
      NoticedPath(c, s, lapsed);
      steps, t := Noticing(lapsed), Noticed(lapsed, s);
    }
  }

  /** A pointer sample, a confirmed mapping or a receipt: at most a lapse. */
  method Moves(client: InputClient, position: DesktopPoint, encodes: bool, now: u64, ghost c: Config, ghost s: State)
    returns (r: Result<u64, Error>, ghost steps: seq<Step>, ghost t: State)
    requires client.Valid() && Plays(client, c, s)
    modifies client, client.keys, client.buttons, client.releasedKeys, client.releasedButtons
    ensures client.Valid() && Plays(client, c, t) && Path(c, s, steps, t) && steps in {[], [ViewerLapses]}
  {
    hide InputClient.Valid, Mirror.Shaped;
    r := client.MovePointer(position, encodes, now);
    ghost var lapsed := client.Seen() != SideOf(s);
    NoticedPath(c, s, lapsed);
    steps, t := Noticing(lapsed), Noticed(lapsed, s);
  }

  method Maps(client: InputClient, sameSession: bool, sameView: bool, now: u64, ghost c: Config, ghost s: State)
    returns (r: Result<(), Error>, ghost steps: seq<Step>, ghost t: State)
    requires client.Valid() && Plays(client, c, s)
    modifies client, client.keys, client.buttons, client.releasedKeys, client.releasedButtons
    ensures client.Valid() && Plays(client, c, t) && Path(c, s, steps, t) && steps in {[], [ViewerLapses]}
  {
    hide InputClient.Valid, Mirror.Shaped;
    r := client.ConfirmMapping(sameSession, sameView, now);
    ghost var lapsed := client.Seen() != SideOf(s);
    NoticedPath(c, s, lapsed);
    steps, t := Noticing(lapsed), Noticed(lapsed, s);
  }

  method Receives(client: InputClient, result: InputResult, now: u64, ghost c: Config, ghost s: State)
    returns (r: Result<ResultEvent, Error>, ghost steps: seq<Step>, ghost t: State)
    requires client.Valid() && Plays(client, c, s)
    modifies client, client.pending, client.receipts, client.keys, client.buttons, client.releasedKeys,
      client.releasedButtons
    ensures client.Valid() && Plays(client, c, t) && Path(c, s, steps, t) && steps in {[], [ViewerLapses]}
  {
    hide InputClient.Valid, Mirror.Shaped;
    r := client.Receive(result, now);
    ghost var lapsed := client.Seen() != SideOf(s);
    NoticedPath(c, s, lapsed);
    steps, t := Noticing(lapsed), Noticed(lapsed, s);
  }

  /** A ticket, the next in its lane: taken, with input resuming if nothing is owed any
      more, or dropped. */
  method TakesTicket(client: InputClient, record: TicketRecord, bound: bool, now: u64, ghost c: Config, ghost s: State)
    returns (r: Result<(), Error>, ghost steps: seq<Step>, ghost t: State)
    requires client.Valid() && Plays(client, c, s) && s.grants != [] && s.grants[0].presented == record.presented
    modifies client, client.keys, client.buttons, client.releasedKeys, client.releasedButtons
    ensures client.Valid() && Plays(client, c, t) && Path(c, s, steps, t) && t.grants == s.grants[1..]
    ensures exists lapsed, resumed :: steps == Ticketing(lapsed, r.Ok?, resumed)
    ensures t.ticketEpoch == if r.Ok? then s.grants[0].epoch else s.ticketEpoch
  {
    hide InputClient.Valid, Mirror.Shaped;
    r := client.AcceptTicket(record, bound, now);
    if r.Err? {
      ghost var lapsed := client.Seen() != SideOf(s);
      steps, t := Drops(c, s, lapsed);
    } else {
      ghost var lapsed := !Ticketed(SideOf(s), client.Seen(), record.presented);
      steps, t := Takes(c, s, lapsed, client.Seen());
    }
  }

  ghost function Ticketing(lapsed: bool, taken: bool, resumed: bool): (steps: seq<Step>) {
    Noticing(lapsed) + (if taken then [ViewerTakesTicket] else [ViewerDropsTicket]) + if resumed then [ViewerResumes]
      else []
  }

  lemma Drops(c: Config, s: State, lapsed: bool) returns (steps: seq<Step>, t: State)
    requires s.remembered.Shaped() && s.held.Shaped() && s.grants != []
    ensures Path(c, s, steps, t) && t.remembered.Shaped() && t.held.Shaped() && t.grants == s.grants[1..]
    ensures SideOf(t) == (if lapsed then Lapsed(SideOf(s)) else SideOf(s)) && t.ticketEpoch == s.ticketEpoch
    ensures steps == Ticketing(lapsed, false, false)
  {
    NoticedPath(c, s, lapsed);
    NoticedThen(c, s, lapsed, ViewerDropsTicket);
    steps, t := Noticing(lapsed) + [ViewerDropsTicket], Next(c, Noticed(lapsed, s), ViewerDropsTicket);
  }

  lemma Takes(c: Config, s: State, lapsed: bool, v: Side) returns (steps: seq<Step>, t: State)
    requires s.remembered.Shaped() && s.held.Shaped() && s.grants != [] && s.grants[0].presented <= U64_MAX
    requires Ticketed(if lapsed then Lapsed(SideOf(s)) else SideOf(s), v, s.grants[0].presented)
    ensures Path(c, s, steps, t) && t.remembered.Shaped() && t.held.Shaped() && t.grants == s.grants[1..]
    ensures SideOf(t) == v && t.ticketEpoch == s.grants[0].epoch
    ensures exists resumed :: steps == Ticketing(lapsed, true, resumed)
  {
    hide Acknowledge;
    NoticedPath(c, s, lapsed);
    var u := Next(c, Noticed(lapsed, s), ViewerTakesTicket);
    var resumed := v != SideOf(u);
    steps, t := Noticing(lapsed) + [ViewerTakesTicket], u;
    if resumed {
      PathOne(c, u, ViewerResumes);
      t := Next(c, u, ViewerResumes);
      PathThen(c, Noticed(lapsed, s), ViewerTakesTicket, [ViewerResumes], t);
      steps := steps + [ViewerResumes];
      assert steps == Ticketing(lapsed, true, true);
      if lapsed {
        NextLapses(c, s);
        PathThen(c, s, ViewerLapses, [ViewerTakesTicket] + [ViewerResumes], t);
        assert steps == [ViewerLapses] + ([ViewerTakesTicket] + [ViewerResumes]);
      } else {
        assert steps == [ViewerTakesTicket] + [ViewerResumes];
      }
    } else {
      NoticedThen(c, s, lapsed, ViewerTakesTicket);
      assert steps == Ticketing(lapsed, true, false);
    }
  }

  /** The message the record of the caller's one slot is, the newest of the stream. */
  predicate Newest(record: Unsent, stream: seq<Message>) {
    && (record.UnsentAction? ==> stream != [] && stream[|stream| - 1].Act?)
    && (record.UnsentHeld? ==> stream != [] && stream[|stream| - 1].Snapshot?)
  }

  /** A suspended viewer takes its newest record back before the transport took it. */
  method Abandons(client: InputClient, record: Unsent, ghost c: Config, ghost s: State)
    returns (r: Result<(), Error>, ghost steps: seq<Step>, ghost t: State)
    requires client.Valid() && Plays(client, c, s) && Newest(record, s.stream)
    modifies client, client.pending
    ensures Plays(client, c, t) && Path(c, s, steps, t)
    ensures steps == if r.Ok? && !record.UnsentPointer? then [ViewerAbandons] else []
  {
    hide InputClient.Valid, Mirror.Shaped;
    r := client.AbandonUnsent(record);
    steps, t := [], s;
    if r.Ok? && !record.UnsentPointer? {
      PathOne(c, s, ViewerAbandons);
      steps, t := [ViewerAbandons], Next(c, s, ViewerAbandons);
    }
  }

  // ------------------------------------------------------------------------ the host

  /** The owner is the host of this state. */
  ghost predicate Hosts(owner: InputSession, c: Config, s: State)
    reads owner`wheel, owner`mode, owner`modeEpoch, owner`cumulative, owner`revoked, owner.ledger`fenced, owner.keys,
      owner.buttons
  {
    && s.remembered.Shaped() && s.held.Shaped() && owner.Mirrored() == s.held && (s.fenced <==> !owner.Active())
    && (!s.fenced ==> owner.Facts() == HostFacts(c, s.held))
  }

  /** The step that takes a message, and revocation by somebody else meanwhile. */
  ghost function Taking(done: bool, stopped: bool, after: Mirror): (steps: seq<Step>) {
    [HostTakesMessage(done, after)] + if done && stopped then [HostStops(after)] else []
  }

  /** The state behind these steps. */
  function Taken(s: State, stopped: bool, after: Mirror): (t: State)
    requires s.stream != []
  {
    s.(stream := s.stream[1..], held := after, fenced := stopped)
  }

  lemma TakingPath(c: Config, s: State, done: bool, stopped: bool, after: Mirror)
    requires s.remembered.Shaped() && s.held.Shaped() && s.stream != [] && after.Shaped()
    requires s.fenced ==> after == s.held && !done
    requires done ==> Handle(c, s.held, s.ready, s.epoch, s.stream[0]) == Some(after)
    requires !done ==> stopped
    ensures Path(c, s, Taking(done, stopped, after), Taken(s, stopped, after))
  {
    hide Handle;
    var step := HostTakesMessage(done, after);
    PathOne(c, s, step);
    var t := Next(c, s, step);
    if done && stopped {
      PathOne(c, t, HostStops(after));
      PathThen(c, s, step, [HostStops(after)], Next(c, t, HostStops(after)));
    } else {
      assert Taking(done, stopped, after) == [step];
    }
  }

  /** A message is taken, in every state that differs from `s` only by what the authority's
      calls up to `p` did to the host's evidence. */
  ghost predicate TakenBy(owner: InputSession, c: Config, s: State, p: seq<Authority.Call>, done: bool, base: nat)
    requires s.stream != []
    reads owner`wheel, owner`mode, owner`modeEpoch, owner`cumulative, owner`revoked, owner.ledger`fenced, owner.keys,
      owner.buttons
  {
    forall u: State :: Elsewhere(s, u) && ShowsAfter(owner.authority.policy, p, |p|, base, u) ==>
      && Path(c, u, Taking(done, !owner.Active(), owner.Mirrored()), Taken(u, !owner.Active(), owner.Mirrored()))
      && Hosts(owner, c, Taken(u, !owner.Active(), owner.Mirrored()))
  }

  /** Every ticket of this number was issued in this epoch. */
  predicate IssuedIn(policy: Authority.Policy, p: seq<Authority.Call>, ticket: u64, epoch: nat) {
    forall i :: 0 <= i < |p| && p[i].CIssueTicket? && p[i].ticket == ticket ==> Epoch(policy, p, i) == epoch
  }

  predicate IsAction(e: Event) { e.Key? || e.Button? || e.Scroll? || e.Text? }

  /** The next message of the stream, an action, is dispatched: the step of the protocol
      that takes it, at the moment of its last final check, with success exactly if the
      request completed. */
  method Serves(owner: InputSession, request: Request, start: Sample, tape: Tape, backend: Backend, others: seq<Other>,
                ghost c: Config, ghost s: State, ghost base: nat)
    returns (r: Dispatched, ghost done: bool, ghost p: seq<Authority.Call>)
    requires owner.Valid() && Hosts(owner, c, s) && owner.Settled(request).None? && backend == c.backend
    requires ForeignSample(owner.owner, start) && ForeignTape(owner.owner, tape) && Foreign(owner.owner, others)
    requires s.stream != [] && s.stream[0].Act? && s.stream[0].event == request.event && IsAction(request.event)
    modifies owner, owner.authority, owner.keys, owner.buttons, owner.ledger, owner.ledger.receipts, owner.receipts
    ensures owner.Valid() && |owner.answered| == |old(owner.answered)| + 1 && old(owner.calls) <= p <= owner.calls
    ensures done <==> Ledger.Succeeded(owner.answered[|old(owner.answered)|].outcome)
    ensures IssuedIn(owner.authority.policy, p, request.credentials.ticket, base + s.stream[0].epoch) ==>
      TakenBy(owner, c, s, p, done, base)
  {
    hide InputSession.Valid, InputSession.Settled, Plan, EventFault, InputSession.Usable, CalmTape, ForeignTape, Smooth,
      ReceiptOf, Explained, Mirror.Shaped, ConfirmAll, InputSession.MarkOf, IssuedIn, TakenBy, InputSession.Stamped,
      InputSession.Followed, InputSession.Safe;
    ghost var o;
    ghost var plan := Plan(request.event, Position(0, 0), backend);
    ShapeOfOwner(owner);
    ActiveOwner(owner, request);
    PlanOfAction(request.event, owner.cumulative, Position(0, 0), backend);
    ghost var was := owner.calls;
    r, o := owner.Dispatch(request, start, tape, backend, others);
    ShapeOfOwner(owner);
    done := o.flow.Done?;
    OnlyDoneSucceeds(request.sequence, o.flow, |o.confirmed|, o.uncertain);
    FollowedToEnd(owner, plan, s.held, old(owner.log), o);
    p := Checkpoint(owner, plan, s.held, old(owner.log), was, request.credentials.ticket, o);
    if done { ActionHasPlan(HostFacts(c, s.held), request.event, backend); }
    if IssuedIn(owner.authority.policy, p, request.credentials.ticket, base + s.stream[0].epoch) {
      ServedTaken(owner, c, s, p, request.credentials.ticket, done, base);
    }
  }

  /** The run of calls up to the last final check of a request that completed. */
  lemma Checkpoint(owner: InputSession, plan: seq<Operation>, m: Mirror, before: seq<Native>, was: seq<Authority.Call>,
                   ticket: u64, o: Outcome)
    returns (p: seq<Authority.Call>)
    requires owner.Safe() && m.Shaped() && Truthful(o, plan) && owner.Stamped(before, was, ticket)
    requires owner.Followed(plan, m, before, o.confirmed, o.uncertain)
    ensures was <= p <= owner.calls
    ensures o.flow.Done? && plan != [] ==>
      |owner.log| > 0 && owner.log[|owner.log| - 1] == Checked(owner.log[|owner.log| - 1].op, p,
        owner.log[|owner.log| - 1].at, ticket, owner.log[|owner.log| - 1].revoked)
  {
    hide ConfirmAll, InputSession.Authorized, Covers, ConfirmedFor, Authority.ApplyAll;
    p := was;
    if o.flow.Done? && plan != [] { p := owner.log[|owner.log| - 1].calls; }
  }

  lemma ActionHasPlan(v: HostView, e: Event, backend: Backend)
    requires v.held.Shaped() && IsAction(e) && EventFault(v, e, backend).None?
    ensures Plan(e, Position(0, 0), backend) != []
  {}

  lemma ServedTaken(owner: InputSession, c: Config, s: State, p: seq<Authority.Call>, ticket: u64, done: bool,
                    base: nat)
    requires owner.Safe() && owner.Mirrored().Shaped() && s.remembered.Shaped() && s.held.Shaped()
    requires s.stream != [] && s.stream[0].Act?
    requires done ==>
      && |owner.log| > 0 && owner.log[|owner.log| - 1].Checked? && owner.log[|owner.log| - 1].calls == p
      && owner.log[|owner.log| - 1].ticket == ticket && !s.fenced
      && EventFault(HostFacts(c, s.held), s.stream[0].event, c.backend).None?
      && owner.Mirrored() == ConfirmAll(s.held, Plan(s.stream[0].event, Position(0, 0), c.backend))
    requires IssuedIn(owner.authority.policy, p, ticket, base + s.stream[0].epoch)
    requires !done ==> !owner.Active()
    requires s.fenced ==> owner.Mirrored() == s.held
    requires owner.Active() ==> owner.Facts() == HostFacts(c, owner.Mirrored())
    ensures TakenBy(owner, c, s, p, done, base)
  {
    hide InputSession.Safe, Plan, EventFault, Path, Mirror.Shaped, ConfirmAll, IssuedIn, ShowsAfter;
    forall u: State | Elsewhere(s, u) && ShowsAfter(owner.authority.policy, p, |p|, base, u)
      ensures Path(c, u, Taking(done, !owner.Active(), owner.Mirrored()), Taken(u, !owner.Active(), owner.Mirrored()))
      ensures Hosts(owner, c, Taken(u, !owner.Active(), owner.Mirrored()))
    {
      if done { TicketIsCurrent(owner, |owner.log| - 1, base, s.stream[0].epoch, u); }
      TakingPath(c, u, done, !owner.Active(), owner.Mirrored());
    }
  }

  /** At a final check that passed, the host is ready and in the epoch its ticket was
      issued in. */
  lemma TicketIsCurrent(owner: InputSession, k: nat, base: nat, epoch: nat, u: State)
    requires owner.Safe() && k < |owner.log| && owner.log[k].Checked?
    requires var e := owner.log[k];
      && IssuedIn(owner.authority.policy, e.calls, e.ticket, base + epoch)
      && ShowsAfter(owner.authority.policy, e.calls, |e.calls|, base, u)
    ensures u.ready && u.epoch == epoch
  {
    hide InputSession.Safe, Authority.Apply, Loses;
    var i := InputRuns.EffectsAreOfTheirEpoch(owner, k);
  }

  /** The next message is a snapshot, made after exactly the actions taken so far: taken at
      the moment of the first check. */
  method Reconciles(owner: InputSession, request: HeldRequest, start: Sample, tape: ReconcileTape, ghost c: Config,
                    ghost s: State, ghost base: nat)
    returns (r: ReconcileReply, ghost done: bool, ghost p: seq<Authority.Call>)
    requires owner.Valid() && Hosts(owner, c, s) && s.stream != [] && s.stream[0] == Snapshot(request.held)
    requires request.session == owner.session && request.lease == owner.lease && request.nextAction == |owner.answered|
    requires owner.reconciliationFloor.Some? ==> request.sequence > owner.reconciliationFloor.value
    requires owner.ledger.nextSequence.Some? && ForeignSample(owner.owner, start) && ForeignReconcile(owner.owner, tape)
    modifies owner, owner.authority, owner.keys, owner.buttons, owner.ledger
    ensures owner.Valid() && old(owner.calls) <= p <= owner.calls
    ensures done <==> r.Reported? && r.report.outcome == Applied
    ensures TakenBy(owner, c, s, p, done, base)
  {
    hide InputSession.Valid, ForeignReconcile, ForeignSample, Path, Mirror.Shaped, Shared, MissingReleases,
      InputSession.Reports, Authority.After, Epoch;
    ShapeOfOwner(owner);
    r, p := owner.ReconcileHeld(request, start, tape);
    ShapeOfOwner(owner);
    done := r.Reported? && r.report.outcome == Applied;
    forall u: State | Elsewhere(s, u) && ShowsAfter(owner.authority.policy, p, |p|, base, u)
      ensures Path(c, u, Taking(done, !owner.Active(), owner.Mirrored()), Taken(u, !owner.Active(), owner.Mirrored()))
      ensures Hosts(owner, c, Taken(u, !owner.Active(), owner.Mirrored()))
    {
      TakingPath(c, u, done, !owner.Active(), owner.Mirrored());
    }
  }

  lemma ShowsPrefix(policy: Authority.Policy, calls: seq<Authority.Call>, p: seq<Authority.Call>, base: nat, u: State)
    requires p <= calls
    ensures ShowsAfter(policy, calls, |p|, base, u) <==> ShowsAfter(policy, p, |p|, base, u)
  {
    hide Authority.After, Epoch, Shows;
    AfterPrefix(Authority.New(policy), p, calls[|p|..], |p|);
    EpochPrefix(policy, p, calls[|p|..], |p|);
    assert calls == p + calls[|p|..];
  }

  /** A whole call of the host that takes a message: the calls made on the authority before
      its decisive check, the message, and the calls made after it are one path, at whose
      end the protocol again shows the owner and its authority. */
  lemma WholeCall(owner: InputSession, c: Config, s: State, was: nat, p: seq<Authority.Call>, labels: seq<bool>,
                  done: bool,
                  base: nat)
    returns (steps: seq<Step>, v: State)
    requires was <= |p| && p <= owner.calls && |labels| == |owner.calls| && s.stream != []
    requires s.remembered.Shaped() && s.held.Shaped() && owner.Mirrored().Shaped()
    requires ShowsAfter(owner.authority.policy, owner.calls, was, base, s)
    requires AllAllowed(owner.authority.policy, owner.calls, labels, was, |p|, s)
    requires AllAllowed(owner.authority.policy, owner.calls, labels, |p|, |owner.calls|,
      Taken(s, !owner.Active(), owner.Mirrored()).(applied := s.applied + Counted(labels, was, |p|)))
    requires TakenBy(owner, c, s, p, done, base)
    ensures Path(c, s, steps, v) && Hosts(owner, c, v) && v.stream == s.stream[1..]
    ensures ShowsAfter(owner.authority.policy, owner.calls, |owner.calls|, base, v)
  {
    hide Path, Shows, Allowed, Authority.After, Epoch, Mirror.Shaped, Counted, PathOf;
    var policy, calls := owner.authority.policy, owner.calls;
    var u := CallsArePath(c, policy, calls, labels, was, |p|, base, s);
    ShowsPrefix(policy, calls, p, base, u);
    var t := Taken(u, !owner.Active(), owner.Mirrored());
    TakenShows(policy, calls, |p|, base, u, !owner.Active(), owner.Mirrored());
    v := CallsArePath(c, policy, calls, labels, |p|, |calls|, base, t);
    var first, message := PathOf(policy, calls, labels, was, |p|), Taking(done, !owner.Active(), owner.Mirrored());
    PathJoin(c, s, first, u, message, t);
    PathJoin(c, s, first + message, t, PathOf(policy, calls, labels, |p|, |calls|), v);
    steps := first + message + PathOf(policy, calls, labels, |p|, |calls|);
  }

  lemma TakenShows(policy: Authority.Policy, calls: seq<Authority.Call>, n: nat, base: nat, u: State, stopped: bool,
                   after: Mirror)
    requires n <= |calls| && u.stream != [] && ShowsAfter(policy, calls, n, base, u)
    ensures ShowsAfter(policy, calls, n, base, Taken(u, stopped, after))
  {
    hide Authority.After, Epoch;
  }

  /** What a service call of the host is: the end of the grant, a release of held input, or
      nothing. */
  ghost function Maintaining(stopped: bool, changed: bool, after: Mirror): (steps: seq<Step>) {
    if stopped then [HostStops(after)] else if changed then [HostReleases(after)] else []
  }

  /** Periodic service. Its confirmation of a release is one of the authority's calls. */
  method Maintains(owner: InputSession, now: u64, between: seq<Other>, sweep: Sweep, later: seq<Other>, ghost c: Config,
                   ghost s: State, ghost base: nat)
    returns (r: Cleaned, ghost p: seq<Authority.Call>)
    requires owner.Valid() && Hosts(owner, c, s)
    requires Foreign(owner.owner, between) && ForeignSweep(owner.owner, sweep) && Foreign(owner.owner, later)
    modifies owner, owner.authority, owner.keys, owner.buttons, owner.ledger
    ensures owner.Valid() && old(owner.calls) <= p <= owner.calls
    ensures MaintainedAs(owner, c, s, p, base)
  {
    hide InputSession.Valid, ForeignSweep, Path, Mirror.Shaped, Unreleased, CountHeld, Authority.After, ShowsAfter,
      InputSession.Safe, MaintainedAs, InputSession.Rings;
    ghost var status;
    ShapeOfOwner(owner);
    r, status, p := owner.Maintain(now, between, sweep, later);
    ShapeOfOwner(owner);
    Maintained(owner, c, s, p, base);
  }

  ghost predicate MaintainedAs(owner: InputSession, c: Config, s: State, p: seq<Authority.Call>, base: nat)
    reads owner`wheel, owner`mode, owner`modeEpoch, owner`cumulative, owner`revoked, owner.ledger`fenced, owner.keys,
      owner.buttons
  {
    forall u: State :: Elsewhere(s, u) && ShowsAfter(owner.authority.policy, p, |p|, base, u) ==>
      var t := u.(held := owner.Mirrored(), fenced := !owner.Active());
      Path(c, u, Maintaining(!owner.Active(), owner.Mirrored() != s.held, owner.Mirrored()), t) && Hosts(owner, c, t)
  }

  lemma Maintained(owner: InputSession, c: Config, s: State, p: seq<Authority.Call>, base: nat)
    requires owner.Mirrored().Shaped() && s.remembered.Shaped() && s.held.Shaped() && (s.fenced ==> !owner.Active())
    requires owner.Active() && owner.Mirrored() != s.held ==>
      && Authority.ApplyAll(Authority.New(owner.authority.policy), p).readiness != Authority.Ready
      && forall h :: owner.Mirrored().Holds(h) ==> s.held.Holds(h)
    requires owner.Active() ==> owner.Facts() == HostFacts(c, owner.Mirrored())
    ensures MaintainedAs(owner, c, s, p, base)
  {
    hide Path, Mirror.Shaped, Authority.After, Epoch, Mirror.Holds;
    forall u: State | Elsewhere(s, u) && ShowsAfter(owner.authority.policy, p, |p|, base, u)
      ensures var t := u.(held := owner.Mirrored(), fenced := !owner.Active());
        Path(c, u, Maintaining(!owner.Active(), owner.Mirrored() != s.held, owner.Mirrored()), t) && Hosts(owner, c, t)
    {
      MaintainingPath(c, u, !owner.Active(), owner.Mirrored());
    }
  }

  lemma MaintainingPath(c: Config, u: State, stopped: bool, after: Mirror)
    requires u.remembered.Shaped() && u.held.Shaped() && after.Shaped() && (u.fenced ==> stopped)
    requires !stopped && after != u.held ==> !u.ready && forall h :: after.Holds(h) ==> u.held.Holds(h)
    ensures Path(c, u, Maintaining(stopped, after != u.held, after), u.(held := after, fenced := stopped))
  {
    if stopped {
      PathOne(c, u, HostStops(after));
    } else if after != u.held {
      PathOne(c, u, HostReleases(after));
    }
  }

  lemma ShapeOfOwner(owner: InputSession)
    requires owner.Valid()
    ensures owner.Shape() && owner.Mirrored().Shaped() && owner.Rings() && owner.Safe()
  {
    owner.HasShape();
  }

  lemma PlanOfAction(e: Event, p: Position, q: Position, backend: Backend)
    requires IsAction(e)
    ensures Plan(e, p, backend) == Plan(e, q, backend)
  {}

  /** A request that is executed finds a ledger that is not fenced. */
  lemma ActiveOwner(owner: InputSession, request: Request)
    requires owner.Valid() && owner.Settled(request).None? && !request.event.Pointer?
    ensures !owner.ledger.fenced && owner.moved == owner.cumulative
  {
    hide InputSession.Safe, InputSession.Marked;
  }

  /** What the owner holds in the end, if everything or nothing was executed. */
  lemma FollowedToEnd(owner: InputSession, plan: seq<Operation>, m: Mirror, before: seq<Native>, o: Outcome)
    requires m.Shaped() && Truthful(o, plan) && owner.Followed(plan, m, before, o.confirmed, o.uncertain)
    ensures o.flow.Done? ==> owner.Mirrored() == ConfirmAll(m, plan)
    ensures owner.log == before ==> owner.Mirrored() == m
  {}
}
