/** Whole lives of one input owner: opened on a shared authority, then driven by
    any sequence of requests, service calls and acts of other threads. */
module InputRuns {
  import opened Common
  import opened Input
  import opened Authority
  import opened AuthorityProofs
  import opened AuthorityOwner
  import opened Evidence
  import opened Ledger
  import opened Submission

  /** Attach a native owner to an approved authority. The ticket must be usable
      now, and the lease must not have an owner yet; the new owner's identity has
      never been used before. */
  method Open(authority: SessionAuthority, session: u64, credentials: Credentials, bounds: InputBounds,
              capabilities: Capabilities, now: u64, ghost calls: seq<Call>)
    returns (r: Result<InputSession, Refusal>, ghost later: seq<Call>)
    requires authority.State() == ApplyAll(New(authority.policy), calls)
    modifies authority
    ensures calls <= later && authority.State() == ApplyAll(New(authority.policy), later)
    ensures credentials.session != session ==> r == Err(RefStaleSession) && later == calls
    ensures r.Ok? ==>
      && fresh(r.value) && r.value.Valid() && r.value.authority == authority && r.value.calls == later
      && r.value.Mirrored() == NOTHING_HELD && r.value.down == {} && r.value.log == [] && r.value.answered == []
      && r.value.owner == old(authority.owners) && r.value.Installed()
      && old(authority.nativeOwner).None? && !r.value.revoked
    ensures r.Ok? ==>
      && r.value.session == session && r.value.lease == credentials.lease && r.value.capabilities == capabilities
      && fresh(r.value.keys) && fresh(r.value.buttons) && fresh(r.value.receipts) && fresh(r.value.ledger)
      && fresh(r.value.ledger.receipts)
      && (old(authority.recovery).None? || old(authority.recovery).value <= credentials.view.recovery ==>
           r.value.Usable(credentials, now))
    ensures r.Ok? <==>
      && credentials.session == session && old(authority.nativeOwner).None?
      && var s := old(authority.State());
         SubmissionDeadline(s, credentials.lease, credentials.ticket, SerializedTime(s, now)).1.Ok?
  {
    hide Apply, Inv, ApplyAll, SubmissionDeadline, InputSession.Rings, InputSession.Safe, SerializedTime;
    later := calls;
    if credentials.session != session { return Err(RefStaleSession), later; }
    var at := SerializedTime(authority.State(), now);
    ReachableInv(authority.policy, calls);
    ghost var s := authority.State();
    var accepted := authority.SubmissionDeadline(credentials.lease, credentials.ticket, at);
    CheckIsCall(s, credentials.lease, credentials.ticket, at);
    ApplyAllAppend(New(authority.policy), later, CSubmissionDeadline(credentials.lease, credentials.ticket, at));
    later := later + [CSubmissionDeadline(credentials.lease, credentials.ticket, at)];
    if accepted.Err? { return Err(RefAuthority(accepted.error)), later; }
    ghost var t := authority.State();
    SubmissionRepeats(s, credentials.lease, credentials.ticket, now);
    AcceptedLease(s, credentials.lease, credentials.ticket, at);
    ClaimChangesNothing(t, credentials.lease, credentials.ticket, now);
    var claimed := authority.ClaimNativeOwner(credentials.lease);
    ClaimIsCall(t, credentials.lease);
    ApplyAllAppend(New(authority.policy), later, CClaimNativeOwner(credentials.lease));
    later := later + [CClaimNativeOwner(credentials.lease)];
    if claimed.Err? { return Err(RefAuthority(claimed.error)), later; }
    var owner := new InputSession(authority, claimed.value, credentials, bounds, capabilities, now, later);
    r := Ok(owner);
  }

  lemma CheckIsCall(s: Auth, lease: u64, ticket: u64, now: u64)
    requires Inv(s)
    ensures SubmissionDeadline(s, lease, ticket, now).0 == Apply(s, CSubmissionDeadline(lease, ticket, now))
    ensures var (t, r) := SubmissionDeadline(s, lease, ticket, now);
      t.owners == s.owners && t.policy == s.policy && (r.Ok? ==> !t.suspension.Some? && t.nativeOwner == s.nativeOwner)
  {
    hide Inv, CheckTime;
    CheckTimeKeeps(s, now);
    if SubmissionDeadline(s, lease, ticket, now).1.Ok? { AcceptedIsReady(s, lease, ticket, now); }
    TimeKeepsOwners(s, now);
  }

  lemma AcceptedLease(s: Auth, lease: u64, ticket: u64, now: u64)
    ensures var (t, r) := SubmissionDeadline(s, lease, ticket, now); r.Ok? ==> LeaseId(t) == Some(lease)
  {}

  /** Claiming ownership does not change what a check says. */
  lemma ClaimChangesNothing(s: Auth, lease: u64, ticket: u64, now: u64)
    ensures var t := ClaimNativeOwner(s, lease).0;
      && t.recovery == s.recovery && SerializedTime(t, now) == SerializedTime(s, now)
      && (SubmissionDeadline(s, lease, ticket, SerializedTime(s, now)).1.Ok? ==>
           SubmissionDeadline(t, lease, ticket, SerializedTime(t, now)).1.Ok?)
  {}

  lemma TimeKeepsOwners(s: Auth, now: u64)
    ensures CheckTime(s, now).0.owners == s.owners && CheckTime(s, now).0.policy == s.policy
    ensures CheckTime(s, now).1 ==> CheckTime(s, now).0.nativeOwner == s.nativeOwner
  {}

  lemma ClaimIsCall(s: Auth, lease: u64)
    ensures ClaimNativeOwner(s, lease).0 == Apply(s, CClaimNativeOwner(lease))
    ensures var (t, r) := ClaimNativeOwner(s, lease);
      r.Ok? ==> s.nativeOwner.None? && r.value == s.owners && t.owners == s.owners + 1 && t.suspension == s.suspension
                && t.nativeOwner == Some(s.owners) && LeaseId(t) == Some(lease)
    ensures ClaimNativeOwner(s, lease).1.Ok? <==> LeaseId(s) == Some(lease) && s.nativeOwner.None?
  {}

  // ------------------------------------------------------------------- one life

  datatype Command =
    | Serve(request: Request, start: Sample, tape: Tape, backend: Backend, others: seq<Other>)
    | Service(now: u64, between: seq<Other>, sweep: Sweep, later: seq<Other>)
    | Reconcile(snapshot: HeldRequest, start: Sample, releases: ReconcileTape)
    | CleanAway(sweep: Sweep)
    | Stop
    | Elsewhere(others: seq<Other>)

  ghost predicate ForeignCommand(owner: nat, c: Command) {
    match c
    case Serve(_, start, tape, _, others) =>
      ForeignSample(owner, start) && ForeignTape(owner, tape) && Foreign(owner, others)
    case Service(_, between, sweep, later) =>
      Foreign(owner, between) && ForeignSweep(owner, sweep) && Foreign(owner, later)
    case Reconcile(_, start, releases) => ForeignSample(owner, start) && ForeignReconcile(owner, releases)
    case CleanAway(sweep) => ForeignSweep(owner, sweep)
    case Stop => true
    case Elsewhere(others) => Foreign(owner, others)
  }

  /** What a run may do to the permanent record: only extend it, and once revoked
      only with releases. */
  ghost predicate Grows(before: seq<Native>, answers: seq<Receipt>, wasRevoked: bool, s: InputSession)
    reads s`log, s`answered, s`revoked
  {
    && before <= s.log && answers <= s.answered
    && (wasRevoked ==> s.revoked && forall i :: |before| <= i < |s.log| ==> IsRelease(s.log[i].op))
  }

  method Step(s: InputSession, c: Command)
    requires s.Valid() && ForeignCommand(s.owner, c)
    modifies s, s.authority, s.keys, s.buttons, s.ledger, s.ledger.receipts, s.receipts
    ensures s.Valid() && Grows(old(s.log), old(s.answered), old(s.revoked), s)
  {
    hide InputSession.Rings, InputSession.Safe, InputSession.Marked, ForeignSample, ForeignTape, ForeignSweep,
      ForeignReconcile, Foreign, Plan, EventFault, PointerAfter, ReceiptOf, InputSession.Settled, Unreleased,
      MissingReleases, Shared, Mirror.Holds, CountHeld, InputSession.MarkOf;
    match c {
      case Serve(request, start, tape, backend, others) =>
        ghost var o;
        var reply;
        reply, o := s.Dispatch(request, start, tape, backend, others);
      case Service(now, between, sweep, later) =>
        ghost var status, p;
        var cleaned;
        cleaned, status, p := s.Maintain(now, between, sweep, later);
      case Reconcile(snapshot, start, releases) =>
        ghost var p;
        var report;
        report, p := s.ReconcileHeld(snapshot, start, releases);
      case CleanAway(sweep) => var _ := s.CleanUp(sweep);
      case Stop => s.Revoke();
      case Elsewhere(others) => s.Interfere(others);
    }
  }

  /** Whatever is asked of an owner, in whatever order, and whatever the system and
      the other threads do: it stays consistent, its record only grows, and after
      revocation only releases reach the system. */
  method Live(s: InputSession, commands: seq<Command>)
    requires s.Valid() && forall i :: 0 <= i < |commands| ==> ForeignCommand(s.owner, commands[i])
    modifies s, s.authority, s.keys, s.buttons, s.ledger, s.ledger.receipts, s.receipts
    ensures s.Valid() && Grows(old(s.log), old(s.answered), old(s.revoked), s) && NothingForgotten(s)
  {
    hide ForeignCommand, InputSession.Safe, InputSession.Rings, InputSession.Marked, NothingForgotten;
    for i := 0 to |commands|
      invariant s.Valid() && Grows(old(s.log), old(s.answered), old(s.revoked), s)
    {
      Step(s, commands[i]);
    }
    SafeForgetsNothing(s);
  }

  // --------------------------------------------------------- what the record says

  /** Every press, motion and character that reached the system, ever, was finally
      checked inside the one run of authority calls: a ticket issued for this lease
      less than a ticket lifetime before, no fence since, and the view ready in
      every state since; this very owner was installed then, and not revoked. It was of a
      granted kind, and every motion led inside the granted bounds. */
  lemma EveryEffectWasAuthorized(s: InputSession, k: nat) returns (i: nat)
    requires s.Safe() && k < |s.log| && (s.log[k].Checked? || !IsRelease(s.log[k].op))
    ensures var e := s.log[k];
      && e.Checked? && s.Permits(e.op) && e.calls <= s.calls && !e.revoked && i < |e.calls|
      && After(New(s.authority.policy), e.calls, |e.calls|).nativeOwner == Some(s.owner)
      && e.calls[i].CIssueTicket? && e.calls[i].ticket == e.ticket && e.calls[i].lease == s.lease
      && e.at < e.calls[i].now + s.authority.policy.ticketLifetime
      && (forall m :: i < m < |e.calls| ==> !Fences(After(New(s.authority.policy), e.calls, m), e.calls[m]))
      && (forall m :: i < m <= |e.calls| ==> After(New(s.authority.policy), e.calls, m).readiness == Ready)
  {
    hide Apply, Inv, SubmissionDeadline, Covers, ConfirmedFor, Fences;
    var e := s.log[k];
    assert s.Authorized(e);
    i := SubmissionHasProvenance(s.authority.policy, e.calls, s.lease, e.ticket, e.at);
  }

  /** What reached the system did so in the epoch its ticket was issued in. */
  lemma EffectsAreOfTheirEpoch(s: InputSession, k: nat) returns (i: nat)
    requires s.Safe() && k < |s.log| && (s.log[k].Checked? || !IsRelease(s.log[k].op))
    ensures var e := s.log[k];
      && e.Checked? && i < |e.calls| && e.calls[i].CIssueTicket? && e.calls[i].ticket == e.ticket
      && Epoch(s.authority.policy, e.calls, i) == Epoch(s.authority.policy, e.calls, |e.calls|)
      && After(New(s.authority.policy), e.calls, |e.calls|).readiness == Ready
  {
    hide InputSession.Safe, Fences, Apply;
    i := EveryEffectWasAuthorized(s, k);
    EpochStays(s.authority.policy, s.log[k].calls, i, |s.log[k].calls|);
  }

  /** Whenever a suspension of this lease ended, nothing pressed through this owner
      was still down; nothing is down now if its release has been confirmed; and
      whatever may be down now is tracked. */
  ghost predicate NothingForgotten(s: InputSession)
    requires s.Shape()
    reads s`wheel, s`down, s`resumed, s.keys, s.buttons, s.authority
  {
    && (forall k :: 0 <= k < |s.resumed| ==> s.resumed[k] == {})
    && (ConfirmedFor(s.authority.State(), s.owner) ==> s.down == {})
    && Covers(s.Mirrored(), s.down)
  }

  lemma SafeForgetsNothing(s: InputSession)
    requires s.Safe()
    ensures s.Shape() && NothingForgotten(s)
  {
    hide Apply, Inv, ApplyAll, Covers, ConfirmedFor, InputSession.Authorized, InputSession.Recorded;
  }

  // ------------------------------------------------------------------- receipts

  /** What each outcome of a receipt says about the plan of its request. */
  lemma ReceiptMeaning(sequence: u64, o: Outcome, plan: seq<Operation>)
    requires Truthful(o, plan)
    ensures var r := ReceiptOf(sequence, o.flow, |o.confirmed|, o.uncertain);
      && r.submitted == |o.confirmed| && o.confirmed == plan[..r.submitted]
      && (r.outcome == SubmittedToOs <==> o.flow.Done? && plan != [])
      && (r.outcome == AppliedLocally <==> o.flow.Done? && plan == [])
      && (Succeeded(r.outcome) ==> r.submitted == |plan| && r.refusal.None?)
      && (r.outcome == EffectUnknown <==> o.uncertain)
      && (r.outcome == EffectUnknown ==> r.submitted < |plan| && r.refusal == Some(RefUnknownEffect))
      && (r.outcome in {RejectedBeforeSubmission, ExpiredBeforeSubmission, CancelledBeforeSubmission}
          <==> !o.flow.Done? && !o.uncertain && o.confirmed == [])
      && (r.outcome == PartiallySubmittedToOs <==> !o.flow.Done? && !o.uncertain && o.confirmed != [])
      && (o.flow.Done? ==> r.refusal.None?) && (o.flow.Stopped? ==> r.refusal == Some(o.flow.refusal))
      && (o.flow.Unwound? ==> r.refusal == Some(if o.uncertain then RefUnknownEffect else RefRevoked))
      && (r.outcome == CancelledBeforeSubmission <==>
          o.confirmed == [] && !o.uncertain && !o.flow.Done? && (o.flow.Unwound? || o.flow.refusal == RefRevoked))
      && (r.outcome == ExpiredBeforeSubmission <==>
          && o.confirmed == [] && !o.uncertain && o.flow.Stopped?
          && (o.flow.refusal == RefExpiredAtBoundary
              || (o.flow.refusal.RefAuthority?
                  && o.flow.refusal.error in {TicketExpired, LeaseExpired, ObservationExpired})))
  {}

  /** The sink carries out a whole plan of `n` operations, without any panic. */
  ghost predicate ServesAll(tape: Tape, n: nat) {
    forall i :: 0 <= i < n ==> Confirms(tape(i)) && !tape(i).cancelUnwinds
  }

  lemma {:induction false} SmoothMeans(tape: Tape, n: nat)
    ensures Smooth(tape, n) <==> forall i :: 0 <= i < n ==> Confirms(tape(i)) && (i < n - 1 ==> !tape(i).cancelUnwinds)
  {
    if n > 0 { SmoothMeans(tape, n - 1); }
  }

  /** In a calm world a request completes exactly if the sink carries its plan out
      without a panic. */
  lemma CompletesExactly(o: Outcome, plan: seq<Operation>, tape: Tape)
    requires Truthful(o, plan) && Traced(|o.confirmed|, |plan|, o.flow, tape, true)
    ensures o.flow.Done? <==> ServesAll(tape, |plan|)
  {
    hide Smooth;
    if Smooth(tape, |plan|) { SmoothPrefix(tape, |plan|, |o.confirmed| + 1); }
    SmoothMeans(tape, |plan|);
  }

  /** A partial submission is a proper prefix of its plan unless the sink panics late;
      if it does, and nobody else acts, it is not. */
  lemma PartialIsProperPrefix(sequence: u64, o: Outcome, plan: seq<Operation>, tape: Tape, calm: bool)
    requires Truthful(o, plan) && Traced(|o.confirmed|, |plan|, o.flow, tape, calm)
    ensures var r := ReceiptOf(sequence, o.flow, |o.confirmed|, o.uncertain);
      && (r.outcome == PartiallySubmittedToOs && !PanicsLate(tape, plan) ==> 0 < r.submitted < |plan|)
      && (calm && PanicsLate(tape, plan) ==>
           o.flow.Unwound? && r == Receipt(sequence, PartiallySubmittedToOs, |plan|, Some(RefRevoked)))
  {
    if calm && PanicsLate(tape, plan) { SmoothPrefix(tape, |plan|, |o.confirmed| + 1); }
  }

  lemma CalmIsForeign(owner: nat, tape: Tape, now: u64)
    requires CalmTape(tape, now)
    ensures ForeignTape(owner, tape)
  {
    forall i: nat ensures ForeignCell(owner, tape(i)) {
      assert Calm(tape(i), now);
    }
  }

  /** One request served in a calm world, with credentials that pass: the answer is
      partial over the whole plan if and only if the sink panics late, and otherwise a
      partial answer names a proper prefix. The condition is one on the sink and the
      plan alone. */
  method ServeCalmly(s: InputSession, request: Request, start: Sample, tape: Tape, backend: Backend)
    returns (r: Dispatched, ghost answer: Receipt)
    requires s.Valid() && s.Settled(request).None? && !request.event.Pointer?
    requires Undisturbed(start, tape, []) && s.Usable(request.credentials, start.now)
    requires EventFault(s.Facts(), request.event, backend).None?
    modifies s, s.authority, s.keys, s.buttons, s.ledger, s.ledger.receipts, s.receipts
    ensures s.Valid() && s.answered == old(s.answered) + [answer]
    ensures var plan := Plan(request.event, old(s.cumulative), backend);
      && (answer.outcome == PartiallySubmittedToOs && answer.submitted == |plan| <==> PanicsLate(tape, plan))
      && (answer.outcome == PartiallySubmittedToOs ==> (answer.submitted < |plan| <==> !PanicsLate(tape, plan)))
      && (Succeeded(answer.outcome) <==> ServesAll(tape, |plan|))
      && (PanicsLate(tape, plan) ==> r == Panicked && s.revoked && s.ledger.fenced)
  {
    hide InputSession.Valid, InputSession.Settled, InputSession.Followed, Plan, EventFault, InputSession.Usable,
      CalmTape, PointerAfter, InputSession.MarkOf, ForeignTape, Smooth, ReceiptOf, Explained;
    ghost var plan := Plan(request.event, s.cumulative, backend);
    CalmIsForeign(s.owner, tape, start.now);
    ghost var o;
    r, o := s.Dispatch(request, start, tape, backend, []);
    answer := ReceiptOf(request.sequence, o.flow, |o.confirmed|, o.uncertain);
    CompletesExactly(o, plan, tape);
    PartialIsProperPrefix(request.sequence, o, plan, tape, true);
    OnlyDoneSucceeds(request.sequence, o.flow, |o.confirmed|, o.uncertain);
    assert o.flow.Done? ==> !o.uncertain;
  }

  // ------------------------------------------------------------- a run that shows it

  const LIFETIMES: Policy := Policy(1_000_000, 100_000)
  const THIS_VIEW: InputView := InputView(1, 1, 1, 0)
  const A_KEY: PhysicalKey := 4

  /** Approval, readiness, a lease and its first ticket, all at time zero. */
  const GRANTING: seq<Call> := [
    CMarkCapabilitiesChecked, CAuthorizeObservation(0), CMarkViewReady(0), CGrantLease(1, 0),
      CIssueTicket(1, 1, 0, false)]

  function Viewed(): (s: Auth) {
    New(LIFETIMES).(phase := Viewing, observationUntil := Some(1_000_000), readiness := Ready, lastChecked := Some(0))
  }

  function Ticketed(): (s: Auth) {
    Viewed().(lease := Some(Lease(1, 1_000_000, NO_TICKETS[0 := Some(Ticket(1, 100_000))])))
  }

  lemma ViewedBy()
    ensures After(New(LIFETIMES), GRANTING, 3) == Viewed()
  {
    var s := New(LIFETIMES);
    assert After(s, GRANTING, 0) == s;
    assert After(s, GRANTING, 1) == Apply(s, CMarkCapabilitiesChecked);
    assert After(s, GRANTING, 2) == Apply(After(s, GRANTING, 1), CAuthorizeObservation(0));
    assert After(s, GRANTING, 3) == Apply(After(s, GRANTING, 2), CMarkViewReady(0));
  }

  lemma LeasedBy()
    ensures After(New(LIFETIMES), GRANTING, 4) == Viewed().(lease := Some(Lease(1, 1_000_000, NO_TICKETS)))
  {
    ViewedBy();
    assert After(New(LIFETIMES), GRANTING, 4) == Apply(Viewed(), CGrantLease(1, 0));
  }

  lemma TicketedBy()
    ensures ApplyAll(New(LIFETIMES), GRANTING) == Ticketed()
  {
    hide CheckTime, ObservationFault;
    LeasedBy();
    FindTicketSound(NO_TICKETS, 1, 0);
    var s, leased := New(LIFETIMES), Viewed().(lease := Some(Lease(1, 1_000_000, NO_TICKETS)));
    EnterAtZero(leased);
    assert After(s, GRANTING, 5) == Apply(leased, CIssueTicket(1, 1, 0, false));
  }

  lemma EnterAtZero(s: Auth)
    requires s == Viewed().(lease := s.lease)
    ensures Enter(s, 0) == (s, None)
  {}

  lemma TicketIsUsable()
    ensures SubmissionDeadline(Ticketed(), 1, 1, 0).1.Ok? && SerializedTime(Ticketed(), 0) == 0
  {}

  /** A sink that carries everything out and panics while it cancels. */
  function PanickingTape(): (tape: Tape) {
    (i: nat) => Cell([], Prepared, Authorize(0), [], [], Submitted, [], true)
  }

  /** From an approved viewer to the wrong receipt: one key press, submitted to the
      system, is answered as a partial submission of all of its one operation. */
  method OnePressAnsweredAsPartial() returns (s: InputSession)
    ensures s.Valid() && fresh(s)
    ensures s.answered == [Receipt(0, PartiallySubmittedToOs, 1, Some(RefRevoked))]
    ensures |s.log| == 1 && s.log[0].op == OpKey(A_KEY, Press)
  {
    var authority := new SessionAuthority(LIFETIMES);
    Grant(authority);
    var credentials := Credentials(1, 1, 1, THIS_VIEW);
    TicketedBy();
    TicketIsUsable();
    ghost var later;
    var attached;
    attached, later := Open(authority, 1, credentials, InputBounds(DesktopPoint(0, 0), 1, 1), {CapKeys}, 0, GRANTING);
    s := attached.value;
    PressPanics(s, credentials);
  }

  method Grant(authority: SessionAuthority)
    requires authority.State() == New(LIFETIMES)
    modifies authority
    ensures authority.State() == ApplyAll(New(LIFETIMES), GRANTING)
  {
    hide Apply;
    ghost var s := New(LIFETIMES);
    for i := 0 to |GRANTING|
      invariant authority.State() == After(s, GRANTING, i)
    {
      authority.Perform(GRANTING[i]);
    }
  }

  method PressPanics(s: InputSession, credentials: Credentials)
    requires s.Valid() && s.Usable(credentials, 0) && s.answered == [] && s.log == [] && s.Mirrored() == NOTHING_HELD
    requires credentials.session == s.session && credentials.lease == s.lease && CapKeys in s.capabilities
    modifies s, s.authority, s.keys, s.buttons, s.ledger, s.ledger.receipts, s.receipts
    ensures s.Valid() && s.answered == [Receipt(0, PartiallySubmittedToOs, 1, Some(RefRevoked))]
    ensures |s.log| == 1 && s.log[0].op == OpKey(A_KEY, Press)
  {
    assert s.Active();
    hide InputSession.Safe, InputSession.Marked, InputSession.Usable, PointerAfter, Explained;
    var request := Request(credentials, 0, Key(A_KEY, Press));
    var start := Sample([], false, 0, []);
    ghost var plan := Plan(request.event, s.cumulative, Backend(false, false));
    assert plan == [OpKey(A_KEY, Press)];
    CalmIsForeign(s.owner, PanickingTape(), 0);
    SmoothNext(PanickingTape(), 0);
    assert !NOTHING_HELD.keys[A_KEY];
    assert EventFault(s.Facts(), request.event, Backend(false, false)).None?;
    assert Undisturbed(start, PanickingTape(), []);
    assert s.Settled(request).None?;
    ghost var o;
    var r;
    r, o := s.Dispatch(request, start, PanickingTape(), Backend(false, false), []);
    PartialIsProperPrefix(0, o, plan, PanickingTape(), true);
  }
}
