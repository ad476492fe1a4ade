/** The policy owner itself: one object whose fields every participant changes
    under a lock, one call at a time. Each method is proved against the
    transition of the same name on values. */
module AuthorityOwner {
  import opened Common
  import opened Authority
  import A = Authority

  class SessionAuthority {
    const policy: Policy
    var phase: Phase
    var observationUntil: Option<u64>
    var readiness: Readiness
    var viewUntil: Option<u64>
    var presented: Option<u64>
    var boundedView: bool
    var lease: Option<Lease>
    var suspension: Option<Suspension>
    var recovery: Option<u64>
    var nativeOwner: Option<nat>
    var owners: nat
    var observationChallenge: Option<Challenge>
    var controlChallenge: Option<Challenge>
    var lastChecked: Option<u64>
    var clockFaulted: bool

    function State(): (r: Auth)
      reads this
    {
      Auth(policy, phase, observationUntil, readiness, viewUntil, presented, boundedView, lease, suspension,
           recovery, nativeOwner, owners, observationChallenge, controlChallenge, lastChecked, clockFaulted)
    }

    constructor (policy: Policy)
      ensures State() == New(policy)
    {
      this.policy := policy;
      phase := Identified;
      observationUntil, readiness, viewUntil, presented := None, Unready, None, None;
      boundedView, lease, suspension, recovery := false, None, None, None;
      nativeOwner, owners := None, 0;
      observationChallenge, controlChallenge, lastChecked, clockFaulted := None, None, None, false;
    }

    // ------------------------------------------------------------- private steps

    method ClearAuthority()
      modifies this
      ensures State() == A.ClearAuthority(old(State()))
    {
      observationUntil, readiness, viewUntil, presented := None, Unready, None, None;
      lease, suspension, nativeOwner := None, None, None;
      observationChallenge, controlChallenge := None, None;
    }

    method FillTickets()
      modifies this`lease
      ensures State() == old(State()).(lease := DropTickets(old(lease)))
    {
      if lease.Some? {
        lease := Some(lease.value.(tickets := NO_TICKETS));
      }
    }

    method LapseView(at: u64)
      modifies this
      ensures State() == A.LapseView(old(State()), at)
    {
      viewUntil := None;
      presented := None;
      if readiness == Ready {
        readiness := Stale;
        if boundedView && lease.Some? && suspension.None? {
          suspension := Some(Suspension(at, false));
        }
      }
      FillTickets();
    }

    method CheckTime(now: u64) returns (ok: bool)
      modifies this
      ensures (State(), ok) == A.CheckTime(old(State()), now)
    {
      if clockFaulted || (lastChecked.Some? && now < lastChecked.value) {
        clockFaulted := true;
        Close();
        return false;
      }
      lastChecked := Some(now);
      if viewUntil.Some? && now >= viewUntil.value {
        LapseView(viewUntil.value);
      }
      ok := true;
    }

    method Enter(now: u64) returns (fault: Option<AuthorityError>)
      modifies this
      ensures (State(), fault) == A.Enter(old(State()), now)
    {
      var ok := CheckTime(now);
      fault := if ok then ObservationFault(State(), now) else Some(ClockRegression);
    }

    method FindTicket(id: u64) returns (r: Option<Ticket>)
      requires lease.Some?
      ensures r == A.FindTicket(lease.value.tickets, id, 0)
    {
      var ts := lease.value.tickets;
      var i := 0;
      while i < |ts|
        invariant i <= |ts|
        invariant A.FindTicket(ts, id, 0) == A.FindTicket(ts, id, i)
      {
        if ts[i].Some? && ts[i].value.id == id { return ts[i]; }
        i := i + 1;
      }
      r := None;
    }

    method FreeSlot(now: u64) returns (k: nat)
      requires lease.Some?
      ensures k == A.FreeSlot(lease.value.tickets, now, 0) && k <= MAX_LIVE_TICKETS
    {
      var ts := lease.value.tickets;
      k := 0;
      while k < |ts| && ts[k].Some? && now < ts[k].value.expiresAt
        invariant k <= |ts|
        invariant A.FreeSlot(ts, now, 0) == A.FreeSlot(ts, now, k)
      {
        k := k + 1;
      }
    }

    // ----------------------------------------------------------------- lifecycle

    method MarkCapabilitiesChecked() returns (r: Reply<()>)
      modifies this
      ensures (State(), r) == A.MarkCapabilitiesChecked(old(State()))
    {
      if phase != Identified { return Err(InvalidState(phase)); }
      phase := CapabilitiesChecked;
      r := Ok(());
    }

    method RequireApproval() returns (r: Reply<()>)
      modifies this
      ensures (State(), r) == A.RequireApproval(old(State()))
    {
      if phase != CapabilitiesChecked { return Err(InvalidState(phase)); }
      phase := WaitingApproval;
      r := Ok(());
    }

    method AuthorizeObservation(now: u64) returns (r: Reply<()>)
      modifies this
      ensures (State(), r) == A.AuthorizeObservation(old(State()), now)
    {
      var ok := CheckTime(now);
      if !ok { return Err(ClockRegression); }
      if phase !in {CapabilitiesChecked, WaitingApproval} { return Err(InvalidState(phase)); }
      var until := DeadlineFrom(now, policy.authorizationLifetime);
      if until.None? { return Err(DeadlineOverflow); }
      ClearAuthority();
      observationUntil := until;
      phase := ViewOpening;
      r := Ok(());
    }

    method AuthorizeDelivery(now: u64) returns (r: Reply<()>)
      modifies this
      ensures (State(), r) == A.AuthorizeDelivery(old(State()), now)
    {
      var fault := Enter(now);
      r := if fault.Some? then Err(fault.value) else Ok(());
    }

    method DropObservation()
      modifies this
      ensures State() == A.DropObservation(old(State()))
    {
      ClearAuthority();
      if phase in {ViewOpening, Viewing} { phase := CapabilitiesChecked; }
    }

    method Close()
      modifies this
      ensures State() == A.Close(old(State()))
    {
      ClearAuthority();
      phase := Closed;
    }

    method Refuse()
      modifies this
      ensures State() == A.Refuse(old(State()))
    {
      ClearAuthority();
      phase := Refused;
    }

    // ---------------------------------------------------------------------- view

    method MarkViewReady(now: u64) returns (r: Reply<()>)
      modifies this
      ensures (State(), r) == A.MarkViewReady(old(State()), now)
    {
      presented := None;
      var fault := Enter(now);
      if fault.Some? { return Err(fault.value); }
      if boundedView { return Err(ViewUnready); }
      phase := Viewing;
      readiness := Ready;
      r := Ok(());
    }

    method MarkViewStale()
      modifies this
      ensures State() == A.MarkViewStale(old(State()))
    {
      LapseView(if lastChecked.Some? then lastChecked.value else 0);
    }

    method RequireViewEvidence(now: u64) returns (r: Reply<()>)
      modifies this
      ensures (State(), r) == A.RequireViewEvidence(old(State()), now)
    {
      var fault := Enter(now);
      if fault.Some? { return Err(fault.value); }
      if lease.Some? && !boundedView { return Err(ControllerBusy); }
      boundedView := true;
      MarkViewStale();
      r := Ok(());
    }

    method MarkViewReadyUntil(until: u64, now: u64) returns (r: Reply<()>)
      modifies this
      ensures (State(), r) == A.MarkViewReadyUntil(old(State()), until, now)
    {
      hide A.Enter;
      presented := None;
      var fault := Enter(now);
      if fault.Some? { return Err(fault.value); }
      if until <= now { return Err(ViewUnready); }
      if suspension.Some? {
        var limit := CheckedAdd(suspension.value.since, MAX_VIEW_SUSPENSION);
        if limit.None? { return Err(DeadlineOverflow); }
        if now >= limit.value { return Err(ViewUnready); }
        if !suspension.value.released { return Err(ReleasePending); }
      } else if boundedView && readiness != Ready && lease.Some? {
        return Err(ViewUnready);
      }
      if viewUntil.Some? && until < viewUntil.value { return Err(ViewUnready); }
      suspension := None;
      boundedView := true;
      viewUntil := Some(until);
      phase := Viewing;
      readiness := Ready;
      r := Ok(());
    }

    method MarkPresentedReadyUntil(sequence: u64, until: u64, now: u64) returns (r: Reply<()>)
      modifies this
      ensures (State(), r) == A.MarkPresentedReadyUntil(old(State()), sequence, until, now)
    {
      r := MarkViewReadyUntil(until, now);
      if r.Ok? { presented := Some(sequence); }
    }

    method AdvanceRecovery(generation: u64) returns (r: Reply<()>)
      modifies this
      ensures (State(), r) == A.AdvanceRecovery(old(State()), generation)
    {
      if readiness == Ready { return Err(InvalidState(phase)); }
      if recovery.Some? && generation <= recovery.value { return Err(StaleGeneration); }
      recovery := Some(generation);
      presented := None;
      FillTickets();
      r := Ok(());
    }

    method ConfirmSuspensionRelease(leaseId: u64) returns (r: Reply<()>)
      modifies this
      ensures (State(), r) == A.ConfirmSuspensionRelease(old(State()), leaseId)
    {
      if lease.None? || lease.value.id != leaseId { return Err(StaleLease); }
      if suspension.Some? {
        suspension := Some(suspension.value.(released := true));
      }
      r := Ok(());
    }

    method ConfirmAs(owner: nat, leaseId: u64) returns (r: Reply<()>)
      modifies this
      ensures (State(), r) == A.ConfirmAs(old(State()), owner, leaseId)
    {
      if lease.None? || lease.value.id != leaseId || nativeOwner != Some(owner) { return Err(StaleLease); }
      r := ConfirmSuspensionRelease(leaseId);
    }

    method ReadControlStatus(sampled: u64) returns (r: Reply<ControlStatus>)
      modifies this
      ensures (State(), r) == A.ReadControlStatus(old(State()), sampled)
    {
      if clockFaulted { return Err(ClockRegression); }
      var now := SerializedTime(State(), sampled);
      if viewUntil.Some? && now >= viewUntil.value {
        LapseView(viewUntil.value);
      }
      r := StatusOf(State(), now);
    }

    // ----------------------------------------------------- challenges and leases

    method IssueObservationChallenge(nonce: nat, now: u64) returns (r: Reply<u64>)
      modifies this
      ensures (State(), r) == A.IssueObservationChallenge(old(State()), nonce, now)
    {
      var fault := Enter(now);
      if fault.Some? { return Err(fault.value); }
      if ChallengeSlotBusy(observationChallenge, now) { return Err(ChallengePending); }
      var deadline := DeadlineFrom(now, policy.authorizationLifetime);
      if deadline.None? { return Err(DeadlineOverflow); }
      observationChallenge := Some(Challenge(nonce, deadline.value));
      r := Ok(deadline.value);
    }

    method RespondObservationChallenge(nonce: nat, now: u64) returns (r: Reply<u64>)
      modifies this
      ensures (State(), r) == A.RespondObservationChallenge(old(State()), nonce, now)
    {
      var fault := Enter(now);
      if fault.Some? { return Err(fault.value); }
      if observationChallenge.None? || observationChallenge.value.nonce != nonce { return Err(ChallengeMismatch); }
      var deadline := observationChallenge.value.deadline;
      observationChallenge := None;
      if now >= deadline { return Err(ChallengeExpired); }
      observationUntil := Some(deadline);
      r := Ok(deadline);
    }

    method GrantLease(leaseId: u64, now: u64) returns (r: Reply<()>)
      modifies this
      ensures (State(), r) == A.GrantLease(old(State()), leaseId, now)
    {
      var fault := Enter(now);
      if fault.Some? { return Err(fault.value); }
      if phase != Viewing { return Err(InvalidState(phase)); }
      if readiness != Ready { return Err(ViewUnready); }
      if lease.Some? {
        return Err(if now < lease.value.until then ControllerBusy else ControllerCleanupRequired);
      }
      var until := DeadlineFrom(now, policy.authorizationLifetime);
      if until.None? { return Err(DeadlineOverflow); }
      lease := Some(Lease(leaseId, until.value, NO_TICKETS));
      controlChallenge := None;
      r := Ok(());
    }

    method IssueControlChallenge(nonce: nat, now: u64) returns (r: Reply<u64>)
      modifies this
      ensures (State(), r) == A.IssueControlChallenge(old(State()), nonce, now)
    {
      var fault := Enter(now);
      if fault.Some? { return Err(fault.value); }
      if lease.None? { return Err(NoLease); }
      if now >= lease.value.until { return Err(LeaseExpired); }
      if ChallengeSlotBusy(controlChallenge, now) { return Err(ChallengePending); }
      var deadline := DeadlineFrom(now, policy.authorizationLifetime);
      if deadline.None? { return Err(DeadlineOverflow); }
      controlChallenge := Some(Challenge(nonce, deadline.value));
      r := Ok(deadline.value);
    }

    method RespondControlChallenge(leaseId: u64, nonce: nat, now: u64) returns (r: Reply<u64>)
      modifies this
      ensures (State(), r) == A.RespondControlChallenge(old(State()), leaseId, nonce, now)
    {
      var fault := Enter(now);
      if fault.Some? { return Err(fault.value); }
      if lease.None? { return Err(NoLease); }
      if lease.value.id != leaseId { return Err(StaleLease); }
      if now >= lease.value.until {
        controlChallenge := None;
        return Err(LeaseExpired);
      }
      if controlChallenge.None? || controlChallenge.value.nonce != nonce { return Err(ChallengeMismatch); }
      var deadline := controlChallenge.value.deadline;
      controlChallenge := None;
      if now >= deadline { return Err(ChallengeExpired); }
      lease := Some(lease.value.(until := deadline));
      r := Ok(deadline);
    }

    // ------------------------------------------------------ tickets, submissions

    method IssueTicket(leaseId: u64, ticketId: u64, now: u64, requirePresented: bool) returns (r: Reply<u64>)
      modifies this
      ensures (State(), r) == A.IssueTicket(old(State()), leaseId, ticketId, now, requirePresented)
    {
      var fault := Enter(now);
      if fault.Some? { return Err(fault.value); }
      if readiness != Ready || (requirePresented && presented.None?) { return Err(ViewUnready); }
      if lease.None? { return Err(NoLease); }
      if lease.value.id != leaseId { return Err(StaleLease); }
      if now >= lease.value.until { return Err(LeaseExpired); }
      var known := FindTicket(ticketId);
      if ticketId == 0 || known.Some? { return Err(TicketInvalid); }
      var uncapped := DeadlineFrom(now, policy.ticketLifetime);
      if uncapped.None? { return Err(DeadlineOverflow); }
      if observationUntil.None? { return Err(ObservationExpired); }
      var expires := Min(Min(uncapped.value, lease.value.until), observationUntil.value);
      var k := FreeSlot(now);
      if k >= MAX_LIVE_TICKETS { return Err(TicketCapacity); }
      lease := Some(lease.value.(tickets := lease.value.tickets[k := Some(Ticket(ticketId, expires))]));
      r := Ok(expires);
    }

    method InvalidateTickets(leaseId: u64) returns (r: Reply<()>)
      modifies this
      ensures (State(), r) == A.InvalidateTickets(old(State()), leaseId)
    {
      if lease.None? { return Err(NoLease); }
      if lease.value.id != leaseId { return Err(StaleLease); }
      FillTickets();
      r := Ok(());
    }

    method AuthorizeSubmission(leaseId: u64, ticketId: u64, now: u64) returns (r: Reply<()>)
      modifies this
      ensures (State(), r) == A.AuthorizeSubmission(old(State()), leaseId, ticketId, now)
    {
      var ok := CheckTime(now);
      if !ok { return Err(ClockRegression); }
      if phase != Viewing { return Err(InvalidState(phase)); }
      var fault := ObservationFault(State(), now);
      if fault.Some? { return Err(fault.value); }
      if readiness != Ready { return Err(ViewUnready); }
      if lease.None? { return Err(NoLease); }
      if lease.value.id != leaseId { return Err(StaleLease); }
      if now >= lease.value.until { return Err(LeaseExpired); }
      var ticket := FindTicket(ticketId);
      if ticket.None? { return Err(TicketInvalid); }
      if now >= ticket.value.expiresAt { return Err(TicketExpired); }
      r := Ok(());
    }

    method SubmissionDeadline(leaseId: u64, ticketId: u64, now: u64) returns (r: Reply<u64>)
      modifies this
      ensures (State(), r) == A.SubmissionDeadline(old(State()), leaseId, ticketId, now)
    {
      var granted := AuthorizeSubmission(leaseId, ticketId, now);
      if granted.Err? { return Err(granted.error); }
      var ticket := FindTicket(ticketId);
      var until := Min(Min(ticket.value.expiresAt, lease.value.until), observationUntil.value);
      r := Ok(if viewUntil.Some? then Min(until, viewUntil.value) else until);
    }

    method RevokeLease()
      modifies this
      ensures State() == A.RevokeLease(old(State()))
    {
      lease, suspension, nativeOwner, controlChallenge, presented := None, None, None, None, None;
    }

    method HasLiveControl(now: u64) returns (live: bool)
      modifies this
      ensures (State(), live) == A.HasLiveControl(old(State()), now)
    {
      var fault := Enter(now);
      live := fault.None? && phase == Viewing && readiness == Ready && lease.Some? && now < lease.value.until;
    }

    method ExpireTickets(now: u64)
      requires lease.Some?
      modifies this`lease
      ensures State() == old(State()).(lease := Some(old(lease).value.(tickets := LiveTickets(old(lease).value.tickets,
        now))))
    {
      var ts := lease.value.tickets;
      var i := 0;
      while i < MAX_LIVE_TICKETS
        invariant 0 <= i <= MAX_LIVE_TICKETS && lease == old(lease) && |ts| == MAX_LIVE_TICKETS
        invariant forall j :: 0 <= j < i ==> ts[j] == LiveTickets(old(lease).value.tickets, now)[j]
        invariant forall j :: i <= j < MAX_LIVE_TICKETS ==> ts[j] == old(lease).value.tickets[j]
      {
        if ts[i].Some? && now >= ts[i].value.expiresAt {
          ts := ts[i := None];
        }
        i := i + 1;
      }
      assert ts == LiveTickets(old(lease).value.tickets, now);
      lease := Some(lease.value.(tickets := ts));
    }

    method ApplyResumeBoundary(now: u64) returns (live: bool)
      modifies this
      ensures (State(), live) == A.ApplyResumeBoundary(old(State()), now)
    {
      var ok := CheckTime(now);
      if !ok { return false; }
      if observationUntil.Some? && now >= observationUntil.value { DropObservation(); }
      if observationChallenge.Some? && now >= observationChallenge.value.deadline { observationChallenge := None; }
      if controlChallenge.Some? && now >= controlChallenge.value.deadline { controlChallenge := None; }
      if lease.Some? && now >= lease.value.until { RevokeLease(); }
      if lease.Some? { ExpireTickets(now); }
      live := HasLiveControl(now);
    }

    method ClaimNativeOwner(leaseId: u64) returns (r: Reply<nat>)
      modifies this
      ensures (State(), r) == A.ClaimNativeOwner(old(State()), leaseId)
    {
      if lease.None? || lease.value.id != leaseId { return Err(StaleLease); }
      if nativeOwner.Some? { return Err(ControllerBusy); }
      r := Ok(owners);
      nativeOwner := Some(owners);
      owners := owners + 1;
    }

    // -------------------------------------------------------- other participants

    /** The calls that concern observation and the view. */
    static predicate OnView(c: Call) {
      || c.CMarkCapabilitiesChecked? || c.CRequireApproval? || c.CAuthorizeObservation? || c.CAuthorizeDelivery?
      || c.CMarkViewReady? || c.CRequireViewEvidence? || c.CMarkViewReadyUntil? || c.CMarkPresentedReadyUntil?
      || c.CMarkViewStale? || c.CAdvanceRecovery? || c.CIssueObservationChallenge? || c.CRespondObservationChallenge?
      || c.CApplyResumeBoundary? || c.CInvalidateForSuspend? || c.CClose? || c.CRefuse?
    }

    /** One call made by whichever participant holds the lock. */
    method Perform(c: Call)
      modifies this
      ensures State() == Apply(old(State()), c)
    {
      hide *;
      if OnView(c) { PerformOnView(c); } else { PerformOnLease(c); }
    }

    method PerformOnView(c: Call)
      requires OnView(c)
      modifies this
      ensures State() == Apply(old(State()), c)
    {
      hide A.MarkCapabilitiesChecked, A.RequireApproval, A.AuthorizeObservation, A.AuthorizeDelivery, A.MarkViewReady,
        A.RequireViewEvidence, A.MarkViewReadyUntil, A.MarkPresentedReadyUntil, A.MarkViewStale, A.AdvanceRecovery,
        A.IssueObservationChallenge, A.RespondObservationChallenge, A.ApplyResumeBoundary, A.DropObservation, A.Close,
        A.Refuse, State;
      match c {
        case CMarkCapabilitiesChecked => var _ := MarkCapabilitiesChecked();
        case CRequireApproval => var _ := RequireApproval();
        case CAuthorizeObservation(now) => var _ := AuthorizeObservation(now);
        case CAuthorizeDelivery(now) => var _ := AuthorizeDelivery(now);
        case CMarkViewReady(now) => var _ := MarkViewReady(now);
        case CRequireViewEvidence(now) => var _ := RequireViewEvidence(now);
        case CMarkViewReadyUntil(until, now) => var _ := MarkViewReadyUntil(until, now);
        case CMarkPresentedReadyUntil(q, until, now) => var _ := MarkPresentedReadyUntil(q, until, now);
        case CMarkViewStale => MarkViewStale();
        case CAdvanceRecovery(g) => var _ := AdvanceRecovery(g);
        case CIssueObservationChallenge(nonce, now) => var _ := IssueObservationChallenge(nonce, now);
        case CRespondObservationChallenge(nonce, now) => var _ := RespondObservationChallenge(nonce, now);
        case CApplyResumeBoundary(now) => var _ := ApplyResumeBoundary(now);
        case CInvalidateForSuspend => DropObservation();
        case CClose => Close();
        case CRefuse => Refuse();
      }
    }

    method PerformOnLease(c: Call)
      requires !OnView(c)
      modifies this
      ensures State() == Apply(old(State()), c)
    {
      hide A.ConfirmSuspensionRelease, A.ConfirmAs, A.ReadControlStatus, A.GrantLease, A.IssueControlChallenge,
        A.RespondControlChallenge, A.IssueTicket, A.InvalidateTickets, A.SubmissionDeadline, A.RevokeLease,
        A.HasLiveControl, A.ClaimNativeOwner, State;
      match c {
        case CConfirmSuspensionRelease(leaseId) => var _ := ConfirmSuspensionRelease(leaseId);
        case CConfirmAs(owner, leaseId) => var _ := ConfirmAs(owner, leaseId);
        case CReadControlStatus(now) => var _ := ReadControlStatus(now);
        case CGrantLease(leaseId, now) => var _ := GrantLease(leaseId, now);
        case CIssueControlChallenge(nonce, now) => var _ := IssueControlChallenge(nonce, now);
        case CRespondControlChallenge(leaseId, nonce, now) => var _ := RespondControlChallenge(leaseId, nonce, now);
        case CIssueTicket(leaseId, ticket, now, p) => var _ := IssueTicket(leaseId, ticket, now, p);
        case CInvalidateTickets(leaseId) => var _ := InvalidateTickets(leaseId);
        case CSubmissionDeadline(leaseId, ticket, now) => var _ := SubmissionDeadline(leaseId, ticket, now);
        case CRevokeLease => RevokeLease();
        case CHasLiveControl(now) => var _ := HasLiveControl(now);
        case CClaimNativeOwner(leaseId) => var _ := ClaimNativeOwner(leaseId);
      }
    }
  }
}
