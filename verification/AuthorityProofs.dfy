/** What every reachable authority state keeps, and where every accepted
    submission got its authority from. */
module AuthorityProofs {
  import opened Common
  import opened Authority

  // ------------------------------------------------- reachable-state invariant

  predicate HasTicket(s: Auth, t: Ticket) {
    s.lease.Some? && Some(t) in s.lease.value.tickets
  }

  predicate NoTickets(s: Auth) {
    s.lease.Some? ==> s.lease.value.tickets == NO_TICKETS
  }

  /** Suspension, readiness and the view deadline describe one situation. */
  predicate ViewInv(s: Auth) {
    && (s.suspension.Some? <==> s.boundedView && s.lease.Some? && s.readiness != Ready)
    && (s.viewUntil.Some? <==> s.boundedView && s.readiness == Ready)
    && (s.presented.Some? ==> s.readiness == Ready)
    && (s.readiness != Ready ==> NoTickets(s))
    && (s.readiness == Ready || s.lease.Some? ==> s.phase == Viewing && s.observationUntil.Some?)
    && (s.nativeOwner.Some? ==> s.lease.Some? && s.nativeOwner.value < s.owners)
    && (s.controlChallenge.Some? ==> s.lease.Some?)
    && (s.observationChallenge.Some? ==> s.observationUntil.Some?)
    && (s.observationUntil.Some? <==> s.phase in {ViewOpening, Viewing})
    && (s.observationUntil.Some? ==> s.lastChecked.Some?)
  }

  /** `d` is at most one lifetime past the newest checked clock sample. */
  predicate Within(s: Auth, d: u64, lifetime: u64) {
    s.lastChecked.Some? && d <= s.lastChecked.value + lifetime
  }

  predicate TicketInv(s: Auth, t: Ticket)
    requires s.lease.Some?
  {
    && t.expiresAt <= s.lease.value.until
    && s.observationUntil.Some? && t.expiresAt <= s.observationUntil.value
    && Within(s, t.expiresAt, s.policy.ticketLifetime)
  }

  /** No deadline outlives its lifetime, no ticket outlives its lease or the
      observation, and a pending challenge can only extend what it renews. */
  predicate DeadlineInv(s: Auth) {
    var life := s.policy.authorizationLifetime;
    && (s.observationUntil.Some? ==> Within(s, s.observationUntil.value, life))
    && (s.lease.Some? ==>
         && Within(s, s.lease.value.until, life)
         && (forall i :: 0 <= i < MAX_LIVE_TICKETS && s.lease.value.tickets[i].Some?
              ==> TicketInv(s, s.lease.value.tickets[i].value)))
    && (s.observationChallenge.Some? ==>
         && Within(s, s.observationChallenge.value.deadline, life)
         && (s.observationUntil.Some? ==> s.observationUntil.value <= s.observationChallenge.value.deadline))
    && (s.controlChallenge.Some? ==>
         && Within(s, s.controlChallenge.value.deadline, life)
         && (s.lease.Some? ==> s.lease.value.until <= s.controlChallenge.value.deadline))
  }

  predicate Inv(s: Auth) {
    ViewInv(s) && DeadlineInv(s)
  }

  predicate Released(s: Auth) {
    s.suspension.Some? && s.suspension.value.released
  }

  /** A deadline that is still there has not moved back. */
  predicate Extended(before: Option<u64>, after: Option<u64>) {
    before.Some? && after.Some? ==> before.value <= after.value
  }

  /** What a call may do to the grant unless it is one of the seven that extend
      it: drop the lease, drop tickets, or start an unreleased suspension. */
  ghost predicate Quiet(s: Auth, t: Auth) {
    && t.policy == s.policy && t.owners == s.owners && Extended(s.observationUntil, t.observationUntil)
    && (t.lease.Some? ==>
         && s.lease.Some? && t.lease.value.id == s.lease.value.id && t.nativeOwner == s.nativeOwner
         && s.lease.value.until <= t.lease.value.until
         && (forall k :: HasTicket(t, k) ==> HasTicket(s, k))
         && (s.suspension.Some? ==> t.suspension == s.suspension))
    && (Released(t) ==> t.suspension == s.suspension && t.lease.Some?)
    && (t.nativeOwner.Some? ==> t.lease.Some?)
  }

  ghost predicate Keeps(s: Auth, t: Auth) {
    Inv(t) && Quiet(s, t)
  }

  // -------------------------------------------------------------- call by call

  lemma CheckTimeKeeps(s: Auth, now: u64)
    requires Inv(s)
    ensures Keeps(s, CheckTime(s, now).0)
    ensures CheckTime(s, now).1 ==>
      CheckTime(s, now).0.lastChecked == Some(now) && !ViewPassed(CheckTime(s, now).0, now)
    ensures CheckTime(s, now).1 ==>
      LeaseId(CheckTime(s, now).0) == LeaseId(s) && CheckTime(s, now).0.observationUntil == s.observationUntil
    ensures CheckTime(s, now).0.observationUntil.Some? ==> s.observationUntil.Some?
  {}

  lemma {:induction false} FindTicketSound(ts: seq<Option<Ticket>>, id: u64, from: nat)
    requires from <= |ts|
    ensures FindTicket(ts, id, from).Some? ==>
      FindTicket(ts, id, from) in ts[from..] && FindTicket(ts, id, from).value.id == id
    ensures FindTicket(ts, id, from).None? ==> forall i :: from <= i < |ts| && ts[i].Some? ==> ts[i].value.id != id
    decreases |ts| - from
  {
    if from < |ts| {
      FindTicketSound(ts, id, from + 1);
      assert ts[from..] == [ts[from]] + ts[from + 1..];
    }
  }

  lemma CapabilitiesKeeps(s: Auth)
    requires Inv(s)
    ensures Keeps(s, Apply(s, CMarkCapabilitiesChecked))
  {
  }

  lemma ApprovalKeeps(s: Auth)
    requires Inv(s)
    ensures Keeps(s, Apply(s, CRequireApproval))
  {
  }

  lemma AuthorizeObservationKeeps(s: Auth, now: u64)
    requires Inv(s)
    ensures Keeps(s, Apply(s, CAuthorizeObservation(now)))
  {
    hide CheckTime;
    CheckTimeKeeps(s, now);
  }

  lemma DeliveryKeeps(s: Auth, now: u64)
    requires Inv(s)
    ensures Keeps(s, Apply(s, CAuthorizeDelivery(now)))
  {
    hide CheckTime;
    CheckTimeKeeps(s, now);
  }

  lemma ObservationChallengeKeeps(s: Auth, nonce: nat, now: u64)
    requires Inv(s)
    ensures Keeps(s, Apply(s, CIssueObservationChallenge(nonce, now)))
  {
    hide CheckTime;
    CheckTimeKeeps(s, now);
  }

  lemma RenewObservationKeeps(t: Auth, d: u64)
    requires Inv(t) && t.observationUntil.Some? && t.observationChallenge == None
    requires t.observationUntil.value <= d && Within(t, d, t.policy.authorizationLifetime)
    ensures Inv(t.(observationUntil := Some(d)))
  {}

  lemma ObservationResponseKeeps(s: Auth, nonce: nat, now: u64)
    requires Inv(s)
    ensures Keeps(s, Apply(s, CRespondObservationChallenge(nonce, now)))
  {
    hide CheckTime;
    CheckTimeKeeps(s, now);
    var t := CheckTime(s, now).0;
    var u := t.(observationChallenge := None);
    assert Inv(u);
    if t.observationChallenge.Some? { RenewObservationKeeps(u, t.observationChallenge.value.deadline); }
  }

  lemma MarkViewReadyKeeps(s: Auth, now: u64)
    requires Inv(s)
    ensures Keeps(s, Apply(s, CMarkViewReady(now)))
  {
    hide CheckTime;
    assert Inv(s.(presented := None));
    CheckTimeKeeps(s.(presented := None), now);
  }

  lemma LapseKeeps(s: Auth, at: u64)
    requires Inv(s)
    ensures Keeps(s, LapseView(s, at))
  {
  }

  lemma StaleKeeps(s: Auth)
    requires Inv(s)
    ensures Keeps(s, Apply(s, CMarkViewStale))
  {
    hide LapseView;
    LapseKeeps(s, if s.lastChecked.Some? then s.lastChecked.value else 0);
  }

  lemma EvidenceKeeps(s: Auth, now: u64)
    requires Inv(s)
    ensures Keeps(s, Apply(s, CRequireViewEvidence(now)))
  {
    hide CheckTime;
    CheckTimeKeeps(s, now);
  }

  lemma AdvanceRecoveryKeeps(s: Auth, generation: u64)
    requires Inv(s)
    ensures Keeps(s, Apply(s, CAdvanceRecovery(generation)))
  {
  }

  lemma ReadStatusKeeps(s: Auth, now: u64)
    requires Inv(s)
    ensures Keeps(s, Apply(s, CReadControlStatus(now)))
  {
    hide LapseView, StatusOf;
    if s.viewUntil.Some? { LapseKeeps(s, s.viewUntil.value); }
  }

  lemma ControlChallengeKeeps(s: Auth, nonce: nat, now: u64)
    requires Inv(s)
    ensures Keeps(s, Apply(s, CIssueControlChallenge(nonce, now)))
  {
    hide CheckTime;
    CheckTimeKeeps(s, now);
  }

  lemma RenewLeaseKeeps(t: Auth, d: u64)
    requires Inv(t) && t.lease.Some? && t.controlChallenge == None
    requires t.lease.value.until <= d && Within(t, d, t.policy.authorizationLifetime)
    ensures Inv(t.(lease := Some(t.lease.value.(until := d))))
  {}

  lemma ControlResponseKeeps(s: Auth, lease: u64, nonce: nat, now: u64)
    requires Inv(s)
    ensures Keeps(s, Apply(s, CRespondControlChallenge(lease, nonce, now)))
  {
    hide CheckTime;
    CheckTimeKeeps(s, now);
    var t := CheckTime(s, now).0;
    var u := t.(controlChallenge := None);
    assert Inv(u);
    if t.lease.Some? && t.controlChallenge.Some? { RenewLeaseKeeps(u, t.controlChallenge.value.deadline); }
  }

  lemma InvalidateKeeps(s: Auth, lease: u64)
    requires Inv(s)
    ensures Keeps(s, Apply(s, CInvalidateTickets(lease)))
  {
  }

  lemma SubmissionKeeps(s: Auth, lease: u64, ticket: u64, now: u64)
    requires Inv(s)
    ensures Keeps(s, Apply(s, CSubmissionDeadline(lease, ticket, now)))
  {
    hide CheckTime, SubmissionFault;
    CheckTimeKeeps(s, now);
    assert Apply(s, CSubmissionDeadline(lease, ticket, now)) == CheckTime(s, now).0;
  }

  lemma RevokeKeeps(s: Auth)
    requires Inv(s)
    ensures Keeps(s, Apply(s, CRevokeLease)) && RevokeLease(s).observationUntil == s.observationUntil
  {
  }

  lemma LiveControlKeeps(s: Auth, now: u64)
    requires Inv(s)
    ensures Keeps(s, Apply(s, CHasLiveControl(now)))
  {
    hide CheckTime;
    CheckTimeKeeps(s, now);
  }

  lemma DropKeeps(s: Auth)
    requires Inv(s)
    ensures Keeps(s, Apply(s, CInvalidateForSuspend)) && DropObservation(s).observationUntil.None?
  {
  }

  lemma CloseKeeps(s: Auth)
    requires Inv(s)
    ensures Keeps(s, Apply(s, CClose))
  {
  }

  lemma RefuseKeeps(s: Auth)
    requires Inv(s)
    ensures Keeps(s, Apply(s, CRefuse))
  {
  }

  lemma LiveTicketsKeep(t: Auth, now: u64)
    requires Inv(t) && t.lease.Some?
    ensures Keeps(t, t.(lease := Some(t.lease.value.(tickets := LiveTickets(t.lease.value.tickets, now)))))
  {
    if NoTickets(t) {
      assert LiveTickets(t.lease.value.tickets, now) == NO_TICKETS;
    }
  }

  lemma ExpiryKeeps(t: Auth, now: u64)
    requires Inv(t)
    ensures Keeps(t, t.(observationChallenge := ExpireChallenge(t.observationChallenge, now),
                        controlChallenge := ExpireChallenge(t.controlChallenge, now)))
  {}

  lemma QuietTransitive(a: Auth, b: Auth, c: Auth)
    requires Quiet(a, b) && Quiet(b, c) && (c.observationUntil.Some? ==> b.observationUntil.Some?)
    ensures Quiet(a, c)
  {}

  lemma ResumeBoundaryKeeps(s: Auth, now: u64)
    requires Inv(s)
    ensures Keeps(s, Apply(s, CApplyResumeBoundary(now)))
  {
    hide Inv, Quiet, CheckTime, ExpireChallenge, LiveTickets, DropObservation, RevokeLease;
    CheckTimeKeeps(s, now);
    var (t, ok) := CheckTime(s, now);
    if ok {
      var u := if t.observationUntil.Some? && now >= t.observationUntil.value then DropObservation(t) else t;
      DropKeeps(t);
      QuietReflexive(t);
      QuietTransitive(s, t, u);
      ExpiryKeeps(u, now);
      var v := u.(observationChallenge := ExpireChallenge(u.observationChallenge, now),
                  controlChallenge := ExpireChallenge(u.controlChallenge, now));
      QuietTransitive(s, u, v);
      var w := if v.lease.Some? && now >= v.lease.value.until then RevokeLease(v) else v;
      RevokeKeeps(v);
      QuietReflexive(v);
      QuietTransitive(s, v, w);
      var x := w;
      if w.lease.Some? {
        LiveTicketsKeep(w, now);
        x := w.(lease := Some(w.lease.value.(tickets := LiveTickets(w.lease.value.tickets, now))));
        QuietTransitive(s, w, x);
      }
      CheckTimeKeeps(x, now);
      QuietTransitive(s, x, CheckTime(x, now).0);
    }
  }

  lemma QuietReflexive(s: Auth)
    requires Inv(s)
    ensures Quiet(s, s)
  {}

  // The seven calls that extend a grant keep the invariant, but are not quiet.

  lemma ReadyUntilKeeps(s: Auth, until: u64, now: u64)
    requires Inv(s)
    ensures Inv(Apply(s, CMarkViewReadyUntil(until, now)))
  {
    hide CheckTime;
    assert Inv(s.(presented := None));
    CheckTimeKeeps(s.(presented := None), now);
  }

  lemma PresentedKeeps(s: Auth, sequence: u64, until: u64, now: u64)
    requires Inv(s)
    ensures Inv(Apply(s, CMarkPresentedReadyUntil(sequence, until, now)))
  {
    hide CheckTime;
    assert Inv(s.(presented := None));
    CheckTimeKeeps(s.(presented := None), now);
  }

  lemma ConfirmKeeps(s: Auth, owner: nat, lease: u64)
    requires Inv(s)
    ensures Inv(Apply(s, CConfirmAs(owner, lease))) && Inv(Apply(s, CConfirmSuspensionRelease(lease)))
  {
  }

  lemma GrantLeaseKeeps(s: Auth, lease: u64, now: u64)
    requires Inv(s)
    ensures Inv(Apply(s, CGrantLease(lease, now)))
  {
    hide CheckTime;
    CheckTimeKeeps(s, now);
  }

  lemma IssueTicketKeeps(s: Auth, lease: u64, ticket: u64, now: u64, p: bool)
    requires Inv(s)
    ensures Inv(Apply(s, CIssueTicket(lease, ticket, now, p)))
  {
    hide CheckTime;
    CheckTimeKeeps(s, now);
  }

  lemma ClaimKeeps(s: Auth, lease: u64)
    requires Inv(s)
    ensures Inv(Apply(s, CClaimNativeOwner(lease)))
  {
  }

  predicate Extends(c: Call) {
    || c.CMarkViewReadyUntil? || c.CMarkPresentedReadyUntil? || c.CConfirmSuspensionRelease? || c.CConfirmAs?
    || c.CGrantLease? || c.CIssueTicket? || c.CClaimNativeOwner?
  }

  /** A call that does not extend the grant keeps the invariant quietly. */
  lemma QuietCall(s: Auth, c: Call)
    requires Inv(s) && !Extends(c)
    ensures Keeps(s, Apply(s, c))
  {
    hide Inv, Keeps, Apply;
    match c {
      case CMarkCapabilitiesChecked => CapabilitiesKeeps(s);
      case CRequireApproval => ApprovalKeeps(s);
      case CAuthorizeObservation(now) => AuthorizeObservationKeeps(s, now);
      case CAuthorizeDelivery(now) => DeliveryKeeps(s, now);
      case CMarkViewReady(now) => MarkViewReadyKeeps(s, now);
      case CRequireViewEvidence(now) => EvidenceKeeps(s, now);
      case CMarkViewStale => StaleKeeps(s);
      case CAdvanceRecovery(g) => AdvanceRecoveryKeeps(s, g);
      case CReadControlStatus(now) => ReadStatusKeeps(s, now);
      case CIssueObservationChallenge(nonce, now) => ObservationChallengeKeeps(s, nonce, now);
      case CRespondObservationChallenge(nonce, now) => ObservationResponseKeeps(s, nonce, now);
      case CIssueControlChallenge(nonce, now) => ControlChallengeKeeps(s, nonce, now);
      case CRespondControlChallenge(lease, nonce, now) => ControlResponseKeeps(s, lease, nonce, now);
      case CInvalidateTickets(lease) => InvalidateKeeps(s, lease);
      case CSubmissionDeadline(lease, ticket, now) => SubmissionKeeps(s, lease, ticket, now);
      case CRevokeLease => RevokeKeeps(s);
      case CHasLiveControl(now) => LiveControlKeeps(s, now);
      case CApplyResumeBoundary(now) => ResumeBoundaryKeeps(s, now);
      case CInvalidateForSuspend => DropKeeps(s);
      case CClose => CloseKeeps(s);
      case CRefuse => RefuseKeeps(s);
    }
  }

  /** Every call of every participant keeps the invariant. */
  lemma ApplyKeeps(s: Auth, c: Call)
    requires Inv(s)
    ensures Inv(Apply(s, c))
  {
    hide Inv, Quiet, Apply;
    match c {
      case CMarkViewReadyUntil(until, now) => ReadyUntilKeeps(s, until, now);
      case CMarkPresentedReadyUntil(q, until, now) => PresentedKeeps(s, q, until, now);
      case CConfirmSuspensionRelease(lease) => ConfirmKeeps(s, 0, lease);
      case CConfirmAs(owner, lease) => ConfirmKeeps(s, owner, lease);
      case CGrantLease(lease, now) => GrantLeaseKeeps(s, lease, now);
      case CIssueTicket(lease, ticket, now, p) => IssueTicketKeeps(s, lease, ticket, now, p);
      case CClaimNativeOwner(lease) => ClaimKeeps(s, lease);
      case _ => QuietCall(s, c);
    }
  }

  lemma {:induction false} ReachableKeeps(policy: Policy, calls: seq<Call>, n: nat)
    requires n <= |calls|
    ensures Inv(After(New(policy), calls, n))
  {
    if n > 0 {
      hide Apply;
      ReachableKeeps(policy, calls, n - 1);
      ApplyKeeps(After(New(policy), calls, n - 1), calls[n - 1]);
    }
  }

  // ------------------------------------------------------ view and suspension

  /** In every reachable state: control is suspended exactly when an
      evidence-bounded view is not ready under a lease, the view deadline exists
      exactly for a bounded ready view, and nothing can be submitted unready. */
  lemma ReachableView(policy: Policy, calls: seq<Call>)
    ensures var s := ApplyAll(New(policy), calls);
      && (s.suspension.Some? <==> s.boundedView && s.lease.Some? && s.readiness != Ready)
      && (s.viewUntil.Some? <==> s.boundedView && s.readiness == Ready)
      && (s.readiness != Ready ==> s.presented.None? && forall t :: !HasTicket(s, t))
  {
    ReachableKeeps(policy, calls, |calls|);
  }

  /** The refusal for a stale view under a lease without a suspension never fires. */
  lemma DefensiveRefusalUnreachable(policy: Policy, calls: seq<Call>, now: u64)
    ensures var t := CheckTime(ApplyAll(New(policy), calls).(presented := None), now).0;
      t.suspension.None? ==> ResumeFault(t, now) == None
  {
    var s := ApplyAll(New(policy), calls);
    ReachableKeeps(policy, calls, |calls|);
    assert Inv(s.(presented := None));
    CheckTimeKeeps(s.(presented := None), now);
  }

  // ------------------------------------------------------------ frame of a call

  predicate Issues(s: Auth, c: Call, t: Ticket) {
    && c.CIssueTicket? && c.ticket == t.id
    && IssueTicket(s, c.lease, c.ticket, c.now, c.requirePresented).1 == Ok(t.expiresAt)
    && t.expiresAt <= c.now + s.policy.ticketLifetime
    && LeaseId(s) == LeaseId(Apply(s, c)) == Some(c.lease)
  }

  /** A suspension ended although the lease survived. */
  predicate Resumed(s: Auth, u: Auth) {
    s.suspension.Some? && u.suspension.None? && u.lease.Some?
  }

  /** The call confirms the release of the installed lease: as its owner, or as any
      holder of the policy. */
  predicate ConfirmsRelease(s: Auth, c: Call) {
    || (c.CConfirmAs? && s.nativeOwner == Some(c.owner) && LeaseId(s) == Some(c.lease))
    || (c.CConfirmSuspensionRelease? && LeaseId(s) == Some(c.lease))
  }

  /** What one call may do to tickets, owner tokens and suspensions. */
  ghost predicate Frame(s: Auth, c: Call, u: Auth) {
    && u.policy == s.policy && s.owners <= u.owners && Extended(s.observationUntil, u.observationUntil)
    && (s.lease.Some? && u.lease.Some? ==> s.lease.value.until <= u.lease.value.until)
    && (forall k :: HasTicket(u, k) ==> Issues(s, c, k) || (HasTicket(s, k) && LeaseId(s) == LeaseId(u)))
    && (u.nativeOwner.Some? && u.nativeOwner.value < s.owners ==>
       u.nativeOwner == s.nativeOwner && LeaseId(u) == LeaseId(s))
    && (Released(u) ==>
         || (Released(s) && s.suspension == u.suspension && LeaseId(s) == LeaseId(u))
         || ConfirmsRelease(s, c))
    && (Released(s) && u.suspension.Some? ==> Released(u))
    && (Resumed(s, u) ==>
         && Released(s) && (c.CMarkViewReadyUntil? || c.CMarkPresentedReadyUntil?)
         && c.now < s.suspension.value.since + MAX_VIEW_SUSPENSION && c.now < c.until
         && u.viewUntil == Some(c.until) && NoTickets(u))
  }

  lemma ReadyUntilFrame(s: Auth, until: u64, now: u64)
    requires Inv(s)
    ensures Frame(s, CMarkViewReadyUntil(until, now), Apply(s, CMarkViewReadyUntil(until, now)))
  {
    hide CheckTime;
    assert Inv(s.(presented := None));
    CheckTimeKeeps(s.(presented := None), now);
    var u := Apply(s, CMarkViewReadyUntil(until, now));
    forall k | HasTicket(u, k) ensures HasTicket(s, k) {
      assert HasTicket(CheckTime(s.(presented := None), now).0, k);
    }
  }

  lemma PresentedFrame(s: Auth, sequence: u64, until: u64, now: u64)
    requires Inv(s)
    ensures Frame(s, CMarkPresentedReadyUntil(sequence, until, now),
      Apply(s, CMarkPresentedReadyUntil(sequence, until, now)))
  {
    hide CheckTime;
    assert Inv(s.(presented := None));
    CheckTimeKeeps(s.(presented := None), now);
    var u := Apply(s, CMarkPresentedReadyUntil(sequence, until, now));
    forall k | HasTicket(u, k) ensures HasTicket(s, k) {
      assert HasTicket(CheckTime(s.(presented := None), now).0, k);
    }
  }

  lemma ConfirmFrame(s: Auth, owner: nat, lease: u64)
    requires Inv(s)
    ensures Frame(s, CConfirmAs(owner, lease), Apply(s, CConfirmAs(owner, lease)))
    ensures Frame(s, CConfirmSuspensionRelease(lease), Apply(s, CConfirmSuspensionRelease(lease)))
  {
  }

  lemma GrantLeaseFrame(s: Auth, lease: u64, now: u64)
    requires Inv(s)
    ensures Frame(s, CGrantLease(lease, now), Apply(s, CGrantLease(lease, now)))
  {
    hide CheckTime;
    CheckTimeKeeps(s, now);
  }

  lemma IssueTicketFrame(s: Auth, lease: u64, ticket: u64, now: u64, p: bool)
    requires Inv(s)
    ensures Frame(s, CIssueTicket(lease, ticket, now, p), Apply(s, CIssueTicket(lease, ticket, now, p)))
  {
    hide CheckTime;
    CheckTimeKeeps(s, now);
  }

  lemma ClaimFrame(s: Auth, lease: u64)
    requires Inv(s)
    ensures Frame(s, CClaimNativeOwner(lease), Apply(s, CClaimNativeOwner(lease)))
  {
  }

  lemma QuietFrame(s: Auth, c: Call, u: Auth)
    requires Inv(s) && Inv(u) && Quiet(s, u)
    ensures Frame(s, c, u)
  {}

  /** Every call of every participant stays inside the frame. */
  lemma ApplyFrame(s: Auth, c: Call)
    requires Inv(s)
    ensures Frame(s, c, Apply(s, c))
  {
    hide Inv, Frame, Quiet, Apply;
    match c {
      case CMarkViewReadyUntil(until, now) => ReadyUntilFrame(s, until, now);
      case CMarkPresentedReadyUntil(q, until, now) => PresentedFrame(s, q, until, now);
      case CConfirmSuspensionRelease(lease) => ConfirmFrame(s, 0, lease);
      case CConfirmAs(owner, lease) => ConfirmFrame(s, owner, lease);
      case CGrantLease(lease, now) => GrantLeaseFrame(s, lease, now);
      case CIssueTicket(lease, ticket, now, p) => IssueTicketFrame(s, lease, ticket, now, p);
      case CClaimNativeOwner(lease) => ClaimFrame(s, lease);
      case _ =>
        QuietCall(s, c);
        QuietFrame(s, c, Apply(s, c));
    }
  }

  /** Only fresh evidence ends a suspension, only after the native owner confirmed
      the release of held input, and only inside the original time limit. */
  lemma ResumeNeedsRelease(s: Auth, c: Call)
    requires Inv(s) && Resumed(s, Apply(s, c))
    ensures Released(s)
    ensures c.CMarkViewReadyUntil? || c.CMarkPresentedReadyUntil?
    ensures c.now < s.suspension.value.since + MAX_VIEW_SUSPENSION && c.now < c.until
    ensures Apply(s, c).viewUntil == Some(c.until) && NoTickets(Apply(s, c))
  {
    hide Apply, Inv;
    ApplyFrame(s, c);
  }

  /** A confirmation is the only way a suspension becomes released. */
  lemma ReleasedOnlyByConfirm(s: Auth, c: Call)
    requires Inv(s) && Released(Apply(s, c))
    ensures Released(s) || ConfirmsRelease(s, c)
  {
    hide Apply, Inv;
    ApplyFrame(s, c);
  }

  /** An owner token that was ever displaced is never installed again. */
  lemma OwnerNeverReturns(s: Auth, c: Call, owner: nat)
    requires Inv(s) && owner < s.owners
    ensures owner < Apply(s, c).owners
    ensures Apply(s, c).nativeOwner == Some(owner) ==>
      s.nativeOwner == Some(owner) && LeaseId(Apply(s, c)) == LeaseId(s)
  {
    hide Apply, Inv;
    ApplyFrame(s, c);
  }

  // ------------------------------------------------------------------ deadlines

  /** The submission deadline is the ticket's own expiry or the view deadline,
      whichever is earlier: the lease and observation caps are already in it. */
  lemma DeadlineIsTicketOrView(s: Auth, leaseId: u64, ticketId: u64, now: u64)
    requires Inv(s)
    ensures var (t, r) := SubmissionDeadline(s, leaseId, ticketId, now);
      r.Ok? ==>
        exists ticket :: HasTicket(t, ticket) && ticket.id == ticketId && now < r.value
          && r.value == if t.viewUntil.Some? then Min(ticket.expiresAt, t.viewUntil.value) else ticket.expiresAt
  {
    var (t, r) := SubmissionDeadline(s, leaseId, ticketId, now);
    CheckTimeKeeps(s, now);
    if r.Ok? {
      FindTicketSound(t.lease.value.tickets, ticketId, 0);
      assert t.lease.value.tickets[0..] == t.lease.value.tickets;
      var ticket := FindTicket(t.lease.value.tickets, ticketId, 0).value;
      assert HasTicket(t, ticket) && TicketInv(t, ticket);
    }
  }

  /** While an observation is held, no call of any participant moves its deadline back. */
  lemma {:induction false} ObservationOnlyGrows(policy: Policy, calls: seq<Call>, m: nat, n: nat)
    requires m <= n <= |calls| && forall k :: m <= k <= n ==> After(New(policy), calls, k).observationUntil.Some?
    ensures After(New(policy), calls, m).observationUntil.value <= After(New(policy), calls, n).observationUntil.value
  {
    hide Apply, Inv;
    if m < n {
      ObservationOnlyGrows(policy, calls, m, n - 1);
      ReachableKeeps(policy, calls, n - 1);
      ApplyFrame(After(New(policy), calls, n - 1), calls[n - 1]);
    }
  }

  /** While a lease is held, no call of any participant moves its deadline back. */
  lemma {:induction false} LeaseOnlyGrows(policy: Policy, calls: seq<Call>, m: nat, n: nat)
    requires m <= n <= |calls| && forall k :: m <= k <= n ==> After(New(policy), calls, k).lease.Some?
    ensures After(New(policy), calls, m).lease.value.until <= After(New(policy), calls, n).lease.value.until
  {
    hide Apply, Inv;
    if m < n {
      LeaseOnlyGrows(policy, calls, m, n - 1);
      ReachableKeeps(policy, calls, n - 1);
      ApplyFrame(After(New(policy), calls, n - 1), calls[n - 1]);
    }
  }

  // ----------------------------------------------------------------- provenance

  /** The call invalidates every outstanding ticket. */
  predicate Fences(s: Auth, c: Call) {
    match c
    case CMarkViewStale => true
    case CRevokeLease => true
    case CInvalidateForSuspend => true
    case CClose => true
    case CRefuse => true
    case CAdvanceRecovery(g) => AdvanceRecovery(s, g).1.Ok?
    case CInvalidateTickets(lease) => InvalidateTickets(s, lease).1.Ok?
    case CRequireViewEvidence(now) => RequireViewEvidence(s, now).1.Ok?
    case _ => false
  }

  lemma FencesClearTickets(s: Auth, c: Call)
    requires Inv(s) && Fences(s, c)
    ensures NoTickets(Apply(s, c))
  {
  }

  /** `t` was issued at call `i` of the run and has been usable in every state since. */
  ghost predicate HeldSince(policy: Policy, calls: seq<Call>, n: nat, t: Ticket, i: nat)
    requires i < n <= |calls|
  {
    && Issues(After(New(policy), calls, i), calls[i], t)
    && (forall m :: i < m <= n ==> HasTicket(After(New(policy), calls, m), t)
                                   && LeaseId(After(New(policy), calls, m)) == LeaseId(After(New(policy), calls, n)))
  }

  /** Every retained ticket of every reachable state has an issuing call. */
  lemma {:induction false} TicketProvenance(policy: Policy, calls: seq<Call>, n: nat, t: Ticket) returns (i: nat)
    requires n <= |calls| && HasTicket(After(New(policy), calls, n), t)
    ensures i < n && HeldSince(policy, calls, n, t, i)
  {
    hide Apply, Inv, Issues;
    var s := After(New(policy), calls, n - 1);
    ReachableKeeps(policy, calls, n - 1);
    ApplyFrame(s, calls[n - 1]);
    if Issues(s, calls[n - 1], t) {
      i := n - 1;
    } else {
      i := TicketProvenance(policy, calls, n - 1, t);
    }
  }

  lemma {:induction false} PolicyFixed(policy: Policy, calls: seq<Call>, n: nat)
    requires n <= |calls|
    ensures After(New(policy), calls, n).policy == policy
  {
    if n > 0 {
      hide Apply, Inv;
      PolicyFixed(policy, calls, n - 1);
      ReachableKeeps(policy, calls, n - 1);
      ApplyFrame(After(New(policy), calls, n - 1), calls[n - 1]);
    }
  }

  lemma AcceptedTicket(s: Auth, leaseId: u64, ticketId: u64, now: u64) returns (ticket: Ticket)
    requires Inv(s) && SubmissionDeadline(s, leaseId, ticketId, now).1.Ok?
    ensures HasTicket(s, ticket) && ticket.id == ticketId && now < ticket.expiresAt && LeaseId(s) == Some(leaseId)
  {
    CheckTimeKeeps(s, now);
    var t := CheckTime(s, now).0;
    FindTicketSound(t.lease.value.tickets, ticketId, 0);
    assert t.lease.value.tickets[0..] == t.lease.value.tickets;
    ticket := FindTicket(t.lease.value.tickets, ticketId, 0).value;
    assert HasTicket(t, ticket);
  }

  /** An accepted submission check at the end of any run is backed by an issuing
      call less than one ticket lifetime earlier, for the same lease, with no
      fencing call in between. */
  lemma SubmissionHasProvenance(policy: Policy, calls: seq<Call>, leaseId: u64, ticketId: u64, now: u64)
    returns (i: nat)
    requires SubmissionDeadline(ApplyAll(New(policy), calls), leaseId, ticketId, now).1.Ok?
    ensures i < |calls| && calls[i].CIssueTicket? && calls[i].ticket == ticketId && calls[i].lease == leaseId
    ensures now < calls[i].now + policy.ticketLifetime
    ensures forall m :: i < m < |calls| ==> !Fences(After(New(policy), calls, m), calls[m])
    ensures forall m :: i < m <= |calls| ==> After(New(policy), calls, m).readiness == Ready
    ensures forall m :: i < m <= |calls| ==> LeaseId(After(New(policy), calls, m)) == Some(leaseId)
  {
    hide Inv, SubmissionDeadline, Apply, Fences;
    ReachableKeeps(policy, calls, |calls|);
    var ticket := AcceptedTicket(ApplyAll(New(policy), calls), leaseId, ticketId, now);
    i := TicketProvenance(policy, calls, |calls|, ticket);
    PolicyFixed(policy, calls, i);
    assert After(New(policy), calls, i + 1) == Apply(After(New(policy), calls, i), calls[i]);
    UnfencedSince(policy, calls, ticket, i);
  }

  lemma UnfencedSince(policy: Policy, calls: seq<Call>, t: Ticket, i: nat)
    requires i < |calls| && HeldSince(policy, calls, |calls|, t, i)
    ensures forall m :: i < m < |calls| ==> !Fences(After(New(policy), calls, m), calls[m])
    ensures forall m :: i < m <= |calls| ==> After(New(policy), calls, m).readiness == Ready
  {
    hide Apply, Fences, Issues;
    forall m | i < m <= |calls|
      ensures After(New(policy), calls, m).readiness == Ready
    {
      ReachableKeeps(policy, calls, m);
    }
    forall m | i < m < |calls|
      ensures !Fences(After(New(policy), calls, m), calls[m])
    {
      ReachableKeeps(policy, calls, m);
      assert HasTicket(After(New(policy), calls, m + 1), t);
      if Fences(After(New(policy), calls, m), calls[m]) {
        FencesClearTickets(After(New(policy), calls, m), calls[m]);
        assert false;
      }
    }
  }

  // ------------------------------------------------- one participant among many

  lemma {:induction false} AfterPrefix(s: Auth, calls: seq<Call>, more: seq<Call>, n: nat)
    requires n <= |calls|
    ensures After(s, calls + more, n) == After(s, calls, n)
  {
    if n > 0 { AfterPrefix(s, calls, more, n - 1); }
  }

  lemma ApplyAllAppend(s: Auth, calls: seq<Call>, c: Call)
    ensures ApplyAll(s, calls + [c]) == Apply(ApplyAll(s, calls), c)
  {
    hide Apply;
    AfterPrefix(s, calls, [c], |calls|);
  }

  /** `owner`'s suspension has been confirmed released. */
  predicate ConfirmedFor(s: Auth, owner: nat) {
    Released(s) && s.nativeOwner == Some(owner)
  }

  /** Only a confirmation, this owner's own or the unguarded one, can confirm this
      owner's release; no call brings a displaced owner back or resumes this owner
      unconfirmed. */
  lemma OtherCall(s: Auth, c: Call, owner: nat)
    requires Inv(s) && owner < s.owners
    ensures Inv(Apply(s, c)) && owner < Apply(s, c).owners
    ensures ConfirmedFor(Apply(s, c), owner) ==>
      ConfirmedFor(s, owner) || c.CConfirmSuspensionRelease? || (c.CConfirmAs? && c.owner == owner)
    ensures Apply(s, c).nativeOwner == Some(owner) ==> s.nativeOwner == Some(owner)
    ensures Resumed(s, Apply(s, c)) && s.nativeOwner == Some(owner) ==> ConfirmedFor(s, owner)
  {
    hide Apply, Inv;
    ApplyKeeps(s, c);
    ApplyFrame(s, c);
  }

  /** An accepted submission check leaves this owner ready and not suspended. */
  lemma AcceptedIsReady(s: Auth, leaseId: u64, ticketId: u64, now: u64)
    requires Inv(s) && SubmissionDeadline(s, leaseId, ticketId, now).1.Ok?
    ensures var u := SubmissionDeadline(s, leaseId, ticketId, now).0;
      u == Apply(s, CSubmissionDeadline(leaseId, ticketId, now)) && !u.suspension.Some? && u.readiness == Ready
  {
    hide CheckTime;
    CheckTimeKeeps(s, now);
  }
}
