/** When each call of the authority says yes, what it then changes, and what a refusal
    leaves: told from the fields of a reachable state and the clock sample alone. */
module Decisions {
  import opened Common
  import opened Authority
  import opened AuthorityProofs

  // ------------------------------------------------------------ the situation at `now`

  /** The clock has never gone back, and does not with this sample. */
  predicate Steady(s: Auth, now: u64) {
    !s.clockFaulted && (s.lastChecked.Some? ==> s.lastChecked.value <= now)
  }

  predicate Observing(s: Auth, now: u64) {
    s.observationUntil.Some? && now < s.observationUntil.value
  }

  /** The view is ready, and its deadline, if it has one, has not passed. */
  predicate Seeing(s: Auth, now: u64) {
    s.readiness == Ready && (s.viewUntil.Some? ==> now < s.viewUntil.value)
  }

  predicate Leased(s: Auth, lease: u64, now: u64) {
    s.lease.Some? && s.lease.value.id == lease && now < s.lease.value.until
  }

  /** A view deadline has passed that no call has noticed yet. */
  predicate Unnoticed(s: Auth, now: u64) {
    s.viewUntil.Some? && s.viewUntil.value <= now
  }

  /** A suspension dates from the deadline of the view, whenever it is noticed. */
  function SuspensionAt(s: Auth, now: u64): (r: Option<Suspension>) {
    if Unnoticed(s, now) && s.lease.Some? then Some(Suspension(s.viewUntil.value, false)) else s.suspension
  }

  /** The state once the passing of time up to `now` has been noticed. */
  function Noticed(s: Auth, now: u64): (r: Auth) {
    if !Unnoticed(s, now) then s
    else
      s.(viewUntil := None, presented := None, readiness := Stale, suspension := SuspensionAt(s, now),
         lease := if s.lease.Some? then Some(Lease(s.lease.value.id, s.lease.value.until, NO_TICKETS)) else None)
  }

  function Sampled(s: Auth, now: u64): (r: Auth) {
    Noticed(s, now).(lastChecked := Some(now))
  }

  /** Nothing of the session is left, and no sample will be accepted again. */
  predicate ClosedByClock(s: Auth) {
    && s.phase == Closed && s.clockFaulted && s.observationUntil.None? && s.readiness == Unready
    && s.viewUntil.None? && s.lease.None? && s.suspension.None? && s.nativeOwner.None? && s.presented.None?
    && s.observationChallenge.None? && s.controlChallenge.None?
  }

  /** A lifetime that can be added to this sample. */
  predicate Lasts(now: u64, lifetime: u64) {
    0 < lifetime && now + lifetime <= U64_MAX
  }

  lemma ClockExactly(s: Auth, now: u64)
    requires Inv(s)
    ensures CheckTime(s, now).1 <==> Steady(s, now)
    ensures Steady(s, now) ==> CheckTime(s, now).0 == Sampled(s, now)
    ensures !Steady(s, now) ==> ClosedByClock(CheckTime(s, now).0)
  {}

  lemma EnterExactly(s: Auth, now: u64)
    requires Inv(s)
    ensures Enter(s, now).1 ==
      if !Steady(s, now) then Some(ClockRegression)
      else if s.observationUntil.None? then Some(InvalidState(s.phase))
      else if now >= s.observationUntil.value then Some(ObservationExpired)
      else None
    ensures Steady(s, now) ==> Enter(s, now).0 == Sampled(s, now)
    ensures !Steady(s, now) ==> ClosedByClock(Enter(s, now).0)
  {
    hide CheckTime;
    ClockExactly(s, now);
  }

  // ---------------------------------------------------------------------- control status

  /** For every reachable state and sample, the answer about control: live until the
      earliest deadline of lease, observation and view; suspended until the earliest of
      lease, observation and the limit of the suspension, which runs from the deadline of
      the view; and each error exactly where it belongs. A sample older than the newest
      checked one stands for that one. Only the passing of the view is recorded. */
  lemma StatusExactly(s: Auth, sampled: u64)
    requires Inv(s)
    ensures var now: u64 := if s.lastChecked.Some? then Max(s.lastChecked.value, sampled) else sampled;
      var (u, r) := ReadControlStatus(s, sampled);
      var observing, leased := Observing(s, now), s.lease.Some? && now < s.lease.value.until;
      var sp := SuspensionAt(s, now);
      var timely := sp.Some? && now < sp.value.since + MAX_VIEW_SUSPENSION <= U64_MAX;
      var ok := !s.clockFaulted;
      && u == (if ok then Noticed(s, now) else s)
      && (r == Err(ClockRegression) <==> !ok)
      && (r == Err(InvalidState(s.phase)) <==> ok && s.observationUntil.None?)
      && (r == Err(ObservationExpired) <==> ok && s.observationUntil.Some? && !observing)
      && (r == Err(NoLease) <==> ok && observing && s.lease.None?)
      && (r == Err(LeaseExpired) <==> ok && observing && s.lease.Some? && !leased)
      && (r.Ok? && r.value.Live? <==> ok && observing && leased && Seeing(s, now))
      && (r.Ok? && r.value.Live? ==>
         var until := Min(s.lease.value.until, s.observationUntil.value);
         r.value.until == if s.viewUntil.Some? then Min(until, s.viewUntil.value) else until)
      && (r.Ok? && r.value.Suspended? <==> ok && observing && leased && !Seeing(s, now) && timely)
      && (r.Ok? && r.value.Suspended? ==>
         && r.value.released == sp.value.released
         && r.value.until ==
            Min(Min(s.lease.value.until, s.observationUntil.value), sp.value.since + MAX_VIEW_SUSPENSION))
      && (r == Err(DeadlineOverflow) <==>
         ok && observing && leased && !Seeing(s, now) && sp.Some? && sp.value.since + MAX_VIEW_SUSPENSION > U64_MAX)
      && (r == Err(ViewUnready) <==>
         ok && observing && leased && !Seeing(s, now)
         && (sp.None? || sp.value.since + MAX_VIEW_SUSPENSION <= now))
  {}

  // --------------------------------------------------------------------- challenges

  /** A challenge is issued if and only if no other is still open; its deadline is one
      lifetime from now. */
  lemma ObservationChallengeExactly(s: Auth, nonce: nat, now: u64)
    requires Inv(s)
    ensures var (u, r) := IssueObservationChallenge(s, nonce, now);
      var free := s.observationChallenge.None? || s.observationChallenge.value.deadline <= now;
      var life := s.policy.authorizationLifetime;
      && (r.Ok? <==> Steady(s, now) && Observing(s, now) && free && Lasts(now, life))
      && (r.Ok? ==>
         r.value == now + life && u == Sampled(s, now).(observationChallenge := Some(Challenge(nonce, now + life))))
      && (r.Err? && Steady(s, now) ==> u == Sampled(s, now))
      && (r == Err(ChallengePending) <==> Steady(s, now) && Observing(s, now) && !free)
  {
    hide Enter;
    EnterExactly(s, now);
  }

  /** A response is accepted if and only if it names the nonce of the open challenge, in
      time and while observing; the observation then lasts until the deadline of that
      challenge, and the challenge is used up. A response with another nonce changes
      nothing. */
  lemma ObservationResponseExactly(s: Auth, nonce: nat, now: u64)
    requires Inv(s)
    ensures var (u, r) := RespondObservationChallenge(s, nonce, now);
      var named := s.observationChallenge.Some? && s.observationChallenge.value.nonce == nonce;
      && (r.Ok? <==>
         Steady(s, now) && Observing(s, now) && named && now < s.observationChallenge.value.deadline)
      && (r.Ok? ==>
         && r.value == s.observationChallenge.value.deadline
         && u == Sampled(s, now).(observationUntil := Some(r.value), observationChallenge := None))
      && (r == Err(ChallengeMismatch) <==> Steady(s, now) && Observing(s, now) && !named)
      && (r.Err? && Steady(s, now) && !(Observing(s, now) && named) ==> u == Sampled(s, now))
      && (r == Err(ChallengeExpired) <==>
         Steady(s, now) && Observing(s, now) && named && s.observationChallenge.value.deadline <= now)
      && (r == Err(ChallengeExpired) ==> u == Sampled(s, now).(observationChallenge := None))
  {
    hide Enter;
    EnterExactly(s, now);
  }

  lemma ControlChallengeExactly(s: Auth, nonce: nat, now: u64)
    requires Inv(s)
    ensures var (u, r) := IssueControlChallenge(s, nonce, now);
      var free := s.controlChallenge.None? || s.controlChallenge.value.deadline <= now;
      var leased := s.lease.Some? && now < s.lease.value.until;
      var life := s.policy.authorizationLifetime;
      && (r.Ok? <==> Steady(s, now) && Observing(s, now) && leased && free && Lasts(now, life))
      && (r.Ok? ==>
         r.value == now + life && u == Sampled(s, now).(controlChallenge := Some(Challenge(nonce, now + life))))
      && (r.Err? && Steady(s, now) ==> u == Sampled(s, now))
      && (r == Err(ChallengePending) <==> Steady(s, now) && Observing(s, now) && leased && !free)
  {
    hide Enter;
    EnterExactly(s, now);
  }

  /** A response renews the lease if and only if it names the installed lease and the
      nonce of the open challenge before every deadline. A response with another nonce, or
      for another lease, leaves lease, observation and challenge as they were. */
  lemma ControlResponseExactly(s: Auth, lease: u64, nonce: nat, now: u64)
    requires Inv(s)
    ensures var (u, r) := RespondControlChallenge(s, lease, nonce, now);
      var named := s.controlChallenge.Some? && s.controlChallenge.value.nonce == nonce;
      var alive := Steady(s, now) && Observing(s, now) && Leased(s, lease, now);
      && (r.Ok? <==> alive && named && now < s.controlChallenge.value.deadline)
      && (r.Ok? ==>
         && r.value == s.controlChallenge.value.deadline
         && u.lease == Some(Sampled(s, now).lease.value.(until := r.value))
         && u == Sampled(s, now).(lease := u.lease, controlChallenge := None))
      && (r == Err(ChallengeMismatch) <==> alive && !named)
      && (alive && !named ==> u == Sampled(s, now))
      && (r == Err(StaleLease) <==>
         Steady(s, now) && Observing(s, now) && s.lease.Some? && s.lease.value.id != lease)
      && (Steady(s, now) && !Observing(s, now) ==> r.Err? && u == Sampled(s, now))
      && (Steady(s, now) && LeaseId(s) != Some(lease) ==> r.Err? && u == Sampled(s, now))
      && (r == Err(ChallengeExpired) <==> alive && named && s.controlChallenge.value.deadline <= now)
      && (r == Err(ChallengeExpired) ==> u == Sampled(s, now).(controlChallenge := None))
  {
    hide Enter;
    EnterExactly(s, now);
  }

  // ----------------------------------------------------------------- view and lease

  /** Observation starts only from checked capabilities, with or without an approval, and
      with nothing left over from an earlier one. */
  lemma ObservationExactly(s: Auth, now: u64)
    requires Inv(s)
    ensures var (u, r) := AuthorizeObservation(s, now); var life := s.policy.authorizationLifetime;
      && (r.Ok? <==> Steady(s, now) && s.phase in {CapabilitiesChecked, WaitingApproval} && Lasts(now, life))
      && (r.Ok? ==> u == New(s.policy).(phase := ViewOpening, observationUntil := Some(now + life),
           boundedView := s.boundedView, recovery := s.recovery, owners := s.owners, lastChecked := Some(now)))
      && (r.Err? && Steady(s, now) ==> u == Sampled(s, now))
  {
    hide CheckTime;
    ClockExactly(s, now);
  }

  lemma DeliveryExactly(s: Auth, now: u64)
    requires Inv(s)
    ensures var (u, r) := AuthorizeDelivery(s, now);
      && (r.Ok? <==> Steady(s, now) && Observing(s, now)) && (Steady(s, now) ==> u == Sampled(s, now))
  {
    hide Enter;
    EnterExactly(s, now);
  }

  /** A report without a deadline makes a view ready only until evidence is required. */
  lemma ReadyExactly(s: Auth, now: u64)
    requires Inv(s)
    ensures var (u, r) := MarkViewReady(s, now);
      && (r.Ok? <==> Steady(s, now) && Observing(s, now) && !s.boundedView)
      && (r.Ok? ==> u == Sampled(s, now).(phase := Viewing, readiness := Ready, presented := None))
      && (r.Err? && Steady(s, now) ==> u == Sampled(s, now).(presented := None))
      && (!Steady(s, now) ==> ClosedByClock(u))
  {
    hide Enter;
    assert Inv(s.(presented := None));
    EnterExactly(s.(presented := None), now);
  }

  /** Fresh evidence is taken if and only if it names a later instant, does not shorten
      the evidence before it, and no suspension stands in the way: one that has lasted too
      long, or whose held input has not been released. In particular, a suspended lease
      that was released in time is ready again, and it is the same lease. */
  lemma EvidenceExactly(s: Auth, until: u64, now: u64)
    requires Inv(s)
    ensures var (u, r) := MarkViewReadyUntil(s, until, now); var sp := SuspensionAt(s, now);
      var open := sp.None? || (sp.value.released && now < sp.value.since + MAX_VIEW_SUSPENSION <= U64_MAX);
      && (r.Ok? <==>
         && Steady(s, now) && Observing(s, now) && now < until && open
         && (s.viewUntil.Some? && now < s.viewUntil.value ==> s.viewUntil.value <= until))
      && (r.Ok? ==> u == Sampled(s, now).(suspension := None, boundedView := true, viewUntil := Some(until),
           phase := Viewing, readiness := Ready, presented := None))
      && (r.Err? && Steady(s, now) ==> u == Sampled(s, now).(presented := None))
      && (!Steady(s, now) ==> ClosedByClock(u))
      && (r == Err(ReleasePending) <==>
         && Steady(s, now) && Observing(s, now) && now < until && sp.Some? && !sp.value.released
         && now < sp.value.since + MAX_VIEW_SUSPENSION <= U64_MAX)
  {
    hide Enter;
    assert Inv(s.(presented := None));
    EnterExactly(s.(presented := None), now);
  }

  lemma PresentedExactly(s: Auth, sequence: u64, until: u64, now: u64)
    ensures var (u, r) := MarkPresentedReadyUntil(s, sequence, until, now);
      var (v, q) := MarkViewReadyUntil(s, until, now);
      r == q && (r.Err? ==> u == v) && (r.Ok? ==> u == v.(presented := Some(sequence)))
  {
    hide MarkViewReadyUntil;
  }

  /** Requiring evidence takes the view away until there is some; a controller that was
      admitted without evidence is not displaced by it. */
  lemma RequiringExactly(s: Auth, now: u64)
    requires Inv(s)
    ensures var (u, r) := RequireViewEvidence(s, now);
      && (r.Ok? <==> Steady(s, now) && Observing(s, now) && (s.lease.None? || s.boundedView))
      && (r.Ok? ==>
         && u.boundedView && u.readiness != Ready && u.viewUntil.None? && u.presented.None? && NoTickets(u)
         && u.phase == s.phase && u.observationUntil == s.observationUntil && LeaseId(u) == LeaseId(s)
         && (u.lease.Some? ==>
            && u.lease.value.until == s.lease.value.until
            && u.suspension == Some(
               if SuspensionAt(s, now).Some? then SuspensionAt(s, now).value else Suspension(now, false))))
      && (r.Err? && Steady(s, now) ==> u == Sampled(s, now))
  {
    hide Enter;
    EnterExactly(s, now);
  }

  /** A view that is declared stale is stale, without tickets, and under a bounded view its
      lease is suspended from the newest checked instant; a suspension is never restarted. */
  lemma StaleExactly(s: Auth)
    requires Inv(s)
    ensures var u := MarkViewStale(s);
      && u.readiness == (if s.readiness == Ready then Stale else s.readiness)
      && u.viewUntil.None? && u.presented.None? && NoTickets(u)
      && u == s.(readiness := u.readiness, viewUntil := None, presented := None, lease := u.lease,
                 suspension := u.suspension)
      && LeaseId(u) == LeaseId(s) && (u.lease.Some? ==> u.lease.value.until == s.lease.value.until)
      && u.suspension ==
         if s.boundedView && s.readiness == Ready && s.lease.Some? then Some(Suspension(s.lastChecked.value, false))
         else s.suspension
  {}

  /** Recovery starts only while nothing is shown, and only with a newer generation. */
  lemma RecoveryExactly(s: Auth, generation: u64)
    requires Inv(s)
    ensures var (u, r) := AdvanceRecovery(s, generation);
      && (r.Ok? <==> s.readiness != Ready && (s.recovery.Some? ==> s.recovery.value < generation))
      && (r.Ok? ==> u == s.(recovery := Some(generation)))
      && (r.Err? ==> u == s)
  {}

  lemma ConfirmExactly(s: Auth, owner: nat, lease: u64)
    ensures var (u, r) := ConfirmAs(s, owner, lease);
      && (r.Ok? <==> LeaseId(s) == Some(lease) && s.nativeOwner == Some(owner))
      && (r.Ok? && s.suspension.Some? ==> u == s.(suspension := Some(Suspension(s.suspension.value.since, true))))
      && (r.Err? || s.suspension.None? ==> u == s)
    ensures var (u, r) := ConfirmSuspensionRelease(s, lease);
      && (r.Ok? <==> LeaseId(s) == Some(lease))
      && (r.Ok? && s.suspension.Some? ==> u == s.(suspension := Some(Suspension(s.suspension.value.since, true))))
      && (r.Err? || s.suspension.None? ==> u == s)
  {}

  /** Control is granted if and only if the view is ready and nobody has it. */
  lemma GrantExactly(s: Auth, lease: u64, now: u64)
    requires Inv(s)
    ensures var (u, r) := GrantLease(s, lease, now); var life := s.policy.authorizationLifetime;
      && (r.Ok? <==> Steady(s, now) && Observing(s, now) && Seeing(s, now) && s.lease.None? && Lasts(now, life))
      && (r.Ok? ==> u == Sampled(s, now).(lease := Some(Lease(lease, now + life, NO_TICKETS))))
      && (r.Err? && Steady(s, now) ==> u == Sampled(s, now))
      && (r == Err(ControllerBusy) <==>
         Steady(s, now) && Observing(s, now) && Seeing(s, now) && s.lease.Some? && now < s.lease.value.until)
  {
    hide Enter;
    EnterExactly(s, now);
  }

  /** Control is live if and only if the view is seen under a lease in force. */
  lemma LiveControlExactly(s: Auth, now: u64)
    requires Inv(s)
    ensures var (u, live) := HasLiveControl(s, now);
      && (live <==>
         Steady(s, now) && Observing(s, now) && Seeing(s, now) && s.lease.Some? && now < s.lease.value.until)
      && (Steady(s, now) ==> u == Sampled(s, now))
  {
    hide Enter;
    EnterExactly(s, now);
  }

  lemma ClaimExactly(s: Auth, lease: u64)
    requires Inv(s)
    ensures var (u, r) := ClaimNativeOwner(s, lease);
      && (r.Ok? <==> LeaseId(s) == Some(lease) && s.nativeOwner.None?)
      && (r.Ok? ==> r.value == s.owners && u == s.(nativeOwner := Some(s.owners), owners := s.owners + 1))
      && (r.Err? ==> u == s)
  {}

  /** The stages before observation follow one another. */
  lemma StagesExactly(s: Auth)
    ensures var (u, r) := MarkCapabilitiesChecked(s);
      && (r.Ok? <==> s.phase == Identified) && u == (if r.Ok? then s.(phase := CapabilitiesChecked) else s)
    ensures var (u, r) := RequireApproval(s);
      && (r.Ok? <==> s.phase == CapabilitiesChecked) && u == (if r.Ok? then s.(phase := WaitingApproval) else s)
  {}

  lemma InvalidateExactly(s: Auth, lease: u64)
    ensures var (u, r) := InvalidateTickets(s, lease);
      && (r.Ok? <==> LeaseId(s) == Some(lease))
      && (r.Ok? ==> u == s.(lease := Some(Lease(lease, s.lease.value.until, NO_TICKETS))))
      && (r.Err? ==> u == s)
  {}

  /** Giving up: the lease alone; the observation with everything that rests on it; or the
      whole session. What is not given up stays. */
  lemma EndingsExactly(s: Auth)
    requires Inv(s)
    ensures RevokeLease(s) ==
      s.(lease := None, suspension := None, nativeOwner := None, controlChallenge := None, presented := None)
    ensures forall u :: u in {DropObservation(s), Close(s), Refuse(s)} ==>
      u == New(s.policy).(phase := u.phase, boundedView := s.boundedView, recovery := s.recovery, owners := s.owners,
             lastChecked := s.lastChecked, clockFaulted := s.clockFaulted)
    ensures DropObservation(s).phase == (if s.observationUntil.Some? then CapabilitiesChecked else s.phase)
    ensures Close(s).phase == Closed && Refuse(s).phase == Authority.Refused
  {}

  // ----------------------------------------------------------------------- tickets

  /** No two tickets have the same number. */
  predicate Apart(ts: Slots) {
    forall i, j :: 0 <= i < j < MAX_LIVE_TICKETS ==>
      ts[i].Some? && ts[j].Some? ==> ts[i].value.id != ts[j].value.id
  }

  predicate Distinct(s: Auth) {
    s.lease.Some? ==> Apart(s.lease.value.tickets)
  }

  /** Slots are emptied at most. */
  ghost predicate SlotsKept(s: Auth, u: Auth) {
    u.lease.Some? ==>
      && s.lease.Some?
      && forall i :: 0 <= i < MAX_LIVE_TICKETS ==>
           u.lease.value.tickets[i].None? || u.lease.value.tickets[i] == s.lease.value.tickets[i]
  }

  /** What every call other than the seven that grant or renew leaves of deadlines and
      challenges: all of it, or nothing. */
  ghost predicate Untouched(s: Auth, u: Auth) {
    && SlotsKept(s, u)
    && (u.lease.Some? ==> u.lease.value.id == s.lease.value.id && u.lease.value.until == s.lease.value.until)
    && (u.controlChallenge.Some? ==> u.controlChallenge == s.controlChallenge && u.lease.Some?)
    && (u.observationUntil.Some? ==> u.observationUntil == s.observationUntil)
    && (u.observationChallenge.Some? ==> u.observationChallenge == s.observationChallenge && u.observationUntil.Some?)
  }

  predicate Renews(c: Call) {
    || c.CAuthorizeObservation? || c.CIssueObservationChallenge? || c.CRespondObservationChallenge?
    || c.CGrantLease? || c.CIssueControlChallenge? || c.CRespondControlChallenge? || c.CIssueTicket?
  }

  lemma SampledUntouched(s: Auth, now: u64)
    requires Inv(s)
    ensures Untouched(s, CheckTime(s, now).0)
  {}

  lemma SampleCallsUntouched(s: Auth, c: Call)
    requires Inv(s)
    requires c.CAuthorizeDelivery? || c.CSubmissionDeadline? || c.CHasLiveControl?
    ensures Untouched(s, Apply(s, c))
  {
    hide CheckTime, Untouched, SubmissionFault;
    SampledUntouched(s, c.now);
  }

  lemma ViewCallsUntouched(s: Auth, c: Call)
    requires Inv(s)
    requires c.CMarkViewReady? || c.CRequireViewEvidence? || c.CMarkViewReadyUntil? || c.CMarkPresentedReadyUntil?
    ensures Untouched(s, Apply(s, c))
  {
    hide CheckTime, MarkViewReady, MarkViewReadyUntil, MarkPresentedReadyUntil, RequireViewEvidence;
    SampledUntouched(s, c.now);
    ClockExactly(s, c.now);
    match c {
      case CMarkViewReady(now) => ReadyExactly(s, now);
      case CRequireViewEvidence(now) => RequiringUntouched(s, now);
      case CMarkViewReadyUntil(until, now) => EvidenceExactly(s, until, now);
      case CMarkPresentedReadyUntil(q, until, now) =>
        PresentedExactly(s, q, until, now);
        EvidenceExactly(s, until, now);
    }
  }

  lemma RequiringUntouched(s: Auth, now: u64)
    requires Inv(s)
    ensures Untouched(s, Apply(s, CRequireViewEvidence(now)))
  {
    hide CheckTime;
    SampledUntouched(s, now);
  }

  lemma OtherCallsUntouched(s: Auth, c: Call)
    requires Inv(s)
    requires c.CMarkCapabilitiesChecked? || c.CRequireApproval? || c.CMarkViewStale? || c.CAdvanceRecovery?
      || c.CConfirmSuspensionRelease? || c.CConfirmAs? || c.CReadControlStatus? || c.CInvalidateTickets?
      || c.CRevokeLease? || c.CInvalidateForSuspend? || c.CClose? || c.CRefuse? || c.CClaimNativeOwner?
    ensures Untouched(s, Apply(s, c))
  {
    hide StatusOf;
  }

  /** A sample that was just checked changes nothing. */
  lemma SampledAgain(s: Auth, now: u64)
    requires !s.clockFaulted && s.lastChecked == Some(now) && !Unnoticed(s, now)
    ensures CheckTime(s, now) == (s, true)
  {}

  /** What a boundary leaves of a state whose time is already noticed: nothing of a passed
      observation, no lease past its end, no ticket and no challenge past its own. */
  function Survivors(t: Auth, now: u64): (r: Auth) {
    if t.observationUntil.Some? && now >= t.observationUntil.value then DropObservation(t)
    else
      var u := t.(observationChallenge :=
                    if t.observationChallenge.Some? && t.observationChallenge.value.deadline <= now then None
                    else t.observationChallenge,
                  controlChallenge :=
                    if t.controlChallenge.Some? && t.controlChallenge.value.deadline <= now then None
                    else t.controlChallenge);
      if t.lease.None? then u
      else if t.lease.value.until <= now then RevokeLease(u)
      else u.(lease := Some(t.lease.value.(tickets := LiveTickets(t.lease.value.tickets, now))))
  }

  lemma BoundarySplit(s: Auth, now: u64)
    requires Inv(s) && Steady(s, now)
    ensures ApplyResumeBoundary(s, now) == HasLiveControl(Survivors(Sampled(s, now), now), now)
  {
    hide CheckTime, HasLiveControl, Noticed;
    ClockExactly(s, now);
  }

  /** After a boundary only what is in force is left, and the answer is whether that is
      live control. */
  lemma BoundaryExactly(s: Auth, now: u64)
    requires Inv(s)
    ensures var (u, live) := ApplyResumeBoundary(s, now);
      && (live <==>
         Steady(s, now) && Observing(s, now) && Seeing(s, now) && s.lease.Some? && now < s.lease.value.until)
      && (Steady(s, now) ==> u == Survivors(Sampled(s, now), now))
      && (Steady(s, now) && u.lease.Some? ==>
         forall i :: 0 <= i < MAX_LIVE_TICKETS ==>
           var t := Sampled(s, now).lease.value.tickets[i];
           u.lease.value.tickets[i] == if t.Some? && t.value.expiresAt <= now then None else t)
      && (!Steady(s, now) ==> ClosedByClock(u))
  {
    hide CheckTime;
    ClockExactly(s, now);
    if Steady(s, now) {
      BoundarySplit(s, now);
      SampledAgain(Survivors(Sampled(s, now), now), now);
    }
  }

  lemma SurvivorsUntouched(t: Auth, now: u64)
    requires Inv(t)
    ensures Untouched(t, Survivors(t, now))
  {}

  lemma BoundaryUntouched(s: Auth, now: u64)
    requires Inv(s)
    ensures Untouched(s, Apply(s, CApplyResumeBoundary(now)))
  {
    hide CheckTime, Survivors;
    ClockExactly(s, now);
    CheckTimeKeeps(s, now);
    SampledUntouched(s, now);
    BoundaryExactly(s, now);
    if Steady(s, now) { SurvivorsUntouched(Sampled(s, now), now); }
  }

  lemma CallUntouched(s: Auth, c: Call)
    requires Inv(s) && !Renews(c)
    ensures Untouched(s, Apply(s, c))
  {
    hide Inv, Untouched, Apply;
    match c {
      case CAuthorizeDelivery(_) => SampleCallsUntouched(s, c);
      case CSubmissionDeadline(_, _, _) => SampleCallsUntouched(s, c);
      case CHasLiveControl(_) => SampleCallsUntouched(s, c);
      case CMarkViewReady(_) => ViewCallsUntouched(s, c);
      case CRequireViewEvidence(_) => ViewCallsUntouched(s, c);
      case CMarkViewReadyUntil(_, _) => ViewCallsUntouched(s, c);
      case CMarkPresentedReadyUntil(_, _, _) => ViewCallsUntouched(s, c);
      case CApplyResumeBoundary(now) => BoundaryUntouched(s, now);
      case _ => OtherCallsUntouched(s, c);
    }
  }

  lemma {:induction false} FreeSlotSound(ts: seq<Option<Ticket>>, now: u64, from: nat)
    requires from <= |ts|
    ensures var k := FreeSlot(ts, now, from);
      && from <= k <= |ts|
      && (k < |ts| ==> ts[k].None? || ts[k].value.expiresAt <= now)
      && (forall i :: from <= i < k ==> ts[i].Some? && now < ts[i].value.expiresAt)
    decreases |ts| - from
  {
    if from < |ts| { FreeSlotSound(ts, now, from + 1); }
  }

  /** Whether a number is in use, and whether a slot is left. */
  lemma TableExactly(s: Auth, ticket: u64, now: u64)
    requires s.lease.Some?
    ensures FindTicket(s.lease.value.tickets, ticket, 0).None? <==> forall t :: HasTicket(s, t) ==> t.id != ticket
    ensures FreeSlot(s.lease.value.tickets, now, 0) < MAX_LIVE_TICKETS <==>
      exists i :: 0 <= i < MAX_LIVE_TICKETS
        && (s.lease.value.tickets[i].None? || s.lease.value.tickets[i].value.expiresAt <= now)
  {
    var ts := s.lease.value.tickets;
    FindTicketSound(ts, ticket, 0);
    FreeSlotSound(ts, now, 0);
    assert ts[0..] == ts;
    var found := FindTicket(ts, ticket, 0);
    if found.Some? { assert HasTicket(s, found.value); }
  }

  /** A ticket is issued if and only if the view is seen, and was presented where that is
      asked for, under this lease in force, with a number that is not in use and a slot
      that is empty or expired. A refusal changes nothing. */
  lemma IssueExactly(s: Auth, lease: u64, ticket: u64, now: u64, presented: bool)
    requires Inv(s)
    ensures var (u, r) := IssueTicket(s, lease, ticket, now, presented);
      && (r.Ok? <==>
         && Steady(s, now) && Observing(s, now) && Seeing(s, now) && (presented ==> s.presented.Some?)
         && Leased(s, lease, now) && ticket != 0 && (forall t :: HasTicket(s, t) ==> t.id != ticket)
         && Lasts(now, s.policy.ticketLifetime)
         && exists i :: 0 <= i < MAX_LIVE_TICKETS
              && (s.lease.value.tickets[i].None? || s.lease.value.tickets[i].value.expiresAt <= now))
      && (r.Err? && Steady(s, now) ==> u == Sampled(s, now))
  {
    hide Enter, FindTicket, FreeSlot, HasTicket;
    EnterExactly(s, now);
    if s.lease.Some? { TableExactly(s, ticket, now); }
  }

  /** A ticket lasts one ticket lifetime, but never longer than lease and observation;
      every other ticket in force stays. */
  lemma IssueEffect(s: Auth, lease: u64, ticket: u64, now: u64, presented: bool)
    requires Inv(s) && IssueTicket(s, lease, ticket, now, presented).1.Ok?
    ensures var (u, r) := IssueTicket(s, lease, ticket, now, presented);
      && r.value == Min(Min(now + s.policy.ticketLifetime, s.lease.value.until), s.observationUntil.value)
      && u.lease.Some? && HasTicket(u, Ticket(ticket, r.value))
      && (forall t :: HasTicket(s, t) && now < t.expiresAt ==> HasTicket(u, t))
      && (forall t :: HasTicket(u, t) ==> HasTicket(s, t) || t == Ticket(ticket, r.value))
      && u == Sampled(s, now).(lease := Some(s.lease.value.(tickets := u.lease.value.tickets)))
  {
    hide Enter, FindTicket, FreeSlot;
    EnterExactly(s, now);
    var ts := s.lease.value.tickets;
    FreeSlotSound(ts, now, 0);
    var (u, r) := IssueTicket(s, lease, ticket, now, presented);
    var k, us := FreeSlot(ts, now, 0), u.lease.value.tickets;
    assert us[k] == Some(Ticket(ticket, r.value));
    forall t | HasTicket(s, t) && now < t.expiresAt ensures HasTicket(u, t) {
      var i :| 0 <= i < |ts| && ts[i] == Some(t);
      assert us[i] == ts[i];
    }
  }

  lemma PutApart(ts: Slots, k: nat, t: Ticket)
    requires Apart(ts) && k < MAX_LIVE_TICKETS && FindTicket(ts, t.id, 0).None?
    ensures Apart(ts[k := Some(t)])
  {
    hide FindTicket;
    FindTicketSound(ts, t.id, 0);
  }

  lemma IssueDistinct(s: Auth, c: Call)
    requires Inv(s) && Distinct(s) && c.CIssueTicket?
    ensures Distinct(Apply(s, c))
  {
    hide CheckTime, FindTicket, FreeSlot, Apart, Inv;
    var t := CheckTime(s, c.now).0;
    SampledUntouched(s, c.now);
    KeptDistinct(s, t);
    var r := IssueTicket(s, c.lease, c.ticket, c.now, c.requirePresented).1;
    if r.Ok? {
      PutApart(t.lease.value.tickets, FreeSlot(t.lease.value.tickets, c.now, 0), Ticket(c.ticket, r.value));
    }
  }

  lemma KeptDistinct(s: Auth, u: Auth)
    requires Distinct(s) && (SlotsKept(s, u) || NoTickets(u))
    ensures Distinct(u)
  {}

  /** A renewal touches no slot; a new lease starts without tickets. */
  lemma RenewalSlots(s: Auth, c: Call)
    requires Inv(s) && Renews(c) && !c.CIssueTicket?
    ensures SlotsKept(s, Apply(s, c)) || NoTickets(Apply(s, c))
  {
    SampledUntouched(s, c.now);
    hide CheckTime, Inv;
  }

  lemma CallDistinct(s: Auth, c: Call)
    requires Inv(s) && Distinct(s)
    ensures Distinct(Apply(s, c))
  {
    hide Inv, Apply, Distinct, SlotsKept, NoTickets;
    if c.CIssueTicket? {
      IssueDistinct(s, c);
    } else {
      if Renews(c) { RenewalSlots(s, c); } else { CallUntouched(s, c); }
      KeptDistinct(s, Apply(s, c));
    }
  }

  lemma {:induction false} ReachableDistinct(policy: Policy, calls: seq<Call>, n: nat)
    requires n <= |calls|
    ensures Inv(After(New(policy), calls, n)) && Distinct(After(New(policy), calls, n))
  {
    hide Apply, Inv;
    ReachableKeeps(policy, calls, n);
    if n > 0 {
      ReachableDistinct(policy, calls, n - 1);
      CallDistinct(After(New(policy), calls, n - 1), calls[n - 1]);
    }
  }

  /** A native effect is allowed if and only if the view is seen under this lease and the
      named ticket is in force; it is allowed until the ticket or the view ends, whichever
      comes first. */
  lemma SubmissionExactly(s: Auth, lease: u64, ticket: u64, now: u64)
    requires Inv(s) && Distinct(s)
    ensures var (u, r) := SubmissionDeadline(s, lease, ticket, now);
      && (r.Ok? <==>
         && Steady(s, now) && Seeing(s, now) && LeaseId(s) == Some(lease)
         && exists t :: HasTicket(s, t) && t.id == ticket && now < t.expiresAt)
      && (forall t :: r.Ok? && HasTicket(s, t) && t.id == ticket ==>
         r.value == if s.viewUntil.Some? then Min(t.expiresAt, s.viewUntil.value) else t.expiresAt)
      && (Steady(s, now) ==> u == Sampled(s, now))
      && (AuthorizeSubmission(s, lease, ticket, now).1.Ok? <==> r.Ok?)
      && AuthorizeSubmission(s, lease, ticket, now).0 == u
  {
    hide CheckTime, FindTicket;
    ClockExactly(s, now);
    if Steady(s, now) && Seeing(s, now) && s.lease.Some? {
      var ts := s.lease.value.tickets;
      FindTicketSound(ts, ticket, 0);
      assert ts[0..] == ts;
      FoundIsTheOne(s, ticket);
    }
  }

  lemma FoundIsTheOne(s: Auth, ticket: u64)
    requires Inv(s) && Distinct(s) && s.lease.Some?
    ensures var found := FindTicket(s.lease.value.tickets, ticket, 0);
      && (found.Some? ==> HasTicket(s, found.value) && TicketInv(s, found.value))
      && (forall t :: HasTicket(s, t) && t.id == ticket ==> found == Some(t))
  {
    hide FindTicket;
    var ts := s.lease.value.tickets;
    FindTicketSound(ts, ticket, 0);
    assert ts[0..] == ts;
  }
}
