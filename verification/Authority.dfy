/** The session authority as a value: every transition of the policy owner that
    media, renewal and native input share behind one lock. A transition returns
    the next state together with what its caller is told. */
module Authority {
  import opened Common

  datatype Phase =
    | Identified | CapabilitiesChecked | WaitingApproval | ViewOpening | Viewing | Refused | Closed

  datatype AuthorityError =
    | InvalidState(phase: Phase)
    | ObservationExpired | NoLease | StaleLease | LeaseExpired | ViewUnready
    | ControllerBusy | ControllerCleanupRequired
    | TicketInvalid | TicketExpired | TicketCapacity
    | ChallengeMismatch | ChallengePending | ChallengeExpired
    | ClockRegression | DeadlineOverflow | ReleasePending | StaleGeneration

  datatype Readiness = Unready | Ready | Stale

  datatype ControlStatus =
    | Live(until: u64)
    | Suspended(until: u64, released: bool)

  datatype Policy = Policy(authorizationLifetime: u64, ticketLifetime: u64)
  datatype Suspension = Suspension(since: u64, released: bool)
  datatype Challenge = Challenge(nonce: nat, deadline: u64)
  datatype Ticket = Ticket(id: u64, expiresAt: u64)

  const MAX_VIEW_SUSPENSION: u64 := 10_000_000
  const MAX_LIVE_TICKETS: nat := 8

  /** The fixed ticket table of a lease. */
  type Slots = ts: seq<Option<Ticket>> | |ts| == MAX_LIVE_TICKETS
    witness [None, None, None, None, None, None, None, None]

  const NO_TICKETS: Slots := [None, None, None, None, None, None, None, None]

  datatype Lease = Lease(id: u64, until: u64, tickets: Slots)

  /** `owners` counts the native owner identities handed out so far: an owner
      token is compared by identity in the program, so tokens are never reused. */
  datatype Auth = Auth(
    policy: Policy,
    phase: Phase,
    observationUntil: Option<u64>,
    readiness: Readiness,
    viewUntil: Option<u64>,
    presented: Option<u64>,
    boundedView: bool,
    lease: Option<Lease>,
    suspension: Option<Suspension>,
    recovery: Option<u64>,
    nativeOwner: Option<nat>,
    owners: nat,
    observationChallenge: Option<Challenge>,
    controlChallenge: Option<Challenge>,
    lastChecked: Option<u64>,
    clockFaulted: bool)

  type Reply<+T> = Result<T, AuthorityError>

  function New(policy: Policy): (r: Auth) {
    Auth(policy, Identified, None, Unready, None, None, false, None, None, None, None, 0, None, None, None, false)
  }

  // ---------------------------------------------------------------- helpers

  function ClearAuthority(s: Auth): (r: Auth) {
    s.(observationUntil := None, readiness := Unready, viewUntil := None, presented := None,
       lease := None, suspension := None, nativeOwner := None,
       observationChallenge := None, controlChallenge := None)
  }

  function DropObservation(s: Auth): (r: Auth) {
    ClearAuthority(s).(phase := if s.phase in {ViewOpening, Viewing} then CapabilitiesChecked else s.phase)
  }

  function Close(s: Auth): (r: Auth) {
    ClearAuthority(s).(phase := Closed)
  }

  function Refuse(s: Auth): (r: Auth) {
    ClearAuthority(s).(phase := Refused)
  }

  function DropTickets(lease: Option<Lease>): (r: Option<Lease>) {
    match lease
    case None => None
    case Some(l) => Some(l.(tickets := NO_TICKETS))
  }

  /** The view stopped being trustworthy at `at`. */
  function LapseView(s: Auth, at: u64): (r: Auth) {
    var wasReady := s.readiness == Ready;
    s.(viewUntil := None, presented := None,
       readiness := if wasReady then Stale else s.readiness,
       suspension := if wasReady && s.boundedView && s.lease.Some? && s.suspension.None?
                     then Some(Suspension(at, false)) else s.suspension,
       lease := DropTickets(s.lease))
  }

  predicate ViewPassed(s: Auth, now: u64) {
    s.viewUntil.Some? && now >= s.viewUntil.value
  }

  predicate Regresses(s: Auth, now: u64) {
    s.clockFaulted || (s.lastChecked.Some? && now < s.lastChecked.value)
  }

  /** A regressing sample fences the session for good; any other sample becomes
      the high-water mark and lapses a view whose deadline it reached. */
  function CheckTime(s: Auth, now: u64): (r: (Auth, bool)) {
    if Regresses(s, now) then (Close(s.(clockFaulted := true)), false)
    else
      var t := s.(lastChecked := Some(now));
      (if ViewPassed(t, now) then LapseView(t, t.viewUntil.value) else t, true)
  }

  function ObservationFault(s: Auth, now: u64): (r: Option<AuthorityError>) {
    if s.phase !in {ViewOpening, Viewing} then Some(InvalidState(s.phase))
    else if s.observationUntil.Some? && now < s.observationUntil.value then None
    else Some(ObservationExpired)
  }

  /** The clock check followed by the observation check, as most calls begin. */
  function Enter(s: Auth, now: u64): (r: (Auth, Option<AuthorityError>)) {
    var (t, ok) := CheckTime(s, now);
    (t, if ok then ObservationFault(t, now) else Some(ClockRegression))
  }

  function DeadlineFrom(now: u64, lifetime: u64): (r: Option<u64>) {
    if lifetime == 0 then None else CheckedAdd(now, lifetime)
  }

  function SerializedTime(s: Auth, sampled: u64): (r: u64) {
    if s.lastChecked.Some? && s.lastChecked.value > sampled then s.lastChecked.value else sampled
  }

  function LeaseId(s: Auth): (r: Option<u64>) {
    if s.lease.Some? then Some(s.lease.value.id) else None
  }

  function FindTicket(ts: seq<Option<Ticket>>, id: u64, from: nat): (r: Option<Ticket>)
    requires from <= |ts|
    decreases |ts| - from
  {
    if from == |ts| then None
    else if ts[from].Some? && ts[from].value.id == id then ts[from]
    else FindTicket(ts, id, from + 1)
  }

  /** First slot that is empty or whose ticket has already expired. */
  function FreeSlot(ts: seq<Option<Ticket>>, now: u64, from: nat): (k: nat)
    requires from <= |ts|
    decreases |ts| - from
  {
    if from == |ts| then from
    else if ts[from].None? || now >= ts[from].value.expiresAt then from
    else FreeSlot(ts, now, from + 1)
  }

  function LiveTickets(ts: Slots, now: u64): (r: Slots) {
    seq(MAX_LIVE_TICKETS, i requires 0 <= i < MAX_LIVE_TICKETS =>
      if ts[i].Some? && now >= ts[i].value.expiresAt then None else ts[i])
  }

  // ------------------------------------------------------------ transitions

  function MarkCapabilitiesChecked(s: Auth): (r: (Auth, Reply<()>)) {
    if s.phase != Identified then (s, Err(InvalidState(s.phase)))
    else (s.(phase := CapabilitiesChecked), Ok(()))
  }

  function RequireApproval(s: Auth): (r: (Auth, Reply<()>)) {
    if s.phase != CapabilitiesChecked then (s, Err(InvalidState(s.phase)))
    else (s.(phase := WaitingApproval), Ok(()))
  }

  function AuthorizeObservation(s: Auth, now: u64): (r: (Auth, Reply<()>)) {
    var (t, ok) := CheckTime(s, now);
    if !ok then (t, Err(ClockRegression))
    else if t.phase !in {CapabilitiesChecked, WaitingApproval} then (t, Err(InvalidState(t.phase)))
    else
      match DeadlineFrom(now, t.policy.authorizationLifetime)
      case None => (t, Err(DeadlineOverflow))
      case Some(until) =>
        (ClearAuthority(t).(observationUntil := Some(until), phase := ViewOpening), Ok(()))
  }

  function AuthorizeDelivery(s: Auth, now: u64): (r: (Auth, Reply<()>)) {
    var (t, fault) := Enter(s, now);
    (t, if fault.Some? then Err(fault.value) else Ok(()))
  }

  function MarkViewReady(s: Auth, now: u64): (r: (Auth, Reply<()>)) {
    var (t, fault) := Enter(s.(presented := None), now);
    if fault.Some? then (t, Err(fault.value))
    else if t.boundedView then (t, Err(ViewUnready))
    else (t.(phase := Viewing, readiness := Ready), Ok(()))
  }

  function MarkViewStale(s: Auth): (r: Auth) {
    LapseView(s, if s.lastChecked.Some? then s.lastChecked.value else 0)
  }

  function RequireViewEvidence(s: Auth, now: u64): (r: (Auth, Reply<()>)) {
    var (t, fault) := Enter(s, now);
    if fault.Some? then (t, Err(fault.value))
    else if t.lease.Some? && !t.boundedView then (t, Err(ControllerBusy))
    else (MarkViewStale(t.(boundedView := true)), Ok(()))
  }

  function SuspensionLimit(sp: Suspension): (r: Option<u64>) {
    CheckedAdd(sp.since, MAX_VIEW_SUSPENSION)
  }

  /** Why a suspension, if any, still refuses fresh readiness at `now`. The
      last case is the defensive refusal for a view that is stale under a lease
      without a suspension. */
  function ResumeFault(t: Auth, now: u64): (r: Option<AuthorityError>) {
    match t.suspension
    case Some(sp) =>
      (match SuspensionLimit(sp)
       case None => Some(DeadlineOverflow)
       case Some(limit) =>
         if now >= limit then Some(ViewUnready)
         else if !sp.released then Some(ReleasePending)
         else None)
    case None =>
      if t.boundedView && t.readiness != Ready && t.lease.Some? then Some(ViewUnready) else None
  }

  function MarkViewReadyUntil(s: Auth, until: u64, now: u64): (r: (Auth, Reply<()>)) {
    var (t, fault) := Enter(s.(presented := None), now);
    if fault.Some? then (t, Err(fault.value))
    else if until <= now then (t, Err(ViewUnready))
    else
      match ResumeFault(t, now)
      case Some(e) => (t, Err(e))
      case None =>
        if t.viewUntil.Some? && until < t.viewUntil.value then (t, Err(ViewUnready))
        else (t.(suspension := None, boundedView := true, viewUntil := Some(until),
                 phase := Viewing, readiness := Ready), Ok(()))
  }

  function MarkPresentedReadyUntil(s: Auth, sequence: u64, until: u64, now: u64): (r: (Auth, Reply<()>)) {
    var (t, r) := MarkViewReadyUntil(s, until, now);
    (if r.Ok? then t.(presented := Some(sequence)) else t, r)
  }

  function AdvanceRecovery(s: Auth, generation: u64): (r: (Auth, Reply<()>)) {
    if s.readiness == Ready then (s, Err(InvalidState(s.phase)))
    else if s.recovery.Some? && generation <= s.recovery.value then (s, Err(StaleGeneration))
    else (s.(recovery := Some(generation), presented := None, lease := DropTickets(s.lease)), Ok(()))
  }

  function ConfirmSuspensionRelease(s: Auth, leaseId: u64): (r: (Auth, Reply<()>)) {
    if LeaseId(s) != Some(leaseId) then (s, Err(StaleLease))
    else if s.suspension.None? then (s, Ok(()))
    else (s.(suspension := Some(s.suspension.value.(released := true))), Ok(()))
  }

  /** What a monitor of `owner`'s lease does: the confirmation only reaches the
      policy while this lease and this very owner are still installed. */
  function ConfirmAs(s: Auth, owner: nat, leaseId: u64): (r: (Auth, Reply<()>)) {
    if LeaseId(s) != Some(leaseId) || s.nativeOwner != Some(owner) then (s, Err(StaleLease))
    else ConfirmSuspensionRelease(s, leaseId)
  }

  function StatusOf(t: Auth, now: u64): (r: Reply<ControlStatus>) {
    var fault := ObservationFault(t, now);
    if fault.Some? then Err(fault.value)
    else if t.lease.None? then Err(NoLease)
    else if t.observationUntil.None? then Err(ObservationExpired)
    else
      var leaseUntil := Min(t.lease.value.until, t.observationUntil.value);
      if now >= leaseUntil then Err(LeaseExpired)
      else if t.phase == Viewing && t.readiness == Ready then
        Ok(Live(if t.viewUntil.Some? then Min(leaseUntil, t.viewUntil.value) else leaseUntil))
      else if t.suspension.None? then Err(ViewUnready)
      else
        match SuspensionLimit(t.suspension.value)
        case None => Err(DeadlineOverflow)
        case Some(limit) =>
          if now >= limit then Err(ViewUnready)
          else Ok(Suspended(Min(leaseUntil, limit), t.suspension.value.released))
  }

  /** Live or suspended control. A passed view deadline lapses the view, but the
      checked-clock high-water mark never moves here. */
  function ReadControlStatus(s: Auth, sampled: u64): (r: (Auth, Reply<ControlStatus>)) {
    if s.clockFaulted then (s, Err(ClockRegression))
    else
      var now := SerializedTime(s, sampled);
      var t := if ViewPassed(s, now) then LapseView(s, s.viewUntil.value) else s;
      (t, StatusOf(t, now))
  }

  predicate ChallengeSlotBusy(c: Option<Challenge>, now: u64) {
    c.Some? && now < c.value.deadline
  }

  /** A matching answer empties the slot even when it arrives too late. */
  function ConsumeChallenge(c: Option<Challenge>, nonce: nat, now: u64): (r: (Option<Challenge>, Reply<u64>)) {
    if c.None? || c.value.nonce != nonce then (c, Err(ChallengeMismatch))
    else if now >= c.value.deadline then (None, Err(ChallengeExpired))
    else (None, Ok(c.value.deadline))
  }

  function IssueObservationChallenge(s: Auth, nonce: nat, now: u64): (r: (Auth, Reply<u64>)) {
    var (t, fault) := Enter(s, now);
    if fault.Some? then (t, Err(fault.value))
    else if ChallengeSlotBusy(t.observationChallenge, now) then (t, Err(ChallengePending))
    else
      match DeadlineFrom(now, t.policy.authorizationLifetime)
      case None => (t, Err(DeadlineOverflow))
      case Some(d) => (t.(observationChallenge := Some(Challenge(nonce, d))), Ok(d))
  }

  function RespondObservationChallenge(s: Auth, nonce: nat, now: u64): (r: (Auth, Reply<u64>)) {
    var (t, fault) := Enter(s, now);
    if fault.Some? then (t, Err(fault.value))
    else
      var (slot, r) := ConsumeChallenge(t.observationChallenge, nonce, now);
      var u := t.(observationChallenge := slot);
      (if r.Ok? then u.(observationUntil := Some(r.value)) else u, r)
  }

  function GrantLease(s: Auth, leaseId: u64, now: u64): (r: (Auth, Reply<()>)) {
    var (t, fault) := Enter(s, now);
    if fault.Some? then (t, Err(fault.value))
    else if t.phase != Viewing then (t, Err(InvalidState(t.phase)))
    else if t.readiness != Ready then (t, Err(ViewUnready))
    else if t.lease.Some? then
      (t, Err(if now < t.lease.value.until then ControllerBusy else ControllerCleanupRequired))
    else
      match DeadlineFrom(now, t.policy.authorizationLifetime)
      case None => (t, Err(DeadlineOverflow))
      case Some(d) =>
        (t.(lease := Some(Lease(leaseId, d, NO_TICKETS)), controlChallenge := None), Ok(()))
  }

  function IssueControlChallenge(s: Auth, nonce: nat, now: u64): (r: (Auth, Reply<u64>)) {
    var (t, fault) := Enter(s, now);
    if fault.Some? then (t, Err(fault.value))
    else if t.lease.None? then (t, Err(NoLease))
    else if now >= t.lease.value.until then (t, Err(LeaseExpired))
    else if ChallengeSlotBusy(t.controlChallenge, now) then (t, Err(ChallengePending))
    else
      match DeadlineFrom(now, t.policy.authorizationLifetime)
      case None => (t, Err(DeadlineOverflow))
      case Some(d) => (t.(controlChallenge := Some(Challenge(nonce, d))), Ok(d))
  }

  function RespondControlChallenge(s: Auth, leaseId: u64, nonce: nat, now: u64): (r: (Auth, Reply<u64>)) {
    var (t, fault) := Enter(s, now);
    if fault.Some? then (t, Err(fault.value))
    else if t.lease.None? then (t, Err(NoLease))
    else if t.lease.value.id != leaseId then (t, Err(StaleLease))
    else if now >= t.lease.value.until then (t.(controlChallenge := None), Err(LeaseExpired))
    else
      var (slot, r) := ConsumeChallenge(t.controlChallenge, nonce, now);
      var u := t.(controlChallenge := slot);
      (if r.Ok? then u.(lease := Some(t.lease.value.(until := r.value))) else u, r)
  }

  function IssueTicket(s: Auth, leaseId: u64, ticketId: u64, now: u64,
                       requirePresented: bool): (r: (Auth, Reply<u64>)) {
    var (t, fault) := Enter(s, now);
    if fault.Some? then (t, Err(fault.value))
    else if t.readiness != Ready || (requirePresented && t.presented.None?) then (t, Err(ViewUnready))
    else if t.lease.None? then (t, Err(NoLease))
    else
      var lease := t.lease.value;
      if lease.id != leaseId then (t, Err(StaleLease))
      else if now >= lease.until then (t, Err(LeaseExpired))
      else if ticketId == 0 || FindTicket(lease.tickets, ticketId, 0).Some? then (t, Err(TicketInvalid))
      else
        match DeadlineFrom(now, t.policy.ticketLifetime)
        case None => (t, Err(DeadlineOverflow))
        case Some(uncapped) =>
          if t.observationUntil.None? then (t, Err(ObservationExpired))
          else
            var expires := Min(Min(uncapped, lease.until), t.observationUntil.value);
            var k := FreeSlot(lease.tickets, now, 0);
            if k >= MAX_LIVE_TICKETS then (t, Err(TicketCapacity))
            else (t.(lease := Some(lease.(tickets := lease.tickets[k := Some(Ticket(ticketId, expires))]))),
              Ok(expires))
  }

  function InvalidateTickets(s: Auth, leaseId: u64): (r: (Auth, Reply<()>)) {
    if s.lease.None? then (s, Err(NoLease))
    else if s.lease.value.id != leaseId then (s, Err(StaleLease))
    else (s.(lease := DropTickets(s.lease)), Ok(()))
  }

  function SubmissionFault(t: Auth, leaseId: u64, ticketId: u64, now: u64): (r: Option<AuthorityError>) {
    if t.phase != Viewing then Some(InvalidState(t.phase))
    else if ObservationFault(t, now).Some? then ObservationFault(t, now)
    else if t.readiness != Ready then Some(ViewUnready)
    else if t.lease.None? then Some(NoLease)
    else if t.lease.value.id != leaseId then Some(StaleLease)
    else if now >= t.lease.value.until then Some(LeaseExpired)
    else
      match FindTicket(t.lease.value.tickets, ticketId, 0)
      case None => Some(TicketInvalid)
      case Some(ticket) => if now >= ticket.expiresAt then Some(TicketExpired) else None
  }

  function AuthorizeSubmission(s: Auth, leaseId: u64, ticketId: u64, now: u64): (r: (Auth, Reply<()>)) {
    var (t, ok) := CheckTime(s, now);
    if !ok then (t, Err(ClockRegression))
    else
      match SubmissionFault(t, leaseId, ticketId, now)
      case Some(e) => (t, Err(e))
      case None => (t, Ok(()))
  }

  /** The earliest of the ticket, lease, observation and bounded-view deadlines. */
  function SubmissionDeadline(s: Auth, leaseId: u64, ticketId: u64, now: u64): (r: (Auth, Reply<u64>)) {
    var (t, r) := AuthorizeSubmission(s, leaseId, ticketId, now);
    if r.Err? then (t, Err(r.error))
    else
      var ticket := FindTicket(t.lease.value.tickets, ticketId, 0);
      var until := Min(Min(ticket.value.expiresAt, t.lease.value.until), t.observationUntil.value);
      (t, Ok(if t.viewUntil.Some? then Min(until, t.viewUntil.value) else until))
  }

  function RevokeLease(s: Auth): (r: Auth) {
    s.(lease := None, suspension := None, nativeOwner := None, controlChallenge := None, presented := None)
  }

  function HasLiveControl(s: Auth, now: u64): (r: (Auth, bool)) {
    var (t, fault) := Enter(s, now);
    (t, fault.None? && t.phase == Viewing && t.readiness == Ready && t.lease.Some? && now < t.lease.value.until)
  }

  function ExpireChallenge(c: Option<Challenge>, now: u64): (r: Option<Challenge>) {
    if c.Some? && now >= c.value.deadline then None else c
  }

  function ApplyResumeBoundary(s: Auth, now: u64): (r: (Auth, bool)) {
    var (t, ok) := CheckTime(s, now);
    if !ok then (t, false)
    else
      var u := if t.observationUntil.Some? && now >= t.observationUntil.value then DropObservation(t) else t;
      var v := u.(observationChallenge := ExpireChallenge(u.observationChallenge, now),
                  controlChallenge := ExpireChallenge(u.controlChallenge, now));
      var w := if v.lease.Some? && now >= v.lease.value.until then RevokeLease(v) else v;
      var x := if w.lease.Some?
               then w.(lease := Some(w.lease.value.(tickets := LiveTickets(w.lease.value.tickets, now))))
               else w;
      HasLiveControl(x, now)
  }

  function ClaimNativeOwner(s: Auth, leaseId: u64): (r: (Auth, Reply<nat>)) {
    if LeaseId(s) != Some(leaseId) then (s, Err(StaleLease))
    else if s.nativeOwner.Some? then (s, Err(ControllerBusy))
    else (s.(nativeOwner := Some(s.owners), owners := s.owners + 1), Ok(s.owners))
  }

  // ------------------------------------------------------------------- runs

  /** One call under the policy lock, by whichever participant holds it. */
  datatype Call =
    | CMarkCapabilitiesChecked
    | CRequireApproval
    | CAuthorizeObservation(now: u64)
    | CAuthorizeDelivery(now: u64)
    | CMarkViewReady(now: u64)
    | CRequireViewEvidence(now: u64)
    | CMarkViewReadyUntil(until: u64, now: u64)
    | CMarkPresentedReadyUntil(sequence: u64, until: u64, now: u64)
    | CMarkViewStale
    | CAdvanceRecovery(generation: u64)
    | CConfirmSuspensionRelease(lease: u64)
    | CConfirmAs(owner: nat, lease: u64)
    | CReadControlStatus(now: u64)
    | CIssueObservationChallenge(nonce: nat, now: u64)
    | CRespondObservationChallenge(nonce: nat, now: u64)
    | CGrantLease(lease: u64, now: u64)
    | CIssueControlChallenge(nonce: nat, now: u64)
    | CRespondControlChallenge(lease: u64, nonce: nat, now: u64)
    | CIssueTicket(lease: u64, ticket: u64, now: u64, requirePresented: bool)
    | CInvalidateTickets(lease: u64)
    | CSubmissionDeadline(lease: u64, ticket: u64, now: u64)
    | CRevokeLease
    | CHasLiveControl(now: u64)
    | CApplyResumeBoundary(now: u64)
    | CInvalidateForSuspend
    | CClose
    | CRefuse
    | CClaimNativeOwner(lease: u64)

  function Apply(s: Auth, c: Call): (r: Auth) {
    match c
    case CMarkCapabilitiesChecked => MarkCapabilitiesChecked(s).0
    case CRequireApproval => RequireApproval(s).0
    case CAuthorizeObservation(now) => AuthorizeObservation(s, now).0
    case CAuthorizeDelivery(now) => AuthorizeDelivery(s, now).0
    case CMarkViewReady(now) => MarkViewReady(s, now).0
    case CRequireViewEvidence(now) => RequireViewEvidence(s, now).0
    case CMarkViewReadyUntil(until, now) => MarkViewReadyUntil(s, until, now).0
    case CMarkPresentedReadyUntil(q, until, now) => MarkPresentedReadyUntil(s, q, until, now).0
    case CMarkViewStale => MarkViewStale(s)
    case CAdvanceRecovery(g) => AdvanceRecovery(s, g).0
    case CConfirmSuspensionRelease(lease) => ConfirmSuspensionRelease(s, lease).0
    case CConfirmAs(owner, lease) => ConfirmAs(s, owner, lease).0
    case CReadControlStatus(now) => ReadControlStatus(s, now).0
    case CIssueObservationChallenge(nonce, now) => IssueObservationChallenge(s, nonce, now).0
    case CRespondObservationChallenge(nonce, now) => RespondObservationChallenge(s, nonce, now).0
    case CGrantLease(lease, now) => GrantLease(s, lease, now).0
    case CIssueControlChallenge(nonce, now) => IssueControlChallenge(s, nonce, now).0
    case CRespondControlChallenge(lease, nonce, now) => RespondControlChallenge(s, lease, nonce, now).0
    case CIssueTicket(lease, ticket, now, p) => IssueTicket(s, lease, ticket, now, p).0
    case CInvalidateTickets(lease) => InvalidateTickets(s, lease).0
    case CSubmissionDeadline(lease, ticket, now) => SubmissionDeadline(s, lease, ticket, now).0
    case CRevokeLease => RevokeLease(s)
    case CHasLiveControl(now) => HasLiveControl(s, now).0
    case CApplyResumeBoundary(now) => ApplyResumeBoundary(s, now).0
    case CInvalidateForSuspend => DropObservation(s)
    case CClose => Close(s)
    case CRefuse => Refuse(s)
    case CClaimNativeOwner(lease) => ClaimNativeOwner(s, lease).0
  }

  /** The state after the first `n` calls of a run. */
  function After(s: Auth, calls: seq<Call>, n: nat): (r: Auth)
    requires n <= |calls|
  {
    if n == 0 then s else Apply(After(s, calls, n - 1), calls[n - 1])
  }

  function ApplyAll(s: Auth, calls: seq<Call>): (r: Auth) {
    After(s, calls, |calls|)
  }
}
