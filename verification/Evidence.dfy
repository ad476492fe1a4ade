/** What the authority's own runs say about the view of one grant: when it is ready,
    how often it was lost, and which report it rests on. */
module Evidence {
  import opened Common
  import opened Authority
  import opened AuthorityProofs

  /** The view is lost: it is marked stale, or it was ready and no longer is. Every
      ticket issued before is void. */
  predicate Loses(s: Auth, c: Call) {
    c.CMarkViewStale? || (s.readiness == Ready && Apply(s, c).readiness != Ready)
  }

  /** How often the view was lost in the first `n` calls. */
  function Epoch(policy: Policy, calls: seq<Call>, n: nat): (epoch: nat)
    requires n <= |calls|
  {
    if n == 0 then 0
    else Epoch(policy, calls, n - 1) + if Loses(After(New(policy), calls, n - 1), calls[n - 1]) then 1 else 0
  }

  lemma {:induction false} EpochPrefix(policy: Policy, calls: seq<Call>, more: seq<Call>, n: nat)
    requires n <= |calls|
    ensures Epoch(policy, calls + more, n) == Epoch(policy, calls, n)
  {
    hide Apply;
    if n > 0 {
      EpochPrefix(policy, calls, more, n - 1);
      AfterPrefix(New(policy), calls, more, n - 1);
    }
  }

  lemma {:induction false} EpochStays(policy: Policy, calls: seq<Call>, i: nat, n: nat)
    requires i < n <= |calls| && calls[i].CIssueTicket?
    requires forall m :: i < m < n ==> !Fences(After(New(policy), calls, m), calls[m])
    requires forall m :: i < m <= n ==> After(New(policy), calls, m).readiness == Ready
    ensures Epoch(policy, calls, n) == Epoch(policy, calls, i)
  {
    hide Apply;
    if n > i + 1 { EpochStays(policy, calls, i, n - 1); }
    assert After(New(policy), calls, n) == Apply(After(New(policy), calls, n - 1), calls[n - 1]);
  }

  // ------------------------------------------------------------- the view of a call

  /** The calls that make a view ready. */
  predicate Readies(c: Call) { c.CMarkViewReady? || c.CMarkViewReadyUntil? || c.CMarkPresentedReadyUntil? }

  /** A view that is ready afterwards was ready before, on the same report. */
  predicate KeepsView(s: Auth, u: Auth) {
    u.lease.Some? && u.readiness == Ready ==> s.readiness == Ready && u.presented == s.presented
  }

  lemma CheckTimeView(s: Auth, now: u64)
    ensures var t := CheckTime(s, now).0; t.readiness == Ready ==> s.readiness == Ready && t.presented == s.presented
    ensures s.presented.None? ==> CheckTime(s, now).0.presented.None?
    ensures s.lease.None? ==> CheckTime(s, now).0.lease.None?
  {}

  /** No other call makes the view ready, or changes the report it rests on. */
  lemma ViewCall(s: Auth, c: Call)
    requires !Readies(c)
    ensures KeepsView(s, Apply(s, c))
  {
    hide CheckTime, ObservationFault, FindTicket, FreeSlot, LiveTickets, ConsumeChallenge, StatusOf, SubmissionFault;
    match c {
      case CAuthorizeObservation(now) => CheckTimeView(s, now);
      case CAuthorizeDelivery(now) => CheckTimeView(s, now);
      case CRequireViewEvidence(now) => CheckTimeView(s, now);
      case CIssueObservationChallenge(_, now) => CheckTimeView(s, now);
      case CRespondObservationChallenge(_, now) => CheckTimeView(s, now);
      case CGrantLease(_, now) => CheckTimeView(s, now);
      case CIssueControlChallenge(_, now) => CheckTimeView(s, now);
      case CRespondControlChallenge(_, _, now) => CheckTimeView(s, now);
      case CIssueTicket(_, _, now, _) => CheckTimeView(s, now);
      case CSubmissionDeadline(_, _, now) => CheckTimeView(s, now);
      case CHasLiveControl(now) => CheckTimeView(s, now);
      case CApplyResumeBoundary(now) => BoundaryView(s, now);
      case _ =>
    }
  }

  lemma BoundaryView(s: Auth, now: u64)
    ensures KeepsView(s, Apply(s, CApplyResumeBoundary(now)))
  {
    hide CheckTime, LiveTickets, ExpireChallenge;
    CheckTimeView(s, now);
    var (t, ok) := CheckTime(s, now);
    if ok {
      var u := if t.observationUntil.Some? && now >= t.observationUntil.value then DropObservation(t) else t;
      var v := u.(observationChallenge := ExpireChallenge(u.observationChallenge, now),
                  controlChallenge := ExpireChallenge(u.controlChallenge, now));
      var w := if v.lease.Some? && now >= v.lease.value.until then RevokeLease(v) else v;
      var x := if w.lease.None? then w
               else w.(lease := Some(w.lease.value.(tickets := LiveTickets(w.lease.value.tickets, now))));
      CheckTimeView(x, now);
    }
  }

  /** A report makes the view ready on itself, or leaves it resting on none. */
  lemma PresentedCall(s: Auth, sequence: u64, until: u64, now: u64)
    ensures var u := Apply(s, CMarkPresentedReadyUntil(sequence, until, now));
      && (u.presented == Some(sequence) ==> u.readiness == Ready)
      && (u.presented != Some(sequence) ==> u.presented.None? && (u.readiness == Ready ==> s.readiness == Ready))
  {
    hide CheckTime, ObservationFault;
    CheckTimeView(s.(presented := None), now);
  }
}
