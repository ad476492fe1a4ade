/** Where a renewed deadline comes from: over any run, a lease or an observation is
    extended only by the answer to the one open challenge that named the new deadline. */
module Renewal {
  import opened Common
  import opened Authority
  import opened AuthorityProofs
  import opened Decisions

  /** Each grant that can be renewed has its own challenges. */
  datatype Kind = Observation | Control

  function Deadline(s: Auth, kind: Kind): (r: Option<u64>) {
    match kind
    case Observation => s.observationUntil
    case Control => if s.lease.Some? then Some(s.lease.value.until) else None
  }

  function Open(s: Auth, kind: Kind): (r: Option<Challenge>) {
    match kind
    case Observation => s.observationChallenge
    case Control => s.controlChallenge
  }

  /** The call issues this challenge, and its caller is told the deadline. */
  predicate IssuesChallenge(s: Auth, c: Call, kind: Kind, challenge: Challenge) {
    match kind
    case Observation =>
      && c.CIssueObservationChallenge? && c.nonce == challenge.nonce
      && IssueObservationChallenge(s, c.nonce, c.now).1 == Ok(challenge.deadline)
    case Control =>
      && c.CIssueControlChallenge? && c.nonce == challenge.nonce
      && IssueControlChallenge(s, c.nonce, c.now).1 == Ok(challenge.deadline)
  }

  /** The call answers this challenge, before its deadline, for the installed lease. */
  predicate Answers(s: Auth, c: Call, kind: Kind, challenge: Challenge) {
    match kind
    case Observation => c.CRespondObservationChallenge? && c.nonce == challenge.nonce && c.now < challenge.deadline
    case Control =>
      && c.CRespondControlChallenge? && c.nonce == challenge.nonce && c.now < challenge.deadline
      && LeaseId(s) == Some(c.lease)
  }

  /** What one call does to a deadline and to the open challenge. */
  ghost predicate ChallengeFrame(s: Auth, c: Call, u: Auth, kind: Kind) {
    && (Open(u, kind).Some? ==> IssuesChallenge(s, c, kind, Open(u, kind).value) || Open(u, kind) == Open(s, kind))
    && (Open(u, kind).Some? ==> Deadline(s, kind).Some? && Deadline(u, kind).Some?)
    && (kind.Control? && Open(u, kind).Some? ==> LeaseId(u) == LeaseId(s))
    && (Deadline(s, kind).Some? && Deadline(u, kind).Some? && Deadline(u, kind) != Deadline(s, kind) ==>
         && Open(s, kind).Some? && Answers(s, c, kind, Open(s, kind).value)
         && Deadline(u, kind) == Some(Open(s, kind).value.deadline) && Open(u, kind).None?)
  }

  lemma UntouchedFrame(s: Auth, c: Call, kind: Kind)
    requires Inv(s) && !Renews(c)
    ensures ChallengeFrame(s, c, Apply(s, c), kind)
  {
    hide Apply;
    CallUntouched(s, c);
    ApplyKeeps(s, c);
  }

  lemma GrantFrame(s: Auth, c: Call, kind: Kind)
    requires Inv(s) && (c.CAuthorizeObservation? || c.CGrantLease? || c.CIssueTicket?)
    ensures ChallengeFrame(s, c, Apply(s, c), kind)
  {
    hide CheckTime;
    SampledUntouched(s, c.now);
    CheckTimeKeeps(s, c.now);
  }

  lemma IssueObservationFrame(s: Auth, c: Call, kind: Kind)
    requires Inv(s) && c.CIssueObservationChallenge?
    ensures ChallengeFrame(s, c, Apply(s, c), kind)
  {
    hide CheckTime;
    SampledUntouched(s, c.now);
    CheckTimeKeeps(s, c.now);
  }

  lemma RespondObservationFrame(s: Auth, c: Call, kind: Kind)
    requires Inv(s) && c.CRespondObservationChallenge?
    ensures ChallengeFrame(s, c, Apply(s, c), kind)
  {
    hide CheckTime;
    SampledUntouched(s, c.now);
    CheckTimeKeeps(s, c.now);
  }

  lemma IssueControlFrame(s: Auth, c: Call, kind: Kind)
    requires Inv(s) && c.CIssueControlChallenge?
    ensures ChallengeFrame(s, c, Apply(s, c), kind)
  {
    hide CheckTime;
    SampledUntouched(s, c.now);
    CheckTimeKeeps(s, c.now);
  }

  lemma RespondControlFrame(s: Auth, c: Call, kind: Kind)
    requires Inv(s) && c.CRespondControlChallenge?
    ensures ChallengeFrame(s, c, Apply(s, c), kind)
  {
    hide CheckTime;
    SampledUntouched(s, c.now);
    CheckTimeKeeps(s, c.now);
  }

  lemma CallFrame(s: Auth, c: Call, kind: Kind)
    requires Inv(s)
    ensures ChallengeFrame(s, c, Apply(s, c), kind)
  {
    hide Inv, ChallengeFrame, Apply;
    match c {
      case CAuthorizeObservation(_) => GrantFrame(s, c, kind);
      case CGrantLease(_, _) => GrantFrame(s, c, kind);
      case CIssueTicket(_, _, _, _) => GrantFrame(s, c, kind);
      case CIssueObservationChallenge(_, _) => IssueObservationFrame(s, c, kind);
      case CRespondObservationChallenge(_, _) => RespondObservationFrame(s, c, kind);
      case CIssueControlChallenge(_, _) => IssueControlFrame(s, c, kind);
      case CRespondControlChallenge(_, _, _) => RespondControlFrame(s, c, kind);
      case _ => UntouchedFrame(s, c, kind);
    }
  }

  /** The challenge was issued at call `i` and has been the open one in every state since:
      neither answered, nor replaced, nor dropped; a control challenge, for one lease. */
  ghost predicate OpenSince(policy: Policy, calls: seq<Call>, n: nat, kind: Kind, challenge: Challenge, i: nat)
    requires i < n <= |calls|
  {
    && IssuesChallenge(After(New(policy), calls, i), calls[i], kind, challenge)
    && (forall m :: i < m <= n ==> Open(After(New(policy), calls, m), kind) == Some(challenge))
    && (forall m :: i <= m <= n && kind.Control? ==>
         LeaseId(After(New(policy), calls, m)) == LeaseId(After(New(policy), calls, n)))
  }

  /** Every open challenge of every reachable state has an issuing call. */
  lemma {:induction false} ChallengeProvenance(policy: Policy, calls: seq<Call>, n: nat, kind: Kind,
      challenge: Challenge) returns (i: nat)
    requires n <= |calls| && Open(After(New(policy), calls, n), kind) == Some(challenge)
    ensures i < n && OpenSince(policy, calls, n, kind, challenge, i)
  {
    hide Apply, Inv, IssuesChallenge, Answers, LeaseId;
    var s := After(New(policy), calls, n - 1);
    ReachableKeeps(policy, calls, n - 1);
    CallFrame(s, calls[n - 1], kind);
    if IssuesChallenge(s, calls[n - 1], kind, challenge) {
      i := n - 1;
    } else {
      i := ChallengeProvenance(policy, calls, n - 1, kind, challenge);
    }
  }

  /** Over any run, both kinds: whenever a call changes the deadline of a grant that is
      held before and after it, that call answers, before its deadline and for the
      installed lease, the challenge that was open; an earlier call issued it with the same
      nonce and was told exactly the new deadline; and in between it stayed open all the
      time. The answer uses it up. */
  lemma RenewalHasProvenance(policy: Policy, calls: seq<Call>, n: nat, kind: Kind)
    returns (i: nat, challenge: Challenge)
    requires n < |calls|
    requires var s, u := After(New(policy), calls, n), After(New(policy), calls, n + 1);
      Deadline(s, kind).Some? && Deadline(u, kind).Some? && Deadline(s, kind) != Deadline(u, kind)
    ensures var s, u := After(New(policy), calls, n), After(New(policy), calls, n + 1);
      && i < n && OpenSince(policy, calls, n, kind, challenge, i)
      && Answers(s, calls[n], kind, challenge) && Deadline(u, kind) == Some(challenge.deadline)
      && Open(u, kind).None?
  {
    hide Apply, Inv, IssuesChallenge, Answers, LeaseId, OpenSince;
    var s := After(New(policy), calls, n);
    ReachableKeeps(policy, calls, n);
    CallFrame(s, calls[n], kind);
    challenge := Open(s, kind).value;
    i := ChallengeProvenance(policy, calls, n, kind, challenge);
  }
}
