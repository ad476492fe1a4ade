/** The host's half of the protocol as the authority's own calls move it: readiness only
    for reports, in their order, and tickets only for reports that were applied. */
module HostSide {
  import opened Common
  import opened Input
  import opened Authority
  import opened AuthorityProofs
  import opened Evidence
  import P = Agreement

  /** A lease on a view that is bounded by evidence. */
  predicate Granted(a: Auth) { a.lease.Some? && a.boundedView }

  function RestsOn(a: Auth): (report: Option<nat>) {
    if a.presented.Some? then Some(a.presented.value) else None
  }

  /** The host of this protocol state is ready, released and resting on a report as the
      authority is; `base` losses of the view came before the protocol began. */
  predicate Shows(a: Auth, epoch: nat, base: nat, s: P.State) {
    && Granted(a) && s.ready == (a.readiness == Ready) && s.epoch + base == epoch
    && (!s.ready ==> s.released == Released(a)) && s.presented == RestsOn(a)
  }

  /** The calls of this profile. A call made for a report is the one its verdict asks for;
      nothing else makes the view ready; tickets need an applied report; a release is
      confirmed only with nothing held; and the grant goes on. */
  predicate Allowed(a: Auth, call: Call, report: bool, applied: nat, reports: seq<bool>, held: Mirror) {
    && Granted(Apply(a, call)) && (call.CIssueTicket? ==> call.requirePresented)
    && (ConfirmsRelease(a, call) ==> held == NOTHING_HELD)
    && if report then
         && applied < |reports|
         && if reports[applied] then call.CMarkPresentedReadyUntil? && call.sequence == applied + 1
            else call.CMarkViewStale?
       else !Readies(call)
  }

  predicate Issued(a: Auth, call: Call) {
    call.CIssueTicket? && IssueTicket(a, call.lease, call.ticket, call.now, call.requirePresented).1.Ok?
  }

  /** The steps of the protocol one such call is. */
  function StepsOf(a: Auth, call: Call, report: bool): (steps: seq<P.Step>) {
    var u := Apply(a, call);
    if report then
      (if call.CMarkPresentedReadyUntil? && Loses(a, call) then [P.HostLapses] else [])
      + [P.HostTakesReport(u.presented.Some?)]
    else if Loses(a, call) then [P.HostLapses]
    else if Issued(a, call) then [P.HostIssues]
    else if ConfirmsRelease(a, call) && u.readiness != Ready then [P.HostConfirms]
    else []
  }

  /** Only the host's evidence differs. */
  predicate Elsewhere(s: P.State, t: P.State) {
    t == s.(applied := t.applied, epoch := t.epoch, ready := t.ready, released := t.released, presented := t.presented,
            grants := t.grants)
  }

  function Lost(a: Auth, call: Call): (n: nat) { if Loses(a, call) then 1 else 0 }

  /** What one call does to the facts a protocol state shows. */
  lemma CallFacts(a: Auth, call: Call)
    requires Inv(a) && Granted(a) && Granted(Apply(a, call))
    ensures var u := Apply(a, call);
      && (a.readiness != Ready ==> a.suspension.Some? && a.presented.None?)
      && (u.readiness != Ready ==> u.suspension.Some? && u.presented.None?)
      && (a.readiness == Ready ==> !Released(a)) && (u.readiness == Ready ==> !Released(u))
      && (Released(u) ==> Released(a) || ConfirmsRelease(a, call))
      && (Released(a) && u.readiness != Ready ==> Released(u))
      && (a.readiness != Ready && u.readiness == Ready ==> Released(a))
  {
    hide Apply;
    ApplyKeeps(a, call);
    ApplyFrame(a, call);
  }

  lemma ConfirmFacts(a: Auth, call: Call)
    requires ConfirmsRelease(a, call)
    ensures var u := Apply(a, call);
      && u.readiness == a.readiness && u.presented == a.presented && (u.suspension.Some? ==> Released(u))
      && !Loses(a, call) && !Issued(a, call)
  {}

  lemma IssueFacts(a: Auth, call: Call)
    requires Issued(a, call) && (call.CIssueTicket? ==> call.requirePresented)
    ensures var u := Apply(a, call); u.readiness == Ready && u.presented.Some? && !ConfirmsRelease(a, call)
  {
    hide CheckTime, FindTicket, FreeSlot;
  }

  lemma Stale(a: Auth)
    ensures Apply(a, CMarkViewStale).readiness != Ready
  {}

  /** The host loses the view. */
  lemma Lapse(c: P.Config, a: Auth, u: Auth, epoch: nat, base: nat, s: P.State) returns (t: P.State)
    requires Shows(a, epoch, base, s) && s.remembered.Shaped() && s.held.Shaped()
    requires Granted(u) && u.readiness != Ready && u.presented.None?
    requires Released(u) == (a.readiness != Ready && Released(a))
    ensures P.Path(c, s, [P.HostLapses], t) && Shows(u, epoch + 1, base, t) && Elsewhere(s, t) && t.applied == s.applied
  {
    hide Released, Mirror.Shaped;
    P.PathOne(c, s, P.HostLapses);
    t := P.Next(c, s, P.HostLapses);
  }

  /** A ticket is issued for the report the view rests on. */
  lemma Issue(c: P.Config, a: Auth, u: Auth, epoch: nat, base: nat, s: P.State) returns (t: P.State)
    requires Shows(a, epoch, base, s) && s.remembered.Shaped() && s.held.Shaped()
    requires Granted(u) && a.readiness == u.readiness == Ready && u.presented == a.presented && a.presented.Some?
    ensures P.Path(c, s, [P.HostIssues], t) && Shows(u, epoch, base, t) && Elsewhere(s, t) && t.applied == s.applied
  {
    hide Released, Mirror.Shaped;
    P.PathOne(c, s, P.HostIssues);
    t := P.Next(c, s, P.HostIssues);
  }

  /** The release of a suspended host is confirmed. */
  lemma Confirming(c: P.Config, a: Auth, u: Auth, epoch: nat, base: nat, s: P.State) returns (t: P.State)
    requires Shows(a, epoch, base, s) && s.remembered.Shaped() && s.held.Shaped() && s.held == NOTHING_HELD
    requires Granted(u) && a.readiness == u.readiness != Ready && u.presented == a.presented && Released(u)
    ensures P.Path(c, s, [P.HostConfirms], t) && Shows(u, epoch, base, t) && Elsewhere(s, t) && t.applied == s.applied
  {
    hide Released, Mirror.Shaped;
    P.PathOne(c, s, P.HostConfirms);
    t := P.Next(c, s, P.HostConfirms);
  }

  /** Nothing of the host's evidence changes. */
  lemma Unchanged(c: P.Config, a: Auth, u: Auth, epoch: nat, base: nat, s: P.State)
    requires Shows(a, epoch, base, s) && Granted(u)
    requires a.readiness == Ready <==> u.readiness == Ready
    requires u.presented == a.presented && (u.readiness != Ready ==> Released(a) == Released(u))
    ensures P.Path(c, s, [], s) && Shows(u, epoch, base, s) && Elsewhere(s, s)
  {
    hide Released;
  }

  /** A call that was made for no report. */
  lemma PlainCall(c: P.Config, a: Auth, call: Call, epoch: nat, base: nat, s: P.State) returns (t: P.State)
    requires Inv(a) && Shows(a, epoch, base, s) && s.remembered.Shaped() && s.held.Shaped()
    requires Allowed(a, call, false, s.applied, s.reports, s.held)
    ensures P.Path(c, s, StepsOf(a, call, false), t) && Shows(Apply(a, call), epoch + Lost(a, call), base, t)
    ensures Elsewhere(s, t) && t.applied == s.applied
  {
    hide Apply, Inv, ConfirmsRelease, Readies, Issued, Mirror.Shaped, Released, Elsewhere, P.Path;
    ShownGrant(a, epoch, base, s);
    hide Shows;
    CallFacts(a, call);
    ViewCall(a, call);
    var u := Apply(a, call);
    if ConfirmsRelease(a, call) { ConfirmFacts(a, call); }
    if Loses(a, call) {
      if call.CMarkViewStale? { Stale(a); }
      t := Lapse(c, a, u, epoch, base, s);
    } else if Issued(a, call) {
      IssueFacts(a, call);
      t := Issue(c, a, u, epoch, base, s);
    } else if ConfirmsRelease(a, call) && u.readiness != Ready {
      t := Confirming(c, a, u, epoch, base, s);
    } else {
      Unchanged(c, a, u, epoch, base, s);
      t := s;
    }
  }

  lemma ShownGrant(a: Auth, epoch: nat, base: nat, s: P.State)
    requires Shows(a, epoch, base, s)
    ensures Granted(a)
  {}

  /** A call that was made for the next report. */
  lemma ReportCall(c: P.Config, a: Auth, call: Call, epoch: nat, base: nat, s: P.State) returns (t: P.State)
    requires Inv(a) && Shows(a, epoch, base, s) && s.remembered.Shaped() && s.held.Shaped()
    requires Allowed(a, call, true, s.applied, s.reports, s.held)
    ensures P.Path(c, s, StepsOf(a, call, true), t) && Shows(Apply(a, call), epoch + Lost(a, call), base, t)
    ensures Elsewhere(s, t) && t.applied == s.applied + 1
  {
    hide Apply, Inv, ConfirmsRelease, P.Handle, P.ViewOf, Mirror.Shaped, Released;
    CallFacts(a, call);
    NotConfirming(a, call);
    var u := Apply(a, call);
    var step := P.HostTakesReport(u.presented.Some?);
    if call.CMarkViewStale? {
      Stale(a);
      P.PathOne(c, s, step);
      t := P.Next(c, s, step);
    } else {
      PresentedCall(a, call.sequence, call.until, call.now);
      var from := if Loses(a, call) then P.Next(c, s, P.HostLapses) else s;
      P.PathOne(c, from, step);
      t := P.Next(c, from, step);
      if Loses(a, call) { P.PathThen(c, s, P.HostLapses, [step], t); }
    }
  }

  lemma NotConfirming(a: Auth, call: Call)
    requires call.CMarkPresentedReadyUntil? || call.CMarkViewStale?
    ensures !ConfirmsRelease(a, call)
  {}

  /** One call of the profile is a path of host steps, and what the protocol then shows is
      what the authority then says. */
  lemma CallIsPath(c: P.Config, a: Auth, call: Call, report: bool, epoch: nat, base: nat, s: P.State)
    returns (t: P.State)
    requires Inv(a) && Shows(a, epoch, base, s) && s.remembered.Shaped() && s.held.Shaped()
    requires Allowed(a, call, report, s.applied, s.reports, s.held)
    ensures P.Path(c, s, StepsOf(a, call, report), t) && Shows(Apply(a, call), epoch + Lost(a, call), base, t)
    ensures Elsewhere(s, t) && t.applied == s.applied + if report then 1 else 0
  {
    hide *;
    if report { t := ReportCall(c, a, call, epoch, base, s); } else { t := PlainCall(c, a, call, epoch, base, s); }
  }

  // ------------------------------------------------------------------- whole runs

  /** The protocol state shows what the first `n` calls led to. */
  predicate ShowsAfter(policy: Policy, calls: seq<Call>, n: nat, base: nat, s: P.State)
    requires n <= |calls|
  {
    Shows(After(New(policy), calls, n), Epoch(policy, calls, n), base, s)
  }

  /** How many of these labels name a report. */
  function Counted(labels: seq<bool>, m: nat, n: nat): (k: nat)
    requires m <= n <= |labels|
  {
    if n == m then 0 else Counted(labels, m, n - 1) + if labels[n - 1] then 1 else 0
  }

  /** From call `m` on, each labelled call is one of the profile. */
  predicate AllAllowed(policy: Policy, calls: seq<Call>, labels: seq<bool>, m: nat, n: nat, s: P.State)
    requires m <= n <= |calls| && |labels| == |calls|
  {
    forall k :: m <= k < n ==>
      Allowed(After(New(policy), calls, k), calls[k], labels[k], s.applied + Counted(labels, m, k), s.reports, s.held)
  }

  function PathOf(policy: Policy, calls: seq<Call>, labels: seq<bool>, m: nat, n: nat): (steps: seq<P.Step>)
    requires m <= n <= |calls| && |labels| == |calls|
  {
    if n == m then []
    else
      var last := StepsOf(After(New(policy), calls, n - 1), calls[n - 1], labels[n - 1]);
      PathOf(policy, calls, labels, m, n - 1) + last
  }

  /** Any run of calls of the profile is a path of host steps: the protocol follows the
      authority, whatever else is in the state. */
  lemma {:induction false} CallsArePath(c: P.Config, policy: Policy, calls: seq<Call>, labels: seq<bool>, m: nat,
                                        n: nat,
                                        base: nat, s: P.State)
    returns (t: P.State)
    requires m <= n <= |calls| && |labels| == |calls| && s.remembered.Shaped() && s.held.Shaped()
    requires ShowsAfter(policy, calls, m, base, s) && AllAllowed(policy, calls, labels, m, n, s)
    ensures P.Path(c, s, PathOf(policy, calls, labels, m, n), t) && ShowsAfter(policy, calls, n, base, t)
    ensures Elsewhere(s, t) && t.applied == s.applied + Counted(labels, m, n)
    decreases n
  {
    hide *;
    NoPath(c, s);
    if n == m {
      Unmoved(policy, calls, labels, m);
      t := s;
    } else {
      var last, from := calls[n - 1], After(New(policy), calls, n - 1);
      Unfolded(policy, calls, labels, m, n, s);
      var u := CallsArePath(c, policy, calls, labels, m, n - 1, base, s);
      ElsewhereKeeps(s, u);
      ShowsMeans(policy, calls, n - 1, base, u);
      ReachableKeeps(policy, calls, n - 1);
      t := CallIsPath(c, from, last, labels[n - 1], Epoch(policy, calls, n - 1), base, u);
      P.PathJoin(c, s, PathOf(policy, calls, labels, m, n - 1), u, StepsOf(from, last, labels[n - 1]), t);
      ElsewhereJoins(s, u, t);
      ShowsMeans(policy, calls, n, base, t);
    }
  }

  lemma Unmoved(policy: Policy, calls: seq<Call>, labels: seq<bool>, m: nat)
    requires m <= |calls| && |labels| == |calls|
    ensures PathOf(policy, calls, labels, m, m) == [] && Counted(labels, m, m) == 0
  {}

  lemma Unfolded(policy: Policy, calls: seq<Call>, labels: seq<bool>, m: nat, n: nat, s: P.State)
    requires m < n <= |calls| && |labels| == |calls| && AllAllowed(policy, calls, labels, m, n, s)
    ensures var from := After(New(policy), calls, n - 1);
      && AllAllowed(policy, calls, labels, m, n - 1, s)
      && Allowed(from, calls[n - 1], labels[n - 1], s.applied + Counted(labels, m, n - 1), s.reports, s.held)
      && After(New(policy), calls, n) == Apply(from, calls[n - 1])
      && Epoch(policy, calls, n) == Epoch(policy, calls, n - 1) + Lost(from, calls[n - 1])
      && Counted(labels, m, n) == Counted(labels, m, n - 1) + (if labels[n - 1] then 1 else 0)
      && PathOf(policy, calls, labels, m, n)
         == PathOf(policy, calls, labels, m, n - 1) + StepsOf(from, calls[n - 1], labels[n - 1])
  {
    hide Apply, Allowed, StepsOf, Loses;
  }

  lemma ShowsMeans(policy: Policy, calls: seq<Call>, n: nat, base: nat, s: P.State)
    requires n <= |calls|
    ensures ShowsAfter(policy, calls, n, base, s) <==>
      Shows(After(New(policy), calls, n), Epoch(policy, calls, n), base, s)
  {
    hide Shows, After, Epoch;
  }

  lemma NoPath(c: P.Config, s: P.State)
    ensures P.Path(c, s, [], s) && Elsewhere(s, s)
  {}

  lemma ElsewhereKeeps(s: P.State, t: P.State)
    requires Elsewhere(s, t)
    ensures t.remembered == s.remembered && t.held == s.held && t.reports == s.reports
  {}

  lemma ElsewhereJoins(s: P.State, t: P.State, u: P.State)
    requires Elsewhere(s, t) && Elsewhere(t, u)
    ensures Elsewhere(s, u)
  {}

  /** A report whose verdict is that it no longer matters calls nothing. */
  lemma SkippedReport(c: P.Config, a: Auth, epoch: nat, base: nat, s: P.State) returns (t: P.State)
    requires Shows(a, epoch, base, s) && s.remembered.Shaped() && s.held.Shaped()
    requires s.applied < |s.reports| && s.reports[s.applied]
    ensures P.Path(c, s, [P.HostSkipsReport], t) && Shows(a, epoch, base, t) && Elsewhere(s, t)
    ensures t.applied == s.applied + 1
  {
    P.PathOne(c, s, P.HostSkipsReport);
    t := P.Next(c, s, P.HostSkipsReport);
  }
}
