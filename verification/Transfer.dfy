/** One file lane between a sender and a receiving host: offers, chunks and a final
    record one way, acceptance and the outcome the other. What the sender reports
    about a transfer is true of the host's directory, now and for good. */
module Transfer {
  import opened Common

  // ---------------------------------------------------------------------- sender

  datatype Stage = Preparing | AwaitingAcceptance | Streaming | AwaitingProof | Finished

  datatype Outcome =
    | Published(bytes: nat, durable: bool)
    | RefusedByPeer
    | PublicationUnknown
    | InterruptedBeforePublication

  datatype Sending = Sending(
    id: nat,
    content: seq<Byte>,
    stage: Stage,
    queued: nat,
    completionAdmitted: bool,
    result: Option<Outcome>)

  datatype Record =
    | Offer(id: nat, size: nat)
    | Data(id: nat, offset: nat, bytes: seq<Byte>)
    | Completion(id: nat)

  datatype Disposition = PublishedDurable | PublishedDurabilityUnknown | RefusedDisposition | UnknownEffect

  datatype Reply = Accept(id: nat, size: nat) | Done(id: nat, disposition: Disposition, bytes: nat)

  /** What may be sent next: the offer; then, once accepted, the next bytes; then the
      final record, once all bytes have been sent. */
  predicate MaySend(t: Sending, r: Record) {
    && t.result.None? && r.id == t.id
    && match r
       case Offer(_, size) => t.stage == Preparing && size == |t.content|
       case Data(_, offset, bytes) =>
         t.stage == Streaming && bytes != [] && offset == t.queued && offset + |bytes| <= |t.content|
         && bytes == t.content[offset..offset + |bytes|]
       case Completion(_) => t.stage == Streaming && t.queued == |t.content|
  }

  function AfterSend(t: Sending, r: Record): (result: Sending) {
    match r
    case Offer(_, _) => t.(stage := AwaitingAcceptance)
    case Data(_, _, bytes) => t.(queued := t.queued + |bytes|)
    case Completion(_) => t.(stage := AwaitingProof, completionAdmitted := true)
  }

  /** A reply is taken only where the protocol has it; anything else is an error. */
  function OnReply(t: Sending, r: Reply): (result: Option<Sending>) {
    if r.id != t.id || t.result.Some? then None
    else
      match r
      case Accept(_, size) =>
        if t.stage != AwaitingAcceptance || size != |t.content| then None else Some(t.(stage := Streaming))
      case Done(_, disposition, bytes) =>
        if t.stage == Preparing then None
        else
          match disposition
          case RefusedDisposition => Some(t.(result := Some(RefusedByPeer), stage := Finished))
          case UnknownEffect => Some(t.(result := Some(PublicationUnknown), stage := Finished))
          case _ =>
            if t.stage != AwaitingProof || bytes != |t.content| then None
            else Some(t.(result := Some(Published(bytes, disposition.PublishedDurable?)), stage := Finished))
  }

  /** A local failure keeps a result that is already there; otherwise it says that
      nothing was published only if the final record never entered the lane. */
  function OnFailure(t: Sending): (r: Sending) {
    t.(stage := Finished,
       result := if t.result.Some? then t.result
                 else Some(if t.completionAdmitted then PublicationUnknown else InterruptedBeforePublication))
  }

  // ------------------------------------------------------------------------ host

  datatype HostOp = Begin(id: nat, size: nat) | Write(id: nat, offset: nat, bytes: seq<Byte>) | Finish(id: nat)

  datatype Completed = Begun(id: nat, size: nat) | Written(id: nat, staged: nat) | DidPublish(id: nat, bytes: nat,
    durable: bool)
    | Failed | Uncertain

  /** What the adapter in front of the worker knows of the transfer in progress. */
  datatype Staged = Staged(id: nat, size: nat, bytes: seq<Byte>)

  datatype Host = Host(
    stopped: bool,
    active: Option<Progress>,
    pending: Option<HostOp>,
    finished: Option<Completed>,
    file: Option<Staged>,
    floor: nat,
    /** The newest transfer whose result has been polled. */
    last: nat,
    store: map<nat, seq<Byte>>,
    /** The transfers whose publication was made durable. */
    synced: set<nat>)

  /** How the disk worker may dispose of an operation. */
  datatype Execution = Succeeds(durable: bool) | Fails | NeverRuns | Panics(committed: bool)

  /** Whether an operation can succeed at all. */
  predicate Executable(h: Host, op: HostOp) {
    match op
    case Begin(id, _) => h.file.None? && id > h.floor
    case Write(id, offset, bytes) =>
      h.file.Some? && h.file.value.id == id && offset == |h.file.value.bytes| && offset + |bytes| <= h.file.value.size
    case Finish(id) => h.file.Some? && h.file.value.id == id && |h.file.value.bytes| == h.file.value.size
  }

  function Commit(h: Host, op: HostOp): (r: Host)
    requires Executable(h, op)
  {
    match op
    case Begin(id, size) => h.(file := Some(Staged(id, size, [])), floor := id)
    case Write(_, _, bytes) => h.(file := Some(h.file.value.(bytes := h.file.value.bytes + bytes)))
    case Finish(id) => h.(file := None, store := h.store[id := h.file.value.bytes])
  }

  function Execute(h: Host, op: HostOp, how: Execution): (r: Host) {
    match how
    case NeverRuns => h.(finished := Some(Failed), stopped := true)
    case Panics(committed) =>
      (if committed && Executable(h, op) then Commit(h, op) else h).(finished := Some(Uncertain), stopped := true)
    case Fails => h.(finished := Some(Failed), file := None)
    case Succeeds(durable) =>
      if !Executable(h, op) then h.(finished := Some(Failed), file := None)
      else
        Commit(h, op).(synced := if op.Finish? && durable then h.synced + {op.id} else h.synced, finished := Some(
          match op
          case Begin(id, size) => Begun(id, size)
          case Write(id, offset, bytes) => Written(id, offset + |bytes|)
          case Finish(id) => DidPublish(id, |h.file.value.bytes|, durable)))
  }

  /** Whether a record's frame, name and limits are acceptable; and, if not, whether
      the failure is known to precede any work on the disk. */
  datatype Verdict = Fits | Unfit(effectless: bool)

  /** A record reaches the adapter while nothing is pending. */
  function Admit(h: Host, r: Record, verdict: Verdict): (result: (Host, Option<Reply>)) {
    if h.stopped then (h, None)
    else
      match r
      case Offer(id, size) =>
        if h.active.Some? then (h.(stopped := true), None)
        else if verdict.Unfit? then
          (h.(stopped := true), if verdict.effectless
            && id > h.last then Some(Done(id, RefusedDisposition, 0)) else None)
        else (h.(pending := Some(Begin(id, size))), None)
      case Data(id, offset, bytes) =>
        if h.active.None? || h.active.value.id != id then (h, None)
        else if verdict.Unfit? || offset != h.active.value.staged || offset + |bytes| > h.active.value.total then
          (h.(stopped := true), None)
        else (h.(pending := Some(Write(id, offset, bytes))), None)
      case Completion(id) =>
        if h.active.None? || h.active.value.id != id then (h, None)
        else if verdict.Unfit? || h.active.value.staged != h.active.value.total then (h.(stopped := true), None)
        else (h.(pending := Some(Finish(id))), None)
  }

  function OpId(op: HostOp): (r: nat) { op.id }

  /** The worker's result becomes the reply for the sender. */
  function Poll(h: Host): (r: (Host, Option<Reply>))
    requires h.pending.Some? && h.finished.Some?
  {
    var id := OpId(h.pending.value);
    var g := h.(pending := None, finished := None, last := id);
    match h.finished.value
    case Begun(_, size) =>
      (g.(active := Some(Progress(id, 0, size))),
       Some(if h.stopped then Done(id, RefusedDisposition, 0) else Accept(id, size)))
    case Written(_, staged) =>
      (g.(active := if h.active.Some? then Some(h.active.value.(staged := staged)) else None), None)
    case DidPublish(_, bytes, durable) =>
      (g.(active := None), Some(Done(id, if durable then PublishedDurable else PublishedDurabilityUnknown, bytes)))
    case Failed => (g.(active := None, stopped := true), Some(Done(id, RefusedDisposition, 0)))
    case Uncertain => (g.(active := None, stopped := true), Some(Done(id, UnknownEffect, 0)))
  }

  // ----------------------------------------------------------------- both together

  datatype State = State(
    next: nat,
    current: Option<Sending>,
    closed: bool,
    past: map<nat, Sending>,
    up: seq<Record>,
    down: seq<Reply>,
    host: Host)

  datatype Step =
    | Begins(content: seq<Byte>)
    | Sends(record: Record)
    | TakesReply
    | SenderFails
    | Collects
    | HostTakes(verdict: Verdict)
    | HostStops
    | WorkerRuns(how: Execution)
    | HostPolls

  function Start(): (r: State) {
    State(1, None, false, map[], [], [], Host(false, None, None, None, None, 0, 0, map[], {}))
  }

  predicate Enabled(s: State, step: Step) {
    match step
    case Begins(_) => !s.closed && s.current.None?
    case Sends(r) => !s.closed && s.current.Some? && MaySend(s.current.value, r)
    case TakesReply => !s.closed && s.down != []
    case SenderFails => true
    case Collects => s.current.Some? && s.current.value.result.Some?
    case HostTakes(_) => s.up != [] && s.host.pending.None?
    case HostStops => true
    case WorkerRuns(_) => s.host.pending.Some? && s.host.finished.None?
    case HostPolls => s.host.pending.Some? && s.host.finished.Some?
  }

  function FailSender(s: State): (r: State) {
    s.(closed := true, current := if s.current.Some? then Some(OnFailure(s.current.value)) else None)
  }

  function Answer(s: State, host: Host, reply: Option<Reply>): (r: State) {
    s.(host := host, down := if reply.Some? then s.down + [reply.value] else s.down)
  }

  function Next(s: State, step: Step): (r: State)
    requires Enabled(s, step)
  {
    match step
    case Begins(content) => s.(next := s.next + 1, current := Some(Sending(s.next, content, Preparing, 0, false, None)))
    case Sends(r) => s.(current := Some(AfterSend(s.current.value, r)), up := s.up + [r])
    case TakesReply =>
      var u := s.(down := s.down[1..]);
      if s.current.None? || OnReply(s.current.value, s.down[0]).None? then FailSender(u)
      else
        var t := OnReply(s.current.value, s.down[0]).value;
        u.(current := Some(t), closed := t.result.Some? && !t.result.value.Published?)
    case SenderFails => FailSender(s)
    case Collects => s.(past := s.past[s.current.value.id := s.current.value], current := None)
    case HostTakes(verdict) =>
      var (host, reply) := Admit(s.host, s.up[0], verdict);
      Answer(s.(up := s.up[1..]), host, reply)
    case HostStops => s.(host := s.host.(stopped := true))
    case WorkerRuns(how) => s.(host := Execute(s.host, s.host.pending.value, how))
    case HostPolls =>
      var (host, reply) := Poll(s.host);
      Answer(s, host, reply)
  }

  /** The transfer with this number, current or collected. */
  function Known(s: State, id: nat): (r: Option<Sending>) {
    if s.current.Some? && s.current.value.id == id then s.current
    else if id in s.past then Some(s.past[id])
    else None
  }

  // ---------------------------------------------------------------- the invariant

  ghost predicate Sound(t: Sending) {
    && t.queued <= |t.content|
    && (t.completionAdmitted ==> t.stage in {AwaitingProof, Finished})
    && (t.result.Some? ==> t.stage == Finished)
    && (t.stage == Finished ==> t.result.Some?)
  }

  /** Numbers are used once, and an open lane has only published transfers behind it. */
  ghost predicate Numbered(s: State) {
    && s.next >= 1
    && (s.current.Some? ==>
         s.current.value.id == s.next - 1 >= 1 && s.current.value.id !in s.past && Sound(s.current.value))
    && (s.current.Some? && s.closed ==> s.current.value.result.Some?)
    && (s.current.Some? && s.current.value.result.Some? && !s.closed ==> s.current.value.result.value.Published?)
    && (forall id :: id in s.past ==>
         && 1 <= id < s.next && s.past[id].id == id && Sound(s.past[id]) && s.past[id].result.Some?
         && (!s.closed ==> s.past[id].result.value.Published?))
  }

  /** A record repeats the content of its transfer at its offset. */
  ghost predicate RecordFits(s: State, r: Record) {
    && Known(s, r.id).Some?
    && var t := Known(s, r.id).value;
       match r
       case Offer(_, size) => size == |t.content|
       case Data(_, offset, bytes) => offset + |bytes| <= |t.content| && bytes == t.content[offset..offset + |bytes|]
       case Completion(_) => t.completionAdmitted
  }

  function AsRecord(op: HostOp): (r: Record) {
    match op
    case Begin(id, size) => Offer(id, size)
    case Write(id, offset, bytes) => Data(id, offset, bytes)
    case Finish(id) => Completion(id)
  }

  ghost predicate Faithful(s: State) {
    && (forall i :: 0 <= i < |s.up| ==> RecordFits(s, s.up[i]))
    && (s.host.pending.Some? ==> RecordFits(s, AsRecord(s.host.pending.value)))
    && s.host.floor < s.next
    && (s.host.file.Some? ==>
         var f := s.host.file.value;
         && Known(s, f.id).Some? && f.size == |Known(s, f.id).value.content| && |f.bytes| <= f.size
         && f.bytes == Known(s, f.id).value.content[..|f.bytes|] && f.id == s.host.floor && f.id !in s.host.store)
    && (forall id :: id in s.host.store ==>
         && id <= s.host.floor && Known(s, id).Some? && Known(s, id).value.completionAdmitted
         && s.host.store[id] == Known(s, id).value.content)
  }

  /** The lane holds records of one transfer: an offer alone, the final record last. */
  ghost predicate Ordered(s: State) {
    var h := s.host;
    && (forall i :: 0 <= i < |s.up| && s.up[i].Offer? ==> |s.up| == 1 && h.pending.None? && h.floor < s.up[i].id)
    && (forall i :: 0 <= i < |s.up| && s.up[i].Completion? ==> i == |s.up| - 1)
    && (forall i :: 0 <= i < |s.up| && !s.closed ==> s.current.Some? && s.up[i].id == s.current.value.id)
    && (h.pending.Some? && !s.closed ==> s.current.Some? && h.pending.value.id == s.current.value.id)
    && (forall i :: 0 <= i < |s.down| && s.down[i].Accept? ==> s.down[i].id <= h.floor)
    && (s.current.Some? && s.current.value.stage in {Streaming, AwaitingProof} ==> s.current.value.id <= h.floor)
    && (h.pending.Some? && h.finished.Some? && h.finished.value.Begun? ==> h.pending.value.id <= h.floor)
    && (h.pending.Some? && h.pending.value.Begin? && h.finished.None? ==> h.floor < h.pending.value.id)
    && (h.pending.Some? && h.pending.value.Finish? ==> s.up == [])
    && (s.current.Some? && s.current.value.stage == Preparing ==>
       s.up == [] && h.pending.None? && h.floor < s.current.value.id)
    && (s.current.None? && !s.closed ==> s.up == [] && h.pending.None? && h.floor < s.next)
    && (s.current.Some? && s.current.value.id in h.store ==> s.up == [] && (h.pending.None? || h.finished.Some?))
  }

  predicate Committing(h: Host) { h.finished.Some? && (h.finished.value.DidPublish? || h.finished.value.Uncertain?) }

  ghost predicate NotYet(s: State) {
    var h := s.host;
    && (h.finished.Some? ==> h.pending.Some?)
    && (h.active.Some? && !Committing(h) ==> h.active.value.id !in h.store)
    && (h.pending.Some? && !Committing(h) ==> h.pending.value.id !in h.store)
    && (h.finished.Some? && h.finished.value.DidPublish? ==>
         var id := h.pending.value.id;
         && id in h.store && h.finished.value.bytes == |h.store[id]|
         && (h.finished.value.durable <==> id in h.synced))
    && h.synced <= h.store.Keys
  }

  /** What an outcome asserts about the directory. Once the host has refused, nothing
      can be published on this lane any more. */
  ghost predicate IsTrue(s: State, id: nat, o: Outcome) {
    match o
    case Published(bytes, durable) =>
      id in s.host.store && bytes == |s.host.store[id]| && (durable <==> id in s.host.synced)
    case RefusedByPeer => id !in s.host.store && s.host.stopped && s.host.pending.None?
    case PublicationUnknown => true
    case InterruptedBeforePublication => Known(s, id).Some? && !Known(s, id).value.completionAdmitted
  }

  ghost predicate ReplyIsTrue(s: State, r: Reply) {
    r.Done? ==>
      match r.disposition
      case RefusedDisposition => IsTrue(s, r.id, RefusedByPeer)
      case UnknownEffect => true
      case _ =>
        && IsTrue(s, r.id, Published(r.bytes, r.disposition == PublishedDurable))
        && (s.current.Some? && s.current.value.id == r.id ==> s.host.pending.None?)
  }

  ghost predicate Honest(s: State) {
    && (forall i :: 0 <= i < |s.down| ==> ReplyIsTrue(s, s.down[i]))
    && (s.current.Some? && s.current.value.result.Some? ==> IsTrue(s, s.current.value.id, s.current.value.result.value))
    && (s.current.Some? && s.current.value.result.Some? && s.current.value.result.value.Published? ==>
       s.host.pending.None?)
    && (forall id :: id in s.past && s.past[id].result.Some? ==> IsTrue(s, id, s.past[id].result.value))
  }

  ghost predicate Inv(s: State) {
    Numbered(s) && Faithful(s) && Ordered(s) && NotYet(s) && Honest(s)
  }

  // --------------------------------------------------------------------- each step

  /** No transfer disappears, changes its content, or takes back its final record. */
  ghost predicate Extends(s: State, u: State) {
    forall id :: Known(s, id).Some? ==>
      && Known(u, id).Some? && Known(u, id).value.content == Known(s, id).value.content
      && (Known(s, id).value.completionAdmitted ==> Known(u, id).value.completionAdmitted)
  }

  lemma FaithfulKept(s: State, u: State)
    requires Faithful(s) && Extends(s, u) && s.next <= u.next && u.up == s.up && u.host == s.host
    ensures Faithful(u)
  {
    forall i | 0 <= i < |u.up| ensures RecordFits(u, u.up[i]) { assert RecordFits(s, s.up[i]); }
  }

  lemma SendFaithful(s: State, step: Step)
    requires Inv(s) && Enabled(s, step) && step.Sends?
    ensures Faithful(Next(s, step)) && Extends(s, Next(s, step))
  {
    hide Ordered, NotYet, Honest;
    var u := Next(s, step);
    var quiet := u.(up := s.up);
    assert Extends(s, quiet);
    FaithfulKept(s, quiet);
    assert forall id :: Known(u, id) == Known(quiet, id);
    forall i | 0 <= i < |u.up| ensures RecordFits(u, u.up[i]) {
      if i < |s.up| { assert RecordFits(quiet, quiet.up[i]); }
    }
  }

  /** Truth about an outcome depends only on the host and on what was sent. */
  lemma HonestKept(s: State, u: State)
    requires Honest(s) && u.host == s.host && u.down == s.down && u.past == s.past && Numbered(s)
    requires s.current.Some? && u.current.Some? && s.current.value.result.None? && u.current.value.result.None?
    requires u.current.value.id == s.current.value.id
    ensures Honest(u)
  {
    forall i | 0 <= i < |u.down| ensures ReplyIsTrue(u, u.down[i]) { assert ReplyIsTrue(s, s.down[i]); }
    forall id | id in u.past && u.past[id].result.Some? ensures IsTrue(u, id, u.past[id].result.value) {
      assert IsTrue(s, id, s.past[id].result.value);
    }
  }

  /** Nothing of the current transfer is published or being published before its
      final record has been sent. */
  lemma BeforeCompletion(s: State)
    requires Inv(s) && s.current.Some? && !s.current.value.completionAdmitted
    ensures s.current.value.id !in s.host.store
    ensures !s.closed && s.host.pending.Some? ==> !s.host.pending.value.Finish?
    ensures forall i :: 0 <= i < |s.up| && !s.closed ==> !s.up[i].Completion?
  {
    forall i | 0 <= i < |s.up| && !s.closed ensures !s.up[i].Completion? { assert RecordFits(s, s.up[i]); }
  }

  lemma SendKeeps(s: State, step: Step)
    requires Inv(s) && Enabled(s, step) && step.Sends?
    ensures Inv(Next(s, step))
  {
    hide Faithful, Honest, IsTrue, ReplyIsTrue;
    BeforeCompletion(s);
    SendFaithful(s, step);
    HonestKept(s, Next(s, step));
  }

  lemma BeginKeeps(s: State, step: Step)
    requires Inv(s) && Enabled(s, step) && step.Begins?
    ensures Inv(Next(s, step))
  {
    hide ReplyIsTrue;
    var u := Next(s, step);
    assert forall id :: Known(s, id).Some? ==> Known(u, id) == Known(s, id);
    FaithfulKept(s, u);
    assert Honest(u) by {
      forall i | 0 <= i < |u.down| ensures ReplyIsTrue(u, u.down[i]) {
        assert ReplyIsTrue(s, s.down[i]);
        ReplyFrame(s, u, s.down[i]);
      }
    }
  }

  lemma ReplyFrame(s: State, u: State, r: Reply)
    requires u.host == s.host && ReplyIsTrue(s, r)
    requires u.current.Some? ==>
      (s.current.Some? && u.current.value.id == s.current.value.id) || u.current.value.id !in s.host.store
    ensures ReplyIsTrue(u, r)
  {}

  lemma CollectKeeps(s: State, step: Step)
    requires Inv(s) && Enabled(s, step) && step.Collects?
    ensures Inv(Next(s, step))
  {
    hide Faithful, ReplyIsTrue;
    var u := Next(s, step);
    assert forall id :: Known(u, id) == Known(s, id);
    FaithfulKept(s, u);
    assert Honest(u) by {
      forall i | 0 <= i < |u.down| ensures ReplyIsTrue(u, u.down[i]) {
        assert ReplyIsTrue(s, s.down[i]);
        ReplyFrame(s, u, s.down[i]);
      }
    }
  }

  lemma FailKeeps(s: State)
    requires Inv(s)
    ensures Inv(FailSender(s))
  {
    hide Faithful, ReplyIsTrue;
    var u := FailSender(s);
    assert Extends(s, u);
    FaithfulKept(s, u);
    assert Honest(u) by {
      forall i | 0 <= i < |u.down| ensures ReplyIsTrue(u, u.down[i]) {
        assert ReplyIsTrue(s, s.down[i]);
        ReplyFrame(s, u, s.down[i]);
      }
    }
  }

  /** A reply that is taken is dropped from the lane; its truth stays. */
  lemma DropKeeps(s: State)
    requires Inv(s) && s.down != []
    ensures Inv(s.(down := s.down[1..]))
  {
    hide Faithful, ReplyIsTrue, IsTrue, Numbered, NotYet;
    var u := s.(down := s.down[1..]);
    SenderFrame(s, u);
    NotYetFrame(s, u);
    FaithfulKept(s, u);
    assert forall i :: 0 <= i < |u.down| ==> u.down[i] == s.down[i + 1];
    assert Honest(u) by {
      forall i | 0 <= i < |u.down| ensures ReplyIsTrue(u, u.down[i]) {
        assert ReplyIsTrue(s, s.down[i + 1]);
        ReplyFrame(s, u, s.down[i + 1]);
      }
      TruthFrame(s, u);
    }
  }

  lemma NotYetFrame(s: State, u: State)
    requires u.host == s.host
    ensures NotYet(s) == NotYet(u)
  {}

  lemma TruthFrame(s: State, u: State)
    requires u.host == s.host && u.current == s.current && u.past == s.past
    ensures forall id, o :: IsTrue(s, id, o) == IsTrue(u, id, o)
  {}

  lemma ReplyKeeps(s: State, step: Step)
    requires Inv(s) && Enabled(s, step) && step.TakesReply?
    ensures Inv(Next(s, step))
  {
    var d := s.(down := s.down[1..]);
    DropKeeps(s);
    if s.current.None? || OnReply(s.current.value, s.down[0]).None? {
      FailKeeps(d);
    } else {
      TakenKeeps(s, d, OnReply(s.current.value, s.down[0]).value);
    }
  }

  lemma TakenKeeps(s: State, d: State, t: Sending)
    requires Inv(s) && Inv(d) && s.down != [] && d == s.(down := s.down[1..]) && !s.closed
    requires s.current.Some? && OnReply(s.current.value, s.down[0]) == Some(t)
    ensures Inv(d.(current := Some(t), closed := t.result.Some? && !t.result.value.Published?))
  {
    hide Faithful, NotYet;
    NotYetFrame(d, d.(current := Some(t), closed := t.result.Some? && !t.result.value.Published?));
    var u := d.(current := Some(t), closed := t.result.Some? && !t.result.value.Published?);
    assert Extends(d, u);
    FaithfulKept(d, u);
    assert ReplyIsTrue(s, s.down[0]);
    assert Honest(u) by {
      forall i | 0 <= i < |u.down| ensures ReplyIsTrue(u, u.down[i]) {
        assert ReplyIsTrue(d, d.down[i]);
        ReplyFrame(d, u, d.down[i]);
      }
    }
  }

  lemma SenderFrame(s: State, u: State)
    requires u.next == s.next && u.current == s.current && u.closed == s.closed && u.past == s.past
    ensures Numbered(s) == Numbered(u) && forall id :: Known(u, id) == Known(s, id)
  {}

  /** Records stay fitting while the sender does nothing. */
  lemma UpKept(s: State, u: State)
    requires u.current == s.current && u.past == s.past && (u.up == s.up || (s.up != [] && u.up == s.up[1..]))
    requires forall i :: 0 <= i < |s.up| ==> RecordFits(s, s.up[i])
    ensures forall i :: 0 <= i < |u.up| ==> RecordFits(u, u.up[i])
  {
    forall i | 0 <= i < |u.up| ensures RecordFits(u, u.up[i]) {
      var j := if u.up == s.up then i else i + 1;
      assert RecordFits(s, s.up[j]) && u.up[i] == s.up[j];
    }
  }

  lemma StopFaithful(s: State, step: Step)
    requires Inv(s) && Enabled(s, step) && step.HostStops?
    ensures Faithful(Next(s, step))
  {
    hide Numbered, Honest, NotYet;
    var u := Next(s, step);
    SenderFrame(s, u);
    UpKept(s, u);
  }

  lemma StopOrdered(s: State, step: Step)
    requires Inv(s) && Enabled(s, step) && step.HostStops?
    ensures Ordered(Next(s, step)) && NotYet(Next(s, step))
  {
    hide Numbered, Honest, RecordFits;
    SenderFrame(s, Next(s, step));
  }

  lemma StopHonest(s: State, step: Step)
    requires Inv(s) && Enabled(s, step) && step.HostStops?
    ensures Honest(Next(s, step))
  {
    hide Numbered, RecordFits;
    var u := Next(s, step);
    SenderFrame(s, u);
    forall i | 0 <= i < |s.down| ensures ReplyIsTrue(u, s.down[i]) { assert ReplyIsTrue(s, s.down[i]); }
  }

  lemma StopKeeps(s: State, step: Step)
    requires Inv(s) && Enabled(s, step) && step.HostStops?
    ensures Inv(Next(s, step))
  {
    hide Numbered, Faithful, Ordered, NotYet, Honest;
    SenderFrame(s, Next(s, step));
    StopFaithful(s, step);
    StopOrdered(s, step);
    StopHonest(s, step);
  }

  lemma CommitKeeps(s: State, op: HostOp)
    requires Inv(s) && s.host.pending == Some(op) && s.host.finished.None? && Executable(s.host, op)
    ensures Faithful(s.(host := Commit(s.host, op)))
  {
    hide Honest, NotYet;
    var u := s.(host := Commit(s.host, op));
    SenderFrame(s, u);
    assert RecordFits(s, AsRecord(op));
    UpKept(s, u);
    var content := Known(s, op.id).value.content;
    match op {
      case Begin(id, _) => assert id < s.next;
      case Write(_, offset, bytes) => assert content[..offset] + bytes == content[..offset + |bytes|];
      case Finish(_) => assert content[..|content|] == content;
    }
  }

  /** A result, a stop, or a dropped file changes nothing of what was sent. */
  lemma ResultKeeps(s: State, h: Host)
    requires Faithful(s)
    requires h == s.host.(finished := h.finished, stopped := h.stopped, file := h.file, synced := h.synced)
    requires h.file.None? || h.file == s.host.file
    ensures Faithful(s.(host := h))
  {
    var u := s.(host := h);
    assert forall id :: Known(u, id) == Known(s, id);
    forall i | 0 <= i < |u.up| ensures RecordFits(u, u.up[i]) { assert RecordFits(s, s.up[i]); }
  }

  lemma WorkerFaithful(s: State, step: Step)
    requires Inv(s) && Enabled(s, step) && step.WorkerRuns?
    ensures Faithful(Next(s, step))
  {
    hide Numbered, Honest, NotYet, Faithful, Ordered, Commit;
    var op := s.host.pending.value;
    var u := Next(s, step);
    if Executable(s.host, op) {
      CommitKeeps(s, op);
      ResultKeeps(s.(host := Commit(s.host, op)),
        Commit(s.host, op).(finished := u.host.finished, stopped := u.host.stopped, synced := u.host.synced));
    }
    var synced := u.host.synced;
    ResultKeeps(s, s.host.(finished := u.host.finished, stopped := u.host.stopped, synced := synced));
    ResultKeeps(s, s.host.(finished := u.host.finished, stopped := u.host.stopped, file := None, synced := synced));
    assert CommitStop(s.host, op) by { CommitStops(s.host, op); }
  }

  ghost predicate CommitStop(h: Host, op: HostOp) {
    Executable(h, op) ==> Commit(h, op).stopped == h.stopped && Commit(h, op).finished == h.finished
  }

  lemma CommitStops(h: Host, op: HostOp)
    ensures CommitStop(h, op)
  {}

  /** A step makes a publication durable if and only if it is the worker succeeding,
      durably, at the last operation of that transfer; and nothing undoes it. */
  lemma DurableOnlyByWorker(s: State, step: Step, id: nat)
    requires Inv(s) && Enabled(s, step)
    ensures var h, g := s.host, Next(s, step).host;
      && (id in h.synced ==> id in g.synced)
      && (id in g.synced && id !in h.synced <==>
         step == WorkerRuns(Succeeds(true)) && h.pending == Some(Finish(id)) && Executable(h, Finish(id)))
  {
    hide Numbered, Faithful, Ordered, Honest, IsTrue, ReplyIsTrue;
    match step {
      case WorkerRuns(how) => WorkerFrame(s, step);
      case HostTakes(verdict) => AdmitFrame(s.host, s.up[0], verdict);
      case _ =>
    }
  }

  /** What running an operation may change. */
  lemma ExecuteFrame(h: Host, op: HostOp, how: Execution)
    requires op.id !in h.store
    ensures var g := Execute(h, op, how);
      && g.pending == h.pending && g.active == h.active && g.finished.Some? && (h.stopped ==> g.stopped)
      && h.floor <= g.floor && (g.floor != h.floor ==> op.Begin? && g.floor == op.id)
      && (g.finished.value.Begun? ==> op.Begin? && g.floor == op.id)
      && (g.finished.value.DidPublish? ==> op.Finish? && op.id in g.store && g.finished.value.bytes == |g.store[op.id]|)
      && g.synced == h.synced + (if g.finished.value.DidPublish? && g.finished.value.durable then {op.id} else {})
      && (g.store == h.store || (op.Finish? && Committing(g) && g.store.Keys == h.store.Keys + {op.id}))
      && (forall id :: id in h.store ==> id in g.store && g.store[id] == h.store[id])
  {}

  lemma WorkerFrame(s: State, step: Step)
    requires Inv(s) && Enabled(s, step) && step.WorkerRuns?
    ensures s.host.pending.value.id !in s.host.store && (s.host.pending.value.Finish? ==> s.up == [])
  {
    hide Numbered, Honest, RecordFits, Faithful;
  }

  lemma WorkerOrdered(s: State, step: Step)
    requires Inv(s) && Enabled(s, step) && step.WorkerRuns?
    ensures Ordered(Next(s, step)) && NotYet(Next(s, step))
  {
    WorkerFrame(s, step);
    ExecuteFrame(s.host, s.host.pending.value, step.how);
    hide Numbered, Honest, RecordFits, Faithful, Execute;
    SenderFrame(s, Next(s, step));
  }

  lemma WorkerHonest(s: State, step: Step)
    requires Inv(s) && Enabled(s, step) && step.WorkerRuns?
    ensures Honest(Next(s, step))
  {
    WorkerFrame(s, step);
    ExecuteFrame(s.host, s.host.pending.value, step.how);
    hide Numbered, RecordFits, Faithful, Execute;
    var u := Next(s, step);
    SenderFrame(s, u);
    forall i | 0 <= i < |s.down| ensures ReplyIsTrue(u, s.down[i]) { assert ReplyIsTrue(s, s.down[i]); }
  }

  lemma WorkerKeeps(s: State, step: Step)
    requires Inv(s) && Enabled(s, step) && step.WorkerRuns?
    ensures Inv(Next(s, step))
  {
    hide Numbered, Faithful, Ordered, NotYet, Honest;
    SenderFrame(s, Next(s, step));
    WorkerFaithful(s, step);
    WorkerOrdered(s, step);
    WorkerHonest(s, step);
  }

  /** Taking a record changes nothing but what is pending and whether the host stops. */
  lemma AdmitFrame(h: Host, r: Record, verdict: Verdict)
    ensures var g := Admit(h, r, verdict).0;
      && g == h.(pending := g.pending, stopped := g.stopped) && (h.stopped ==> g.stopped)
      && (g.pending == h.pending || (g.pending.Some? && AsRecord(g.pending.value) == r))
  {}

  lemma TakeFaithful(s: State, step: Step)
    requires Inv(s) && Enabled(s, step) && step.HostTakes?
    ensures Faithful(Next(s, step))
  {
    hide Numbered, Honest, NotYet, Ordered, Admit;
    AdmitFrame(s.host, s.up[0], step.verdict);
    var u := Next(s, step);
    SenderFrame(s, u);
    assert RecordFits(s, s.up[0]);
    UpKept(s, u);
  }

  lemma TakeOrdered(s: State, step: Step)
    requires Inv(s) && Enabled(s, step) && step.HostTakes?
    ensures Ordered(Next(s, step)) && NotYet(Next(s, step))
  {
    hide Numbered, Honest, RecordFits;
    SenderFrame(s, Next(s, step));
  }

  lemma TakeHonest(s: State, step: Step)
    requires Inv(s) && Enabled(s, step) && step.HostTakes?
    ensures Honest(Next(s, step))
  {
    hide Numbered, RecordFits;
    var u := Next(s, step);
    SenderFrame(s, u);
    forall i | 0 <= i < |s.down| ensures ReplyIsTrue(u, s.down[i]) { assert ReplyIsTrue(s, s.down[i]); }
  }

  lemma TakeKeeps(s: State, step: Step)
    requires Inv(s) && Enabled(s, step) && step.HostTakes?
    ensures Inv(Next(s, step))
  {
    hide Numbered, Faithful, Ordered, NotYet, Honest;
    SenderFrame(s, Next(s, step));
    TakeFaithful(s, step);
    TakeOrdered(s, step);
    TakeHonest(s, step);
  }

  lemma PollFaithful(s: State, step: Step)
    requires Inv(s) && Enabled(s, step) && step.HostPolls?
    ensures Faithful(Next(s, step))
  {
    PollFrame(s, step);
    hide Numbered, Honest, NotYet, Ordered, Poll;
    var u := Next(s, step);
    SenderFrame(s, u);
    UpKept(s, u);
  }

  /** What a poll leaves and answers. */
  lemma PollFrame(s: State, step: Step)
    requires Inv(s) && Enabled(s, step) && step.HostPolls?
    ensures var h := s.host; var (g, reply) := Poll(h); var id := h.pending.value.id;
      && g.pending.None? && g.finished.None? && g.store == h.store && g.floor == h.floor && g.file == h.file
      && g.synced == h.synced
      && (h.stopped ==> g.stopped)
      && (g.active.Some? ==> g.active.value.id !in g.store)
      && (reply.Some? ==> reply.value.id == id)
      && (reply.Some? && reply.value.Accept? ==> id <= g.floor)
      && (reply.Some? && reply.value.Done? && reply.value.disposition == RefusedDisposition ==>
         g.stopped && id !in g.store)
      && (reply.Some? && reply.value.Done? && reply.value.disposition !in {RefusedDisposition, UnknownEffect} ==>
           && id in g.store && reply.value.bytes == |g.store[id]|
           && (reply.value.disposition == PublishedDurable <==> id in g.synced))
  {
    hide Numbered, Honest, RecordFits, Faithful;
  }

  lemma PollOrdered(s: State, step: Step)
    requires Inv(s) && Enabled(s, step) && step.HostPolls?
    ensures Ordered(Next(s, step)) && NotYet(Next(s, step))
  {
    PollFrame(s, step);
    hide Numbered, Honest, RecordFits, Poll, Faithful;
    SenderFrame(s, Next(s, step));
  }

  lemma PollHonest(s: State, step: Step)
    requires Inv(s) && Enabled(s, step) && step.HostPolls?
    ensures Honest(Next(s, step))
  {
    PollFrame(s, step);
    hide Numbered, RecordFits, Poll, Faithful, Ordered, NotYet;
    var u := Next(s, step);
    SenderFrame(s, u);
    forall i | 0 <= i < |s.down| ensures ReplyIsTrue(u, s.down[i]) { assert ReplyIsTrue(s, s.down[i]); }
  }

  lemma PollKeeps(s: State, step: Step)
    requires Inv(s) && Enabled(s, step) && step.HostPolls?
    ensures Inv(Next(s, step))
  {
    hide Numbered, Faithful, Ordered, NotYet, Honest;
    SenderFrame(s, Next(s, step));
    PollFaithful(s, step);
    PollOrdered(s, step);
    PollHonest(s, step);
  }

  lemma StepKeeps(s: State, step: Step)
    requires Inv(s) && Enabled(s, step)
    ensures Inv(Next(s, step))
  {
    hide Numbered, Faithful, Ordered, NotYet, Honest;
    match step {
      case Begins(_) => BeginKeeps(s, step);
      case Sends(_) => SendKeeps(s, step);
      case TakesReply => ReplyKeeps(s, step);
      case SenderFails => FailKeeps(s);
      case Collects => CollectKeeps(s, step);
      case HostTakes(_) => TakeKeeps(s, step);
      case HostStops => StopKeeps(s, step);
      case WorkerRuns(_) => WorkerKeeps(s, step);
      case HostPolls => PollKeeps(s, step);
    }
  }

  // ------------------------------------------------------------------- whole runs

  ghost predicate IsRun(states: seq<State>, steps: seq<Step>) {
    && |states| == |steps| + 1 && states[0] == Start()
    && forall i :: 0 <= i < |steps| ==> Enabled(states[i], steps[i]) && states[i + 1] == Next(states[i], steps[i])
  }

  lemma StartHolds()
    ensures Inv(Start())
  {}

  lemma {:induction false} RunKeeps(states: seq<State>, steps: seq<Step>, n: nat)
    requires IsRun(states, steps) && n <= |steps|
    ensures Inv(states[n])
  {
    hide Inv, Next, Enabled;
    if n == 0 {
      StartHolds();
    } else {
      RunKeeps(states, steps, n - 1);
      StepKeeps(states[n - 1], steps[n - 1]);
    }
  }

  /** A transfer keeps its content, and a reported outcome is never replaced. */
  lemma StepExtends(s: State, step: Step, id: nat)
    requires Inv(s) && Enabled(s, step) && Known(s, id).Some?
    ensures var u := Next(s, step);
      && Known(u, id).Some? && Known(u, id).value.content == Known(s, id).value.content
      && (Known(s, id).value.result.Some? ==> Known(u, id).value.result == Known(s, id).value.result)
  {
    hide Faithful, Ordered, NotYet, Honest;
  }

  lemma {:induction false} OutcomeIsFinal(states: seq<State>, steps: seq<Step>, m: nat, n: nat, id: nat)
    requires IsRun(states, steps) && m <= n <= |steps| && Known(states[m], id).Some?
    ensures Known(states[n], id).Some? && Known(states[n], id).value.content == Known(states[m], id).value.content
    ensures Known(states[m], id).value.result.Some? ==>
      Known(states[n], id).value.result == Known(states[m], id).value.result
    decreases n - m
  {
    hide Inv, Next, Enabled, Known;
    if m < n {
      OutcomeIsFinal(states, steps, m, n - 1, id);
      RunKeeps(states, steps, n - 1);
      StepExtends(states[n - 1], steps[n - 1], id);
    }
  }

  /** Whatever the disk, the host and the sender's own failures do: once the sender
      reports an outcome, it stays the outcome. "Published" means that the host's
      directory holds exactly the sender's bytes under this transfer, and "durable" that
      the host made that publication durable; "refused" and
      "interrupted before publication" mean that it holds nothing for this transfer,
      then or ever after. */
  lemma ReportsAreTrue(states: seq<State>, steps: seq<Step>, m: nat, n: nat, id: nat)
    requires IsRun(states, steps) && m <= n <= |steps|
    requires Known(states[m], id).Some? && Known(states[m], id).value.result.Some?
    ensures var t := Known(states[m], id).value; var store := states[n].host.store;
      match t.result.value
      case Published(bytes, durable) =>
        && id in store && store[id] == t.content && bytes == |t.content|
        && (durable <==> id in states[n].host.synced)
      case RefusedByPeer => id !in store
      case InterruptedBeforePublication => id !in store
      case PublicationUnknown => true
  {
    hide IsRun, Next, Ordered, NotYet;
    OutcomeIsFinal(states, steps, m, n, id);
    RunKeeps(states, steps, n);
  }

  /** What is published stays published as it was; what was refused stays out. */
  lemma StepKeepsTruth(s: State, step: Step, id: nat, o: Outcome)
    requires Inv(s) && Enabled(s, step) && IsTrue(s, id, o) && (o.Published? || o.RefusedByPeer?)
    ensures IsTrue(Next(s, step), id, o)
  {
    hide Numbered, Faithful, Ordered, Honest, ReplyIsTrue;
    match step {
      case WorkerRuns(how) => WorkerFrame(s, step); ExecuteFrame(s.host, s.host.pending.value, how);
      case HostTakes(verdict) => AdmitFrame(s.host, s.up[0], verdict);
      case HostPolls => PollFrame(s, step);
      case _ =>
    }
  }

  lemma {:induction false} TruthLasts(states: seq<State>, steps: seq<Step>, m: nat, n: nat, id: nat, o: Outcome)
    requires IsRun(states, steps) && m <= n <= |steps|
    requires IsTrue(states[m], id, o) && (o.Published? || o.RefusedByPeer?)
    ensures IsTrue(states[n], id, o)
    decreases n - m
  {
    hide Inv, Next, Enabled, IsTrue;
    if m < n {
      TruthLasts(states, steps, m, n - 1, id, o);
      RunKeeps(states, steps, n - 1);
      StepKeepsTruth(states[n - 1], steps[n - 1], id, o);
    }
  }

  /** Every final reply that is ever in the lane is true from then on: "published
      durably" and "published, durability unknown" of a file that is there, with that
      length, and that was or was not made durable; "refused" of one that never will be
      there. */
  lemma RepliesAreTrue(states: seq<State>, steps: seq<Step>, m: nat, n: nat, i: nat)
    requires IsRun(states, steps) && m <= n <= |steps|
    requires i < |states[m].down| && states[m].down[i].Done?
    ensures var r := states[m].down[i]; var host := states[n].host;
      match r.disposition
      case PublishedDurable => r.id in host.store && r.bytes == |host.store[r.id]| && r.id in host.synced
      case PublishedDurabilityUnknown => r.id in host.store && r.bytes == |host.store[r.id]| && r.id !in host.synced
      case RefusedDisposition => r.id !in host.store
      case UnknownEffect => true
  {
    hide Next, Enabled, Numbered, Faithful, Ordered, NotYet;
    RunKeeps(states, steps, m);
    var r := states[m].down[i];
    assert ReplyIsTrue(states[m], r);
    match r.disposition {
      case RefusedDisposition => TruthLasts(states, steps, m, n, r.id, RefusedByPeer);
      case UnknownEffect =>
      case _ => TruthLasts(states, steps, m, n, r.id, Published(r.bytes, r.disposition == PublishedDurable));
    }
  }

  // ------------------------------------------------------------ when an outcome is unknown

  /** One of the first `n` steps is a panic of the worker on this transfer. */
  ghost predicate Panicked(states: seq<State>, steps: seq<Step>, n: nat, id: nat)
    requires |states| == |steps| + 1 && n <= |steps|
  {
    exists k :: 0 <= k < n && steps[k].WorkerRuns? && steps[k].how.Panics? && OnPending(states[k], id)
  }

  predicate OnPending(s: State, id: nat) { s.host.pending.Some? && s.host.pending.value.id == id }

  /** Where doubt about a transfer may stand: in the worker's result, in a reply, in the
      sender's outcome. */
  predicate Doubts(s: State, id: nat) {
    || (s.host.finished == Some(Uncertain) && OnPending(s, id))
    || (exists r :: r in s.down && r.Done? && r.disposition == UnknownEffect && r.id == id)
    || (Known(s, id).Some? && Known(s, id).value.result == Some(PublicationUnknown)
        && !Known(s, id).value.completionAdmitted)
  }

  /** Doubt comes only from a panic of the worker. */
  lemma StepDoubts(s: State, step: Step, id: nat)
    requires Inv(s) && Enabled(s, step) && Doubts(Next(s, step), id)
    ensures Doubts(s, id) || (step.WorkerRuns? && step.how.Panics? && OnPending(s, id))
  {
    hide Faithful, Ordered, Honest, MaySend, Admit, Commit, Executable, Execute;
    if step.HostTakes? { AdmitDoubts(s.host, s.up[0], step.verdict); }
    if step.TakesReply? && s.current.Some? && OnReply(s.current.value, s.down[0]).Some? { assert s.down[0] in s.down; }
    if step.WorkerRuns? { ExecuteDoubts(s.host, s.host.pending.value, step.how); }
  }

  lemma AdmitDoubts(h: Host, r: Record, verdict: Verdict)
    ensures var (g, reply) := Admit(h, r, verdict);
      && g.finished == h.finished && (h.pending.Some? ==> g.pending == h.pending || g.pending.Some?)
      && (reply.Some? ==> reply.value.Done? && reply.value.disposition == RefusedDisposition)
  {}

  lemma ExecuteDoubts(h: Host, op: HostOp, how: Execution)
    ensures var g := Execute(h, op, how);
      g.pending == h.pending && (g.finished == Some(Uncertain) <==> how.Panics?)
  {}

  lemma {:induction false} DoubtsHaveAPanic(states: seq<State>, steps: seq<Step>, n: nat, id: nat)
    requires IsRun(states, steps) && n <= |steps| && Doubts(states[n], id)
    ensures Panicked(states, steps, n, id)
  {
    hide Inv, Next, Enabled, Doubts, OnPending;
    if n == 0 {
      NoDoubtsYet(id);
      assert false;
    } else {
      RunKeeps(states, steps, n - 1);
      StepDoubts(states[n - 1], steps[n - 1], id);
      if Doubts(states[n - 1], id) {
        DoubtsHaveAPanic(states, steps, n - 1, id);
        var k :| 0 <= k < n - 1 && steps[k].WorkerRuns? && steps[k].how.Panics? && OnPending(states[k], id);
      } else {
        assert OnPending(states[n - 1], id);
      }
    }
  }

  lemma NoDoubtsYet(id: nat)
    ensures !Doubts(Start(), id)
  {}

  /** The sender says "unknown" only where it must: the final record had entered the lane,
      or the host's worker had panicked on this transfer. */
  lemma UnknownIsJustified(states: seq<State>, steps: seq<Step>, n: nat, id: nat)
    requires IsRun(states, steps) && n <= |steps|
    requires Known(states[n], id).Some? && Known(states[n], id).value.result == Some(PublicationUnknown)
    ensures Known(states[n], id).value.completionAdmitted || Panicked(states, steps, n, id)
  {
    hide Inv, Next, Enabled, Panicked;
    if !Known(states[n], id).value.completionAdmitted { DoubtsHaveAPanic(states, steps, n, id); }
  }

  /** A reply is taken exactly where it is owed: acceptance of the offered size for an
      offer on its way; a final reply for anything offered, of which "published" only after
      the final record and with the full length. */
  lemma TakenExactly(t: Sending, r: Reply)
    ensures OnReply(t, r).Some? <==>
      && r.id == t.id && t.result.None?
      && (r.Accept? ==> t.stage == AwaitingAcceptance && r.size == |t.content|)
      && (r.Done? ==> t.stage != Preparing)
      && (r.Done? && r.disposition in {PublishedDurable, PublishedDurabilityUnknown} ==>
         t.stage == AwaitingProof && r.bytes == |t.content|)
    ensures OnReply(t, r).Some? ==>
      var u := OnReply(t, r).value;
      && u.id == t.id && u.content == t.content && u.queued == t.queued && u.completionAdmitted == t.completionAdmitted
      && (r.Accept? ==> u.result.None? && u.stage == Streaming)
      && (r.Done? ==> u.result.Some? && u.stage == Finished)
  {}

  // ------------------------------------------------------------ a transfer completes

  ghost predicate Runs(s: State, steps: seq<Step>)
    decreases |steps|
  {
    steps == [] || (Enabled(s, steps[0]) && Runs(Next(s, steps[0]), steps[1..]))
  }

  ghost function After(s: State, steps: seq<Step>): (r: State)
    requires Runs(s, steps)
    decreases |steps|
  {
    if steps == [] then s else After(Next(s, steps[0]), steps[1..])
  }

  lemma {:induction false} InTurn(s: State, first: seq<Step>, second: seq<Step>)
    requires Runs(s, first) && Runs(After(s, first), second)
    ensures Runs(s, first + second) && After(s, first + second) == After(After(s, first), second)
    decreases |first|
  {
    hide Next, Enabled;
    if first == [] {
      assert first + second == second;
    } else {
      InTurn(Next(s, first[0]), first[1..], second);
      assert (first + second)[1..] == first[1..] + second;
    }
  }

  /** One record goes up, is admitted, executed and polled. */
  function Carried(r: Record, durable: bool): (steps: seq<Step>) {
    [Sends(r), HostTakes(Fits), WorkerRuns(Succeeds(durable)), HostPolls]
  }

  /** Nothing is under way at either end. */
  predicate AtRest(s: State) {
    && !s.closed && s.current.None? && s.up == [] && s.down == []
    && !s.host.stopped && s.host.active.None? && s.host.pending.None? && s.host.finished.None? && s.host.file.None?
    && s.host.floor < s.next && s.host.last < s.next
  }

  /** From rest, an offer the host cannot take, and that had no effect, is refused: the
      sender learns it, and nothing of it is in the directory. */
  lemma RefusalIsTold(s: State, content: seq<Byte>)
    requires AtRest(s) && s.next !in s.host.store
    ensures var steps := [Begins(content), Sends(Offer(s.next, |content|)), HostTakes(Unfit(true)), TakesReply];
      && Runs(s, steps)
      && var r := After(s, steps);
         && r.current.Some? && r.current.value.id == s.next && r.current.value.result == Some(RefusedByPeer)
         && r.host.store == s.host.store && r.closed && r.host.stopped
  {
    var a := Next(s, Begins(content));
    var b := Next(a, Sends(Offer(s.next, |content|)));
    assert b.up == [Offer(s.next, |content|)];
    var c := Next(b, HostTakes(Unfit(true)));
    assert c.down == [Done(s.next, RefusedDisposition, 0)];
    var d := Next(c, TakesReply);
    Four(s, Begins(content), a, Sends(Offer(s.next, |content|)), b, HostTakes(Unfit(true)), c, TakesReply, d);
  }

  /** A transfer from rest of which this many bytes are already staged. */
  function Midway(s: State, content: seq<Byte>, done: nat): (r: State)
    requires done <= |content|
  {
    var id := s.next;
    s.(next := id + 1, current := Some(Sending(id, content, Streaming, done, false, None)),
       host := s.host.(active := Some(Progress(id, done, |content|)),
                       file := Some(Staged(id, |content|, content[..done])), floor := id, last := id))
  }

  lemma OfferCarried(s: State, content: seq<Byte>)
    requires AtRest(s)
    ensures var steps := [Begins(content)] + Carried(Offer(s.next, |content|), false) + [TakesReply];
      Runs(s, steps) && After(s, steps) == Midway(s, content, 0)
  {
    var a := Next(s, Begins(content));
    var b := Next(a, Sends(Offer(s.next, |content|)));
    assert b.up == [Offer(s.next, |content|)];
    var c := Next(b, HostTakes(Fits));
    var d := Next(c, WorkerRuns(Succeeds(false)));
    var e := Next(d, HostPolls);
    assert e.down == [Accept(s.next, |content|)];
    var f := Next(e, TakesReply);
    assert f == Midway(s, content, 0);
    Six(s, Begins(content), a, Sends(Offer(s.next, |content|)), b, HostTakes(Fits), c,
        WorkerRuns(Succeeds(false)), d, HostPolls, e, TakesReply, f);
    assert [Begins(content)] + Carried(Offer(s.next, |content|), false) + [TakesReply]
        == [Begins(content), Sends(Offer(s.next, |content|)), HostTakes(Fits), WorkerRuns(Succeeds(false)), HostPolls,
            TakesReply];
  }

  lemma Four(s: State, p: Step, a: State, q: Step, b: State, r: Step, c: State, t: Step, d: State)
    requires Enabled(s, p) && a == Next(s, p) && Enabled(a, q) && b == Next(a, q)
    requires Enabled(b, r) && c == Next(b, r) && Enabled(c, t) && d == Next(c, t)
    ensures Runs(s, [p, q, r, t]) && After(s, [p, q, r, t]) == d
  {
    hide Next, Enabled;
    assert Runs(d, []) && After(d, []) == d;
    assert [t][1..] == [] && Runs(c, [t]) && After(c, [t]) == d;
    assert [r, t][1..] == [t] && Runs(b, [r, t]) && After(b, [r, t]) == d;
    assert [q, r, t][1..] == [r, t] && Runs(a, [q, r, t]) && After(a, [q, r, t]) == d;
    assert [p, q, r, t][1..] == [q, r, t];
  }

  lemma Six(s: State, p: Step, a: State, q: Step, b: State, r: Step, c: State, t: Step, d: State,
      u: Step, e: State, v: Step, f: State)
    requires Enabled(s, p) && a == Next(s, p) && Enabled(a, q) && b == Next(a, q) && Enabled(b, r) && c == Next(b, r)
    requires Enabled(c, t) && d == Next(c, t) && Enabled(d, u) && e == Next(d, u) && Enabled(e, v) && f == Next(e, v)
    ensures Runs(s, [p, q, r, t, u, v]) && After(s, [p, q, r, t, u, v]) == f
  {
    hide Next, Enabled;
    Four(b, r, c, t, d, u, e, v, f);
    assert [q, r, t, u, v][1..] == [r, t, u, v] && Runs(a, [q, r, t, u, v]) && After(a, [q, r, t, u, v]) == f;
    assert [p, q, r, t, u, v][1..] == [q, r, t, u, v];
  }

  lemma PieceCarried(s: State, content: seq<Byte>, done: nat, piece: seq<Byte>)
    requires AtRest(s) && done + |piece| <= |content| && piece != []
    requires piece == content[done..done + |piece|]
    ensures var steps := Carried(Data(s.next, done, piece), false);
      && Runs(Midway(s, content, done), steps)
      && After(Midway(s, content, done), steps) == Midway(s, content, done + |piece|)
  {
    var m := Midway(s, content, done);
    var a := Next(m, Sends(Data(s.next, done, piece)));
    assert a.up == [Data(s.next, done, piece)];
    var b := Next(a, HostTakes(Fits));
    var c := Next(b, WorkerRuns(Succeeds(false)));
    assert content[..done] + piece == content[..done + |piece|];
    var d := Next(c, HostPolls);
    assert d == Midway(s, content, done + |piece|);
    Four(m, Sends(Data(s.next, done, piece)), a, HostTakes(Fits), b, WorkerRuns(Succeeds(false)), c, HostPolls, d);
  }

  /** Everything after the last piece: the final record, the proof, the result. */
  function Closing(id: nat, durable: bool): (steps: seq<Step>) {
    Carried(Completion(id), durable) + [TakesReply, Collects]
  }

  /** The file is in the directory, and the proof of it on its way. */
  function Proven(s: State, content: seq<Byte>, durable: bool): (r: State) {
    var id := s.next;
    s.(next := id + 1, current := Some(Sending(id, content, AwaitingProof, |content|, true, None)),
       down := [Done(id, if durable then PublishedDurable else PublishedDurabilityUnknown, |content|)],
       host := s.host.(floor := id, last := id, store := s.host.store[id := content],
                       synced := if durable then s.host.synced + {id} else s.host.synced))
  }

  lemma FinalCarried(s: State, content: seq<Byte>, durable: bool)
    requires AtRest(s)
    ensures var m, steps := Midway(s, content, |content|), Carried(Completion(s.next), durable);
      Runs(m, steps) && After(m, steps) == Proven(s, content, durable)
  {
    var m := Midway(s, content, |content|);
    var a := Next(m, Sends(Completion(s.next)));
    assert a.up == [Completion(s.next)];
    var b := Next(a, HostTakes(Fits));
    assert content[..|content|] == content;
    var c := Next(b, WorkerRuns(Succeeds(durable)));
    var d := Next(c, HostPolls);
    assert d == Proven(s, content, durable);
    Four(m, Sends(Completion(s.next)), a, HostTakes(Fits), b, WorkerRuns(Succeeds(durable)), c, HostPolls, d);
  }

  lemma ClosingCarried(s: State, content: seq<Byte>, durable: bool)
    requires AtRest(s)
    ensures var m, steps := Midway(s, content, |content|), Closing(s.next, durable);
      && Runs(m, steps)
      && var r := After(m, steps);
         && AtRest(r) && r.next == s.next + 1
         && s.next in r.past && r.past[s.next].result == Some(Published(|content|, durable))
         && r.past[s.next].content == content && r.host.store == s.host.store[s.next := content]
  {
    hide Carried, Midway;
    FinalCarried(s, content, durable);
    var d := Proven(s, content, durable);
    var e := Next(d, TakesReply);
    var f := Next(e, Collects);
    assert [TakesReply, Collects][1..] == [Collects] && [Collects][1..] == [];
    assert Runs(f, []) && Runs(e, [Collects]) && Runs(d, [TakesReply, Collects]);
    assert After(f, []) == f && After(e, [Collects]) == f && After(d, [TakesReply, Collects]) == f;
    InTurn(Midway(s, content, |content|), Carried(Completion(s.next), durable), [TakesReply, Collects]);
  }

  function Joined(pieces: seq<seq<Byte>>): (content: seq<Byte>) {
    if pieces == [] then [] else pieces[0] + Joined(pieces[1..])
  }

  function Streamed(id: nat, done: nat, pieces: seq<seq<Byte>>): (steps: seq<Step>)
    decreases |pieces|
  {
    if pieces == [] then []
    else Carried(Data(id, done, pieces[0]), false) + Streamed(id, done + |pieces[0]|, pieces[1..])
  }

  lemma {:induction false} PiecesCarried(s: State, content: seq<Byte>, done: nat, pieces: seq<seq<Byte>>)
    requires AtRest(s) && done <= |content| && Joined(pieces) == content[done..]
    requires forall i :: 0 <= i < |pieces| ==> pieces[i] != []
    ensures var steps := Streamed(s.next, done, pieces);
      && Runs(Midway(s, content, done), steps)
      && After(Midway(s, content, done), steps) == Midway(s, content, |content|)
    decreases |pieces|
  {
    hide Next, Enabled, Carried, Midway, AtRest;
    if pieces != [] {
      var piece := pieces[0];
      assert piece == content[done..][..|piece|] && content[done..][..|piece|] == content[done..done + |piece|];
      PieceCarried(s, content, done, piece);
      assert Joined(pieces[1..]) == content[done..][|piece|..] == content[done + |piece|..];
      PiecesCarried(s, content, done + |piece|, pieces[1..]);
      InTurn(Midway(s, content, done), Carried(Data(s.next, done, piece), false),
             Streamed(s.next, done + |piece|, pieces[1..]));
    }
  }

  /** From rest, any file cut into any pieces gets across: each record is accepted where
      it is expected, the directory ends with exactly the file added, and the sender
      reports it published with its length and the durability the worker reached. Both
      ends are at rest again, ready for the next file. */
  lemma TransferCompletes(s: State, pieces: seq<seq<Byte>>, durable: bool)
    requires AtRest(s) && forall i :: 0 <= i < |pieces| ==> pieces[i] != []
    ensures var content := Joined(pieces);
      var steps := [Begins(content)] + Carried(Offer(s.next, |content|), false) + [TakesReply]
        + Streamed(s.next, 0, pieces) + Closing(s.next, durable);
      && Runs(s, steps)
      && var r := After(s, steps);
         && AtRest(r) && r.next == s.next + 1
         && s.next in r.past && r.past[s.next].result == Some(Published(|content|, durable))
         && r.past[s.next].content == content && r.host.store == s.host.store[s.next := content]
  {
    hide Next, Enabled, Carried, Midway, AtRest, Closing, Streamed;
    var content := Joined(pieces);
    assert content[0..] == content;
    OfferCarried(s, content);
    PiecesCarried(s, content, 0, pieces);
    ClosingCarried(s, content, durable);
    var offer := [Begins(content)] + Carried(Offer(s.next, |content|), false) + [TakesReply];
    InTurn(s, offer, Streamed(s.next, 0, pieces));
    InTurn(s, offer + Streamed(s.next, 0, pieces), Closing(s.next, durable));
  }
}
