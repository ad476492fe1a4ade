/** The viewer's one slot between its client and the transport, and whole lives of both:
    whatever happens in whatever order, the transport sees 0, 1, 2, ... */
module ViewerRuns {
  import opened Common
  import opened Input
  import opened Client

  class ControlledViewer {
    const client: InputClient
    /** The one record that was encoded and not yet taken by the transport. */
    var pending: Option<Unsent>
    var closed: bool

    /** Until this viewer is closed, the slot holds the only number that is encoded and
        not yet sent. */
    ghost predicate Valid()
      reads this, client, client.pending, client.receipts, client.keys, client.buttons, client.releasedKeys,
        client.releasedButtons
    {
      && client.Valid()
      && (!closed ==>
           client.unsent == if pending.Some? && pending.value.UnsentAction? then [pending.value.sequence] else [])
    }

    constructor (client: InputClient)
      requires client.Valid() && client.unsent == []
      ensures Valid() && this.client == client && fresh(this)
    {
      this.client, pending, closed := client, None, false;
    }

    method Close()
      modifies this`closed
      ensures closed
    {
      closed := true;
    }

    /** A suspension returns the record the transport never took. */
    method AbandonIfSuspended()
      requires Valid()
      modifies this, client, client.pending
      ensures Valid() && client.sent == old(client.sent) && (old(closed) ==> closed)
      ensures old(closed || client.suspendedSince.None?) ==>
        unchanged(this) && unchanged(client) && unchanged(client.pending)
      ensures old(!closed && client.suspendedSince.Some?) ==> pending.None? && (!closed ==> client.unsent == [])
    {
      hide InputClient.Valid;
      if closed || client.suspendedSince.None? || pending.None? { return; }
      var record := pending.value;
      pending := None;
      var r := client.AbandonUnsent(record);
      if r.Err? { Close(); }
    }

    /** The slot is free, and the client would send. */
    ghost predicate CanSend(now: u64)
      reads this, client, client.pending
    {
      !closed && pending.None? && client.Sendable(now)
    }

    /** Housekeeping changed nothing that an action is decided on. */
    twostate predicate Unmoved()
      reads client, client.pending, client.keys, client.buttons, client.releasedKeys, client.releasedButtons
    {
      && client.View() == old(client.View()) && client.nextAction == old(client.nextAction)
      && client.nextPointer == old(client.nextPointer) && client.unsent == old(client.unsent)
      && client.pending[..] == old(client.pending[..])
    }

    /** Housekeeping; success means that a record may be encoded now. */
    method Slot(now: u64) returns (free: bool)
      requires Valid()
      modifies this, client, client.pending, client.keys, client.buttons, client.releasedKeys, client.releasedButtons
      ensures Valid() && client.sent == old(client.sent) && (free ==> !closed && pending.None?)
      ensures old(CanSend(now)) ==> free && CanSend(now) && Unmoved()
    {
      hide InputClient.Valid;
      if closed { return false; }
      Maintain(now);
      AbandonIfSuspended();
      free := !closed && pending.None?;
    }

    method Maintain(now: u64)
      requires Valid()
      modifies this, client, client.keys, client.buttons, client.releasedKeys, client.releasedButtons
      ensures Valid() && client.sent == old(client.sent) && pending == old(pending)
      ensures old(CanSend(now)) ==> CanSend(now) && Unmoved()
    {
      hide InputClient.Numbered, InputClient.Accounted, InputClient.Shape;
      var r := client.Tick(now);
      if r.Err? { Close(); }
    }

    /** One action into the one slot. If the slot is free and the client would send, it is
        encoded exactly if it is granted and numbers and places are left. */
    method Action(action: Action, encodes: bool, now: u64) returns (encoded: bool)
      requires Valid()
      modifies this, client, client.pending, client.keys, client.buttons, client.releasedKeys, client.releasedButtons
      ensures Valid() && client.sent == old(client.sent)
      ensures encoded ==> !closed && pending.Some? && pending.value.UnsentAction?
      ensures encoded && old(CanSend(now)) ==> old(client.nextAction) == Some(pending.value.sequence)
      ensures old(CanSend(now)) ==>
        (encoded <==>
          && encodes && (exists i :: 0 <= i < client.pending.Length && old(client.pending[i]).None?)
          && old(client.nextAction).Some?
          && (action.ButtonAction? || action.ScrollAction? ==> old(client.nextPointer).Some?)
          && now + client.receiptTimeout <= U64_MAX
          && EventFor(old(client.View()), action, InputClient.Barrier(action, old(client.nextPointer))).Ok?)
    {
      hide InputClient.Valid, EventFor, InputClient.Sendable;
      encoded := false;
      var free := Slot(now);
      if !free { return; }
      ghost var p := client.pending[..];
      ghost var barrier;
      var r;
      r, barrier := client.Act(action, encodes, now);
      if r.Ok? {
        pending := Some(UnsentAction(r.value.0));
        encoded := true;
      }
      assert old(CanSend(now)) ==> forall i :: 0 <= i < client.pending.Length ==> p[i] == old(client.pending[..])[i];
    }

    method Pointer(position: DesktopPoint, encodes: bool, now: u64)
      requires Valid()
      modifies this, client, client.pending, client.keys, client.buttons, client.releasedKeys, client.releasedButtons
      ensures Valid() && client.sent == old(client.sent)
    {
      hide InputClient.Valid;
      var free := Slot(now);
      if !free { return; }
      var r := client.MovePointer(position, encodes, now);
      if r.Ok? { pending := Some(UnsentPointer); }
    }

    method Snapshot(observed: set<Held>, encodes: bool, now: u64)
      requires Valid()
      modifies this, client, client.pending, client.keys, client.buttons, client.releasedKeys, client.releasedButtons
      ensures Valid() && client.sent == old(client.sent)
    {
      hide InputClient.Valid;
      var free := Slot(now);
      if !free { return; }
      var r := client.ReconcileHeld(observed, encodes, now);
      if r.Ok? && r.value.Some? { pending := Some(UnsentHeld(r.value.value.sequence)); }
    }

    /** The transport took the record, all of it. */
    method Admit()
      requires Valid()
      modifies this, client
      ensures Valid() && old(client.sent) <= client.sent
      ensures client.sent == old(client.sent)
        + if !closed && old(pending).Some?
          && old(pending).value.UnsentAction? then [old(pending).value.sequence] else []
    {
      hide InputClient.Valid;
      if closed || pending.None? { return; }
      if pending.value.UnsentAction? { client.Admitted(); }
      pending := None;
    }

    /** Whether the transport took it or not, a position that is too old is dropped. */
    method DropPointer()
      requires Valid()
      modifies this
      ensures Valid()
    {
      if pending == Some(UnsentPointer) { pending := None; }
    }
  }

  /** A new grant with a confirmed mapping and one fresh picture sends every action it is
      granted, as its number zero. */
  method FirstAction(bounds: InputBounds, capabilities: Capabilities, viewBound: u64, receiptTimeout: u64,
                     action: Action, now: u64)
    returns (client: InputClient, r: Result<(u64, Prepared), Error>)
    requires 0 < viewBound && now + viewBound <= U64_MAX && 0 < receiptTimeout && now + receiptTimeout <= U64_MAX
    requires EventFor(ClientView(capabilities, bounds, NOTHING_HELD, NOTHING_HELD), action, 0).Ok?
    ensures fresh(client) && client.Valid() && client.unsent == [0]
    ensures r.Ok? && r.value.0 == 0
      && Ok(r.value.1) == EventFor(ClientView(capabilities, bounds, NOTHING_HELD, NOTHING_HELD), action, 0)
  {
    hide InputClient.Valid, EventFor, Untouched;
    client := new InputClient(bounds, capabilities, viewBound, receiptTimeout, now);
    var mapped := client.ConfirmMapping(true, true, now);
    var seen := client.Presented(1, true, now, 0, now);
    assert client.pending[0].None?;
    ghost var barrier;
    r, barrier := client.Act(action, true, now);
  }

  /** Everything that can happen to a viewer. */
  datatype Happening =
    | Acts(action: Action, encodes: bool, now: u64)
    | Points(position: DesktopPoint, encodes: bool, now: u64)
    | Shows(observed: set<Held>, encodes: bool, now: u64)
    | Sends
    | Drops
    | Ticks(now: u64)
    | Maps(sameSession: bool, sameView: bool, now: u64)
    | Sees(serial: u64, sameView: bool, receivedAt: u64, sourceAge: u64, now: u64)
    | Hears(result: InputResult, now: u64)
    | Reports(sequence: u64, visible: bool, now: u64)
    | Takes(record: TicketRecord, bound: bool, now: u64)
    | Ends

  method Step(v: ControlledViewer, h: Happening)
    requires v.Valid()
    modifies v, v.client, v.client.pending, v.client.receipts, v.client.keys, v.client.buttons, v.client.releasedKeys,
      v.client.releasedButtons
    ensures v.Valid() && old(v.client.sent) <= v.client.sent
  {
    hide InputClient.Valid, InputClient.Answered;
    match h {
      case Acts(action, encodes, now) => var _ := v.Action(action, encodes, now);
      case Points(position, encodes, now) => v.Pointer(position, encodes, now);
      case Shows(observed, encodes, now) => v.Snapshot(observed, encodes, now);
      case Sends => v.Admit();
      case Drops => v.DropPointer();
      case Ticks(now) => var _ := v.Slot(now);
      case Maps(sameSession, sameView, now) => var _ := v.client.ConfirmMapping(sameSession, sameView, now);
      case Sees(serial, sameView, receivedAt, sourceAge, now) =>
        var _ := v.client.Presented(serial, sameView, receivedAt, sourceAge, now);
      case Hears(result, now) => var _ := v.client.Receive(result, now);
      case Reports(sequence, visible, now) => var _ := v.client.ReportAdmitted(sequence, visible, now);
      case Takes(record, bound, now) => var _ := v.client.AcceptTicket(record, bound, now);
      case Ends => v.Close();
    }
  }

  /** Whatever happens to a viewer, in whatever order: the numbers the transport has taken
      are 0, 1, 2, ... without a gap or a repetition, they are never taken back, and every
      number is awaiting its receipt or completed. */
  method Live(v: ControlledViewer, happenings: seq<Happening>)
    requires v.Valid()
    modifies v, v.client, v.client.pending, v.client.receipts, v.client.keys, v.client.buttons, v.client.releasedKeys,
      v.client.releasedButtons
    ensures v.Valid() && old(v.client.sent) <= v.client.sent
    ensures v.client.sent == seq(|v.client.sent|, i => i)
    ensures forall n :: 0 <= n < |v.client.sent| ==>
      IsPending(v.client.pending[..], n) || IsCompleted(v.client.completed, n)
  {
    hide InputClient.Valid;
    for i := 0 to |happenings|
      invariant v.Valid() && old(v.client.sent) <= v.client.sent
    {
      Step(v, happenings[i]);
    }
    Ordered(v.client);
  }

  lemma Ordered(client: InputClient)
    requires client.Valid()
    ensures client.sent == seq(|client.sent|, i => i)
    ensures forall n :: 0 <= n < |client.sent| ==>
      IsPending(client.pending[..], n) || IsCompleted(client.completed, n)
  {
    hide IsPending, IsCompleted;
    var n := |client.sent| + |client.unsent|;
    forall i | 0 <= i < |client.sent| ensures client.sent[i] == i {
      assert (client.sent + client.unsent)[i] == i;
    }
  }
}
