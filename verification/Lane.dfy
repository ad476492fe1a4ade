/** The two objects at the ends of a file lane, as the program updates them: the
    sender's transfer with its one prepared record and its pacing, and the adapter in
    front of the receiving worker. */
module Lane {
  import opened Common
  import opened Rates
  import opened Transfer

  const OVERHEAD: nat := 128

  /** What the reader of the local file hands over. */
  datatype SourceEvent = Chunk(offset: nat, bytes: seq<Byte>) | End

  datatype Packet = Packet(record: Record, cost: nat)

  datatype SendError = Protocol | SourceChanged | Clock

  class FileSender {
    const id: nat
    const total: nat
    const pacer: Pacer
    ghost const content: seq<Byte>
    var stage: Stage
    var queued: nat
    /** Bytes of the file already put into a record. */
    var prepared: nat
    var chunk: nat
    var packet: Option<Packet>
    var completionAdmitted: bool
    var result: Option<Outcome>

    /** The transfer this object is, in the protocol. */
    ghost function Model(): (r: Sending)
      reads this
    {
      Sending(id, content, stage, queued, completionAdmitted, result)
    }

    /** A prepared record is the one the protocol sends next, and it is paid for. */
    ghost predicate Valid()
      reads this, pacer
    {
      && pacer.Valid() && total == |content| && queued <= prepared <= total
      && (packet.None? ==> prepared == queued && pacer.waiting.None?)
      && (packet.Some? && result.None? ==>
           && MaySend(Model(), packet.value.record)
           && match packet.value.record
              case Offer(_, _) => packet.value.cost == 0 && prepared == queued && pacer.waiting.None?
              case Data(_, _, bytes) =>
                packet.value.cost == |bytes| + OVERHEAD && prepared == queued + |bytes|
                  && pacer.waiting == Some(packet.value.cost)
              case Completion(_) =>
                packet.value.cost == OVERHEAD && prepared == queued && pacer.waiting == Some(packet.value.cost))
    }

    constructor (id: nat, ghost content: seq<Byte>, total: nat, rate: nat, now: nat)
      requires total == |content|
      ensures Valid() && fresh(pacer) && Model() == Sending(id, content, Preparing, 0, false, None) && packet.None?
    {
      this.id, this.content, this.total := id, content, total;
      pacer := new Pacer(rate, now);
      stage, queued, prepared, chunk, packet, completionAdmitted, result := Preparing, 0, 0, 0, None, false, None;
    }

    /** The manifest is ready. */
    method PrepareOffer() returns (ok: bool)
      requires Valid()
      modifies this`packet
      ensures Valid() && ok == (stage == Preparing && old(packet).None? && result.None?)
      ensures packet == if ok then Some(Packet(Offer(id, total), 0)) else old(packet)
    {
      ok := stage == Preparing && packet.None? && result.None?;
      if ok { packet := Some(Packet(Offer(id, total), 0)); }
    }

    /** Put the next piece of the file into a record, once it can be paid for; the
        final record only when everything before it has drained. */
    method Prepare(event: SourceEvent, drained: bool) returns (r: Result<bool, SendError>)
      requires Valid()
      requires event.Chunk? ==> event.offset + |event.bytes| <= |content| ==>
        event.bytes == content[event.offset..event.offset + |event.bytes|]
      modifies this`packet, this`prepared, pacer
      ensures r.Ok? ==> Valid()
      ensures pacer.Model() == old(pacer.Model())
      ensures r.Ok? && !r.value ==> packet == old(packet) && prepared == old(prepared)
      ensures r == Ok(false) <==>
        || old(packet).Some? || stage != Streaming || result.Some? || (event.End? && !drained)
        || (OVERHEAD + if event.Chunk? then |event.bytes| else 0) * SCALE > pacer.tokens
      ensures r == Ok(true) ==>
        && old(packet).None? && packet.Some? && stage == Streaming && result.None?
        && packet.value.record == (if event.Chunk? then Data(id, queued, event.bytes) else Completion(id))
        && (event.Chunk? ==> event.offset == queued && event.bytes != [] && |event.bytes| <= chunk)
        && (event.End? ==> drained)
      ensures r.Err? ==>
        if event.End? then r.error == SourceChanged && queued != total
        else
          && r.error == Protocol
          && (event.offset != old(prepared) || event.offset + |event.bytes| > total || |event.bytes| > chunk
              || event.bytes == [])
    {
      if packet.Some? || stage != Streaming || result.Some? { return Ok(false); }
      match event {
        case Chunk(offset, bytes) =>
          var paid := pacer.Prepare(|bytes| + OVERHEAD);
          if !paid { return Ok(false); }
          if offset != prepared || offset + |bytes| > total || |bytes| > chunk || bytes == [] { return Err(Protocol); }
          prepared := offset + |bytes|;
          packet := Some(Packet(Data(id, offset, bytes), |bytes| + OVERHEAD));
        case End =>
          if !drained { return Ok(false); }
          var paid := pacer.Prepare(OVERHEAD);
          if !paid { return Ok(false); }
          if queued != total { return Err(SourceChanged); }
          packet := Some(Packet(Completion(id), OVERHEAD));
      }
      r := Ok(true);
    }

    /** The lane takes the prepared record: exactly what the protocol may send now,
        paid for exactly once. */
    method Deliver() returns (record: Record)
      requires Valid() && packet.Some? && result.None?
      modifies this`stage, this`queued, this`packet, this`completionAdmitted, pacer
      ensures Valid() && record == old(packet).value.record && packet.None?
      ensures MaySend(old(Model()), record) && Model() == AfterSend(old(Model()), record)
      ensures record.Offer? ==> pacer.Model() == old(pacer.Model())
      ensures !record.Offer? ==> (pacer.Model(), true) == Spend(old(pacer.Model()), old(packet).value.cost * SCALE)
    {
      var p := packet.value;
      record := p.record;
      completionAdmitted := completionAdmitted || p.record.Completion?;
      if p.cost == 0 {
        stage := AwaitingAcceptance;
      } else {
        pacer.Taken();
        if p.record.Completion? { stage := AwaitingProof; } else { queued := queued + (p.cost - OVERHEAD); }
      }
      packet := None;
    }

    /** A reply is taken exactly as the protocol takes it. */
    method TakeReply(reply: Reply, peerRate: nat, chunkBytes: nat, now: nat) returns (ok: bool)
      requires Valid()
      modifies this`stage, this`result, this`chunk, pacer
      ensures Valid() && ok == OnReply(old(Model()), reply).Some?
      ensures Model() == if ok then OnReply(old(Model()), reply).value else old(Model())
      ensures if ok && reply.Accept?
        then chunk == Min(chunkBytes, 65_536)
          && pacer.Model() == Bucket(Min(old(pacer.rate), peerRate), SENDER_BURST, 0, now)
        else chunk == old(chunk) && pacer.Model() == old(pacer.Model())
    {
      if reply.id != id || result.Some? { return false; }
      match reply {
        case Accept(_, size) =>
          if stage != AwaitingAcceptance || size != total { return false; }
          pacer.Accept(peerRate, now);
          chunk, stage := Min(chunkBytes, 65_536), Streaming;
        case Done(_, disposition, bytes) =>
          if stage == Preparing { return false; }
          match disposition {
            case RefusedDisposition => result := Some(RefusedByPeer);
            case UnknownEffect => result := Some(PublicationUnknown);
            case _ =>
              if stage != AwaitingProof || bytes != total { return false; }
              result := Some(Published(bytes, disposition.PublishedDurable?));
          }
          stage := Finished;
      }
      ok := true;
    }

    /** Any local failure: the prepared record is dropped, a result stays. */
    method Fail()
      modifies this`stage, this`result, this`packet
      ensures Model() == OnFailure(old(Model())) && packet.None?
    {
      packet := None;
      if result.None? {
        result := Some(if completionAdmitted then PublicationUnknown else InterruptedBeforePublication);
      }
      stage := Finished;
    }
  }

  class FileAdapter {
    var stopped: bool
    var active: Option<Progress>
    var pending: Option<HostOp>
    var last: nat

    /** The host this adapter is part of; the worker's half is given. */
    function Model(worker: Host): (r: Host)
      reads this
    {
      worker.(stopped := stopped, active := active, pending := pending, last := last)
    }

    constructor ()
      ensures !stopped && active.None? && pending.None? && last == 0
    {
      stopped, active, pending, last := false, None, None, 0;
    }

    /** A record reaches the worker only in order and within the accepted size; a
        refused offer is answered, and only an offer that had no effect. */
    method Receive(r: Record, verdict: Verdict, ghost worker: Host) returns (reply: Option<Reply>)
      requires pending.None?
      modifies this
      ensures (Model(worker), reply) == Admit(old(Model(worker)), r, verdict)
    {
      reply := None;
      if stopped { return; }
      match r {
        case Offer(id, size) =>
          if active.Some? {
            stopped := true;
          } else if verdict.Unfit? {
            stopped := true;
            if verdict.effectless && id > last { reply := Some(Done(id, RefusedDisposition, 0)); }
          } else {
            pending := Some(Begin(id, size));
          }
        case Data(id, offset, bytes) =>
          if active.None? || active.value.id != id { return; }
          if verdict.Unfit? || offset != active.value.staged || offset + |bytes| > active.value.total {
            stopped := true;
          } else {
            pending := Some(Write(id, offset, bytes));
          }
        case Completion(id) =>
          if active.None? || active.value.id != id { return; }
          if verdict.Unfit? || active.value.staged != active.value.total {
            stopped := true;
          } else {
            pending := Some(HostOp.Finish(id));
          }
      }
    }

    /** The worker's result becomes the reply; every failure ends the lane. */
    method PollReply(finished: Completed, ghost worker: Host) returns (reply: Option<Reply>)
      requires pending.Some? && worker.finished == Some(finished)
      modifies this
      ensures (Model(worker.(finished := None)), reply) == Poll(old(Model(worker)))
    {
      var id := OpId(pending.value);
      pending, last := None, id;
      match finished {
        case Begun(_, size) =>
          active := Some(Progress(id, 0, size));
          reply := Some(if stopped then Done(id, RefusedDisposition, 0) else Accept(id, size));
        case Written(_, staged) =>
          if active.Some? { active := Some(active.value.(staged := staged)); }
          reply := None;
        case DidPublish(_, bytes, durable) =>
          active := None;
          reply := Some(Done(id, if durable then PublishedDurable else PublishedDurabilityUnknown, bytes));
        case Failed =>
          active, stopped := None, true;
          reply := Some(Done(id, RefusedDisposition, 0));
        case Uncertain =>
          active, stopped := None, true;
          reply := Some(Done(id, UnknownEffect, 0));
      }
    }
  }
}
