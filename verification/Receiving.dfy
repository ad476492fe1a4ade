/** Receiving files: reservations in a drop directory, one staged file at a time,
    and the session that decides when a file may be published. */
module Receiving {
  import opened Common
  import opened Rates

  const MAX_CHUNK_BYTES: nat := 65_536
  const RECORD_COST: nat := 128
  const MAX_CONFLICT_ATTEMPTS: nat := 8

  datatype StorageError = InvalidName | OverQuota | InvalidChunk | Incomplete | Integrity | Conflict | Retired | Io

  // ---------------------------------------------------------------- reservations

  datatype Limits = Limits(maxFile: u64, maxReserved: u64, maxTransfers: nat)

  /** A reservation is held, given back, or kept for ever because its private file
      could not be removed. */
  datatype Standing = Held | GivenBack | Orphaned
  datatype Charge = Charge(size: nat, standing: Standing)

  function HeldBytes(cs: seq<Charge>): (r: nat) {
    if cs == [] then 0
    else HeldBytes(cs[..|cs| - 1]) + if cs[|cs| - 1].standing.GivenBack? then 0 else cs[|cs| - 1].size
  }

  function HeldTransfers(cs: seq<Charge>): (r: nat) {
    if cs == [] then 0
    else HeldTransfers(cs[..|cs| - 1]) + if cs[|cs| - 1].standing.GivenBack? then 0 else 1
  }

  lemma ChargeAdds(cs: seq<Charge>, size: nat)
    ensures HeldBytes(cs + [Charge(size, Held)]) == HeldBytes(cs) + size
    ensures HeldTransfers(cs + [Charge(size, Held)]) == HeldTransfers(cs) + 1
  {
    assert (cs + [Charge(size, Held)])[..|cs|] == cs;
  }

  lemma {:induction false} ChargeSettles(cs: seq<Charge>, i: nat, to: Standing)
    requires i < |cs| && cs[i].standing.Held? && !to.Held?
    ensures var after := cs[i := cs[i].(standing := to)];
      && HeldBytes(cs) == HeldBytes(after) + (if to.GivenBack? then cs[i].size else 0)
      && HeldTransfers(cs) == HeldTransfers(after) + (if to.GivenBack? then 1 else 0)
  {
    var n := |cs| - 1;
    var after := cs[i := cs[i].(standing := to)];
    if i < n {
      ChargeSettles(cs[..n], i, to);
      assert after[..n] == cs[..n][i := cs[i].(standing := to)];
    } else {
      assert after[..n] == cs[..n];
    }
  }

  /** The reservations of others are as they were. */
  ghost predicate OthersKept(before: seq<Charge>, after: seq<Charge>, mine: Option<nat>) {
    |before| <= |after| && forall i :: 0 <= i < |before| && mine != Some(i) ==> after[i] == before[i]
  }

  class Directory {
    const limits: Limits
    var bytes: nat
    var transfers: nat
    /** What the directory holds by name; others may change it at any time. */
    var entries: map<string, seq<Byte>>
    /** Every reservation ever made here. */
    ghost var charges: seq<Charge>

    /** The counters are exactly what is held or orphaned, and never over the limits. */
    ghost predicate Valid()
      reads this
    {
      && bytes == HeldBytes(charges) <= limits.maxReserved && transfers == HeldTransfers(charges) <= limits.maxTransfers
      && (forall i :: 0 <= i < |charges| ==> charges[i].size <= limits.maxFile)
    }

    constructor (limits: Limits, entries: map<string, seq<Byte>>)
      ensures Valid() && charges == [] && this.limits == limits && this.entries == entries
    {
      this.limits, this.entries, bytes, transfers, charges := limits, entries, 0, 0, [];
    }

    /** Another file of this size fits. */
    ghost predicate Room(size: nat)
      reads this`charges
    {
      size <= limits.maxFile && HeldBytes(charges) + size <= limits.maxReserved
        && HeldTransfers(charges) < limits.maxTransfers
    }

    method Reserve(size: nat) returns (ok: bool)
      requires Valid()
      modifies this`bytes, this`transfers, this`charges
      ensures Valid()
      ensures ok <==> old(Room(size))
      ensures charges == if ok then old(charges) + [Charge(size, Held)] else old(charges)
      ensures ok <==>
        && size <= limits.maxFile && old(bytes) + size <= limits.maxReserved && old(transfers) < limits.maxTransfers
      ensures bytes == old(bytes) + (if ok then size else 0) && transfers == old(transfers) + if ok then 1 else 0
    {
      if size > limits.maxFile || bytes + size > limits.maxReserved
        || transfers >= limits.maxTransfers { return false; }
      ChargeAdds(charges, size);
      bytes, transfers := bytes + size, transfers + 1;
      charges := charges + [Charge(size, Held)];
      ok := true;
    }

    /** The end of a reservation: given back once, or kept. */
    method Settle(size: nat, release: bool, ghost i: nat)
      requires Valid() && i < |charges| && charges[i] == Charge(size, Held)
      modifies this`bytes, this`transfers, this`charges
      ensures Valid() && charges == old(charges)[i := Charge(size, if release then GivenBack else Orphaned)]
      ensures bytes + (if release then size else 0) == old(bytes)
      ensures transfers + (if release then 1 else 0) == old(transfers)
    {
      ChargeSettles(charges, i, if release then GivenBack else Orphaned);
      if release { bytes, transfers := bytes - size, transfers - 1; }
      charges := charges[i := Charge(size, if release then GivenBack else Orphaned)];
    }
  }

  // ----------------------------------------------------------------- one staged file

  datatype FileState = Receiving | Verified | Failed | Published | Cancelled

  /** The directory as others left it when an attempt is made, and whether the call
      fails for another reason. */
  datatype World = World(entries: map<string, seq<Byte>>, refuses: bool)

  datatype PublishedFile = PublishedFile(name: string, renamed: bool, durable: bool)

  class PendingFile {
    const root: Directory
    const size: u64
    const name: string
    const keepBoth: bool
    /** Names to try when the first is taken. */
    const alternatives: nat -> string
    /** Whether bytes have the advertised digest. */
    const matches: seq<Byte> -> bool
    ghost const charge: nat
    var state: FileState
    /** The staged bytes. */
    var content: seq<Byte>
    var received: nat
    var held: bool
    var release: bool
    var retired: bool

    ghost predicate Valid()
      reads this, root`charges
    {
      && charge < |root.charges| && root.charges[charge].size == size
      && (root.charges[charge].standing.Held? <==> !retired)
      && received == |content| <= size
      && (state == Verified || state == Published ==> received == size && matches(content))
      && (state in {Published, Cancelled} ==> release)
    }

    constructor (root: Directory, size: u64, name: string, keepBoth: bool, alternatives: nat -> string,
                 matches: seq<Byte> -> bool,
                 ghost charge: nat)
      requires charge < |root.charges| && root.charges[charge] == Charge(size, Held)
      ensures Valid() && this.root == root && this.size == size && this.matches == matches && state == Receiving
        && content == []
      ensures this.charge == charge && !retired && release && held && this.name == name && this.keepBoth == keepBoth
        && this.alternatives == alternatives
    {
      this.root, this.size, this.name, this.keepBoth := root, size, name, keepBoth;
      this.alternatives, this.matches, this.charge := alternatives, matches, charge;
      state, content, received, held, release, retired := Receiving, [], 0, true, true, false;
    }

    /** Append one slice. Anything out of order, empty, too long, or not written
        ends this file. */
    method WriteChunk(offset: u64, bytes: seq<Byte>, writes: bool) returns (r: Result<(), StorageError>)
      requires Valid()
      modifies this`state, this`content, this`received
      ensures Valid()
      ensures r.Ok? <==> old(state) == Receiving && offset == |old(content)| && 0 < |bytes| <= MAX_CHUNK_BYTES
                         && offset + |bytes| <= size && writes
      ensures if r.Ok? then state == Receiving && content == old(content) + bytes else content == old(content)
      ensures r.Err? ==> state == if old(state) == Receiving then Failed else old(state)
    {
      if state != Receiving { return Err(Retired); }
      state := Failed;
      if bytes == [] || |bytes| > MAX_CHUNK_BYTES || offset != received
        || offset + |bytes| > size { return Err(InvalidChunk); }
      if !writes { return Err(Io); }
      content := content + bytes;
      received := offset + |bytes|;
      state := Receiving;
      r := Ok(());
    }

    method Verify(syncs: bool) returns (r: Result<(), StorageError>)
      requires Valid()
      modifies this`state
      ensures Valid()
      ensures r.Ok? <==> old(state) == Receiving && |content| == size && matches(content) && syncs
      ensures state == if r.Ok? then Verified else if old(state) == Receiving then Failed else old(state)
    {
      if state != Receiving { return Err(Retired); }
      state := Failed;
      if received != size { return Err(Incomplete); }
      if !matches(content) { return Err(Integrity); }
      if !syncs { return Err(Io); }
      state := Verified;
      r := Ok(());
    }

    function Candidate(k: nat): (r: string) {
      if k == 0 then name else alternatives(k - 1)
    }

    /** Why an attempt cannot publish: the last candidate is taken, or the call fails. */
    predicate Blocked(world: nat -> World, k: nat) {
      if Candidate(k) in world(k).entries then !keepBoth || k == MAX_CONFLICT_ATTEMPTS else world(k).refuses
    }

    /** The requested name comes first, then the alternatives in order; an attempt is given
        up for a taken name only if no other may be tried, and otherwise only for a failing
        call. */
    lemma BlockedExactly(world: nat -> World, k: nat)
      requires k <= MAX_CONFLICT_ATTEMPTS
      ensures Candidate(0) == name && (k > 0 ==> Candidate(k) == alternatives(k - 1))
      ensures Blocked(world, k) <==>
        || (Candidate(k) in world(k).entries && (keepBoth ==> k >= MAX_CONFLICT_ATTEMPTS))
        || (Candidate(k) !in world(k).entries && world(k).refuses)
    {}

    /** Publish under the first free candidate. Whatever others put into the
        directory stays as it is; on failure nothing is added to it. */
    method Publish(world: nat -> World, durable: bool)
      returns (r: Result<PublishedFile, StorageError>, ghost tries: nat)
      requires Valid() && release
      modifies this`state, root`entries
      ensures Valid() && tries <= MAX_CONFLICT_ATTEMPTS
      ensures old(state) != Verified ==> r == Err(Retired) && root.entries == old(root.entries) && state == old(state)
      ensures old(state) == Verified ==> forall j :: 0 <= j < tries ==> keepBoth && Candidate(j) in world(j).entries
      ensures r.Ok? ==>
        && old(state) == Verified && state == Published && Candidate(tries) !in world(tries).entries
        && root.entries == world(tries).entries[Candidate(tries) := content]
        && r.value == PublishedFile(Candidate(tries), tries > 0, durable)
      ensures old(state) == Verified && r.Err? ==> state == Failed && root.entries == world(tries).entries
      ensures old(state) == Verified && r.Err? ==> Blocked(world, tries)
      ensures old(state) == Verified && r.Err? ==>
        r.error == if Candidate(tries) in world(tries).entries then Conflict else Io
      ensures old(state) == Verified && name !in world(0).entries && !world(0).refuses ==>
        r == Ok(PublishedFile(name, false, durable)) && root.entries == world(0).entries[name := content]
    {
      tries := 0;
      if state != Verified { return Err(Retired), tries; }
      state := Failed;
      var attempt := 0;
      while true
        invariant 0 <= attempt <= MAX_CONFLICT_ATTEMPTS && state == Failed && tries == attempt
        invariant attempt > 0 ==> keepBoth
        invariant forall j :: 0 <= j < attempt ==> Candidate(j) in world(j).entries
        decreases MAX_CONFLICT_ATTEMPTS - attempt
      {
        root.entries := world(attempt).entries;
        if Candidate(attempt) in root.entries {
          if !keepBoth || attempt >= MAX_CONFLICT_ATTEMPTS { return Err(Conflict), tries; }
          attempt := attempt + 1;
          tries := attempt;
        } else if world(attempt).refuses {
          return Err(Io), tries;
        } else {
          root.entries := root.entries[Candidate(attempt) := content];
          break;
        }
      }
      state := Published;
      r := Ok(PublishedFile(Candidate(attempt), attempt != 0, durable));
    }

    /** Remove the private file, if it still exists. */
    method CleanUp(removes: bool) returns (ok: bool)
      requires Valid()
      modifies this`state, this`held, this`release
      ensures Valid() && (old(state) == Published ==> state == Published)
      ensures ok <==> old(state) in {Published, Cancelled} || !old(held) || removes
      ensures if ok then release else !release && state == old(state)
    {
      if state == Published || state == Cancelled { return true; }
      if held && !removes {
        release := false;
        return false;
      }
      held, state, release := false, Cancelled, true;
      ok := true;
    }

    /** The end of this file. Its reservation is given back unless its private file
        may still be there. */
    method Drop(removes: bool)
      requires Valid() && root.Valid() && !retired
      modifies this, root`bytes, root`transfers, root`charges
      ensures Valid() && root.Valid() && retired && content == old(content)
      ensures root.charges == old(root.charges)[charge := Charge(size,
        if old(state) in {Published, Cancelled} || !old(held) || removes then GivenBack else Orphaned)]
    {
      var _ := CleanUp(removes);
      root.Settle(size, release, charge);
      retired := true;
    }
  }

  // ------------------------------------------------------------------- the session

  datatype SessionError =
    | PermissionLost | AuthorityLost | ClockFault | Expired | Closed | WrongBinding | Sequence | Busy | NoTransfer
    | RateLimited | Quota | Storage(storage: StorageError)

  datatype Policy = Policy(bytesPerSecond: nat, burst: nat, lifetime: u64, maxBytes: u64, maxTransfers: nat)

  /** What the session finds when it looks: the time, the local permission, and
      whether the controller's authority still stands. */
  datatype Sample = Sample(now: u64, approved: bool, authorized: bool)

  datatype Offer = Offer(id: u64, name: string, nameOk: bool, size: u64, matches: seq<Byte> -> bool,
    alternatives: nat -> string)

  datatype Receipt = Receipt(id: u64, bytes: u64, durable: bool)

  datatype Active = Active(id: u64, size: u64, deadline: nat, file: PendingFile)

  /** One declaration, and one publication with the look that allowed it. */
  datatype Declared = Declared(id: u64, size: u64)
  datatype Evidence = Evidence(id: u64, size: u64, content: seq<Byte>, matched: bool, at: Sample, deadline: nat)

  function DeclaredBytes(ds: seq<Declared>): (r: nat) {
    if ds == [] then 0 else DeclaredBytes(ds[..|ds| - 1]) + ds[|ds| - 1].size
  }

  class HostReceiver {
    const directory: Directory
    const policy: Policy
    const keepBoth: bool
    /** The session and lease this lane belongs to. */
    const binding: nat
    var transfers: nat
    var declaredBytes: nat
    var bucket: Bucket
    var floor: Option<u64>
    var active: Option<Active>
    var closed: bool
    ghost var declared: seq<Declared>
    ghost var published: seq<Evidence>

    /** Declarations are never refunded, identifiers only grow, and every file was
        published complete, intact, and under a permission and authority that stood
        when it was looked at last. */
    ghost predicate Ledger()
      reads this`transfers, this`declaredBytes, this`floor, this`declared, this`published
    {
      && transfers == |declared| <= policy.maxTransfers && declaredBytes == DeclaredBytes(declared) <= policy.maxBytes
      && (forall i, j :: 0 <= i < j < |declared| ==> declared[i].id < declared[j].id)
      && floor == (if declared == [] then None else Some(declared[|declared| - 1].id))
      && (forall i, j :: 0 <= i < j < |published| ==> published[i].id < published[j].id)
      && (forall i :: 0 <= i < |published| ==>
           && Declared(published[i].id, published[i].size) in declared && |published[i].content| == published[i].size
           && published[i].matched && published[i].at.approved && published[i].at.authorized
           && published[i].at.now < published[i].deadline)
    }

    ghost predicate Valid()
      reads this, directory, if active.Some? then {active.value.file} else {}
    {
      && directory.Valid() && Ledger()
      && bucket.rate == policy.bytesPerSecond && bucket.capacity == policy.burst * SCALE
      && bucket.tokens <= bucket.capacity
      && (active.Some? ==>
           var a := active.value;
           && a.file.root == directory && a.file.size == a.size && a.file.Valid() && !a.file.retired && a.file.release
           && a.file.state == Receiving && declared != [] && declared[|declared| - 1] == Declared(a.id, a.size)
           && (forall i :: 0 <= i < |published| ==> published[i].id < a.id))
    }

    constructor (directory: Directory, policy: Policy, keepBoth: bool, binding: nat, now: u64)
      requires directory.Valid()
      ensures Valid() && active.None? && published == [] && declared == [] && this.directory == directory
        && this.policy == policy
    {
      this.directory, this.policy, this.keepBoth, this.binding := directory, policy, keepBoth, binding;
      transfers, declaredBytes, floor, active, closed := 0, 0, None, None, false;
      bucket := Bucket(policy.bytesPerSecond, policy.burst * SCALE, policy.burst * SCALE, now);
      declared, published := [], [];
    }

    /** The reservation of the active file. */
    ghost function Mine(): (charge: Option<nat>)
      reads this`active
    {
      if active.Some? then Some(active.value.file.charge) else None
    }

    /** What a call may do to other sessions on the same directory: nothing. */
    twostate predicate Undisturbing()
      reads this`active, directory`charges
    {
      && OthersKept(old(directory.charges), directory.charges, old(Mine()))
      && (active == old(active) || active.None?
          || (fresh(active.value.file) && active.value.file.charge >= |old(directory.charges)|))
    }

    /** Permission, authority, clock and deadline all stand at this look. */
    predicate Stands(sample: Sample)
      reads this`closed, this`bucket, this`active
    {
      && !closed && bucket.last <= sample.now && sample.approved && sample.authorized
      && (active.Some? ==> sample.now < active.value.deadline)
    }

    /** A later look still stands for a transfer with this deadline. */
    static predicate StandsLater(before: Sample, later: Sample, deadline: nat) {
      before.now <= later.now < deadline && later.approved && later.authorized
    }

    /** The active transfer has this identifier. */
    predicate Named(id: u64)
      reads this`active
    {
      active.Some? && active.value.id == id
    }

    /** The rate budget pays for this many bytes after a look. */
    predicate Affords(sample: Sample, bytes: nat)
      reads this`bucket
    {
      Spend(Refill(bucket, sample.now), bytes * SCALE).1
    }

    /** Look once more. Anything that does not stand closes the session for good;
        success also refills the rate budget. */
    method Check(sample: Sample) returns (e: Option<SessionError>)
      requires Valid()
      modifies this`bucket, this`closed
      ensures Valid() && (old(closed) ==> closed)
      ensures e.None? <==> old(Stands(sample))
      ensures e.None? <==>
        && !old(closed) && old(bucket).last <= sample.now && sample.approved && sample.authorized
        && (active.Some? ==> sample.now < active.value.deadline)
      ensures closed == e.Some? && (e.None? ==> bucket.last == sample.now)
      ensures bucket == if e.None? then Refill(old(bucket), sample.now) else old(bucket)
    {
      if closed { return Some(Closed); }
      e := if sample.now < bucket.last then Some(ClockFault)
           else if !sample.approved then Some(PermissionLost)
           else if !sample.authorized then Some(AuthorityLost)
           else if active.Some? && sample.now >= active.value.deadline then Some(Expired)
           else None;
      if e.Some? {
        closed := true;
      } else {
        bucket := Refill(bucket, sample.now);
      }
    }

    /** Pay for one operation, or refuse it without any effect. */
    method Pay(bytes: nat) returns (ok: bool)
      requires Valid()
      modifies this`bucket
      ensures Valid() && (bucket, ok) == Spend(old(bucket), bytes * SCALE) && bucket.last == old(bucket.last)
    {
      ok := bytes * SCALE <= bucket.tokens;
      if ok { bucket := bucket.(tokens := bucket.tokens - bytes * SCALE); }
    }

    /** The end of the active file without publication. */
    method Abandon(removes: bool)
      requires Valid() && active.Some?
      modifies this`active, active.value.file, directory`bytes, directory`transfers, directory`charges
      ensures Valid() && active.None?
        && directory.charges[..] == old(directory.charges)[old(active.value.file.charge) := Charge(
        old(active.value.size), if removes || !old(active.value.file.held) then GivenBack else Orphaned)]
      ensures Undisturbing()
    {
      active.value.file.Drop(removes);
      active := None;
    }

    /** One staged slice. A failure of the disk, of the order, or of the look after
        it ends the file; lack of rate budget does not. */
    method Write(scope: nat, id: u64, offset: u64, bytes: seq<Byte>, before: Sample, writes: bool, later: Sample,
                 removes: bool)
      returns (r: Result<Progress, SessionError>)
      requires Valid()
      modifies this`bucket, this`closed, this`active, directory`bytes, directory`transfers, directory`charges
      modifies if active.Some? then {active.value.file} else {}
      ensures Valid() && directory.entries == old(directory.entries)
      ensures r.Ok? ==>
        && active == old(active) && active.Some? && active.value.id == id && !closed
        && active.value.file.content == old(active.value.file.content) + bytes
        && offset == |old(active.value.file.content)|
        && r.value == Progress(id, offset + |bytes|, active.value.size) && later.approved && later.authorized
      ensures r.Err? && active.Some? ==>
        active == old(active) && active.value.file.content == old(active.value.file.content)
      ensures r.Ok? <==>
        && scope == binding && old(active).Some? && old(active).value.id == id
        && old(Stands(before)) && old(Affords(before, RECORD_COST + |bytes|))
        && 0 < |bytes| <= MAX_CHUNK_BYTES && offset == |old(active.value.file.content)|
        && offset + |bytes| <= old(active).value.size
        && writes && StandsLater(before, later, old(active).value.deadline)
      ensures Undisturbing()
    {
      hide Ledger, Refill;
      if scope != binding { return Err(WrongBinding); }
      if active.None? || active.value.id != id { return Err(NoTransfer); }
      var looked := Check(before);
      if looked.Some? { return Err(looked.value); }
      if bytes == [] || |bytes| > MAX_CHUNK_BYTES {
        Abandon(removes);
        return Err(Storage(InvalidChunk));
      }
      var paid := Pay(RECORD_COST + |bytes|);
      if !paid { return Err(RateLimited); }
      r := Append(offset, bytes, writes, later, removes);
    }

    method Append(offset: u64, bytes: seq<Byte>, writes: bool, later: Sample, removes: bool)
      returns (r: Result<Progress, SessionError>)
      requires Valid() && active.Some?
      modifies this`bucket, this`closed, this`active, active.value.file, directory`bytes, directory`transfers,
        directory`charges
      ensures Valid() && (r.Err? ==> active.None?)
      ensures r.Ok? ==>
        && active == old(active) && !closed && offset == |old(active.value.file.content)|
        && active.value.file.content == old(active.value.file.content) + bytes
        && r.value == Progress(active.value.id, offset + |bytes|, active.value.size) && later.approved
        && later.authorized
      ensures r.Ok? <==>
        && 0 < |bytes| <= MAX_CHUNK_BYTES && offset == |old(active.value.file.content)|
        && offset + |bytes| <= old(active).value.size
        && writes && old(Stands(later))
      ensures Undisturbing()
    {
      hide Ledger, Refill;
      var file := active.value.file;
      var written := file.WriteChunk(offset, bytes, writes);
      if written.Err? {
        Discard(removes);
        return Err(Storage(written.error));
      }
      var looked := Check(later);
      if looked.Some? {
        Abandon(removes);
        return Err(looked.value);
      }
      r := Ok(Progress(active.value.id, file.received, active.value.size));
    }

    /** As `Abandon`, for a file that is no longer receiving. */
    method Discard(removes: bool)
      requires directory.Valid() && Ledger() && active.Some? && active.value.file.root == directory
      requires active.value.file.Valid() && !active.value.file.retired && active.value.file.state != Published
      requires bucket.rate == policy.bytesPerSecond && bucket.capacity == policy.burst * SCALE
        && bucket.tokens <= bucket.capacity
      modifies this`active, active.value.file, directory`bytes, directory`transfers, directory`charges
      ensures Valid() && active.None? && Undisturbing()
    {
      hide Ledger;
      active.value.file.Drop(removes);
      active := None;
    }

    /** Admit an offer. It is charged for good before anything touches the disk, and
        a session that no longer stands afterwards keeps no reservation. */
    method Begin(scope: nat, offer: Offer, before: Sample, creates: bool, later: Sample, removes: bool)
      returns (r: Result<Progress, SessionError>)
      requires Valid()
      modifies this`bucket, this`closed, this`active, this`floor, this`transfers, this`declaredBytes, this`declared
      modifies directory`bytes, directory`transfers, directory`charges
      ensures Valid() && (r.Err? ==> active == old(active)) && old(declared) <= declared
      ensures r.Ok? ==>
        && old(active).None? && active.Some? && fresh(active.value.file) && active.value.file.content == [] && !closed
        && active.value.id == offer.id && active.value.size == offer.size && active.value.file.matches == offer.matches
        && active.value.deadline == before.now + policy.lifetime && r.value == Progress(offer.id, 0, offer.size)
        && declared == old(declared) + [Declared(offer.id, offer.size)]
        && (old(floor).Some? ==> offer.id > old(floor).value)
      ensures r.Ok? <==>
        && scope == binding && old(Stands(before)) && old(active).None?
        && (old(floor).Some? ==> offer.id > old(floor).value) && offer.nameOk
        && old(transfers) < policy.maxTransfers && old(declaredBytes) + offer.size <= policy.maxBytes
        && old(Affords(before, RECORD_COST + |offer.name|)) && before.now + policy.lifetime <= U64_MAX
        && old(directory.Room(offer.size)) && creates && StandsLater(before, later, before.now + policy.lifetime)
      ensures Undisturbing()
    {
      hide Ledger, HeldBytes, HeldTransfers, Refill, Spend;
      if scope != binding { return Err(WrongBinding); }
      var looked := Check(before);
      if looked.Some? { return Err(looked.value); }
      if active.Some? { return Err(Busy); }
      if floor.Some? && offer.id <= floor.value { return Err(Sequence); }
      if !offer.nameOk { return Err(Storage(InvalidName)); }
      if transfers >= policy.maxTransfers || declaredBytes + offer.size > policy.maxBytes { return Err(Quota); }
      var paid := Pay(RECORD_COST + |offer.name|);
      if !paid { return Err(RateLimited); }
      if before.now + policy.lifetime > U64_MAX { return Err(ClockFault); }
      Declare(offer.id, offer.size);
      r := Stage(offer, before.now + policy.lifetime, creates, later, removes);
    }

    method Stage(offer: Offer, deadline: u64, creates: bool, later: Sample, removes: bool)
      returns (r: Result<Progress, SessionError>)
      requires Valid() && active.None? && declared != [] && declared[|declared| - 1] == Declared(offer.id, offer.size)
      requires forall i :: 0 <= i < |published| ==> published[i].id < offer.id
      modifies this`bucket, this`closed, this`active, directory`bytes, directory`transfers, directory`charges
      ensures Valid() && (r.Err? ==> active.None?)
      ensures r.Ok? ==>
        && active.Some? && fresh(active.value.file) && active.value.file.content == [] && !closed
        && active.value.id == offer.id && active.value.size == offer.size && active.value.file.matches == offer.matches
        && active.value.deadline == deadline && r.value == Progress(offer.id, 0, offer.size)
      ensures r.Ok? <==>
        old(directory.Room(offer.size)) && creates && old(Stands(later)) && later.now < deadline
      ensures Undisturbing()
    {
      hide Ledger, HeldBytes, HeldTransfers, Refill;
      var reserved := directory.Reserve(offer.size);
      if !reserved { return Err(Storage(OverQuota)); }
      ghost var charge := |directory.charges| - 1;
      if !creates {
        directory.Settle(offer.size, true, charge);
        return Err(Storage(Io));
      }
      var file := new PendingFile(directory, offer.size, offer.name, keepBoth, offer.alternatives, offer.matches,
        charge);
      active := Some(Active(offer.id, offer.size, deadline, file));
      var looked := Check(later);
      if looked.Some? {
        Abandon(removes);
        return Err(looked.value);
      }
      r := Ok(Progress(offer.id, 0, offer.size));
    }

    method Declare(id: u64, size: u64)
      requires Ledger() && (floor.Some? ==> id > floor.value) && transfers < policy.maxTransfers
      requires declaredBytes + size <= policy.maxBytes
      modifies this`floor, this`transfers, this`declaredBytes, this`declared
      ensures Ledger() && declared == old(declared) + [Declared(id, size)] && floor == Some(id)
      ensures transfers == old(transfers) + 1 && declaredBytes == old(declaredBytes) + size
      ensures forall i :: 0 <= i < |published| ==> published[i].id < id
    {
      forall i | 0 <= i < |published| ensures published[i].id < id {
        ghost var d := Declared(published[i].id, published[i].size);
        assert d in declared;
        ghost var k :| 0 <= k < |declared| && declared[k] == d;
        assert k < |declared| - 1 ==> declared[k].id < declared[|declared| - 1].id;
      }
      assert (declared + [Declared(id, size)])[..|declared|] == declared;
      floor := Some(id);
      transfers, declaredBytes := transfers + 1, declaredBytes + size;
      declared := declared + [Declared(id, size)];
    }

    /** Verify first, then look again, then publish. An error means that nothing was
        published; a receipt, that exactly the staged bytes were. */
    method Complete(scope: nat, id: u64, before: Sample, syncs: bool, later: Sample, world: nat -> World,
                    durable: bool, removes: bool)
      returns (r: Result<Receipt, SessionError>, ghost tries: nat)
      requires Valid()
      modifies this`bucket, this`closed, this`active, this`published
      modifies directory, if active.Some? then {active.value.file} else {}
      ensures Valid()
      ensures r.Ok? ==>
        && scope == binding && old(active).Some? && old(active).value.id == id && active.None?
        && tries <= MAX_CONFLICT_ATTEMPTS
        && var a := old(active).value;
           && published == old(published) + [Evidence(id, a.size, old(a.file.content), true, later, a.deadline)]
           && |old(a.file.content)| == a.size && a.file.matches(old(a.file.content))
           && later.approved && later.authorized && later.now < a.deadline
           && a.file.Candidate(tries) !in world(tries).entries
           && directory.entries == world(tries).entries[a.file.Candidate(tries) := old(a.file.content)]
           && r.value == Receipt(id, a.size, durable)
      ensures r.Err? ==> published == old(published)
      ensures scope == binding && old(Named(id) && Stands(before) && Affords(before, RECORD_COST)) && syncs ==>
        var a := old(active).value;
        var whole := |old(a.file.content)| == a.size && a.file.matches(old(a.file.content));
        (whole && StandsLater(before, later, a.deadline) ==> r.Ok? || a.file.Blocked(world, tries))
      ensures r.Err? ==> directory.entries == old(directory.entries) || directory.entries == world(tries).entries
      ensures Undisturbing()
    {
      hide Ledger;
      tries := 0;
      if scope != binding { return Err(WrongBinding), tries; }
      if active.None? || active.value.id != id { return Err(NoTransfer), tries; }
      var looked := Check(before);
      if looked.Some? { return Err(looked.value), tries; }
      var paid := Pay(RECORD_COST);
      if !paid { return Err(RateLimited), tries; }
      r, tries := Finish(syncs, later, world, durable, removes);
    }

    method Finish(syncs: bool, later: Sample, world: nat -> World, durable: bool, removes: bool)
      returns (r: Result<Receipt, SessionError>, ghost tries: nat)
      requires Valid() && active.Some?
      modifies this`bucket, this`closed, this`active, this`published, directory, active.value.file
      ensures Valid() && active.None?
      ensures r.Ok? ==>
        && tries <= MAX_CONFLICT_ATTEMPTS
        && var a := old(active).value;
           && published == old(published) + [Evidence(a.id, a.size, old(a.file.content), true, later, a.deadline)]
           && |old(a.file.content)| == a.size && a.file.matches(old(a.file.content))
           && later.approved && later.authorized && later.now < a.deadline
           && a.file.Candidate(tries) !in world(tries).entries
           && directory.entries == world(tries).entries[a.file.Candidate(tries) := old(a.file.content)]
           && r.value == Receipt(a.id, a.size, durable)
      ensures r.Err? ==> published == old(published)
      ensures var a := old(active).value;
        |old(a.file.content)| == a.size && a.file.matches(old(a.file.content)) && syncs && old(Stands(later)) ==>
          r.Ok? || a.file.Blocked(world, tries)
      ensures r.Err? ==> directory.entries == old(directory.entries) || directory.entries == world(tries).entries
      ensures Undisturbing()
    {
      hide Ledger, HeldBytes, HeldTransfers, Refill, PendingFile.Blocked, PendingFile.Candidate;
      tries := 0;
      var a := active.value;
      var verified := a.file.Verify(syncs);
      if verified.Err? {
        Discard(removes);
        return Err(Storage(verified.error)), tries;
      }
      active := None;
      var looked := Check(later);
      if looked.Some? || later.now >= a.deadline {
        closed := true;
        a.file.Drop(removes);
        return Err(if looked.Some? then looked.value else Expired), tries;
      }
      r, tries := Place(a, later, world, durable, removes);
    }

    method Place(a: Active, later: Sample, world: nat -> World, durable: bool, removes: bool)
      returns (r: Result<Receipt, SessionError>, ghost tries: nat)
      requires Valid() && active.None? && a.file.root == directory && a.file.size == a.size && a.file.Valid()
        && a.file.state == Verified
      requires !a.file.retired && a.file.release && later.approved && later.authorized && later.now < a.deadline
      requires declared != [] && declared[|declared| - 1] == Declared(a.id, a.size)
      requires forall i :: 0 <= i < |published| ==> published[i].id < a.id
      modifies this`published, directory, a.file
      ensures Valid() && a.file.content == old(a.file.content)
      ensures r.Ok? ==>
        && tries <= MAX_CONFLICT_ATTEMPTS && r.value == Receipt(a.id, a.size, durable)
        && published == old(published) + [Evidence(a.id, a.size, a.file.content, true, later, a.deadline)]
        && a.file.Candidate(tries) !in world(tries).entries
        && directory.entries == world(tries).entries[a.file.Candidate(tries) := a.file.content]
      ensures r.Err? ==>
        published == old(published) && directory.entries == world(tries).entries && a.file.Blocked(world, tries)
      ensures OthersKept(old(directory.charges), directory.charges, Some(a.file.charge))
    {
      hide Ledger, HeldBytes, HeldTransfers;
      var outcome;
      outcome, tries := a.file.Publish(world, durable);
      a.file.Drop(removes);
      if outcome.Err? { return Err(Storage(outcome.error)), tries; }
      Record(Evidence(a.id, a.size, a.file.content, true, later, a.deadline));
      r := Ok(Receipt(a.id, a.size, durable));
    }

    ghost method Record(e: Evidence)
      requires Ledger() && declared != [] && declared[|declared| - 1] == Declared(e.id, e.size) && |e.content| == e.size
      requires e.matched && e.at.approved && e.at.authorized && e.at.now < e.deadline
      requires forall i :: 0 <= i < |published| ==> published[i].id < e.id
      modifies this`published
      ensures Ledger() && published == old(published) + [e]
    {
      published := published + [e];
    }

    /** Periodic look, also while nothing arrives. */
    method Service(sample: Sample, removes: bool) returns (e: Option<SessionError>)
      requires Valid()
      modifies this`bucket, this`closed, this`active, directory`bytes, directory`transfers, directory`charges
      modifies if active.Some? then {active.value.file} else {}
      ensures Valid() && (e.Some? ==> closed && active.None?) && (e.None? ==> active == old(active) && !closed)
      ensures e.None? <==>
        && !old(closed) && old(bucket).last <= sample.now && sample.approved && sample.authorized
        && (old(active).Some? ==> sample.now < old(active).value.deadline)
      ensures Undisturbing()
    {
      e := Check(sample);
      if e.Some? && active.Some? { Abandon(removes); }
    }

    /** Cancel exactly the active transfer; never refused for rate, time or permission. */
    method Cancel(scope: nat, id: u64, removes: bool) returns (r: Result<(), SessionError>)
      requires Valid()
      modifies this`active, directory`bytes, directory`transfers, directory`charges,
        if active.Some? then {active.value.file} else {}
      ensures Valid() && (scope == binding && old(active).Some? && old(active).value.id == id ==> active.None?)
      ensures !(scope == binding && old(active).Some? && old(active).value.id == id) ==> r.Err? && active == old(active)
      ensures r.Ok? <==> scope == binding && old(active).Some? && old(active).value.id == id && removes
      ensures Undisturbing()
    {
      if scope != binding { return Err(WrongBinding); }
      if active.None? || active.value.id != id { return Err(NoTransfer); }
      Abandon(removes);
      r := if removes then Ok(()) else Err(Storage(Io));
    }

    /** Fence first, then clean up. */
    method Close(removes: bool)
      requires Valid()
      modifies this`closed, this`active, directory`bytes, directory`transfers, directory`charges
      modifies if active.Some? then {active.value.file} else {}
      ensures Valid() && closed && active.None? && Undisturbing()
    {
      closed := true;
      if active.Some? { Abandon(removes); }
    }

    /** After a turn of another session on the same directory, this one is as valid as
        before and stages something else. */
    twostate lemma Beside(r: HostReceiver)
      requires directory == r.directory && old(Valid()) && old(r.Valid()) && old(Apart(this, r))
      requires r.Valid() && r.Undisturbing() && unchanged(this) && (active.Some? ==> unchanged(active.value.file))
      ensures Valid() && Apart(this, r) && Apart(r, this)
    {
      if active.Some? {
        assert old(active.value.file.Valid());
        assert old(r.Mine()) != Some(active.value.file.charge);
      }
    }

    /** No more is ever published than was declared, by number and by size, and so
        never more than the policy allows. */
    lemma NeverMoreThanDeclared()
      requires Ledger()
      ensures |published| <= policy.maxTransfers && PublishedBytes(published) <= policy.maxBytes
    {
      PublishedFits(published, declared);
    }
  }

  function PublishedBytes(ps: seq<Evidence>): (r: nat) {
    if ps == [] then 0 else PublishedBytes(ps[..|ps| - 1]) + ps[|ps| - 1].size
  }

  lemma {:induction false} PublishedFits(ps: seq<Evidence>, ds: seq<Declared>)
    requires forall i, j :: 0 <= i < j < |ds| ==> ds[i].id < ds[j].id
    requires forall i, j :: 0 <= i < j < |ps| ==> ps[i].id < ps[j].id
    requires forall i :: 0 <= i < |ps| ==> Declared(ps[i].id, ps[i].size) in ds
    ensures |ps| <= |ds| && PublishedBytes(ps) <= DeclaredBytes(ds)
    decreases |ds|
  {
    if ps != [] {
      var n, m := |ps| - 1, |ds| - 1;
      var p := Declared(ps[n].id, ps[n].size);
      assert p in ds;
      var k :| 0 <= k < |ds| && ds[k] == p;
      var rest := if k == m then ps[..n] else ps;
      forall i | 0 <= i < |rest| ensures Declared(rest[i].id, rest[i].size) in ds[..m] {
        var d := Declared(ps[i].id, ps[i].size);
        assert d in ds;
        var j :| 0 <= j < |ds| && ds[j] == d;
        assert ps[i].id <= ps[n].id && (k == m ==> ps[i].id < ps[n].id);
        assert j != m;
        assert ds[..m][j] == d;
      }
      PublishedFits(rest, ds[..m]);
    }
  }

  // ------------------------------------------------------- sessions that share it

  datatype Command =
    | Begins(scope: nat, offer: Offer, before: Sample, creates: bool, later: Sample, removes: bool)
    | Writes(scope: nat, id: u64, offset: u64, bytes: seq<Byte>, before: Sample, writes: bool, later: Sample,
      removes: bool)
    | Completes(scope: nat, id: u64, before: Sample, syncs: bool, later: Sample, world: nat -> World, durable: bool,
      removes: bool)
    | Services(sample: Sample, removes: bool)
    | Cancels(scope: nat, id: u64, removes: bool)
    | Closes(removes: bool)

  method Serve(r: HostReceiver, c: Command)
    requires r.Valid()
    modifies r, r.directory, if r.active.Some? then {r.active.value.file} else {}
    ensures r.Valid() && r.Undisturbing()
  {
    hide HostReceiver.Valid, HostReceiver.Undisturbing;
    match c {
      case Begins(scope, offer, before, creates, later, removes) =>
        var _ := r.Begin(scope, offer, before, creates, later, removes);
      case Writes(scope, id, offset, bytes, before, writes, later, removes) =>
        var _ := r.Write(scope, id, offset, bytes, before, writes, later, removes);
      case Completes(scope, id, before, syncs, later, world, durable, removes) =>
        ghost var tries;
        var receipt;
        receipt, tries := r.Complete(scope, id, before, syncs, later, world, durable, removes);
      case Services(sample, removes) => var _ := r.Service(sample, removes);
      case Cancels(scope, id, removes) => var _ := r.Cancel(scope, id, removes);
      case Closes(removes) => r.Close(removes);
    }
  }

  /** Two sessions stage different files under different reservations. */
  ghost predicate Apart(a: HostReceiver, b: HostReceiver)
    reads a`active, b`active
  {
    && a != b
    && (a.active.Some? && b.active.Some? ==> a.active.value.file != b.active.value.file && a.Mine() != b.Mine())
  }

  ghost function Files(rs: seq<HostReceiver>): (files: set<PendingFile>)
    reads rs
  {
    set i | 0 <= i < |rs| && rs[i].active.Some? :: rs[i].active.value.file
  }

  /** Any number of sessions on one directory. */
  ghost predicate Together(d: Directory, rs: seq<HostReceiver>)
    reads rs, d, Files(rs)
  {
    && (forall i :: 0 <= i < |rs| ==> rs[i].directory == d)
    && (forall i :: 0 <= i < |rs| ==> rs[i].Valid())
    && (forall i, j :: 0 <= i < j < |rs| ==> Apart(rs[i], rs[j]))
  }

  /** One session's turn leaves every other session as it was, and valid. */
  method Turn(d: Directory, rs: seq<HostReceiver>, k: nat, c: Command)
    requires Together(d, rs) && k < |rs|
    modifies rs[k], d, if rs[k].active.Some? then {rs[k].active.value.file} else {}
    ensures Together(d, rs)
    ensures forall i :: 0 <= i < |rs| && i != k ==> unchanged(rs[i])
    ensures rs[k].active.Some? ==> rs[k].active == old(rs[k].active) || fresh(rs[k].active.value.file)
  {
    hide HostReceiver.Valid, OthersKept, Apart;
    Apartness(rs, k);
    Serve(rs[k], c);
    forall i | 0 <= i < |rs| && i != k ensures rs[i].Valid() && Apart(rs[i], rs[k]) && Apart(rs[k], rs[i]) {
      rs[i].Beside(rs[k]);
    }
    forall i, j | 0 <= i < j < |rs| && i != k && j != k ensures Apart(rs[i], rs[j]) {
      assert old(Apart(rs[i], rs[j]));
    }
  }

  lemma Apartness(rs: seq<HostReceiver>, k: nat)
    requires k < |rs| && forall i, j :: 0 <= i < j < |rs| ==> Apart(rs[i], rs[j])
    ensures forall i :: 0 <= i < |rs| && i != k ==> Apart(rs[i], rs[k]) && rs[i] != rs[k]
    ensures forall i :: 0 <= i < |rs| && i != k && rs[i].active.Some? && rs[k].active.Some? ==>
      rs[i].active.value.file != rs[k].active.value.file
  {
    forall i | 0 <= i < |rs| && i != k ensures Apart(rs[i], rs[k]) {
      assert if i < k then Apart(rs[i], rs[k]) else Apart(rs[k], rs[i]);
    }
  }

  /** Any interleaving of the calls of any number of sessions on one directory keeps
      every one of them valid, and the reservation counters exact. */
  method Share(d: Directory, rs: seq<HostReceiver>, turns: seq<(nat, Command)>)
    requires Together(d, rs) && forall i :: 0 <= i < |turns| ==> turns[i].0 < |rs|
    modifies rs, d, Files(rs)
    ensures Together(d, rs)
  {
    ghost var files := Files(rs);
    for n := 0 to |turns|
      invariant Together(d, rs)
      invariant forall i :: 0 <= i < |rs| && rs[i].active.Some? ==>
        rs[i].active.value.file in files || fresh(rs[i].active.value.file)
    {
      Turn(d, rs, turns[n].0, turns[n].1);
    }
  }
}
