/** The three-lane queue that keeps a flood of bulk requests from starving anything
    else, and bulk itself from waiting for ever behind ordinary traffic. */
module Queue {
  import opened Common

  const USIZE_MAX: nat := U64_MAX
  const U32_MAX: nat := 0xFFFF_FFFF

  /** The machine word lengths are counted in. */
  type usize = n: nat | n <= USIZE_MAX

  datatype Lane = High | Normal | Bulk
  datatype Item<T> = Item(value: T, bytes: usize)
  datatype Limit = Limit(count: usize, bytes: usize)
  datatype Limits = Limits(high: Limit, normal: Limit, bulk: Limit)

  datatype Refusal =
    | QueueFull(lane: Lane, count: nat, maximum: usize)
    | ByteLimitExceeded(lane: Lane, bytes: usize, maximum: usize)

  /** The waiting items of each lane, oldest first, the byte counter of each lane, and
      the Normal items served since Bulk was last served. */
  datatype Queued<T> = Queued(
    high: seq<Item<T>>,
    normal: seq<Item<T>>,
    bulk: seq<Item<T>>,
    highBytes: usize,
    normalBytes: usize,
    bulkBytes: usize,
    deficit: nat)
  {
    function In(lane: Lane): (items: seq<Item<T>>) {
      match lane
      case High => high
      case Normal => normal
      case Bulk => bulk
    }

    function Counter(lane: Lane): (bytes: usize) {
      match lane
      case High => highBytes
      case Normal => normalBytes
      case Bulk => bulkBytes
    }
  }

  function Empty<T>(): (q: Queued<T>) { Queued([], [], [], 0, 0, 0, 0) }

  function Minus(a: usize, b: usize): (r: usize) { if a < b then 0 else a - b }

  function Plus(a: usize, b: usize): (r: usize) { if a + b > USIZE_MAX then USIZE_MAX else a + b }

  function Bumped(deficit: nat): (r: nat) { if deficit >= U32_MAX then deficit else deficit + 1 }

  function LimitOf(limits: Limits, lane: Lane): (limit: Limit) {
    match lane
    case High => limits.high
    case Normal => limits.normal
    case Bulk => limits.bulk
  }

  function Bytes<T>(items: seq<Item<T>>): (n: nat) {
    if items == [] then 0 else Bytes(items[..|items| - 1]) + items[|items| - 1].bytes
  }

  lemma {:induction false} BytesOfRest<T>(items: seq<Item<T>>)
    requires items != []
    ensures Bytes(items) == items[0].bytes + Bytes(items[1..])
  {
    var n := |items| - 1;
    if n > 0 {
      BytesOfRest(items[..n]);
      assert items[..n][1..] == items[1..][..n - 1];
    }
  }

  lemma BytesOfMore<T>(items: seq<Item<T>>, item: Item<T>)
    ensures Bytes(items + [item]) == Bytes(items) + item.bytes
  {
    assert (items + [item])[..|items|] == items;
  }

  function Put<T>(q: Queued<T>, lane: Lane, item: Item<T>): (r: Queued<T>) {
    match lane
    case High => q.(high := q.high + [item], highBytes := Plus(q.highBytes, item.bytes))
    case Normal => q.(normal := q.normal + [item], normalBytes := Plus(q.normalBytes, item.bytes))
    case Bulk => q.(bulk := q.bulk + [item], bulkBytes := Plus(q.bulkBytes, item.bytes))
  }

  /** Which lane is served next: High first; then at most three Normal in a row while
      Bulk waits. */
  function Turn<T>(q: Queued<T>): (lane: Option<Lane>) {
    if q.high != [] then Some(High)
    else if q.normal != [] && (q.deficit < 3 || q.bulk == []) then Some(Normal)
    else if q.bulk != [] then Some(Bulk)
    else None
  }

  function Served<T>(q: Queued<T>): (r: Queued<T>) {
    match Turn(q)
    case None => q
    case Some(High) => q.(high := q.high[1..], highBytes := Minus(q.highBytes, q.high[0].bytes))
    case Some(Normal) =>
      q.(normal := q.normal[1..], normalBytes := Minus(q.normalBytes, q.normal[0].bytes), deficit := Bumped(q.deficit))
    case Some(Bulk) => q.(bulk := q.bulk[1..], bulkBytes := Minus(q.bulkBytes, q.bulk[0].bytes), deficit := 0)
  }

  /** Nothing waits unserved: every non-empty queue has a turn. */
  lemma SomeoneIsServed<T>(q: Queued<T>)
    ensures Turn(q).None? <==> q.high == [] && q.normal == [] && q.bulk == []
    ensures Turn(q).Some? ==> q.In(Turn(q).value) != []
  {}

  // ------------------------------------------------------------------------- runs

  datatype Event<T> = Push(lane: Lane, item: Item<T>) | Pop

  function Step<T>(q: Queued<T>, limits: Limits, e: Event<T>): (r: Queued<T>) {
    match e
    case Pop => Served(q)
    case Push(lane, item) => if Refused(q, limits, lane, item).None? then Put(q, lane, item) else q
  }

  /** Why an item is not admitted: its lane is full, by number or by bytes. */
  function Refused<T>(q: Queued<T>, limits: Limits, lane: Lane, item: Item<T>): (r: Option<Refusal>) {
    var limit := LimitOf(limits, lane);
    if |q.In(lane)| >= limit.count then Some(QueueFull(lane, |q.In(lane)|, limit.count))
    else if Plus(q.Counter(lane), item.bytes) > limit.bytes
      then Some(ByteLimitExceeded(lane, q.Counter(lane), limit.bytes))
    else None
  }

  function Run<T>(q: Queued<T>, limits: Limits, events: seq<Event<T>>): (r: Queued<T>) {
    if events == [] then q
    else Step(Run(q, limits, events[..|events| - 1]), limits, events[|events| - 1])
  }

  /** What one event puts into and takes out of a lane. */
  function Incoming<T>(q: Queued<T>, limits: Limits, e: Event<T>, lane: Lane): (items: seq<Item<T>>) {
    if e.Push? && e.lane == lane && Refused(q, limits, lane, e.item).None? then [e.item] else []
  }

  function Outgoing<T>(q: Queued<T>, e: Event<T>, lane: Lane): (items: seq<Item<T>>) {
    if e.Pop? && Turn(q) == Some(lane) then [q.In(lane)[0]] else []
  }

  lemma StepIsFifo<T>(q: Queued<T>, limits: Limits, e: Event<T>, lane: Lane)
    ensures q.In(lane) + Incoming(q, limits, e, lane) == Outgoing(q, e, lane) + Step(q, limits, e).In(lane)
  {
    SomeoneIsServed(q);
    if e.Pop? && Turn(q) == Some(lane) {
      assert q.In(lane) == [q.In(lane)[0]] + Served(q).In(lane);
    }
  }

  /** What entered and what left one lane, in order. */
  function Entered<T>(q: Queued<T>, limits: Limits, events: seq<Event<T>>, lane: Lane): (items: seq<Item<T>>) {
    if events == [] then []
    else
      var before := events[..|events| - 1];
      Entered(q, limits, before, lane) + Incoming(Run(q, limits, before), limits, events[|events| - 1], lane)
  }

  function Left<T>(q: Queued<T>, limits: Limits, events: seq<Event<T>>, lane: Lane): (items: seq<Item<T>>) {
    if events == [] then []
    else
      var before := events[..|events| - 1];
      Left(q, limits, before, lane) + Outgoing(Run(q, limits, before), events[|events| - 1], lane)
  }

  /** Each lane is first in, first out, and loses nothing it admitted. */
  lemma {:induction false} LanesAreFifo<T>(q: Queued<T>, limits: Limits, events: seq<Event<T>>, lane: Lane)
    ensures q.In(lane) + Entered(q, limits, events, lane) == Left(q, limits, events, lane)
      + Run(q, limits, events).In(lane)
  {
    hide Step, Incoming, Outgoing, Queued.In;
    if events != [] {
      var before := events[..|events| - 1];
      var e := events[|events| - 1];
      LanesAreFifo(q, limits, before, lane);
      var p := Run(q, limits, before);
      StepIsFifo(p, limits, e, lane);
      var a, b, l, m := q.In(lane), Entered(q, limits, before, lane), Left(q, limits, before, lane), p.In(lane);
      var i, o, n := Incoming(p, limits, e, lane), Outgoing(p, e, lane), Step(p, limits, e).In(lane);
      assert a + (b + i) == (a + b) + i == (l + m) + i == l + (m + i) == l + (o + n) == (l + o) + n;
    }
  }

  /** Normal items served before Bulk is served for the first time. */
  function NormalFirst<T>(q: Queued<T>, limits: Limits, events: seq<Event<T>>): (n: nat)
    decreases |events|
  {
    if events == [] || (events[0].Pop? && Turn(q) == Some(Bulk)) then 0
    else
      (if events[0].Pop? && Turn(q) == Some(Normal) then 1 else 0)
      + NormalFirst(Step(q, limits, events[0]), limits, events[1..])
  }

  /** While Bulk waits, it is served after at most three Normal items, whatever else
      is pushed meanwhile. */
  lemma {:induction false} BulkIsNotStarved<T>(q: Queued<T>, limits: Limits, events: seq<Event<T>>)
    requires q.bulk != []
    ensures NormalFirst(q, limits, events) + Min(q.deficit, 3) <= 3
    decreases |events|
  {
    if events != [] && !(events[0].Pop? && Turn(q) == Some(Bulk)) {
      BulkIsNotStarved(Step(q, limits, events[0]), limits, events[1..]);
    }
  }

  /** Before every pop an item of Normal waits and none of High does. */
  ghost predicate NormalWaits<T>(q: Queued<T>, limits: Limits, events: seq<Event<T>>) {
    forall i :: 0 <= i < |events| && events[i].Pop? ==>
      Run(q, limits, events[..i]).high == [] && Run(q, limits, events[..i]).normal != []
  }

  /** While Normal waits, Bulk gets at most its share: between two items of Bulk three
      of Normal are served, whatever is pushed meanwhile. */
  lemma {:induction false} NormalKeepsItsShare<T>(q: Queued<T>, limits: Limits, events: seq<Event<T>>)
    requires NormalWaits(q, limits, events)
    ensures var normal, bulk := |Left(q, limits, events, Normal)|, |Left(q, limits, events, Bulk)|;
      && 3 * (bulk - 1) <= normal
      && (bulk > 0 ==> 3 * (bulk - 1) + Min(Run(q, limits, events).deficit, 3) <= normal)
  {
    if events != [] {
      var before, e := events[..|events| - 1], events[|events| - 1];
      forall i | 0 <= i < |before| && before[i].Pop?
        ensures Run(q, limits, before[..i]).high == [] && Run(q, limits, before[..i]).normal != []
      {
        assert before[..i] == events[..i] && events[i].Pop?;
      }
      NormalKeepsItsShare(q, limits, before);
      StepKeepsShare(Run(q, limits, before), limits, e);
    }
  }

  /** A pop serves Bulk before a waiting Normal only when three of Normal went first. */
  lemma StepKeepsShare<T>(q: Queued<T>, limits: Limits, e: Event<T>)
    requires e.Pop? ==> q.high == [] && q.normal != []
    ensures var r := Step(q, limits, e); var n, b := |Outgoing(q, e, Normal)|, |Outgoing(q, e, Bulk)|;
      && n + b == (if e.Pop? then 1 else 0)
      && (b == 1 ==> q.deficit >= 3 && r.deficit == 0)
      && (b == 0 ==> Min(r.deficit, 3) <= Min(q.deficit, 3) + n)
  {}

  /** The items of Normal served after the last item of Bulk. */
  function SinceBulk<T>(q: Queued<T>, limits: Limits, events: seq<Event<T>>): (n: nat) {
    if events == [] then 0
    else
      var before, e := events[..|events| - 1], events[|events| - 1];
      var p := Run(q, limits, before);
      if Outgoing(p, e, Bulk) != [] then 0 else SinceBulk(q, limits, before) + |Outgoing(p, e, Normal)|
  }

  /** After any run, what the next pop hands out, told from the run itself: the oldest
      item of High; else, while Bulk is empty or fewer than three of Normal went since
      the last of Bulk, the oldest of Normal; else the oldest of Bulk. */
  lemma {:induction false} NextServed<T>(limits: Limits, events: seq<Event<T>>)
    ensures var q, since := Run(Empty<T>(), limits, events), SinceBulk(Empty<T>(), limits, events);
      && q.deficit == Min(since, U32_MAX)
      && (q.high != [] ==> Outgoing(q, Pop, High) == [q.high[0]])
      && (q.high == [] && q.normal != [] && (since < 3 || q.bulk == []) ==> Outgoing(q, Pop, Normal) == [q.normal[0]])
      && (q.high == [] && q.bulk != [] && (since >= 3 || q.normal == []) ==> Outgoing(q, Pop, Bulk) == [q.bulk[0]])
      && |Outgoing(q, Pop, High)| + |Outgoing(q, Pop, Normal)| + |Outgoing(q, Pop, Bulk)| <= 1
  {
    if events != [] { NextServed(limits, events[..|events| - 1]); }
  }

  function Pops<T>(events: seq<Event<T>>): (n: nat) {
    if events == [] then 0 else Pops(events[..|events| - 1]) + if events[|events| - 1].Pop? then 1 else 0
  }

  /** What waits with high priority is served before everything else, and in order,
      whatever is pushed meanwhile: the k-th of it by the k-th pop. */
  lemma {:induction false} HighIsServedFirst<T>(q: Queued<T>, limits: Limits, events: seq<Event<T>>)
    requires Pops(events) <= |q.high|
    ensures Left(q, limits, events, High) == q.high[..Pops(events)]
    ensures Left(q, limits, events, Normal) == [] && Left(q, limits, events, Bulk) == []
    ensures q.high[Pops(events)..] <= Run(q, limits, events).high
  {
    hide Step, Outgoing;
    if events != [] {
      var before, e := events[..|events| - 1], events[|events| - 1];
      HighIsServedFirst(q, limits, before);
      var p, k := Run(q, limits, before), Pops(before);
      match e {
        case Pop =>
          assert p.high[0] == q.high[k];
          PopServesHigh(p, limits);
          assert q.high[..k + 1] == q.high[..k] + [q.high[k]];
        case Push(lane, item) => PushServesNothing(p, limits, lane, item);
      }
    }
  }

  lemma PopServesHigh<T>(q: Queued<T>, limits: Limits)
    requires q.high != []
    ensures Outgoing(q, Pop, High) == [q.high[0]] && Outgoing(q, Pop, Normal) == [] && Outgoing(q, Pop, Bulk) == []
    ensures Step(q, limits, Pop).high == q.high[1..]
  {}

  lemma PushServesNothing<T>(q: Queued<T>, limits: Limits, lane: Lane, item: Item<T>)
    ensures forall l :: Outgoing(q, Push(lane, item), l) == []
    ensures q.high <= Step(q, limits, Push(lane, item)).high
  {}

  // --------------------------------------------------------------- byte counters

  /** The counter of a lane is the sum of the bytes that wait in it. */
  ghost predicate Exact<T>(q: Queued<T>, lane: Lane) {
    q.Counter(lane) == Bytes(q.In(lane))
  }

  /** The configurations whose counter is always exact: a sum that is admitted cannot
      have saturated, or there is never a sum of two. */
  predicate Countable(limit: Limit) {
    limit.bytes < USIZE_MAX || limit.count <= 1
  }

  lemma PutExact<T>(q: Queued<T>, limits: Limits, lane: Lane, item: Item<T>)
    requires Countable(LimitOf(limits, lane)) && Exact(q, lane) && Refused(q, limits, lane, item).None?
    ensures Exact(Put(q, lane, item), lane)
  {
    BytesOfMore(q.In(lane), item);
  }

  lemma ServedExact<T>(q: Queued<T>, lane: Lane)
    requires Exact(q, lane)
    ensures Exact(Served(q), lane)
  {
    if q.In(lane) != [] { BytesOfRest(q.In(lane)); }
  }

  /** In every run every lane stays within its bounds, and a countable lane counts
      exactly. */
  lemma {:induction false} LanesStayWithin<T>(limits: Limits, events: seq<Event<T>>, lane: Lane)
    ensures var q := Run(Empty<T>(), limits, events);
      && |q.In(lane)| <= LimitOf(limits, lane).count && q.Counter(lane) <= LimitOf(limits, lane).bytes
      && (Countable(LimitOf(limits, lane)) ==> Exact(q, lane))
  {
    if events != [] {
      var q, e := Run(Empty<T>(), limits, events[..|events| - 1]), events[|events| - 1];
      LanesStayWithin(limits, events[..|events| - 1], lane);
      if Countable(LimitOf(limits, lane)) {
        match e {
          case Pop => ServedExact(q, lane);
          case Push(to, item) =>
            if to == lane && Refused(q, limits, lane, item).None? { PutExact(q, limits, lane, item); }
        }
      }
    }
  }

  /** After any run, an item is admitted if and only if its lane has a place left and the
      bytes that wait there leave room for it; a limit of the whole word leaves room for
      anything. A refusal names the lane, what waits in it, and its limit. */
  lemma AdmitsExactly<T>(limits: Limits, events: seq<Event<T>>, lane: Lane, item: Item<T>)
    ensures var q, limit := Run(Empty<T>(), limits, events), LimitOf(limits, lane);
      var r := Refused(q, limits, lane, item);
      && (r.None? <==>
         |q.In(lane)| < limit.count
         && (limit.bytes == USIZE_MAX || Bytes(q.In(lane)) + item.bytes <= limit.bytes))
      && (r.Some? && |q.In(lane)| >= limit.count ==> r.value == QueueFull(lane, |q.In(lane)|, limit.count))
      && (r.Some? && |q.In(lane)| < limit.count ==>
         r.value.ByteLimitExceeded? && r.value.lane == lane && r.value.bytes == Bytes(q.In(lane))
         && r.value.maximum == limit.bytes)
      && (r.None? ==> Put(q, lane, item).In(lane) == q.In(lane) + [item])
      && (forall other :: other != lane ==> Put(q, lane, item).In(other) == q.In(other))
  {
    LanesStayWithin(limits, events, lane);
  }

  /** Two items, one of them as long as a word can say. */
  function TwoPushes<T>(lane: Lane, x: T): (events: seq<Event<T>>) {
    [Push(lane, Item(x, USIZE_MAX)), Push(lane, Item(x, 1))]
  }

  lemma TwoPushesSaturate<T>(limits: Limits, lane: Lane, x: T)
    requires !Countable(LimitOf(limits, lane))
    ensures var q := Run(Empty<T>(), limits, TwoPushes(lane, x));
      q.In(lane) == [Item(x, USIZE_MAX), Item(x, 1)] && q.Counter(lane) == USIZE_MAX && !Exact(q, lane)
  {
    var events := TwoPushes(lane, x);
    assert events[..1][..0] == [] && events[..1] == [Push(lane, Item(x, USIZE_MAX))];
    var q := Run(Empty<T>(), limits, events[..1]);
    assert Run(Empty<T>(), limits, events[..1][..0]) == Empty<T>();
    assert Refused(Empty<T>(), limits, lane, Item(x, USIZE_MAX)).None?;
    assert q == Step(Empty(), limits, Push(lane, Item(x, USIZE_MAX)));
    assert q == Put(Empty(), lane, Item(x, USIZE_MAX));
    BytesOfMore(q.In(lane), Item(x, 1));
    BytesOfMore([], Item(x, USIZE_MAX));
  }

  /** A lane counts exactly in every run if and only if it is countable. */
  lemma CountersExactly<T(!new)>(limits: Limits, lane: Lane, x: T)
    ensures (forall events: seq<Event<T>> :: Exact(Run(Empty<T>(), limits, events), lane)) <==>
      Countable(LimitOf(limits, lane))
  {
    if Countable(LimitOf(limits, lane)) {
      forall events: seq<Event<T>> ensures Exact(Run(Empty<T>(), limits, events), lane) {
        LanesStayWithin(limits, events, lane);
      }
    } else {
      TwoPushesSaturate(limits, lane, x);
    }
  }

  // ------------------------------------------------------------------ the program

  class FloodFairQueue<T> {
    const limits: Limits
    var high: seq<Item<T>>
    var normal: seq<Item<T>>
    var bulk: seq<Item<T>>
    var highBytes: usize
    var normalBytes: usize
    var bulkBytes: usize
    var deficit: nat
    /** Every push and pop so far. */
    ghost var events: seq<Event<T>>

    function Model(): (q: Queued<T>)
      reads this
    {
      Queued(high, normal, bulk, highBytes, normalBytes, bulkBytes, deficit)
    }

    /** This object is where the run of its pushes and pops leads. */
    ghost predicate Valid()
      reads this
    {
      Model() == Run(Empty(), limits, events)
    }

    constructor (limits: Limits)
      ensures Valid() && this.limits == limits && events == []
    {
      this.limits, high, normal, bulk := limits, [], [], [];
      highBytes, normalBytes, bulkBytes, deficit, events := 0, 0, 0, 0, [];
    }

    ghost method Happened(e: Event<T>)
      requires Model() == Step(Run(Empty(), limits, events), limits, e)
      modifies this`events
      ensures Valid() && events == old(events) + [e]
    {
      hide Step;
      events := events + [e];
      assert events[..|events| - 1] == old(events);
    }

    method Push(lane: Lane, item: Item<T>) returns (r: Option<Refusal>)
      requires Valid()
      modifies this
      ensures Valid() && events == old(events) + [Event.Push(lane, item)]
      ensures r == Refused(old(Model()), limits, lane, item)
    {
      match lane {
        case High =>
          if |high| >= limits.high.count {
            r := Some(QueueFull(lane, |high|, limits.high.count));
          } else if Plus(highBytes, item.bytes) > limits.high.bytes {
            r := Some(ByteLimitExceeded(lane, highBytes, limits.high.bytes));
          } else {
            r, high, highBytes := None, high + [item], Plus(highBytes, item.bytes);
          }
        case Normal =>
          if |normal| >= limits.normal.count {
            r := Some(QueueFull(lane, |normal|, limits.normal.count));
          } else if Plus(normalBytes, item.bytes) > limits.normal.bytes {
            r := Some(ByteLimitExceeded(lane, normalBytes, limits.normal.bytes));
          } else {
            r, normal, normalBytes := None, normal + [item], Plus(normalBytes, item.bytes);
          }
        case Bulk =>
          if |bulk| >= limits.bulk.count {
            r := Some(QueueFull(lane, |bulk|, limits.bulk.count));
          } else if Plus(bulkBytes, item.bytes) > limits.bulk.bytes {
            r := Some(ByteLimitExceeded(lane, bulkBytes, limits.bulk.bytes));
          } else {
            r, bulk, bulkBytes := None, bulk + [item], Plus(bulkBytes, item.bytes);
          }
      }
      Happened(Event.Push(lane, item));
    }

    method Pop() returns (r: Option<(Lane, T)>)
      requires Valid()
      modifies this
      ensures Valid() && events == old(events) + [Event.Pop]
      ensures r.None? == Turn(old(Model())).None?
      ensures r.Some? ==>
        && r.value.0 == Turn(old(Model())).value && old(Model()).In(r.value.0) != []
        && r.value.1 == old(Model()).In(r.value.0)[0].value
      ensures old(high) != [] ==> r == Some((High, old(high)[0].value))
      ensures old(high) == [] && old(normal) != [] && old(deficit) < 3 ==> r == Some((Normal, old(normal)[0].value))
      ensures old(high) == [] && old(bulk) != [] && old(deficit) >= 3 ==> r == Some((Bulk, old(bulk)[0].value))
    {
      if high != [] {
        r := Some((High, high[0].value));
        highBytes, high := Minus(highBytes, high[0].bytes), high[1..];
      } else if normal != [] && (deficit < 3 || bulk == []) {
        r := Some((Normal, normal[0].value));
        normalBytes, normal, deficit := Minus(normalBytes, normal[0].bytes), normal[1..], Bumped(deficit);
      } else if bulk != [] {
        r := Some((Bulk, bulk[0].value));
        bulkBytes, bulk, deficit := Minus(bulkBytes, bulk[0].bytes), bulk[1..], 0;
      } else {
        // The last resort of serving Normal once more is never reached.
        assert normal == [];
        r := None;
      }
      Happened(Event.Pop);
    }
  }

  /** Both pushes are admitted, and what waits is then one more than the counter says. */
  lemma PushesGoWrong<T>(limits: Limits, lane: Lane, x: T)
    requires !Countable(LimitOf(limits, lane))
    ensures Refused(Run(Empty<T>(), limits, []), limits, lane, Item(x, USIZE_MAX)).None?
    ensures Refused(Run(Empty<T>(), limits, [Push(lane, Item(x, USIZE_MAX))]), limits, lane, Item(x, 1)).None?
    ensures var q := Run(Empty<T>(), limits, TwoPushes(lane, x));
      q.Counter(lane) == USIZE_MAX && Bytes(q.In(lane)) == USIZE_MAX + 1
  {
    TwoPushesSaturate(limits, lane, x);
    BytesOfMore([Item(x, USIZE_MAX)], Item(x, 1));
    BytesOfMore([], Item(x, USIZE_MAX));
    assert [Item(x, USIZE_MAX)] + [Item(x, 1)] == [Item(x, USIZE_MAX), Item(x, 1)];
    assert [Push(lane, Item(x, USIZE_MAX))][..0] == [];
    assert Run(Empty<T>(), limits, []) == Empty<T>();
    assert Run(Empty<T>(), limits, [Push(lane, Item(x, USIZE_MAX))])
        == Step(Empty(), limits, Push(lane, Item(x, USIZE_MAX)));
  }

  /** A queue whose counter goes wrong: both items are admitted, and the counter says
      less than waits. */
  method CounterGoesWrong<T>(limits: Limits, lane: Lane, x: T)
    returns (q: FloodFairQueue<T>, first: Option<Refusal>, second: Option<Refusal>)
    requires !Countable(LimitOf(limits, lane))
    ensures q.Valid() && q.limits == limits && fresh(q) && first.None? && second.None?
    ensures q.Model().Counter(lane) == USIZE_MAX && Bytes(q.Model().In(lane)) == USIZE_MAX + 1
  {
    hide Run, Refused, Bytes, Countable;
    PushesGoWrong(limits, lane, x);
    q := new FloodFairQueue(limits);
    first := q.Push(lane, Item(x, USIZE_MAX));
    assert q.events == [Event.Push(lane, Item(x, USIZE_MAX))];
    second := q.Push(lane, Item(x, 1));
    assert q.events == TwoPushes(lane, x);
  }
}
