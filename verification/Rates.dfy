/** Token buckets with microsecond refill. One integer model stands for the limiter
    registry, the file session and the file sender alike. */
module Rates {
  import opened Common

  /** Tokens are counted in millionths; `rate` of these arrive per microsecond. */
  const SCALE: nat := 1_000_000

  datatype Bucket = Bucket(rate: nat, capacity: nat, tokens: nat, last: nat)

  /** A sample that goes back in time refills nothing and does not move the clock. */
  function Refill(b: Bucket, now: nat): (c: Bucket) {
    if now < b.last then b
    else b.(tokens := Min(b.tokens + (now - b.last) * b.rate, b.capacity), last := now)
  }

  function Spend(b: Bucket, cost: nat): (r: (Bucket, bool)) {
    if cost > b.tokens then (b, false) else (b.(tokens := b.tokens - cost), true)
  }

  datatype Use = Tick(now: nat) | Take(cost: nat)

  function After(b: Bucket, uses: seq<Use>): (c: Bucket) {
    if uses == [] then b
    else
      var c := After(b, uses[..|uses| - 1]);
      match uses[|uses| - 1]
      case Tick(now) => Refill(c, now)
      case Take(cost) => Spend(c, cost).0
  }

  /** Everything granted by a run of uses. */
  function Granted(b: Bucket, uses: seq<Use>): (n: nat) {
    if uses == [] then 0
    else
      var before := uses[..|uses| - 1];
      Granted(b, before)
      + match uses[|uses| - 1]
        case Tick(_) => 0
        case Take(cost) => if Spend(After(b, before), cost).1 then cost else 0
  }

  lemma RefillGains(b: Bucket, now: nat)
    ensures var c := Refill(b, now);
      && b.last <= c.last && c.rate == b.rate && c.capacity == b.capacity
      && c.tokens <= b.tokens + b.rate * (c.last - b.last) && (b.tokens <= b.capacity ==> c.tokens <= c.capacity)
  {}

  lemma NeverLess(a: nat, b: nat)
    ensures a * b >= 0
  {}

  lemma Distribute(rate: nat, a: nat, b: nat)
    ensures rate * (a + b) == rate * a + rate * b
  {}

  /** Whatever is asked, and whenever: what a window grants is at most what was in
      the bucket at its start plus the rate times the time that passed. The window
      may start in any state of a longer run. */
  lemma {:induction false} WindowBound(b: Bucket, uses: seq<Use>)
    requires b.tokens <= b.capacity
    ensures var c := After(b, uses);
      && c.rate == b.rate && c.capacity == b.capacity && b.last <= c.last && c.tokens <= c.capacity
      && Granted(b, uses) + c.tokens <= b.tokens + b.rate * (c.last - b.last)
      && Granted(b, uses) <= b.capacity + b.rate * (c.last - b.last)
  {
    if uses != [] {
      var before := uses[..|uses| - 1];
      var m := After(b, before);
      WindowBound(b, before);
      match uses[|uses| - 1] {
        case Tick(now) =>
          RefillGains(m, now);
          Distribute(b.rate, m.last - b.last, Refill(m, now).last - m.last);
        case Take(_) =>
      }
    }
  }

  // ---------------------------------------------------------------- retry advice

  /** Refill, then spend. */
  function TryConsume(b: Bucket, now: nat, tokens: nat): (r: (Bucket, bool)) {
    Spend(Refill(b, now), tokens * SCALE)
  }

  function RetryAfter(b: Bucket, now: nat, tokens: nat): (wait: nat)
    requires !TryConsume(b, now, tokens).1
  {
    var missing := tokens * SCALE - Refill(b, now).tokens;
    if b.rate > 0 then Max(missing / b.rate, 1) else SCALE
  }

  /** The advice is the whole number of microseconds in which what is missing arrives,
      rounded down, but at least one; and a second if nothing ever arrives. */
  lemma AdviceIsRounded(b: Bucket, now: nat, tokens: nat)
    requires !TryConsume(b, now, tokens).1
    ensures var wait, missing := RetryAfter(b, now, tokens), tokens * SCALE - Refill(b, now).tokens;
      && wait >= 1 && missing > 0
      && (b.rate == 0 ==> wait == SCALE)
      && (b.rate > 0 ==> missing < (wait + 1) * b.rate && (wait == 1 || wait * b.rate <= missing))
  {
    hide Refill;
    if b.rate > 0 {
      var missing := tokens * SCALE - Refill(b, now).tokens;
      var q := missing / b.rate;
      assert missing == q * b.rate + missing % b.rate && missing % b.rate < b.rate;
      assert (q + 1) * b.rate == q * b.rate + b.rate;
    }
  }

  /** Waiting exactly as long as advised is enough if and only if the request fits
      the bucket, tokens arrive at all, and the advice was not rounded down. */
  lemma RetryExactly(b: Bucket, now: nat, tokens: nat)
    requires b.last <= now && b.tokens <= b.capacity && !TryConsume(b, now, tokens).1
    ensures var refused := TryConsume(b, now, tokens).0;
      var missing := tokens * SCALE - Refill(b, now).tokens;
      TryConsume(refused, now + RetryAfter(b, now, tokens), tokens).1
      <==> b.rate > 0 && tokens * SCALE <= b.capacity && (missing < b.rate || missing % b.rate == 0)
  {
    var refused := Refill(b, now);
    var missing := tokens * SCALE - refused.tokens;
    if b.rate > 0 {
      var q := missing / b.rate;
      assert missing == q * b.rate + missing % b.rate;
      if missing < b.rate {
        QuotientZero(missing, b.rate);
      } else {
        QuotientPositive(missing, b.rate);
      }
    }
  }

  /** One microsecond more is always enough for a request that fits the bucket. */
  lemma RetryPlusOne(b: Bucket, now: nat, tokens: nat)
    requires b.last <= now && b.tokens <= b.capacity && b.rate > 0 && !TryConsume(b, now, tokens).1
    ensures TryConsume(TryConsume(b, now, tokens).0, now + RetryAfter(b, now, tokens) + 1, tokens).1
      <==> tokens * SCALE <= b.capacity
  {
    var refused := Refill(b, now);
    var missing := tokens * SCALE - refused.tokens;
    var wait := RetryAfter(b, now, tokens) + 1;
    var q := missing / b.rate;
    assert missing == q * b.rate + missing % b.rate;
    assert missing % b.rate < b.rate;
    Distribute(b.rate, q, 1);
    Monotone(b.rate, q + 1, wait);
  }

  lemma Monotone(rate: nat, a: nat, b: nat)
    requires a <= b
    ensures rate * a <= rate * b
  {
    Distribute(rate, a, b - a);
  }

  lemma QuotientZero(n: nat, d: nat)
    requires n < d
    ensures n / d == 0
  {}

  lemma QuotientPositive(n: nat, d: nat)
    requires 0 < d <= n
    ensures n / d >= 1
  {}

  // ------------------------------------------------------- advice over whole runs

  /** A bucket as it is made: full. */
  function Full(rate: nat, capacity: nat, start: nat): (b: Bucket) {
    Bucket(rate, capacity * SCALE, capacity * SCALE, start)
  }

  /** Requests are for whole tokens. */
  predicate Whole(uses: seq<Use>) {
    forall i :: 0 <= i < |uses| && uses[i].Take? ==> uses[i].cost % SCALE == 0
  }

  /** A request that is refused now is granted after the advised wait. */
  predicate Helps(b: Bucket, now: nat, tokens: nat) {
    !TryConsume(b, now, tokens).1 ==>
      TryConsume(TryConsume(b, now, tokens).0, now + RetryAfter(b, now, tokens), tokens).1
  }

  /** In every run of such a bucket, every advice to a request that fits it helps. */
  ghost predicate AdviceHolds(rate: nat, capacity: nat, start: nat) {
    forall uses: seq<Use>, now: nat, tokens: nat ::
      Whole(uses) && After(Full(rate, capacity, start), uses).last <= now && tokens <= capacity
      ==> Helps(After(Full(rate, capacity, start), uses), now, tokens)
  }

  lemma DividesSum(a: nat, b: nat, d: nat)
    requires d > 0 && a % d == 0 && b % d == 0
    ensures (a + b) % d == 0 && (a >= b ==> (a - b) % d == 0)
  {
    var p, q := a / d, b / d;
    assert a == d * p && b == d * q;
    assert a + b == d * (p + q);
    Multiple(d, p + q);
    if a >= b {
      assert a - b == d * (p - q);
      Multiple(d, p - q);
    }
  }

  lemma Multiple(d: nat, k: int)
    requires d > 0
    ensures (d * k) % d == 0
  {
    var q, r := (d * k) / d, (d * k) % d;
    assert d * k == d * q + r;
    assert d * (k - q) == r;
    if k - q >= 1 { Scaled(d, k - q); }
    if k - q <= -1 { Scaled(d, q - k); }
  }

  lemma Scaled(d: nat, k: nat)
    requires k >= 1
    ensures d * k >= d
  {
    Distribute(d, 1, k - 1);
  }

  lemma DividesProduct(a: nat, k: nat, d: nat)
    requires d > 0 && a % d == 0
    ensures (k * a) % d == 0
  {
    var p := a / d;
    assert a == d * p;
    assert k * a == d * (k * p);
    Multiple(d, k * p);
  }

  /** If the rate divides a token, the bucket always holds a multiple of the rate. */
  lemma {:induction false} HoldsMultiples(rate: nat, capacity: nat, start: nat, uses: seq<Use>)
    requires rate > 0 && SCALE % rate == 0 && Whole(uses)
    ensures After(Full(rate, capacity, start), uses).tokens % rate == 0
  {
    hide Refill, Spend;
    DividesProduct(SCALE, capacity, rate);
    if uses != [] {
      var before := uses[..|uses| - 1];
      HoldsMultiples(rate, capacity, start, before);
      var b := After(Full(rate, capacity, start), before);
      WindowBound(Full(rate, capacity, start), before);
      match uses[|uses| - 1] {
        case Tick(now) => RefillMultiple(b, capacity, now);
        case Take(cost) => SpendMultiple(b, cost);
      }
    }
  }

  lemma RefillMultiple(b: Bucket, capacity: nat, now: nat)
    requires b.rate > 0 && SCALE % b.rate == 0 && b.tokens % b.rate == 0 && b.capacity == capacity * SCALE
    ensures Refill(b, now).tokens % b.rate == 0
  {
    DividesProduct(SCALE, capacity, b.rate);
    if now >= b.last {
      var gain := (now - b.last) * b.rate;
      assert gain == b.rate * (now - b.last);
      Multiple(b.rate, now - b.last);
      DividesSum(b.tokens, gain, b.rate);
    }
  }

  lemma SpendMultiple(b: Bucket, cost: nat)
    requires b.rate > 0 && SCALE % b.rate == 0 && b.tokens % b.rate == 0 && cost % SCALE == 0
    ensures Spend(b, cost).0.tokens % b.rate == 0
  {
    var k := cost / SCALE;
    assert cost == k * SCALE;
    DividesProduct(SCALE, k, b.rate);
    if cost <= b.tokens { DividesSum(b.tokens, cost, b.rate); }
  }

  lemma TokensAreWhole(n: nat)
    ensures (n * SCALE) % SCALE == 0
  {}

  /** Everything taken at once leaves the bucket empty. */
  lemma Emptied(rate: nat, capacity: nat, start: nat)
    ensures var uses := [Take(capacity * SCALE)];
      Whole(uses) && After(Full(rate, capacity, start), uses) == Bucket(rate, capacity * SCALE, 0, start)
  {
    hide Refill;
    var uses := [Take(capacity * SCALE)];
    TokensAreWhole(capacity);
    assert uses[..0] == [] && After(Full(rate, capacity, start), uses[..0]) == Full(rate, capacity, start);
  }

  /** The advice for everything that is missing from an empty bucket. */
  lemma EmptyMisleads(b: Bucket, tokens: nat)
    requires b.tokens == 0 < tokens
    requires b.rate > 0 ==> tokens * SCALE >= b.rate && (tokens * SCALE) % b.rate != 0
    ensures !Helps(b, b.last, tokens)
  {
    hide RetryAfter, Refill, Spend;
    RefillAtOnce(b, tokens);
    RetryExactly(b, b.last, tokens);
  }

  lemma RefillAtOnce(b: Bucket, tokens: nat)
    requires b.tokens == 0
    ensures Refill(b, b.last) == b && (tokens > 0 ==> !TryConsume(b, b.last, tokens).1)
  {}

  /** After a run that empties the bucket, a request for `tokens` is refused twice. */
  lemma Drained(rate: nat, capacity: nat, start: nat, tokens: nat)
    requires 0 < tokens <= capacity
    requires rate > 0 ==> tokens * SCALE >= rate && (tokens * SCALE) % rate != 0
    ensures !AdviceHolds(rate, capacity, start)
  {
    hide After, Whole, Helps, Full;
    var uses := [Take(capacity * SCALE)];
    Emptied(rate, capacity, start);
    var empty := After(Full(rate, capacity, start), uses);
    EmptyMisleads(empty, tokens);
    assert Whole(uses) && empty.last <= start && !Helps(empty, start, tokens);
  }

  /** A request whose drained remainder is not covered, if there is one. */
  lemma SomeoneIsMisled(rate: nat, capacity: nat, start: nat)
    requires capacity * SCALE > rate && (rate > 0 ==> SCALE % rate != 0)
    ensures !AdviceHolds(rate, capacity, start)
  {
    if rate <= SCALE {
      Drained(rate, capacity, start, 1);
    } else if (capacity * SCALE) % rate != 0 {
      Drained(rate, capacity, start, capacity);
    } else {
      var m := (capacity * SCALE) / rate;
      assert capacity * SCALE == rate * m;
      assert m >= 2 by { if m <= 1 { Monotone(rate, m, 1); } }
      Monotone(rate, 2, m);
      assert (capacity - 1) * SCALE == rate * m - SCALE >= rate;
      if ((capacity - 1) * SCALE) % rate == 0 {
        DividesSum(capacity * SCALE, (capacity - 1) * SCALE, rate);
        assert false;
      }
      Drained(rate, capacity, start, capacity - 1);
    }
  }

  /** The configurations whose advice is always right are exactly those whose rate
      divides a token or refills the whole bucket within a microsecond. */
  lemma AdviceExactly(rate: nat, capacity: nat, start: nat)
    ensures AdviceHolds(rate, capacity, start) <==> capacity * SCALE <= rate || (rate > 0 && SCALE % rate == 0)
  {
    if capacity * SCALE <= rate || (rate > 0 && SCALE % rate == 0) {
      forall uses: seq<Use>, now: nat, tokens: nat
        | Whole(uses) && After(Full(rate, capacity, start), uses).last <= now && tokens <= capacity
        ensures Helps(After(Full(rate, capacity, start), uses), now, tokens)
      {
        AdviceHelps(rate, capacity, start, uses, now, tokens);
      }
    } else {
      SomeoneIsMisled(rate, capacity, start);
    }
  }

  /** Of the limiters as they are configured by default, those of cursor uploads and
      of recovery requests give advice that can be too short; all others never do. */
  lemma DefaultLimiters(start: nat)
    ensures AdviceHolds(100, 100, start) && AdviceHolds(200, 200, start) && AdviceHolds(1, 5, start)
      && AdviceHolds(1, 3, start)
    ensures !AdviceHolds(60, 60, start) && !AdviceHolds(120, 120, start)
  {
    AdviceExactly(100, 100, start);
    AdviceExactly(200, 200, start);
    AdviceExactly(1, 5, start);
    AdviceExactly(1, 3, start);
    AdviceExactly(60, 60, start);
    AdviceExactly(120, 120, start);
  }

  lemma AdviceHelps(rate: nat, capacity: nat, start: nat, uses: seq<Use>, now: nat, tokens: nat)
    requires capacity * SCALE <= rate || (rate > 0 && SCALE % rate == 0)
    requires Whole(uses) && After(Full(rate, capacity, start), uses).last <= now && tokens <= capacity
    ensures Helps(After(Full(rate, capacity, start), uses), now, tokens)
  {
    hide After, Refill, Spend, RetryAfter, Whole;
    var b := After(Full(rate, capacity, start), uses);
    WindowBound(Full(rate, capacity, start), uses);
    if !TryConsume(b, now, tokens).1 {
      RefillGains(b, now);
      Refuses(b, now, tokens);
      Monotone(SCALE, tokens, capacity);
      RetryExactly(b, now, tokens);
      if capacity * SCALE <= rate {
        Multiple(rate, 1);
      } else {
        MissingIsMultiple(rate, capacity, start, uses, now, tokens);
      }
    }
  }

  lemma Refuses(b: Bucket, now: nat, tokens: nat)
    requires !TryConsume(b, now, tokens).1
    ensures tokens * SCALE > Refill(b, now).tokens && TryConsume(b, now, tokens).0 == Refill(b, now)
  {
    hide Refill;
  }

  lemma MissingIsMultiple(rate: nat, capacity: nat, start: nat, uses: seq<Use>, now: nat, tokens: nat)
    requires rate > 0 && SCALE % rate == 0 && Whole(uses)
    ensures var held := Refill(After(Full(rate, capacity, start), uses), now).tokens;
      tokens * SCALE >= held ==> (tokens * SCALE - held) % rate == 0
  {
    hide Refill;
    var later := uses + [Tick(now)];
    assert later[..|uses|] == uses;
    HoldsMultiples(rate, capacity, start, later);
    DividesProduct(SCALE, tokens, rate);
    DividesSum(tokens * SCALE, Refill(After(Full(rate, capacity, start), uses), now).tokens, rate);
  }

  // ------------------------------------------------------------ 64-bit arithmetic

  function Saturated(n: nat): (r: u64) { if n > U64_MAX then U64_MAX else n }

  const U32_MAX: nat := 0xFFFF_FFFF

  class TokenBucket {
    const ratePerSecond: nat
    const capacity: nat
    var scaledTokens: u64
    var lastLeak: u64

    /** The bucket this object is, in exact arithmetic. */
    function Model(): (b: Bucket)
      reads this
    {
      Bucket(ratePerSecond, capacity * SCALE, scaledTokens, lastLeak)
    }

    ghost predicate Valid()
      reads this
    {
      ratePerSecond <= U32_MAX && capacity <= U32_MAX && scaledTokens <= capacity * SCALE
    }

    constructor (ratePerSecond: nat, capacity: nat, start: u64)
      requires ratePerSecond <= U32_MAX && capacity <= U32_MAX
      ensures Valid() && Model() == Bucket(ratePerSecond, capacity * SCALE, capacity * SCALE, start)
    {
      this.ratePerSecond, this.capacity, lastLeak := ratePerSecond, capacity, start;
      scaledTokens := Saturated(capacity * SCALE);
    }

    /** Saturating arithmetic never changes the result. */
    method Replenish(now: u64)
      requires Valid()
      modifies this
      ensures Valid() && Model() == Refill(old(Model()), now)
    {
      if now >= lastLeak {
        var added := Saturated((now - lastLeak) * ratePerSecond);
        var cap := Saturated(capacity * SCALE);
        scaledTokens := Min(Saturated(scaledTokens + added), cap);
        lastLeak := now;
      }
    }

    method Consume(now: u64, tokens: nat) returns (retry: Option<nat>)
      requires Valid() && tokens <= U32_MAX
      modifies this
      ensures Valid() && (Model(), retry.None?) == TryConsume(old(Model()), now, tokens)
      ensures retry.Some? ==> retry.value == RetryAfter(old(Model()), now, tokens)
    {
      Replenish(now);
      var needed := Saturated(tokens * SCALE);
      if scaledTokens >= needed {
        scaledTokens := scaledTokens - needed;
        return None;
      }
      var missing := needed - scaledTokens;
      retry := Some(Max(if ratePerSecond > 0 then missing / ratePerSecond else SCALE, 1));
    }
  }

  /** The limiter of cursor uploads as it is configured by default, 60 a second and
      60 at once: a viewer that used them up is told to wait 16666 microseconds, and
      is then refused again. */
  method AdviceTooShort(start: u64) returns (bucket: TokenBucket, first: Option<nat>, second: Option<nat>)
    requires start + 16_666 <= U64_MAX
    ensures bucket.Valid() && fresh(bucket) && bucket.ratePerSecond == bucket.capacity == 60
    ensures first == Some(16_666) && second == Some(1)
  {
    bucket := new TokenBucket(60, 60, start);
    var used := bucket.Consume(start, 60);
    first := bucket.Consume(start, 1);
    second := bucket.Consume(start + 16_666, 1);
  }

  // ---------------------------------------------------------- pacing of a file sender

  const SENDER_BURST: nat := (65_536 + 128) * SCALE

  /** A record is prepared only when it can be paid for, and paid for only when the
      transport takes it. */
  class Pacer {
    var rate: nat
    var tokens: nat
    var time: nat
    /** The cost of the record waiting for the transport. */
    var waiting: Option<nat>

    function Model(): (b: Bucket)
      reads this
    {
      Bucket(rate, SENDER_BURST, tokens, time)
    }

    /** What waits is always covered, so that paying for it cannot underflow. */
    ghost predicate Valid()
      reads this
    {
      tokens <= SENDER_BURST && (waiting.Some? ==> waiting.value * SCALE <= tokens)
    }

    constructor (rate: nat, now: nat)
      ensures Valid() && Model() == Bucket(rate, SENDER_BURST, 0, now) && waiting.None?
    {
      this.rate, tokens, time, waiting := rate, 0, now, None;
    }

    /** The peer's rate is never exceeded, and nothing is saved up before it agreed. */
    method Accept(peerRate: nat, now: nat)
      requires Valid() && waiting.None?
      modifies this
      ensures Valid() && Model() == Bucket(Min(old(rate), peerRate), SENDER_BURST, 0, now) && waiting.None?
    {
      rate, tokens, time := Min(rate, peerRate), 0, now;
    }

    method Turn(now: nat) returns (ok: bool)
      requires Valid()
      modifies this
      ensures Valid() && ok == (now >= old(time)) && Model() == Refill(old(Model()), now) && waiting == old(waiting)
    {
      if now < time { return false; }
      NeverLess(now - time, rate);
      tokens := Min(tokens + (now - time) * rate, SENDER_BURST);
      time := now;
      ok := true;
    }

    method Prepare(cost: nat) returns (ok: bool)
      requires Valid()
      modifies this`waiting
      ensures Valid() && ok == (old(waiting).None? && Spend(Model(), cost * SCALE).1)
      ensures waiting == if ok then Some(cost) else old(waiting)
    {
      ok := waiting.None? && tokens >= cost * SCALE;
      if ok { waiting := Some(cost); }
    }

    /** The transport took the waiting record. */
    method Taken()
      requires Valid() && waiting.Some?
      modifies this
      ensures Valid() && waiting.None? && (Model(), true) == Spend(old(Model()), old(waiting).value * SCALE)
    {
      tokens := tokens - waiting.value * SCALE;
      waiting := None;
    }
  }
}
