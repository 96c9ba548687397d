/** The per-resource token bucket: pkg/throttling/token_bucket.go. Instants and durations are whole
    nanoseconds; each call receives the instant at which the source reads the clock. */
module TokenBuckets {
  const DEFAULT_CAPACITY := 10
  const DEFAULT_WINDOW := 60_000_000_000
  const DEFAULT_TTL := 3_600_000_000_000

  datatype Bucket = Bucket(tokens: int, lastFill: int, lastAccessed: int)
  type Buckets = map<string, Bucket>

  datatype Limits = Limits(capacity: int, window: int) {
    function TokenDuration(): int
      requires capacity > 0
    {
      GoDiv(window, capacity)
    }
  }

  /** Go's integer division, which truncates toward zero. */
  function GoDiv(a: int, b: int): int
    requires b > 0
  {
    if a >= 0 then a / b else -((-a) / b)
  }

  function CeilDiv(a: int, b: int): int
    requires b > 0
  {
    (a + b - 1) / b
  }

  function Min(a: int, b: int): int { if a < b then a else b }

  // One bucket, one step at a time. -------------------------------------------------------------

  function Refill(l: Limits, b: Bucket, now: int): Bucket
    requires l.capacity > 0
  {
    var d := l.TokenDuration();
    if d <= 0 then b
    else
      var n := GoDiv(now - b.lastFill, d);
      if n <= 0 then b else b.(tokens := Min(b.tokens + n, l.capacity), lastFill := b.lastFill + n * d)
  }

  function AfterAllow(l: Limits, bs: Buckets, key: string, now: int): Buckets
    requires l.capacity > 0
  {
    if key !in bs then bs[key := Bucket(l.capacity - 1, now, now)]
    else
      var b := Refill(l, bs[key], now).(lastAccessed := now);
      bs[key := if b.tokens <= 0 then b else b.(tokens := b.tokens - 1)]
  }

  predicate Allows(l: Limits, bs: Buckets, key: string, now: int)
    requires l.capacity > 0
  {
    key in bs ==> Refill(l, bs[key], now).tokens > 0
  }

  function AfterCleanup(bs: Buckets, now: int, ttl: int): Buckets {
    map k | k in bs && now - bs[k].lastAccessed <= ttl :: bs[k]
  }

  function TokensLeft(l: Limits, bs: Buckets, key: string, now: int): int
    requires l.capacity > 0
  {
    if key !in bs then l.capacity
    else
      var d, b := l.TokenDuration(), bs[key];
      if d > 0 then Min(b.tokens + GoDiv(now - b.lastFill, d), l.capacity) else b.tokens
  }

  class TokenBucket {
    const limits: Limits
    var buckets: Buckets

    constructor (capacity: int, window: int)
      requires capacity > 0
      ensures limits == Limits(capacity, window) && buckets == map[]
    {
      limits := Limits(capacity, window);
      buckets := map[];
    }

    method Allow(key: string, now: int) returns (ok: bool)
      requires limits.capacity > 0
      modifies this
      ensures ok == Allows(limits, old(buckets), key, now)
      ensures buckets == AfterAllow(limits, old(buckets), key, now)
    {
      if key !in buckets {
        buckets := buckets[key := Bucket(limits.capacity - 1, now, now)];
        return true;
      }
      var b := buckets[key].(lastAccessed := now);
      var tokenDuration := GoDiv(limits.window, limits.capacity);
      if tokenDuration > 0 {
        var elapsed := now - b.lastFill;
        var tokensToAdd := GoDiv(elapsed, tokenDuration);
        if tokensToAdd > 0 {
          b := b.(tokens := b.tokens + tokensToAdd);
          if b.tokens > limits.capacity {
            b := b.(tokens := limits.capacity);
          }
          b := b.(lastFill := b.lastFill + tokensToAdd * tokenDuration);
        }
      }
      buckets := buckets[key := b];
      if b.tokens <= 0 {
        return false;
      }
      buckets := buckets[key := b.(tokens := b.tokens - 1)];
      return true;
    }

    method Reset(key: string)
      modifies this
      ensures buckets == old(buckets) - {key}
    {
      buckets := buckets - {key};
    }

    method ResetAll()
      modifies this
      ensures buckets == map[]
    {
      buckets := map[];
    }

    method GetTokens(key: string, now: int) returns (tokens: int)
      requires limits.capacity > 0
      ensures tokens == TokensLeft(limits, buckets, key, now)
    {
      if key !in buckets {
        return limits.capacity;
      }
      var tokenDuration := GoDiv(limits.window, limits.capacity);
      tokens := buckets[key].tokens;
      if tokenDuration > 0 {
        var elapsed := now - buckets[key].lastFill;
        tokens := tokens + GoDiv(elapsed, tokenDuration);
        if tokens > limits.capacity {
          tokens := limits.capacity;
        }
      }
    }

    method CleanupStale(ttl: int, now: int) returns (removed: nat)
      modifies this
      ensures buckets == AfterCleanup(old(buckets), now, ttl)
      ensures forall k :: k in buckets <==> k in old(buckets) && now - old(buckets)[k].lastAccessed <= ttl
      ensures forall k :: k in buckets ==> buckets[k] == old(buckets)[k]
      ensures removed == |old(buckets)| - |buckets|
    {
      removed := 0;
      var todo := buckets.Keys;
      while todo != {}
        invariant todo <= buckets.Keys <= old(buckets).Keys
        invariant forall k :: k in buckets ==> buckets[k] == old(buckets)[k]
        invariant forall k :: k in old(buckets) && k !in todo ==>
            (k in buckets <==> now - old(buckets)[k].lastAccessed <= ttl)
        invariant removed == |old(buckets)| - |buckets|
        decreases |todo|
      {
        var key :| key in todo;
        todo := todo - {key};
        if now - buckets[key].lastAccessed > ttl {
          ghost var before := buckets;
          buckets := buckets - {key};
          assert buckets.Keys == before.Keys - {key};
          assert |buckets| == |buckets.Keys| && |before| == |before.Keys|;
          removed := removed + 1;
        }
      }
      assert buckets == AfterCleanup(old(buckets), now, ttl);
    }
  }

  // Whole histories of calls. -------------------------------------------------------------------

  datatype Op =
    | Allow(key: string, now: int)
    | Cleanup(now: int, ttl: int)
    | Reset(key: string, now: int)
    | ResetAll(now: int)

  function Step(l: Limits, bs: Buckets, op: Op): Buckets
    requires l.capacity > 0
  {
    match op
    case Allow(key, now) => AfterAllow(l, bs, key, now)
    case Cleanup(now, ttl) => AfterCleanup(bs, now, ttl)
    case Reset(key, _) => bs - {key}
    case ResetAll(_) => map[]
  }

  predicate Grants(l: Limits, bs: Buckets, op: Op, key: string)
    requires l.capacity > 0
  {
    op.Allow? && op.key == key && Allows(l, bs, key, op.now)
  }

  /** How many calls for `key` are allowed at instants from `lo` to `hi`. */
  function GrantedWithin(l: Limits, bs: Buckets, ops: seq<Op>, key: string, lo: int, hi: int): nat
    requires l.capacity > 0
    decreases |ops|
  {
    if ops == [] then 0
    else
      (if Grants(l, bs, ops[0], key) && lo <= ops[0].now <= hi then 1 else 0)
      + GrantedWithin(l, Step(l, bs, ops[0]), ops[1..], key, lo, hi)
  }

  /** The operation forgets the bucket of `key`, however full it is. */
  predicate Clears(op: Op, key: string) { (op.Reset? && op.key == key) || op.ResetAll? }

  /** How often the bucket of `key` is forgotten at instants from `lo` to `hi`. */
  function ResetsWithin(ops: seq<Op>, key: string, lo: int, hi: int): nat {
    if ops == [] then 0
    else (if Clears(ops[0], key) && lo <= ops[0].now <= hi then 1 else 0) + ResetsWithin(ops[1..], key, lo, hi)
  }

  /** The clock never runs backwards from `t` on, and a cleanup only drops buckets that were idle for at least a
      window. */
  predicate Timely(l: Limits, ops: seq<Op>, t: int) {
    ops != [] ==>
      && t <= ops[0].now
      && (ops[0].Cleanup? ==> l.window <= ops[0].ttl)
      && Timely(l, ops[1..], ops[0].now)
  }

  /** Moreover `key` is never reset. */
  predicate Orderly(l: Limits, ops: seq<Op>, key: string, t: int) {
    Timely(l, ops, t) && forall i :: 0 <= i < |ops| ==> !Clears(ops[i], key)
  }

  function StepAll(l: Limits, bs: Buckets, ops: seq<Op>): Buckets
    requires l.capacity > 0
    decreases |ops|
  {
    if ops == [] then bs else StepAll(l, Step(l, bs, ops[0]), ops[1..])
  }

  function EndTime(ops: seq<Op>, t: int): int { if ops == [] then t else ops[|ops| - 1].now }

  lemma {:induction false} HistoryConcat(l: Limits, bs: Buckets, a: seq<Op>, b: seq<Op>, key: string, t: int, lo: int,
                                         hi: int)
    requires l.capacity > 0
    ensures StepAll(l, bs, a + b) == StepAll(l, StepAll(l, bs, a), b)
    ensures GrantedWithin(l, bs, a + b, key, lo, hi) ==
            GrantedWithin(l, bs, a, key, lo, hi) + GrantedWithin(l, StepAll(l, bs, a), b, key, lo, hi)
    ensures ResetsWithin(a + b, key, lo, hi) == ResetsWithin(a, key, lo, hi) + ResetsWithin(b, key, lo, hi)
    ensures Timely(l, a + b, t) <==> Timely(l, a, t) && Timely(l, b, EndTime(a, t))
    decreases |a|
  {
    if a == [] {
      assert a + b == b;
    } else {
      assert (a + b)[1..] == a[1..] + b && (a + b)[0] == a[0];
      HistoryConcat(l, Step(l, bs, a[0]), a[1..], b, key, a[0].now, lo, hi);
      assert EndTime(a[1..], a[0].now) == EndTime(a, t);
    }
  }

  lemma OrderlyConcat(l: Limits, a: seq<Op>, b: seq<Op>, key: string, t: int)
    requires l.capacity > 0 && Orderly(l, a, key, t) && Orderly(l, b, key, EndTime(a, t))
    ensures Orderly(l, a + b, key, t)
  {
    HistoryConcat(l, map[], a, b, key, t, 0, 0);
  }

  predicate ValidAt(l: Limits, bs: Buckets, key: string, t: int) {
    key in bs ==>
      0 <= bs[key].tokens <= l.capacity && bs[key].lastFill <= bs[key].lastAccessed <= t
  }

  /** Tokens a bucket can still hand out up to `hi` if it is never filled to the brim again. */
  function Raw(l: Limits, b: Bucket, hi: int): int
    requires l.capacity > 0 && l.TokenDuration() > 0
  {
    b.tokens + (hi - b.lastFill) / l.TokenDuration()
  }

  /** The same for the bucket of `key` as it stands at `t`; an absent bucket counts as full. */
  function Worth(l: Limits, bs: Buckets, key: string, t: int, hi: int): int
    requires l.capacity > 0 && l.TokenDuration() > 0
  {
    Raw(l, if key in bs then Refill(l, bs[key], t) else Bucket(l.capacity, t, t), hi)
  }

  // Division facts. -----------------------------------------------------------------------------

  lemma DivUnique(a: int, d: int, q: int)
    requires d > 0 && q * d <= a < q * d + d
    ensures a / d == q
  {
    var r := a / d;
    assert a == r * d + a % d;
    assert r < q ==> r * d <= (q - 1) * d;
    assert r > q ==> r * d >= (q + 1) * d;
  }

  lemma DivShift(a: int, d: int, n: int)
    requires d > 0
    ensures (a - n * d) / d == a / d - n
  {
    var q := a / d;
    assert a == q * d + a % d;
    assert (q - n) * d == q * d - n * d;
    DivUnique(a - n * d, d, q - n);
  }

  lemma DivMonotone(a: int, b: int, d: int)
    requires d > 0 && a <= b
    ensures a / d <= b / d
  {
    var p, q := a / d, b / d;
    assert a == p * d + a % d && b == q * d + b % d;
    assert p > q ==> p * d >= (q + 1) * d;
  }

  lemma WindowHoldsCapacity(l: Limits)
    requires l.capacity > 0 && l.TokenDuration() > 0
    ensures l.capacity * l.TokenDuration() <= l.window
  {
    assert l.window >= 0;
    assert l.window == (l.window / l.capacity) * l.capacity + l.window % l.capacity;
  }

  // The rate bound. -----------------------------------------------------------------------------

  lemma RefillShape(l: Limits, b: Bucket, t: int)
    requires l.capacity > 0 && l.TokenDuration() > 0 && b.lastFill <= t && b.tokens <= l.capacity
    ensures var d, r := l.TokenDuration(), Refill(l, b, t);
            && r.tokens == Min(b.tokens + (t - b.lastFill) / d, l.capacity)
            && r.lastFill == b.lastFill + ((t - b.lastFill) / d) * d
            && r.lastFill <= t < r.lastFill + d
            && r.lastAccessed == b.lastAccessed
  {
    var d := l.TokenDuration();
    var a := t - b.lastFill;
    assert a == (a / d) * d + a % d;
  }

  /** Refilling never raises what a bucket can hand out up to a later instant. */
  lemma RefillLowersRaw(l: Limits, b: Bucket, t: int, hi: int)
    requires l.capacity > 0 && l.TokenDuration() > 0 && b.lastFill <= t && b.tokens <= l.capacity
    ensures Raw(l, Refill(l, b, t), hi) <= Raw(l, b, hi)
  {
    RefillShape(l, b, t);
    var d := l.TokenDuration();
    var n := (t - b.lastFill) / d;
    DivShift(hi - b.lastFill, d, n);
  }

  lemma RefillTwice(l: Limits, b: Bucket, t: int, u: int)
    requires l.capacity > 0 && l.TokenDuration() > 0 && b.lastFill <= t <= u && 0 <= b.tokens <= l.capacity
    ensures Refill(l, Refill(l, b, t), u) == Refill(l, b, u)
  {
    var d, once := l.TokenDuration(), Refill(l, b, t);
    RefillShape(l, b, t);
    RefillShape(l, b, u);
    RefillShape(l, once, u);
    var n, m := (t - b.lastFill) / d, (u - b.lastFill) / d;
    assert n <= m by { DivMonotone(t - b.lastFill, u - b.lastFill, d); }
    assert (u - once.lastFill) / d == m - n by { DivShift(u - b.lastFill, d, n); }
    assert n * d + (m - n) * d == m * d by { MulSplit(n, m, d); }
  }

  lemma MulSplit(n: int, m: int, d: int)
    ensures n * d + (m - n) * d == m * d
  {}

  lemma WorthDrops(l: Limits, bs: Buckets, key: string, t: int, u: int, hi: int)
    requires l.capacity > 0 && l.TokenDuration() > 0 && ValidAt(l, bs, key, t) && t <= u
    ensures Worth(l, bs, key, u, hi) <= Worth(l, bs, key, t, hi)
  {
    if key in bs {
      RefillTwice(l, bs[key], t, u);
      RefillShape(l, bs[key], t);
      RefillLowersRaw(l, Refill(l, bs[key], t), u, hi);
    } else {
      DivMonotone(hi - u, hi - t, l.TokenDuration());
    }
  }

  lemma WorthWithin(l: Limits, bs: Buckets, key: string, t: int, hi: int)
    requires l.capacity > 0 && l.TokenDuration() > 0 && ValidAt(l, bs, key, t) && t <= hi
    ensures 0 <= Worth(l, bs, key, t, hi) <= l.capacity + CeilDiv(hi - t, l.TokenDuration())
  {
    var d := l.TokenDuration();
    if key in bs {
      RefillShape(l, bs[key], t);
      var r := Refill(l, bs[key], t);
      DivMonotone(hi - r.lastFill, hi - t + d - 1, d);
      DivMonotone(0, hi - r.lastFill, d);
      assert (t - bs[key].lastFill) / d >= 0 by { DivMonotone(0, t - bs[key].lastFill, d); }
    } else {
      DivMonotone(hi - t, hi - t + d - 1, d);
      DivMonotone(0, hi - t, d);
    }
  }

  /** Each step at `t` pays for what it grants, and leaves the bucket valid; a reset may add a full bucket. */
  lemma StepPays(l: Limits, bs: Buckets, op: Op, key: string, hi: int)
    requires l.capacity > 0 && l.TokenDuration() > 0 && ValidAt(l, bs, key, op.now)
    requires op.Cleanup? ==> l.window <= op.ttl
    ensures ValidAt(l, Step(l, bs, op), key, op.now)
    ensures Worth(l, Step(l, bs, op), key, op.now, hi) + (if Grants(l, bs, op, key) then 1 else 0)
            <= Worth(l, bs, key, op.now, hi) + (if Clears(op, key) then l.capacity else 0)
  {
    var t, d := op.now, l.TokenDuration();
    if op.Allow? && op.key == key {
      AllowPays(l, bs, key, t, hi);
    } else if op.Cleanup? && key in bs && t - bs[key].lastAccessed > op.ttl {
      IdleBucketIsFull(l, bs[key], t, hi);
    } else if Clears(op, key) && key in bs {
      RefillShape(l, bs[key], t);
      DivMonotone(0, t - bs[key].lastFill, d);
      DivMonotone(hi - t, hi - Refill(l, bs[key], t).lastFill, d);
    }
  }

  lemma AllowPays(l: Limits, bs: Buckets, key: string, t: int, hi: int)
    requires l.capacity > 0 && l.TokenDuration() > 0 && ValidAt(l, bs, key, t)
    ensures ValidAt(l, AfterAllow(l, bs, key, t), key, t)
    ensures Worth(l, AfterAllow(l, bs, key, t), key, t, hi) + (if Allows(l, bs, key, t) then 1 else 0)
            <= Worth(l, bs, key, t, hi)
  {
    var d := l.TokenDuration();
    if key in bs {
      RefillShape(l, bs[key], t);
      assert (t - bs[key].lastFill) / d >= 0 by { DivMonotone(0, t - bs[key].lastFill, d); }
    }
    var after := AfterAllow(l, bs, key, t)[key];
    RefillShape(l, after, t);
    assert Refill(l, after, t) == after by {
      assert (t - after.lastFill) / d == 0 by { DivUnique(t - after.lastFill, d, 0); }
    }
  }

  lemma IdleBucketIsFull(l: Limits, b: Bucket, t: int, hi: int)
    requires l.capacity > 0 && l.TokenDuration() > 0 && 0 <= b.tokens <= l.capacity
    requires b.lastFill <= b.lastAccessed && t - b.lastAccessed > l.window
    ensures Raw(l, Bucket(l.capacity, t, t), hi) <= Raw(l, Refill(l, b, t), hi)
  {
    var d := l.TokenDuration();
    WindowHoldsCapacity(l);
    RefillShape(l, b, t);
    var n := (t - b.lastFill) / d;
    DivShift(l.capacity * d, d, l.capacity);
    DivMonotone(l.capacity * d, t - b.lastFill, d);
    DivUnique(0, d, 0);
    assert n >= l.capacity;
    DivMonotone(hi - t, hi - Refill(l, b, t).lastFill, d);
  }

  lemma {:induction false} GrantsAfter(l: Limits, bs: Buckets, ops: seq<Op>, key: string, t: int, lo: int, hi: int)
    requires l.capacity > 0 && Timely(l, ops, t) && hi < t
    ensures GrantedWithin(l, bs, ops, key, lo, hi) == 0
    decreases |ops|
  {
    if ops != [] { GrantsAfter(l, Step(l, bs, ops[0]), ops[1..], key, ops[0].now, lo, hi); }
  }

  lemma {:induction false} GrantsFrom(l: Limits, bs: Buckets, ops: seq<Op>, key: string, t: int, lo: int, hi: int)
    requires l.capacity > 0 && l.TokenDuration() > 0 && ValidAt(l, bs, key, t) && Timely(l, ops, t)
    requires lo <= t <= hi
    ensures GrantedWithin(l, bs, ops, key, lo, hi)
            <= Worth(l, bs, key, t, hi) + ResetsWithin(ops, key, lo, hi) * l.capacity
    decreases |ops|
  {
    if ops == [] {
      WorthWithin(l, bs, key, t, hi);
    } else {
      var u, next := ops[0].now, Step(l, bs, ops[0]);
      var now, rest := if Clears(ops[0], key) && u <= hi then 1 else 0, ResetsWithin(ops[1..], key, lo, hi);
      assert (now + rest) * l.capacity == now * l.capacity + rest * l.capacity;
      assert rest * l.capacity >= 0;
      StepPays(l, bs, ops[0], key, hi);
      if u <= hi {
        GrantsFrom(l, next, ops[1..], key, u, lo, hi);
        WorthDrops(l, bs, key, t, u, hi);
      } else {
        GrantsAfter(l, next, ops[1..], key, u, lo, hi);
        WorthWithin(l, bs, key, t, hi);
      }
    }
  }

  /** In any interval, of length hi - lo, with r resets of the key in it, at most
      (r + 1) * capacity + ceil((hi - lo) / d) calls are allowed, where d is the time one token takes to come back. */
  lemma {:induction false} RateBoundWithResets(l: Limits, bs: Buckets, ops: seq<Op>, key: string, t: int, lo: int,
                                               hi: int)
    requires l.capacity > 0 && l.TokenDuration() > 0 && ValidAt(l, bs, key, t) && Timely(l, ops, t)
    requires lo <= hi
    ensures GrantedWithin(l, bs, ops, key, lo, hi)
            <= (ResetsWithin(ops, key, lo, hi) + 1) * l.capacity + CeilDiv(hi - lo, l.TokenDuration())
    decreases |ops|
  {
    var d, r := l.TokenDuration(), ResetsWithin(ops, key, lo, hi);
    assert (r + 1) * l.capacity == r * l.capacity + l.capacity;
    assert r * l.capacity >= 0;
    if ops == [] {
      DivMonotone(0, hi - lo + d - 1, d);
    } else {
      var u, next := ops[0].now, Step(l, bs, ops[0]);
      StepPays(l, bs, ops[0], key, hi);
      if u < lo {
        RateBoundWithResets(l, next, ops[1..], key, u, lo, hi);
      } else if u <= hi {
        GrantsFrom(l, bs, ops, key, u, lo, hi);
        WorthWithin(l, bs, key, u, hi);
        DivMonotone(hi - u + d - 1, hi - lo + d - 1, d);
      } else {
        GrantsAfter(l, next, ops[1..], key, u, lo, hi);
        DivMonotone(0, hi - lo + d - 1, d);
      }
    }
  }

  /** Without resets, at most capacity + ceil((hi - lo) / d) calls are allowed. */
  lemma RateBound(l: Limits, bs: Buckets, ops: seq<Op>, key: string, t: int, lo: int, hi: int)
    requires l.capacity > 0 && l.TokenDuration() > 0 && ValidAt(l, bs, key, t) && Orderly(l, ops, key, t)
    requires lo <= hi
    ensures GrantedWithin(l, bs, ops, key, lo, hi) <= l.capacity + CeilDiv(hi - lo, l.TokenDuration())
  {
    NoResets(ops, key, lo, hi);
    RateBoundWithResets(l, bs, ops, key, t, lo, hi);
  }

  lemma {:induction false} NoResets(ops: seq<Op>, key: string, lo: int, hi: int)
    requires forall i :: 0 <= i < |ops| ==> !Clears(ops[i], key)
    ensures ResetsWithin(ops, key, lo, hi) == 0
  {
    if ops != [] {
      assert forall i :: 0 <= i < |ops[1..]| ==> ops[1..][i] == ops[i + 1];
      NoResets(ops[1..], key, lo, hi);
    }
  }

  // The bound cannot be improved. ---------------------------------------------------------------

  function Burst(key: string, n: nat, now: int): seq<Op> {
    if n == 0 then [] else [Allow(key, now)] + Burst(key, n - 1, now)
  }

  /** Calls that come one token apart. */
  function Trickle(key: string, n: nat, now: int, d: int): seq<Op> {
    if n == 0 then [] else [Allow(key, now)] + Trickle(key, n - 1, now + d, d)
  }

  /** A call within the same token takes one of those there are. */
  lemma CallTakesOne(l: Limits, bs: Buckets, key: string, t: int)
    requires l.capacity > 0 && l.TokenDuration() > 0 && key in bs && 0 < bs[key].tokens <= l.capacity
    requires bs[key].lastFill <= t < bs[key].lastFill + l.TokenDuration()
    ensures Allows(l, bs, key, t)
    ensures AfterAllow(l, bs, key, t) == bs[key := Bucket(bs[key].tokens - 1, bs[key].lastFill, t)]
  {
    RefillShape(l, bs[key], t);
    DivUnique(t - bs[key].lastFill, l.TokenDuration(), 0);
  }

  /** A burst takes all the tokens there are. */
  lemma {:induction false} BurstGrants(l: Limits, bs: Buckets, key: string, n: nat, t: int, lo: int, hi: int)
    requires l.capacity > 0 && l.TokenDuration() > 0 && key in bs && bs[key].tokens == n <= l.capacity
    requires bs[key].lastFill <= t < bs[key].lastFill + l.TokenDuration() && lo <= t <= hi
    ensures GrantedWithin(l, bs, Burst(key, n, t), key, lo, hi) == n && Orderly(l, Burst(key, n, t), key, t)
    ensures var after := StepAll(l, bs, Burst(key, n, t));
            key in after && after[key].tokens == 0 && after[key].lastFill == bs[key].lastFill
    ensures EndTime(Burst(key, n, t), t) == t
    decreases n
  {
    if n > 0 {
      var ops := Burst(key, n, t);
      CallTakesOne(l, bs, key, t);
      assert ops[0] == Allow(key, t) && ops[1..] == Burst(key, n - 1, t);
      BurstGrants(l, Step(l, bs, ops[0]), key, n - 1, t, lo, hi);
    }
  }

  /** An empty bucket grants a call whenever a token has come back. */
  lemma {:induction false} TrickleGrants(l: Limits, bs: Buckets, key: string, n: nat, t: int, lo: int, hi: int)
    requires l.capacity > 0 && l.TokenDuration() > 0 && key in bs && bs[key].tokens == 0
    requires bs[key].lastFill + l.TokenDuration() == t && lo <= t && (n > 0 ==> t + (n - 1) * l.TokenDuration() <= hi)
    ensures GrantedWithin(l, bs, Trickle(key, n, t, l.TokenDuration()), key, lo, hi) == n
    ensures Orderly(l, Trickle(key, n, t, l.TokenDuration()), key, t)
    decreases n
  {
    if n > 0 {
      var d := l.TokenDuration();
      var ops := Trickle(key, n, t, d);
      RefillShape(l, bs[key], t);
      DivUnique(d, d, 1);
      assert ops[0] == Allow(key, t) && ops[1..] == Trickle(key, n - 1, t + d, d);
      assert (n - 1) * d == (n - 2) * d + d;
      assert n > 1 ==> t + (n - 2) * d + d <= hi;
      assert t <= hi by { assert (n - 1) * d >= 0; }
      TrickleGrants(l, Step(l, bs, ops[0]), key, n - 1, t + d, lo, hi);
      OrderlyFrom(l, ops[1..], key, t, t + d);
    }
  }

  lemma OrderlyFrom(l: Limits, ops: seq<Op>, key: string, t: int, u: int)
    requires t <= u && Orderly(l, ops, key, u)
    ensures Orderly(l, ops, key, t)
  {
  }

  /** A first call, and a second one later that finds the bucket full and keeps all but a nanosecond of the next
      token. */
  lemma BurstState(l: Limits, key: string)
    requires l.capacity > 0 && l.TokenDuration() > 0
    ensures var d := l.TokenDuration();
            var bs := AfterAllow(l, map[], key, 0);
            && Allows(l, bs, key, 2 * d - 1)
            && AfterAllow(l, bs, key, 2 * d - 1)[key] == Bucket(l.capacity - 1, d, 2 * d - 1)
  {
    var d := l.TokenDuration();
    RefillShape(l, Bucket(l.capacity - 1, 0, 0), 2 * d - 1);
    DivUnique(2 * d - 1, d, 1);
  }

  lemma CeilSpan(span: nat, d: int)
    requires d > 0
    ensures CeilDiv(span, d) >= 0 && (CeilDiv(span, d) > 0 ==> 1 + (CeilDiv(span, d) - 1) * d <= span)
  {
    var n := CeilDiv(span, d);
    assert span + d - 1 == n * d + (span + d - 1) % d;
    assert (n - 1) * d == n * d - d;
    DivMonotone(0, span + d - 1, d);
  }

  /** For an interval of any length some history reaches the bound: a burst from a full bucket that is one nanosecond
      short of its next token, and then a call at every token. */
  lemma RateBoundIsTight(l: Limits, key: string, span: nat) returns (ops: seq<Op>, lo: int)
    requires l.capacity > 0 && l.TokenDuration() > 0
    ensures Orderly(l, ops, key, 0)
    ensures GrantedWithin(l, map[], ops, key, lo, lo + span) == l.capacity + CeilDiv(span, l.TokenDuration())
  {
    var d := l.TokenDuration();
    lo := 2 * d - 1;
    CeilSpan(span, d);
    BurstState(l, key);
    var n: nat := CeilDiv(span, d);
    var start := [Allow(key, 0), Allow(key, lo)];
    var full := StartState(l, key, lo, lo + span);
    var burst, trickle := Burst(key, l.capacity - 1, lo), Trickle(key, n, lo + 1, d);
    BurstGrants(l, full, key, l.capacity - 1, lo, lo, lo + span);
    TrickleGrants(l, StepAll(l, full, burst), key, n, lo + 1, lo, lo + span);
    OrderlyFrom(l, trickle, key, lo, lo + 1);
    OrderlyConcat(l, burst, trickle, key, lo);
    OrderlyConcat(l, start, burst + trickle, key, 0);
    HistoryConcat(l, full, burst, trickle, key, lo, lo, lo + span);
    HistoryConcat(l, map[], start, burst + trickle, key, 0, lo, lo + span);
    ops := start + (burst + trickle);
  }

  lemma StartState(l: Limits, key: string, lo: int, hi: int) returns (full: Buckets)
    requires l.capacity > 0 && l.TokenDuration() > 0 && lo == 2 * l.TokenDuration() - 1 <= hi
    ensures var start := [Allow(key, 0), Allow(key, lo)];
            && full == StepAll(l, map[], start) && key in full
            && full[key] == Bucket(l.capacity - 1, l.TokenDuration(), lo)
            && GrantedWithin(l, map[], start, key, lo, hi) == 1 && Orderly(l, start, key, 0) && EndTime(start, 0) == lo
  {
    var start := [Allow(key, 0), Allow(key, lo)];
    var bs := AfterAllow(l, map[], key, 0);
    BurstState(l, key);
    assert start[1..] == [Allow(key, lo)] && [Allow(key, lo)][1..] == [];
    assert StepAll(l, bs, [Allow(key, lo)]) == StepAll(l, AfterAllow(l, bs, key, lo), []);
    full := AfterAllow(l, bs, key, lo);
    assert GrantedWithin(l, bs, [Allow(key, lo)], key, lo, hi) == 1 + GrantedWithin(l, full, [], key, lo, hi);
    assert Timely(l, [Allow(key, lo)], 0);
    forall i | 0 <= i < |start| ensures !Clears(start[i], key) {
      assert start[i].Allow?;
    }
  }

  lemma {:induction false} SettledBurst(l: Limits, bs: Buckets, key: string, n: nat, now: int)
    requires l.capacity > 0 && key in bs && bs[key].tokens >= 0 && Refill(l, bs[key], now) == bs[key]
    ensures GrantedWithin(l, bs, Burst(key, n, now), key, now, now) == Min(n, bs[key].tokens)
    decreases n
  {
    if n > 0 {
      var ops := Burst(key, n, now);
      assert ops[0] == Allow(key, now) && ops[1..] == Burst(key, n - 1, now);
      SettledBurst(l, Step(l, bs, ops[0]), key, n - 1, now);
    }
  }

  lemma RefillSettles(l: Limits, b: Bucket, now: int)
    requires l.capacity > 0 && b.lastFill <= now && 0 <= b.tokens <= l.capacity
    ensures Refill(l, Refill(l, b, now), now) == Refill(l, b, now) && Refill(l, b, now).tokens >= 0
  {
    if l.TokenDuration() > 0 { RefillTwice(l, b, now, now); }
  }

  lemma RefillIgnoresAccess(l: Limits, b: Bucket, tokens: int, now: int)
    requires l.capacity > 0 && Refill(l, b, now) == b && tokens <= b.tokens
    ensures var c := b.(tokens := tokens, lastAccessed := now); Refill(l, c, now) == c
  {}

  /** The count is that of the calls which a burst would be allowed. */
  lemma TokensLeftCountsBurst(l: Limits, bs: Buckets, key: string, n: nat, now: int)
    requires l.capacity > 0 && ValidAt(l, bs, key, now)
    ensures GrantedWithin(l, bs, Burst(key, n, now), key, now, now) == Min(n, TokensLeft(l, bs, key, now))
  {
    if n > 0 {
      var ops := Burst(key, n, now);
      assert ops[0] == Allow(key, now) && ops[1..] == Burst(key, n - 1, now);
      if key in bs {
        var b := Refill(l, bs[key], now);
        RefillSettles(l, bs[key], now);
        RefillIgnoresAccess(l, b, if b.tokens > 0 then b.tokens - 1 else b.tokens, now);
        if l.TokenDuration() > 0 {
          RefillShape(l, bs[key], now);
          DivMonotone(0, now - bs[key].lastFill, l.TokenDuration());
        }
      }
      SettledBurst(l, Step(l, bs, ops[0]), key, n - 1, now);
    }
  }

  /** The debugging count foretells the next call. */
  lemma TokensLeftForetells(l: Limits, bs: Buckets, key: string, now: int)
    requires l.capacity > 0 && ValidAt(l, bs, key, now)
    ensures Allows(l, bs, key, now) <==> TokensLeft(l, bs, key, now) > 0
  {
    if key in bs && l.TokenDuration() > 0 {
      RefillShape(l, bs[key], now);
      DivMonotone(0, now - bs[key].lastFill, l.TokenDuration());
    }
  }
}
