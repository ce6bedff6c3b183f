/** The encoder's output queue and its token bucket, in 64-bit arithmetic. */
module TokenBucket {
  import opened Arith

  const UINT64: nat := 0x1_0000_0000_0000_0000
  const SECOND: nat := 1000000000

  /** A queued datagram's length is kept in sixteen bits. */
  const DATAGRAM_LIMIT: nat := 65536

  function Wrap(x: nat): (y: nat)
    ensures y <= x && y < UINT64 && (x < UINT64 ==> y == x)
  {
    x % UINT64
  }

  /** Whole bytes a rate earns in dt nanoseconds. */
  function Earned(rate: nat, dt: nat): (n: nat) { rate / 8 * dt / SECOND }

  /** What refill_tokens adds for dt nanoseconds: seconds and the rest apart,
      each product wrapping. */
  function Added(rate: nat, dt: nat): (n: nat) {
    Wrap(Wrap(rate / 8 * (dt / SECOND)) + Wrap(rate / 8 * (dt % SECOND)) / SECOND)
  }

  /** bytes_to_ns without wrap-around: the time that earns that many bytes,
      rounded up. */
  function Deadline(bytes: nat, rate: nat): (ns: nat) {
    if rate == 0 || bytes == 0 then 0 else (bytes * 8 * SECOND + rate - 1) / rate
  }

  // ---------------------------------------------------------------------

  lemma DivBounds(x: nat, d: nat)
    requires d > 0
    ensures x / d * d <= x < x / d * d + d
  {}

  lemma QuotientAtMost(x: nat, d: nat, q: int)
    requires d > 0 && q * d <= x
    ensures q <= x / d
  {
    DivBounds(x, d);
    assert (x / d + 1) * d == x / d * d + d;
    MulCancelLess(q, x / d + 1, d);
  }

  /** Seconds and the rest apart earn exactly what the whole interval earns. */
  lemma SplitEarned(a: nat, dt: nat)
    ensures a * (dt / SECOND) + a * (dt % SECOND) / SECOND == a * dt / SECOND
  {
    var q, m := dt / SECOND, dt % SECOND;
    assert a * dt == a * q * SECOND + a * m by { assert dt == q * SECOND + m; }
    var e := a * m / SECOND;
    DivBounds(a * m, SECOND);
    assert (a * q + e) * SECOND <= a * dt < (a * q + e + 1) * SECOND;
    QuotientAtMost(a * dt, SECOND, a * q + e);
    DivBounds(a * dt, SECOND);
  }

  /** Wrap-around only ever loses tokens. */
  lemma AddedAtMostEarned(rate: nat, dt: nat)
    ensures Added(rate, dt) <= Earned(rate, dt)
    ensures rate / 8 * dt < UINT64 ==> Added(rate, dt) == Earned(rate, dt)
  {
    var a := rate / 8;
    SplitEarned(a, dt);
    var x, y := a * (dt / SECOND), a * (dt % SECOND);
    assert Wrap(y) / SECOND <= y / SECOND;
    if a * dt < UINT64 {
      assert x <= a * dt && y <= a * dt by { Parts(a, dt); }
      assert a * dt / SECOND <= a * dt;
    }
  }

  lemma Parts(a: nat, dt: nat)
    ensures a * (dt / SECOND) <= a * dt && a * (dt % SECOND) <= a * dt
  {
    var q, m := dt / SECOND, dt % SECOND;
    assert dt == q * SECOND + m;
    assert a * dt == a * (q * SECOND) + a * m;
    assert a * (q * SECOND) == a * q * SECOND >= a * q;
  }

  /** Two intervals earn together at least what they earn apart. */
  lemma EarnedAdds(rate: nat, x: nat, y: nat)
    ensures Earned(rate, x) + Earned(rate, y) <= Earned(rate, x + y)
  {
    var a := rate / 8;
    DivBounds(a * x, SECOND);
    DivBounds(a * y, SECOND);
    assert a * (x + y) == a * x + a * y;
    QuotientAtMost(a * (x + y), SECOND, a * x / SECOND + a * y / SECOND);
  }

  // ---------------------------------------------------------------------
  // Refilling at the pacing deadline.

  /** Waiting for the deadline of that many bytes earns them. */
  predicate DeadlineSuffices(rate: nat, bytes: nat) { Earned(rate, Deadline(bytes, rate)) >= bytes }

  lemma DeadlineBounds(bytes: nat, rate: nat)
    requires rate > 0 && bytes > 0
    ensures bytes * 8 * SECOND <= rate * Deadline(bytes, rate) < bytes * 8 * SECOND + rate
  {
    DivBounds(bytes * 8 * SECOND + rate - 1, rate);
  }

  /** An interval earns that many bytes exactly when what the rate gives in it
      covers them and the part of a byte lost in every second. */
  lemma EarnsExactly(rate: nat, bytes: nat, dt: nat)
    ensures Earned(rate, dt) >= bytes <==> bytes * 8 * SECOND + rate % 8 * dt <= rate * dt
  {
    var a, b := rate / 8, rate % 8;
    Spread(a, b, rate, dt);
    if bytes * SECOND <= a * dt {
      QuotientAtMost(a * dt, SECOND, bytes);
    } else {
      Share(a * dt, bytes);
    }
  }

  lemma Share(x: nat, bytes: nat)
    requires x < bytes * SECOND
    ensures x / SECOND < bytes
  {}

  lemma Spread(a: nat, b: nat, rate: nat, d: nat)
    requires rate == 8 * a + b
    ensures rate * d == 8 * (a * d) + b * d
  {}

  /** Waiting until the deadline of a packet earns it exactly when rounding the
      deadline up gives more than rounding the rate down to bytes takes. */
  lemma DeadlineExact(rate: nat, bytes: nat)
    ensures DeadlineSuffices(rate, bytes) <==> bytes * 8 * SECOND + rate % 8 * Deadline(bytes, rate) <= rate * Deadline(bytes, rate)
  {
    EarnsExactly(rate, bytes, Deadline(bytes, rate));
  }

  /** A rate of whole bytes per second always meets its own deadline. */
  lemma WholeByteRate(rate: nat, bytes: nat)
    requires rate > 0 && rate % 8 == 0
    ensures DeadlineSuffices(rate, bytes)
  {
    DeadlineExact(rate, bytes);
    if bytes > 0 { DeadlineBounds(bytes, rate); }
  }

  /** Other rates that are not whole bytes serve every queued packet in time. */
  lemma FastRateMeets(bytes: nat)
    requires bytes < DATAGRAM_LIMIT
    ensures DeadlineSuffices(8_000_000_001, bytes)
  {
    if bytes > 0 {
      DeadlineBounds(bytes, 8_000_000_001);
      assert Deadline(bytes, 8_000_000_001) == bytes;
    }
  }

  /** The tokens after a later refill: saturating at the burst. */
  function Refilled(tokens: nat, burst: nat, rate: nat, dt: nat): (t: nat)
    requires tokens < UINT64
  {
    if Added(rate, dt) > UINT64 - 1 - tokens then burst else Min(tokens + Added(rate, dt), burst)
  }

  lemma RefillEarns(tokens: nat, burst: nat, rate: nat, dt: nat)
    requires tokens < UINT64 && burst < UINT64
    ensures Refilled(tokens, burst, rate, dt) <= Min(tokens + Earned(rate, dt), burst)
    ensures rate / 8 * dt < UINT64 ==> Refilled(tokens, burst, rate, dt) == Min(tokens + Earned(rate, dt), burst)
  {
    AddedAtMostEarned(rate, dt);
  }

  /** bytes_to_ns, wrapping. */
  function PaceDelay(bytes: nat, rate: nat): (ns: nat) {
    if rate == 0 || bytes == 0 then 0 else Quotient(Wrap(bytes * 8 * SECOND + (rate - 1)), rate)
  }

  function Quotient(x: nat, d: nat): (q: nat)
    requires d > 0
  {
    x / d
  }

  lemma PaceDelayExact(bytes: nat, rate: nat)
    requires bytes * 8 * SECOND + rate < UINT64
    ensures PaceDelay(bytes, rate) == Deadline(bytes, rate)
  {
    if rate > 0 && bytes > 0 {
      assert Wrap(bytes * 8 * SECOND + (rate - 1)) == bytes * 8 * SECOND + rate - 1;
    }
  }

  /** In the time a queued packet waits no product of the refill wraps. */
  lemma PaceFits(bytes: nat, rate: nat)
    requires bytes < DATAGRAM_LIMIT && 0 < rate < UINT64
    ensures rate / 8 * PaceDelay(bytes, rate) < UINT64
  {
    var x, p := Wrap(bytes * 8 * SECOND + (rate - 1)), PaceDelay(bytes, rate);
    if bytes > 0 {
      DivBounds(x, rate);
      assert rate * p <= x;
      Spread(rate / 8, rate % 8, rate, p);
      assert rate % 8 * p >= 0;
    }
  }

  /** Whether a refill after the code's pacing delay frees a packet, as a caller
      can evaluate it: the burst covers the packet, and the delay times the rate
      covers what is missing and what rounding the rate down loses. */
  predicate FreedInTime(tokens: nat, burst: nat, rate: nat, len: nat)
    requires tokens <= len
  {
    var wait := PaceDelay(len - tokens, rate);
    len <= burst && (len - tokens) * 8 * SECOND + rate % 8 * wait <= rate * wait
  }

  lemma SendableAtDeadline(tokens: nat, burst: nat, rate: nat, len: nat)
    requires tokens < len < DATAGRAM_LIMIT && burst < UINT64 && 0 < rate < UINT64
    ensures Refilled(tokens, burst, rate, PaceDelay(len - tokens, rate)) >= len <==> FreedInTime(tokens, burst, rate, len)
  {
    var wait := PaceDelay(len - tokens, rate);
    PaceFits(len - tokens, rate);
    RefillEarns(tokens, burst, rate, wait);
    EarnsExactly(rate, len - tokens, wait);
    hide Earned, PaceDelay;
  }

  /** A packet the encoder queues and a rate for which the delay is too short. */
  lemma DeadlineMisses(burst: nat)
    ensures !DeadlineSuffices(1_000_001, 1444) && !FreedInTime(0, burst, 1_000_001, 1444)
  {
    DeadlineBounds(1444, 1_000_001);
    DeadlineExact(1_000_001, 1444);
    PaceDelayExact(1444, 1_000_001);
  }

  /** With whole bytes per second and a rate that does not wrap the delay, every
      queued packet the burst covers is freed in time. */
  lemma WholeByteRateFrees(tokens: nat, burst: nat, rate: nat, len: nat)
    requires tokens < len < DATAGRAM_LIMIT && len <= burst && rate > 0 && rate % 8 == 0
    requires (len - tokens) * 8 * SECOND + rate < UINT64
    ensures FreedInTime(tokens, burst, rate, len)
  {
    PaceDelayExact(len - tokens, rate);
    DeadlineBounds(len - tokens, rate);
  }

  // ---------------------------------------------------------------------
  // The bucket over a run. first and sent are history.

  datatype Bucket = Bucket(tokens: nat, last: nat, valid: bool, first: nat, sent: nat)

  datatype Event = RefillAt(now: nat) | Send(len: nat)

  /** refill_tokens. */
  function Refill(rate: nat, burst: nat, b: Bucket, now: nat): (t: Bucket) {
    if rate == 0 then b
    else if !b.valid then Bucket(burst, now, true, now, b.sent)
    else if now <= b.last || b.tokens >= UINT64 then b
    else b.(tokens := Refilled(b.tokens, burst, rate, now - b.last), last := now)
  }

  /** One datagram out: only with enough tokens when a rate is set. */
  function Spend(rate: nat, b: Bucket, len: nat): (t: Bucket) {
    if rate == 0 then b.(sent := b.sent + len)
    else if b.tokens < len then b
    else b.(tokens := b.tokens - len, sent := b.sent + len)
  }

  function Run(rate: nat, burst: nat, events: seq<Event>): (b: Bucket) {
    if |events| == 0 then Bucket(0, 0, false, 0, 0)
    else
      var b := Run(rate, burst, events[..|events| - 1]);
      match events[|events| - 1]
      case RefillAt(now) => Refill(rate, burst, b, now)
      case Send(len) => Spend(rate, b, len)
  }

  /** What was sent and what may still be sent never exceeds the burst and what
      the rate has earned since the first refill. */
  ghost predicate Limited(rate: nat, burst: nat, b: Bucket) {
    burst < UINT64 && b.tokens < UINT64 &&
    (rate > 0 && !b.valid ==> b.tokens == 0 && b.sent == 0) &&
    (rate > 0 && b.valid ==> b.first <= b.last && b.tokens <= burst && b.sent + b.tokens <= burst + Earned(rate, b.last - b.first))
  }

  lemma RefillLimited(rate: nat, burst: nat, b: Bucket, now: nat)
    requires Limited(rate, burst, b)
    ensures Limited(rate, burst, Refill(rate, burst, b, now))
  {
    if rate > 0 && b.valid && now > b.last {
      RefillEarns(b.tokens, burst, rate, now - b.last);
      EarnedAdds(rate, b.last - b.first, now - b.last);
    }
  }

  /** Over any run with a set wire rate, wrap-around included. */
  lemma {:induction false} RateLimit(rate: nat, burst: nat, events: seq<Event>)
    requires burst < UINT64
    ensures Limited(rate, burst, Run(rate, burst, events))
    ensures rate > 0 ==> var b := Run(rate, burst, events);
            if b.valid then b.first <= b.last && b.sent <= burst + Earned(rate, b.last - b.first) else b.sent == 0
  {
    if |events| > 0 {
      RateLimit(rate, burst, events[..|events| - 1]);
      var b := Run(rate, burst, events[..|events| - 1]);
      if events[|events| - 1].RefillAt? { RefillLimited(rate, burst, b, events[|events| - 1].now); }
    }
  }

  lemma LastEvent(rate: nat, burst: nat, events: seq<Event>, e: Event)
    ensures e.RefillAt? ==> Run(rate, burst, events + [e]) == Refill(rate, burst, Run(rate, burst, events), e.now)
    ensures e.Send? ==> Run(rate, burst, events + [e]) == Spend(rate, Run(rate, burst, events), e.len)
  {
    assert (events + [e])[..|events|] == events;
  }

  /** A refill fills the bucket the first time, and later adds exactly what the
      rate earned since the last one, up to the burst, unless the product wraps; a
      clock that has not moved on changes nothing. */
  ghost predicate RefilledSo(rate: nat, burst: nat, b: Bucket, t: Bucket, now: nat) {
    t.sent == b.sent &&
    if !b.valid then t.valid && t.tokens == burst && t.last == now
    else if now <= b.last then t == b
    else
      var dt := now - b.last;
      t.valid && t.last == now && (rate / 8 * dt < UINT64 ==> t.tokens == Min(burst, b.tokens + Earned(rate, dt)))
  }

  lemma RefillExactly(rate: nat, burst: nat, events: seq<Event>, now: nat)
    requires burst < UINT64 && rate > 0
    ensures RefilledSo(rate, burst, Run(rate, burst, events), Run(rate, burst, events + [RefillAt(now)]), now)
  {
    RateLimit(rate, burst, events);
    LastEvent(rate, burst, events, RefillAt(now));
    var b := Run(rate, burst, events);
    hide Run;
    if b.valid && now > b.last { RefillEarns(b.tokens, burst, rate, now - b.last); }
  }

  /** A datagram goes out exactly when the tokens cover it, and takes its length. */
  lemma SendExactly(rate: nat, burst: nat, events: seq<Event>, len: nat)
    requires rate > 0
    ensures var b, t := Run(rate, burst, events), Run(rate, burst, events + [Send(len)]);
            t == if b.tokens >= len then b.(tokens := b.tokens - len, sent := b.sent + len) else b
  {
    LastEvent(rate, burst, events, Send(len));
  }

  function SpendAll(rate: nat, b: Bucket, lens: seq<nat>): (t: Bucket) {
    if |lens| == 0 then b else Spend(rate, SpendAll(rate, b, lens[..|lens| - 1]), lens[|lens| - 1])
  }

  lemma SpendLimited(rate: nat, burst: nat, b: Bucket, lens: seq<nat>, len: nat)
    requires Limited(rate, burst, SpendAll(rate, b, lens))
    ensures SpendAll(rate, b, lens + [len]) == Spend(rate, SpendAll(rate, b, lens), len)
    ensures Limited(rate, burst, SpendAll(rate, b, lens + [len]))
  {
    assert (lens + [len])[..|lens|] == lens;
  }

  lemma NoWaitNoTokens(tokens: nat, burst: nat, rate: nat)
    requires tokens < UINT64
    ensures tokens <= burst ==> Refilled(tokens, burst, rate, 0) == tokens
  {}

  lemma LimitedTokens(rate: nat, burst: nat, b: Bucket)
    requires Limited(rate, burst, b)
    ensures b.tokens < UINT64 && burst < UINT64 && (rate > 0 && b.valid ==> b.tokens <= burst)
  {}

  class Pacer {
    const rate: nat
    const burst: nat
    var tokens: nat
    var lastRefill: nat
    var refillValid: bool
    var queue: seq<nat>
    ghost var sent: nat
    ghost var first: nat

    ghost predicate Valid()
      reads this
    {
      Limited(rate, burst, Abs()) && rate < UINT64 && forall i :: 0 <= i < |queue| ==> 0 < queue[i] < DATAGRAM_LIMIT
    }

    ghost function Abs(): (b: Bucket)
      reads this
    {
      Bucket(tokens, lastRefill, refillValid, first, sent)
    }

    /** A zero burst in the configuration means one datagram. */
    constructor (rate: nat, wireBurst: nat, maxDatagram: nat)
      requires rate < UINT64 && wireBurst < UINT64 && maxDatagram < UINT64
      ensures Valid() && queue == [] && Abs() == Bucket(0, 0, false, 0, 0)
      ensures this.rate == rate && this.burst == if wireBurst == 0 then maxDatagram else wireBurst
    {
      this.rate, this.burst := rate, if wireBurst == 0 then maxDatagram else wireBurst;
      tokens, lastRefill, refillValid, queue, sent, first := 0, 0, false, [], 0, 0;
    }

    /** refill_tokens. */
    method RefillTokens(now: nat)
      requires Valid()
      modifies this`tokens, this`lastRefill, this`refillValid, this`first
      ensures Valid() && Abs() == Refill(rate, burst, old(Abs()), now)
    {
      hide Earned;
      RefillLimited(rate, burst, Abs(), now);
      if rate == 0 {
        return;
      }
      if !refillValid {
        tokens, lastRefill, refillValid, first := burst, now, true, now;
        return;
      }
      if now <= lastRefill {
        return;
      }
      var dt := now - lastRefill;
      var add := Wrap(rate / 8 * (dt / SECOND));
      add := Wrap(add + Wrap(rate / 8 * (dt % SECOND)) / SECOND);
      lastRefill := now;
      if add > UINT64 - 1 - tokens {
        tokens := burst;
        return;
      }
      tokens := tokens + add;
      if tokens > burst {
        tokens := burst;
      }
    }

    /** fec_encoder_drain: in order, while the budget, the tokens and the link
        (which accepts that many datagrams) allow. */
    method Drain(budget: nat, link: nat) returns (out: seq<nat>)
      requires Valid()
      modifies this`tokens, this`queue, this`sent
      ensures Valid() && out + queue == old(queue) && Abs() == SpendAll(rate, old(Abs()), out) && |out| <= budget && |out| <= link
      ensures |out| == budget || |out| == link || queue == [] || (rate > 0 && tokens < queue[0])
    {
      hide Limited, Earned;
      out := [];
      while |out| < budget && queue != []
        invariant Valid() && out + queue == old(queue) && |out| <= link && |out| <= budget && Abs() == SpendAll(rate, old(Abs()), out)
        decreases |queue|
      {
        var len := queue[0];
        if rate > 0 && tokens < len {
          return;
        }
        if |out| == link {
          return;
        }
        if rate > 0 {
          tokens := tokens - len;
        }
        SpendLimited(rate, burst, old(Abs()), out, len);
        out, queue, sent := out + [len], queue[1..], sent + len;
      }
    }

    method Enqueue(len: nat)
      requires Valid() && 0 < len < DATAGRAM_LIMIT
      modifies this`queue
      ensures Valid() && queue == old(queue) + [len]
    {
      queue := queue + [len];
    }

    /** The pacing part of fec_encoder_next_update_ns: when the head may go. */
    method PaceAt() returns (at: nat)
      requires Valid()
      ensures at == if queue != [] && rate > 0 && refillValid && tokens < queue[0]
                    then lastRefill + PaceDelay(queue[0] - tokens, rate) else 0
    {
      if queue != [] && rate > 0 && refillValid && tokens < queue[0] {
        return lastRefill + PaceDelay(queue[0] - tokens, rate);
      }
      return 0;
    }

    /** Whether an update at the pacing deadline frees the head, exactly. */
    method UpdateAtDeadline()
      requires Valid() && queue != [] && rate > 0 && refillValid && tokens < queue[0]
      modifies this`tokens, this`lastRefill, this`refillValid, this`first
      ensures Valid() && (tokens >= queue[0] <==> FreedInTime(old(tokens), burst, rate, queue[0]))
    {
      hide Earned, Limited, PaceDelay;
      LimitedTokens(rate, burst, Abs());
      SendableAtDeadline(tokens, burst, rate, queue[0]);
      NoWaitNoTokens(tokens, burst, rate);
      var at := PaceAt();
      RefillTokens(at);
    }
  }
}
