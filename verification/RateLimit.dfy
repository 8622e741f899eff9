/** The token-bucket rate limiter (`src/access/ratelimit.rs`): scaled integer
    arithmetic with floors, live resizing, and a generation-gated handle. The clock
    is a parameter. */
module RateLimit {
  import opened Numbers
  import opened Wrappers

  const SCALE := 1_000_000
  const NS_PER_SEC := 1_000_000_000
  const RPS_CEILING := 1_000_000
  const BURST_CEILING := 1_000_000
  const RETRY_CAP := 60_000

  const U64_MAX := 0xFFFF_FFFF_FFFF_FFFF
  const U128_MAX := 0xFFFF_FFFF_FFFF_FFFF_FFFF_FFFF_FFFF_FFFF
  type u64 = x: int | 0 <= x <= U64_MAX
  type u128 = x: int | 0 <= x <= U128_MAX

  function Clamp(x: int, lo: int, hi: int): int { Min(Max(x, lo), hi) }

  datatype Limits = Limits(capacity: nat, refillPerSec: nat)
  datatype Bucket = Bucket(tokens: nat, lastRefill: nat)

  /** Limits as the code ever builds them. */
  predicate Sane(l: Limits) {
    SCALE <= l.capacity <= BURST_CEILING * SCALE && SCALE <= l.refillPerSec <= RPS_CEILING * SCALE
  }

  function CheckedMul(a: u64, b: u64): Option<u64> {
    if a * b <= U64_MAX then Some(a * b) else None
  }

  /** Clamped first, so the checked product never falls back. */
  function ScaledLimits(rps: u64, burst: u64): (l: Limits)
    ensures Sane(l)
    ensures l == Limits(Clamp(burst, 1, BURST_CEILING) * SCALE, Clamp(rps, 1, RPS_CEILING) * SCALE)
  {
    var rps := Clamp(rps, 1, RPS_CEILING);
    var burst := Clamp(burst, 1, BURST_CEILING);
    var capacity := CheckedMul(burst, SCALE);
    var refill := CheckedMul(rps, SCALE);
    Limits(if capacity.Some? then capacity.value else BURST_CEILING * SCALE,
           if refill.Some? then refill.value else RPS_CEILING * SCALE)
  }

  function Elapsed(b: Bucket, now: nat): nat {
    if now > b.lastRefill then now - b.lastRefill else 0
  }

  /** Whole scaled units earned since the last call. */
  function Earned(l: Limits, b: Bucket, now: nat): nat {
    Elapsed(b, now) * l.refillPerSec / NS_PER_SEC
  }

  function Refilled(l: Limits, b: Bucket, now: nat): Bucket {
    Bucket(Min(b.tokens + Earned(l, b, now), l.capacity), now)
  }

  predicate Admits(l: Limits, b: Bucket, now: nat) {
    Refilled(l, b, now).tokens >= SCALE
  }

  /** The bucket after one `try_acquire`. */
  function AfterAcquire(l: Limits, b: Bucket, now: nat): Bucket {
    var r := Refilled(l, b, now);
    if r.tokens < SCALE then r else r.(tokens := r.tokens - SCALE)
  }

  /** The suggested wait of a refusal. */
  function Wait(l: Limits, b: Bucket, now: nat): nat
    requires l.refillPerSec > 0 && !Admits(l, b, now)
  {
    WaitFor(SCALE - Refilled(l, b, now).tokens, l.refillPerSec)
  }

  function WaitFor(deficit: nat, rate: nat): nat
    requires rate > 0
  {
    Min(deficit * NS_PER_SEC / rate / 1000 + 1, RETRY_CAP)
  }

  /** Whole seconds, rounded up, and at least one. */
  function RetryAfterSecs(ms: nat): (s: nat)
    ensures ms <= s * 1000 && s >= 1
    ensures s == 1 || (s - 1) * 1000 < ms
  {
    Max((ms + 999) / 1000, 1)
  }

  function Resized(b: Bucket, l: Limits): Bucket {
    b.(tokens := Min(b.tokens, l.capacity))
  }

  // ---- Objects -------------------------------------------------------------------

  class RateLimiter {
    const limits: Limits
    var tokens: u64
    var lastRefill: u64

    function State(): Bucket
      reads this
    {
      Bucket(tokens, lastRefill)
    }

    predicate Valid()
      reads this
    {
      Sane(limits) && tokens <= limits.capacity
    }

    /** A full bucket. */
    constructor (rps: u64, burst: u64, now: u64)
      ensures Valid() && limits == ScaledLimits(rps, burst) && State() == Bucket(limits.capacity, now)
    {
      var l := ScaledLimits(rps, burst);
      limits := l;
      tokens := l.capacity;
      lastRefill := now;
    }

    /** New limits over the old balance and refill time: no free burst. */
    constructor Resize(old_: RateLimiter, rps: u64, burst: u64)
      requires old_.Valid()
      ensures Valid() && limits == ScaledLimits(rps, burst) && State() == Resized(old_.State(), limits)
      ensures lastRefill == old_.lastRefill
      ensures tokens <= old_.tokens && (tokens == old_.tokens || tokens == limits.capacity)
    {
      var l := ScaledLimits(rps, burst);
      limits := l;
      tokens := Min(old_.tokens, l.capacity);
      lastRefill := old_.lastRefill;
    }

    /** Credit the time since the last call, up to the capacity. */
    method Refill(now: u64)
      requires Valid()
      modifies this
      ensures Valid() && State() == Refilled(limits, old(State()), now)
      ensures lastRefill == now
      ensures var earned := (if now > old(lastRefill) then now - old(lastRefill) else 0) * limits.refillPerSec;
        tokens == Min(old(tokens) + earned / NS_PER_SEC, limits.capacity)
    {
      var elapsed: u64 := if now > lastRefill then now - lastRefill else 0;
      ProductFits(elapsed, limits.refillPerSec);
      var product: u128 := elapsed * limits.refillPerSec;
      var refill: u128 := product / NS_PER_SEC;
      var sum: u128 := tokens + refill;
      tokens := Min(sum, limits.capacity);
      lastRefill := now;
    }

    /** Every intermediate stays inside the machine type the code gives it. */
    method TryAcquire(now: u64) returns (r: Result<(), u64>)
      requires Valid()
      modifies this
      ensures Valid() && State() == AfterAcquire(limits, old(State()), now)
      ensures r.Ok? <==> Admits(limits, old(State()), now)
      ensures r.Err? ==> r.error == Wait(limits, old(State()), now)
      ensures lastRefill == now && (r.Err? ==> tokens < SCALE)
      ensures var earned := (if now > old(lastRefill) then now - old(lastRefill) else 0) * limits.refillPerSec;
        tokens + (if r.Ok? then SCALE else 0) == Min(old(tokens) + earned / NS_PER_SEC, limits.capacity)
      ensures r.Err? ==> IsWait(r.error, SCALE - tokens, limits.refillPerSec)
    {
      Refill(now);
      if tokens < SCALE {
        var wait := SuggestedWait(SCALE - tokens, limits.refillPerSec);
        return Err(wait);
      }
      tokens := tokens - SCALE;
      r := Ok(());
    }
  }

  method SuggestedWait(deficit: u128, rate: nat) returns (w: u64)
    requires deficit <= SCALE <= rate
    ensures w == WaitFor(deficit, rate) && IsWait(w, deficit, rate)
  {
    var scaled: u128 := deficit * NS_PER_SEC;
    DeficitTakesAtMostASecond(deficit, rate);
    var waitNs: u128 := scaled / rate;
    WaitIsTight(deficit, rate);
    w := Min(waitNs / 1000 + 1, RETRY_CAP);
  }

  /** The least whole number of microseconds that is more than the time to earn the deficit, or
      the cap if that comes first. */
  predicate IsWait(w: int, deficit: int, rate: nat) {
    && 1 <= w <= 60_000
    && (w - 1) * 1000 * rate <= deficit * 1_000_000_000
    && (w == 60_000 || deficit * 1_000_000_000 < w * 1000 * rate)
  }

  lemma WaitIsTight(deficit: nat, rate: nat)
    requires rate > 0
    ensures IsWait(WaitFor(deficit, rate), deficit, rate)
  {
    var q := deficit * NS_PER_SEC / rate;
    var w := Min(q / 1000 + 1, RETRY_CAP);
    QuotientOf(deficit * NS_PER_SEC, rate, (w - 1) * 1000);
    QuotientOf(deficit * NS_PER_SEC, rate, w * 1000);
  }

  lemma QuotientOf(d: nat, rate: nat, n: nat)
    requires rate > 0
    ensures n * rate <= d <==> n <= d / rate
  {
    assert d / rate * rate + d % rate == d;
    if n <= d / rate {
      assert n * rate <= d / rate * rate;
    } else {
      assert (d / rate + 1) * rate <= n * rate;
    }
  }

  lemma ProductFits(elapsed: nat, rate: nat)
    requires elapsed <= U64_MAX && rate <= RPS_CEILING * SCALE
    ensures elapsed * rate <= U64_MAX * (RPS_CEILING * SCALE)
  {
    ProductGrows(elapsed, U64_MAX, rate, RPS_CEILING * SCALE);
  }

  lemma ProductGrows(a: nat, b: nat, c: nat, d: nat)
    requires a <= b && c <= d
    ensures a * c <= b * d
  {
    assert a * c <= b * c;
    assert b * c <= b * d;
  }

  // ---- Waiting as told ---------------------------------------------------------------

  lemma EarnsBack(deficit: nat, rate: nat, ns: nat)
    requires rate > 0 && ns > deficit * NS_PER_SEC / rate
    ensures ns * rate / NS_PER_SEC >= deficit
  {
    var d := deficit * NS_PER_SEC;
    assert d / rate * rate + d % rate == d;
    assert ns * rate >= (d / rate + 1) * rate == d / rate * rate + rate;
    assert ns * rate >= d;
    Monotone(d, ns * rate);
  }

  lemma Monotone(a: nat, b: nat)
    requires a <= b
    ensures a / NS_PER_SEC <= b / NS_PER_SEC
  {
  }

  /** After `ns` more nanoseconds and no call in between, the deficit is earned back. */
  lemma LongEnoughAdmits(l: Limits, b: Bucket, now: nat, ns: nat)
    requires Sane(l) && !Admits(l, b, now)
    requires ns > (SCALE - Refilled(l, b, now).tokens) * NS_PER_SEC / l.refillPerSec
    ensures Admits(l, AfterAcquire(l, b, now), now + ns)
  {
    EarnsBack(SCALE - Refilled(l, b, now).tokens, l.refillPerSec, ns);
  }

  lemma DeficitTakesAtMostASecond(deficit: nat, rate: nat)
    requires deficit <= SCALE <= rate
    ensures 0 <= deficit * NS_PER_SEC / rate <= NS_PER_SEC
  {
    var d := deficit * NS_PER_SEC;
    assert d <= rate * NS_PER_SEC;
    assert d / rate * rate + d % rate == d;
  }

  /** A refused caller that waits the returned number of milliseconds, or the whole
      seconds of the Retry-After header (section 10.2.3 of RFC 9110), is admitted. */
  lemma WaitingAsToldAdmits(l: Limits, b: Bucket, now: nat)
    requires Sane(l) && !Admits(l, b, now)
    ensures var w := Wait(l, b, now);
      && IsWait(w, SCALE - AfterAcquire(l, b, now).tokens, l.refillPerSec)
      && Admits(l, AfterAcquire(l, b, now), now + w * 1_000_000)
      && Admits(l, AfterAcquire(l, b, now), now + RetryAfterSecs(w) * NS_PER_SEC)
  {
    var deficit := SCALE - Refilled(l, b, now).tokens;
    DeficitTakesAtMostASecond(deficit, l.refillPerSec);
    WaitIsTight(deficit, l.refillPerSec);
    var waitNs := deficit * NS_PER_SEC / l.refillPerSec;
    var w := Wait(l, b, now);
    assert w * 1_000_000 > waitNs;
    LongEnoughAdmits(l, b, now, w * 1_000_000);
    LongEnoughAdmits(l, b, now, RetryAfterSecs(w) * NS_PER_SEC);
  }

  /** The number is computed in microseconds. Read that way it suffices exactly while
      the deficit takes no longer than the cap. */
  lemma MicrosecondsSufficeExactly(l: Limits, b: Bucket, now: nat)
    requires Sane(l) && !Admits(l, b, now)
    ensures Admits(l, AfterAcquire(l, b, now), now + Wait(l, b, now) * 1000)
      <==> (SCALE - Refilled(l, b, now).tokens) * NS_PER_SEC <= RETRY_CAP * 1000 * l.refillPerSec
  {
    var deficit := SCALE - Refilled(l, b, now).tokens;
    var d := deficit * NS_PER_SEC;
    var waitNs := d / l.refillPerSec;
    QuotientOf(d, l.refillPerSec, RETRY_CAP * 1000);
    if waitNs < RETRY_CAP * 1000 {
      LongEnoughAdmits(l, b, now, Wait(l, b, now) * 1000);
    } else {
      CappedWait(l, AfterAcquire(l, b, now), now, deficit);
    }
  }

  lemma CappedWait(l: Limits, b: Bucket, now: nat, deficit: nat)
    requires Sane(l) && b.lastRefill == now && b.tokens == SCALE - deficit && deficit > 0
    requires RETRY_CAP * 1000 * l.refillPerSec <= deficit * NS_PER_SEC
    ensures Admits(l, b, now + RETRY_CAP * 1000)
      <==> deficit * NS_PER_SEC <= RETRY_CAP * 1000 * l.refillPerSec
  {
    var credit := RETRY_CAP * 1000 * l.refillPerSec;
    assert credit / NS_PER_SEC * NS_PER_SEC + credit % NS_PER_SEC == credit;
  }

  // ---- Conservation over whole runs -----------------------------------------------------

  /** Calls through the current limiter, in order. */
  datatype Event = Acquire(now: nat) | Resize(rps: u64, burst: u64)

  datatype State = State(limits: Limits, bucket: Bucket)

  predicate Good(s: State) {
    Sane(s.limits) && s.bucket.tokens <= s.limits.capacity
  }

  function Step(s: State, e: Event): State {
    match e
    case Acquire(now) => s.(bucket := AfterAcquire(s.limits, s.bucket, now))
    case Resize(rps, burst) =>
      var l := ScaledLimits(rps, burst);
      State(l, Resized(s.bucket, l))
  }

  function Run(s: State, es: seq<Event>): State
    decreases |es|
  {
    if es == [] then s else Run(Step(s, es[0]), es[1..])
  }

  /** Where the scaled units of a run went. `charged` is the time for which the bucket was
      credited, in nanoseconds; `credited` counts unit-nanoseconds per second; `spilled`
      fell to a capacity, `dust` to the floor of the division. */
  datatype Ledger = Ledger(admitted: nat, calls: nat, charged: nat, credited: nat, spilled: nat, dust: nat)

  function Entry(s: State, e: Event): Ledger {
    match e
    case Acquire(now) =>
      var credit := Elapsed(s.bucket, now) * s.limits.refillPerSec;
      var sum := s.bucket.tokens + credit / NS_PER_SEC;
      Ledger(if Admits(s.limits, s.bucket, now) then 1 else 0, 1, Elapsed(s.bucket, now), credit,
             sum - Min(sum, s.limits.capacity), credit % NS_PER_SEC)
    case Resize(rps, burst) =>
      Ledger(0, 0, 0, 0, s.bucket.tokens - Resized(s.bucket, ScaledLimits(rps, burst)).tokens, 0)
  }

  function Books(s: State, es: seq<Event>): Ledger
    decreases |es|
  {
    if es == [] then Ledger(0, 0, 0, 0, 0, 0)
    else
      var a, b := Entry(s, es[0]), Books(Step(s, es[0]), es[1..]);
      Ledger(a.admitted + b.admitted, a.calls + b.calls, a.charged + b.charged, a.credited + b.credited,
             a.spilled + b.spilled, a.dust + b.dust)
  }

  /** Every unit is accounted for: opening balance plus credit equals closing balance,
      admissions, overflow over a capacity, and less than one unit lost per call. */
  lemma {:induction false} UnitsAreConserved(s: State, es: seq<Event>)
    requires Good(s)
    ensures Good(Run(s, es))
    ensures var l := Books(s, es);
      && s.bucket.tokens * NS_PER_SEC + l.credited
         == Run(s, es).bucket.tokens * NS_PER_SEC + l.admitted * SCALE * NS_PER_SEC
            + l.spilled * NS_PER_SEC + l.dust
      && l.dust <= l.calls * (NS_PER_SEC - 1)
    decreases |es|
  {
    if es != [] {
      EntryBalances(s, es[0]);
      UnitsAreConserved(Step(s, es[0]), es[1..]);
    }
  }

  lemma EntryBalances(s: State, e: Event)
    requires Good(s)
    ensures Good(Step(s, e))
    ensures var l := Entry(s, e);
      && s.bucket.tokens * NS_PER_SEC + l.credited
         == Step(s, e).bucket.tokens * NS_PER_SEC + l.admitted * SCALE * NS_PER_SEC
            + l.spilled * NS_PER_SEC + l.dust
      && l.dust <= l.calls * (NS_PER_SEC - 1)
  {
    if e.Acquire? {
      var credit := Elapsed(s.bucket, e.now) * s.limits.refillPerSec;
      assert credit / NS_PER_SEC * NS_PER_SEC + credit % NS_PER_SEC == credit;
    }
  }

  // ---- The admission bound ---------------------------------------------------------------

  /** Total forward movement of the clock as the bucket sees it. */
  function Forward(last: nat, es: seq<Event>): nat
    decreases |es|
  {
    if es == [] then 0
    else match es[0]
      case Acquire(now) => (if now > last then now - last else 0) + Forward(now, es[1..])
      case Resize(_, _) => Forward(last, es[1..])
  }

  function LastClock(last: nat, es: seq<Event>): nat
    decreases |es|
  {
    if es == [] then last
    else LastClock(if es[0].Acquire? then es[0].now else last, es[1..])
  }

  predicate NonDecreasing(last: nat, es: seq<Event>)
    decreases |es|
  {
    es == [] || (match es[0]
                 case Acquire(now) => last <= now && NonDecreasing(now, es[1..])
                 case Resize(_, _) => NonDecreasing(last, es[1..]))
  }

  /** Rates in force during a run. */
  predicate RatesAtMost(s: State, es: seq<Event>, rate: nat)
    decreases |es|
  {
    s.limits.refillPerSec <= rate && (es == [] || RatesAtMost(Step(s, es[0]), es[1..], rate))
  }

  /** One rate throughout: no resize, or only resizes that keep it. */
  predicate OneRate(s: State, es: seq<Event>, rate: nat)
    decreases |es|
  {
    s.limits.refillPerSec == rate && (es == [] || OneRate(Step(s, es[0]), es[1..], rate))
  }

  /** The bucket is credited for exactly the forward movement of the clock: at most that
      times the largest rate, and exactly that times the rate when there is only one. */
  lemma {:induction false} CreditIsForwardTime(s: State, es: seq<Event>, rate: nat)
    ensures Books(s, es).charged == Forward(s.bucket.lastRefill, es)
    ensures RatesAtMost(s, es, rate) ==> Books(s, es).credited <= Forward(s.bucket.lastRefill, es) * rate
    ensures OneRate(s, es, rate) ==> Books(s, es).credited == Forward(s.bucket.lastRefill, es) * rate
    decreases |es|
  {
    if es != [] {
      CreditIsForwardTime(Step(s, es[0]), es[1..], rate);
      if es[0].Acquire? {
        var d, f := Elapsed(s.bucket, es[0].now), Forward(es[0].now, es[1..]);
        Credits(d, f, s.limits.refillPerSec, rate);
      }
    }
  }

  lemma Credits(d: nat, f: nat, r: nat, rate: nat)
    ensures r <= rate ==> d * r + f * rate <= (d + f) * rate
    ensures r == rate ==> d * r + f * rate == (d + f) * rate
  {
    if r <= rate {
      assert d * r <= d * rate;
    }
  }

  /** The bucket is charged for the net elapsed time, and not for more, exactly when the
      clock never steps back: over any run, with any resizes. With one rate the credit itself
      is the elapsed time at that rate, exactly then. */
  lemma ChargedIsElapsedExactly(s: State, es: seq<Event>, rate: nat)
    ensures var last := s.bucket.lastRefill;
      && (Books(s, es).charged == LastClock(last, es) - last <==> NonDecreasing(last, es))
      && Books(s, es).charged >= LastClock(last, es) - last
      && (OneRate(s, es, rate) && rate > 0 ==>
            (Books(s, es).credited == (LastClock(last, es) - last) * rate <==> NonDecreasing(last, es)))
  {
    CreditIsForwardTime(s, es, rate);
    ForwardIsElapsedExactly(s.bucket.lastRefill, es);
    if OneRate(s, es, rate) && rate > 0 {
      SameFactor(Forward(s.bucket.lastRefill, es), LastClock(s.bucket.lastRefill, es) - s.bucket.lastRefill, rate);
    }
  }

  lemma SameFactor(a: int, b: int, rate: nat)
    requires rate > 0
    ensures a * rate == b * rate <==> a == b
  {
    if a < b {
      assert (a + 1) * rate <= b * rate;
    } else if b < a {
      assert (b + 1) * rate <= a * rate;
    }
  }

  /** The clock moves forward in total by at least its net movement, and by exactly
      that when it never steps back. */
  lemma {:induction false} ForwardIsElapsedExactly(last: nat, es: seq<Event>)
    ensures Forward(last, es) >= LastClock(last, es) - last
    ensures Forward(last, es) == LastClock(last, es) - last <==> NonDecreasing(last, es)
    decreases |es|
  {
    if es != [] {
      ForwardIsElapsedExactly(if es[0].Acquire? then es[0].now else last, es[1..]);
    }
  }

  // ---- Instants charged twice ----------------------------------------------------------------

  /** The call charges the instant `t`: it credits the time from the last call up to now. */
  predicate Charges(s: State, e: Event, t: nat) {
    e.Acquire? && s.bucket.lastRefill <= t < e.now
  }

  /** How often a run charges the instant `t`. */
  function Times(s: State, es: seq<Event>, t: nat): nat
    decreases |es|
  {
    if es == [] then 0 else One(Charges(s, es[0], t)) + Times(Step(s, es[0]), es[1..], t)
  }

  function TimesBefore(s: State, es: seq<Event>, n: nat): nat {
    if n == 0 then 0 else TimesBefore(s, es, n - 1) + Times(s, es, n - 1)
  }

  predicate ReadsUpTo(es: seq<Event>, n: nat) {
    forall e <- es | e.Acquire? :: e.now <= n
  }

  /** The part of `lo..hi` before `n`. */
  function Stretch(lo: nat, hi: nat, n: nat): nat {
    if lo < Min(hi, n) then Min(hi, n) - lo else 0
  }

  lemma {:induction false} TimesSplit(s: State, es: seq<Event>, n: nat)
    requires es != []
    ensures TimesBefore(s, es, n)
      == (if es[0].Acquire? then Stretch(s.bucket.lastRefill, es[0].now, n) else 0)
         + TimesBefore(Step(s, es[0]), es[1..], n)
  {
    if n > 0 {
      TimesSplit(s, es, n - 1);
    }
  }

  /** The charges of all instants add up to the time the bucket was credited for. */
  lemma {:induction false} TimesAddUp(s: State, es: seq<Event>, n: nat)
    requires ReadsUpTo(es, n)
    ensures TimesBefore(s, es, n) == Books(s, es).charged
    decreases |es|
  {
    if es == [] {
      NoTimes(s, n);
    } else {
      assert es[0] in es && forall e <- es[1..] :: e in es;
      TimesSplit(s, es, n);
      TimesAddUp(Step(s, es[0]), es[1..], n);
    }
  }

  lemma {:induction false} NoTimes(s: State, n: nat)
    ensures TimesBefore(s, [], n) == 0
  {
    if n > 0 {
      NoTimes(s, n - 1);
    }
  }

  /** What the bucket saw of the clock: its last refill, then the time of every call. */
  function Readings(last: nat, es: seq<Event>): (r: seq<nat>)
    ensures |r| > 0 && r[0] == last
    decreases |es|
  {
    if es == [] then [last]
    else if es[0].Acquire? then [last] + Readings(es[0].now, es[1..])
    else Readings(last, es[1..])
  }

  /** Steps of the clock from at most `t` to beyond it. */
  function Crossings(r: seq<nat>, t: nat): nat {
    if |r| < 2 then 0 else One(r[0] <= t < r[1]) + Crossings(r[1..], t)
  }

  lemma {:induction false} TimesAreCrossings(s: State, es: seq<Event>, t: nat)
    ensures Times(s, es, t) == Crossings(Readings(s.bucket.lastRefill, es), t)
    decreases |es|
  {
    if es != [] {
      var u := Step(s, es[0]);
      TimesAreCrossings(u, es[1..], t);
      if es[0].Acquire? {
        var rest := Readings(es[0].now, es[1..]);
        assert ([s.bucket.lastRefill] + rest)[1..] == rest;
      }
    }
  }

  predicate Rises(r: seq<nat>, t: nat, i: nat, j: nat) {
    i < j < |r| && r[i] <= t < r[j]
  }

  /** The readings go low, high, low, high around `t`. */
  predicate RisesTwice(r: seq<nat>, t: nat, i: nat, j: nat, k: nat, l: nat) {
    Rises(r, t, i, j) && j < k && Rises(r, t, k, l)
  }

  lemma {:induction false} RiseIsCrossed(r: seq<nat>, t: nat, i: nat, j: nat)
    requires Rises(r, t, i, j)
    ensures Crossings(r, t) >= 1
  {
    if i > 0 {
      RiseIsCrossed(r[1..], t, i - 1, j - 1);
    } else if r[1] <= t {
      RiseIsCrossed(r[1..], t, 0, j - 1);
    }
  }

  lemma {:induction false} CrossingRises(r: seq<nat>, t: nat) returns (i: nat, j: nat)
    requires Crossings(r, t) >= 1
    ensures Rises(r, t, i, j)
  {
    if r[0] <= t < r[1] {
      i, j := 0, 1;
    } else {
      i, j := CrossingRises(r[1..], t);
      i, j := i + 1, j + 1;
    }
  }

  lemma {:induction false} TwoRisesAreCrossed(r: seq<nat>, t: nat, i: nat, j: nat, k: nat, l: nat)
    requires RisesTwice(r, t, i, j, k, l)
    ensures Crossings(r, t) >= 2
  {
    if i > 0 {
      TwoRisesAreCrossed(r[1..], t, i - 1, j - 1, k - 1, l - 1);
    } else if r[1] <= t {
      TwoRisesAreCrossed(r[1..], t, 0, j - 1, k - 1, l - 1);
    } else {
      RiseIsCrossed(r[1..], t, k - 1, l - 1);
    }
  }

  lemma {:induction false} TwoCrossingsRise(r: seq<nat>, t: nat) returns (i: nat, j: nat, k: nat, l: nat)
    requires Crossings(r, t) >= 2
    ensures RisesTwice(r, t, i, j, k, l)
  {
    if r[0] <= t < r[1] {
      i, j := 0, 1;
      k, l := CrossingRises(r[1..], t);
      k, l := k + 1, l + 1;
    } else {
      i, j, k, l := TwoCrossingsRise(r[1..], t);
      i, j, k, l := i + 1, j + 1, k + 1, l + 1;
    }
  }

  /** An instant is charged twice exactly when the clock, as the bucket saw it, was before it,
      past it, before it again and past it again. A step back alone is not enough. */
  lemma ChargedTwiceExactly(s: State, es: seq<Event>, t: nat)
    ensures Times(s, es, t) >= 2 <==>
      exists i: nat, j: nat, k: nat, l: nat :: RisesTwice(Readings(s.bucket.lastRefill, es), t, i, j, k, l)
  {
    var r := Readings(s.bucket.lastRefill, es);
    TimesAreCrossings(s, es, t);
    if Times(s, es, t) >= 2 {
      var i, j, k, l := TwoCrossingsRise(r, t);
    }
    if i: nat, j: nat, k: nat, l: nat :| RisesTwice(r, t, i, j, k, l) {
      TwoRisesAreCrossed(r, t, i, j, k, l);
    }
  }

  /** A clock that steps back and stays back charges no instant twice. */
  lemma StepBackAloneIsHarmless(s: State, t: nat)
    requires s.bucket.lastRefill == 0
    ensures var es := [Acquire(10), Acquire(5)]; !NonDecreasing(0, es) && Times(s, es, t) <= 1
  {
    var es := [Acquire(10), Acquire(5)];
    var u := Step(s, es[0]);
    assert es[1..] == [Acquire(5)] && es[1..][1..] == [];
    assert Times(u, es[1..], t) == 0;
  }

  /** Over any run of acquires and resizes, whatever the clock does, admissions are
      bounded by the opening balance plus what the forward-moving clock refills; with
      a clock that never steps back that is the elapsed time. */
  lemma AdmissionsAreBounded(s: State, es: seq<Event>, rate: nat)
    requires Good(s) && RatesAtMost(s, es, rate)
    ensures var last := s.bucket.lastRefill;
      && Books(s, es).admitted * SCALE * NS_PER_SEC
         <= s.bucket.tokens * NS_PER_SEC + Forward(last, es) * rate
      && (NonDecreasing(last, es) ==>
            Books(s, es).admitted * SCALE * NS_PER_SEC
            <= s.bucket.tokens * NS_PER_SEC + (LastClock(last, es) - last) * rate)
  {
    UnitsAreConserved(s, es);
    CreditIsForwardTime(s, es, rate);
    ForwardIsElapsedExactly(s.bucket.lastRefill, es);
  }

  /** One backward step charges the same second twice: three admissions from a burst
      of one, although the clock ends one second after it began. */
  lemma BackwardClockDoubleCharges()
    ensures var s := State(Limits(SCALE, SCALE), Bucket(SCALE, 0));
      var es := [Acquire(0), Acquire(NS_PER_SEC), Acquire(0), Acquire(NS_PER_SEC)];
      Good(s) && LastClock(0, es) == NS_PER_SEC && Books(s, es).admitted == 3
  {
    var l := Limits(SCALE, SCALE);
    var s0 := State(l, Bucket(SCALE, 0));
    var es := [Acquire(0), Acquire(NS_PER_SEC), Acquire(0), Acquire(NS_PER_SEC)];
    var s1 := Step(s0, es[0]);
    assert s1 == State(l, Bucket(0, 0));
    var s2 := Step(s1, es[1]);
    assert s2 == State(l, Bucket(0, NS_PER_SEC));
    var s3 := Step(s2, es[2]);
    assert s3 == State(l, Bucket(0, 0));
    assert es[3..] == [Acquire(NS_PER_SEC)] && es[3..][1..] == [];
    assert es[2..][1..] == es[3..] && es[1..][1..] == es[2..];
    assert LastClock(0, es[3..]) == NS_PER_SEC && LastClock(NS_PER_SEC, es[2..]) == NS_PER_SEC;
    assert LastClock(0, es[1..]) == NS_PER_SEC;
    assert Books(s3, es[3..]).admitted == 1;
    assert Books(s2, es[2..]).admitted == 1;
    assert Books(s1, es[1..]).admitted == 2;
  }

  // ---- Requests that still hold a replaced limiter ------------------------------------------

  /** All limiters some request may hold, the current one last. A resize leaves the old
      ones in the hands of requests in flight. */
  datatype PoolEvent = Take(k: nat, now: nat) | Replace(rps: u64, burst: u64)

  /** `copied` counts the units a resize hands to the new limiter while the old keeps them. */
  datatype PoolLedger = PoolLedger(admitted: nat, copied: nat, credited: nat)

  predicate PoolGood(pool: seq<State>) {
    pool != [] && forall i | 0 <= i < |pool| :: Good(pool[i])
  }

  function Newest(pool: seq<State>, rps: u64, burst: u64): State
    requires pool != []
  {
    Step(pool[|pool| - 1], Resize(rps, burst))
  }

  function PoolStep(pool: seq<State>, e: PoolEvent): seq<State>
    requires pool != []
  {
    match e
    case Take(k, now) => if k < |pool| then pool[k := Step(pool[k], Acquire(now))] else pool
    case Replace(rps, burst) => pool + [Newest(pool, rps, burst)]
  }

  function PoolRun(pool: seq<State>, es: seq<PoolEvent>): seq<State>
    requires pool != []
    decreases |es|
  {
    if es == [] then pool else PoolRun(PoolStep(pool, es[0]), es[1..])
  }

  function PoolEntry(pool: seq<State>, e: PoolEvent): PoolLedger
    requires pool != []
  {
    match e
    case Take(k, now) =>
      if k < |pool| then var l := Entry(pool[k], Acquire(now)); PoolLedger(l.admitted, 0, l.credited)
      else PoolLedger(0, 0, 0)
    case Replace(rps, burst) => PoolLedger(0, Newest(pool, rps, burst).bucket.tokens, 0)
  }

  function PoolBooks(pool: seq<State>, es: seq<PoolEvent>): PoolLedger
    requires pool != []
    decreases |es|
  {
    if es == [] then PoolLedger(0, 0, 0)
    else
      var a, b := PoolEntry(pool, es[0]), PoolBooks(PoolStep(pool, es[0]), es[1..]);
      PoolLedger(a.admitted + b.admitted, a.copied + b.copied, a.credited + b.credited)
  }

  function Balance(pool: seq<State>): nat {
    if pool == [] then 0 else Balance(pool[..|pool| - 1]) + pool[|pool| - 1].bucket.tokens
  }

  lemma {:induction false} BalanceAfter(pool: seq<State>, k: nat, s: State)
    requires k < |pool|
    ensures Balance(pool[k := s]) + pool[k].bucket.tokens == Balance(pool) + s.bucket.tokens
  {
    var n := |pool| - 1;
    if k < n {
      BalanceAfter(pool[..n], k, s);
      assert pool[k := s][..n] == pool[..n][k := s];
    } else {
      assert pool[k := s][..n] == pool[..n];
    }
  }

  lemma PoolStepBalances(pool: seq<State>, e: PoolEvent)
    requires PoolGood(pool)
    ensures PoolGood(PoolStep(pool, e))
    ensures var l := PoolEntry(pool, e);
      l.admitted * SCALE * NS_PER_SEC + Balance(PoolStep(pool, e)) * NS_PER_SEC
      <= Balance(pool) * NS_PER_SEC + l.copied * NS_PER_SEC + l.credited
  {
    match e
    case Take(k, now) =>
      if k < |pool| {
        EntryBalances(pool[k], Acquire(now));
        BalanceAfter(pool, k, Step(pool[k], Acquire(now)));
      }
    case Replace(rps, burst) =>
      EntryBalances(pool[|pool| - 1], Resize(rps, burst));
      assert PoolStep(pool, e)[..|pool|] == pool;
  }

  /** Counting requests that still hold replaced limiters, admissions exceed the credit and
      the opening balance by at most what the resizes copied. */
  lemma {:induction false} StaleHoldersAreBounded(pool: seq<State>, es: seq<PoolEvent>)
    requires PoolGood(pool)
    ensures var l := PoolBooks(pool, es);
      l.admitted * SCALE * NS_PER_SEC + Balance(PoolRun(pool, es)) * NS_PER_SEC
      <= Balance(pool) * NS_PER_SEC + l.copied * NS_PER_SEC + l.credited
    decreases |es|
  {
    if es != [] {
      PoolStepBalances(pool, es[0]);
      StaleHoldersAreBounded(PoolStep(pool, es[0]), es[1..]);
    }
  }

  /** The excess is real: with one token left, a request on each side of a resize is
      admitted at the same instant. */
  lemma StaleHolderSpendsTwice(now: nat)
    ensures var pool := [State(Limits(SCALE, SCALE), Bucket(SCALE, now))];
      var es := [Replace(1, 2), Take(0, now), Take(1, now)];
      PoolGood(pool) && PoolBooks(pool, es) == PoolLedger(2, SCALE, 0)
  {
    var s0 := State(Limits(SCALE, SCALE), Bucket(SCALE, now));
    var s1 := State(Limits(2 * SCALE, SCALE), Bucket(SCALE, now));
    var es := [Replace(1, 2), Take(0, now), Take(1, now)];
    assert Newest([s0], 1, 2) == s1;
    var p1 := PoolStep([s0], es[0]);
    assert p1 == [s0, s1];
    var p2 := PoolStep(p1, es[1]);
    assert p2[1] == s1 && |p2| == 2;
    assert es[1..][1..] == [Take(1, now)] && [Take(1, now)][1..] == [];
    assert PoolEntry(p2, Take(1, now)) == PoolLedger(1, 0, 0);
    assert PoolBooks(p2, [Take(1, now)]) == PoolLedger(1, 0, 0);
    assert es[1..][0] == Take(0, now) && PoolEntry(p1, Take(0, now)) == PoolLedger(1, 0, 0);
    assert PoolBooks(p1, es[1..]) == PoolLedger(2, 0, 0);
  }

  /** Every request goes to the limiter that is current when it comes. */
  ghost predicate OnlyNewest(pool: seq<State>, es: seq<PoolEvent>)
    requires pool != []
    decreases |es|
  {
    es != [] ==> (es[0].Take? ==> es[0].k == |pool| - 1) && OnlyNewest(PoolStep(pool, es[0]), es[1..])
  }

  /** Admissions from one limiter on stay within its balance and the credit. */
  predicate WithinBudget(s: State, es: seq<PoolEvent>) {
    var l := PoolBooks([s], es);
    l.admitted * SCALE * NS_PER_SEC <= s.bucket.tokens * NS_PER_SEC + l.credited
  }

  ghost predicate AlwaysWithinBudget(stale: bool) {
    forall s, es | Good(s) && (stale || OnlyNewest([s], es)) :: WithinBudget(s, es)
  }

  lemma {:induction false} NewestStaysWithinBudget(pool: seq<State>, es: seq<PoolEvent>)
    requires PoolGood(pool) && OnlyNewest(pool, es)
    ensures var l := PoolBooks(pool, es);
      l.admitted * SCALE * NS_PER_SEC <= pool[|pool| - 1].bucket.tokens * NS_PER_SEC + l.credited
    decreases |es|
  {
    if es != [] {
      PoolStepBalances(pool, es[0]);
      NewestStaysWithinBudget(PoolStep(pool, es[0]), es[1..]);
      var e := if es[0].Take? then Acquire(es[0].now) else Resize(es[0].rps, es[0].burst);
      EntryBalances(pool[|pool| - 1], e);
    }
  }

  /** Resizing is free of a second burst in every run exactly when no request goes to a
      limiter that has been replaced. */
  lemma WithinBudgetExactlyWhenCurrent(stale: bool)
    ensures AlwaysWithinBudget(stale) <==> !stale
  {
    if stale {
      var s := State(Limits(SCALE, SCALE), Bucket(SCALE, 0));
      var es := [Replace(1, 2), Take(0, 0), Take(1, 0)];
      StaleHolderSpendsTwice(0);
      assert Good(s) && !WithinBudget(s, es);
    } else {
      forall s, es | Good(s) && OnlyNewest([s], es) ensures WithinBudget(s, es) {
        NewestStaysWithinBudget([s], es);
      }
    }
  }

  // ---- The generation-gated handle -----------------------------------------------------------

  const DEFAULT_RPS: u64 := 100
  const DEFAULT_BURST: u64 := 200

  datatype LimiterSlot = LimiterSlot(gen: nat, rps: u64, burst: u64, limiter: RateLimiter)

  class RateLimiterHandle {
    var slot: Option<LimiterSlot>

    predicate Valid()
      reads this, if slot.Some? then {slot.value.limiter} else {}
    {
      slot.Some? ==>
        && slot.value.limiter.Valid()
        && slot.value.limiter.limits == ScaledLimits(slot.value.rps, slot.value.burst)
    }

    constructor ()
      ensures Valid() && slot == None
    {
      slot := None;
    }

    /** The current limiter. An unchanged generation or unchanged limits keep the same
        object; changed limits carry the balance and the refill time over. */
    method Limiter(gen: nat, rpsSetting: Option<u64>, burstSetting: Option<u64>, now: u64)
        returns (l: RateLimiter)
      requires Valid()
      modifies this
      ensures Valid() && slot.Some? && slot.value.limiter == l && slot.value.gen == gen
      ensures old(slot).Some? && old(slot).value.gen == gen ==> slot == old(slot)
      ensures old(slot).None? ==> l.State() == Bucket(l.limits.capacity, now)
      ensures old(slot).Some? ==>
        l == old(slot).value.limiter || (fresh(l) && l.State() == Resized(old(slot.value.limiter.State()), l.limits))
      ensures old(slot).Some? && old(slot).value.gen != gen ==>
        (l == old(slot).value.limiter <==>
         slot.value.rps == old(slot).value.rps && slot.value.burst == old(slot).value.burst)
      ensures old(slot).None? || old(slot).value.gen != gen ==>
        && slot.value.rps == (if rpsSetting.Some? then rpsSetting.value else DEFAULT_RPS)
        && slot.value.burst == (if burstSetting.Some? then burstSetting.value else DEFAULT_BURST)
    {
      if slot.Some? && slot.value.gen == gen {
        return slot.value.limiter;
      }
      var rps := if rpsSetting.Some? then rpsSetting.value else DEFAULT_RPS;
      var burst := if burstSetting.Some? then burstSetting.value else DEFAULT_BURST;
      if slot.None? {
        l := new RateLimiter(rps, burst, now);
      } else if slot.value.rps == rps && slot.value.burst == burst {
        l := slot.value.limiter;
      } else {
        l := new RateLimiter.Resize(slot.value.limiter, rps, burst);
      }
      slot := Some(LimiterSlot(gen, rps, burst, l));
    }
  }

  /** Why the generation check may skip the reads: a settings mutation first changes
      the values and then bumps the generation, while the handle reads the generation
      first and the two values after it, each under its own lock. */
  datatype Settings = Settings(gen: nat, rps: u64, burst: u64, unbumped: nat)
  datatype Reader = Idle | GotGen(g: nat) | GotRps(g: nat, rps: u64) | GotBoth(g: nat, rps: u64, burst: u64)
  datatype Print = Print(gen: nat, rps: u64, burst: u64)
  datatype Gate = Gate(settings: Settings, reader: Reader, slot: Option<Print>)

  datatype GateAction = Mutate(rps: u64, burst: u64) | BumpGeneration | ReadGen | ReadRps | ReadBurst | Store

  predicate GateEnabled(s: Gate, a: GateAction) {
    match a
    case Mutate(_, _) => true
    case BumpGeneration => s.settings.unbumped > 0
    case ReadGen => s.reader.Idle?
    case ReadRps => s.reader.GotGen?
    case ReadBurst => s.reader.GotRps?
    case Store => s.reader.GotBoth?
  }

  function GateNext(s: Gate, a: GateAction): Gate
    requires GateEnabled(s, a)
  {
    match a
    case Mutate(rps, burst) =>
      s.(settings := s.settings.(rps := rps, burst := burst, unbumped := s.settings.unbumped + 1))
    case BumpGeneration => s.(settings := s.settings.(gen := s.settings.gen + 1, unbumped := s.settings.unbumped - 1))
    case ReadGen => if FastPath(s) then s else s.(reader := GotGen(s.settings.gen))
    case ReadRps => s.(reader := GotRps(s.reader.g, s.settings.rps))
    case ReadBurst => s.(reader := GotBoth(s.reader.g, s.reader.rps, s.settings.burst))
    case Store => s.(slot := Some(Print(s.reader.g, s.reader.rps, s.reader.burst)), reader := Idle)
  }

  predicate FastPath(s: Gate) {
    s.slot.Some? && s.slot.value.gen == s.settings.gen
  }

  /** A value read under generation `g` is current unless the generation has moved on
      or a mutation has not bumped it yet. */
  predicate Current(s: Settings, g: nat, same: bool) {
    g <= s.gen && (g == s.gen && s.unbumped == 0 ==> same)
  }

  predicate GateInv(s: Gate) {
    && (s.slot.Some? ==>
          var p := s.slot.value;
          Current(s.settings, p.gen, p.rps == s.settings.rps && p.burst == s.settings.burst))
    && (match s.reader
        case Idle => true
        case GotGen(g) => g <= s.settings.gen
        case GotRps(g, rps) => Current(s.settings, g, rps == s.settings.rps)
        case GotBoth(g, rps, burst) =>
          Current(s.settings, g, rps == s.settings.rps && burst == s.settings.burst))
  }

  predicate GateLegal(s: Gate, acts: seq<GateAction>)
    decreases |acts|
  {
    acts == [] || (GateEnabled(s, acts[0]) && GateLegal(GateNext(s, acts[0]), acts[1..]))
  }

  function GateRun(s: Gate, acts: seq<GateAction>): Gate
    requires GateLegal(s, acts)
    decreases |acts|
  {
    if acts == [] then s else GateRun(GateNext(s, acts[0]), acts[1..])
  }

  /** In every interleaving of mutations and readers: whenever the fast path is taken
      and no mutation is between its write and its bump, the slot was built for
      exactly the current limits. */
  lemma {:induction false} FastPathIsCurrent(s: Gate, acts: seq<GateAction>)
    requires GateInv(s) && GateLegal(s, acts)
    ensures var t := GateRun(s, acts);
      && GateInv(t)
      && (FastPath(t) && t.settings.unbumped == 0 ==>
            t.slot.value.rps == t.settings.rps && t.slot.value.burst == t.settings.burst)
    decreases |acts|
  {
    if acts != [] {
      FastPathIsCurrent(GateNext(s, acts[0]), acts[1..]);
    }
  }

  /** What the generation check saves: while the generation stands still, calls that find it in
      the slot read no setting and rebuild nothing. */
  lemma {:induction false} FastPathReadsNothing(s: Gate, acts: seq<GateAction>)
    requires FastPath(s) && s.reader.Idle? && GateLegal(s, acts) && BumpGeneration !in acts
    ensures ReadRps !in acts && ReadBurst !in acts && Store !in acts && GateRun(s, acts).slot == s.slot
    decreases |acts|
  {
    if acts != [] {
      assert acts == [acts[0]] + acts[1..];
      FastPathReadsNothing(GateNext(s, acts[0]), acts[1..]);
    }
  }
}
