/**
The token bucket in front of a CRM's API: how many calls it lets through in any stretch of time, and
how long it makes a caller wait. Times are seconds on the process's monotonic clock, as reals.
*/
module RateLimit {

  // The bucket's size, the tokens that come back in a second, and the seconds until one token is back.
  datatype Limits = Limits(capacity: real, rate: real, interval: real) {
    predicate Valid() { capacity >= 1.0 && rate > 0.0 && interval > 0.0 && rate * interval == 1.0 }
  }

  function LimitsOf(maxTokens: nat, refillTime: real): (l: Limits)
    requires maxTokens >= 1 && refillTime > 0.0
    ensures l.Valid()
  {
    Reciprocal(maxTokens as real, refillTime);
    Limits(maxTokens as real, maxTokens as real / refillTime, refillTime / maxTokens as real)
  }

  lemma {:induction false} Reciprocal(x: real, y: real)
    requires x > 0.0 && y > 0.0
    ensures x / y > 0.0 && y / x > 0.0 && (x / y) * (y / x) == 1.0
  {
    var q, p := x / y, y / x;
    assert q * y == x && p * x == y;
    QuotientPositive(q, y);
    QuotientPositive(p, x);
    Cancel(q, p, x, y);
  }

  lemma {:induction false} QuotientPositive(q: real, y: real)
    requires y > 0.0 && q * y > 0.0
    ensures q > 0.0
  {
  }

  lemma {:induction false} Cancel(q: real, p: real, x: real, y: real)
    requires x > 0.0 && q * y == x && p * x == y
    ensures q * p == 1.0
  {
    assert q * (p * x) == x;
    assert (q * p) * x == q * (p * x);
    assert (q * p - 1.0) * x == 0.0;
  }

  lemma {:induction false} TimesMonotone(k: real, x: real, y: real)
    requires k >= 0.0 && x <= y
    ensures k * x <= k * y && x * k <= y * k
  {
  }

  // The tokens that come back between two moments.
  function Earned(rate: real, from: real, to: real): real { (to - from) * rate }

  lemma {:induction false} EarnedGrows(rate: real, from: real, mid: real, to: real)
    requires rate >= 0.0 && from <= mid <= to
    ensures Earned(rate, from, to) == Earned(rate, from, mid) + Earned(rate, mid, to)
    ensures 0.0 <= Earned(rate, mid, to) <= Earned(rate, from, to)
  {
  }

  datatype Bucket = Bucket(tokens: real, lastUpdate: real)

  function Min(x: real, y: real): real { if x <= y then x else y }

  function Refilled(l: Limits, b: Bucket, now: real): real
    requires l.Valid()
  {
    Min(l.capacity, b.tokens + Earned(l.rate, b.lastUpdate, now))
  }

  // What acquire asks to sleep, when it finds less than one token.
  function Wait(l: Limits, b: Bucket, now: real): real
    requires l.Valid()
  {
    if Refilled(l, b, now) < 1.0 then (1.0 - Refilled(l, b, now)) * l.interval else 0.0
  }

  // One acquire: the clock reads now on entry and, if it had to sleep, wake afterwards.
  datatype Call = Call(now: real, wake: real)

  // The clock never runs backwards and a sleep is not cut short.
  predicate Timely(l: Limits, b: Bucket, c: Call)
    requires l.Valid()
  {
    b.lastUpdate <= c.now && c.now + Wait(l, b, c.now) <= c.wake
  }

  function Granted(l: Limits, b: Bucket, c: Call): Bucket
    requires l.Valid()
  {
    if Refilled(l, b, c.now) < 1.0 then Bucket(0.0, c.wake) else Bucket(Refilled(l, b, c.now) - 1.0, c.now)
  }

  class RateLimiter {
    const maxTokens: nat
    const refillTime: real
    var tokens: real
    var lastUpdate: real

    predicate Valid() { maxTokens >= 1 && refillTime > 0.0 }

    function State(): Bucket
      reads this
    {
      Bucket(tokens, lastUpdate)
    }

    constructor (maxTokens: nat, refillTime: real, now: real)
      requires maxTokens >= 1 && refillTime > 0.0
      ensures Valid() && this.maxTokens == maxTokens && this.refillTime == refillTime
      ensures State() == Bucket(maxTokens as real, now)
    {
      this.maxTokens := maxTokens;
      this.refillTime := refillTime;
      tokens := maxTokens as real;
      lastUpdate := now;
    }

    method Acquire(now: real, wake: real) returns (slept: real)
      requires Valid()
      modifies this
      ensures var l := LimitsOf(maxTokens, refillTime);
              slept == Wait(l, old(State()), now) && State() == Granted(l, old(State()), Call(now, wake))
    {
      slept := 0.0;
      var elapsed := now - lastUpdate;
      tokens := Min(maxTokens as real, tokens + elapsed * (maxTokens as real / refillTime));
      lastUpdate := now;
      if tokens < 1.0 {
        slept := (1.0 - tokens) * (refillTime / maxTokens as real);
        tokens := 1.0;
        lastUpdate := wake;
      }
      tokens := tokens - 1.0;
    }
  }

  // ----- Runs -----

  // The asyncio lock lets one acquire finish before the next reads the clock.
  predicate Legal(l: Limits, b: Bucket, calls: seq<Call>)
    requires l.Valid()
    decreases |calls|
  {
    calls == [] || (Timely(l, b, calls[0]) && Legal(l, Granted(l, b, calls[0]), calls[1..]))
  }

  // When each call of a run was let through.
  function Grants(l: Limits, b: Bucket, calls: seq<Call>): (g: seq<real>)
    requires l.Valid()
    ensures |g| == |calls|
    decreases |calls|
  {
    if calls == [] then []
    else
      var next := Granted(l, b, calls[0]);
      [next.lastUpdate] + Grants(l, next, calls[1..])
  }

  function Within(times: seq<real>, from: real, to: real): nat {
    if times == [] then 0 else (if from <= times[0] <= to then 1 else 0) + Within(times[1..], from, to)
  }

  predicate InRange(l: Limits, b: Bucket) { 0.0 <= b.tokens <= l.capacity }

  lemma {:induction false} RefilledInRange(l: Limits, b: Bucket, c: Call)
    requires l.Valid() && InRange(l, b) && b.lastUpdate <= c.now
    ensures b.tokens <= Refilled(l, b, c.now) <= l.capacity
  {
    EarnedGrows(l.rate, b.lastUpdate, b.lastUpdate, c.now);
  }

  // The wait is the shortest after which a token is there.
  lemma {:induction false} WaitIsShortest(l: Limits, b: Bucket, now: real)
    requires l.Valid() && InRange(l, b) && b.lastUpdate <= now
    ensures var wait := Wait(l, b, now);
            && wait >= 0.0 && Refilled(l, b, now + wait) >= 1.0
            && forall t: real | now <= t < now + wait :: Refilled(l, b, t) < 1.0
  {
    var wait, missing := Wait(l, b, now), 1.0 - Refilled(l, b, now);
    if missing > 0.0 {
      EarnsMissing(l, missing, wait);
      RefilledAlong(l, b, now, now + wait, wait, missing);
      forall t: real | now <= t < now + wait
        ensures Refilled(l, b, t) < 1.0
      {
        NotYet(l, b, now, wait, missing, t, t - now, (t - now) * l.rate);
      }
    }
  }

  lemma {:induction false} NotYet(l: Limits, b: Bucket, now: real, wait: real, missing: real,
                                  t: real, slept: real, earned: real)
    requires l.Valid() && missing > 0.0 && missing == 1.0 - Refilled(l, b, now) && missing == wait * l.rate
    requires t == now + slept && slept < wait && earned == slept * l.rate
    ensures Refilled(l, b, t) < 1.0
  {
    EarnsLess(l.rate, slept, earned, wait, missing);
    RefilledAlong(l, b, now, t, slept, earned);
  }

  // Short of a full bucket the tokens grow with the time slept.
  lemma {:induction false} RefilledAlong(l: Limits, b: Bucket, now: real, t: real, slept: real, earned: real)
    requires l.Valid() && Refilled(l, b, now) < 1.0 && t == now + slept && earned == slept * l.rate
    ensures Refilled(l, b, t) == Min(l.capacity, Refilled(l, b, now) + earned)
  {
    EarnedAlong(l.rate, b.lastUpdate, now, t, slept, earned);
  }

  lemma {:induction false} EarnedAlong(rate: real, from: real, mid: real, to: real, passed: real, earned: real)
    requires to == mid + passed && earned == passed * rate
    ensures Earned(rate, from, to) == Earned(rate, from, mid) + earned
  {
    assert to - from == (mid - from) + passed;
  }

  lemma {:induction false} EarnsMissing(l: Limits, missing: real, wait: real)
    requires l.Valid() && missing > 0.0 && wait == missing * l.interval
    ensures wait > 0.0 && missing == wait * l.rate
  {
    assert wait * l.rate == missing * (l.rate * l.interval);
  }

  lemma {:induction false} EarnsLess(rate: real, x: real, earned: real, y: real, needed: real)
    requires rate > 0.0 && x < y && earned == x * rate && needed == y * rate
    ensures earned < needed
  {
    var more := y - x;
    assert more * rate > 0.0;
    assert needed == earned + more * rate;
  }

  // A grant keeps the bucket in range, takes a token, and spends no more than time gave back; the caller
  // waits no longer than one token takes to come back.
  lemma {:induction false} GrantPaysForItself(l: Limits, b: Bucket, c: Call)
    requires l.Valid() && InRange(l, b) && Timely(l, b, c)
    ensures var next := Granted(l, b, c);
            && 0.0 <= next.tokens <= l.capacity - 1.0 && b.lastUpdate <= next.lastUpdate
            && next.tokens + 1.0 <= b.tokens + Earned(l.rate, b.lastUpdate, next.lastUpdate)
    ensures 0.0 <= Wait(l, b, c.now) <= l.interval
  {
    RefilledInRange(l, b, c);
    if Refilled(l, b, c.now) < 1.0 {
      SleepEarns(1.0 - Refilled(l, b, c.now), l.interval, l.rate, c.now, c.wake);
      EarnedGrows(l.rate, b.lastUpdate, c.now, c.wake);
    }
  }

  lemma {:induction false} SleepEarns(missing: real, interval: real, rate: real, now: real, wake: real)
    requires 0.0 <= missing <= 1.0 && interval > 0.0 && rate > 0.0 && rate * interval == 1.0
    requires now + missing * interval <= wake
    ensures missing <= Earned(rate, now, wake) && 0.0 <= missing * interval <= interval
  {
    var need := missing * interval;
    TimesMonotone(interval, missing, 1.0);
    TimesMonotone(interval, 0.0, missing);
    var slept := wake - now;
    TimesMonotone(rate, need, slept);
    assert need * rate == missing * (rate * interval);
  }

  lemma {:induction false} FirstGrant(l: Limits, b: Bucket, calls: seq<Call>, from: real, to: real)
    requires l.Valid() && calls != []
    ensures var next := Granted(l, b, calls[0]);
            Within(Grants(l, b, calls), from, to)
            == (if from <= next.lastUpdate <= to then 1 else 0) + Within(Grants(l, next, calls[1..]), from, to)
  {
    assert Grants(l, b, calls)[1..] == Grants(l, Granted(l, b, calls[0]), calls[1..]);
  }

  lemma {:induction false} NoneAfter(l: Limits, b: Bucket, calls: seq<Call>, from: real, to: real)
    requires l.Valid() && InRange(l, b) && Legal(l, b, calls) && to < b.lastUpdate
    ensures Within(Grants(l, b, calls), from, to) == 0
    decreases |calls|
  {
    if calls != [] {
      GrantPaysForItself(l, b, calls[0]);
      NoneAfter(l, Granted(l, b, calls[0]), calls[1..], from, to);
      FirstGrant(l, b, calls, from, to);
    }
  }

  // From any moment on, grants are paid for by the tokens there and the time since.
  lemma {:induction false} GrantsUpTo(l: Limits, b: Bucket, calls: seq<Call>, from: real, to: real)
    requires l.Valid() && InRange(l, b) && Legal(l, b, calls) && b.lastUpdate <= to
    ensures Within(Grants(l, b, calls), from, to) as real <= b.tokens + Earned(l.rate, b.lastUpdate, to)
    decreases |calls|
  {
    EarnedGrows(l.rate, b.lastUpdate, b.lastUpdate, to);
    if calls != [] {
      var next := Granted(l, b, calls[0]);
      GrantPaysForItself(l, b, calls[0]);
      FirstGrant(l, b, calls, from, to);
      if next.lastUpdate <= to {
        GrantsUpTo(l, next, calls[1..], from, to);
        EarnedGrows(l.rate, b.lastUpdate, next.lastUpdate, to);
      } else {
        NoneAfter(l, next, calls[1..], from, to);
      }
    }
  }

  // In any run and any stretch of time, no more calls get through than a full bucket and what the time
  // gives back.
  lemma {:induction false} RateBound(l: Limits, b: Bucket, calls: seq<Call>, from: real, to: real)
    requires l.Valid() && InRange(l, b) && Legal(l, b, calls) && from <= to
    ensures Within(Grants(l, b, calls), from, to) as real <= l.capacity + Earned(l.rate, from, to)
    decreases |calls|
  {
    EarnedGrows(l.rate, from, from, to);
    if calls != [] {
      var next := Granted(l, b, calls[0]);
      GrantPaysForItself(l, b, calls[0]);
      FirstGrant(l, b, calls, from, to);
      if next.lastUpdate < from {
        RateBound(l, next, calls[1..], from, to);
      } else if next.lastUpdate <= to {
        GrantsUpTo(l, next, calls[1..], from, to);
        EarnedGrows(l.rate, from, next.lastUpdate, to);
      } else {
        NoneAfter(l, next, calls[1..], from, to);
      }
    }
  }

  // ----- The bound is attained -----

  // n callers at once, then k that each come the moment the one before is through and sleep just as
  // long as asked.
  function Paced(l: Limits, at: real, k: nat): seq<Call>
    requires l.Valid()
    decreases k
  {
    if k == 0 then [] else [Call(at, at + l.interval)] + Paced(l, at + l.interval, k - 1)
  }

  function Burst(l: Limits, at: real, n: nat, k: nat): seq<Call>
    requires l.Valid()
  {
    if n == 0 then Paced(l, at, k) else [Call(at, at)] + Burst(l, at, n - 1, k)
  }

  lemma {:induction false} PacedGrants(l: Limits, at: real, k: nat, from: real, to: real)
    requires l.Valid() && from <= at && at + (k as real) * l.interval <= to
    ensures Legal(l, Bucket(0.0, at), Paced(l, at, k))
    ensures Within(Grants(l, Bucket(0.0, at), Paced(l, at, k)), from, to) == k
    decreases k
  {
    if k > 0 {
      var interval := l.interval;
      var b, call := Bucket(0.0, at), Call(at, at + interval);
      assert Refilled(l, b, at) == 0.0;
      assert Granted(l, b, call) == Bucket(0.0, at + interval);
      assert Paced(l, at, k)[1..] == Paced(l, at + interval, k - 1);
      assert (k as real) * interval == ((k - 1) as real) * interval + interval;
      TimesMonotone(interval, 0.0, (k - 1) as real);
      PacedGrants(l, at + interval, k - 1, from, to);
      assert Grants(l, b, Paced(l, at, k))[1..] == Grants(l, Granted(l, b, call), Paced(l, at + interval, k - 1));
    }
  }

  lemma {:induction false} BurstGrants(l: Limits, at: real, n: nat, k: nat, to: real)
    requires l.Valid() && n as real <= l.capacity && at + (k as real) * l.interval <= to
    ensures Legal(l, Bucket(n as real, at), Burst(l, at, n, k))
    ensures Within(Grants(l, Bucket(n as real, at), Burst(l, at, n, k)), at, to) == n + k
  {
    if n == 0 {
      PacedGrants(l, at, k, at, to);
    } else {
      var b, call := Bucket(n as real, at), Call(at, at);
      TimesMonotone(l.interval, 0.0, k as real);
      assert Refilled(l, b, at) == n as real;
      assert Granted(l, b, call) == Bucket((n - 1) as real, at);
      assert Burst(l, at, n, k)[1..] == Burst(l, at, n - 1, k);
      BurstGrants(l, at, n - 1, k, to);
      assert Grants(l, b, Burst(l, at, n, k))[1..] == Grants(l, Granted(l, b, call), Burst(l, at, n - 1, k));
    }
  }

  // In any run of one limiter and any stretch of time of length t, at most maxTokens + t * maxTokens /
  // refillTime calls get through; and after start-up a full burst on top of the steady rate can get
  // through, for every whole number k of returned tokens.
  lemma {:induction false} RateBoundTight(maxTokens: nat, refillTime: real, start: real, k: nat)
    requires maxTokens >= 1 && refillTime > 0.0
    ensures var l := LimitsOf(maxTokens, refillTime);
            var b, calls := Bucket(maxTokens as real, start), Burst(l, start, maxTokens, k);
            var to := start + (k as real) * (refillTime / maxTokens as real);
            && Legal(l, b, calls)
            && Within(Grants(l, b, calls), start, to) == maxTokens + k
            && l.capacity + (to - start) * l.rate == (maxTokens + k) as real
  {
    var l := LimitsOf(maxTokens, refillTime);
    BurstGrants(l, start, maxTokens, k, start + (k as real) * l.interval);
    Regroup(k as real, l.interval, l.rate);
  }

  lemma {:induction false} Regroup(k: real, x: real, y: real)
    requires y * x == 1.0
    ensures (k * x) * y == k
  {
    assert (k * x) * y == k * (y * x);
  }
}
