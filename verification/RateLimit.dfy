/**
 The per-address token bucket of pkg/api/middleware.go, over real arithmetic. Times are in seconds.
 */
module RateLimit {
  import opened Common

  datatype Bucket = Bucket(tokens: real, lastCheck: real)

  datatype Call = Call(ip: string, now: real)

  datatype Limits = Limits(rate: real, burst: int)

  type Buckets = map<string, Bucket>

  /** The tokens that accrue up to time t. */
  function Earned(l: Limits, t: real): real {
    t * l.rate
  }

  lemma {:induction false} EarnedBetween(l: Limits, t: real, u: real)
    ensures (u - t) * l.rate == Earned(l, u) - Earned(l, t)
    ensures l.rate > 0.0 && t <= u ==> Earned(l, t) <= Earned(l, u)
  {
    if l.rate > 0.0 && t <= u { NonNegative(u - t, l.rate); }
  }

  lemma {:induction false} NonNegative(a: real, b: real)
    requires a >= 0.0 && b >= 0.0
    ensures a * b >= 0.0
  {
  }

  /** The tokens that the address has at time now, after the refill and its cap. */
  function Available(l: Limits, bs: Buckets, ip: string, now: real): real {
    if ip !in bs then l.burst as real
    else
      var t := bs[ip].tokens + (Earned(l, now) - Earned(l, bs[ip].lastCheck));
      if t > l.burst as real then l.burst as real else t
  }

  predicate Allows(l: Limits, bs: Buckets, c: Call) {
    Available(l, bs, c.ip, c.now) >= 1.0
  }

  function After(l: Limits, bs: Buckets, c: Call): Buckets {
    var t := Available(l, bs, c.ip, c.now);
    bs[c.ip := Bucket(if t >= 1.0 then t - 1.0 else t, c.now)]
  }

  class RateLimiter {
    var buckets: Buckets
    const limits: Limits

    constructor (limits: Limits)
      ensures this.limits == limits && buckets == map[]
    {
      this.limits, buckets := limits, map[];
    }

    method Allow(ip: string, now: real) returns (ok: bool)
      modifies this
      ensures buckets == After(limits, old(buckets), Call(ip, now)) && ok == Allows(limits, old(buckets), Call(ip, now))
    {
      var b := if ip in buckets then buckets[ip] else Bucket(limits.burst as real, now);
      var elapsed := now - b.lastCheck;
      EarnedBetween(limits, b.lastCheck, now);
      b := b.(tokens := b.tokens + elapsed * limits.rate);
      if b.tokens > limits.burst as real {
        b := b.(tokens := limits.burst as real);
      }
      b := b.(lastCheck := now);
      if b.tokens < 1.0 {
        buckets := buckets[ip := b];
        return false;
      }
      b := b.(tokens := b.tokens - 1.0);
      buckets := buckets[ip := b];
      return true;
    }
  }

  // ----- runs -----

  function At(l: Limits, calls: seq<Call>, k: nat): Buckets
    requires k <= |calls|
  {
    if k == 0 then map[] else After(l, At(l, calls, k - 1), calls[k - 1])
  }

  predicate AllowedAt(l: Limits, calls: seq<Call>, k: nat, ip: string)
    requires k < |calls|
  {
    calls[k].ip == ip && Allows(l, At(l, calls, k), calls[k])
  }

  /** How many of the calls i, ..., j - 1 of the address were allowed. */
  function AllowedBetween(l: Limits, calls: seq<Call>, i: nat, j: nat, ip: string): nat
    requires i <= j <= |calls|
    decreases j
  {
    if i == j then 0 else AllowedBetween(l, calls, i, j - 1, ip) + if AllowedAt(l, calls, j - 1, ip) then 1 else 0
  }

  ghost predicate Monotone(calls: seq<Call>) {
    forall i, j :: 0 <= i < j < |calls| ==> calls[i].now <= calls[j].now
  }

  /** Buckets never run into debt and were last checked no later than any call still to come. */
  lemma {:induction false} NoDebt(l: Limits, calls: seq<Call>, k: nat, ip: string)
    requires l.rate > 0.0 && l.burst >= 0 && Monotone(calls) && k <= |calls|
    ensures var bs := At(l, calls, k);
            ip in bs ==> 0.0 <= bs[ip].tokens && forall j :: k <= j < |calls| ==> bs[ip].lastCheck <= calls[j].now
    decreases k
  {
    if k > 0 {
      NoDebt(l, calls, k - 1, ip);
      var bs, c := At(l, calls, k - 1), calls[k - 1];
      if c.ip == ip && ip in bs { EarnedBetween(l, bs[ip].lastCheck, c.now); }
    }
  }

  /** Waiting never loses tokens, and adds at most what accrues meanwhile. */
  lemma {:induction false} RefillBound(l: Limits, bs: Buckets, ip: string, t: real, u: real)
    requires l.rate > 0.0 && t <= u
    ensures Available(l, bs, ip, t) <= Available(l, bs, ip, u)
    ensures Available(l, bs, ip, u) <= Available(l, bs, ip, t) + (Earned(l, u) - Earned(l, t))
  {
    EarnedBetween(l, t, u);
  }

  /** A call takes one token from its own address when it is allowed, and none otherwise. */
  lemma {:induction false} CallTakes(l: Limits, bs: Buckets, c: Call, ip: string)
    ensures Available(l, After(l, bs, c), ip, c.now)
         == Available(l, bs, ip, c.now) - (if c.ip == ip && Allows(l, bs, c) then 1.0 else 0.0)
  {
  }

  /** Allowed calls are paid for by the tokens at the start and what accrued since. */
  lemma {:induction false} Paid(l: Limits, calls: seq<Call>, i: nat, j: nat, ip: string)
    requires l.rate > 0.0 && Monotone(calls) && i < j <= |calls|
    ensures AllowedBetween(l, calls, i, j, ip) as real + Available(l, At(l, calls, j), ip, calls[j - 1].now)
         <= Available(l, At(l, calls, i), ip, calls[i].now) + (Earned(l, calls[j - 1].now) - Earned(l, calls[i].now))
    decreases j
  {
    var bs, c := At(l, calls, j - 1), calls[j - 1];
    CallTakes(l, bs, c, ip);
    if i < j - 1 {
      Paid(l, calls, i, j - 1, ip);
      RefillBound(l, bs, ip, calls[j - 2].now, c.now);
    } else {
      assert AllowedBetween(l, calls, i, i, ip) == 0;
    }
  }

  lemma {:induction false} NothingWithoutBurst(l: Limits, calls: seq<Call>, i: nat, j: nat, ip: string)
    requires l.burst < 1 && i <= j <= |calls|
    ensures AllowedBetween(l, calls, i, j, ip) == 0
    decreases j
  {
    if i < j { NothingWithoutBurst(l, calls, i, j - 1, ip); }
  }

  lemma {:induction false} WindowEarned(l: Limits, calls: seq<Call>, i: nat, j: nat, ip: string)
    requires l.rate > 0.0 && Monotone(calls) && i < j <= |calls|
    ensures AllowedBetween(l, calls, i, j, ip) as real
         <= (if l.burst < 0 then 0 else l.burst) as real + (Earned(l, calls[j - 1].now) - Earned(l, calls[i].now))
  {
    if l.burst < 0 {
      NothingWithoutBurst(l, calls, i, j, ip);
      EarnedGrows(l, calls[i].now, calls[j - 1].now);
    } else {
      Paid(l, calls, i, j, ip);
      NeverNegative(l, calls, j, ip);
    }
  }

  lemma {:induction false} EarnedGrows(l: Limits, t: real, u: real)
    requires l.rate > 0.0 && t <= u
    ensures Earned(l, t) <= Earned(l, u)
  {
    EarnedBetween(l, t, u);
  }

  /**
   For any address and any calls at non-decreasing times, the calls allowed in a window number at most
   the burst (if positive) plus the rate times the length of the window.
   */
  lemma {:induction false} WindowBound(l: Limits, calls: seq<Call>, i: nat, j: nat, ip: string)
    requires l.rate > 0.0 && Monotone(calls) && i < j <= |calls|
    ensures AllowedBetween(l, calls, i, j, ip) as real
         <= (if l.burst < 0 then 0 else l.burst) as real + (calls[j - 1].now - calls[i].now) * l.rate
  {
    var n, b := AllowedBetween(l, calls, i, j, ip) as real, (if l.burst < 0 then 0 else l.burst) as real;
    var t, u := calls[i].now, calls[j - 1].now;
    assert n <= b + (Earned(l, u) - Earned(l, t)) by { WindowEarned(l, calls, i, j, ip); }
    assert (u - t) * l.rate == Earned(l, u) - Earned(l, t) by { EarnedBetween(l, t, u); }
    AtMost(n, b, Earned(l, u) - Earned(l, t), (u - t) * l.rate);
  }

  lemma {:induction false} AtMost(n: real, b: real, x: real, y: real)
    requires n <= b + x && x == y
    ensures n <= b + y
  {
  }

  lemma {:induction false} NeverNegative(l: Limits, calls: seq<Call>, j: nat, ip: string)
    requires l.rate > 0.0 && l.burst >= 0 && Monotone(calls) && 0 < j <= |calls|
    ensures Available(l, At(l, calls, j), ip, calls[j - 1].now) >= 0.0
  {
    NoDebt(l, calls, j, ip);
    var bs, now := At(l, calls, j), calls[j - 1].now;
    assert l.burst as real >= 0.0;
    if ip in bs {
      LastCheckPast(l, calls, j, ip);
      EarnedBetween(l, bs[ip].lastCheck, now);
    }
  }

  lemma {:induction false} LastCheckPast(l: Limits, calls: seq<Call>, k: nat, ip: string)
    requires Monotone(calls) && 0 < k <= |calls| && ip in At(l, calls, k)
    ensures At(l, calls, k)[ip].lastCheck <= calls[k - 1].now
    decreases k
  {
    if calls[k - 1].ip != ip {
      LastCheckPast(l, calls, k - 1, ip);
    }
  }

  /** A bucket was last checked by an earlier call of its address. */
  lemma {:induction false} CheckedByCall(l: Limits, calls: seq<Call>, k: nat, ip: string) returns (j: nat)
    requires k <= |calls| && ip in At(l, calls, k)
    ensures j < k && calls[j].ip == ip && At(l, calls, k)[ip].lastCheck == calls[j].now
    decreases k
  {
    j := k - 1;
    if calls[j].ip != ip { j := CheckedByCall(l, calls, k - 1, ip); }
  }

  /** With a burst of at least one, a caller whose calls are at least 1/rate apart is never refused. */
  lemma {:induction false} SpacedIsAllowed(l: Limits, calls: seq<Call>, k: nat)
    requires l.rate > 0.0 && l.burst >= 1 && Monotone(calls) && k < |calls|
    requires forall j :: 0 <= j < k && calls[j].ip == calls[k].ip ==> calls[k].now - calls[j].now >= 1.0 / l.rate
    ensures AllowedAt(l, calls, k, calls[k].ip)
  {
    if calls[k].ip in At(l, calls, k) {
      var j := CheckedByCall(l, calls, k, calls[k].ip);
    }
    AllowedAfterPause(l, calls, k);
  }

  /** A call at least 1/rate after the last check of its address is allowed. */
  lemma {:induction false} AllowedAfterPause(l: Limits, calls: seq<Call>, k: nat)
    requires l.rate > 0.0 && l.burst >= 1 && Monotone(calls) && k < |calls|
    requires var bs, c := At(l, calls, k), calls[k]; c.ip in bs ==> c.now - bs[c.ip].lastCheck >= 1.0 / l.rate
    ensures AllowedAt(l, calls, k, calls[k].ip)
  {
    var bs, c := At(l, calls, k), calls[k];
    NoDebt(l, calls, k, c.ip);
    assert l.burst as real >= 1.0;
    if c.ip in bs { OneEarned(l, bs[c.ip].lastCheck, c.now); }
  }

  lemma {:induction false} OneEarned(l: Limits, t: real, u: real)
    requires l.rate > 0.0 && u - t >= 1.0 / l.rate
    ensures Earned(l, u) - Earned(l, t) >= 1.0
  {
    assert (1.0 / l.rate) * l.rate == 1.0;
    NonNegative(u - t - 1.0 / l.rate, l.rate);
    EarnedBetween(l, t, u);
    assert (u - t) * l.rate == (u - t - 1.0 / l.rate) * l.rate + (1.0 / l.rate) * l.rate;
  }

  // ----- a call is refused only when it must be -----

  /** Since some call i the bucket has not been full: it holds the burst, less what was allowed, plus what accrued. */
  lemma {:induction false} FullSince(l: Limits, calls: seq<Call>, k: nat, ip: string) returns (i: nat)
    requires l.rate > 0.0 && Monotone(calls) && k < |calls|
    ensures i <= k
    ensures var n := AllowedBetween(l, calls, i, k, ip);
            Available(l, At(l, calls, k), ip, calls[k].now)
              == l.burst as real - n as real + (Earned(l, calls[k].now) - Earned(l, calls[i].now))
    decreases k
  {
    var bs, u := At(l, calls, k), calls[k].now;
    i := k;
    if Available(l, bs, ip, u) != l.burst as real {
      var t := calls[k - 1].now;
      i := FullSince(l, calls, k - 1, ip);
      CallTakes(l, At(l, calls, k - 1), calls[k - 1], ip);
      Uncapped(l, bs, ip, t, u);
    }
  }

  lemma {:induction false} Uncapped(l: Limits, bs: Buckets, ip: string, t: real, u: real)
    requires l.rate > 0.0 && t <= u && Available(l, bs, ip, u) != l.burst as real
    ensures Available(l, bs, ip, u) == Available(l, bs, ip, t) + (Earned(l, u) - Earned(l, t))
  {
    EarnedBetween(l, t, u);
  }

  /** Allowing call k keeps the bound in the window that starts at call i. */
  predicate WindowAllows(l: Limits, calls: seq<Call>, i: nat, k: nat)
    requires i <= k < |calls|
  {
    AllowedBetween(l, calls, i, k,
        calls[k].ip) as real + 1.0 <= l.burst as real + (calls[k].now - calls[i].now) * l.rate
  }

  lemma {:induction false} AllowedKeepsBound(l: Limits, calls: seq<Call>, i: nat, k: nat)
    requires l.rate > 0.0 && Monotone(calls) && i <= k < |calls| && AllowedAt(l, calls, k, calls[k].ip)
    ensures WindowAllows(l, calls, i, k)
  {
    var ip := calls[k].ip;
    assert l.burst >= 1 by {
      if l.burst < 1 { NothingWithoutBurst(l, calls, k, k + 1, ip); }
    }
    WindowEarned(l, calls, i, k + 1, ip);
    assert AllowedBetween(l, calls, i, k + 1, ip) == AllowedBetween(l, calls, i, k, ip) + 1;
    InEarned(l, calls, i, k);
  }

  lemma {:induction false} InEarned(l: Limits, calls: seq<Call>, i: nat, k: nat)
    requires i <= k < |calls|
    ensures WindowAllows(l, calls, i, k) <==>
              AllowedBetween(l, calls, i, k, calls[k].ip) as real + 1.0
                <= l.burst as real + (Earned(l, calls[k].now) - Earned(l, calls[i].now))
  {
    var n, b, t, u := AllowedBetween(l, calls, i, k, calls[k].ip) as real, l.burst as real, calls[i].now, calls[k].now;
    assert (u - t) * l.rate == Earned(l, u) - Earned(l, t) by { EarnedBetween(l, t, u); }
  }

  lemma {:induction false} RefusedBreaksBound(l: Limits, calls: seq<Call>, k: nat) returns (i: nat)
    requires l.rate > 0.0 && Monotone(calls) && k < |calls| && !AllowedAt(l, calls, k, calls[k].ip)
    ensures i <= k && !WindowAllows(l, calls, i, k)
  {
    i := FullSince(l, calls, k, calls[k].ip);
    InEarned(l, calls, i, k);
  }

  /** A call is allowed exactly when allowing it keeps the bound in every window that ends with it. */
  lemma {:induction false} AllowedIff(l: Limits, calls: seq<Call>, k: nat)
    requires l.rate > 0.0 && Monotone(calls) && k < |calls|
    ensures AllowedAt(l, calls, k, calls[k].ip) <==> forall i: nat :: i <= k ==> WindowAllows(l, calls, i, k)
  {
    if AllowedAt(l, calls, k, calls[k].ip) {
      forall i: nat | i <= k ensures WindowAllows(l, calls, i, k) { AllowedKeepsBound(l, calls, i, k); }
    } else {
      var i := RefusedBreaksBound(l, calls, k);
    }
  }

  /** How many of the calls i, ..., j - 1 came from the address. */
  function CallsBetween(calls: seq<Call>, i: nat, j: nat, ip: string): nat
    requires i <= j <= |calls|
    decreases j
  {
    if i == j then 0 else CallsBetween(calls, i, j - 1, ip) + if calls[j - 1].ip == ip then 1 else 0
  }

  lemma {:induction false} TokensBuyCalls(l: Limits, calls: seq<Call>, i: nat, k: nat, ip: string)
    requires l.rate > 0.0 && Monotone(calls) && i <= k < |calls|
    ensures Available(l, At(l, calls, k), ip, calls[k].now)
         >= Available(l, At(l, calls, i), ip, calls[i].now) - CallsBetween(calls, i, k, ip) as real
    decreases k
  {
    if i < k {
      TokensBuyCalls(l, calls, i, k - 1, ip);
      CallTakes(l, At(l, calls, k - 1), calls[k - 1], ip);
      RefillBound(l, At(l, calls, k), ip, calls[k - 1].now, calls[k].now);
    }
  }

  /** The first calls of an address are allowed, up to the burst, however close together they come. */
  lemma {:induction false} FirstBurstAllowed(l: Limits, calls: seq<Call>, k: nat)
    requires l.rate > 0.0 && Monotone(calls) && k < |calls| && CallsBetween(calls, 0, k, calls[k].ip) < l.burst
    ensures AllowedAt(l, calls, k, calls[k].ip)
  {
    TokensBuyCalls(l, calls, 0, k, calls[k].ip);
  }

  /** The address has not called for at least n / rate before call i. */
  ghost predicate Rested(l: Limits, calls: seq<Call>, i: nat, ip: string, n: nat)
    requires i < |calls|
  {
    forall j :: 0 <= j < i && calls[j].ip == ip ==> (calls[i].now - calls[j].now) * l.rate >= n as real
  }

  lemma {:induction false} RestEarns(l: Limits, calls: seq<Call>, i: nat, ip: string, n: nat, j: nat)
    requires j < i < |calls| && calls[j].ip == ip && Rested(l, calls, i, ip, n)
    ensures Earned(l, calls[i].now) - Earned(l, calls[j].now) >= n as real
  {
    EarnedBetween(l, calls[j].now, calls[i].now);
    assert (calls[i].now - calls[j].now) * l.rate >= n as real;
  }

  lemma {:induction false} RestFills(l: Limits, calls: seq<Call>, i: nat, ip: string, n: nat)
    requires l.rate > 0.0 && Monotone(calls) && i < |calls| && n <= l.burst && Rested(l, calls, i, ip, n)
    ensures Available(l, At(l, calls, i), ip, calls[i].now) >= n as real
  {
    assert l.burst as real >= n as real;
    if ip in At(l, calls, i) {
      var j := CheckedByCall(l, calls, i, ip);
      RestEarns(l, calls, i, ip, n, j);
      NoDebt(l, calls, i, ip);
    }
  }

  /** A pause of n / rate earns n more calls, up to the burst. */
  lemma {:induction false} PauseEarns(l: Limits, calls: seq<Call>, i: nat, k: nat, n: nat)
    requires l.rate > 0.0 && Monotone(calls) && i <= k < |calls| && n <= l.burst && Rested(l, calls, i, calls[k].ip, n)
    requires CallsBetween(calls, i, k, calls[k].ip) < n
    ensures AllowedAt(l, calls, k, calls[k].ip)
  {
    RestFills(l, calls, i, calls[k].ip, n);
    TokensBuyCalls(l, calls, i, k, calls[k].ip);
  }

  // ----- addresses do not affect each other -----

  /** The calls of one address. */
  function Only(calls: seq<Call>, ip: string): seq<Call> {
    if calls == [] then []
    else
      var n := |calls| - 1;
      Only(calls[..n], ip) + if calls[n].ip == ip then [calls[n]] else []
  }

  ghost function BucketOf(bs: Buckets, ip: string): Option<Bucket> {
    if ip in bs then Some(bs[ip]) else None
  }

  lemma {:induction false} AtPrefix(l: Limits, calls: seq<Call>, more: seq<Call>, k: nat)
    requires k <= |calls|
    ensures At(l, calls + more, k) == At(l, calls, k)
  {
    if k > 0 { AtPrefix(l, calls, more, k - 1); }
  }

  /** An address's bucket, and so its next answer, is the one it would have if it were the only caller. */
  lemma {:induction false} Isolation(l: Limits, calls: seq<Call>, ip: string)
    ensures BucketOf(At(l, calls, |calls|), ip) == BucketOf(At(l, Only(calls, ip), |Only(calls, ip)|), ip)
    decreases |calls|
  {
    if calls != [] {
      var n := |calls| - 1;
      var init, c, mine := calls[..n], calls[n], Only(calls[..n], ip);
      Isolation(l, init, ip);
      assert calls == init + [c];
      AtPrefix(l, init, [c], n);
      AtPrefix(l, mine, [c], |mine|);
      OwnBucketOnly(l, At(l, init, n), At(l, mine, |mine|), c, ip);
      assert Only(calls, ip) == if c.ip == ip then mine + [c] else mine;
    }
  }

  lemma {:induction false} OwnBucketOnly(l: Limits, bs: Buckets, other: Buckets, c: Call, ip: string)
    requires BucketOf(bs, ip) == BucketOf(other, ip)
    ensures BucketOf(After(l, bs, c), ip) == BucketOf(if c.ip == ip then After(l, other, c) else other, ip)
  {
  }
}
