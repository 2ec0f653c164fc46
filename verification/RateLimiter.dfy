/** The per-client token bucket and its background cleanup. Times are nanoseconds. */
module RateLimiter {
  import opened Prelude

  datatype Bucket = Bucket(tokens: int, lastCheck: int)

  /** Requests per window; the quotient is the time one token takes to come back. */
  datatype Limits = Limits(rate: int, window: int) {
    ghost predicate Valid() {
      1 <= rate <= window
    }

    function Interval(): (q: int)
      requires Valid()
      ensures q >= 1 && q * rate <= window
    {
      window / rate
    }
  }

  /** The interval is the longest in which the rate fits the window. */
  lemma IntervalIsLongest(l: Limits)
    requires l.Valid()
    ensures l.Interval() * l.rate <= l.window < (l.Interval() + 1) * l.rate
  {
  }

  type Client = nat
  type Buckets = map<Client, Bucket>

  /** Integer division as the source has it, towards zero. */
  function Quotient(a: int, b: int): int
    requires b > 0
  {
    if a >= 0 then a / b else -(-a / b)
  }

  function Refilled(l: Limits, b: Bucket, now: int): int
    requires l.Valid()
  {
    var tokens := b.tokens + Quotient(now - b.lastCheck, l.Interval());
    if tokens > l.rate then l.rate else tokens
  }

  function NextBucket(l: Limits, m: Buckets, ip: Client, now: int): Bucket
    requires l.Valid()
  {
    if ip !in m then Bucket(l.rate - 1, now) else
      var tokens := Refilled(l, m[ip], now);
      Bucket(if tokens > 0 then tokens - 1 else tokens, now)
  }

  predicate Allows(l: Limits, m: Buckets, ip: Client, now: int)
    requires l.Valid()
  {
    ip in m ==> Refilled(l, m[ip], now) > 0
  }

  predicate Stale(l: Limits, b: Bucket, now: int) {
    now - b.lastCheck > 10 * l.window
  }

  function Cleaned(l: Limits, m: Buckets, now: int): Buckets {
    map ip | ip in m && !Stale(l, m[ip], now) :: m[ip]
  }

  class RateLimiter {
    const limits: Limits
    var buckets: Buckets

    constructor (rate: int, window: int)
      ensures limits == Limits(rate, window) && buckets == map[]
    {
      limits, buckets := Limits(rate, window), map[];
    }

    method Allow(ip: Client, now: int) returns (ok: bool)
      requires limits.Valid()
      modifies this
      ensures ok == Allows(limits, old(buckets), ip, now)
      ensures buckets == old(buckets)[ip := NextBucket(limits, old(buckets), ip, now)]
    {
      if ip !in buckets {
        buckets := buckets[ip := Bucket(limits.rate - 1, now)];
        return true;
      }
      var b := buckets[ip];
      var elapsed := now - b.lastCheck;
      var tokens := b.tokens + Quotient(elapsed, limits.Interval());
      if tokens > limits.rate {
        tokens := limits.rate;
      }
      if tokens > 0 {
        buckets := buckets[ip := Bucket(tokens - 1, now)];
        return true;
      }
      buckets := buckets[ip := Bucket(tokens, now)];
      return false;
    }

    /** One tick of the cleanup loop. */
    method Cleanup(now: int)
      modifies this
      ensures buckets == Cleaned(limits, old(buckets), now)
    {
      var rest := buckets.Keys;
      while rest != {}
        invariant rest <= buckets.Keys
        invariant buckets == map ip |
                      ip in old(buckets) && (ip in rest || !Stale(limits, old(buckets)[ip], now)) :: old(buckets)[ip]
        decreases rest
      {
        var ip :| ip in rest;
        if now - buckets[ip].lastCheck > 10 * limits.window {
          buckets := buckets - {ip};
        }
        rest := rest - {ip};
      }
    }
  }

  // ----- runs

  datatype Event = Call(ip: Client, now: int) | Tick(now: int)

  predicate ClockRises(run: seq<Event>) {
    forall i, j | 0 <= i < j < |run| :: run[i].now <= run[j].now
  }

  function After(l: Limits, run: seq<Event>): Buckets
    requires l.Valid()
  {
    if run == [] then map[] else
      var m := After(l, run[..|run| - 1]);
      match run[|run| - 1]
      case Call(ip, now) => m[ip := NextBucket(l, m, ip, now)]
      case Tick(now) => Cleaned(l, m, now)
  }

  /** The same calls on a limiter that never cleans up. */
  function AfterKept(l: Limits, run: seq<Event>): Buckets
    requires l.Valid()
  {
    if run == [] then map[] else
      var m := AfterKept(l, run[..|run| - 1]);
      match run[|run| - 1]
      case Call(ip, now) => m[ip := NextBucket(l, m, ip, now)]
      case Tick(now) => m
  }

  /** The answer to call k of a run. */
  predicate Answer(l: Limits, run: seq<Event>, k: nat)
    requires l.Valid() && k < |run| && run[k].Call?
  {
    Allows(l, After(l, run[..k]), run[k].ip, run[k].now)
  }

  predicate AnswerKept(l: Limits, run: seq<Event>, k: nat)
    requires l.Valid() && k < |run| && run[k].Call?
  {
    Allows(l, AfterKept(l, run[..k]), run[k].ip, run[k].now)
  }

  /** A clock that steps back takes away what the same step forward gives. */
  lemma QuotientIsOdd(a: int, b: int)
    requires b > 0
    ensures Quotient(-a, b) == -Quotient(a, b)
  {
  }

  lemma QuotientBounds(a: int, q: int)
    requires q >= 1 && a >= 0
    ensures a / q * q <= a < a / q * q + q && a / q >= 0
  {
  }

  lemma QuotientsAdd(a: int, b: int, q: int)
    requires q >= 1 && a >= 0 && b >= 0
    ensures a / q + b / q <= (a + b) / q
  {
    QuotientBounds(a, q);
    QuotientBounds(b, q);
    MulSum(a / q, b / q, q);
    QuotientBelow(a + b, q, a / q + b / q);
  }

  /** Some event of the run happened at that time. */
  predicate SeenAt(run: seq<Event>, time: int) {
    exists k :: 0 <= k < |run| && run[k].now == time
  }

  /** Tokens always stay within [0, rate], and a bucket was last checked by some past event. */
  lemma {:induction false} TokensStayInRange(l: Limits, run: seq<Event>)
    requires l.Valid() && ClockRises(run)
    ensures forall ip | ip in AfterKept(l, run) ::
              0 <= AfterKept(l, run)[ip].tokens <= l.rate && SeenAt(run, AfterKept(l, run)[ip].lastCheck)
  {
    if run != [] {
      var before, last := run[..|run| - 1], run[|run| - 1];
      TokensStayInRange(l, before);
      var m := AfterKept(l, before);
      assert SeenAt(run, last.now);
      forall ip | ip in m ensures SeenAt(run, m[ip].lastCheck) {
        var k :| 0 <= k < |before| && before[k].now == m[ip].lastCheck;
        assert run[k].now == m[ip].lastCheck;
      }
      if last.Call? && last.ip in m {
        NextInRange(l, m, last.ip, last.now);
      }
    }
  }

  lemma NextInRange(l: Limits, m: Buckets, ip: Client, now: int)
    requires l.Valid() && ip in m && 0 <= m[ip].tokens <= l.rate && m[ip].lastCheck <= now
    ensures 0 <= NextBucket(l, m, ip, now).tokens <= l.rate
  {
  }

  // ----- cleanup is invisible

  /** Forgetting a bucket is invisible to its next call exactly when the pause has refilled it. */
  lemma ForgettingIsInvisible(l: Limits, m: Buckets, ip: Client, now: int)
    requires l.Valid() && ip in m && 0 <= m[ip].tokens <= l.rate && m[ip].lastCheck <= now
    ensures NextBucket(l, m, ip, now) == NextBucket(l, m - {ip}, ip, now)
              && Allows(l, m, ip, now) == Allows(l, m - {ip}, ip, now)
        <==> m[ip].tokens + (now - m[ip].lastCheck) / l.Interval() >= l.rate
  {
  }

  /** A stale bucket has been refilled, whatever it held. */
  lemma StaleIsFull(l: Limits, b: Bucket, now: int)
    requires l.Valid() && 0 <= b.tokens && Stale(l, b, now)
    ensures b.tokens + (now - b.lastCheck) / l.Interval() >= l.rate
  {
    var q := l.Interval();
    QuotientBelow(now - b.lastCheck, q, l.rate);
    assert l.rate * q == q * l.rate;
  }

  /** The cleaning limiter holds what the other holds, less buckets stale at some past tick. */
  ghost predicate Forgets(l: Limits, m: Buckets, kept: Buckets, clock: int) {
    && (forall ip | ip in m :: ip in kept && m[ip] == kept[ip])
    && (forall ip | ip in kept && ip !in m :: Stale(l, kept[ip], clock))
  }

  lemma {:induction false} CleanupOnlyForgets(l: Limits, run: seq<Event>, clock: int)
    requires l.Valid() && ClockRises(run)
    requires forall k | 0 <= k < |run| :: run[k].now <= clock
    ensures Forgets(l, After(l, run), AfterKept(l, run), clock)
  {
    if run != [] {
      var before, last := run[..|run| - 1], run[|run| - 1];
      CleanupOnlyForgets(l, before, last.now);
      var m, kept := After(l, before), AfterKept(l, before);
      if last.Call? {
        SameAnswer(l, before, last.ip, last.now);
      }
    }
  }

  lemma SameAnswer(l: Limits, run: seq<Event>, ip: Client, now: int)
    requires l.Valid() && ClockRises(run)
    requires forall k | 0 <= k < |run| :: run[k].now <= now
    requires Forgets(l, After(l, run), AfterKept(l, run), now)
    ensures NextBucket(l, After(l, run), ip, now) == NextBucket(l, AfterKept(l, run), ip, now)
    ensures Allows(l, After(l, run), ip, now) == Allows(l, AfterKept(l, run), ip, now)
  {
    var m, kept := After(l, run), AfterKept(l, run);
    if ip in kept && ip !in m {
      TokensStayInRange(l, run);
      StaleIsFull(l, kept[ip], now);
      ForgettingIsInvisible(l, kept, ip, now);
    }
  }

  /** For every interleaving of calls and cleanup ticks on a rising clock, every answer is the one
      that a limiter without cleanup gives. */
  lemma CleanupIsInvisible(l: Limits, run: seq<Event>, k: nat)
    requires l.Valid() && ClockRises(run) && k < |run| && run[k].Call?
    ensures Answer(l, run, k) == AnswerKept(l, run, k)
  {
    CleanupOnlyForgets(l, run[..k], run[k].now);
    SameAnswer(l, run[..k], run[k].ip, run[k].now);
  }

  // ----- the amortised bound

  /** How many calls from ip were allowed among events lo .. hi - 1. */
  function Granted(l: Limits, run: seq<Event>, ip: Client, lo: nat, hi: nat): nat
    requires l.Valid() && lo <= hi <= |run|
    decreases hi
  {
    if lo == hi then 0 else
      Granted(l, run, ip, lo, hi - 1)
      + if run[hi - 1].Call? && run[hi - 1].ip == ip && Answer(l, run, hi - 1) then 1 else 0
  }

  predicate Called(run: seq<Event>, ip: Client, lo: nat, hi: nat)
    requires lo <= hi <= |run|
  {
    exists k :: lo <= k < hi && run[k].Call? && run[k].ip == ip
  }

  lemma ClockOrder(run: seq<Event>, j: nat, k: nat)
    requires ClockRises(run) && j <= k < |run|
    ensures run[j].now <= run[k].now
  {
  }

  /** Before event k, every bucket is in range and was last checked no later than k. */
  lemma BucketsAreSane(l: Limits, run: seq<Event>, k: nat)
    requires l.Valid() && ClockRises(run) && k < |run|
    ensures forall ip | ip in AfterKept(l, run[..k]) ::
              0 <= AfterKept(l, run[..k])[ip].tokens <= l.rate && AfterKept(l, run[..k])[ip].lastCheck <= run[k].now
  {
    TokensStayInRange(l, run[..k]);
  }

  /** Grants plus tokens left never outgrow one full bucket and what the stretch has refilled. */
  predicate WithinBudget(l: Limits, granted: nat, b: Bucket, start: int)
    requires l.Valid()
  {
    start <= b.lastCheck && granted + b.tokens <= l.rate + (b.lastCheck - start) / l.Interval()
  }

  lemma {:induction false} GrantsAndTokens(l: Limits, run: seq<Event>, ip: Client, lo: nat, hi: nat)
    requires l.Valid() && ClockRises(run) && lo <= hi <= |run|
    ensures !Called(run, ip, lo, hi) ==> Granted(l, run, ip, lo, hi) == 0
    ensures Called(run, ip, lo, hi) ==>
              var kept := AfterKept(l, run[..hi]);
              ip in kept && WithinBudget(l, Granted(l, run, ip, lo, hi), kept[ip], run[lo].now)
    decreases hi
  {
    if lo != hi {
      hide WithinBudget, NextBucket, Allows, Limits.Interval, ClockRises;
      GrantsAndTokens(l, run, ip, lo, hi - 1);
      var before, last := run[..hi - 1], run[hi - 1];
      assert run[..hi][..hi - 1] == before;
      assert Called(run, ip, lo, hi - 1) ==> Called(run, ip, lo, hi);
      if last.Call? && last.ip == ip {
        CleanupIsInvisible(l, run, hi - 1);
        BucketsAreSane(l, run, hi - 1);
        ClockOrder(run, lo, hi - 1);
        GrantStep(l, AfterKept(l, before), ip, last.now, run[lo].now,
                  Granted(l, run, ip, lo, hi - 1), Called(run, ip, lo, hi - 1));
      }
    }
  }

  lemma GrantStep(l: Limits, m: Buckets, ip: Client, now: int, start: int, granted: nat, called: bool)
    requires l.Valid() && start <= now
    requires ip in m ==> 0 <= m[ip].tokens <= l.rate && m[ip].lastCheck <= now
    requires !called ==> granted == 0
    requires called ==> ip in m && WithinBudget(l, granted, m[ip], start)
    ensures WithinBudget(l, granted + (if Allows(l, m, ip, now) then 1 else 0), NextBucket(l, m, ip, now), start)
  {
    var q := l.Interval();
    QuotientBounds(now - start, q);
    if called {
      QuotientsAdd(m[ip].lastCheck - start, now - m[ip].lastCheck, q);
    }
  }

  /** Whatever happens between two events, a client is allowed at most one full bucket plus one
      call for each whole interval between them. */
  lemma GrantsAreBounded(l: Limits, run: seq<Event>, ip: Client, lo: nat, hi: nat)
    requires l.Valid() && ClockRises(run) && lo < hi <= |run|
    ensures Granted(l, run, ip, lo, hi) <= l.rate + (run[hi - 1].now - run[lo].now) / l.Interval()
  {
    hide NextBucket, Allows, Limits.Interval;
    GrantsAndTokens(l, run, ip, lo, hi);
    TokensStayInRange(l, run[..hi]);
    var q := l.Interval();
    QuotientBounds(run[hi - 1].now - run[lo].now, q);
    if Called(run, ip, lo, hi) {
      var last := AfterKept(l, run[..hi])[ip].lastCheck;
      QuotientsAdd(last - run[lo].now, run[hi - 1].now - last, q);
      QuotientBounds(run[hi - 1].now - last, q);
    }
  }

  // ----- who is refused

  predicate CallOf(run: seq<Event>, ip: Client, k: nat) {
    k < |run| && run[k].Call? && run[k].ip == ip
  }

  /** Event j is the client's last call before event k. */
  predicate LastCall(run: seq<Event>, ip: Client, j: nat, k: nat)
    requires j < k < |run|
  {
    CallOf(run, ip, j) && forall i | j < i < k :: !CallOf(run, ip, i)
  }

  lemma {:induction false} BucketAtLastCall(l: Limits, run: seq<Event>, ip: Client, j: nat, k: nat)
    requires l.Valid() && j < k < |run| && LastCall(run, ip, j, k)
    ensures ip in AfterKept(l, run[..k])
    ensures AfterKept(l, run[..k])[ip] == NextBucket(l, AfterKept(l, run[..j]), ip, run[j].now)
    decreases k
  {
    assert run[..k][..k - 1] == run[..k - 1];
    if k > j + 1 {
      assert !CallOf(run, ip, k - 1);
      assert LastCall(run, ip, j, k - 1);
      BucketAtLastCall(l, run, ip, j, k - 1);
    }
  }

  /** A client that leaves one interval between calls is never refused. */
  lemma SpacedCallIsAllowed(l: Limits, run: seq<Event>, j: nat, k: nat)
    requires l.Valid() && ClockRises(run) && j < k < |run|
    requires run[k].Call? && LastCall(run, run[k].ip, j, k)
    requires run[k].now - run[j].now >= l.Interval()
    ensures Answer(l, run, k)
  {
    var ip := run[k].ip;
    CleanupIsInvisible(l, run, k);
    BucketAtLastCall(l, run, ip, j, k);
    TokensStayInRange(l, run[..k]);
    QuotientBelow(run[k].now - run[j].now, l.Interval(), 1);
  }

  /** After a refusal the next call is allowed exactly when a whole interval has passed: refusals
      restart the wait, so a client that keeps retrying sooner is refused for ever. */
  lemma RefusalRestartsWait(l: Limits, run: seq<Event>, j: nat, k: nat)
    requires l.Valid() && ClockRises(run) && j < k < |run|
    requires run[k].Call? && LastCall(run, run[k].ip, j, k)
    requires !Answer(l, run, j)
    ensures Answer(l, run, k) <==> run[k].now - run[j].now >= l.Interval()
  {
    var ip := run[k].ip;
    CleanupIsInvisible(l, run, j);
    CleanupIsInvisible(l, run, k);
    BucketAtLastCall(l, run, ip, j, k);
    TokensStayInRange(l, run[..k]);
    QuotientBelow(run[k].now - run[j].now, l.Interval(), 1);
  }

  // ----- exactly who is allowed

  /** The client's last call before event k. */
  function Previous(run: seq<Event>, ip: Client, k: nat): (j: Option<nat>)
    requires k <= |run|
    ensures j.Some? ==> j.value < k && CallOf(run, ip, j.value) && forall i | j.value < i < k :: !CallOf(run, ip, i)
    ensures j.None? ==> forall i | 0 <= i < k :: !CallOf(run, ip, i)
  {
    if k == 0 then None else if CallOf(run, ip, k - 1) then Some(k - 1) else Previous(run, ip, k - 1)
  }

  /** The tokens that come back to a client from its call j to its call k, one for each whole interval
      between two calls. */
  function Regained(l: Limits, run: seq<Event>, ip: Client, j: nat, k: nat): int
    requires l.Valid() && j <= k && CallOf(run, ip, j) && CallOf(run, ip, k)
    decreases k
  {
    if j == k then 0 else
      var i := Previous(run, ip, k).value;
      Regained(l, run, ip, j, i) + (run[k].now - run[i].now) / l.Interval()
  }

  /** What the bucket holds when call k comes. */
  function TokensFor(l: Limits, run: seq<Event>, k: nat): int
    requires l.Valid() && k < |run| && run[k].Call?
  {
    Held(l, AfterKept(l, run[..k]), run[k].ip, run[k].now)
  }

  /** A full bucket at call j, less the calls allowed since, plus the tokens regained. */
  function Left(l: Limits, run: seq<Event>, ip: Client, j: nat, k: nat): int
    requires l.Valid() && j <= k && CallOf(run, ip, j) && CallOf(run, ip, k)
  {
    l.rate - Granted(l, run, ip, j, k) + Regained(l, run, ip, j, k)
  }

  lemma {:induction false} NoCallNoBucket(l: Limits, run: seq<Event>, ip: Client, k: nat)
    requires l.Valid() && k <= |run| && Previous(run, ip, k).None?
    ensures ip !in AfterKept(l, run[..k])
  {
    if k > 0 {
      assert run[..k][..k - 1] == run[..k - 1];
      assert !CallOf(run, ip, k - 1);
      NoCallNoBucket(l, run, ip, k - 1);
    }
  }

  /** Between two calls of a client nothing is granted to it but the first of them. */
  lemma {:induction false} GrantedSince(l: Limits, run: seq<Event>, ip: Client, j: nat, i: nat, k: nat)
    requires l.Valid() && j <= i < k <= |run| && Previous(run, ip, k) == Some(i)
    ensures Granted(l, run, ip, j, k) == Granted(l, run, ip, j, i) + if Answer(l, run, i) then 1 else 0
    decreases k
  {
    hide Answer;
    if i < k - 1 {
      assert !CallOf(run, ip, k - 1);
      GrantedSince(l, run, ip, j, i, k - 1);
    }
  }

  function Held(l: Limits, m: Buckets, ip: Client, now: int): int
    requires l.Valid()
  {
    if ip in m then Refilled(l, m[ip], now) else l.rate
  }

  lemma HeldSince(l: Limits, m: Buckets, ip: Client, now: int, later: int)
    requires l.Valid() && now <= later
    ensures Allows(l, m, ip, now) <==> Held(l, m, ip, now) > 0
    ensures var held := Held(l, m, ip, now) - (if Allows(l, m, ip, now) then 1 else 0) + (later - now) / l.Interval();
            Refilled(l, NextBucket(l, m, ip, now), later) == if held > l.rate then l.rate else held
  {
    hide Limits.Interval;
  }

  /** The call takes one token if there is one, and the pause gives back the whole intervals in it, up
      to a full bucket. */
  lemma TokensSince(l: Limits, run: seq<Event>, i: nat, k: nat)
    requires l.Valid() && ClockRises(run) && k < |run| && run[k].Call? && Previous(run, run[k].ip, k) == Some(i)
    ensures var held := TokensFor(l, run, i) - (if Answer(l, run, i) then 1 else 0)
                        + (run[k].now - run[i].now) / l.Interval();
            TokensFor(l, run, k) == if held > l.rate then l.rate else held
  {
    hide Limits.Interval, NextBucket, Refilled, AfterKept, Allows, ClockRises;
    var ip := run[k].ip;
    CleanupIsInvisible(l, run, i);
    assert LastCall(run, ip, i, k);
    BucketAtLastCall(l, run, ip, i, k);
    ClockOrder(run, i, k);
    HeldSince(l, AfterKept(l, run[..i]), ip, run[i].now, run[k].now);
  }

  /** The bucket holds the least of what is left since any earlier call. */
  lemma {:induction false} TokensAreLeast(l: Limits, run: seq<Event>, ip: Client, k: nat) returns (least: nat)
    requires l.Valid() && ClockRises(run) && CallOf(run, ip, k)
    ensures least <= k && CallOf(run, ip, least) && TokensFor(l, run, k) == Left(l, run, ip, least, k)
    ensures forall j | 0 <= j <= k && CallOf(run, ip, j) :: TokensFor(l, run, k) <= Left(l, run, ip, j, k)
    decreases k
  {
    hide TokensFor, Answer;
    if Previous(run, ip, k).None? {
      FirstIsFull(l, run, ip, k);
      least := k;
    } else {
      var i := Previous(run, ip, k).value;
      least := TokensAreLeast(l, run, ip, i);
      TokensSince(l, run, i, k);
      forall j | 0 <= j <= k && CallOf(run, ip, j) ensures TokensFor(l, run, k) <= Left(l, run, ip, j, k) {
        if j < k {
          GrantedSince(l, run, ip, j, i, k);
        }
      }
      GrantedSince(l, run, ip, least, i, k);
      if TokensFor(l, run, k) == l.rate {
        least := k;
      }
    }
  }

  lemma FirstIsFull(l: Limits, run: seq<Event>, ip: Client, k: nat)
    requires l.Valid() && CallOf(run, ip, k) && Previous(run, ip, k).None?
    ensures TokensFor(l, run, k) == l.rate
  {
    NoCallNoBucket(l, run, ip, k);
  }

  lemma AnswerIsTokens(l: Limits, run: seq<Event>, k: nat)
    requires l.Valid() && ClockRises(run) && k < |run| && run[k].Call?
    ensures Answer(l, run, k) <==> TokensFor(l, run, k) > 0
  {
    CleanupIsInvisible(l, run, k);
  }

  /** The limiter without buckets: on a rising clock, a call is allowed exactly when, since each earlier
      call of its client and itself, fewer calls were allowed than a full bucket and what came back. */
  lemma AllowedExactly(l: Limits, run: seq<Event>, ip: Client, k: nat)
    requires l.Valid() && ClockRises(run) && CallOf(run, ip, k)
    ensures Answer(l, run, k) <==>
              forall j | 0 <= j <= k && CallOf(run, ip, j) ::
                Granted(l, run, ip, j, k) < l.rate + Regained(l, run, ip, j, k)
  {
    hide TokensFor, Granted, Regained, Answer;
    AnswerIsTokens(l, run, k);
    var least := TokensAreLeast(l, run, ip, k);
    assert Left(l, run, ip, least, k) == TokensFor(l, run, k);
    forall j | 0 <= j <= k && CallOf(run, ip, j) ensures TokensFor(l, run, k) <= Left(l, run, ip, j, k) {
    }
  }

  lemma {:induction false} RegainedIsNonNegative(l: Limits, run: seq<Event>, ip: Client, j: nat, k: nat)
    requires l.Valid() && ClockRises(run) && j <= k && CallOf(run, ip, j) && CallOf(run, ip, k)
    ensures Regained(l, run, ip, j, k) >= 0
    decreases k
  {
    if j < k {
      var i := Previous(run, ip, k).value;
      RegainedIsNonNegative(l, run, ip, j, i);
      QuotientBounds(run[k].now - run[i].now, l.Interval());
    }
  }

  lemma {:induction false} GrantedFromStart(l: Limits, run: seq<Event>, ip: Client, j: nat, k: nat)
    requires l.Valid() && j <= k <= |run|
    ensures Granted(l, run, ip, j, k) <= Granted(l, run, ip, 0, k)
    decreases k
  {
    hide Answer;
    if j < k {
      GrantedFromStart(l, run, ip, j, k - 1);
    }
  }

  /** A client that has not used up its rate is never refused, however fast it calls. */
  lemma RateIsGuaranteed(l: Limits, run: seq<Event>, k: nat)
    requires l.Valid() && ClockRises(run) && k < |run| && run[k].Call?
    requires Granted(l, run, run[k].ip, 0, k) < l.rate
    ensures Answer(l, run, k)
  {
    var ip := run[k].ip;
    AllowedExactly(l, run, ip, k);
    forall j | 0 <= j <= k && CallOf(run, ip, j)
      ensures Granted(l, run, ip, j, k) < l.rate + Regained(l, run, ip, j, k)
    {
      GrantedFromStart(l, run, ip, j, k);
      RegainedIsNonNegative(l, run, ip, j, k);
    }
  }

  // ----- who is remembered

  ghost predicate Recent(l: Limits, run: seq<Event>, ip: Client, now: int) {
    exists k: nat :: CallOf(run, ip, k) && now - run[k].now <= 10 * l.window
  }

  /** A tick leaves buckets for exactly the clients that called within the last ten windows. */
  lemma TickKeepsRecent(l: Limits, run: seq<Event>, ip: Client, now: int)
    requires l.Valid() && ClockRises(run + [Tick(now)])
    ensures ip in After(l, run + [Tick(now)]) <==> Recent(l, run, ip, now)
  {
    hide NextBucket, AfterKept, Forgets, Cleaned, Recent;
    var ticked := run + [Tick(now)];
    assert ticked[..|run|] == run;
    assert forall k | 0 <= k < |run| :: ticked[k] == run[k] && run[k].now <= ticked[|run|].now;
    assert ClockRises(run);
    CleanupOnlyForgets(l, run, now);
    var last := Previous(run, ip, |run|);
    if last.None? {
      assert run[..|run|] == run;
      NoCallNoBucket(l, run, ip, |run|);
      OnlyCallersHaveBuckets(l, run, ip, now);
      NoCallIsNotRecent(l, run, ip, now);
    } else {
      LastCheckIsLastCall(l, ticked, ip, last.value);
      KeptUnlessStale(l, run, ip, now);
      LastCallDecides(l, run, ip, now);
    }
  }

  lemma NoCallIsNotRecent(l: Limits, run: seq<Event>, ip: Client, now: int)
    requires Previous(run, ip, |run|).None?
    ensures !Recent(l, run, ip, now)
  {
  }

  lemma LastCallDecides(l: Limits, run: seq<Event>, ip: Client, now: int)
    requires ClockRises(run) && Previous(run, ip, |run|).Some?
    ensures Recent(l, run, ip, now) <==> now - run[Previous(run, ip, |run|).value].now <= 10 * l.window
  {
    var j := Previous(run, ip, |run|).value;
    if Recent(l, run, ip, now) {
      var k: nat :| CallOf(run, ip, k) && now - run[k].now <= 10 * l.window;
      assert k <= j;
      ClockOrder(run, k, j);
    }
  }

  lemma LastCheckIsLastCall(l: Limits, run: seq<Event>, ip: Client, j: nat)
    requires l.Valid() && run != [] && Previous(run[..|run| - 1], ip, |run| - 1) == Some(j)
    ensures var m := AfterKept(l, run[..|run| - 1]); ip in m && m[ip].lastCheck == run[j].now
  {
    hide Previous;
    var k := |run| - 1;
    assert CallOf(run[..k], ip, j) && forall i: nat | j < i < k :: !CallOf(run[..k], ip, i);
    assert forall i: nat | j < i < k :: CallOf(run, ip, i) == CallOf(run[..k], ip, i);
    assert LastCall(run, ip, j, k);
    BucketAtLastCall(l, run, ip, j, k);
  }

  lemma OnlyCallersHaveBuckets(l: Limits, run: seq<Event>, ip: Client, now: int)
    requires l.Valid() && Forgets(l, After(l, run), AfterKept(l, run), now) && ip !in AfterKept(l, run)
    ensures ip !in Cleaned(l, After(l, run), now)
  {
  }

  lemma KeptUnlessStale(l: Limits, run: seq<Event>, ip: Client, now: int)
    requires l.Valid() && Forgets(l, After(l, run), AfterKept(l, run), now) && ip in AfterKept(l, run)
    ensures ip in Cleaned(l, After(l, run), now) <==> now - AfterKept(l, run)[ip].lastCheck <= 10 * l.window
  {
  }
}
