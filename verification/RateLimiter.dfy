/** The fixed-window rate limiter of internal/httpapi/server.go. */
module RateLimiter {
  import opened Basics

  datatype RateBucket = RateBucket(count: nat, resetAt: Time)

  /** What a map lookup yields for a key that was never used. */
  const ZERO_BUCKET := RateBucket(0, 0)

  /** The bucket a call at `now` is judged by: an unused or elapsed one is reopened. */
  function Opened(b: RateBucket, window: nat, now: Instant): RateBucket {
    if b.resetAt == 0 || b.resetAt < now then RateBucket(0, now + window) else b
  }

  predicate Grants(b: RateBucket, limit: int, window: nat, now: Instant) {
    Opened(b, window, now).count < limit
  }

  function After(b: RateBucket, limit: int, window: nat, now: Instant): RateBucket {
    var o := Opened(b, window, now);
    if o.count < limit then o.(count := o.count + 1) else o
  }

  /** The wait announced by a denial, measured at the second clock reading `later`. */
  function RetryAfter(b: RateBucket, window: nat, now: Instant, later: Instant): nat {
    var o := Opened(b, window, now);
    if later < o.resetAt then o.resetAt - later else 0
  }

  // ------------------------------------------------------------------ runs

  datatype Call = Call(key: string, at: Instant)

  ghost predicate Ordered(calls: seq<Call>) {
    forall i, j :: 0 <= i < j < |calls| ==> calls[i].at <= calls[j].at
  }

  /** The bucket of `key` after a run of calls for any keys. */
  function BucketAfter(limit: int, window: nat, calls: seq<Call>, key: string): RateBucket {
    if calls == [] then ZERO_BUCKET
    else
      var before := BucketAfter(limit, window, calls[..|calls| - 1], key);
      var call := calls[|calls| - 1];
      if call.key == key then After(before, limit, window, call.at) else before
  }

  /** How many calls for `key` the run granted at instants in the closed interval [from, to]. */
  function Granted(limit: int, window: nat, calls: seq<Call>, key: string, from: int, to: int): nat {
    if calls == [] then 0
    else
      var init := calls[..|calls| - 1];
      var call := calls[|calls| - 1];
      Granted(limit, window, init, key, from, to)
      + if call.key == key && from <= call.at <= to
           && Grants(BucketAfter(limit, window, init, key), limit, window, call.at) then 1 else 0
  }

  lemma StillOrdered(calls: seq<Call>, call: Call)
    requires Ordered(calls) && forall c <- calls :: c.at <= call.at
    ensures Ordered(calls + [call])
  {
  }

  lemma OneMore(limit: int, window: nat, calls: seq<Call>, call: Call, key: string, from: int, to: int)
    ensures var before := BucketAfter(limit, window, calls, key);
            var granted := call.key == key && from <= call.at <= to && Grants(before, limit, window, call.at);
            && BucketAfter(limit, window, calls + [call], key)
            == (if call.key == key then After(before, limit, window, call.at) else before)
            && Granted(limit, window, calls + [call], key, from, to)
            == Granted(limit, window, calls, key, from, to) + if granted then 1 else 0
  {
    var run := calls + [call];
    assert run[..|run| - 1] == calls;
  }

  class SimpleRateLimiter {
    const limit: int
    const window: nat
    var bucketByK: map<string, RateBucket>
    /** Every call so far: the run that the bounds below speak about. */
    ghost var history: seq<Call>

    function Bucket(key: string): RateBucket
      reads this
    {
      if key in bucketByK then bucketByK[key] else ZERO_BUCKET
    }

    ghost predicate Valid()
      reads this
    {
      Ordered(history) && forall key :: Bucket(key) == BucketAfter(limit, window, history, key)
    }

    constructor (limit: int, window: nat)
      ensures Valid() && history == [] && this.limit == limit && this.window == window
    {
      this.limit := limit;
      this.window := window;
      bucketByK := map[];
      history := [];
    }

    /** `now` is read first; a denial reads the clock again, `later`, to announce the wait. */
    method Allow(key: string, now: Instant, later: Instant) returns (granted: bool, retryAfter: nat)
      requires Valid() && now <= later
      requires forall c <- history :: c.at <= now
      modifies this
      ensures Valid() && history == old(history) + [Call(key, now)]
      ensures granted == Grants(old(Bucket(key)), limit, window, now)
      ensures bucketByK == old(bucketByK)[key := After(old(Bucket(key)), limit, window, now)]
      ensures retryAfter == if granted then 0 else RetryAfter(old(Bucket(key)), window, now, later)
    {
      forall k ensures BucketAfter(limit, window, history + [Call(key, now)], k)
                    == if k == key then After(Bucket(key), limit, window, now) else Bucket(k) {
        OneMore(limit, window, history, Call(key, now), k, 0, 0);
      }
      StillOrdered(history, Call(key, now));
      history := history + [Call(key, now)];
      var b := Bucket(key);
      if b.resetAt == 0 || b.resetAt < now {
        b := RateBucket(0, now + window);
      }
      if b.count >= limit {
        retryAfter := if b.resetAt - later < 0 then 0 else b.resetAt - later;
        bucketByK := bucketByK[key := b];
        return false, retryAfter;
      }
      b := b.(count := b.count + 1);
      bucketByK := bucketByK[key := b];
      return true, 0;
    }
  }

  // ---------------------------------------------------- the sliding bound

  lemma {:induction false} NothingBefore(limit: int, window: nat, calls: seq<Call>, key: string, from: int, to: int)
    requires forall c <- calls :: c.at < from
    ensures Granted(limit, window, calls, key, from, to) == 0
  {
    if calls != [] {
      NothingBefore(limit, window, calls[..|calls| - 1], key, from, to);
    }
  }

  /** `n` grants since `start`, of which `m` buckets were opened since then: consecutive openings are more
      than a window apart, a bucket opened earlier spent its first grant before `start`. */
  ghost predicate Spent(b: RateBucket, n: nat, m: nat, limit: int, window: nat, start: int, to: int) {
    if b.resetAt == 0 then n == 0
    else
      var openedAt := b.resetAt - window;
      && 1 <= b.count <= limit && openedAt <= to
      && if openedAt < start then n <= b.count - 1
         else m >= 1 && openedAt >= start + (m - 1) * window && (m >= 2 ==> openedAt > start + (m - 1) * window)
              && n <= m * limit - 1 + b.count
  }

  lemma {:induction false} GrantsPerBucket(limit: int, window: nat, calls: seq<Call>, key: string, start: int, to: int)
      returns (m: nat)
    requires limit >= 1 && Ordered(calls)
    requires forall c <- calls :: c.at <= to
    ensures Spent(BucketAfter(limit, window, calls, key), Granted(limit, window, calls, key, start, to), m,
                  limit, window, start, to)
  {
    m := 0;
    if calls != [] {
      var init, call := calls[..|calls| - 1], calls[|calls| - 1];
      m := GrantsPerBucket(limit, window, init, key, start, to);
      var b := BucketAfter(limit, window, init, key);
      if call.key == key {
        if call.at < start {
          NothingBefore(limit, window, calls, key, start, to);
        }
        if b.resetAt == 0 || b.resetAt < call.at {
          if b.resetAt == 0 || b.resetAt - window < start {
            m := 1;
          } else {
            assert call.at > start + m * window by {
              assert (m - 1) * window + window == m * window;
            }
            assert (m + 1) * limit == m * limit + limit;
            m := m + 1;
          }
        }
      }
    }
  }

  /** Any closed interval of `k` windows holds at most (k + 1) * limit - 1 grants for one key. */
  lemma {:induction false} SlidingBound(limit: int, window: nat, calls: seq<Call>, key: string, start: int, k: int)
    requires limit >= 1 && k >= 1 && Ordered(calls)
    ensures Granted(limit, window, calls, key, start, start + k * window) <= (k + 1) * limit - 1
  {
    var to := start + k * window;
    if calls != [] && calls[|calls| - 1].at > to {
      SlidingBound(limit, window, calls[..|calls| - 1], key, start, k);
    } else {
      var m := GrantsPerBucket(limit, window, calls, key, start, to);
      var b := BucketAfter(limit, window, calls, key);
      if b.resetAt == 0 || b.resetAt - window < start {
        assert limit <= (k + 1) * limit by { Scale(1, k + 1, limit); }
      } else {
        if m > k { Scale(k, m - 1, window); }
        Scale(m, k, limit);
        assert (k + 1) * limit == k * limit + limit;
      }
    }
  }

  lemma Scale(a: int, b: int, c: nat)
    requires a <= b
    ensures a * c <= b * c
  {
  }

  // ------------------------------------------------------------ tightness

  function Burst(key: string, at: Instant, n: nat): seq<Call> {
    seq(n, _ => Call(key, at))
  }

  /** `n` calls at one instant on a bucket with room for them are all granted. */
  lemma {:induction false} BurstGranted(limit: int, window: nat, calls: seq<Call>, key: string, o: RateBucket,
                                        at: Instant, n: nat, from: int, to: int)
    requires n >= 1 && from <= at <= to && o.count + n <= limit && at <= o.resetAt
    requires Opened(BucketAfter(limit, window, calls, key), window, at) == o
    ensures BucketAfter(limit, window, calls + Burst(key, at, n), key) == RateBucket(o.count + n, o.resetAt)
    ensures Granted(limit, window, calls + Burst(key, at, n), key, from, to)
         == Granted(limit, window, calls, key, from, to) + n
    decreases n
  {
    var init := calls + Burst(key, at, n - 1);
    assert calls + Burst(key, at, n) == init + [Call(key, at)];
    if n == 1 {
      assert init == calls;
    } else {
      BurstGranted(limit, window, calls, key, o, at, n - 1, from, to);
    }
    OneMore(limit, window, init, Call(key, at), key, from, to);
  }

  /** One grant at instant 1, limit - 1 more when its window ends, then `k` full buckets, each opened one
      tick after the previous one elapsed. */
  function WorstRun(limit: int, window: nat, key: string, k: nat): seq<Call>
    requires limit >= 1
  {
    if k == 0 then [Call(key, 1)] + Burst(key, 1 + window, limit - 1)
    else WorstRun(limit, window, key, k - 1) + Burst(key, Opening(window, k), limit)
  }

  /** When bucket number `k` of the worst run is opened; its predecessor elapses one tick earlier. */
  function Opening(window: nat, k: nat): Instant {
    if k == 0 then 1 else Opening(window, k - 1) + window + 1
  }

  lemma {:induction false} OpeningAt(window: nat, k: nat)
    ensures Opening(window, k) == 1 + k * window + k
  {
    if k > 0 {
      OpeningAt(window, k - 1);
      assert k * window == (k - 1) * window + window;
    }
  }

  lemma {:induction false} WorstRunOrdered(limit: int, window: nat, key: string, k: nat)
    requires limit >= 1
    ensures var run := WorstRun(limit, window, key, k);
            Ordered(run) && forall c <- run :: c.at < Opening(window, k + 1)
  {
    if k > 0 {
      WorstRunOrdered(limit, window, key, k - 1);
    }
  }

  /** A burst one tick after the last bucket elapsed fills a whole new one. */
  lemma FullBucketGranted(limit: int, window: nat, calls: seq<Call>, key: string, at: Instant, from: int, to: int)
    requires limit >= 1 && from <= at <= to
    requires BucketAfter(limit, window, calls, key) == RateBucket(limit, at - 1)
    ensures var run := calls + Burst(key, at, limit);
            && BucketAfter(limit, window, run, key) == RateBucket(limit, at + window)
            && Granted(limit, window, run, key, from, to) == Granted(limit, window, calls, key, from, to) + limit
  {
    BurstGranted(limit, window, calls, key, RateBucket(0, at + window), at, limit, from, to);
  }

  /** The worst run leaves a full bucket behind and has granted `n` calls from `from` on. */
  ghost predicate Filled(limit: int, window: nat, run: seq<Call>, key: string, end: nat, n: nat, from: int, to: int)
    requires limit >= 1
  {
    && end > 0 && BucketAfter(limit, window, run, key) == RateBucket(limit, end)
    && Granted(limit, window, run, key, from, to) == n
  }

  lemma FilledOnceMore(limit: int, window: nat, run: seq<Call>, key: string, end: nat, n: nat, from: int, to: int)
    requires limit >= 1 && from <= end + 1 <= to && Filled(limit, window, run, key, end, n, from, to)
    ensures Filled(limit, window, run + Burst(key, end + 1, limit), key, end + 1 + window, n + limit, from, to)
  {
    FullBucketGranted(limit, window, run, key, end + 1, from, to);
  }

  /** After bucket number `k`. */
  ghost predicate FilledUpTo(limit: int, window: nat, key: string, k: nat, to: int)
    requires limit >= 1
  {
    Filled(limit, window, WorstRun(limit, window, key, k), key, Opening(window, k) + window,
           limit - 1 + Product(k, limit), 1 + window, to)
  }

  lemma NextFilled(limit: int, window: nat, key: string, k: nat, to: int)
    requires limit >= 1 && Opening(window, k + 1) <= to && FilledUpTo(limit, window, key, k, to)
    ensures FilledUpTo(limit, window, key, k + 1, to)
  {
    FilledOnceMore(limit, window, WorstRun(limit, window, key, k), key, Opening(window, k) + window,
                   limit - 1 + Product(k, limit), 1 + window, to);
  }

  lemma {:induction false} WorstRunGranted(limit: int, window: nat, key: string, k: nat, to: int)
    requires limit >= 1 && window >= 1 && Opening(window, k) <= to && 1 + window <= to
    ensures FilledUpTo(limit, window, key, k, to)
  {
    if k == 0 {
      FirstWindowGranted(limit, window, key, to);
    } else {
      WorstRunGranted(limit, window, key, k - 1, to);
      NextFilled(limit, window, key, k - 1, to);
    }
  }

  function Product(k: nat, n: nat): nat {
    if k == 0 then 0 else Product(k - 1, n) + n
  }

  lemma {:induction false} ProductIs(k: nat, n: nat)
    ensures Product(k, n) == k * n
  {
    if k > 0 {
      ProductIs(k - 1, n);
      assert k * n == (k - 1) * n + n;
    }
  }

  lemma FirstWindowGranted(limit: int, window: nat, key: string, to: int)
    requires limit >= 1 && window >= 1 && 1 + window <= to
    ensures FilledUpTo(limit, window, key, 0, to)
  {
    FirstGrant(limit, window, key, to);
    if limit > 1 {
      BurstGranted(limit, window, [Call(key, 1)], key, RateBucket(1, 1 + window), 1 + window, limit - 1,
                   1 + window, to);
    } else {
      assert WorstRun(limit, window, key, 0) == [Call(key, 1)];
    }
  }

  lemma FirstGrant(limit: int, window: nat, key: string, to: int)
    requires limit >= 1 && window >= 1
    ensures BucketAfter(limit, window, [Call(key, 1)], key) == RateBucket(1, 1 + window)
    ensures Granted(limit, window, [Call(key, 1)], key, 1 + window, to) == 0
  {
    OneMore(limit, window, [], Call(key, 1), key, 1 + window, to);
    assert [] + [Call(key, 1)] == [Call(key, 1)];
  }

  /** The bound of `SlidingBound` is reached, for every number of windows up to the window in clock ticks. */
  lemma {:induction false} SlidingBoundReached(limit: int, window: nat, key: string, k: nat)
    requires limit >= 1 && 1 <= k <= window
    ensures Ordered(WorstRun(limit, window, key, k))
    ensures Granted(limit, window, WorstRun(limit, window, key, k), key, 1 + window, 1 + window + k * window)
         == (k + 1) * limit - 1
  {
    WorstRunOrdered(limit, window, key, k);
    OpeningAt(window, k);
    ProductIs(k, limit);
    assert (k + 1) * limit == k * limit + limit;
    WorstRunGranted(limit, window, key, k, 1 + window + k * window);
  }

  // ------------------------------------------------------- after a denial

  lemma {:induction false} OtherKeysAside(limit: int, window: nat, calls: seq<Call>, others: seq<Call>, key: string)
    requires forall c <- others :: c.key != key
    ensures BucketAfter(limit, window, calls + others, key) == BucketAfter(limit, window, calls, key)
  {
    if others == [] {
      assert calls + others == calls;
    } else {
      var run := calls + others;
      assert run[..|run| - 1] == calls + others[..|others| - 1];
      OtherKeysAside(limit, window, calls, others[..|others| - 1], key);
    }
  }

  /** After a denial, with only other keys in between, a call later than the announced wait is granted; and
      when a wait was announced, an earlier one is still denied. */
  lemma RetryAfterIsExact(limit: int, window: nat, calls: seq<Call>, key: string, now: Instant, later: Instant,
                          others: seq<Call>, t: Instant)
    requires limit >= 1 && now <= later <= t
    requires !Grants(BucketAfter(limit, window, calls, key), limit, window, now)
    requires forall c <- others :: c.key != key
    ensures var wait := RetryAfter(BucketAfter(limit, window, calls, key), window, now, later);
            var bucket := BucketAfter(limit, window, calls + [Call(key, now)] + others, key);
            && (t > later + wait ==> Grants(bucket, limit, window, t))
            && (wait > 0 ==> (Grants(bucket, limit, window, t) <==> t > later + wait))
  {
    var run := calls + [Call(key, now)];
    assert run[..|run| - 1] == calls;
    OtherKeysAside(limit, window, run, others, key);
  }
}
