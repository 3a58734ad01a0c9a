/** The fixed-window request limiter (backend/internal/httpapi/ratelimit.go). */
module RateLimiter {
  import opened Common

  datatype Bucket = Bucket(count: nat, resetAt: int)

  datatype Limit = Limit(requests: int, window: int)

  /** A call on the limiter. A prune may carry an older time than the clock: the ticker stamps it. */
  datatype Call = Allow(key: string, now: int) | Prune(now: int)

  type Buckets = map<string, Bucket>

  /* ----- one call ----- */

  /** The bucket a call counts in: the current one, or a new window if it has closed. */
  function Touch(bucket: Option<Bucket>, now: int, limit: Limit): Bucket {
    if bucket.None? || now > bucket.value.resetAt
    then Bucket(1, now + limit.window)
    else Bucket(bucket.value.count + 1, bucket.value.resetAt)
  }

  function Lookup(buckets: Buckets, key: string): Option<Bucket> {
    if key in buckets then Some(buckets[key]) else None
  }

  function Step(buckets: Buckets, call: Call, limit: Limit): Buckets {
    match call
    case Allow(key, now) => buckets[key := Touch(Lookup(buckets, key), now, limit)]
    case Prune(now) => map key | key in buckets && !(now > buckets[key].resetAt) :: buckets[key]
  }

  class Limiter {
    var buckets: Buckets
    const limit: Limit

    constructor (limit: Limit)
      ensures buckets == map[] && this.limit == limit
    {
      buckets := map[];
      this.limit := limit;
    }

    method Allow(key: string, now: int) returns (allowed: bool, resetAt: int)
      modifies this
      ensures buckets == Step(old(buckets), Call.Allow(key, now), limit)
      ensures allowed <==> buckets[key].count <= limit.requests
      ensures resetAt == buckets[key].resetAt
      ensures limit.window >= 0 ==> resetAt >= now
    {
      var entry;
      if key !in buckets || now > buckets[key].resetAt {
        entry := Bucket(0, now + limit.window);
      } else {
        entry := buckets[key];
      }
      entry := Bucket(entry.count + 1, entry.resetAt);
      buckets := buckets[key := entry];
      return entry.count <= limit.requests, entry.resetAt;
    }

    method Prune(now: int)
      modifies this
      ensures buckets == Step(old(buckets), Call.Prune(now), limit)
      ensures forall k :: k in buckets <==> k in old(buckets) && now <= old(buckets)[k].resetAt
      ensures forall k :: k in buckets ==> buckets[k] == old(buckets)[k]
    {
      var keys := buckets.Keys;
      while keys != {}
        invariant keys <= old(buckets).Keys && buckets.Keys <= old(buckets).Keys
        invariant forall k :: k in buckets ==> buckets[k] == old(buckets)[k]
        invariant keys <= buckets.Keys
        invariant forall k :: k in old(buckets).Keys - keys ==>
                                (k in buckets <==> !(now > old(buckets)[k].resetAt))
        decreases keys
      {
        var key :| key in keys;
        if now > buckets[key].resetAt {
          buckets := buckets - {key};
        }
        keys := keys - {key};
      }
    }
  }

  /* ----- whole runs ----- */

  /** The clock: no `allow` happens before the time of an earlier call. */
  ghost predicate ClockNonDecreasing(calls: seq<Call>) {
    forall i, j :: 0 <= i < j < |calls| && calls[j].Allow? ==> calls[i].now <= calls[j].now
  }

  /** The answers to the `allow` calls on one key, in order. */
  function Answers(buckets: Buckets, calls: seq<Call>, key: string, limit: Limit): seq<bool>
    decreases |calls|
  {
    if calls == [] then []
    else
      var after := Step(buckets, calls[0], limit);
      var rest := Answers(after, calls[1..], key, limit);
      if calls[0].Allow? && calls[0].key == key then [after[key].count <= limit.requests] + rest else rest
  }

  /** The times of those calls. */
  function TimesOf(calls: seq<Call>, key: string): seq<int> {
    if calls == [] then []
    else if calls[0].Allow? && calls[0].key == key then [calls[0].now] + TimesOf(calls[1..], key)
    else TimesOf(calls[1..], key)
  }

  /** What one key alone would be answered, with no other keys and no pruning. */
  function Solo(bucket: Option<Bucket>, times: seq<int>, limit: Limit): (answers: seq<bool>)
    ensures |answers| == |times|
    decreases |times|
  {
    if times == [] then []
    else
      var after := Touch(bucket, times[0], limit);
      [after.count <= limit.requests] + Solo(Some(after), times[1..], limit)
  }

  ghost predicate NonDecreasing(times: seq<int>) {
    forall i, j :: 0 <= i < j < |times| ==> times[i] <= times[j]
  }

  lemma {:induction false} TimesAfter(calls: seq<Call>, key: string, bound: int)
    requires ClockNonDecreasing(calls)
    requires forall i :: 0 <= i < |calls| && calls[i].Allow? ==> bound <= calls[i].now
    ensures NonDecreasing(TimesOf(calls, key))
    ensures forall i :: 0 <= i < |TimesOf(calls, key)| ==> bound <= TimesOf(calls, key)[i]
  {
    if calls != [] {
      TimesAfter(calls[1..], key, if calls[0].Allow? then calls[0].now else bound);
    }
  }

  /** A forgotten bucket and an expired one look the same to every later call. */
  ghost predicate Agree(stored: Option<Bucket>, solo: Option<Bucket>, times: seq<int>) {
    stored == solo
    || (stored.None? && solo.Some? && forall i :: 0 <= i < |times| ==> times[i] > solo.value.resetAt)
  }

  /** Another key's call, or a prune, keeps the agreement. */
  lemma OtherCallKeepsAgreement(buckets: Buckets, call: Call, key: string, limit: Limit,
                                solo: Option<Bucket>, times: seq<int>)
    requires Agree(Lookup(buckets, key), solo, times)
    requires !(call.Allow? && call.key == key)
    requires forall i :: 0 <= i < |times| ==> call.now <= times[i]
    ensures Agree(Lookup(Step(buckets, call, limit), key), solo, times)
  {
    var after := Step(buckets, call, limit);
    if key in buckets && key !in after {
      assert call.now > buckets[key].resetAt;
    }
  }

  lemma ClockTail(calls: seq<Call>, key: string)
    requires ClockNonDecreasing(calls) && calls != []
    ensures ClockNonDecreasing(calls[1..])
    ensures forall i :: 0 <= i < |TimesOf(calls[1..], key)| ==> calls[0].now <= TimesOf(calls[1..], key)[i]
  {
    TimesAfter(calls[1..], key, calls[0].now);
  }

  lemma OwnCall(calls: seq<Call>, key: string)
    requires calls != [] && calls[0].Allow? && calls[0].key == key
    ensures TimesOf(calls, key) == [calls[0].now] + TimesOf(calls[1..], key)
    ensures TimesOf(calls, key)[1..] == TimesOf(calls[1..], key)
  {
  }

  lemma {:induction false} AnswersMatchSolo(buckets: Buckets, calls: seq<Call>, key: string, limit: Limit,
                                            solo: Option<Bucket>)
    requires ClockNonDecreasing(calls)
    requires Agree(Lookup(buckets, key), solo, TimesOf(calls, key))
    ensures Answers(buckets, calls, key, limit) == Solo(solo, TimesOf(calls, key), limit)
    decreases |calls|
  {
    if calls != [] {
      var times, rest, after := TimesOf(calls, key), TimesOf(calls[1..], key), Step(buckets, calls[0], limit);
      ClockTail(calls, key);
      if calls[0].Allow? && calls[0].key == key {
        OwnCall(calls, key);
        var touched := Touch(solo, times[0], limit);
        assert touched == after[key];
        AnswersMatchSolo(after, calls[1..], key, limit, Some(touched));
      } else {
        OtherCallKeepsAgreement(buckets, calls[0], key, limit, solo, rest);
        AnswersMatchSolo(after, calls[1..], key, limit, solo);
      }
    }
  }

  /** Isolation and invisible pruning: what a key is answered depends only on the times of its own
      calls, so other keys and any inserted prune calls change nothing. */
  lemma AnswersDependOnlyOnOwnCalls(calls: seq<Call>, others: seq<Call>, key: string, limit: Limit)
    requires ClockNonDecreasing(calls) && ClockNonDecreasing(others)
    requires TimesOf(calls, key) == TimesOf(others, key)
    ensures Answers(map[], calls, key, limit) == Answers(map[], others, key, limit)
  {
    AnswersMatchSolo(map[], calls, key, limit, None);
    AnswersMatchSolo(map[], others, key, limit, None);
  }

  function WithoutPrunes(calls: seq<Call>): seq<Call> {
    if calls == [] then []
    else if calls[0].Prune? then WithoutPrunes(calls[1..])
    else [calls[0]] + WithoutPrunes(calls[1..])
  }

  lemma {:induction false} WithoutPrunesKeepsTimes(calls: seq<Call>, key: string)
    ensures TimesOf(WithoutPrunes(calls), key) == TimesOf(calls, key)
  {
    if calls != [] {
      WithoutPrunesKeepsTimes(calls[1..], key);
      if calls[0].Allow? {
        assert WithoutPrunes(calls)[1..] == WithoutPrunes(calls[1..]);
      }
    }
  }

  /** A lower bound on the remaining allow times survives the filter. */
  lemma {:induction false} WithoutPrunesKeepsClock(calls: seq<Call>, bound: int)
    requires ClockNonDecreasing(calls)
    requires forall i :: 0 <= i < |calls| && calls[i].Allow? ==> bound <= calls[i].now
    ensures ClockNonDecreasing(WithoutPrunes(calls))
    ensures forall i :: 0 <= i < |WithoutPrunes(calls)| ==> bound <= WithoutPrunes(calls)[i].now
  {
    if calls != [] {
      WithoutPrunesKeepsClock(calls[1..], if calls[0].Allow? then calls[0].now else bound);
    }
  }

  /** Pruning is invisible: leaving out every prune call gives every key the same answers. */
  lemma PruningIsInvisible(calls: seq<Call>, key: string, limit: Limit)
    requires ClockNonDecreasing(calls)
    ensures Answers(map[], calls, key, limit) == Answers(map[], WithoutPrunes(calls), key, limit)
  {
    WithoutPrunesKeepsTimes(calls, key);
    if calls != [] {
      WithoutPrunesKeepsClock(calls, calls[0].now);
    }
    AnswersDependOnlyOnOwnCalls(calls, WithoutPrunes(calls), key, limit);
  }

  /* ----- which calls are admitted ----- */

  /** The call that opened the window call `j` counts in: a call opens a new window when it comes more
      than Window after the one that opened the current window. */
  function Opener(times: seq<int>, window: int, j: nat): (i: nat)
    requires j < |times|
    ensures i <= j
  {
    if j == 0 then 0
    else
      var i := Opener(times, window, j - 1);
      if times[j] > times[i] + window then j else i
  }

  /** The bucket after call `j`: opened by the opener, counting the calls since. */
  ghost predicate BucketAfter(bucket: Bucket, times: seq<int>, window: int, j: nat)
    requires j < |times|
  {
    bucket == Bucket(j - Opener(times, window, j) + 1, times[Opener(times, window, j)] + window)
  }

  /** The bucket the calls up to `j` leave. */
  function BucketOf(times: seq<int>, limit: Limit, j: nat): Bucket
    requires j < |times|
  {
    Touch(if j == 0 then None else Some(BucketOf(times, limit, j - 1)), times[j], limit)
  }

  lemma {:induction false} BucketCounts(times: seq<int>, limit: Limit, j: nat)
    requires j < |times|
    ensures BucketAfter(BucketOf(times, limit, j), times, limit.window, j)
  {
    if j > 0 {
      BucketCounts(times, limit, j - 1);
    }
  }

  lemma {:induction false} SoloFollowsBuckets(times: seq<int>, limit: Limit, k: nat, j: nat)
    requires k <= j < |times|
    ensures var before := if k == 0 then None else Some(BucketOf(times, limit, k - 1));
            Solo(before, times[k..], limit)[j - k] <==> BucketOf(times, limit, j).count <= limit.requests
    decreases j - k
  {
    var before := if k == 0 then None else Some(BucketOf(times, limit, k - 1));
    var rest := times[k..];
    assert rest[0] == times[k] && rest[1..] == times[k + 1..];
    if k < j {
      SoloFollowsBuckets(times, limit, k + 1, j);
    }
  }

  /** Admission, exactly: in every call sequence with a non-decreasing clock, a call is admitted if and
      only if it is among the first Requests calls of its window. */
  lemma AdmittedIff(calls: seq<Call>, key: string, limit: Limit, j: nat)
    requires ClockNonDecreasing(calls) && j < |TimesOf(calls, key)|
    ensures var (times, answers) := (TimesOf(calls, key), Answers(map[], calls, key, limit));
            && |answers| == |times|
            && (answers[j] <==> j - Opener(times, limit.window, j) < limit.requests)
  {
    var times := TimesOf(calls, key);
    AnswersMatchSolo(map[], calls, key, limit, None);
    SoloFollowsBuckets(times, limit, 0, j);
    BucketCounts(times, limit, j);
    assert times[0..] == times;
  }

  /* ----- the sliding-window bound ----- */

  /** Admitted calls in the closed interval [from, from + window]. */
  function AdmittedWithin(times: seq<int>, answers: seq<bool>, from: int, window: int): nat
    requires |answers| == |times|
  {
    if times == [] then 0
    else
      (if answers[0] && from <= times[0] <= from + window then 1 else 0)
      + AdmittedWithin(times[1..], answers[1..], from, window)
  }

  /** How many more calls the interval can still admit, given the current bucket. */
  function Budget(bucket: Option<Bucket>, from: int, limit: Limit): int {
    var r := Max(limit.requests, 0);
    if bucket.Some? && bucket.value.resetAt >= from + limit.window then Max(r - bucket.value.count, 0)
    else if bucket.Some? && bucket.value.resetAt >= from then Max(r - bucket.value.count, 0) + r
    else Max(2 * r - 1, 0)
  }

  lemma {:induction false} SoloWithinBudget(bucket: Option<Bucket>, times: seq<int>, from: int, limit: Limit)
    requires NonDecreasing(times) && limit.window >= 0
    requires bucket.Some? ==> bucket.value.count >= 1
    ensures AdmittedWithin(times, Solo(bucket, times, limit), from, limit.window) <= Budget(bucket, from, limit)
    decreases |times|
  {
    if times != [] {
      var after := Touch(bucket, times[0], limit);
      assert Solo(bucket, times, limit)[1..] == Solo(Some(after), times[1..], limit);
      SoloWithinBudget(Some(after), times[1..], from, limit);
      if times[0] > from + limit.window {
        NothingLate(times[1..], Solo(Some(after), times[1..], limit), from, limit.window);
      }
    }
  }

  lemma {:induction false} NothingLate(times: seq<int>, answers: seq<bool>, from: int, window: int)
    requires |answers| == |times| && forall i :: 0 <= i < |times| ==> times[i] > from + window
    ensures AdmittedWithin(times, answers, from, window) == 0
  {
    if times != [] {
      NothingLate(times[1..], answers[1..], from, window);
    }
  }

  /** Main theorem: for every call sequence, one key is admitted at most 2 * Requests - 1 times in
      any closed interval of length Window, and never at all when Requests is not positive. */
  lemma SlidingWindowBound(calls: seq<Call>, key: string, limit: Limit, from: int)
    requires ClockNonDecreasing(calls) && limit.window >= 0
    ensures var answers := Answers(map[], calls, key, limit);
            && |answers| == |TimesOf(calls, key)|
            && AdmittedWithin(TimesOf(calls, key), answers, from, limit.window) <= Max(2 * limit.requests - 1, 0)
  {
    AnswersMatchSolo(map[], calls, key, limit, None);
    TimesOfNonDecreasing(calls, key);
    SoloWithinBudget(None, TimesOf(calls, key), from, limit);
  }

  lemma {:induction false} TimesOfNonDecreasing(calls: seq<Call>, key: string)
    requires ClockNonDecreasing(calls)
    ensures NonDecreasing(TimesOf(calls, key))
  {
    if calls != [] {
      TimesAfter(calls[1..], key, calls[0].now);
    }
  }

  /* ----- the bound is reached ----- */

  function Repeat(t: int, n: nat): (s: seq<int>)
    ensures |s| == n
  {
    seq(n, _ => t)
  }

  lemma AdmittedStep(bucket: Option<Bucket>, t: int, rest: seq<int>, from: int, limit: Limit, after: Bucket)
    requires after == Touch(bucket, t, limit)
    ensures AdmittedWithin([t] + rest, Solo(bucket, [t] + rest, limit), from, limit.window)
         == (if after.count <= limit.requests && from <= t <= from + limit.window then 1 else 0)
            + AdmittedWithin(rest, Solo(Some(after), rest, limit), from, limit.window)
  {
    assert ([t] + rest)[1..] == rest;
    assert Solo(bucket, [t] + rest, limit)[1..] == Solo(Some(after), rest, limit);
  }

  lemma {:induction false} BurstInWindow(bucket: Bucket, t: int, n: nat, rest: seq<int>, from: int, limit: Limit)
    requires t <= bucket.resetAt && bucket.count + n <= limit.requests && from <= t <= from + limit.window
    ensures AdmittedWithin(Repeat(t, n) + rest, Solo(Some(bucket), Repeat(t, n) + rest, limit), from, limit.window)
         == n + AdmittedWithin(rest, Solo(Some(Bucket(bucket.count + n, bucket.resetAt)), rest, limit),
                               from, limit.window)
    decreases n
  {
    if n == 0 {
      assert Repeat(t, n) + rest == rest;
    } else {
      assert Repeat(t, n) + rest == [t] + (Repeat(t, n - 1) + rest);
      AdmittedStep(Some(bucket), t, Repeat(t, n - 1) + rest, from, limit, Bucket(bucket.count + 1, bucket.resetAt));
      BurstInWindow(Bucket(bucket.count + 1, bucket.resetAt), t, n - 1, rest, from, limit);
    }
  }

  /** One early call, then a burst on each side of the boundary. */
  function BoundaryBurst(limit: Limit): seq<int>
    requires limit.requests >= 1
  {
    [0] + (Repeat(limit.window, limit.requests - 1)
           + ([limit.window + 1] + Repeat(limit.window + 1, limit.requests - 1)))
  }

  lemma BoundaryBurstNonDecreasing(limit: Limit)
    requires limit.requests >= 1 && limit.window >= 1
    ensures NonDecreasing(BoundaryBurst(limit))
  {
  }

  function CallsAt(key: string, times: seq<int>): (calls: seq<Call>)
    ensures |calls| == |times|
  {
    seq(|times|, i requires 0 <= i < |times| => Call.Allow(key, times[i]))
  }

  lemma {:induction false} TimesOfCallsAt(key: string, times: seq<int>)
    ensures TimesOf(CallsAt(key, times), key) == times
  {
    if times != [] {
      TimesOfCallsAt(key, times[1..]);
      assert CallsAt(key, times)[1..] == CallsAt(key, times[1..]);
    }
  }

  /** The bound is exact: for every positive limit and every key some call sequence with a
      non-decreasing clock is admitted 2 * Requests - 1 times within one window length. */
  lemma BoundIsReached(limit: Limit, key: string)
    requires limit.requests >= 1 && limit.window >= 1
    ensures var calls := CallsAt(key, BoundaryBurst(limit));
            && ClockNonDecreasing(calls) && TimesOf(calls, key) == BoundaryBurst(limit)
            && |Answers(map[], calls, key, limit)| == |BoundaryBurst(limit)|
            && AdmittedWithin(BoundaryBurst(limit), Answers(map[], calls, key, limit), 1, limit.window)
               == 2 * limit.requests - 1
  {
    BoundaryBurstNonDecreasing(limit);
    TimesOfCallsAt(key, BoundaryBurst(limit));
    AnswersMatchSolo(map[], CallsAt(key, BoundaryBurst(limit)), key, limit, None);
    BurstsAdmitted(limit);
  }

  lemma BurstsAdmitted(limit: Limit)
    requires limit.requests >= 1 && limit.window >= 1
    ensures AdmittedWithin(BoundaryBurst(limit), Solo(None, BoundaryBurst(limit), limit), 1, limit.window)
         == 2 * limit.requests - 1
  {
    SecondBurst(limit);
    var w, n := limit.window, limit.requests - 1;
    var second := [w + 1] + Repeat(w + 1, n);
    AdmittedStep(None, 0, Repeat(w, n) + second, 1, limit, Bucket(1, w));
    BurstInWindow(Bucket(1, w), w, n, second, 1, limit);
  }

  /** A full first window, then Requests calls in the next one. */
  lemma SecondBurst(limit: Limit)
    requires limit.requests >= 1 && limit.window >= 1
    ensures AdmittedWithin([limit.window + 1] + Repeat(limit.window + 1, limit.requests - 1),
                           Solo(Some(Bucket(limit.requests, limit.window)),
                                [limit.window + 1] + Repeat(limit.window + 1, limit.requests - 1), limit),
                           1, limit.window)
         == limit.requests
  {
    var w, n := limit.window, limit.requests - 1;
    var tail := Repeat(w + 1, n);
    AdmittedStep(Some(Bucket(1 + n, w)), w + 1, tail, 1, limit, Bucket(1, 2 * w + 1));
    BurstInWindow(Bucket(1, 2 * w + 1), w + 1, n, [], 1, limit);
    assert tail + [] == tail;
  }
}
