/**
 The fixed-window limiter as one key sees it: a bucket with a count and a reset time,
 started by the first call and replaced by the first call at or after its reset time.
 Both limiters of lib/rate-limit.ts are proved to behave like this one; the guarantees
 about traces are proved here once.
 */
module FixedWindow {
  import opened Common

  datatype Config = Config(limit: int, windowMs: int)

  datatype Bucket = Bucket(count: int, resetAt: int)

  datatype Verdict = Verdict(allowed: bool, retryAfterSeconds: int)

  const ALLOWED := Verdict(true, 0)

  function Denied(resetAt: int, now: int): Verdict {
    Verdict(false, Max(1, CeilDiv(resetAt - now, 1000)))
  }

  /** How many calls one bucket admits: the call that starts it is never refused. */
  function Capacity(c: Config): int {
    Max(1, c.limit)
  }

  predicate Expired(b: Option<Bucket>, now: int) {
    b.None? || b.value.resetAt <= now
  }

  function Touch(c: Config, b: Option<Bucket>, now: int): (Bucket, Verdict) {
    if Expired(b, now) then
      (Bucket(1, now + c.windowMs), ALLOWED)
    else if b.value.count >= c.limit then
      (b.value, Denied(b.value.resetAt, now))
    else
      (b.value.(count := b.value.count + 1), ALLOWED)
  }

  /** The verdicts of one key's calls, in order. */
  function Run(c: Config, b: Option<Bucket>, times: seq<int>): (vs: seq<Verdict>)
    ensures |vs| == |times|
    decreases |times|
  {
    if times == [] then []
    else
      var (b', v) := Touch(c, b, times[0]);
      [v] + Run(c, Some(b'), times[1..])
  }

  predicate NonDecreasing(times: seq<int>) {
    forall i, j :: 0 <= i < j < |times| ==> times[i] <= times[j]
  }

  /** How many calls in [lo, hi) were allowed. */
  function AllowedIn(times: seq<int>, vs: seq<Verdict>, lo: int, hi: int): nat
    requires |times| == |vs|
  {
    if times == [] then 0
    else (if vs[0].allowed && lo <= times[0] < hi then 1 else 0)
         + AllowedIn(times[1..], vs[1..], lo, hi)
  }

  /** While a bucket lasts to the end of the interval, only its remaining capacity is admitted. */
  lemma {:induction false} OneBucketBound(c: Config, b: Bucket, times: seq<int>, lo: int, hi: int)
    requires NonDecreasing(times)
    requires hi <= b.resetAt && 1 <= b.count
    ensures AllowedIn(times, Run(c, Some(b), times), lo, hi) <= Max(0, c.limit - b.count)
    decreases |times|
  {
    if times == [] {
    } else if times[0] >= hi {
      NothingAfter(times, Run(c, Some(b), times), lo, hi);
    } else {
      var (b', v) := Touch(c, Some(b), times[0]);
      OneBucketBound(c, b', times[1..], lo, hi);
    }
  }

  lemma {:induction false} NothingAfter(times: seq<int>, vs: seq<Verdict>, lo: int, hi: int)
    requires |times| == |vs| && NonDecreasing(times)
    requires times != [] ==> hi <= times[0]
    ensures AllowedIn(times, vs, lo, hi) == 0
  {
    if times != [] {
      NothingAfter(times[1..], vs[1..], lo, hi);
    }
  }

  /**
   From a bucket's first call on, its lifetime admits at most its capacity.
   */
  lemma LifetimeBound(c: Config, b: Option<Bucket>, times: seq<int>)
    requires NonDecreasing(times) && times != [] && Expired(b, times[0])
    ensures AllowedIn(times, Run(c, b, times), times[0], times[0] + c.windowMs) <= Capacity(c)
  {
    OneBucketBound(c, Bucket(1, times[0] + c.windowMs), times[1..], times[0], times[0] + c.windowMs);
  }

  /**
   From an arbitrary running bucket: its capacity less the call that started it, plus one more
   bucket. Once the interval has begun, only what the bucket has left counts.
   */
  lemma {:induction false} TwoBucketsBound(c: Config, b: Bucket, times: seq<int>, lo: int)
    requires NonDecreasing(times) && 1 <= b.count
    ensures AllowedIn(times, Run(c, Some(b), times), lo, lo + c.windowMs)
         <= Max(0, (if times != [] && lo <= times[0] then c.limit - b.count else c.limit - 1)) + Capacity(c)
    decreases |times|
  {
    if times != [] {
      var (b', v) := Touch(c, Some(b), times[0]);
      if lo <= times[0] && Expired(Some(b), times[0]) {
        OneBucketBound(c, b', times[1..], lo, lo + c.windowMs);
      } else {
        TwoBucketsBound(c, b', times[1..], lo);
      }
    }
  }

  /**
   Whatever the calls, any half-open interval of the window's length admits at most twice
   the capacity less one: the bucket that reaches into the interval spent its first call before it.
   */
  lemma WindowBound(c: Config, times: seq<int>, lo: int)
    requires NonDecreasing(times)
    ensures AllowedIn(times, Run(c, None, times), lo, lo + c.windowMs) <= 2 * Capacity(c) - 1
  {
    if times != [] {
      var (b', v) := Touch(c, None, times[0]);
      if lo <= times[0] {
        OneBucketBound(c, b', times[1..], lo, lo + c.windowMs);
      } else {
        TwoBucketsBound(c, b', times[1..], lo);
      }
    }
  }

  function Repeat(n: nat, t: int): (s: seq<int>)
    ensures |s| == n && forall i :: 0 <= i < n ==> s[i] == t
  {
    seq(n, _ => t)
  }

  /** A running bucket with room admits every call of a burst while it is not full. */
  lemma {:induction false} BurstAdmitted(c: Config, b: Bucket, n: nat, t: int, rest: seq<int>, lo: int, hi: int)
    requires t < b.resetAt && b.count + n <= c.limit && lo <= t < hi
    ensures AllowedIn(Repeat(n, t) + rest, Run(c, Some(b), Repeat(n, t) + rest), lo, hi)
         == n + AllowedIn(rest, Run(c, Some(b.(count := b.count + n)), rest), lo, hi)
    decreases n
  {
    if n == 0 {
      assert Repeat(n, t) + rest == rest;
    } else {
      assert (Repeat(n, t) + rest)[1..] == Repeat(n - 1, t) + rest;
      BurstAdmitted(c, b.(count := b.count + 1), n - 1, t, rest, lo, hi);
    }
  }

  /** One early call, the rest of its bucket just before it resets, and a full bucket just after. */
  function WorstCase(c: Config): seq<int>
    requires 1 <= c.limit
  {
    [0] + (Repeat(c.limit - 1, c.windowMs - 1) + Repeat(c.limit, c.windowMs))
  }

  /** Once a bucket is over, a burst as large as the limit is admitted in full. */
  lemma FreshBurstAdmitted(c: Config, b: Bucket, t: int, lo: int, hi: int)
    requires 1 <= c.limit && 1 <= c.windowMs && b.resetAt <= t && lo <= t < hi
    ensures AllowedIn(Repeat(c.limit, t), Run(c, Some(b), Repeat(c.limit, t)), lo, hi) == c.limit
  {
    var burst, rest := Repeat(c.limit, t), Repeat(c.limit - 1, t);
    assert burst[1..] == rest == rest + [];
    BurstAdmitted(c, Bucket(1, t + c.windowMs), c.limit - 1, t, [], lo, hi);
  }

  /** The rest of a bucket in its last millisecond, and then a fresh one. */
  lemma LateBurstsAdmitted(c: Config, lo: int, hi: int)
    requires 1 <= c.limit && 1 <= c.windowMs && lo < c.windowMs < hi
    ensures
      var times := Repeat(c.limit - 1, c.windowMs - 1) + Repeat(c.limit, c.windowMs);
      AllowedIn(times, Run(c, Some(Bucket(1, c.windowMs)), times), lo, hi) == 2 * c.limit - 1
  {
    BurstAdmitted(c, Bucket(1, c.windowMs), c.limit - 1, c.windowMs - 1, Repeat(c.limit, c.windowMs), lo, hi);
    FreshBurstAdmitted(c, Bucket(c.limit, c.windowMs), c.windowMs, lo, hi);
  }

  lemma WorstCaseNonDecreasing(c: Config)
    requires 1 <= c.limit && 1 <= c.windowMs
    ensures NonDecreasing(WorstCase(c))
  {
  }

  /**
   The bound of WindowBound is reached by every limiter whose window lasts at least two clock ticks,
   so twice the limit less one is the strongest promise the code keeps.
   */
  lemma WindowBoundIsTight(c: Config)
    requires 1 <= c.limit && 2 <= c.windowMs
    ensures NonDecreasing(WorstCase(c))
    ensures AllowedIn(WorstCase(c), Run(c, None, WorstCase(c)), c.windowMs - 1, 2 * c.windowMs - 1)
         == 2 * Capacity(c) - 1
  {
    WorstCaseNonDecreasing(c);
    LateBurstsAdmitted(c, c.windowMs - 1, 2 * c.windowMs - 1);
    hide Repeat, NonDecreasing;
    var late := Repeat(c.limit - 1, c.windowMs - 1) + Repeat(c.limit, c.windowMs);
    assert WorstCase(c)[1..] == late;
  }

  /**
   A refusal names the least positive whole number of seconds after which the same call,
   if nothing else happens in between, is admitted.
   */
  lemma RetryAfterIsLeastWait(c: Config, b: Option<Bucket>, now: int)
    requires !Touch(c, b, now).1.allowed
    ensures
      var retry := Touch(c, b, now).1.retryAfterSeconds;
      && 1 <= retry
      && Touch(c, b, now + 1000 * retry).1.allowed
      && forall s :: 0 <= s < retry ==> !Touch(c, b, now + 1000 * s).1.allowed
  {
  }
}
