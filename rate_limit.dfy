/** The in-memory fixed-window rate limiter used when no Redis is configured:
    one bucket per key counts the calls of the current window and is replaced
    by a fresh one once its window has passed. The clock is a parameter. */
module RateLimit {
  import opened Basics

  /** One key's window: calls counted so far and the instant (ms) it ends. */
  datatype Bucket = Bucket(count: int, resetAt: int)

  datatype LimitResult = LimitResult(ok: bool, limit: int, remaining: int, resetMs: int)

  function Max(a: int, b: int): int
  {
    if a < b then b else a
  }

  function Lookup(buckets: map<string, Bucket>, key: string): Option<Bucket>
  {
    if key in buckets then Some(buckets[key]) else None
  }

  /** A bucket whose window has not ended at `now`. */
  predicate Live(b: Option<Bucket>, now: int)
  {
    b.Some? && b.value.resetAt > now
  }

  /** One call against one key's bucket: the bucket it leaves and the answer. */
  function Admit(b: Option<Bucket>, limit: int, windowMs: int, now: int): (r: (Bucket, LimitResult))
    ensures r.1.limit == limit
  {
    if !Live(b, now) then
      (Bucket(1, now + windowMs), LimitResult(true, limit, limit - 1, windowMs))
    else
      var count := b.value.count + 1;
      (Bucket(count, b.value.resetAt),
       LimitResult(count <= limit, limit, Max(0, limit - count), Max(0, b.value.resetAt - now)))
  }

  /** The limiter's state: the `memoryBuckets` table. */
  class MemoryLimiter {
    var buckets: map<string, Bucket>

    constructor ()
      ensures buckets == map[]
    {
      buckets := map[];
    }

    /** `memoryLimit(key, limit, windowMs)` called at instant `now`. */
    method Limit(key: string, limit: int, windowMs: int, now: int) returns (r: LimitResult)
      modifies this
      ensures key in buckets
      ensures buckets[key] == Admit(Lookup(old(buckets), key), limit, windowMs, now).0
      ensures r == Admit(Lookup(old(buckets), key), limit, windowMs, now).1
      ensures forall k :: k != key ==> Lookup(buckets, k) == Lookup(old(buckets), k)
    {
      if key !in buckets || buckets[key].resetAt <= now {
        buckets := buckets[key := Bucket(1, now + windowMs)];
        return LimitResult(true, limit, limit - 1, windowMs);
      }
      var bucket := buckets[key];
      bucket := bucket.(count := bucket.count + 1);
      buckets := buckets[key := bucket];
      var remaining := Max(0, limit - bucket.count);
      r := LimitResult(bucket.count <= limit, limit, remaining, Max(0, bucket.resetAt - now));
    }
  }

  // ---------------------------------------------------------------------------
  // One call.
  // ---------------------------------------------------------------------------

  /** No bucket, or an expired one: a fresh window of one call, always allowed. */
  lemma NewWindow(b: Option<Bucket>, limit: int, windowMs: int, now: int)
    requires b.None? || b.value.resetAt <= now
    ensures Admit(b, limit, windowMs, now).0 == Bucket(1, now + windowMs)
    ensures Admit(b, limit, windowMs, now).1 == LimitResult(true, limit, limit - 1, windowMs)
  {
  }

  /** Inside a live window: the count goes up by exactly one, the window end
      stays, the call is allowed exactly while the count is within the limit,
      and `remaining` and `resetMs` are never negative. */
  lemma SameWindow(b: Bucket, limit: int, windowMs: int, now: int)
    requires b.resetAt > now
    ensures var (nb, r) := Admit(Some(b), limit, windowMs, now);
      && nb.count == b.count + 1 && nb.resetAt == b.resetAt
      && (r.ok <==> nb.count <= limit)
      && r.remaining == Max(0, limit - nb.count) && r.remaining >= 0
      && 0 < r.resetMs == b.resetAt - now
  {
  }

  // ---------------------------------------------------------------------------
  // A run of calls on one key.
  // ---------------------------------------------------------------------------

  /** The answers to calls on one key at instants `times`, starting from bucket `b`. */
  function Run(b: Option<Bucket>, limit: int, windowMs: int, times: seq<int>): (rs: seq<LimitResult>)
    ensures |rs| == |times|
    decreases |times|
  {
    if times == [] then []
    else
      var (nb, r) := Admit(b, limit, windowMs, times[0]);
      [r] + Run(Some(nb), limit, windowMs, times[1..])
  }

  /** While a window lasts, the i-th further call sees count `c + i + 1`. */
  lemma {:induction false} RunInWindow(c: int, resetAt: int, limit: int, windowMs: int, times: seq<int>)
    requires forall j :: 0 <= j < |times| ==> times[j] < resetAt
    ensures forall i :: 0 <= i < |times| ==>
      (Run(Some(Bucket(c, resetAt)), limit, windowMs, times)[i].ok <==> c + i + 1 <= limit)
    decreases |times|
  {
    if times != [] {
      RunInWindow(c + 1, resetAt, limit, windowMs, times[1..]);
      var rs := Run(Some(Bucket(c, resetAt)), limit, windowMs, times);
      assert rs[1..] == Run(Some(Bucket(c + 1, resetAt)), limit, windowMs, times[1..]);
      forall i | 0 < i < |times|
        ensures rs[i].ok <==> c + i + 1 <= limit
      {
        assert rs[i] == rs[1..][i - 1];
      }
    }
  }

  /** A window opened by the first call admits the first `limit` calls made
      before it ends and refuses every later one; the opening call is admitted
      even when `limit` is 0 or less. */
  lemma WindowAdmitsFirstCalls(b: Option<Bucket>, limit: int, windowMs: int, times: seq<int>)
    requires |times| > 0 && !Live(b, times[0])
    requires forall j :: 0 < j < |times| ==> times[j] < times[0] + windowMs
    ensures forall i :: 0 <= i < |times| ==>
      (Run(b, limit, windowMs, times)[i].ok <==> i == 0 || i < limit)
  {
    var rs := Run(b, limit, windowMs, times);
    var rest := times[1..];
    RunInWindow(1, times[0] + windowMs, limit, windowMs, rest);
    assert rs[1..] == Run(Some(Bucket(1, times[0] + windowMs)), limit, windowMs, rest);
    forall i | 0 < i < |times|
      ensures rs[i].ok <==> i < limit
    {
      assert rs[i] == rs[1..][i - 1];
    }
  }
}
