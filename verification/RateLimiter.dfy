/** The in-memory fixed-window rate limiter, with eviction of expired buckets on every call. */
module RateLimiter {
  import opened Outcomes
  import opened Ordering

  datatype Policy = Policy(name: string, maxRequests: int, window: real)
  datatype Key = Key(policy: string, identity: string)
  datatype Bucket = Bucket(count: int, resetAt: real)

  /** What the policy's own constructor insists on. */
  predicate PolicyIsValid(p: Policy) {
    p.name != "" && p.maxRequests > 0 && p.window > 0.0
  }

  function Ceiling(x: real): int {
    -((-x).Floor)
  }

  function RetryAfter(b: Bucket, now: real): int {
    if Ceiling(b.resetAt - now) > 1 then Ceiling(b.resetAt - now) else 1
  }

  function WithoutExpired(buckets: map<Key, Bucket>, now: real): map<Key, Bucket> {
    map k | k in buckets && buckets[k].resetAt > now :: buckets[k]
  }

  datatype Verdict = Verdict(buckets: map<Key, Bucket>, retryAfter: Option<int>)

  /** One call: evict, then count or refuse. */
  function CheckStep(buckets: map<Key, Bucket>, p: Policy, identity: string, now: real): Verdict {
    var key, live := Key(p.name, identity), WithoutExpired(buckets, now);
    if key !in live then Verdict(live[key := Bucket(1, now + p.window)], None)
    else if live[key].count >= p.maxRequests then Verdict(live, Some(RetryAfter(live[key], now)))
    else Verdict(live[key := live[key].(count := live[key].count + 1)], None)
  }

  class InMemoryRateLimiter {
    var buckets: map<Key, Bucket>

    constructor ()
      ensures buckets == map[]
    {
      buckets := map[];
    }

    method Clear()
      modifies this
      ensures buckets == map[]
    {
      buckets := map[];
    }

    method RemoveExpiredBuckets(now: real)
      modifies this
      ensures buckets == WithoutExpired(old(buckets), now)
    {
      var expired := set k | k in buckets && buckets[k].resetAt <= now;
      while expired != {}
        invariant forall k :: k in expired ==> k in buckets && buckets[k].resetAt <= now
        invariant forall k :: k in buckets ==> k in old(buckets) && buckets[k] == old(buckets)[k]
        invariant forall k :: k in old(buckets) && k !in buckets ==> old(buckets)[k].resetAt <= now
        invariant forall k :: k in buckets && buckets[k].resetAt <= now ==> k in expired
        decreases |expired|
      {
        var k :| k in expired;
        buckets := buckets - {k};
        expired := expired - {k};
      }
    }

    /** Seconds to wait, or nothing when the call is admitted. */
    method Check(p: Policy, identity: string, now: real) returns (retryAfter: Option<int>)
      modifies this
      ensures Verdict(buckets, retryAfter) == CheckStep(old(buckets), p, identity, now)
    {
      var key := Key(p.name, identity);
      RemoveExpiredBuckets(now);
      if key !in buckets {
        buckets := buckets[key := Bucket(1, now + p.window)];
        return None;
      }
      var bucket := buckets[key];
      if bucket.count >= p.maxRequests {
        return Some(RetryAfter(bucket, now));
      }
      buckets := buckets[key := bucket.(count := bucket.count + 1)];
      return None;
    }
  }

  // ---------------------------------------------------------------- one call

  /** A key's bucket still counts until its reset time. */
  predicate Counting(buckets: map<Key, Bucket>, key: Key, now: real) {
    key in buckets && now < buckets[key].resetAt
  }

  /** A call is refused exactly when its key's bucket still counts and is full; then it is told the least whole number of
      seconds, and at least one, after which the bucket no longer counts, and the bucket stays. Else it is counted, as the
      first of a new window if there is none. Of the other buckets exactly those stay that still count. */
  lemma {:induction false} OneCall(buckets: map<Key, Bucket>, p: Policy, identity: string, now: real)
    requires PolicyIsValid(p)
    ensures var key, v := Key(p.name, identity), CheckStep(buckets, p, identity, now);
      && (v.retryAfter.Some? <==> Counting(buckets, key, now) && buckets[key].count >= p.maxRequests)
      && (v.retryAfter.Some? ==>
           var told := v.retryAfter.value;
           && told >= 1 && now + told as real >= buckets[key].resetAt
           && (told > 1 ==> now + (told - 1) as real < buckets[key].resetAt)
           && key in v.buckets && v.buckets[key] == buckets[key])
      && (v.retryAfter.None? && Counting(buckets, key, now) ==>
           key in v.buckets && v.buckets[key] == Bucket(buckets[key].count + 1, buckets[key].resetAt))
      && (v.retryAfter.None? && !Counting(buckets, key, now) ==>
           key in v.buckets && v.buckets[key] == Bucket(1, now + p.window))
      && forall other :: other != key ==>
           (other in v.buckets <==> Counting(buckets, other, now))
           && (other in v.buckets ==> v.buckets[other] == buckets[other])
  {
    var key := Key(p.name, identity);
    if Counting(buckets, key, now) { CeilingIsLeast(buckets[key].resetAt - now); }
  }

  lemma {:induction false} CeilingIsLeast(x: real)
    ensures (Ceiling(x) - 1) as real < x <= Ceiling(x) as real
  {
  }

  // ---------------------------------------------------------------- traces

  datatype Call = Call(policy: Policy, identity: string, now: real)

  function KeyOf(c: Call): Key {
    Key(c.policy.name, c.identity)
  }

  function HasKey(key: Key): Call -> bool {
    (c: Call) => KeyOf(c) == key
  }

  function BucketsAfter(trace: seq<Call>): map<Key, Bucket> {
    if |trace| == 0 then map[] else LastVerdict(trace).buckets
  }

  /** The verdict on the last call of a trace that starts from an empty limiter. */
  function LastVerdict(trace: seq<Call>): Verdict
    requires |trace| > 0
    decreases |trace|, 0
  {
    var c := trace[|trace| - 1];
    var before := if |trace| == 1 then map[] else LastVerdict(trace[..|trace| - 1]).buckets;
    CheckStep(before, c.policy, c.identity, c.now)
  }

  /** A monotone clock. */
  ghost predicate ClockAdvances(trace: seq<Call>) {
    forall i, j :: 0 <= i < j < |trace| ==> trace[i].now <= trace[j].now
  }

  /** A key's bucket if it still counts at a time. */
  function LiveBucket(buckets: map<Key, Bucket>, key: Key, now: real): Option<Bucket> {
    if key in buckets && buckets[key].resetAt > now then Some(buckets[key]) else None
  }

  /** A call leaves every other key's live bucket as it was, and its own depends on its own live bucket only. */
  lemma {:induction false} CallsAreIndependent(b: map<Key, Bucket>, b': map<Key, Bucket>, c: Call, key: Key, later: real)
    requires c.now <= later && LiveBucket(b, key, c.now) == LiveBucket(b', key, c.now)
    ensures KeyOf(c) != key ==>
      LiveBucket(CheckStep(b, c.policy, c.identity, c.now).buckets, key, later) == LiveBucket(b, key, later)
    ensures KeyOf(c) == key ==>
      var v, v' := CheckStep(b, c.policy, c.identity, c.now), CheckStep(b', c.policy, c.identity, c.now);
      v.retryAfter == v'.retryAfter && LiveBucket(v.buckets, key, later) == LiveBucket(v'.buckets, key, later)
  {
  }

  lemma {:induction false} LiveBucketIsOwn(trace: seq<Call>, key: Key, later: real)
    requires ClockAdvances(trace) && forall i :: 0 <= i < |trace| ==> trace[i].now <= later
    ensures LiveBucket(BucketsAfter(trace), key, later)
         == LiveBucket(BucketsAfter(Keep(HasKey(key), trace)), key, later)
  {
    if |trace| > 0 {
      var init, c := trace[..|trace| - 1], trace[|trace| - 1];
      var own := Keep(HasKey(key), init);
      LiveBucketIsOwn(init, key, c.now);
      LiveBucketIsOwn(init, key, later);
      CallsAreIndependent(BucketsAfter(init), BucketsAfter(own), c, key, later);
      if KeyOf(c) == key {
        assert Keep(HasKey(key), trace) == own + [c] && (own + [c])[..|own|] == own;
      } else {
        assert Keep(HasKey(key), trace) == own;
      }
    }
  }

  /** Under a monotone clock the verdict on a call is the one its own key's calls alone would get: other identities,
      other policies and eviction are invisible. */
  lemma {:induction false} VerdictsArePerKey(trace: seq<Call>)
    requires ClockAdvances(trace) && |trace| > 0
    ensures var own := Keep(HasKey(KeyOf(trace[|trace| - 1])), trace);
      |own| > 0 && LastVerdict(trace).retryAfter == LastVerdict(own).retryAfter
  {
    var init, c := trace[..|trace| - 1], trace[|trace| - 1];
    var key := KeyOf(c);
    var own := Keep(HasKey(key), init);
    LiveBucketIsOwn(init, key, c.now);
    CallsAreIndependent(BucketsAfter(init), BucketsAfter(own), c, key, c.now);
    assert Keep(HasKey(key), trace) == own + [c] && (own + [c])[..|own|] == own;
  }

  // ---------------------------------------------------------------- how many calls pass

  /** How many calls of a key are admitted at a time in the half-open interval from `a` to `b`. */
  function Admitted(trace: seq<Call>, key: Key, a: real, b: real): int {
    if |trace| == 0 then 0
    else
      var c := trace[|trace| - 1];
      Admitted(trace[..|trace| - 1], key, a, b)
      + if KeyOf(c) == key && a <= c.now < b && LastVerdict(trace).retryAfter.None? then 1 else 0
  }

  /** How many calls pass in the interval of one window's length from `a`. */
  function PassedFrom(trace: seq<Call>, key: Key, p: Policy, a: real): int {
    Admitted(trace, key, a, a + p.window)
  }

  /** All calls of the key use the policy. */
  ghost predicate UsesPolicy(trace: seq<Call>, key: Key, p: Policy) {
    forall i :: 0 <= i < |trace| && KeyOf(trace[i]) == key ==> trace[i].policy == p
  }

  /** How many calls passed in the interval, by where the key's current window starts. */
  ghost predicate WithinBound(passed: int, bucket: Bucket, p: Policy, a: real) {
    var start, m := bucket.resetAt - p.window, p.maxRequests;
    && 1 <= bucket.count <= m
    && (bucket.resetAt <= a ==> passed == 0)
    && (start < a < bucket.resetAt ==> passed <= bucket.count - 1)
    && (a <= start < a + p.window ==> passed <= m - 1 + bucket.count)
    && passed <= 2 * m - 1
  }

  /** What holds at a time between calls; a key without a live bucket has only windows that have ended. */
  ghost predicate BoundOn(live: Option<Bucket>, passed: int, p: Policy, a: real, now: real) {
    match live
    case Some(bucket) => bucket.resetAt - p.window <= now < bucket.resetAt && WithinBound(passed, bucket, p, a)
    case None => (
      && passed <= 2 * p.maxRequests - 1 && (now <= a ==> passed == 0)
      && (now < a + p.window ==> passed <= p.maxRequests - 1))
  }

  function Expire(live: Option<Bucket>, now: real): Option<Bucket> {
    if live.Some? && live.value.resetAt > now then live else None
  }

  lemma {:induction false} WaitingKeepsBound(live: Option<Bucket>, passed: int, p: Policy, a: real, now: real, later: real)
    requires PolicyIsValid(p) && BoundOn(live, passed, p, a, now) && now <= later
    ensures BoundOn(Expire(live, later), passed, p, a, later)
  {
  }

  /** One key's bucket after a call of its own. */
  function OwnCall(live: Option<Bucket>, p: Policy, now: real): Bucket {
    match live
    case None => Bucket(1, now + p.window)
    case Some(b) => if b.count >= p.maxRequests then b else b.(count := b.count + 1)
  }

  predicate IsAdmitted(live: Option<Bucket>, p: Policy) {
    live.None? || live.value.count < p.maxRequests
  }

  lemma {:induction false} OwnCallKeepsBound(live: Option<Bucket>, passed: int, p: Policy, a: real, now: real)
    requires PolicyIsValid(p) && BoundOn(live, passed, p, a, now)
    ensures BoundOn(Some(OwnCall(live, p, now)),
                    passed + if a <= now < a + p.window && IsAdmitted(live, p) then 1 else 0, p, a, now)
  {
  }

  lemma {:induction false} CheckIsOwnCall(b: map<Key, Bucket>, p: Policy, identity: string, now: real)
    requires PolicyIsValid(p)
    ensures var live, v := LiveBucket(b, Key(p.name, identity), now), CheckStep(b, p, identity, now);
      && (v.retryAfter.None? <==> IsAdmitted(live, p))
      && LiveBucket(v.buckets, Key(p.name, identity), now) == Some(OwnCall(live, p, now))
  {
  }

  lemma {:induction false} LaterIsExpired(b: map<Key, Bucket>, key: Key, now: real, later: real)
    requires now <= later
    ensures LiveBucket(b, key, later) == Expire(LiveBucket(b, key, now), later)
  {
  }

  lemma {:induction false} BoundIsKept(trace: seq<Call>, key: Key, p: Policy, a: real, now: real)
    requires PolicyIsValid(p) && ClockAdvances(trace) && UsesPolicy(trace, key, p)
    requires forall i :: 0 <= i < |trace| ==> trace[i].now <= now
    ensures BoundOn(LiveBucket(BucketsAfter(trace), key, now), PassedFrom(trace, key, p, a), p, a, now)
  {
    if |trace| > 0 {
      var init, c := trace[..|trace| - 1], trace[|trace| - 1];
      var before := BucketsAfter(init);
      BoundIsKept(init, key, p, a, c.now);
      var live, passed := LiveBucket(before, key, c.now), PassedFrom(init, key, p, a);
      LaterIsExpired(BucketsAfter(trace), key, c.now, now);
      if KeyOf(c) == key {
        CheckIsOwnCall(before, p, c.identity, c.now);
        OwnCallKeepsBound(live, passed, p, a, c.now);
      } else {
        CallsAreIndependent(before, before, c, key, c.now);
      }
      WaitingKeepsBound(LiveBucket(BucketsAfter(trace), key, c.now), PassedFrom(trace, key, p, a), p, a, c.now, now);
    }
  }

  /** At most twice the limit less one call of a key passes in any interval of one window's length. */
  lemma {:induction false} AtMostTwiceTheLimitLessOne(trace: seq<Call>, key: Key, p: Policy, a: real)
    requires PolicyIsValid(p) && ClockAdvances(trace) && UsesPolicy(trace, key, p)
    ensures PassedFrom(trace, key, p, a) <= 2 * p.maxRequests - 1
  {
    if |trace| > 0 {
      BoundIsKept(trace, key, p, a, trace[|trace| - 1].now);
    }
  }

  // ---------------------------------------------------------------- the bound is reached

  /** `n` calls at one time. */
  function Burst(p: Policy, identity: string, now: real, n: nat): seq<Call> {
    seq(n, (i: nat) => Call(p, identity, now))
  }

  /** A whole window's allowance at once. */
  function FullWindow(p: Policy, identity: string, now: real): seq<Call>
    requires p.maxRequests > 0
  {
    [Call(p, identity, now)] + Burst(p, identity, now, p.maxRequests - 1)
  }

  /** One call, the rest of its window's allowance half a window later, and a full allowance at the next window. */
  function WorstCase(p: Policy, identity: string): seq<Call>
    requires p.maxRequests > 0
  {
    [Call(p, identity, 0.0)] + Burst(p, identity, p.window / 2.0, p.maxRequests - 1)
    + FullWindow(p, identity, p.window)
  }

  /** After the trace the key holds this bucket, and this many calls have passed from `a` on. */
  ghost predicate Stands(trace: seq<Call>, p: Policy, identity: string, a: real, now: real, bucket: Bucket, passed: int) {
    && LiveBucket(BucketsAfter(trace), Key(p.name, identity), now) == Some(bucket)
    && PassedFrom(trace, Key(p.name, identity), p, a) == passed
  }

  lemma {:induction false} OnePasses(trace: seq<Call>, p: Policy, identity: string, a: real, now: real, b: Bucket,
                                     passed: int)
    requires PolicyIsValid(p) && a <= now < a + p.window && Stands(trace, p, identity, a, now, b, passed)
    requires b.count < p.maxRequests
    ensures Stands(trace + [Call(p, identity, now)], p, identity, a, now, Bucket(b.count + 1, b.resetAt), passed + 1)
  {
    var all := trace + [Call(p, identity, now)];
    assert all[..|all| - 1] == trace;
    CheckIsOwnCall(BucketsAfter(trace), p, identity, now);
  }

  lemma {:induction false} BurstPasses(trace: seq<Call>, p: Policy, identity: string, a: real, now: real, n: nat,
                                       b: Bucket, passed: int)
    requires PolicyIsValid(p) && a <= now < a + p.window && Stands(trace, p, identity, a, now, b, passed)
    requires b.count + n <= p.maxRequests
    ensures Stands(trace + Burst(p, identity, now, n), p, identity, a, now, Bucket(b.count + n, b.resetAt), passed + n)
  {
    if n == 0 {
      assert trace + Burst(p, identity, now, n) == trace;
    } else {
      BurstPasses(trace, p, identity, a, now, n - 1, b, passed);
      var most := trace + Burst(p, identity, now, n - 1);
      OnePasses(most, p, identity, a, now, Bucket(b.count + n - 1, b.resetAt), passed + n - 1);
      assert trace + Burst(p, identity, now, n) == most + [Call(p, identity, now)];
    }
  }

  lemma {:induction false} WindowOpens(trace: seq<Call>, p: Policy, identity: string, a: real, now: real, passed: int)
    requires PolicyIsValid(p) && now < a + p.window
    requires LiveBucket(BucketsAfter(trace), Key(p.name, identity), now).None?
    requires PassedFrom(trace, Key(p.name, identity), p, a) == passed
    ensures Stands(trace + [Call(p, identity, now)], p, identity, a, now, Bucket(1, now + p.window),
                   passed + if a <= now then 1 else 0)
  {
    var all := trace + [Call(p, identity, now)];
    assert all[..|all| - 1] == trace;
    CheckIsOwnCall(BucketsAfter(trace), p, identity, now);
  }

  lemma {:induction false} FullWindowPasses(trace: seq<Call>, p: Policy, identity: string, a: real, now: real, passed: int)
    requires PolicyIsValid(p) && a <= now < a + p.window
    requires LiveBucket(BucketsAfter(trace), Key(p.name, identity), now).None?
    requires PassedFrom(trace, Key(p.name, identity), p, a) == passed
    ensures PassedFrom(trace + FullWindow(p, identity, now), Key(p.name, identity), p, a) == passed + p.maxRequests
  {
    var first := trace + [Call(p, identity, now)];
    WindowOpens(trace, p, identity, a, now, passed);
    BurstPasses(first, p, identity, a, now, p.maxRequests - 1, Bucket(1, now + p.window), passed + 1);
    assert trace + FullWindow(p, identity, now) == first + Burst(p, identity, now, p.maxRequests - 1);
  }

  lemma {:induction false} WorstCasePasses(p: Policy, identity: string)
    requires PolicyIsValid(p)
    ensures PassedFrom(WorstCase(p, identity), Key(p.name, identity), p, p.window / 2.0) == 2 * p.maxRequests - 1
  {
    var key, half, m := Key(p.name, identity), p.window / 2.0, p.maxRequests;
    var first := [Call(p, identity, 0.0)];
    WindowOpens([], p, identity, half, 0.0, 0);
    assert [] + first == first;
    LaterIsExpired(BucketsAfter(first), key, 0.0, half);
    BurstPasses(first, p, identity, half, half, m - 1, Bucket(1, p.window), 0);
    var second := first + Burst(p, identity, half, m - 1);
    LaterIsExpired(BucketsAfter(second), key, half, p.window);
    FullWindowPasses(second, p, identity, half, p.window, m - 1);
  }

  /** The bound is exact: for every policy some trace under a monotone clock reaches it. */
  lemma {:induction false} BoundIsReached(p: Policy, identity: string)
    requires PolicyIsValid(p)
    ensures ClockAdvances(WorstCase(p, identity)) && UsesPolicy(WorstCase(p, identity), Key(p.name, identity), p)
    ensures PassedFrom(WorstCase(p, identity), Key(p.name, identity), p, p.window / 2.0) == 2 * p.maxRequests - 1
  {
    WorstCasePasses(p, identity);
  }

  // ---------------------------------------------------------------- when the limit itself holds

  ghost predicate IsTrace(trace: seq<Call>, key: Key, p: Policy) {
    ClockAdvances(trace) && UsesPolicy(trace, key, p)
  }

  /** A policy keeps every interval of every trace within its limit exactly when it allows one call only. */
  lemma {:induction false} LimitHoldsOnlyForOne(p: Policy, identity: string)
    requires PolicyIsValid(p)
    ensures var key := Key(p.name, identity);
      (forall trace, a :: IsTrace(trace, key, p) ==> PassedFrom(trace, key, p, a) <= p.maxRequests) <==> p.maxRequests == 1
  {
    var key := Key(p.name, identity);
    if p.maxRequests == 1 {
      forall trace, a | IsTrace(trace, key, p) ensures PassedFrom(trace, key, p, a) <= p.maxRequests {
        AtMostTwiceTheLimitLessOne(trace, key, p, a);
      }
    }
    BoundIsReached(p, identity);
    assert IsTrace(WorstCase(p, identity), key, p);
    assert PassedFrom(WorstCase(p, identity), key, p, p.window / 2.0) == 2 * p.maxRequests - 1;
  }

  /** A trace whose calls are all earlier than `a`. */
  ghost predicate EndsBefore(trace: seq<Call>, a: real) {
    forall i :: 0 <= i < |trace| ==> trace[i].now < a
  }

  /** `rest` may follow `before` from the time `a` on. */
  ghost predicate Continues(before: seq<Call>, rest: seq<Call>, key: Key, p: Policy, a: real) {
    IsTrace(before + rest, key, p) && forall i :: 0 <= i < |rest| ==> a <= rest[i].now
  }

  /** The key has no window open, or has used the open one up. */
  predicate NothingLeft(live: Option<Bucket>, p: Policy) {
    live.None? || live.value.count >= p.maxRequests
  }

  /** From `a` on: a window opened before `a` is used up, and of those opened since one at most meets the interval. */
  ghost predicate LimitOn(live: Option<Bucket>, passed: int, p: Policy, a: real, now: real) {
    match live
    case None => passed <= p.maxRequests && (now < a + p.window ==> passed == 0)
    case Some(bucket) =>
      var start := bucket.resetAt - p.window;
      && start <= now && bucket.count <= p.maxRequests && passed <= p.maxRequests
      && (start < a ==> passed == 0 && bucket.count == p.maxRequests)
      && (a <= start < a + p.window ==> passed <= bucket.count)
  }

  lemma {:induction false} WaitingKeepsLimit(live: Option<Bucket>, passed: int, p: Policy, a: real, now: real, later: real)
    requires PolicyIsValid(p) && LimitOn(live, passed, p, a, now) && now <= later
    ensures LimitOn(Expire(live, later), passed, p, a, later)
  {
  }

  lemma {:induction false} OwnCallKeepsLimit(live: Option<Bucket>, passed: int, p: Policy, a: real, now: real)
    requires PolicyIsValid(p) && LimitOn(live, passed, p, a, now) && a <= now
    ensures LimitOn(Some(OwnCall(live, p, now)),
                    passed + if now < a + p.window && IsAdmitted(live, p) then 1 else 0, p, a, now)
  {
  }

  lemma {:induction false} NothingPassedYet(before: seq<Call>, key: Key, p: Policy, a: real)
    requires EndsBefore(before, a)
    ensures PassedFrom(before, key, p, a) == 0
  {
    if |before| > 0 {
      NothingPassedYet(before[..|before| - 1], key, p, a);
    }
  }

  /** A window that is still open at `a` was opened before `a` by the key's own policy. */
  lemma {:induction false} OpenWindow(before: seq<Call>, key: Key, p: Policy, a: real)
    requires PolicyIsValid(p) && IsTrace(before, key, p) && EndsBefore(before, a)
    requires LiveBucket(BucketsAfter(before), key, a).Some?
    ensures var bucket := LiveBucket(BucketsAfter(before), key, a).value;
      a < bucket.resetAt < a + p.window && 1 <= bucket.count <= p.maxRequests
  {
    var last := before[|before| - 1].now;
    BoundIsKept(before, key, p, a, last);
    LaterIsExpired(BucketsAfter(before), key, last, a);
  }

  lemma {:induction false} LimitAfterCall(trace: seq<Call>, c: Call, key: Key, p: Policy, a: real, now: real)
    requires PolicyIsValid(p) && UsesPolicy(trace + [c], key, p) && a <= c.now <= now
    requires LimitOn(LiveBucket(BucketsAfter(trace), key, c.now), PassedFrom(trace, key, p, a), p, a, c.now)
    ensures LimitOn(LiveBucket(BucketsAfter(trace + [c]), key, now), PassedFrom(trace + [c], key, p, a), p, a, now)
  {
    var all, before := trace + [c], BucketsAfter(trace);
    assert all[..|trace|] == trace && all[|trace|] == c;
    LaterIsExpired(BucketsAfter(all), key, c.now, now);
    if KeyOf(c) == key {
      CheckIsOwnCall(before, p, c.identity, c.now);
      OwnCallKeepsLimit(LiveBucket(before, key, c.now), PassedFrom(trace, key, p, a), p, a, c.now);
    } else {
      CallsAreIndependent(before, before, c, key, c.now);
    }
    WaitingKeepsLimit(LiveBucket(BucketsAfter(all), key, c.now), PassedFrom(all, key, p, a), p, a, c.now, now);
  }

  lemma {:induction false} LimitAtFirst(before: seq<Call>, key: Key, p: Policy, a: real, now: real)
    requires PolicyIsValid(p) && EndsBefore(before, a) && IsTrace(before, key, p) && a <= now
    requires NothingLeft(LiveBucket(BucketsAfter(before), key, a), p)
    ensures LimitOn(LiveBucket(BucketsAfter(before), key, now), PassedFrom(before, key, p, a), p, a, now)
  {
    NothingPassedYet(before, key, p, a);
    if LiveBucket(BucketsAfter(before), key, a).Some? { OpenWindow(before, key, p, a); }
    LaterIsExpired(BucketsAfter(before), key, a, now);
  }

  lemma {:induction false} OneCallLess(before: seq<Call>, rest: seq<Call>, key: Key, p: Policy, a: real)
    requires Continues(before, rest, key, p, a) && |rest| > 0
    ensures before + rest == before + rest[..|rest| - 1] + [rest[|rest| - 1]]
    ensures Continues(before, rest[..|rest| - 1], key, p, a) && a <= rest[|rest| - 1].now
    ensures forall i :: 0 <= i < |rest| ==> rest[i].now <= rest[|rest| - 1].now
  {
    var all, init := before + rest, before + rest[..|rest| - 1];
    assert forall i :: 0 <= i < |init| ==> init[i] == all[i];
    assert forall i :: 0 <= i < |rest| ==> rest[i] == all[|before| + i];
  }

  lemma {:induction false} LimitIsKept(before: seq<Call>, rest: seq<Call>, key: Key, p: Policy, a: real, now: real)
    requires PolicyIsValid(p) && EndsBefore(before, a) && Continues(before, rest, key, p, a)
    requires NothingLeft(LiveBucket(BucketsAfter(before), key, a), p)
    requires a <= now && forall i :: 0 <= i < |rest| ==> rest[i].now <= now
    ensures LimitOn(LiveBucket(BucketsAfter(before + rest), key, now), PassedFrom(before + rest, key, p, a), p, a, now)
    decreases |rest|
  {
    if |rest| == 0 {
      assert before + rest == before;
      LimitAtFirst(before, key, p, a, now);
    } else {
      var init, c := rest[..|rest| - 1], rest[|rest| - 1];
      OneCallLess(before, rest, key, p, a);
      LimitIsKept(before, init, key, p, a, c.now);
      LimitAfterCall(before + init, c, key, p, a, now);
    }
  }

  /** What exceeds the limit: the rest of the open window at `a`, and a full window as soon as it has ended. */
  function Overrun(p: Policy, identity: string, a: real, open: Bucket): seq<Call>
    requires 0 < p.maxRequests && open.count < p.maxRequests
  {
    Burst(p, identity, a, p.maxRequests - open.count) + FullWindow(p, identity, open.resetAt)
  }

  lemma {:induction false} OverrunContinues(before: seq<Call>, p: Policy, identity: string, a: real, open: Bucket)
    requires PolicyIsValid(p) && IsTrace(before, Key(p.name, identity), p) && EndsBefore(before, a)
    requires open.count < p.maxRequests && a < open.resetAt
    ensures Continues(before, Overrun(p, identity, a, open), Key(p.name, identity), p, a)
  {
  }

  lemma {:induction false} OverrunExceeds(before: seq<Call>, p: Policy, identity: string, a: real, open: Bucket)
    requires PolicyIsValid(p) && IsTrace(before, Key(p.name, identity), p) && EndsBefore(before, a)
    requires LiveBucket(BucketsAfter(before), Key(p.name, identity), a) == Some(open) && open.count < p.maxRequests
    ensures PassedFrom(before + Overrun(p, identity, a, open), Key(p.name, identity), p, a)
         == p.maxRequests - open.count + p.maxRequests
  {
    var key, n := Key(p.name, identity), p.maxRequests - open.count;
    OpenWindow(before, key, p, a);
    NothingPassedYet(before, key, p, a);
    BurstPasses(before, p, identity, a, a, n, open, 0);
    var used := before + Burst(p, identity, a, n);
    LaterIsExpired(BucketsAfter(used), key, a, open.resetAt);
    FullWindowPasses(used, p, identity, a, open.resetAt, n);
    assert before + Overrun(p, identity, a, open) == used + FullWindow(p, identity, open.resetAt);
  }

  /** Told from what has happened before `a`: whatever comes, at most the limit passes in one window's length from `a` on,
      exactly when the key has no window open at `a` or has used the open one up. */
  lemma {:induction false} LimitHoldsWhenNothingIsLeft(before: seq<Call>, p: Policy, identity: string, a: real)
    requires PolicyIsValid(p) && IsTrace(before, Key(p.name, identity), p) && EndsBefore(before, a)
    ensures var key := Key(p.name, identity);
      NothingLeft(LiveBucket(BucketsAfter(before), key, a), p) <==>
      forall rest: seq<Call> :: Continues(before, rest, key, p, a) ==> PassedFrom(before + rest, key, p, a) <= p.maxRequests
  {
    var key := Key(p.name, identity);
    if NothingLeft(LiveBucket(BucketsAfter(before), key, a), p) {
      forall rest: seq<Call> | Continues(before, rest, key, p, a)
        ensures PassedFrom(before + rest, key, p, a) <= p.maxRequests
      {
        var now := if |rest| == 0 then a else rest[|rest| - 1].now;
        assert forall i :: 0 <= i < |rest| ==> rest[i] == (before + rest)[|before| + i];
        LimitIsKept(before, rest, key, p, a, now);
      }
    } else {
      var open := LiveBucket(BucketsAfter(before), key, a).value;
      OverrunContinues(before, p, identity, a, open);
      OverrunExceeds(before, p, identity, a, open);
    }
  }

  // ---------------------------------------------------------------- waiting

  /** A refused caller that waits as long as it was told is admitted, whatever other keys do meanwhile. */
  lemma {:induction false} WaitingIsEnough(trace: seq<Call>, others: seq<Call>, again: Call)
    requires |trace| > 0 && LastVerdict(trace).retryAfter.Some?
    requires ClockAdvances(trace + others + [again]) && KeyOf(again) == KeyOf(trace[|trace| - 1])
    requires forall i :: 0 <= i < |others| ==> KeyOf(others[i]) != KeyOf(again)
    requires again.now >= trace[|trace| - 1].now + LastVerdict(trace).retryAfter.value as real
    ensures LastVerdict(trace + others + [again]).retryAfter.None?
  {
    var key := KeyOf(again);
    var before := trace + others;
    var all := before + [again];
    assert all[..|before|] == before && all[|before|] == again && trace + others + [again] == all;
    assert forall i :: 0 <= i < |before| ==> before[i] == all[i];
    assert forall i :: 0 <= i < |trace| ==> trace[i] == all[i];
    LiveBucketIsOwn(before, key, again.now);
    LiveBucketIsOwn(trace, key, again.now);
    KeepAppend(HasKey(key), trace, others);
    KeepNone(HasKey(key), others);
    assert Keep(HasKey(key), before) == Keep(HasKey(key), trace);
    assert LiveBucket(BucketsAfter(before), key, again.now).None?;
    assert LastVerdict(all) == CheckStep(BucketsAfter(before), again.policy, again.identity, again.now);
  }
}
