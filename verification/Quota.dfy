/**
 The quota engine's critical section: fixed-window buckets in a map, reset lazily, collected
 after a grace period, and capped in number.  Times are nanoseconds.
 */
module Quota {
  import opened Common
  import opened Text

  const SECOND: int := 1_000_000_000
  const MILLISECOND: int := 1_000_000

  /** The largest `WindowSeconds` whose product with a second still fits a `time.Duration`. */
  const MAX_WINDOW_SECONDS: int := 9223372036

  /** Two's complement wrap-around of a 64-bit integer. */
  function WrapInt64(n: int): (w: int)
    ensures IsInt64(w)
    ensures IsInt64(n) ==> w == n
    ensures (n - w) % 0x1_0000_0000_0000_0000 == 0
  {
    (n - INT64_MIN) % (INT64_MAX - INT64_MIN + 1) + INT64_MIN
  }

  /** `time.Duration(seconds) * time.Second`, overflow included. */
  function WindowOf(seconds: int): int {
    WrapInt64(seconds * SECOND)
  }

  /** `Time.Sub` saturates at the ends of `time.Duration`. */
  function Saturate(n: int): int {
    if n < INT64_MIN then INT64_MIN else if n > INT64_MAX then INT64_MAX else n
  }

  /** `Duration.Milliseconds`: integer division in Go truncates toward zero. */
  function Milliseconds(duration: int): int {
    if duration >= 0 then duration / MILLISECOND else -(-duration / MILLISECOND)
  }

  /** `Time.UnixMilli`: rounds down, also before 1970. */
  function UnixMilli(t: int): int {
    t / MILLISECOND
  }

  function Max(a: int, b: int): int {
    if a > b then a else b
  }

  datatype Bucket = Bucket(remaining: int, resetAt: int)

  /** Durations and the bucket cap, as `NewEngine` leaves them: all positive. */
  datatype Config = Config(lagRetry: int, gcInterval: int, grace: int, maxBuckets: int) {
    predicate Valid() {
      lagRetry > 0 && gcInterval > 0 && grace > 0 && maxBuckets > 0
    }
  }

  /** `nextCleanup` is None while `nextCleanupAt` is the zero time. */
  datatype State = State(buckets: map<string, Bucket>, nextCleanup: Option<int>)

  const INITIAL := State(map[], None)

  /** What the critical section reads of a rule. */
  datatype Limit = Limit(quota: int, windowSeconds: int) {
    /** Limits for which the window product does not overflow. */
    predicate Proper() {
      quota >= 0 && 1 <= windowSeconds <= MAX_WINDOW_SECONDS
    }
  }

  /** What the critical section reads of a rule that is gone. */
  const NO_LIMIT := Limit(0, 0)

  /** A limit no more generous than `cap`, or that of a rule that is gone. */
  predicate Within(limit: Limit, cap: Limit) {
    || limit == NO_LIMIT
    || (0 <= limit.quota <= cap.quota && cap.windowSeconds <= limit.windowSeconds <= MAX_WINDOW_SECONDS)
  }

  /** One entry to the critical section; `time` was read before the lock was taken. */
  datatype Call = Call(key: string, limit: Limit, cost: int, time: int) {
    /** Every call that reaches the critical section has a normalised cost and a non-negative quota. */
    predicate Proper() {
      cost >= 1 && limit.quota >= 0
    }
  }

  datatype Verdict = Allowed | RateLimited | CapacityExceeded

  datatype Outcome = Outcome(verdict: Verdict, remaining: int, resetAtUnixMs: int, retryAfterMs: int)

  /** A cost below one counts as one. */
  function NormalCost(cost: int): (c: int)
    ensures c >= 1 && (cost >= 1 ==> c == cost)
  {
    if cost <= 0 then 1 else cost
  }

  predicate CleanupDue(cfg: Config, s: State, now: int) {
    s.nextCleanup == None || now >= s.nextCleanup.value || |s.buckets| >= cfg.maxBuckets
  }

  /** The buckets that a cleanup at `now` keeps. */
  function Kept(cfg: Config, buckets: map<string, Bucket>, now: int): map<string, Bucket> {
    map k | k in buckets && now < buckets[k].resetAt + cfg.grace :: buckets[k]
  }

  function Cleaned(cfg: Config, s: State, now: int): State {
    if CleanupDue(cfg, s, now) then State(Kept(cfg, s.buckets, now), Some(now + cfg.gcInterval)) else s
  }

  /** The bucket a call works on: the live one, or a fresh one when there is none. */
  function BucketFor(buckets: map<string, Bucket>, c: Call): Bucket {
    if c.key in buckets && c.time < buckets[c.key].resetAt then buckets[c.key]
    else Bucket(c.limit.quota, c.time + WindowOf(c.limit.windowSeconds))
  }

  /** Deduct from a bucket if it holds enough. */
  function Deduct(b: Bucket, c: Call): (Bucket, Outcome) {
    if b.remaining < c.cost then
      (b, Outcome(RateLimited, b.remaining, UnixMilli(b.resetAt), Max(0, Milliseconds(Saturate(b.resetAt - c.time)))))
    else
      var left := b.remaining - c.cost;
      (Bucket(left, b.resetAt), Outcome(Allowed, left, UnixMilli(b.resetAt), 0))
  }

  /** The critical section as a transition. */
  function Step(cfg: Config, s: State, c: Call): (State, Outcome) {
    var clean := Cleaned(cfg, s, c.time);
    if c.key !in clean.buckets && |clean.buckets| >= cfg.maxBuckets then
      (clean, Outcome(CapacityExceeded, 0, 0, Milliseconds(cfg.gcInterval)))
    else
      var (b, outcome) := Deduct(BucketFor(clean.buckets, c), c);
      (State(clean.buckets[c.key := b], clean.nextCleanup), outcome)
  }

  // ---------------------------------------------------------------- runs

  /** The state after a sequence of calls, from the empty engine. */
  ghost function After(cfg: Config, calls: seq<Call>): State {
    if calls == [] then INITIAL
    else Step(cfg, After(cfg, calls[..|calls| - 1]), calls[|calls| - 1]).0
  }

  ghost function OutcomeAt(cfg: Config, calls: seq<Call>, i: nat): Outcome
    requires i < |calls|
  {
    Step(cfg, After(cfg, calls[..i]), calls[i]).1
  }

  /** Extending a run does not change the answers it already gave. */
  lemma OutcomeOfPrefix(cfg: Config, calls: seq<Call>, n: nat, i: nat)
    requires i < n <= |calls|
    ensures OutcomeAt(cfg, calls[..n], i) == OutcomeAt(cfg, calls, i)
  {
    assert calls[..n][..i] == calls[..i];
  }

  /**
   The clock is read before the lock is taken, so times seen under the lock may step back,
   but by at most `skew` below any time seen before.
   */
  ghost predicate Skewed(calls: seq<Call>, skew: int) {
    forall i, j :: 0 <= i < j < |calls| ==> calls[j].time >= calls[i].time - skew
  }

  ghost predicate AllProper(calls: seq<Call>) {
    forall i :: 0 <= i < |calls| ==> calls[i].Proper()
  }

  /** The cost a run grants to `key` at times in the closed interval from `lo` to `hi`. */
  ghost function Granted(cfg: Config, calls: seq<Call>, key: string, lo: int, hi: int): int {
    if calls == [] then 0
    else
      var last := |calls| - 1;
      Granted(cfg, calls[..last], key, lo, hi) + Share(calls[last], OutcomeAt(cfg, calls, last), key, lo, hi)
  }

  /** What one call contributes to `Granted`. */
  ghost function Share(c: Call, outcome: Outcome, key: string, lo: int, hi: int): int {
    if c.key == key && lo <= c.time <= hi && outcome.verdict == Allowed then c.cost else 0
  }

  // ---------------------------------------------------------------- the window product

  /** The window is the configured number of seconds exactly when the product fits a Duration. */
  lemma WindowExact(seconds: int)
    requires 1 <= seconds <= INT64_MAX
    ensures WindowOf(seconds) == seconds * SECOND <==> seconds <= MAX_WINDOW_SECONDS
  {
    if seconds > MAX_WINDOW_SECONDS {
      assert !IsInt64(seconds * SECOND);
    }
  }
}
