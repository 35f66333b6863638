/** The quota engine as the object it is: a bucket map and a cleanup deadline, edited in place. */
module QuotaEngine {
  import opened Common
  import opened Rules
  import opened Admission
  import opened Quota

  /** `NewEngine` replaces non-positive settings by its defaults. */
  function Defaulted(config: Quota.Config): (c: Quota.Config)
    ensures c.Valid()
    ensures config.lagRetry > 0 ==> c.lagRetry == config.lagRetry
    ensures config.gcInterval > 0 ==> c.gcInterval == config.gcInterval
    ensures config.grace > 0 ==> c.grace == config.grace
    ensures config.maxBuckets > 0 ==> c.maxBuckets == config.maxBuckets
    ensures config.lagRetry <= 0 ==> c.lagRetry == 50 * MILLISECOND
    ensures config.gcInterval <= 0 ==> c.gcInterval == 30 * SECOND
    ensures config.grace <= 0 ==> c.grace == 120 * SECOND
    ensures config.maxBuckets <= 0 ==> c.maxBuckets == 1_000_000
  {
    Quota.Config(
      if config.lagRetry <= 0 then 50 * MILLISECOND else config.lagRetry,
      if config.gcInterval <= 0 then 30 * SECOND else config.gcInterval,
      if config.grace <= 0 then 120 * SECOND else config.grace,
      if config.maxBuckets <= 0 then 1_000_000 else config.maxBuckets)
  }

  class Engine {
    const config: Quota.Config
    var buckets: map<string, Bucket>
    var nextCleanup: Option<int>

    constructor (config: Quota.Config)
      ensures this.config == Defaulted(config) && State() == INITIAL
    {
      this.config := Defaulted(config);
      buckets, nextCleanup := map[], None;
    }

    ghost function State(): Quota.State
      reads this
    {
      Quota.State(buckets, nextCleanup)
    }

    /** `cleanupExpiredLocked`: every expired bucket is deleted from the map while it is walked. */
    method CleanupExpired(now: int)
      modifies this
      ensures State() == Cleaned(config, old(State()), now)
    {
      if nextCleanup.Some? && now < nextCleanup.value && |buckets| < config.maxBuckets {
        return;
      }
      var all := buckets;
      var todo := all.Keys;
      while todo != {}
        invariant todo <= all.Keys
        invariant buckets == map k | k in all && (k in todo || now < all[k].resetAt + config.grace) :: all[k]
        decreases todo
      {
        var key :| key in todo;
        todo := todo - {key};
        if now >= all[key].resetAt + config.grace {
          buckets := buckets - {key};
        }
      }
      nextCleanup := Some(now + config.gcInterval);
    }

    /** The part of `Acquire` under the lock. */
    method Deduct(validated: Response, call: Call) returns (response: Response)
      modifies this
      ensures var (s', outcome) := Step(config, old(State()), call);
              State() == s' && response == Answer(validated, outcome)
    {
      CleanupExpired(call.time);
      var known := call.key in buckets;
      if !known && |buckets| >= config.maxBuckets {
        return validated.(decision := Denied, reason := "bucket_capacity_exceeded",
                          retryAfterMs := Milliseconds(config.gcInterval));
      }
      if !known || call.time >= buckets[call.key].resetAt {
        buckets := buckets[call.key := Bucket(call.limit.quota, call.time + WindowOf(call.limit.windowSeconds))];
      }
      var bucket := buckets[call.key];
      if bucket.remaining < call.cost {
        return validated.(decision := Denied, reason := "rate_limited", remaining := bucket.remaining,
                          resetAtUnixMs := UnixMilli(bucket.resetAt),
                          retryAfterMs := Max(0, Milliseconds(Saturate(bucket.resetAt - call.time))));
      }
      bucket := bucket.(remaining := bucket.remaining - call.cost);
      buckets := buckets[call.key := bucket];
      response := validated.(decision := Decision.Allowed, reason := "allowed", remaining := bucket.remaining,
                             resetAtUnixMs := UnixMilli(bucket.resetAt));
    }

    /**
     `Acquire`: `first` and `second` are the snapshots the store holds at its two reads, `now` the
     clock reading between them and the lock.
     */
    method Acquire(first: Snapshot, second: Snapshot, req: Request, now: int) returns (response: Response)
      modifies this
      ensures (State(), response) == Acquired(config, old(State()), first, second, req, now)
    {
      response := Validate(config.lagRetry, first, req);
      if response.decision != Unspecified {
        return;
      }
      response := Deduct(response, CallOf(req, LimitOf(second, req), now));
    }
  }
}
