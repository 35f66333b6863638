/**
 Safety of whole runs of the quota engine: what one bucket may grant, how much a key may be
 granted in any interval, and that the number of buckets stays under its cap.
 */
module QuotaBounds {
  import opened Common
  import opened Quota

  // ---------------------------------------------------------------- the cap

  lemma KeptShrinks(cfg: Config, buckets: map<string, Bucket>, now: int)
    ensures Kept(cfg, buckets, now).Keys <= buckets.Keys
    ensures |Kept(cfg, buckets, now)| <= |buckets|
  {
    SubsetSize(Kept(cfg, buckets, now).Keys, buckets.Keys);
  }

  lemma {:induction false} SubsetSize<T>(small: set<T>, big: set<T>)
    requires small <= big
    ensures |small| <= |big|
  {
    if small != {} {
      var x :| x in small;
      SubsetSize(small - {x}, big - {x});
    }
  }

  /** The bucket count never exceeds the configured maximum, whatever the calls and clocks. */
  lemma {:induction false} BucketsCapped(cfg: Config, calls: seq<Call>)
    requires cfg.Valid()
    ensures |After(cfg, calls).buckets| <= cfg.maxBuckets
  {
    if calls != [] {
      var last := |calls| - 1;
      BucketsCapped(cfg, calls[..last]);
      CapKept(cfg, After(cfg, calls[..last]), calls[last]);
    }
  }

  lemma CapKept(cfg: Config, s: State, c: Call)
    requires |s.buckets| <= cfg.maxBuckets
    ensures |Step(cfg, s, c).0.buckets| <= cfg.maxBuckets
  {
    KeptShrinks(cfg, s.buckets, c.time);
    var clean := Cleaned(cfg, s, c.time);
    if c.key in clean.buckets || |clean.buckets| < cfg.maxBuckets {
      var b := Deduct(BucketFor(clean.buckets, c), c).0;
      var keys := clean.buckets[c.key := b].Keys;
      assert keys == clean.buckets.Keys + {c.key};
      assert |keys| <= if c.key in clean.buckets then |clean.buckets| else |clean.buckets| + 1;
    }
  }

  // ---------------------------------------------------------------- conservation in one bucket

  /** A call opens a new bucket for its key: none is live, and the cap leaves room. */
  ghost predicate Opens(cfg: Config, s: State, c: Call) {
    var clean := Cleaned(cfg, s, c.time);
    && Step(cfg, s, c).1.verdict != CapacityExceeded
    && (c.key in clean.buckets ==> c.time >= clean.buckets[c.key].resetAt)
  }

  ghost predicate OpensAt(cfg: Config, calls: seq<Call>, i: nat, key: string)
    requires i < |calls|
  {
    calls[i].key == key && Opens(cfg, After(cfg, calls[..i]), calls[i])
  }

  /** What one call takes from the bucket of `key`. */
  ghost function Paid(c: Call, outcome: Outcome, key: string): int {
    if c.key == key && outcome.verdict == Allowed then c.cost else 0
  }

  /** The cost granted to `key` by the calls from index `from` on. */
  ghost function GrantedSince(cfg: Config, calls: seq<Call>, key: string, from: nat): int {
    if |calls| <= from then 0
    else
      var last := |calls| - 1;
      GrantedSince(cfg, calls[..last], key, from) + Paid(calls[last], OutcomeAt(cfg, calls, last), key)
  }

  /** One call either opens the bucket of `key` or takes exactly the granted cost from it. */
  lemma StepConserves(cfg: Config, s: State, c: Call, key: string)
    requires c.Proper() && key in Step(cfg, s, c).0.buckets
    ensures var (s', outcome) := Step(cfg, s, c);
            var b := s'.buckets[key];
            if c.key == key && Opens(cfg, s, c) then
              && b.remaining + Paid(c, outcome, key) == c.limit.quota
              && b.resetAt == c.time + WindowOf(c.limit.windowSeconds)
              && b.remaining >= 0
            else
              && key in s.buckets
              && b.remaining + Paid(c, outcome, key) == s.buckets[key].remaining
              && b.resetAt == s.buckets[key].resetAt
              && (s.buckets[key].remaining >= 0 ==> b.remaining >= 0)
  {
  }

  /** The bucket of `key` accounts for every unit granted since call `opening` opened it. */
  ghost predicate AccountedSince(cfg: Config, calls: seq<Call>, key: string, opening: nat) {
    && key in After(cfg, calls).buckets
    && opening < |calls|
    && OpensAt(cfg, calls, opening, key)
    && (forall i :: opening < i < |calls| ==> !OpensAt(cfg, calls, i, key))
    && var b := After(cfg, calls).buckets[key];
    && b.remaining >= 0
    && b.resetAt == calls[opening].time + WindowOf(calls[opening].limit.windowSeconds)
    && b.remaining + GrantedSince(cfg, calls, key, opening) == calls[opening].limit.quota
  }

  /**
   Every bucket was opened by some call, keeps that call's quota and window whatever rule later
   calls carry, and its remaining balance plus all it has granted since is the quota at opening.
   */
  lemma {:induction false} BucketConservation(cfg: Config, calls: seq<Call>, key: string) returns (opening: nat)
    requires AllProper(calls)
    ensures key in After(cfg, calls).buckets ==> AccountedSince(cfg, calls, key, opening)
  {
    hide Step, Cleaned;
    opening := 0;
    if key in After(cfg, calls).buckets {
      var last := |calls| - 1;
      var before := calls[..last];
      StepConserves(cfg, After(cfg, before), calls[last], key);
      if OpensAt(cfg, calls, last, key) {
        opening := last;
      } else {
        opening := BucketConservation(cfg, before, key);
        forall i | opening <= i < last
          ensures OpensAt(cfg, before, i, key) == OpensAt(cfg, calls, i, key)
        {
          assert before[..i] == calls[..i];
        }
      }
      var b := After(cfg, calls).buckets[key];
      assert After(cfg, calls) == Step(cfg, After(cfg, before), calls[last]).0;
      assert OpensAt(cfg, calls, opening, key);
      assert forall i :: opening < i < |calls| ==> !OpensAt(cfg, calls, i, key);
      assert b.remaining >= 0;
      assert b.resetAt == calls[opening].time + WindowOf(calls[opening].limit.windowSeconds);
      assert b.remaining + GrantedSince(cfg, calls, key, opening) == calls[opening].limit.quota;
    }
  }

  // ---------------------------------------------------------------- the sliding-interval bound

  function CeilDiv(a: int, b: int): int
    requires b > 0
  {
    (a + b - 1) / b
  }

  /**
   Bookkeeping for one key along a run: start and reset of its latest epoch, how many epochs could
   grant inside the interval of interest, and start and reset of the latest of these.  Buckets of a
   rule that is gone grant nothing and are no epochs.
   */
  datatype Epochs = Epochs(started: bool, start: int, reset: int, counted: int, countedStart: int, countedReset: int)

  /** An epoch can grant within [lo, hi] only if it is in reach. */
  predicate InReach(start: int, reset: int, skew: int, lo: int, hi: int) {
    lo < reset && start <= hi + skew
  }

  /** Counted epochs are spaced: each resets at least a window after the one before. */
  predicate Spaced(e: Epochs, window: int, skew: int, lo: int, hi: int) {
    && e.counted >= 0
    && (e.counted >= 1 ==>
          && e.started && e.countedReset <= e.reset && e.countedStart <= hi + skew
          && lo + (e.counted - 1) * window < e.countedReset)
    && (e.counted >= 2 ==> lo + (e.counted - 2) * window < e.countedStart)
  }

  /** What the bookkeeping says about the bucket of the key, if there is one; `seen` bounds every time so far. */
  predicate BucketTracked(bucket: Option<Bucket>, quota: int, skew: int, e: Epochs, seen: int) {
    && (e.started ==> e.start <= seen)
    && match bucket
       case None => e.started ==> e.reset + skew <= seen
       case Some(b) =>
         && 0 <= b.remaining <= quota && (e.started ==> e.reset <= b.resetAt)
         && (b.remaining > 0 ==> e.started && b.resetAt == e.reset)
  }

  /** The total granted is what the counted epochs can grant, less what the latest has left. */
  predicate GrantTracked(bucket: Option<Bucket>, quota: int, skew: int, lo: int, hi: int, e: Epochs, granted: int) {
    var reaches := e.started && InReach(e.start, e.reset, skew, lo, hi);
    && (reaches ==> e.counted >= 1 && e.countedStart == e.start && e.countedReset == e.reset)
    && granted <= e.counted * quota - (if reaches && bucket.Some? then bucket.value.remaining else 0)
  }

  function BucketOf(s: State, key: string): Option<Bucket> {
    if key in s.buckets then Some(s.buckets[key]) else None
  }

  /** The facts that tie the bookkeeping to the engine. */
  ghost predicate Tracks(s: State, key: string, cap: Limit, skew: int, lo: int, hi: int, e: Epochs, granted: int,
                         seen: int) {
    && Spaced(e, cap.windowSeconds * SECOND, skew, lo, hi)
    && BucketTracked(BucketOf(s, key), cap.quota, skew, e, seen)
    && GrantTracked(BucketOf(s, key), cap.quota, skew, lo, hi, e, granted)
  }

  /** A cleanup removes a bucket only when its epoch is over for every reading to come. */
  lemma TracksCleanup(cfg: Config, s: State, now: int, key: string, cap: Limit, skew: int,
                      lo: int, hi: int, e: Epochs, granted: int, seen: int)
    requires Tracks(s, key, cap, skew, lo, hi, e, granted, seen) && 0 <= skew <= cfg.grace
    ensures Tracks(Cleaned(cfg, s, now), key, cap, skew, lo, hi, e, granted, Max(seen, now))
  {
    hide Spaced, InReach;
  }

  /** A key's new epoch starts no earlier than its latest one ends. */
  lemma OpensLater(bucket: Option<Bucket>, quota: int, skew: int, e: Epochs, seen: int, now: int)
    requires BucketTracked(bucket, quota, skew, e, seen) && now >= seen - skew && e.started
    requires bucket.Some? ==> now >= bucket.value.resetAt
    ensures now >= e.reset
  {
  }

  lemma Distribute(n: int, m: int)
    ensures (n + 1) * m == n * m + m
  {
  }

  function Opened(e: Epochs, start: int, reset: int, skew: int, lo: int, hi: int): Epochs {
    if InReach(start, reset, skew, lo, hi) then Epochs(true, start, reset, e.counted + 1, start, reset)
    else Epochs(true, start, reset, e.counted, e.countedStart, e.countedReset)
  }

  lemma OpenedSpaced(e: Epochs, start: int, reset: int, window: int, skew: int, lo: int, hi: int)
    requires Spaced(e, window, skew, lo, hi) && reset >= start + window && window > 0
    requires e.started ==> start >= e.reset
    ensures Spaced(Opened(e, start, reset, skew, lo, hi), window, skew, lo, hi)
  {
    Distribute(e.counted - 1, window);
    Distribute(e.counted - 2, window);
  }

  lemma CountIsNatural(e: Epochs, window: int, skew: int, lo: int, hi: int)
    requires Spaced(e, window, skew, lo, hi)
    ensures e.counted >= 0
  {
  }

  /** A call on the live bucket of its key. */
  lemma TracksLive(b: Bucket, c: Call, key: string, cap: Limit, skew: int, lo: int, hi: int, e: Epochs, granted: int,
                   seen: int)
    requires BucketTracked(Some(b), cap.quota, skew, e, seen) &&
      GrantTracked(Some(b), cap.quota, skew, lo, hi, e, granted)
    requires c.key == key && c.cost >= 1 && seen - skew <= c.time < b.resetAt
    ensures var (b', outcome) := Deduct(b, c);
            && BucketTracked(Some(b'), cap.quota, skew, e, Max(seen, c.time))
            && GrantTracked(Some(b'), cap.quota, skew, lo, hi, e, granted + Share(c, outcome, key, lo, hi))
  {
    hide Milliseconds, UnixMilli, Saturate;
  }

  /** A call that opens a bucket for its key. */
  lemma TracksOpen(before: Option<Bucket>, c: Call, key: string, cap: Limit, skew: int, lo: int, hi: int,
                   e: Epochs, granted: int, seen: int) returns (e': Epochs)
    requires BucketTracked(before, cap.quota, skew, e, seen) &&
      GrantTracked(before, cap.quota, skew, lo, hi, e, granted)
    requires Spaced(e, cap.windowSeconds * SECOND, skew, lo, hi) && (e.started ==> c.time >= e.reset)
    requires cap.Proper() && skew >= 0 && c.key == key && c.cost >= 1 && Within(c.limit, cap)
    ensures var (b, outcome) := Deduct(Bucket(c.limit.quota, c.time + WindowOf(c.limit.windowSeconds)), c);
            && Spaced(e', cap.windowSeconds * SECOND, skew, lo, hi)
            && BucketTracked(Some(b), cap.quota, skew, e', Max(seen, c.time))
            && GrantTracked(Some(b), cap.quota, skew, lo, hi, e', granted + Share(c, outcome, key, lo, hi))
  {
    hide Milliseconds, UnixMilli, Saturate, Spaced;
    assert e.counted >= 0 by { CountIsNatural(e, cap.windowSeconds * SECOND, skew, lo, hi); }
    if c.limit == NO_LIMIT {
      e' := e;
    } else {
      WindowExact(c.limit.windowSeconds);
      var reset := c.time + c.limit.windowSeconds * SECOND;
      e' := Opened(e, c.time, reset, skew, lo, hi);
      OpenedSpaced(e, c.time, reset, cap.windowSeconds * SECOND, skew, lo, hi);
      Distribute(e.counted, cap.quota);
    }
  }

  /** Any call with bounded skew, carrying a limit within the cap if it is for the key. */
  lemma TracksStep(cfg: Config, s: State, c: Call, key: string, cap: Limit, skew: int,
                   lo: int, hi: int, e: Epochs, granted: int, seen: int) returns (e': Epochs)
    requires Tracks(s, key, cap, skew, lo, hi, e, granted, seen)
    requires 0 <= skew <= cfg.grace && cap.Proper() && c.cost >= 1 && c.time >= seen - skew
    requires c.key == key ==> Within(c.limit, cap)
    ensures Tracks(Step(cfg, s, c).0, key, cap, skew, lo, hi,
                   e', granted + Share(c, Step(cfg, s, c).1, key, lo, hi), Max(seen, c.time))
  {
    hide Cleaned, Milliseconds, UnixMilli, Saturate, Spaced, BucketTracked, GrantTracked, Within;
    TracksCleanup(cfg, s, c.time, key, cap, skew, lo, hi, e, granted, seen);
    var clean := Cleaned(cfg, s, c.time);
    var bucket := BucketOf(clean, key);
    e' := e;
    assert Max(Max(seen, c.time), c.time) == Max(seen, c.time);
    if Step(cfg, s, c).1.verdict != CapacityExceeded && c.key == key {
      if bucket.Some? && c.time < bucket.value.resetAt {
        TracksLive(bucket.value, c, key, cap, skew, lo, hi, e, granted, Max(seen, c.time));
      } else {
        if e.started {
          OpensLater(bucket, cap.quota, skew, e, Max(seen, c.time), c.time);
        }
        e' := TracksOpen(bucket, c, key, cap, skew, lo, hi, e, granted, Max(seen, c.time));
      }
    } else {
      assert BucketOf(Step(cfg, s, c).0, key) == bucket;
    }
  }

  /** `seen` is the latest time of a run, and anything at all before the first call. */
  ghost predicate Latest(calls: seq<Call>, seen: int) {
    && (forall i :: 0 <= i < |calls| ==> calls[i].time <= seen)
    && (calls != [] ==> exists i :: 0 <= i < |calls| && calls[i].time == seen)
  }

  /** The key's calls all carry limits within the cap. */
  ghost predicate AllWithin(calls: seq<Call>, key: string, cap: Limit) {
    forall i :: 0 <= i < |calls| && calls[i].key == key ==> Within(calls[i].limit, cap)
  }

  /** The bookkeeping can be kept up along any run with bounded skew and limits within the cap. */
  lemma {:induction false} TrackRun(cfg: Config, calls: seq<Call>, key: string, cap: Limit, skew: int,
                                    lo: int, hi: int, start: int) returns (e: Epochs, seen: int)
    requires 0 <= skew <= cfg.grace && cap.Proper() && AllProper(calls) && Skewed(calls, skew)
    requires AllWithin(calls, key, cap)
    ensures Latest(calls, seen) && (calls == [] ==> seen == start)
    ensures Tracks(After(cfg, calls), key, cap, skew, lo, hi, e, Granted(cfg, calls, key, lo, hi), seen)
  {
    e, seen := Epochs(false, 0, 0, 0, 0, 0), start;
    if calls != [] {
      hide Step, Share, Tracks, Within;
      var last := |calls| - 1;
      var before, c := calls[..last], calls[last];
      e, seen := TrackRun(cfg, before, key, cap, skew, lo, hi, c.time);
      e := TracksStep(cfg, After(cfg, before), c, key, cap, skew, lo, hi, e, Granted(cfg, before, key, lo, hi), seen);
      LatestExtends(calls, seen);
      seen := Max(seen, c.time);
    }
  }

  lemma LatestExtends(calls: seq<Call>, seen: int)
    requires calls != []
    requires Latest(calls[..|calls| - 1], seen)
    requires |calls| == 1 ==> seen == calls[0].time
    ensures Latest(calls, Max(seen, calls[|calls| - 1].time))
  {
    var last := |calls| - 1;
    if calls[last].time < seen {
      var i :| 0 <= i < last && calls[..last][i].time == seen;
      assert calls[i].time == seen;
    } else {
      assert calls[last].time == Max(seen, calls[last].time);
    }
  }

  lemma MultiplyMonotone(a: int, b: int, m: int)
    requires m >= 0
    ensures a <= b ==> a * m <= b * m
  {
  }

  lemma CountWindows(n: int, window: int, span: int)
    requires window > 0 && span >= 0 && (n - 2) * window < span
    ensures n <= CeilDiv(span, window) + 1
  {
    MultiplyMonotone(CeilDiv(span, window), n - 2, window);
    assert CeilDiv(span, window) * window >= span;
  }

  /** Counted epochs reset at least a window apart, and all lie in reach. */
  lemma EpochsFit(e: Epochs, window: int, skew: int, lo: int, hi: int)
    requires Spaced(e, window, skew, lo, hi) && window > 0 && skew >= 0 && lo <= hi
    ensures e.counted <= CeilDiv(hi - lo + skew, window) + 1
  {
    if e.counted < 2 {
      CountWindows(0, window, hi - lo + skew);
      assert CeilDiv(hi - lo + skew, window) >= 0;
    } else {
      CountWindows(e.counted, window, hi - lo + skew);
    }
  }

  /** What the bookkeeping says about the total granted. */
  lemma TracksBounds(s: State, key: string, cap: Limit, skew: int, lo: int, hi: int, e: Epochs, granted: int, seen: int)
    requires Tracks(s, key, cap, skew, lo, hi, e, granted, seen)
    requires cap.Proper() && skew >= 0 && lo <= hi
    ensures granted <= (CeilDiv(hi - lo + skew, cap.windowSeconds * SECOND) + 1) * cap.quota
  {
    hide CeilDiv, Spaced;
    EpochsFit(e, cap.windowSeconds * SECOND, skew, lo, hi);
    MultiplyMonotone(e.counted, CeilDiv(hi - lo + skew, cap.windowSeconds * SECOND) + 1, cap.quota);
  }

  /**
   However calls interleave, buckets are collected, and the rule changes or goes and comes back: as
   long as every limit read for a key has at most the cap's quota and at least its window, the key
   is granted at most ceil((L + skew) / W) + 1 quotas in an interval of length L.
   */
  lemma SlidingBoundWithin(cfg: Config, calls: seq<Call>, key: string, cap: Limit, skew: int, lo: int, hi: int)
    requires cfg.Valid() && 0 <= skew <= cfg.grace && cap.Proper() && AllProper(calls) && Skewed(calls, skew)
    requires AllWithin(calls, key, cap) && lo <= hi
    ensures Granted(cfg, calls, key, lo, hi)
         <= (CeilDiv(hi - lo + skew, cap.windowSeconds * SECOND) + 1) * cap.quota
  {
    hide Tracks, Granted, After, Skewed, CeilDiv, AllProper, AllWithin, Latest;
    var e, seen := TrackRun(cfg, calls, key, cap, skew, lo, hi, 0);
    TracksBounds(After(cfg, calls), key, cap, skew, lo, hi, e, Granted(cfg, calls, key, lo, hi), seen);
  }

  /** In particular for a constant rule. */
  lemma SlidingBound(cfg: Config, calls: seq<Call>, key: string, limit: Limit, skew: int, lo: int, hi: int)
    requires cfg.Valid() && 0 <= skew <= cfg.grace && limit.Proper() && AllProper(calls) && Skewed(calls, skew)
    requires forall i :: 0 <= i < |calls| && calls[i].key == key ==> calls[i].limit == limit
    requires lo <= hi
    ensures Granted(cfg, calls, key, lo, hi)
         <= (CeilDiv(hi - lo + skew, limit.windowSeconds * SECOND) + 1) * limit.quota
  {
    hide Granted, Skewed, CeilDiv, AllProper;
    SlidingBoundWithin(cfg, calls, key, limit, skew, lo, hi);
  }
}
