/** How far clock readings may lag for the sliding bound to hold. */
module QuotaLag {
  import opened Common
  import opened Quota
  import opened QuotaBounds
  import opened QuotaGc

  // ---------------------------------------------------------------- invisible collection is enough

  function ReferenceBucket(reference: map<string, Bucket>, key: string): Option<Bucket> {
    if key in reference then Some(reference[key]) else None
  }

  /** The bookkeeping of the sliding bound, on the reference that never deletes. */
  ghost predicate TracksReference(bucket: Option<Bucket>, cap: Limit, skew: int, lo: int, hi: int, e: Epochs,
                                  granted: int, seen: int) {
    && Spaced(e, cap.windowSeconds * SECOND, skew, lo, hi)
    && (bucket == None ==> !e.started)
    && BucketTracked(bucket, cap.quota, skew, e, seen)
    && GrantTracked(bucket, cap.quota, skew, lo, hi, e, granted)
  }

  lemma ReferenceTracks(reference: map<string, Bucket>, c: Call, key: string, cap: Limit, skew: int,
                        lo: int, hi: int, e: Epochs, granted: int, seen: int) returns (e': Epochs)
    requires TracksReference(ReferenceBucket(reference, key), cap, skew, lo, hi, e, granted, seen)
    requires skew >= 0 && cap.Proper() && c.cost >= 1 && c.time >= seen - skew
    requires c.key == key ==> Within(c.limit, cap)
    ensures var (reference', outcome) := ReferenceStep(reference, c);
            TracksReference(ReferenceBucket(reference', key), cap, skew, lo, hi,
                            e', granted + Share(c, outcome, key, lo, hi), Max(seen, c.time))
  {
    hide Spaced, GrantTracked, Within, Milliseconds, UnixMilli, Saturate, WindowOf;
    var bucket := ReferenceBucket(reference, key);
    e' := e;
    if c.key == key {
      if bucket.Some? && c.time < bucket.value.resetAt {
        TracksLive(bucket.value, c, key, cap, skew, lo, hi, e, granted, seen);
      } else {
        e' := TracksOpen(bucket, c, key, cap, skew, lo, hi, e, granted, seen);
      }
    }
  }

  lemma {:induction false} TrackInvisible(cfg: Config, calls: seq<Call>, key: string, cap: Limit, skew: int,
                                          lo: int, hi: int, start: int) returns (e: Epochs, seen: int)
    requires skew >= 0 && cap.Proper() && AllProper(calls) && Skewed(calls, skew)
    requires AllWithin(calls, key, cap) && Invisible(cfg, calls)
    ensures Latest(calls, seen) && (calls == [] ==> seen == start)
    ensures TracksReference(ReferenceBucket(ReferenceAfter(cfg, calls), key), cap, skew, lo, hi,
                            e, Granted(cfg, calls, key, lo, hi), seen)
  {
    e, seen := Epochs(false, 0, 0, 0, 0, 0), start;
    if calls != [] {
      hide ReferenceStep, TracksReference, Within, ReferenceAfter, Granted, OutcomeAt, Invisible, AnswersLikeReference;
      var last := |calls| - 1;
      var before, c := calls[..last], calls[last];
      InvisiblePrefix(cfg, calls);
      e, seen := TrackInvisible(cfg, before, key, cap, skew, lo, hi, c.time);
      LastAnswer(cfg, calls, key, lo, hi);
      LatestExtends(calls, seen);
      var reference, granted := ReferenceAfter(cfg, before), Granted(cfg, before, key, lo, hi);
      if OutcomeAt(cfg, calls, last).verdict == CapacityExceeded {
        SeenLater(ReferenceBucket(reference, key), cap, skew, lo, hi, e, granted, seen, Max(seen, c.time));
      } else {
        e := ReferenceTracks(reference, c, key, cap, skew, lo, hi, e, granted, seen);
      }
      seen := Max(seen, c.time);
    }
  }

  /** What the last call does to the reference and to the total granted. */
  lemma LastAnswer(cfg: Config, calls: seq<Call>, key: string, lo: int, hi: int)
    requires Invisible(cfg, calls) && calls != []
    ensures var last := |calls| - 1;
            var before := calls[..last];
            var (reference, outcome) := ReferenceStep(ReferenceAfter(cfg, before), calls[last]);
            if OutcomeAt(cfg, calls, last).verdict == CapacityExceeded then
              && ReferenceAfter(cfg, calls) == ReferenceAfter(cfg, before)
              && Granted(cfg, calls, key, lo, hi) == Granted(cfg, before, key, lo, hi)
            else
              && ReferenceAfter(cfg, calls) == reference
              && Granted(cfg, calls, key, lo, hi) ==
                Granted(cfg, before, key, lo, hi) + Share(calls[last], outcome, key, lo, hi)
  {
    hide Step, ReferenceStep;
    assert AnswersLikeReference(cfg, calls, |calls| - 1);
  }

  lemma SeenLater(bucket: Option<Bucket>, cap: Limit, skew: int, lo: int, hi: int, e: Epochs, granted: int, seen: int,
                  later: int)
    requires TracksReference(bucket, cap, skew, lo, hi, e, granted, seen) && seen <= later
    ensures TracksReference(bucket, cap, skew, lo, hi, e, granted, later)
  {
    hide Spaced, GrantTracked;
  }

  lemma InvisiblePrefix(cfg: Config, calls: seq<Call>)
    requires Invisible(cfg, calls) && calls != []
    ensures Invisible(cfg, calls[..|calls| - 1])
  {
    hide Step, ReferenceStep;
    var before := calls[..|calls| - 1];
    forall i | 0 <= i < |before|
      ensures AnswersLikeReference(cfg, before, i)
    {
      assert AnswersLikeReference(cfg, calls, i);
      assert before[..i] == calls[..i];
    }
  }

  /** The sliding bound holds, however much readings lag, on every run on which collection is invisible. */
  lemma InvisibleBound(cfg: Config, calls: seq<Call>, key: string, cap: Limit, skew: int, lo: int, hi: int)
    requires skew >= 0 && cap.Proper() && AllProper(calls) && Skewed(calls, skew)
    requires AllWithin(calls, key, cap) && Invisible(cfg, calls) && lo <= hi
    ensures Granted(cfg, calls, key, lo, hi) <= (CeilDiv(hi - lo + skew, cap.windowSeconds * SECOND) + 1) * cap.quota
  {
    var e, seen := TrackInvisible(cfg, calls, key, cap, skew, lo, hi, 0);
    var bucket := ReferenceBucket(ReferenceAfter(cfg, calls), key);
    hide CeilDiv, Spaced, Granted, ReferenceAfter, Invisible, Skewed, AllProper, AllWithin, Latest, ReferenceBucket;
    EpochsFit(e, cap.windowSeconds * SECOND, skew, lo, hi);
    MultiplyMonotone(e.counted, CeilDiv(hi - lo + skew, cap.windowSeconds * SECOND) + 1, cap.quota);
  }

  // ---------------------------------------------------------------- a lag beyond the grace period

  const ONE_PER_SECOND := Limit(1, 1)

  /** Filler keys are told apart by their length. */
  function Filler(i: nat): (key: string)
    ensures |key| == i + 1 && key[0] == 'f'
  {
    seq(i + 1, _ => 'f')
  }

  function KeyCall(key: string, time: int): Call {
    Call(key, ONE_PER_SECOND, 1, time)
  }

  /** All keys of the run: with `k`, as many as there is room for. */
  ghost function AllKeys(cfg: Config): (keys: set<string>)
    requires cfg.maxBuckets >= 2
    ensures |keys| <= cfg.maxBuckets && "k" in keys && forall i: nat :: i < cfg.maxBuckets - 1 ==> Filler(i) in keys
  {
    var fillers := Fillers(cfg.maxBuckets - 1);
    fillers + {"k"}
  }

  ghost function Fillers(n: nat): (keys: set<string>)
    ensures |keys| == n && forall i: nat :: i < n ==> Filler(i) in keys
    ensures forall key :: key in keys ==> exists i: nat :: i < n && key == Filler(i)
  {
    if n == 0 then {} else Fillers(n - 1) + {Filler(n - 1)}
  }

  /** One call for one of keys that all have room. */
  lemma RoomStep(cfg: Config, s: State, key: string, time: int, keys: set<string>)
    requires cfg.Valid() && s.buckets.Keys <= keys && |keys| <= cfg.maxBuckets && key in keys
    ensures var (s', outcome) := Step(cfg, s, KeyCall(key, time));
            && outcome.verdict != CapacityExceeded && s'.buckets.Keys <= keys
            && key in s'.buckets && s'.buckets[key].resetAt > time
            && (key !in s.buckets ==> outcome.verdict == Allowed && s'.buckets[key].resetAt == time + SECOND)
            && (forall other :: other in s'.buckets && other != key ==>
                  other in s.buckets && s'.buckets[other] == s.buckets[other])
            && (forall other :: other in s.buckets && s.buckets[other].resetAt > time ==> other in s'.buckets)
            && (|s.buckets| >= cfg.maxBuckets ==>
                  forall other :: other in s'.buckets && other != key ==> time < s.buckets[other].resetAt + cfg.grace)
  {
    hide Milliseconds, UnixMilli, Saturate;
    WindowExact(1);
    var clean := Cleaned(cfg, s, time);
    KeptShrinks(cfg, s.buckets, time);
    if key !in clean.buckets {
      SubsetSize(clean.buckets.Keys, keys - {key});
    }
  }

  lemma OneMore(cfg: Config, calls: seq<Call>, c: Call, key: string, lo: int, hi: int)
    ensures After(cfg, calls + [c]) == Step(cfg, After(cfg, calls), c).0
    ensures Granted(cfg, calls + [c], key, lo, hi)
         == Granted(cfg, calls, key, lo, hi) + Share(c, Step(cfg, After(cfg, calls), c).1, key, lo, hi)
  {
    hide Step, Share;
    assert (calls + [c])[..|calls|] == calls;
  }

  /** Every filler in turn, and the first one again when the map is full. */
  function Flush(cfg: Config, time: int, n: nat): seq<Call>
    requires cfg.maxBuckets >= 2
  {
    if n == 0 then []
    else Flush(cfg, time, n - 1) + [KeyCall(Filler(if n == cfg.maxBuckets then 0 else n - 1), time)]
  }

  /** The state in the middle of a flush: the fillers called so far are live, and `k` is as it was or gone. */
  ghost predicate Flushing(cfg: Config, s: State, before: State, time: int, n: nat)
    requires cfg.maxBuckets >= 2
  {
    && s.buckets.Keys <= AllKeys(cfg)
    && ("k" in s.buckets ==> "k" in before.buckets && s.buckets["k"] == before.buckets["k"])
    && forall i: nat :: i < n ==> Filler(i) in s.buckets && s.buckets[Filler(i)].resetAt > time
  }

  lemma {:induction false} FlushRuns(cfg: Config, base: seq<Call>, time: int, n: nat, lo: int, hi: int)
    requires cfg.Valid() && cfg.maxBuckets >= 2 && n < cfg.maxBuckets && After(cfg, base).buckets.Keys <= AllKeys(cfg)
    ensures Flushing(cfg, After(cfg, base + Flush(cfg, time, n)), After(cfg, base), time, n)
    ensures Granted(cfg, base + Flush(cfg, time, n), "k", lo, hi) == Granted(cfg, base, "k", lo, hi)
  {
    hide Step, After, Granted, Flushing, AllKeys, Filler;
    if n == 0 {
      assert base + Flush(cfg, time, 0) == base;
      FlushStarts(cfg, After(cfg, base), time);
    } else {
      FlushRuns(cfg, base, time, n - 1, lo, hi);
      var calls, c := base + Flush(cfg, time, n - 1), KeyCall(Filler(n - 1), time);
      assert base + Flush(cfg, time, n) == calls + [c];
      OneMore(cfg, calls, c, "k", lo, hi);
      FlushStep(cfg, After(cfg, calls), After(cfg, base), time, n);
    }
  }

  lemma FlushStarts(cfg: Config, s: State, time: int)
    requires cfg.maxBuckets >= 2 && s.buckets.Keys <= AllKeys(cfg)
    ensures Flushing(cfg, s, s, time, 0)
  {
  }

  lemma FlushStep(cfg: Config, s: State, before: State, time: int, n: nat)
    requires cfg.Valid() && cfg.maxBuckets >= 2 && 0 < n < cfg.maxBuckets && Flushing(cfg, s, before, time, n - 1)
    ensures Flushing(cfg, Step(cfg, s, KeyCall(Filler(n - 1), time)).0, before, time, n)
  {
    hide Step, AllKeys;
    RoomStep(cfg, s, Filler(n - 1), time, AllKeys(cfg));
  }

  lemma FullMap(cfg: Config, s: State)
    requires cfg.maxBuckets >= 2 && "k" in s.buckets && forall i: nat :: i < cfg.maxBuckets - 1 ==>
      Filler(i) in s.buckets
    ensures |s.buckets| >= cfg.maxBuckets
  {
    var fillers := Fillers(cfg.maxBuckets - 1);
    assert "k" !in fillers;
    SubsetSize(fillers + {"k"}, s.buckets.Keys);
    assert |s.buckets.Keys| == |s.buckets|;
  }

  /** A flush after the grace period collects `k`, and grants it nothing. */
  lemma FlushCollects(cfg: Config, base: seq<Call>, time: int, lo: int, hi: int)
    requires cfg.Valid() && cfg.maxBuckets >= 2 && After(cfg, base).buckets.Keys <= AllKeys(cfg)
    requires "k" in After(cfg, base).buckets ==> After(cfg, base).buckets["k"].resetAt + cfg.grace <= time
    ensures var calls := base + Flush(cfg, time, cfg.maxBuckets);
            && After(cfg, calls).buckets.Keys <= AllKeys(cfg) && "k" !in After(cfg, calls).buckets
            && Granted(cfg, calls, "k", lo, hi) == Granted(cfg, base, "k", lo, hi)
  {
    hide Step, After, Granted;
    var calls, c := base + Flush(cfg, time, cfg.maxBuckets - 1), KeyCall(Filler(0), time);
    assert base + Flush(cfg, time, cfg.maxBuckets) == calls + [c];
    FlushRuns(cfg, base, time, cfg.maxBuckets - 1, lo, hi);
    OneMore(cfg, calls, c, "k", lo, hi);
    RoomStep(cfg, After(cfg, calls), Filler(0), time, AllKeys(cfg));
    if "k" in After(cfg, calls).buckets {
      FullMap(cfg, After(cfg, calls));
    }
  }

  /** The n-th late call, a nanosecond less than a window after the one before. */
  function LateTime(n: int): int {
    n * (SECOND - 1)
  }

  /** When the bucket of the n-th late call is collected. */
  function FlushTime(cfg: Config, n: int): int {
    LateTime(n) + SECOND + cfg.grace
  }

  function LateRun(cfg: Config, n: nat): seq<Call>
    requires cfg.maxBuckets >= 2
  {
    if n == 0 then []
    else LateRun(cfg, n - 1) + [KeyCall("k", LateTime(n - 1))] + Flush(cfg, FlushTime(cfg, n - 1), cfg.maxBuckets)
  }

  lemma LateOrder(m: nat, n: nat)
    ensures m <= n ==> LateTime(m) <= LateTime(n)
    ensures LateTime(n) >= 0
  {
    MultiplyMonotone(m, n, SECOND - 1);
  }

  /** Every late call is granted. */
  lemma {:induction false} LateGrants(cfg: Config, n: nat, hi: int)
    requires cfg.Valid() && cfg.maxBuckets >= 2 && LateTime(n - 1) <= hi
    ensures After(cfg, LateRun(cfg, n)).buckets.Keys <= AllKeys(cfg) && "k" !in After(cfg, LateRun(cfg, n)).buckets
    ensures Granted(cfg, LateRun(cfg, n), "k", 0, hi) == n
  {
    if n > 0 {
      hide Step, After, Granted, Flush, LateRun;
      assert LateRun(cfg, n) == LateRun(cfg, n - 1) + [KeyCall("k", LateTime(n - 1))]
        + Flush(cfg, FlushTime(cfg, n - 1), cfg.maxBuckets) by { LateRunStep(cfg, n); }
      LateOrder(0, n - 1);
      if n > 1 {
        LateOrder(n - 2, n - 1);
      }
      LateGrants(cfg, n - 1, hi);
      var before, c := LateRun(cfg, n - 1), KeyCall("k", LateTime(n - 1));
      OneMore(cfg, before, c, "k", 0, hi);
      RoomStep(cfg, After(cfg, before), "k", LateTime(n - 1), AllKeys(cfg));
      FlushCollects(cfg, before + [c], FlushTime(cfg, n - 1), 0, hi);
    } else {
      assert LateRun(cfg, 0) == [];
    }
  }

  lemma LateRunStep(cfg: Config, n: nat)
    requires cfg.maxBuckets >= 2 && n > 0
    ensures LateRun(cfg, n) == LateRun(cfg, n - 1) + [KeyCall("k", LateTime(n - 1))]
                             + Flush(cfg, FlushTime(cfg, n - 1), cfg.maxBuckets)
  {
  }

  // ---------------------------------------------------------------- the late run is eligible

  /** One-per-second calls at times up to `time`. */
  ghost predicate Plain(calls: seq<Call>, time: int) {
    forall i :: 0 <= i < |calls| ==> calls[i].limit == ONE_PER_SECOND && calls[i].cost == 1 && calls[i].time <= time
  }

  lemma PlainAppend(calls: seq<Call>, more: seq<Call>, latest: int, time: int, skew: int)
    requires Plain(calls, latest) && Skewed(calls, skew) && time >= latest - skew && skew >= 0
    requires Plain(more, time) && forall i :: 0 <= i < |more| ==> more[i].time == time
    ensures Plain(calls + more, Max(latest, time)) && Skewed(calls + more, skew)
  {
  }

  lemma {:induction false} FlushPlain(cfg: Config, time: int, n: nat)
    requires cfg.maxBuckets >= 2
    ensures |Flush(cfg, time, n)| == n && Plain(Flush(cfg, time, n), time)
    ensures forall i :: 0 <= i < n ==> Flush(cfg, time, n)[i].time == time
  {
    if n > 0 {
      FlushPlain(cfg, time, n - 1);
    }
  }

  lemma {:induction false} LateRunLags(cfg: Config, n: nat)
    requires cfg.Valid() && cfg.maxBuckets >= 2
    ensures Plain(LateRun(cfg, n), FlushTime(cfg, n - 1)) && Skewed(LateRun(cfg, n), cfg.grace + 1)
  {
    if n > 0 {
      LateRunLags(cfg, n - 1);
      LateRunStep(cfg, n);
      FlushPlain(cfg, FlushTime(cfg, n - 1), cfg.maxBuckets);
      hide Plain, Skewed, LateRun, Flush;
      var before, c := LateRun(cfg, n - 1), [KeyCall("k", LateTime(n - 1))];
      assert Plain(c, LateTime(n - 1)) by { OnePlain("k", LateTime(n - 1)); }
      PlainAppend(before, c, FlushTime(cfg, n - 2), LateTime(n - 1), cfg.grace + 1);
      PlainAppend(before + c, Flush(cfg, FlushTime(cfg, n - 1), cfg.maxBuckets),
                  Max(FlushTime(cfg, n - 2), LateTime(n - 1)), FlushTime(cfg, n - 1), cfg.grace + 1);
    }
  }

  lemma OnePlain(key: string, time: int)
    ensures Plain([KeyCall(key, time)], time)
  {
  }

  // ---------------------------------------------------------------- the exact condition

  ghost predicate LagRun(cfg: Config, calls: seq<Call>, key: string, cap: Limit, lag: int, lo: int, hi: int) {
    && cap.Proper() && AllProper(calls) && Unwrapped(calls) && Skewed(calls, lag) && AllWithin(calls, key, cap) &&
      lo <= hi
  }

  ghost predicate LagBound(cfg: Config, calls: seq<Call>, key: string, cap: Limit, lag: int, lo: int, hi: int)
    requires cap.Proper()
  {
    Granted(cfg, calls, key, lo, hi) <= (CeilDiv(hi - lo + lag, cap.windowSeconds * SECOND) + 1) * cap.quota
  }

  lemma LateRunIsEligible(cfg: Config, lag: int, n: nat)
    requires cfg.Valid() && cfg.maxBuckets >= 2 && lag > cfg.grace && n > 0
    ensures LagRun(cfg, LateRun(cfg, n), "k", ONE_PER_SECOND, lag, 0, LateTime(n - 1))
  {
    hide LateRun, LateTime, Plain, Skewed, AllProper, Unwrapped, AllWithin, FlushTime;
    LateRunLags(cfg, n);
    PlainIsEligible(LateRun(cfg, n), FlushTime(cfg, n - 1));
    SkewedMore(LateRun(cfg, n), cfg.grace + 1, lag);
    LateOrder(0, n - 1);
  }

  lemma LateRunBreaks(cfg: Config, lag: int)
    requires cfg.Valid() && cfg.maxBuckets >= 2 && lag > cfg.grace
    ensures var n := lag + SECOND + 1;
            && LagRun(cfg, LateRun(cfg, n), "k", ONE_PER_SECOND, lag, 0, LateTime(n - 1))
            && !LagBound(cfg, LateRun(cfg, n), "k", ONE_PER_SECOND, lag, 0, LateTime(n - 1))
  {
    hide LateRun, LateTime, Granted, CeilDiv, LagRun, LagBound;
    var n := lag + SECOND + 1;
    LateRunIsEligible(cfg, lag, n);
    LateGrants(cfg, n, LateTime(n - 1));
    LateCount(lag);
    assert n - 1 == lag + SECOND;
    OnePerSecond(cfg, LateRun(cfg, n), lag, LateTime(n - 1));
  }

  lemma OnePerSecond(cfg: Config, calls: seq<Call>, lag: int, hi: int)
    ensures LagBound(cfg, calls, "k", ONE_PER_SECOND, lag, 0, hi) <==>
      Granted(cfg, calls, "k", 0, hi) <= CeilDiv(hi + lag, SECOND) + 1
  {
    hide Granted, CeilDiv;
    assert ONE_PER_SECOND.windowSeconds * SECOND == SECOND;
  }

  lemma PlainIsEligible(calls: seq<Call>, time: int)
    requires Plain(calls, time)
    ensures AllProper(calls) && Unwrapped(calls) && AllWithin(calls, "k", ONE_PER_SECOND)
  {
  }

  lemma SkewedMore(calls: seq<Call>, skew: int, more: int)
    requires Skewed(calls, skew) && skew <= more
    ensures Skewed(calls, more)
  {
  }

  lemma LateCount(lag: int)
    requires lag >= 0
    ensures CeilDiv(LateTime(lag + SECOND) + lag, SECOND) < lag + SECOND
  {
    assert LateTime(lag + SECOND) + lag + SECOND - 1 < (lag + SECOND) * SECOND;
  }

  /**
   The sliding bound for readings that lag by at most `lag` holds on all runs without wrapping windows
   if and only if the grace period covers that lag or there is room for one bucket only.
   */
  lemma LagExactly(cfg: Config, lag: int)
    requires cfg.Valid() && lag >= 0
    ensures (forall calls, key, cap, lo, hi ::
               LagRun(cfg, calls, key, cap, lag, lo, hi) ==> LagBound(cfg, calls, key, cap, lag, lo, hi))
            <==> lag <= cfg.grace || cfg.maxBuckets == 1
  {
    hide Granted, Invisible, LateRun, CeilDiv;
    if lag <= cfg.grace || cfg.maxBuckets == 1 {
      forall calls, key, cap, lo, hi | LagRun(cfg, calls, key, cap, lag, lo, hi)
        ensures LagBound(cfg, calls, key, cap, lag, lo, hi)
      {
        if lag <= cfg.grace {
          var _ := SimulationRun(cfg, calls, lag, 0);
        } else {
          OneBucketRun(cfg, calls);
        }
        InvisibleBound(cfg, calls, key, cap, lag, lo, hi);
      }
    } else {
      LateRunBreaks(cfg, lag);
    }
  }
}
