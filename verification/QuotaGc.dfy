/**
 Garbage collection is invisible to callers: the engine answers like one that keeps every bucket
 forever, as long as clock readings do not lag more than the grace period.
 */
module QuotaGc {
  import opened Common
  import opened Text
  import opened Quota
  import opened QuotaBounds

  /** The reference: a fixed-window counter per key that never deletes and has no cap. */
  function ReferenceStep(buckets: map<string, Bucket>, c: Call): (map<string, Bucket>, Outcome) {
    var (b, outcome) := Deduct(BucketFor(buckets, c), c);
    (buckets[c.key := b], outcome)
  }

  /** The reference's buckets after a run; it does not step on calls the engine has no room for. */
  ghost function ReferenceAfter(cfg: Config, calls: seq<Call>): map<string, Bucket> {
    if calls == [] then map[]
    else
      var last := |calls| - 1;
      var before := ReferenceAfter(cfg, calls[..last]);
      if OutcomeAt(cfg, calls, last).verdict == CapacityExceeded then before
      else ReferenceStep(before, calls[last]).0
  }

  ghost predicate AnswersLikeReference(cfg: Config, calls: seq<Call>, i: nat)
    requires i < |calls|
  {
    || OutcomeAt(cfg, calls, i).verdict == CapacityExceeded
    || OutcomeAt(cfg, calls, i) == ReferenceStep(ReferenceAfter(cfg, calls[..i]), calls[i]).1
  }

  ghost predicate Invisible(cfg: Config, calls: seq<Call>) {
    forall i :: 0 <= i < |calls| ==> AnswersLikeReference(cfg, calls, i)
  }

  /** Every bucket the engine lacks is so long expired that no future call can find it live. */
  ghost predicate Simulates(cfg: Config, s: State, reference: map<string, Bucket>, seen: int) {
    && (forall k :: k in s.buckets ==> k in reference && s.buckets[k] == reference[k])
    && (forall k :: k in reference && k !in s.buckets ==> reference[k].resetAt + cfg.grace <= seen)
  }

  lemma SimulationStep(cfg: Config, s: State, reference: map<string, Bucket>, c: Call, skew: int, seen: int)
    requires Simulates(cfg, s, reference, seen) && 0 <= skew <= cfg.grace && c.time >= seen - skew
    ensures var (s', outcome) := Step(cfg, s, c);
            var (reference', expected) := ReferenceStep(reference, c);
            if outcome.verdict == CapacityExceeded then Simulates(cfg, s', reference, Max(seen, c.time))
            else outcome == expected && Simulates(cfg, s', reference', Max(seen, c.time))
  {
    var clean := Cleaned(cfg, s, c.time);
    assert Simulates(cfg, clean, reference, Max(seen, c.time));
    assert c.key in reference && c.key !in clean.buckets ==> reference[c.key].resetAt <= c.time;
    assert BucketFor(clean.buckets, c) == BucketFor(reference, c);
  }

  lemma {:induction false} SimulationRun(cfg: Config, calls: seq<Call>, skew: int, start: int) returns (seen: int)
    requires 0 <= skew <= cfg.grace && Skewed(calls, skew)
    ensures Latest(calls, seen) && (calls == [] ==> seen == start)
    ensures Simulates(cfg, After(cfg, calls), ReferenceAfter(cfg, calls), seen)
    ensures Invisible(cfg, calls)
  {
    hide Step, ReferenceStep;
    seen := start;
    if calls != [] {
      var last := |calls| - 1;
      var before, c := calls[..last], calls[last];
      seen := SimulationRun(cfg, before, skew, c.time);
      SimulationStep(cfg, After(cfg, before), ReferenceAfter(cfg, before), c, skew, seen);
      LatestExtends(calls, seen);
      seen := Max(seen, c.time);
      forall i | 0 <= i < |calls|
        ensures AnswersLikeReference(cfg, calls, i)
      {
        if i < last {
          assert AnswersLikeReference(cfg, before, i);
          assert before[..i] == calls[..i];
        }
      }
    }
  }

  // ---------------------------------------------------------------- the grace period is needed

  /**
   A run in which a collected bucket is missed: the bucket of `k` is opened and used up at t1,
   collected at t2 once the grace is over, and a reading just before its reset arrives late.
   */
  ghost function LateReading(cfg: Config): seq<Call> {
    var limit := Limit(1, 1);
    var t1 := Max(0, cfg.gcInterval - SECOND - cfg.grace);
    [ Call("other", limit, 1, 0), Call("k", limit, 1, t1),
      Call("other", limit, 1, t1 + SECOND + cfg.grace), Call("k", limit, 1, t1 + SECOND - 1) ]
  }

  lemma LateReadingIsSkewed(cfg: Config, skew: int)
    requires cfg.Valid() && skew > cfg.grace
    ensures Skewed(LateReading(cfg), skew) && AllProper(LateReading(cfg)) && Unwrapped(LateReading(cfg))
  {
  }

  lemma AfterFour(cfg: Config, a: Call, b: Call, c: Call, d: Call)
    ensures var calls := [a, b, c, d];
            var s1 := Step(cfg, INITIAL, a).0;
            var s2 := Step(cfg, s1, b).0;
            && After(cfg, calls[..0]) == INITIAL
            && After(cfg, calls[..1]) == s1
            && After(cfg, calls[..2]) == s2
            && After(cfg, calls[..3]) == Step(cfg, s2, c).0
  {
    hide Step;
    var calls := [a, b, c, d];
    assert calls[..1] == [a] && [a][..0] == [];
    assert calls[..2][..1] == calls[..1];
    assert calls[..3][..2] == calls[..2];
  }

  lemma ReferenceAfterThree(cfg: Config, a: Call, b: Call, c: Call, d: Call)
    requires forall i: nat :: i < 3 ==> OutcomeAt(cfg, [a, b, c, d], i).verdict != CapacityExceeded
    ensures ReferenceAfter(cfg, [a, b, c, d][..3])
         == ReferenceStep(ReferenceStep(ReferenceStep(map[], a).0, b).0, c).0
  {
    hide Step, ReferenceStep, OutcomeAt;
    var calls := [a, b, c, d];
    OutcomeOfPrefix(cfg, calls, 1, 0);
    OutcomeOfPrefix(cfg, calls, 2, 1);
    OutcomeOfPrefix(cfg, calls, 3, 2);
    assert calls[..3] == [a, b, c] && calls[..2] == [a, b] && calls[..1] == [a];
    assert [a, b, c][..2] == [a, b] && [a, b][..1] == [a] && [a][..0] == [];
    assert ReferenceAfter(cfg, [a]) == ReferenceStep(map[], a).0;
    assert ReferenceAfter(cfg, [a, b]) == ReferenceStep(ReferenceAfter(cfg, [a]), b).0;
  }

  lemma LateReadingReference(cfg: Config)
    requires cfg.Valid() && cfg.maxBuckets >= 2
    requires var calls := LateReading(cfg); forall i: nat :: i < 3 ==>
      OutcomeAt(cfg, calls, i).verdict != CapacityExceeded
    ensures var calls := LateReading(cfg);
            var reached := ReferenceAfter(cfg, calls[..3]);
            "k" in reached && reached["k"] == Bucket(0, calls[1].time + SECOND)
  {
    hide OutcomeAt, ReferenceAfter;
    var calls := LateReading(cfg);
    assert calls == [calls[0], calls[1], calls[2], calls[3]];
    ReferenceAfterThree(cfg, calls[0], calls[1], calls[2], calls[3]);
  }

  lemma LateReadingFirst(cfg: Config)
    requires cfg.Valid()
    ensures var (s, outcome) := Step(cfg, INITIAL, LateReading(cfg)[0]);
            outcome.verdict == Allowed && s == State(map["other" := Bucket(0, SECOND)], Some(cfg.gcInterval))
  {
  }

  lemma LateReadingSecond(cfg: Config, s: State)
    requires cfg.Valid() && cfg.maxBuckets >= 2
    requires s == State(map["other" := Bucket(0, SECOND)], Some(cfg.gcInterval))
    ensures var (s', outcome) := Step(cfg, s, LateReading(cfg)[1]);
            && outcome.verdict == Allowed
            && s' == State(s.buckets["k" := Bucket(0, LateReading(cfg)[1].time + SECOND)], Some(cfg.gcInterval))
  {
    assert Cleaned(cfg, s, LateReading(cfg)[1].time) == s;
  }

  lemma LateReadingThird(cfg: Config, s: State)
    requires cfg.Valid()
    requires s.buckets == map["other" := Bucket(0, SECOND), "k" := Bucket(0, LateReading(cfg)[1].time + SECOND)]
    requires s.nextCleanup == Some(cfg.gcInterval)
    ensures var (s', outcome) := Step(cfg, s, LateReading(cfg)[2]);
            && outcome.verdict == Allowed
            && s'.buckets == map["other" := Bucket(0, LateReading(cfg)[2].time + SECOND)]
  {
    assert Cleaned(cfg, s, LateReading(cfg)[2].time).buckets == map[];
  }

  /** The engine's states along the late reading: at the third call the bucket of `k` is collected. */
  lemma LateReadingSteps(cfg: Config)
    requires cfg.Valid() && cfg.maxBuckets >= 2
    ensures var calls := LateReading(cfg);
            var first := Step(cfg, INITIAL, calls[0]);
            var second := Step(cfg, first.0, calls[1]);
            var third := Step(cfg, second.0, calls[2]);
            && CapacityExceeded !in {first.1.verdict, second.1.verdict, third.1.verdict}
            && third.0.buckets == map["other" := Bucket(0, calls[2].time + SECOND)]
  {
    hide Step;
    var calls := LateReading(cfg);
    LateReadingFirst(cfg);
    LateReadingSecond(cfg, Step(cfg, INITIAL, calls[0]).0);
    LateReadingThird(cfg, Step(cfg, Step(cfg, INITIAL, calls[0]).0, calls[1]).0);
  }

  /** The second quota of `k` is granted where the reference refuses. */
  lemma LateReadingFourth(cfg: Config, s: State, reference: map<string, Bucket>)
    requires cfg.Valid() && cfg.maxBuckets >= 2
    requires s.buckets == map["other" := Bucket(0, LateReading(cfg)[2].time + SECOND)]
    requires "k" in reference && reference["k"] == Bucket(0, LateReading(cfg)[1].time + SECOND)
    ensures Step(cfg, s, LateReading(cfg)[3]).1.verdict == Allowed
    ensures ReferenceStep(reference, LateReading(cfg)[3]).1.verdict == RateLimited
  {
    KeptShrinks(cfg, s.buckets, LateReading(cfg)[3].time);
    var clean := Cleaned(cfg, s, LateReading(cfg)[3].time).buckets;
    assert clean.Keys <= {"other"};
    SubsetSize(clean.Keys, {"other"});
  }

  // ---------------------------------------------------------------- a cap of one bucket

  /** No window wraps. */
  ghost predicate Unwrapped(calls: seq<Call>) {
    forall i :: 0 <= i < |calls| ==> 0 <= calls[i].limit.windowSeconds <= MAX_WINDOW_SECONDS
  }

  lemma UnwrappedWindow(seconds: int)
    requires 0 <= seconds <= MAX_WINDOW_SECONDS
    ensures WindowOf(seconds) >= 0
  {
  }

  /** The one bucket ends no earlier than the grace of every bucket that made room for it. */
  ghost predicate SimulatesOne(cfg: Config, s: State, reference: map<string, Bucket>) {
    || (s.buckets == map[] && reference == map[])
    || exists k :: OnlyBucket(cfg, s, reference, k)
  }

  ghost predicate OnlyBucket(cfg: Config, s: State, reference: map<string, Bucket>, k: string) {
    && k in reference && s.buckets == map[k := reference[k]]
    && forall other :: other in reference && other != k ==> reference[other].resetAt + cfg.grace <= reference[k].resetAt
  }

  lemma OneBucketStep(cfg: Config, s: State, reference: map<string, Bucket>, c: Call)
    requires cfg.Valid() && cfg.maxBuckets == 1 && SimulatesOne(cfg, s, reference)
    requires 0 <= c.limit.windowSeconds <= MAX_WINDOW_SECONDS
    ensures var (s', outcome) := Step(cfg, s, c);
            var (reference', expected) := ReferenceStep(reference, c);
            if outcome.verdict == CapacityExceeded then SimulatesOne(cfg, s', reference)
            else outcome == expected && SimulatesOne(cfg, s', reference')
  {
    UnwrappedWindow(c.limit.windowSeconds);
    hide WindowOf, UnixMilli, Milliseconds, Saturate;
    var (s', outcome) := Step(cfg, s, c);
    var reference' := ReferenceStep(reference, c).0;
    if s.buckets == map[] {
      assert Cleaned(cfg, s, c.time).buckets == map[];
      assert OnlyBucket(cfg, s', reference', c.key);
    } else {
      var k :| OnlyBucket(cfg, s, reference, k);
      OneBucketCleaned(cfg, s, c.time, k);
      if outcome.verdict == CapacityExceeded {
        assert OnlyBucket(cfg, s', reference, k);
      } else {
        assert OnlyBucket(cfg, s', reference', c.key);
      }
    }
  }

  /** With a cap of one, every call to a non-empty engine cleans up first. */
  lemma OneBucketCleaned(cfg: Config, s: State, now: int, k: string)
    requires cfg.Valid() && cfg.maxBuckets == 1 && s.buckets.Keys == {k}
    ensures Cleaned(cfg, s, now).buckets == if now < s.buckets[k].resetAt + cfg.grace then s.buckets else map[]
  {
    assert |s.buckets| == |s.buckets.Keys| == 1;
  }

  lemma {:induction false} OneBucketRun(cfg: Config, calls: seq<Call>)
    requires cfg.Valid() && cfg.maxBuckets == 1 && Unwrapped(calls)
    ensures SimulatesOne(cfg, After(cfg, calls), ReferenceAfter(cfg, calls)) && Invisible(cfg, calls)
  {
    hide Step, ReferenceStep, SimulatesOne;
    if calls == [] {
      InitialOne(cfg);
    } else {
      var last := |calls| - 1;
      var before := calls[..last];
      OneBucketRun(cfg, before);
      OneBucketStep(cfg, After(cfg, before), ReferenceAfter(cfg, before), calls[last]);
      InvisibleExtends(cfg, calls);
    }
  }

  lemma InitialOne(cfg: Config)
    ensures SimulatesOne(cfg, INITIAL, map[])
  {
  }

  lemma InvisibleExtends(cfg: Config, calls: seq<Call>)
    requires calls != [] && Invisible(cfg, calls[..|calls| - 1]) && AnswersLikeReference(cfg, calls, |calls| - 1)
    ensures Invisible(cfg, calls)
  {
    hide Step, ReferenceStep;
    var before := calls[..|calls| - 1];
    forall i | 0 <= i < |calls|
      ensures AnswersLikeReference(cfg, calls, i)
    {
      if i < |before| {
        assert AnswersLikeReference(cfg, before, i);
        assert before[..i] == calls[..i];
      }
    }
  }

  /**
   The late reading is granted a second quota that the reference refuses, unless there is room for one
   bucket only.
   */
  lemma LateReadingVisible(cfg: Config)
    requires cfg.Valid()
    ensures Invisible(cfg, LateReading(cfg)) <==> cfg.maxBuckets == 1
  {
    if cfg.maxBuckets == 1 {
      OneBucketRun(cfg, LateReading(cfg));
    } else {
      SecondQuota(cfg);
    }
  }

  lemma SecondQuota(cfg: Config)
    requires cfg.Valid() && cfg.maxBuckets >= 2
    ensures !Invisible(cfg, LateReading(cfg))
  {
    var calls := LateReading(cfg);
    hide Step, ReferenceStep;
    LateReadingSteps(cfg);
    AfterFour(cfg, calls[0], calls[1], calls[2], calls[3]);
    assert calls == [calls[0], calls[1], calls[2], calls[3]];
    LateReadingReference(cfg);
    assert After(cfg, calls[..3]).buckets == map["other" := Bucket(0, calls[2].time + SECOND)];
    LateReadingFourth(cfg, After(cfg, calls[..3]), ReferenceAfter(cfg, calls[..3]));
    assert !AnswersLikeReference(cfg, calls, 3);
  }

  // ---------------------------------------------------------------- the exact condition

  /**
   Collection is invisible on every run without wrapping windows whose readings lag by at most
   `skew` if and only if the grace period covers that lag or there is room for one bucket only.
   */
  lemma GcInvisibleExactly(cfg: Config, skew: int)
    requires cfg.Valid() && skew >= 0
    ensures (forall calls :: AllProper(calls) && Unwrapped(calls) && Skewed(calls, skew) ==> Invisible(cfg, calls))
            <==> skew <= cfg.grace || cfg.maxBuckets == 1
  {
    hide Invisible;
    if skew <= cfg.grace || cfg.maxBuckets == 1 {
      forall calls | AllProper(calls) && Unwrapped(calls) && Skewed(calls, skew)
        ensures Invisible(cfg, calls)
      {
        if skew <= cfg.grace {
          var _ := SimulationRun(cfg, calls, skew, 0);
        } else {
          OneBucketRun(cfg, calls);
        }
      }
    } else {
      LateReadingIsSkewed(cfg, skew);
      LateReadingVisible(cfg);
    }
  }

  // ---------------------------------------------------------------- the retry hint

  /** A call for a key finds room if its bucket is in a map that respects the cap. */
  lemma KnownKeyFindsRoom(cfg: Config, s: State, c: Call)
    requires |s.buckets| <= cfg.maxBuckets && c.key in s.buckets
    ensures Step(cfg, s, c).1.verdict != CapacityExceeded
  {
    var clean := Cleaned(cfg, s, c.time);
    if c.key !in clean.buckets {
      SubsetSize(clean.buckets.Keys, s.buckets.Keys - {c.key});
    }
  }

  /** What the engine answers to the next call for a key that was just denied. */
  lemma AfterDenial(cfg: Config, s: State, denied: Call, retry: Call)
    requires cfg.Valid() && |s.buckets| <= cfg.maxBuckets && Step(cfg, s, denied).1.verdict == RateLimited
    requires retry.key == denied.key && retry.time >= denied.time && retry.cost <= retry.limit.quota
    ensures var s' := Step(cfg, s, denied).0;
            && denied.key in s'.buckets
            && (Step(cfg, s', retry).1.verdict == Allowed <==>
                retry.time >= s'.buckets[denied.key].resetAt || retry.cost <= s'.buckets[denied.key].remaining)
  {
    CapKept(cfg, s, denied);
    KnownKeyFindsRoom(cfg, Step(cfg, s, denied).0, retry);
  }

  /**
   The hint of a "rate_limited" answer: it falls short of the reset by less than a millisecond,
   a retry one millisecond after it is granted even if the bucket was collected and the map was
   full, and a retry exactly at it is granted only when the wait is a whole number of milliseconds.
   */
  lemma RetryHintTight(cfg: Config, calls: seq<Call>, denied: Call, retry: Call)
    requires cfg.Valid() && Step(cfg, After(cfg, calls), denied).1.verdict == RateLimited
    requires WindowOf(denied.limit.windowSeconds) > 0
    requires retry.key == denied.key && retry.limit == denied.limit && retry.cost <= retry.limit.quota
    requires IsInt64(Step(cfg, After(cfg, calls), denied).0.buckets[denied.key].resetAt - denied.time)
    ensures var (s', outcome) := Step(cfg, After(cfg, calls), denied);
            var wait := s'.buckets[denied.key].resetAt - denied.time;
            && wait > 0
            && 0 <= wait - outcome.retryAfterMs * MILLISECOND < MILLISECOND
            && (retry.time >= denied.time + (outcome.retryAfterMs + 1) * MILLISECOND ==>
                  Step(cfg, s', retry).1.verdict == Allowed)
            && (retry.time == denied.time + outcome.retryAfterMs * MILLISECOND && retry.cost > outcome.remaining ==>
                  (Step(cfg, s', retry).1.verdict == Allowed <==> wait % MILLISECOND == 0))
  {
    BucketsCapped(cfg, calls);
    var s := After(cfg, calls);
    var (s', outcome) := Step(cfg, s, denied);
    var wait := s'.buckets[denied.key].resetAt - denied.time;
    assert outcome.retryAfterMs == wait / MILLISECOND && outcome.remaining == s'.buckets[denied.key].remaining;
    if retry.time >= denied.time {
      AfterDenial(cfg, s, denied, retry);
    }
  }
}
