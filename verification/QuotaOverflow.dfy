/** What becomes of the sliding bound when the window product overflows a 64-bit duration. */
module QuotaOverflow {
  import opened Common
  import opened Text
  import opened Quota
  import opened QuotaBounds
  import Rules

  // ---------------------------------------------------------------- runs in which every call opens a bucket

  /** The same call at several times. */
  function Repeated(c: Call, times: seq<int>): (calls: seq<Call>)
    ensures |calls| == |times| && forall i :: 0 <= i < |times| ==> calls[i] == c.(time := times[i])
  {
    seq(|times|, i requires 0 <= i < |times| => c.(time := times[i]))
  }

  /** A call that uses up the quota, alone in the engine with no live bucket. */
  lemma OpensAlone(cfg: Config, s: State, c: Call)
    requires cfg.Valid() && s.buckets.Keys <= {c.key} && c.cost == c.limit.quota
    requires c.key in s.buckets ==> s.buckets[c.key].resetAt <= c.time
    ensures var (s', outcome) := Step(cfg, s, c);
            && outcome.verdict == Allowed
            && s'.buckets == map[c.key := Bucket(0, c.time + WindowOf(c.limit.windowSeconds))]
  {
    hide WindowOf, UnixMilli;
    var clean := Cleaned(cfg, s, c.time);
    KeptShrinks(cfg, s.buckets, c.time);
    if c.key !in clean.buckets {
      assert clean.buckets == map[];
    }
  }

  /** Calls that use up the quota and come as far apart as the engine's window are all granted. */
  lemma {:induction false} AllGranted(cfg: Config, c: Call, times: seq<int>, lo: int, hi: int)
    requires cfg.Valid() && c.cost == c.limit.quota
    requires forall i :: 0 <= i < |times| ==> lo <= times[i] <= hi
    requires forall i :: 0 < i < |times| ==> times[i - 1] + WindowOf(c.limit.windowSeconds) <= times[i]
    ensures Granted(cfg, Repeated(c, times), c.key, lo, hi) == |times| * c.limit.quota
    ensures After(cfg, Repeated(c, times)).buckets ==
              if times == [] then map[]
              else map[c.key := Bucket(0, times[|times| - 1] + WindowOf(c.limit.windowSeconds))]
  {
    hide Step, WindowOf;
    if times != [] {
      var last := |times| - 1;
      var calls := Repeated(c, times);
      AllGranted(cfg, c, times[..last], lo, hi);
      assert calls[..last] == Repeated(c, times[..last]);
      OpensAlone(cfg, After(cfg, calls[..last]), calls[last]);
      Distribute(last, c.limit.quota);
    }
  }

  /** When the window product wraps to zero or below, any number of full quotas is granted at one instant. */
  lemma OverflowUnlimits(cfg: Config, c: Call, n: nat)
    requires cfg.Valid() && WindowOf(c.limit.windowSeconds) <= 0 && c.cost == c.limit.quota
    ensures Granted(cfg, Repeated(c, seq(n, i => c.time)), c.key, c.time, c.time) == n * c.limit.quota
  {
    AllGranted(cfg, c, seq(n, i => c.time), c.time, c.time);
  }

  // ---------------------------------------------------------------- the exact condition

  /** A proper run with bounded skew in which the key's rule is constant. */
  ghost predicate Eligible(cfg: Config, limit: Limit, calls: seq<Call>, key: string, skew: int, lo: int, hi: int) {
    && 0 <= skew <= cfg.grace && lo <= hi && AllProper(calls) && Skewed(calls, skew)
    && forall i :: 0 <= i < |calls| && calls[i].key == key ==> calls[i].limit == limit
  }

  /** The bound with the window that the rule names. */
  ghost predicate Bounded(cfg: Config, limit: Limit, calls: seq<Call>, key: string, skew: int, lo: int, hi: int)
    requires limit.windowSeconds >= 1
  {
    Granted(cfg, calls, key, lo, hi) <= (CeilDiv(hi - lo + skew, limit.windowSeconds * SECOND) + 1) * limit.quota
  }

  /** A product that overflows and still wraps to a positive window is more than twice that window. */
  lemma WrapsToLess(seconds: int)
    requires MAX_WINDOW_SECONDS < seconds <= INT64_MAX
    ensures WindowOf(seconds) <= 0 || 2 * WindowOf(seconds) <= seconds * SECOND
  {
    var range := INT64_MAX - INT64_MIN + 1;
    var product := seconds * SECOND;
    assert product - WindowOf(seconds) == (product - INT64_MIN) / range * range;
    assert (product - INT64_MIN) / range >= 1;
  }

  /** Two calls at one instant, or three calls an actual window apart. */
  ghost function Excess(limit: Limit): (r: (seq<Call>, int)) {
    var window := WindowOf(limit.windowSeconds);
    var call := Call("k", limit, limit.quota, 0);
    if window <= 0 then (Repeated(call, [0, 0]), 0) else (Repeated(call, [0, window, 2 * window]), 2 * window)
  }

  lemma ExcessBreaks(cfg: Config, limit: Limit)
    requires cfg.Valid() && MAX_WINDOW_SECONDS < limit.windowSeconds <= INT64_MAX && limit.quota >= 1
    ensures var (calls, hi) := Excess(limit);
            Eligible(cfg, limit, calls, "k", 0, 0, hi) && !Bounded(cfg, limit, calls, "k", 0, 0, hi)
  {
    hide WindowOf, Granted, CeilDiv, AllProper, Skewed;
    var window := WindowOf(limit.windowSeconds);
    var nominal := limit.windowSeconds * SECOND;
    var call := Call("k", limit, limit.quota, 0);
    WrapsToLess(limit.windowSeconds);
    if window <= 0 {
      RepeatedRun(call, [0, 0]);
      AllGranted(cfg, call, [0, 0], 0, 0);
      CeilSmall(0, nominal);
    } else {
      RepeatedRun(call, [0, window, 2 * window]);
      AllGranted(cfg, call, [0, window, 2 * window], 0, 2 * window);
      CeilSmall(2 * window, nominal);
      MultiplyMonotone(CeilDiv(2 * window, nominal) + 1, 2, limit.quota);
    }
  }

  lemma RepeatedRun(c: Call, times: seq<int>)
    requires c.Proper() && forall i, j :: 0 <= i < j < |times| ==> times[i] <= times[j]
    ensures AllProper(Repeated(c, times)) && Skewed(Repeated(c, times), 0)
  {
  }

  lemma CeilSmall(span: int, window: int)
    requires window > 0 && 0 <= span <= window
    ensures CeilDiv(span, window) == if span == 0 then 0 else 1
  {
    if span > 0 {
      assert span + window - 1 == window + (span - 1);
    }
  }

  /** The bound of the rule's own window holds on all runs if and only if the window product does not overflow. */
  lemma BoundedExactly(cfg: Config, limit: Limit)
    requires cfg.Valid() && 1 <= limit.windowSeconds <= INT64_MAX && limit.quota >= 1
    ensures (forall calls, key, skew, lo, hi ::
               Eligible(cfg, limit, calls, key, skew, lo, hi) ==> Bounded(cfg, limit, calls, key, skew, lo, hi))
            <==> limit.windowSeconds <= MAX_WINDOW_SECONDS
  {
    hide Granted, CeilDiv;
    if limit.windowSeconds <= MAX_WINDOW_SECONDS {
      forall calls, key, skew, lo, hi | Eligible(cfg, limit, calls, key, skew, lo, hi)
        ensures Bounded(cfg, limit, calls, key, skew, lo, hi)
      {
        SlidingBound(cfg, calls, key, limit, skew, lo, hi);
      }
    } else {
      ExcessBreaks(cfg, limit);
    }
  }

  /** The rule parser accepts every positive window, also those that wrap to a negative or a short one. */
  lemma OverflowReachable(c: Rules.Config, seconds: int)
    requires seconds >= 1
    ensures var item := Rules.Item("r", "", "", "", 1, seconds, 0, [], "", map[], "");
            var parsed := Rules.RuleFrom(c, Rules.Document("", [Some(item)]), 0, 0);
            parsed.Ok? && parsed.value.windowSeconds == seconds
    ensures WindowOf(MAX_WINDOW_SECONDS + 1) < 0 && WindowOf(18446744074) == 290448384
  {
    assert (MAX_WINDOW_SECONDS + 1) * SECOND - INT64_MIN - 0x1_0000_0000_0000_0000 >= 0;
    assert 18446744074 * SECOND == 0x1_0000_0000_0000_0000 + 290448384;
    assert Trim("r") == "r";
  }
}
