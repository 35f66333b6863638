/**
 Spellings of one quota key: white space around it makes no difference to ownership, and a bucket of
 its own to the quota engine.
 */
module Spelling {
  import opened Common
  import opened Text
  import opened Rules
  import RuleIndex
  import opened Sample
  import Quota
  import QuotaBounds
  import opened Topology
  import opened Admission
  import opened Ownership
  import opened Cluster
  import opened ClusterSafety

  function BucketOf(req: Request): string {
    BucketKey(req.applicationCode, req.ruleId, req.quotaKey)
  }

  // ---------------------------------------------------------------- an input

  function Asking(quotaKey: string): Request {
    Request("", "a", "r", quotaKey, 1, "1", "k", "", "")
  }

  /**
   Two requests that differ in one space are for one shard key, and both are allowed by one engine at
   one instant, although the rule grants one per second.
   */
  lemma SpacedTwice(cfg: Quota.Config)
    requires cfg.Valid() && cfg.maxBuckets >= 2
    ensures var snapshot := SnapshotSample(1, "k");
            var (s, first) := Acquired(cfg, Quota.INITIAL, snapshot, snapshot, Asking("q"), 0);
            var (_, second) := Acquired(cfg, s, snapshot, snapshot, Asking(" q"), 0);
            && ShardKeyOf(Asking("q")) == ShardKeyOf(Asking(" q")) && BucketOf(Asking("q")) != BucketOf(Asking(" q"))
            && LimitOf(snapshot, Asking("q")) == Quota.Limit(1, 1)
            && first.decision == Allowed && second.decision == Allowed
  {
    assert Trim(" q") == "q" && Trim("q") == "q";
    SampleValidates(cfg.lagRetry, "q");
    SampleValidates(cfg.lagRetry, " q");
    var one, two := BucketOf(Asking("q")), BucketOf(Asking(" q"));
    assert |one| != |two|;
    FreshBucketAllows(cfg, one, two);
  }

  lemma SampleValidates(lagRetry: int, quotaKey: string)
    requires quotaKey in {"q", " q"}
    ensures Validate(lagRetry, SnapshotSample(1, "k"), Asking(quotaKey)).decision == Unspecified
  {
    assert Trim("a") == "a" && Trim("r") == "r" && Trim("k") == "k" && Trim("1") == "1" && Trim(quotaKey) == "q";
    assert FormatInt(1) == "1";
    ParseFormatRoundTrip(1);
    ValidatePassesExactly(lagRetry, SnapshotSample(1, "k"), Asking(quotaKey));
  }

  lemma FreshBucketAllows(cfg: Quota.Config, one: string, two: string)
    requires cfg.Valid() && cfg.maxBuckets >= 2 && one != two
    ensures var limit := Quota.Limit(1, 1);
            var (s, first) := Quota.Step(cfg, Quota.INITIAL, Quota.Call(one, limit, 1, 0));
            first.verdict == Quota.Allowed &&
              Quota.Step(cfg, s, Quota.Call(two, limit, 1, 0)).1.verdict == Quota.Allowed
  {
    var limit := Quota.Limit(1, 1);
    var s := Quota.Step(cfg, Quota.INITIAL, Quota.Call(one, limit, 1, 0)).0;
    assert s.buckets == map[one := Quota.Bucket(0, Quota.SECOND)];
    QuotaBounds.KeptShrinks(cfg, s.buckets, 0);
    assert |s.buckets| == 1;
  }

  // ---------------------------------------------------------------- exactly when

  /** The names of a rule that a well-formed snapshot holds are trimmed. */
  lemma HeldNamesPlain(decode: Decoder, s: Snapshot, code: string, rule: string)
    requires RuleIndex.WellFormed(decode, s) && FindRule(s, code, rule).Some? && ':' !in code && ':' !in rule
    ensures PlainName(code) && PlainName(rule)
  {
    hide RuleIndex.WellFormed;
    RuleIndex.IndexInvariant(decode, s, code);
    assert RuleIndex.RuleInPlace(s.apps[code], rule);
  }

  /** A well-formed snapshot with names free of colons serves every cap that the rule keeps to, if it is there. */
  lemma WellFormedServes(decode: Decoder, s: Snapshot, k: Cap)
    requires RuleIndex.WellFormed(decode, s)
    requires forall c, r :: FindRule(s, c, r).Some? ==> ':' !in c && ':' !in r
    requires forall rule :: FindRule(s, k.code, k.rule) == Some(rule) ==>
      Quota.Within(Quota.Limit(rule.quota, rule.windowSeconds), k.limit)
    ensures Serves(s, Some(k))
  {
    hide RuleIndex.WellFormed, Quota.Within, PlainName;
    forall c, r | FindRule(s, c, r).Some?
      ensures PlainName(c) && PlainName(r) && FindRule(s, c, r).value.quota >= 0
    {
      HeldNamesPlain(decode, s, c, r);
      RuleIndex.IndexInvariant(decode, s, c);
      assert RuleIndex.RuleInPlace(s.apps[c], r);
    }
  }

  /** Plain names and a trimmed quota key make shard keys injective. */
  lemma ShardKeyInjective(code: string, rule: string, key: string, code': string, rule': string, key': string)
    requires PlainName(code) && PlainName(rule) && PlainName(code') && PlainName(rule')
    ensures ShardKey(code, rule, key) == ShardKey(code', rule', key') <==>
      code == code' && rule == rule' && Trim(key) == Trim(key')
  {
    hide Trim;
    if ShardKey(code, rule, key) == ShardKey(code', rule', key') {
      BucketKeyInjective(code, rule, Trim(key), code', rule', Trim(key'));
    }
  }

  /** Two texts are one text with white space around it. */
  ghost predicate SameButSpace(a: string, b: string) {
    exists core, left, right, left', right' ::
      AllSpace(left) && AllSpace(right) && AllSpace(left') && AllSpace(right') && Trim(core) == core &&
      a == left + core + right && b == left' + core + right'
  }

  lemma SameButSpaceExactly(a: string, b: string)
    ensures SameButSpace(a, b) <==> Trim(a) == Trim(b)
  {
    hide Trim, AllSpace;
    if core, left, right, left', right' :|
      AllSpace(left) && AllSpace(right) && AllSpace(left') && AllSpace(right') && Trim(core) == core &&
      a == left + core + right && b == left' + core + right'
    {
      TrimPadded(left, core, right);
      TrimPadded(left', core, right');
    }
    if Trim(a) == Trim(b) {
      TrimTrims(a);
      TrimExactly(a, Trim(a));
      TrimExactly(b, Trim(a));
    }
  }

  /**
   Two requests for rules of well-formed snapshots, named without colons, have one shard key and
   different buckets if and only if they are for the same rule and their quota keys differ, but only
   in the white space around them.
   */
  lemma SpellingsExactly(decode: Decoder, s: Snapshot, t: Snapshot, a: Request, b: Request)
    requires RuleIndex.WellFormed(decode, s) && FindRule(s, a.applicationCode, a.ruleId).Some?
    requires RuleIndex.WellFormed(decode, t) && FindRule(t, b.applicationCode, b.ruleId).Some?
    requires ':' !in a.applicationCode && ':' !in a.ruleId && ':' !in b.applicationCode && ':' !in b.ruleId
    ensures ShardKeyOf(a) == ShardKeyOf(b) && BucketOf(a) != BucketOf(b) <==>
      && a.applicationCode == b.applicationCode && a.ruleId == b.ruleId
      && a.quotaKey != b.quotaKey && SameButSpace(a.quotaKey, b.quotaKey)
    ensures ShardKeyOf(a) == ShardKeyOf(b) ==>
      (BucketOf(a) != BucketOf(b) <==> a.quotaKey != b.quotaKey && Trim(a.quotaKey) == Trim(b.quotaKey))
  {
    hide RuleIndex.WellFormed, Trim, SameButSpace, BucketKey;
    HeldNamesPlain(decode, s, a.applicationCode, a.ruleId);
    HeldNamesPlain(decode, t, b.applicationCode, b.ruleId);
    ShardKeyInjective(a.applicationCode, a.ruleId, a.quotaKey, b.applicationCode, b.ruleId, b.quotaKey);
    SameButSpaceExactly(a.quotaKey, b.quotaKey);
    if BucketOf(a) == BucketOf(b) {
      BucketKeyInjective(a.applicationCode, a.ruleId, a.quotaKey, b.applicationCode, b.ruleId, b.quotaKey);
    }
  }

  // ---------------------------------------------------------------- bounded admission per shard key

  /** What one critical section granted, if it was for the shard key. */
  ghost function ShardShare(e: Entry, shardKey: string, lo: int, hi: int): int {
    if ShardKeyOf(e.req) == shardKey then ShareOf(e, e.call.key, lo, hi) else 0
  }

  /** The cost granted to one shard key under some spellings of its quota key. */
  ghost function ShardGranted(log: seq<Entry>, shardKey: string, spellings: set<string>, lo: int, hi: int): int {
    if log == [] then 0
    else
      var last := log[|log| - 1];
      ShardGranted(log[..|log| - 1], shardKey, spellings, lo, hi)
      + if last.req.quotaKey in spellings then ShardShare(last, shardKey, lo, hi) else 0
  }

  /** The cost granted to one shard key. */
  ghost function ShardTotal(log: seq<Entry>, shardKey: string, lo: int, hi: int): int {
    if log == [] then 0
    else ShardTotal(log[..|log| - 1], shardKey, lo, hi) + ShardShare(log[|log| - 1], shardKey, lo, hi)
  }

  /** The spellings of the quota key that were granted something in the interval. */
  ghost function SpellingsOf(log: seq<Entry>, shardKey: string, lo: int, hi: int): set<string> {
    set n | 0 <= n < |log| && ShardShare(log[n], shardKey, lo, hi) != 0 :: log[n].req.quotaKey
  }

  ghost function ShardRevisions(log: seq<Entry>, shardKey: string, lo: int, hi: int): set<string> {
    set n | 0 <= n < |log| && ShardShare(log[n], shardKey, lo, hi) != 0 :: log[n].req.topologyRevision
  }

  lemma {:induction false} TotalBySpellings(log: seq<Entry>, shardKey: string, spellings: set<string>, lo: int, hi: int)
    requires forall n :: 0 <= n < |log| && ShardShare(log[n], shardKey, lo, hi) != 0 ==>
      log[n].req.quotaKey in spellings
    ensures ShardTotal(log, shardKey, lo, hi) == ShardGranted(log, shardKey, spellings, lo, hi)
  {
    hide ShardShare;
    if log != [] {
      TotalBySpellings(log[..|log| - 1], shardKey, spellings, lo, hi);
    }
  }

  lemma {:induction false} OneSpellingLess(log: seq<Entry>, shardKey: string, spellings: set<string>, q: string,
                                           lo: int, hi: int)
    requires q in spellings
    ensures ShardGranted(log, shardKey, spellings, lo, hi)
         == ShardGranted(log, shardKey, spellings - {q}, lo, hi) + ShardGranted(log, shardKey, {q}, lo, hi)
  {
    hide ShardShare;
    if log != [] {
      OneSpellingLess(log[..|log| - 1], shardKey, spellings, q, lo, hi);
    }
  }

  lemma {:induction false} NoSpelling(log: seq<Entry>, shardKey: string, lo: int, hi: int)
    ensures ShardGranted(log, shardKey, {}, lo, hi) == 0
  {
    if log != [] {
      NoSpelling(log[..|log| - 1], shardKey, lo, hi);
    }
  }

  /** The entries of one spelling are those of one bucket. */
  ghost predicate SpelledBucket(e: Entry, shardKey: string, q: string, key: string) {
    ShardKeyOf(e.req) == shardKey && e.req.quotaKey == q <==> e.call.key == key
  }

  lemma {:induction false} SpellingIsBucket(log: seq<Entry>, shardKey: string, q: string, key: string, lo: int, hi: int)
    requires forall n :: 0 <= n < |log| ==> SpelledBucket(log[n], shardKey, q, key)
    ensures ShardGranted(log, shardKey, {q}, lo, hi) == TotalGranted(log, key, lo, hi)
  {
    hide ShardKeyOf;
    if log != [] {
      SpellingIsBucket(log[..|log| - 1], shardKey, q, key, lo, hi);
      assert SpelledBucket(log[|log| - 1], shardKey, q, key);
    }
  }

  /** What one spelling is granted. */
  lemma SpellingBound(w: World, s: State, k: Cap, shardKey: string, q: string, owners: set<string>, lag: int, lo: int,
                      hi: int)
    requires Invariant(w, s, Some(k)) && k.limit.Proper() && PlainName(k.code) && PlainName(k.rule)
    requires Settled(w, lag) && lo <= hi && Prompt(s.log, lag) && ShardKey(k.code, k.rule, q) == shardKey
    requires forall n :: 0 <= n < |s.log| && ShardShare(s.log[n], shardKey, lo, hi) != 0 ==> s.log[n].server in owners
    ensures ShardGranted(s.log, shardKey, {q}, lo, hi) <= |owners| * PerServer(k.limit, lag, lo, hi)
  {
    hide Invariant, Settled, Prompt, PerServer, PlainName, BucketKey, ShardKey;
    var key := BucketKey(k.code, k.rule, q);
    forall n | 0 <= n < |s.log|
      ensures SpelledBucket(s.log[n], shardKey, q, key)
      ensures ShareOf(s.log[n], key, lo, hi) != 0 ==> s.log[n].server in owners
    {
      var req := s.log[n].req;
      EntryNames(w, s, k, q, n);
      ShardKeyInjective(req.applicationCode, req.ruleId, req.quotaKey, k.code, k.rule, q);
    }
    SpellingIsBucket(s.log, shardKey, q, key, lo, hi);
    BucketBound(w, s, k, q, owners, lag, lo, hi);
  }

  lemma {:induction false} SpellingsBound(w: World, s: State, k: Cap, shardKey: string, spellings: set<string>,
                                          owners: set<string>,
                                          lag: int, lo: int, hi: int)
    requires Invariant(w, s, Some(k)) && k.limit.Proper() && PlainName(k.code) && PlainName(k.rule)
    requires Settled(w, lag) && lo <= hi && Prompt(s.log, lag)
    requires forall q :: q in spellings ==> ShardKey(k.code, k.rule, q) == shardKey
    requires forall n :: 0 <= n < |s.log| && ShardShare(s.log[n], shardKey, lo, hi) != 0 ==> s.log[n].server in owners
    ensures ShardGranted(s.log, shardKey, spellings, lo, hi) <=
      |spellings| * (|owners| * PerServer(k.limit, lag, lo, hi))
  {
    hide Invariant, Settled, Prompt, PerServer, PlainName, ShardKey, ShardShare;
    if spellings == {} {
      NoSpelling(s.log, shardKey, lo, hi);
    } else {
      var q :| q in spellings;
      SpellingsBound(w, s, k, shardKey, spellings - {q}, owners, lag, lo, hi);
      OneSpellingLess(s.log, shardKey, spellings, q, lo, hi);
      SpellingBound(w, s, k, shardKey, q, owners, lag, lo, hi);
      QuotaBounds.Distribute(|spellings| - 1, |owners| * PerServer(k.limit, lag, lo, hi));
    }
  }

  /**
   In every interleaved run, a shard key of a rule that is absent or within a cap (Q, W) at all times
   is granted by the whole cluster, in an interval of length L, at most ceil((L + lag) / W) + 1 quotas
   for each spelling of its quota key that the interval's requests use and each distinct instance that
   owns it under their topology revisions.
   */
  lemma ShardBound(w: World, stores: map<string, Snapshot>, start: int, actions: seq<Action>, k: Cap,
                   quotaKey: string, lag: int, lo: int, hi: int)
    requires Undisturbed(stores, actions, Some(k)) && k.limit.Proper() && PlainName(k.code) && PlainName(k.rule)
    requires Settled(w, lag) && lo <= hi && Prompt(Reached(w, stores, start, actions).log, lag)
    ensures var s := Reached(w, stores, start, actions);
            var shardKey := ShardKey(k.code, k.rule, quotaKey);
            var spellings := SpellingsOf(s.log, shardKey, lo, hi);
            var owners := OwnersUnder(w, s.lists, ShardRevisions(s.log, shardKey, lo, hi), shardKey);
            && ShardTotal(s.log, shardKey, lo, hi) <= |spellings| * (|owners| * PerServer(k.limit, lag, lo, hi))
            && forall q :: q in spellings ==> SameButSpace(q, quotaKey)
  {
    hide Reached, Invariant, Settled, Prompt, Undisturbed, OwnersUnder, PerServer, PlainName, ShardKey, ShardShare,
      SameButSpace;
    InvariantReached(w, stores, start, actions, Some(k));
    var s := Reached(w, stores, start, actions);
    var shardKey := ShardKey(k.code, k.rule, quotaKey);
    var spellings := SpellingsOf(s.log, shardKey, lo, hi);
    var revisions := ShardRevisions(s.log, shardKey, lo, hi);
    forall n | 0 <= n < |s.log| && ShardShare(s.log[n], shardKey, lo, hi) != 0
      ensures s.log[n].server in OwnersUnder(w, s.lists, revisions, shardKey)
      ensures ShardKey(k.code, k.rule, s.log[n].req.quotaKey) == shardKey &&
        SameButSpace(s.log[n].req.quotaKey, quotaKey)
    {
      ServerIsOwner(w, s, Some(k), n, revisions);
      SharesShardKey(s.log[n], shardKey, lo, hi);
      EntrySpells(w, s, k, quotaKey, n);
    }
    TotalBySpellings(s.log, shardKey, spellings, lo, hi);
    SpellingsBound(w, s, k, shardKey, spellings, OwnersUnder(w, s.lists, revisions, shardKey), lag, lo, hi);
  }

  lemma SharesShardKey(e: Entry, shardKey: string, lo: int, hi: int)
    requires ShardShare(e, shardKey, lo, hi) != 0
    ensures ShardKeyOf(e.req) == shardKey
  {
  }

  lemma EntrySpells(w: World, s: State, k: Cap, quotaKey: string, n: nat)
    requires Invariant(w, s, Some(k)) && PlainName(k.code) && PlainName(k.rule) && n < |s.log|
    requires ShardKeyOf(s.log[n].req) == ShardKey(k.code, k.rule, quotaKey)
    ensures ShardKey(k.code, k.rule, s.log[n].req.quotaKey) == ShardKey(k.code, k.rule, quotaKey)
    ensures SameButSpace(s.log[n].req.quotaKey, quotaKey)
  {
    hide Invariant, PlainName, SameButSpace;
    var req := s.log[n].req;
    EntryNames(w, s, k, quotaKey, n);
    ShardKeyInjective(req.applicationCode, req.ruleId, req.quotaKey, k.code, k.rule, quotaKey);
    SameButSpaceExactly(req.quotaKey, quotaKey);
  }
}
