/** Admitting a request: rule validation, the deduction, and the digest comparison beside it. */
module Admission {
  import opened Common
  import opened Text
  import opened Rules
  import Quota
  import opened Sample

  datatype Request = Request(
    requestId: string, applicationCode: string, ruleId: string, quotaKey: string, cost: int,
    ruleRevision: string, ruleChecksum: string, topologyRevision: string, targetInstanceId: string)

  datatype Decision =
    | Unspecified
    | Allowed
    | Denied
    | InvalidRequest
    | RuleNotFound
    | ServerRuleLag
    | RuleStale
    | RuleConflict
    | NotOwner
    | ShardMigrating

  datatype Response = Response(
    requestId: string, ruleId: string, decision: Decision, reason: string, remaining: int,
    resetAtUnixMs: int, retryAfterMs: int, ruleRevision: string, ruleChecksum: string)

  function EmptyResponse(req: Request): Response {
    Response(req.requestId, req.ruleId, Unspecified, "", 0, 0, 0, "", "")
  }

  // ---------------------------------------------------------------- validation

  /** The first required field that is blank, by name of its error. */
  function MissingField(req: Request): string {
    if Blank(req.applicationCode) then "application_code_required"
    else if Blank(req.ruleId) then "rule_id_required"
    else if Blank(req.quotaKey) then "quota_key_required"
    else if Blank(req.ruleRevision) then "rule_revision_required"
    else if Blank(req.ruleChecksum) then "rule_checksum_required"
    else ""
  }

  /** `compareRuleVersion`: a decision with its reason, Unspecified when the versions agree. */
  function CompareRuleVersion(rule: Rule, revision: string, checksum: string): (Decision, string) {
    var version := ParseInt64(revision);
    if revision != "" && version.Some? && version.value > rule.snapshotVersion then (ServerRuleLag, "server_rule_lag")
    else if revision != "" && version.Some? && version.value < rule.snapshotVersion
    then (RuleStale, "client_rule_stale")
    else if revision != "" && version == None && revision != rule.Revision()
    then (RuleConflict, "rule_revision_conflict")
    else if checksum != "" && checksum != rule.checksum then (RuleConflict, "rule_checksum_conflict")
    else (Unspecified, "")
  }

  /** `Validate`, on the snapshot the store holds when it is read. */
  function Validate(lagRetry: int, snapshot: Snapshot, req: Request): Response {
    var response := EmptyResponse(req);
    if MissingField(req) != "" then response.(decision := InvalidRequest, reason := MissingField(req))
    else match FindRule(snapshot, req.applicationCode, req.ruleId)
      case None => response.(decision := RuleNotFound, reason := "rule_not_found")
      case Some(rule) =>
        var found := response.(ruleRevision := rule.Revision(), ruleChecksum := rule.checksum);
        var (decision, reason) := CompareRuleVersion(rule, req.ruleRevision, req.ruleChecksum);
        if decision != Unspecified then
          found.(decision := decision, reason := reason,
                 retryAfterMs := if decision == ServerRuleLag then Quota.Milliseconds(lagRetry) else 0)
        else if rule.quota <= 0 || rule.windowSeconds <= 0
        then found.(decision := Denied, reason := "invalid_rule_quota")
        else found
  }

  // ---------------------------------------------------------------- deduction

  /** What the second lookup of the rule sees; a rule that has gone reads as zeros. */
  function LimitOf(snapshot: Snapshot, req: Request): Quota.Limit {
    match FindRule(snapshot, req.applicationCode, req.ruleId)
    case None => Quota.Limit(0, 0)
    case Some(rule) => Quota.Limit(rule.quota, rule.windowSeconds)
  }

  function BucketKey(applicationCode: string, ruleId: string, quotaKey: string): string {
    applicationCode + ":" + ruleId + ":" + quotaKey
  }

  function CallOf(req: Request, limit: Quota.Limit, now: int): Quota.Call {
    Quota.Call(BucketKey(req.applicationCode, req.ruleId, req.quotaKey), limit, Quota.NormalCost(req.cost), now)
  }

  function Answer(validated: Response, outcome: Quota.Outcome): Response {
    match outcome.verdict
    case Allowed =>
      validated.(decision := Allowed, reason := "allowed", remaining := outcome.remaining,
                 resetAtUnixMs := outcome.resetAtUnixMs)
    case RateLimited =>
      validated.(decision := Denied, reason := "rate_limited", remaining := outcome.remaining,
                 resetAtUnixMs := outcome.resetAtUnixMs, retryAfterMs := outcome.retryAfterMs)
    case CapacityExceeded =>
      validated.(decision := Denied, reason := "bucket_capacity_exceeded", retryAfterMs := outcome.retryAfterMs)
  }

  /**
   `Acquire`: the store may be swapped between the read for validation and the read for the limit,
   so the two snapshots are separate.
   */
  function Acquired(cfg: Quota.Config, s: Quota.State, first: Snapshot, second: Snapshot, req: Request, now: int)
      : (Quota.State, Response) {
    var validated := Validate(cfg.lagRetry, first, req);
    if validated.decision != Unspecified then (s, validated)
    else
      var (s', outcome) := Quota.Step(cfg, s, CallOf(req, LimitOf(second, req), now));
      (s', Answer(validated, outcome))
  }

  /** Without a colon in application code and rule id, different triples get different buckets. */
  lemma BucketKeyInjective(code: string, rule: string, key: string, code': string, rule': string, key': string)
    requires ':' !in code && ':' !in rule && ':' !in code' && ':' !in rule'
    requires BucketKey(code, rule, key) == BucketKey(code', rule', key')
    ensures code == code' && rule == rule' && key == key'
  {
    assert BucketKey(code, rule, key) == code + ":" + (rule + ":" + key);
    assert BucketKey(code', rule', key') == code' + ":" + (rule' + ":" + key');
    SplitUnique(':', code, rule + ":" + key, code', rule' + ":" + key');
    SplitUnique(':', rule, key, rule', key');
  }

  /**
   A bucket key is also that of another triple with colon-free code and rule exactly if a colon
   occurs in the code or the rule.
   */
  lemma BucketKeySharedExactly(code: string, rule: string, key: string)
    ensures (exists code', rule', key' :: SharesBucket(code, rule, key, code', rule', key')) <==>
      ':' in code || ':' in rule
  {
    if code', rule', key' :| SharesBucket(code, rule, key, code', rule', key') {
      if ':' !in code && ':' !in rule {
        BucketKeyInjective(code, rule, key, code', rule', key');
      }
    }
    if ':' in code || ':' in rule {
      var whole := BucketKey(code, rule, key);
      assert whole == code + ":" + (rule + ":" + key) && whole[|code|] == ':';
      var (code', rest) := CutAt(':', whole);
      RestHasColon(whole, code', rest, code, rule + ":" + key);
      var (rule', key') := CutAt(':', rest);
      assert BucketKey(code', rule', key') == code' + [':'] + (rule' + [':'] + key');
      assert SharesBucket(code, rule, key, code', rule', key');
    }
  }

  ghost predicate SharesBucket(code: string, rule: string, key: string, code': string, rule': string, key': string) {
    && ':' !in code' && ':' !in rule' && (code', rule', key') != (code, rule, key)
    && BucketKey(code', rule', key') == BucketKey(code, rule, key)
  }

  /** Behind the first of two colons there is another one. */
  lemma RestHasColon(whole: string, before: string, behind: string, a: string, b: string)
    requires whole == before + [':'] + behind && ':' !in before && whole == a + ":" + b && ':' in b
    ensures ':' in behind
  {
    var i :| 0 <= i < |b| && b[i] == ':';
    var at := |a| + 1 + i;
    assert whole[|a|] == ':' && whole[at] == ':';
    assert before == whole[..|before|] && |before| <= |a|;
    assert behind[at - |before| - 1] == whole[at];
  }

  /** Two rules of one application list that differ only in where the colon stands share their buckets. */
  lemma BucketKeyAmbiguous()
    ensures BucketKey("a:b", "c", "d") == BucketKey("a", "b:c", "d") == BucketKey("a", "b", "c:d")
    ensures SharesBucket("a:b", "c", "d", "a", "b", "c:d") && SharesBucket("a", "b:c", "d", "a", "b", "c:d")
  {
    assert BucketKey("a:b", "c", "d") == "a:b:c:d" == BucketKey("a", "b:c", "d");
    assert BucketKey("a", "b", "c:d") == "a:b:c:d";
  }

  /** Validation alone never allows a request, and uses reasons of its own. */
  lemma ValidateDecides(lagRetry: int, snapshot: Snapshot, req: Request)
    ensures var response := Validate(lagRetry, snapshot, req);
            && response.decision !in {Allowed, NotOwner, ShardMigrating}
            && response.reason !in {"allowed", "rate_limited", "bucket_capacity_exceeded"}
  {
    hide ParseInt64, FormatInt, Trim;
  }

  /**
   A request passes validation exactly if every required field is given, the rule is there with a
   positive quota and window, the revision parses to the rule's version, and the checksum is the rule's.
   */
  lemma ValidatePassesExactly(lagRetry: int, snapshot: Snapshot, req: Request)
    requires forall rule :: FindRule(snapshot, req.applicationCode, req.ruleId) == Some(rule) ==>
      IsInt64(rule.snapshotVersion)
    ensures Validate(lagRetry, snapshot, req).decision == Unspecified <==>
      && !Blank(req.applicationCode) && !Blank(req.ruleId) && !Blank(req.quotaKey)
      && !Blank(req.ruleRevision) && !Blank(req.ruleChecksum)
      && match FindRule(snapshot, req.applicationCode, req.ruleId)
         case None => false
         case Some(rule) =>
           && rule.quota > 0 && rule.windowSeconds > 0
           && ParseInt64(req.ruleRevision) == Some(rule.snapshotVersion) && req.ruleChecksum == rule.checksum
  {
    hide ParseInt64, CompareRuleVersion, Trim;
    if MissingField(req) == "" && FindRule(snapshot, req.applicationCode, req.ruleId).Some? {
      BlankIsEmpty();
      ComparisonsAgree(FindRule(snapshot, req.applicationCode, req.ruleId).value, req.ruleRevision, req.ruleChecksum);
    }
  }

  /** Only a validated request reaches the buckets; every rule error leaves the engine as it was. */
  lemma EngineTouchedOnlyIfValidated(cfg: Quota.Config, s: Quota.State, first: Snapshot, second: Snapshot, req: Request,
                                     now: int)
    ensures var (s', response) := Acquired(cfg, s, first, second, req, now);
            && (response.reason !in {"allowed", "rate_limited", "bucket_capacity_exceeded"} ==> s' == s)
            && (response.decision == Allowed ==>
                  && Validate(cfg.lagRetry, first, req).decision == Unspecified
                  && Quota.Step(cfg, s, CallOf(req, LimitOf(second, req), now)).1.verdict == Quota.Allowed)
  {
    ValidateDecides(cfg.lagRetry, first, req);
    hide Quota.Step, Validate;
  }

  /** An allowed request takes its cost, one if it names none, from its own bucket, once, and no other bucket grows. */
  lemma AllowedDeductsOnce(cfg: Quota.Config, s: Quota.State, first: Snapshot, second: Snapshot, req: Request, now: int)
    requires Acquired(cfg, s, first, second, req, now).1.decision == Allowed
    ensures var s' := Acquired(cfg, s, first, second, req, now).0;
            var key := BucketKey(req.applicationCode, req.ruleId, req.quotaKey);
            var paid := if req.cost >= 1 then req.cost else 1;
            && key in s'.buckets
            && (s'.buckets[key].remaining + paid == LimitOf(second, req).quota
                || (key in s.buckets && s'.buckets[key].remaining + paid == s.buckets[key].remaining))
            && s'.buckets[key].remaining >= 0
            && forall k :: k in s'.buckets && k != key ==> k in s.buckets && s'.buckets[k] == s.buckets[k]
  {
    ValidateDecides(cfg.lagRetry, first, req);
    hide BucketKey, LimitOf, Validate;
  }

  // ---------------------------------------------------------------- answers

  /** Whole milliseconds of a wait: none of one that is over, and at most those of the longest duration. */
  ghost predicate WholeMilliseconds(wait: int, ms: int) {
    if wait <= 0 then ms == 0
    else ms * 1_000_000 <= (if wait > INT64_MAX then INT64_MAX else wait) < (ms + 1) * 1_000_000
  }

  /** The bucket that a request finds: a live one of its key, or a full one of the rule. */
  function Found(s: Quota.State, key: string, limit: Quota.Limit, now: int): Quota.Bucket {
    if key in s.buckets && now < s.buckets[key].resetAt then s.buckets[key]
    else Quota.Bucket(limit.quota, now + Quota.WindowOf(limit.windowSeconds))
  }

  /**
   The answer to a validated request, in terms of the bucket before and after: granted exactly if there
   is room and the bucket it finds holds the cost; balance and reset are those of the bucket after it.
   */
  lemma AcquireAnswers(cfg: Quota.Config, s: Quota.State, first: Snapshot, second: Snapshot, req: Request, now: int)
    requires cfg.Valid() && Validate(cfg.lagRetry, first, req).decision == Unspecified
    ensures var (s', response) := Acquired(cfg, s, first, second, req, now);
            var key := BucketKey(req.applicationCode, req.ruleId, req.quotaKey);
            var found := Found(s, key, LimitOf(second, req), now);
            var paid := if req.cost >= 1 then req.cost else 1;
            var rule := FindRule(first, req.applicationCode, req.ruleId);
            && response.requestId == req.requestId && response.ruleId == req.ruleId && rule.Some?
            && response.ruleRevision == rule.value.Revision() && response.ruleChecksum == rule.value.checksum
            && if key !in s'.buckets then
              && |s'.buckets| >= cfg.maxBuckets
              && response.decision == Denied && response.reason == "bucket_capacity_exceeded"
              && response.remaining == 0 && response.resetAtUnixMs == 0
              && response.retryAfterMs * 1_000_000 <= cfg.gcInterval < (response.retryAfterMs + 1) * 1_000_000
            else
              var bucket := s'.buckets[key];
              && bucket.resetAt == found.resetAt && response.remaining == bucket.remaining
              && response.resetAtUnixMs * 1_000_000 <= bucket.resetAt < (response.resetAtUnixMs + 1) * 1_000_000
              && if found.remaining >= paid then
                   && response.decision == Allowed && response.reason == "allowed" && response.retryAfterMs == 0
                   && bucket.remaining == found.remaining - paid
                 else
                   && response.decision == Denied && response.reason == "rate_limited"
                   && bucket.remaining == found.remaining
                   && WholeMilliseconds(bucket.resetAt - now, response.retryAfterMs)
  {
    ValidateAnswers(cfg.lagRetry, first, req);
    StepAnswers(cfg, s, CallOf(req, LimitOf(second, req), now));
    hide BucketKey, LimitOf, Validate, Quota.Step, Found, WholeMilliseconds;
  }

  /** The same of one step, with its outcome. */
  lemma StepAnswers(cfg: Quota.Config, s: Quota.State, c: Quota.Call)
    requires cfg.Valid()
    ensures var (s', outcome) := Quota.Step(cfg, s, c);
            var found := Found(s, c.key, c.limit, c.time);
            if c.key !in s'.buckets then
              && outcome.verdict == Quota.CapacityExceeded && |s'.buckets| >= cfg.maxBuckets
              && outcome.retryAfterMs * 1_000_000 <= cfg.gcInterval < (outcome.retryAfterMs + 1) * 1_000_000
            else
              var bucket := s'.buckets[c.key];
              && bucket.resetAt == found.resetAt && outcome.remaining == bucket.remaining
              && outcome.resetAtUnixMs * 1_000_000 <= bucket.resetAt < (outcome.resetAtUnixMs + 1) * 1_000_000
              && if found.remaining >= c.cost then
                   && outcome.verdict == Quota.Allowed && outcome.retryAfterMs == 0
                   && bucket.remaining == found.remaining - c.cost
                 else
                   && outcome.verdict == Quota.RateLimited && bucket.remaining == found.remaining
                   && WholeMilliseconds(bucket.resetAt - c.time, outcome.retryAfterMs)
  {
    hide Quota.WindowOf;
  }

  /**
   Every refusal and what it carries: the first blank field, a missing rule, a version or checksum that
   differs, a bad rule.
   */
  lemma ValidateAnswers(lagRetry: int, snapshot: Snapshot, req: Request)
    ensures var r := Validate(lagRetry, snapshot, req);
            && r.requestId == req.requestId && r.ruleId == req.ruleId && r.remaining == 0 && r.resetAtUnixMs == 0
            && (r.decision != ServerRuleLag ==> r.retryAfterMs == 0)
            && if AllGiven(req) then RuleAnswer(lagRetry, FindRule(snapshot, req.applicationCode, req.ruleId), req, r)
               else
                 && r.decision == InvalidRequest && r.ruleRevision == "" && r.ruleChecksum == ""
                 && NamesFirstBlank(req, r.reason)
  {
    BlankIsEmpty();
    hide ParseInt64, FormatInt, Blank, Rule.Revision;
  }

  ghost predicate AllGiven(req: Request) {
    && !Blank(req.applicationCode) && !Blank(req.ruleId) && !Blank(req.quotaKey)
    && !Blank(req.ruleRevision) && !Blank(req.ruleChecksum)
  }

  /** The reason names the first blank field, in the order of the checks. */
  ghost predicate NamesFirstBlank(req: Request, reason: string) {
    && (Blank(req.applicationCode) ==> reason == "application_code_required")
    && (!Blank(req.applicationCode) ==>
          && (Blank(req.ruleId) ==> reason == "rule_id_required")
          && (!Blank(req.ruleId) ==>
                && (Blank(req.quotaKey) ==> reason == "quota_key_required")
                && (!Blank(req.quotaKey) ==>
                      reason == if Blank(req.ruleRevision) then "rule_revision_required"
                        else "rule_checksum_required")))
  }

  ghost predicate RuleAnswer(lagRetry: int, found: Option<Rule>, req: Request, r: Response) {
    match found
    case None => r.decision == RuleNotFound && r.reason == "rule_not_found" && r.ruleRevision == "" &&
      r.ruleChecksum == ""
    case Some(rule) =>
      var version := ParseInt64(req.ruleRevision);
      && r.ruleRevision == rule.Revision() && r.ruleChecksum == rule.checksum
      && (version.Some? && version.value > rule.snapshotVersion ==>
            && r.decision == ServerRuleLag && r.reason == "server_rule_lag"
            && (lagRetry > 0 ==> r.retryAfterMs * 1_000_000 <= lagRetry < (r.retryAfterMs + 1) * 1_000_000))
      && (version.Some? && version.value < rule.snapshotVersion ==>
            r.decision == RuleStale && r.reason == "client_rule_stale")
      && (version == None && req.ruleRevision != rule.Revision() ==>
            r.decision == RuleConflict && r.reason == "rule_revision_conflict")
      && (version == Some(rule.snapshotVersion) && req.ruleChecksum != rule.checksum ==>
            r.decision == RuleConflict && r.reason == "rule_checksum_conflict")
      && (version == Some(rule.snapshotVersion) && req.ruleChecksum == rule.checksum ==>
            if rule.quota <= 0 || rule.windowSeconds <= 0 then r.decision == Denied && r.reason == "invalid_rule_quota"
            else r.decision == Unspecified && r.reason == "")
  }

  // ---------------------------------------------------------------- the two rule checks

  datatype Status = Matched | NotFound | ClientStale | ServerStale | Conflict

  datatype Digest = Digest(applicationCode: string, ruleId: string, revision: string, checksum: string)

  /** The classification of `validateDigest`. */
  function DigestStatus(snapshot: Snapshot, d: Digest): Status {
    match FindRule(snapshot, d.applicationCode, d.ruleId)
    case None => NotFound
    case Some(rule) =>
      var version := ParseInt64(d.revision);
      if version.Some? && version.value < rule.snapshotVersion then ClientStale
      else if version.Some? && version.value > rule.snapshotVersion then ServerStale
      else if d.checksum != "" && d.checksum != rule.checksum then Conflict
      else Matched
  }

  /** Each status by its cause, for every digest: a blank checksum at an equal revision matches. */
  lemma DigestStatusExactly(snapshot: Snapshot, d: Digest)
    ensures var rule := FindRule(snapshot, d.applicationCode, d.ruleId);
            var version := ParseInt64(d.revision);
            var status := DigestStatus(snapshot, d);
            && (status == NotFound <==> rule == None)
            && (status == ClientStale <==> rule.Some? && version.Some? && version.value < rule.value.snapshotVersion)
            && (status == ServerStale <==> rule.Some? && version.Some? && version.value > rule.value.snapshotVersion)
            && (status == Conflict <==>
                  && rule.Some? && (version == None || version.value == rule.value.snapshotVersion)
                  && d.checksum != "" && d.checksum != rule.value.checksum)
            && (status == Matched <==>
                  && rule.Some? && (version == None || version.value == rule.value.snapshotVersion)
                  && (d.checksum == "" || d.checksum == rule.value.checksum))
  {
    hide ParseInt64;
  }

  /** The decisions of `Validate` and the digest statuses that mean the same. */
  predicate Corresponds(decision: Decision, status: Status) {
    match status
    case Matched => decision == Unspecified
    case NotFound => decision == RuleNotFound
    case ClientStale => decision == RuleStale
    case ServerStale => decision == ServerRuleLag
    case Conflict => decision == RuleConflict
  }

  /**
   On one snapshot with proper rules, both checks classify alike exactly if no required field is
   missing and it is not the case that the rule is there, its checksum is the one given, and the
   revision is no integer: then one reports a conflict and the other a match.
   */
  lemma RuleChecksAgreeExactly(lagRetry: int, snapshot: Snapshot, req: Request)
    requires forall rule :: FindRule(snapshot, req.applicationCode, req.ruleId) == Some(rule) ==>
      rule.quota > 0 && rule.windowSeconds > 0 && IsInt64(rule.snapshotVersion)
    ensures var rule := FindRule(snapshot, req.applicationCode, req.ruleId);
            Corresponds(Validate(lagRetry, snapshot, req).decision, DigestStatus(snapshot, DigestOfRequest(req))) <==>
              && MissingField(req) == ""
              && !(ParseInt64(req.ruleRevision) == None && rule.Some? && rule.value.checksum == req.ruleChecksum)
  {
    hide ParseInt64, CompareRuleVersion;
    if MissingField(req) == "" && FindRule(snapshot, req.applicationCode, req.ruleId).Some? {
      ComparisonsAgree(FindRule(snapshot, req.applicationCode, req.ruleId).value, req.ruleRevision, req.ruleChecksum);
    }
  }

  /** A request with the rule's checksum and a revision that is no integer: one check conflicts, the other matches. */
  lemma RuleChecksDisagree(lagRetry: int)
    ensures var req := Request("", "a", "r", "q", 1, "x", "k", "", "");
            && Validate(lagRetry, SnapshotSample(1, "k"), req).decision == RuleConflict
            && DigestStatus(SnapshotSample(1, "k"), DigestOfRequest(req)) == Matched
  {
    assert Trim("a") == "a" && Trim("r") == "r" && Trim("q") == "q" && Trim("x") == "x" && Trim("k") == "k";
    assert ParseInt64("x") == None;
    RevisionParses(RuleSample(1, "k"));
  }

  function DigestOfRequest(req: Request): Digest {
    Digest(req.applicationCode, req.ruleId, req.ruleRevision, req.ruleChecksum)
  }

  /** Decision and status of one rule against a given revision and checksum. */
  lemma ComparisonsAgree(rule: Rule, revision: string, checksum: string)
    requires IsInt64(rule.snapshotVersion) && revision != "" && checksum != ""
    ensures var (version, decision) := (ParseInt64(revision), CompareRuleVersion(rule, revision, checksum).0);
            if version == None then decision == RuleConflict
            else if version.value < rule.snapshotVersion then decision == RuleStale
            else if version.value > rule.snapshotVersion then decision == ServerRuleLag
            else if checksum != rule.checksum then decision == RuleConflict
            else decision == Unspecified
  {
    RevisionParses(rule);
    hide ParseInt64, FormatInt;
  }

  /** A rule's own revision parses back to its snapshot version, unless that is zero. */
  lemma RevisionParses(rule: Rule)
    requires IsInt64(rule.snapshotVersion)
    ensures rule.snapshotVersion == 0 <==> rule.Revision() == ""
    ensures rule.snapshotVersion != 0 ==> ParseInt64(rule.Revision()) == Some(rule.snapshotVersion)
  {
    ParseFormatRoundTrip(rule.snapshotVersion);
  }

  // ---------------------------------------------------------------- the overall status

  /** `mergeStatus`; the fold starts from Matched, so no status is ever unspecified. */
  function MergeStatus(current: Status, next: Status): Status {
    if next == Matched then current
    else if current == Matched then next
    else if next == Conflict || current == Conflict then Conflict
    else current
  }

  method ValidateDigests(snapshot: Snapshot, digests: seq<Digest>) returns (results: seq<Status>, overall: Status)
    ensures |results| == |digests| && forall i :: 0 <= i < |digests| ==>
      results[i] == DigestStatus(snapshot, digests[i])
    ensures overall == Matched <==> forall i :: 0 <= i < |results| ==> results[i] == Matched
    ensures overall == Conflict <==> Conflict in results
    ensures overall != Matched && overall != Conflict ==>
      exists i :: 0 <= i < |results| && results[i] == overall && forall j :: 0 <= j < i ==> results[j] == Matched
  {
    results, overall := [], Matched;
    for n := 0 to |digests|
      invariant |results| == n && forall i :: 0 <= i < n ==> results[i] == DigestStatus(snapshot, digests[i])
      invariant overall == Matched <==> forall i :: 0 <= i < n ==> results[i] == Matched
      invariant overall == Conflict <==> Conflict in results
      invariant overall != Matched && overall != Conflict ==>
        exists i :: 0 <= i < n && results[i] == overall && forall j :: 0 <= j < i ==> results[j] == Matched
    {
      var status := DigestStatus(snapshot, digests[n]);
      results := results + [status];
      overall := MergeStatus(overall, status);
    }
  }
}
