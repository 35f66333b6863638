/** Whole runs of a replica: at every moment it equals what the upstream publishes under the replica's own version. */
module Replication {
  import opened Common
  import opened Text
  import opened Rules
  import opened RuleIndex
  import opened RuleRebuild
  import opened RuleDelta
  import opened Upstreams
  import opened Syncer

  // ---------------------------------------------------------------- one step

  /** The snapshot is the full build of what the upstream published under its version. */
  ghost predicate BuiltFrom(decode: Decoder, upstream: Upstream, s: Snapshot) {
    BuildSnapshot(decode, s.version, s.checksum, s.generatedAt, upstream.configs(s.version, s.checksum)) == Ok(s)
  }

  /** The snapshot is the outcome of a truthful delta on the one before. */
  ghost predicate AdvancedBy(decode: Decoder, upstream: Upstream, before: Snapshot, after: Snapshot, d: Delta) {
    && Truthful(upstream, d) && Continues(before, d)
    && ApplyChanges(decode, before, d.toVersion, d.toChecksum, d.generatedAt, d.changes) == Ok(after)
  }

  /** Nothing changes, or a complete new snapshot takes over. */
  ghost predicate SyncStep(decode: Decoder, upstream: Upstream, before: Snapshot, after: Snapshot) {
    || after == before
    || BuiltFrom(decode, upstream, after)
    || (exists d :: AdvancedBy(decode, upstream, before, after, d))
    || (IsEmpty(before) && after == EmptySnapshot(after.generatedAt))
  }

  /** Every full sync is a step, whether it succeeds or fails; without an error, or with one of the cache, it built. */
  lemma SyncedIsStep(decode: Decoder, upstream: Upstream, fetched: Result<Answer, SyncError>, before: Snapshot,
                     cached: bool, after: Snapshot, err: Option<SyncError>)
    requires Synced(decode, upstream, fetched, before, cached, after, err)
    ensures SyncStep(decode, upstream, before, after)
    ensures fetched.Ok? && err in {None, Some(CacheFailed)} ==> BuiltFrom(decode, upstream, after)
    ensures err !in {None, Some(CacheFailed)} ==> after == before
  {
    hide BuildSnapshot, AdvancedBy;
    if fetched.Ok? && err in {None, Some(CacheFailed)} {
      var StandsAt(version, checksum, generatedAt) := fetched.value;
      BuildKeepsStamp(decode, version, checksum, generatedAt, upstream.configs(version, checksum));
    }
  }

  /** So is every request for changes, if the upstream answers it truthfully. */
  lemma DeltaIsStep(decode: Decoder, upstream: Upstream, answer: Option<Delta>, fetched: Result<Answer, SyncError>,
                    before: Snapshot, cached: bool, after: Snapshot, err: Option<SyncError>)
    requires DeltaOutcome(decode, upstream, answer, fetched, before, cached, after, err)
    requires answer.Some? ==> Truthful(upstream, answer.value)
    ensures SyncStep(decode, upstream, before, after)
    ensures err !in {None, Some(CacheFailed)} ==> after == before
  {
    hide BuildSnapshot, ApplyChanges, Truthful, Synced;
    if answer.Some? && Refusal(before.version, answer.value) == None {
      if Continues(before, answer.value) {
        assert after != before ==> AdvancedBy(decode, upstream, before, after, answer.value);
      } else {
        SyncedIsStep(decode, upstream, fetched, before, cached, after, err);
      }
    }
  }

  /**
   A delta is refused, with nothing changed, exactly if it declares another number of changes than it
   carries, does not advance the version, or has no target checksum; the first of these is reported.
   */
  lemma RefusedExactly(decode: Decoder, upstream: Upstream, d: Delta, fetched: Result<Answer, SyncError>,
                       before: Snapshot, cached: bool, after: Snapshot, err: Option<SyncError>)
    requires DeltaOutcome(decode, upstream, Some(d), fetched, before, cached, after, err)
    requires fetched.Err? ==> fetched.error in {FetchFailed, ChangedWhilePaging}
    ensures var miscounted := d.changeCount != 0 && d.changeCount != |d.changes|;
            && (err == Some(CountMismatch) <==> miscounted)
            && (err == Some(NotAdvancing) <==> !miscounted && before.version >= d.toVersion)
            && (err == Some(TargetChecksumRequired) <==>
                  !miscounted && before.version < d.toVersion && d.toChecksum == "")
            && (err in {Some(CountMismatch), Some(NotAdvancing), Some(TargetChecksumRequired)} ==> after == before)
  {
    hide BuildSnapshot, ApplyChanges;
  }

  /**
   A truthful delta that continues the snapshot, advances its version, names a target checksum, counts its
   changes right or not at all, and whose changes fit, is installed: the store ends at the delta's target
   with the upstream's configs there.
   */
  lemma DeltaInstalls(decode: Decoder, upstream: Upstream, d: Delta, fetched: Result<Answer, SyncError>,
                      before: Snapshot, cached: bool, after: Snapshot, err: Option<SyncError>)
    requires DeltaOutcome(decode, upstream, Some(d), fetched, before, cached, after, err)
    requires Faithful(decode, upstream, before) && Truthful(upstream, d)
    requires d.fromVersion == before.version && d.fromChecksum == before.checksum
    requires d.toVersion > before.version && !Blank(d.toChecksum) && d.changeCount in {0, |d.changes|}
    requires forall n :: 0 <= n < |d.changes| ==>
      Fits(decode, EditFirst(ConfigsOf(before), d.changes, n), before.version, d.toVersion, d.changes[n])
    ensures after.version == d.toVersion && after.checksum == d.toChecksum
    ensures Faithful(decode, upstream, after) && ConfigsOf(after) == Truth(upstream, d.toVersion, d.toChecksum)
    ensures if cached then err == None else err == Some(CacheFailed)
  {
    BlankIsEmpty();
    hide WellFormed, ConfigsOf, EditFirst, Fits, ApplyChanges, Truthful, Synced, Blank, Truth;
    DeltaSucceedsExactly(decode, before, d.toVersion, d.toChecksum, d.generatedAt, d.changes);
    DeltaEdits(decode, before, d.toVersion, d.toChecksum, d.generatedAt, d.changes);
    AdvanceIsFaithful(decode, upstream, before, after, d);
  }

  /**
   A start is a step or two: the full sync, if the upstream is enabled, and the empty snapshot where there
   is none.
   */
  lemma StartIsSteps(decode: Decoder, upstream: Upstream, enabled: bool, allowEmpty: bool, now: int, cached: bool,
                     emptyCached: bool, fetched: Result<Answer, SyncError>, before: Snapshot, middle: Snapshot,
                     failure: Option<SyncError>, after: Snapshot, err: Option<SyncError>)
    requires if enabled then Synced(decode, upstream, fetched, before, cached, middle, failure)
             else middle == before && failure == Some(EndpointRequired)
    requires Started(enabled, allowEmpty, now, emptyCached, middle, failure, after, err)
    ensures SyncStep(decode, upstream, before, middle) && SyncStep(decode, upstream, middle, after)
    ensures allowEmpty && emptyCached ==> err == None
    ensures !IsEmpty(middle) ==> after == middle
  {
    hide BuiltFrom, AdvancedBy, Synced;
    if enabled {
      SyncedIsStep(decode, upstream, fetched, before, cached, middle, failure);
    }
  }

  /** An upstream that stands still for long enough is installed at once, unless its configs do not build. */
  lemma StandingStillInstalls(decode: Decoder, upstream: Upstream, pages: seq<Answer>, size: nat, retries: nat,
                              before: Snapshot, after: Snapshot, err: Option<SyncError>)
    requires size > 0 && retries >= 1 && pages != [] && pages[0].StandsAt?
    requires Steady(pages, PagesToFetch(upstream, pages[0], size))
    requires Synced(decode, upstream, Attempts(upstream, pages, size, retries).0.outcome, before, true, after, err)
    ensures var StandsAt(version, checksum, generatedAt) := pages[0];
            match BuildSnapshot(decode, version, checksum, generatedAt, upstream.configs(version, checksum))
            case Ok(built) => after == built && err == None
            case Err(e) => after == before && err == Some(BuildFailed(e))
  {
    hide BuildSnapshot, PagesOf, Fetch, Attempts, PagesToFetch, Steady;
    FetchExactly(upstream, pages, size);
    AttemptsExhausted(upstream, pages, size, retries);
  }

  lemma BuildKeepsStamp(decode: Decoder, version: int, checksum: string, generatedAt: int,
                        configs: seq<PublishedConfig>)
    requires BuildSnapshot(decode, version, checksum, generatedAt, configs).Ok?
    ensures var built := BuildSnapshot(decode, version, checksum, generatedAt, configs).value;
            built.version == version && built.checksum == checksum && built.generatedAt == generatedAt
  {
    BuildFirstKeepsStamp(decode, version, checksum, generatedAt, configs, |configs|);
  }

  lemma {:induction false} BuildFirstKeepsStamp(decode: Decoder, version: int, checksum: string, generatedAt: int,
                                                configs: seq<PublishedConfig>, n: nat)
    requires n <= |configs| && BuildFirst(decode, version, checksum, generatedAt, configs, n).Ok?
    ensures var built := BuildFirst(decode, version, checksum, generatedAt, configs, n).value;
            built.version == version && built.checksum == checksum && built.generatedAt == generatedAt
  {
    hide AppWithConfig, Stored, AppFor;
    if n > 0 {
      BuildFirstKeepsStamp(decode, version, checksum, generatedAt, configs, n - 1);
    }
  }

  // ---------------------------------------------------------------- every step keeps the replica faithful

  /** The snapshot satisfies the index invariant and holds what the upstream publishes at its own version. */
  ghost predicate Faithful(decode: Decoder, upstream: Upstream, s: Snapshot) {
    WellFormed(decode, s) && ConfigsOf(s) == Truth(upstream, s.version, s.checksum)
  }

  lemma BuiltIsFaithful(decode: Decoder, upstream: Upstream, s: Snapshot)
    requires BuiltFrom(decode, upstream, s)
    ensures Faithful(decode, upstream, s)
  {
    hide WellFormed, ConfigsOf;
    var configs := upstream.configs(s.version, s.checksum);
    BuildPuts(decode, s.version, s.checksum, s.generatedAt, configs, |configs|);
  }

  lemma AdvanceIsFaithful(decode: Decoder, upstream: Upstream, before: Snapshot, after: Snapshot, d: Delta)
    requires Faithful(decode, upstream, before) && AdvancedBy(decode, upstream, before, after, d)
    ensures Faithful(decode, upstream, after) && after.version > before.version
  {
    hide WellFormed, ConfigsOf, ApplyChanges, TrimmedIds, Truth, MeantFirst;
    DeltaEdits(decode, before, d.toVersion, d.toChecksum, d.generatedAt, d.changes);
    MeantIsEdited(ConfigsOf(before), d.changes, |d.changes|);
  }

  lemma StepKeepsFaithful(decode: Decoder, upstream: Upstream, before: Snapshot, after: Snapshot)
    requires upstream.configs(0, "") == []
    requires Faithful(decode, upstream, before) && SyncStep(decode, upstream, before, after)
    ensures Faithful(decode, upstream, after)
  {
    hide BuiltFrom, AdvancedBy;
    if BuiltFrom(decode, upstream, after) {
      BuiltIsFaithful(decode, upstream, after);
    } else if d :| AdvancedBy(decode, upstream, before, after, d) {
      AdvanceIsFaithful(decode, upstream, before, after, d);
    }
  }

  lemma EmptyIsFaithful(decode: Decoder, upstream: Upstream, now: int)
    requires upstream.configs(0, "") == []
    ensures Faithful(decode, upstream, EmptySnapshot(now))
  {
    assert ConfigsOf(EmptySnapshot(now)) == map[];
  }

  /**
   A run of the replica: it starts empty, or from a cached snapshot that is faithful, and each snapshot
   comes from the one before by a step, whatever failed on the way.
   */
  ghost predicate Run(decode: Decoder, upstream: Upstream, states: seq<Snapshot>) {
    && states != []
    && (states[0] == EmptySnapshot(states[0].generatedAt) || Faithful(decode, upstream, states[0]))
    && forall i :: 0 <= i < |states| - 1 ==> SyncStep(decode, upstream, states[i], states[i + 1])
  }

  lemma {:induction false} RunStaysFaithful(decode: Decoder, upstream: Upstream, states: seq<Snapshot>, k: nat)
    requires Run(decode, upstream, states) && upstream.configs(0, "") == [] && k < |states|
    ensures Faithful(decode, upstream, states[k])
  {
    hide SyncStep;
    if k > 0 {
      hide Faithful;
      RunStaysFaithful(decode, upstream, states, k - 1);
      assert SyncStep(decode, upstream, states[k - 1], states[k - 1 + 1]);
      StepKeepsFaithful(decode, upstream, states[k - 1], states[k]);
    } else {
      EmptyIsFaithful(decode, upstream, states[0].generatedAt);
    }
  }

  /**
   After any run, the replica is what a full build of the upstream's own configs at the replica's
   version gives: same applications, same configs, same rules up to version stamps.  The build
   succeeds, in any order of those configs.
   */
  lemma ReplicaRefines(decode: Decoder, upstream: Upstream, states: seq<Snapshot>, k: nat,
                       configs: seq<PublishedConfig>)
    requires Run(decode, upstream, states) && upstream.configs(0, "") == [] && k < |states|
    requires Lists(configs, Truth(upstream, states[k].version, states[k].checksum))
    ensures var s := states[k];
            var r := BuildSnapshot(decode, s.version, s.checksum, s.generatedAt, configs);
            r.Ok? && SameIndex(r.value, s)
  {
    hide WellFormed, ConfigsOf, Lists, Truth, BuildSnapshot, SameIndex, Run;
    var s := states[k];
    RunStaysFaithful(decode, upstream, states, k);
    RebuildAgrees(decode, s, s.version, s.checksum, s.generatedAt, configs);
  }

  /** Published configs with distinct keys list their own config map. */
  lemma PublishedLists(configs: seq<PublishedConfig>)
    requires DistinctKeys(configs)
    ensures Lists(configs, PutFirst(configs, |configs|))
  {
    hide Stored, PutFirst, Has, At;
    var m := PutFirst(configs, |configs|);
    forall i | 0 <= i < |configs|
      ensures Has(m, Stored(configs[i]))
    {
      PutHas(configs, |configs|, i);
    }
    forall code, id | id in At(m, code)
      ensures exists i ::
        0 <= i < |configs| && Stored(configs[i]).applicationCode == code && Stored(configs[i]).configID == id
    {
      var i := PutSource(configs, |configs|, code, id);
    }
  }

  /** In particular the configs as published, if their keys are distinct. */
  lemma ReplicaRefinesUpstream(decode: Decoder, upstream: Upstream, states: seq<Snapshot>, k: nat)
    requires Run(decode, upstream, states) && upstream.configs(0, "") == [] && k < |states|
    requires DistinctKeys(upstream.configs(states[k].version, states[k].checksum))
    ensures var s := states[k];
            var r := BuildSnapshot(decode, s.version, s.checksum, s.generatedAt,
              upstream.configs(s.version, s.checksum));
            r.Ok? && SameIndex(r.value, s)
  {
    hide Lists, BuildSnapshot, SameIndex, Run, DistinctKeys, PutFirst;
    var configs := upstream.configs(states[k].version, states[k].checksum);
    PublishedLists(configs);
    ReplicaRefines(decode, upstream, states, k, configs);
  }
}
