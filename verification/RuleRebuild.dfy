/**
 When a full rebuild succeeds, and why a delta and a rebuild agree whatever order the configs
 arrive in.
 */
module RuleRebuild {
  import opened Common
  import opened Text
  import opened Rules
  import opened RuleIndex
  import opened Sample

  /** No two published configs share application code and config id. */
  ghost predicate DistinctKeys(configs: seq<PublishedConfig>) {
    forall i, j :: 0 <= i < j < |configs| ==> !SameKey(Stored(configs[i]), Stored(configs[j]))
  }

  ghost predicate SameKey(a: Config, b: Config) {
    a.applicationCode == b.applicationCode && a.configID == b.configID
  }

  ghost predicate Has(m: ConfigMap, c: Config) {
    c.configID in At(m, c.applicationCode) && At(m, c.applicationCode)[c.configID] == c
  }

  lemma {:induction false} PutSource(configs: seq<PublishedConfig>, n: nat, code: string, id: string) returns (i: nat)
    requires n <= |configs| && id in At(PutFirst(configs, n), code)
    ensures i < n && Stored(configs[i]).applicationCode == code && Stored(configs[i]).configID == id
    ensures At(PutFirst(configs, n), code)[id] == Stored(configs[i])
  {
    hide Stored;
    var c := Stored(configs[n - 1]);
    if c.applicationCode == code && c.configID == id {
      i := n - 1;
    } else {
      i := PutSource(configs, n - 1, code, id);
    }
  }

  lemma {:induction false} PutHas(configs: seq<PublishedConfig>, n: nat, i: nat)
    requires i < n <= |configs| && DistinctKeys(configs)
    ensures Has(PutFirst(configs, n), Stored(configs[i]))
  {
    hide Stored;
    if i < n - 1 {
      PutHas(configs, n - 1, i);
      assert !SameKey(Stored(configs[i]), Stored(configs[n - 1]));
    }
  }

  // ---------------------------------------------------------------- when a rebuild succeeds

  ghost predicate Publishable(decode: Decoder, c: Config) {
    c.applicationCode != "" && c.configID != "" && ParseRules(decode, c, 0).Ok?
  }

  /** Two configs of one application that both declare a rule id. */
  ghost predicate Collide(decode: Decoder, a: Config, b: Config) {
    a.applicationCode == b.applicationCode && exists id :: id in Own(decode, a) && id in Own(decode, b)
  }

  ghost predicate Compatible(decode: Decoder, configs: seq<PublishedConfig>, n: nat)
    requires n <= |configs|
  {
    && (forall i :: 0 <= i < n ==> Publishable(decode, Stored(configs[i])))
    && (forall i, j :: 0 <= i < j < n ==> !Collide(decode, Stored(configs[i]), Stored(configs[j])))
  }

  /** In a well-formed snapshot, distinct configs of one application share no rule id. */
  lemma WellFormedCompatible(decode: Decoder, s: Snapshot, a: Config, b: Config)
    requires WellFormed(decode, s) && Has(ConfigsOf(s), a) && Has(ConfigsOf(s), b) && !SameKey(a, b)
    ensures Publishable(decode, a) && !Collide(decode, a, b)
  {
    hide ParseRules, Own, Consistent;
    WellFormedPublishable(decode, s, a);
    if Collide(decode, a, b) {
      var id :| id in Own(decode, a) && id in Own(decode, b);
      OwnedRule(decode, a.applicationCode, s.apps[a.applicationCode], s.version, a.configID, id);
      OwnedRule(decode, b.applicationCode, s.apps[b.applicationCode], s.version, b.configID, id);
    }
  }

  lemma OwnedRule(decode: Decoder, code: string, app: Application, bound: int, configID: string, id: string)
    requires Consistent(decode, code, app, bound) && configID in app.configs && id in Own(decode, app.configs[configID])
    ensures id in app.rules && app.rules[id].configID == configID
  {
  }

  lemma WellFormedPublishable(decode: Decoder, s: Snapshot, a: Config)
    requires WellFormed(decode, s) && Has(ConfigsOf(s), a)
    ensures Publishable(decode, a)
  {
    hide ParseRules, Own;
  }

  lemma NextAdmissible(decode: Decoder, built: Snapshot, configs: seq<PublishedConfig>, n: nat)
    requires n < |configs| && Compatible(decode, configs, n + 1) && DistinctKeys(configs)
    requires WellFormed(decode, built) && ConfigsOf(built) == PutFirst(configs, n)
    ensures Admissible(decode, built, Stored(configs[n]))
  {
    hide ParseRules, Own, Stored;
    var c := Stored(configs[n]);
    if Clashes(decode, AppFor(built, c.applicationCode), c) {
      var app := AppFor(built, c.applicationCode);
      var id :| id in Own(decode, c) && id in app.rules && app.rules[id].configID != c.configID;
      var holder := app.rules[id].configID;
      assert holder in At(ConfigsOf(built), c.applicationCode);
      var i := PutSource(configs, n, c.applicationCode, holder);
      assert false;
    }
  }

  lemma FewerCompatible(decode: Decoder, configs: seq<PublishedConfig>, n: nat)
    requires 0 < n <= |configs| && Compatible(decode, configs, n)
    ensures Compatible(decode, configs, n - 1)
  {
  }

  lemma {:induction false} CompatibleBuilds(decode: Decoder, version: int, checksum: string, generatedAt: int,
                                            configs: seq<PublishedConfig>, n: nat)
    requires n <= |configs| && Compatible(decode, configs, n) && DistinctKeys(configs)
    ensures BuildFirst(decode, version, checksum, generatedAt, configs, n).Ok?
  {
    hide ApplyConfig, Publishable, Collide, DistinctKeys, Admissible, WellFormed, ConfigsOf, PutFirst, Stored,
      Compatible;
    if n > 0 {
      assert Compatible(decode, configs, n - 1) by { FewerCompatible(decode, configs, n); }
      CompatibleBuilds(decode, version, checksum, generatedAt, configs, n - 1);
      BuildPuts(decode, version, checksum, generatedAt, configs, n - 1);
      var built := BuildFirst(decode, version, checksum, generatedAt, configs, n - 1).value;
      NextAdmissible(decode, built, configs, n - 1);
      UpsertSnapshot(decode, built, configs[n - 1]);
    }
  }

  /**
   A full build of configs with distinct keys succeeds exactly when every one names its ids and
   parses and no two of one application declare the same rule: the order does not matter.
   */
  lemma BuildSucceedsExactly(decode: Decoder, version: int, checksum: string, generatedAt: int,
                             configs: seq<PublishedConfig>)
    requires DistinctKeys(configs)
    ensures BuildSnapshot(decode, version, checksum, generatedAt, configs).Ok? <==>
      Compatible(decode, configs, |configs|)
  {
    hide WellFormed, ConfigsOf, Publishable, Collide, Stored, BuildFirst, Has, SameKey;
    if Compatible(decode, configs, |configs|) {
      CompatibleBuilds(decode, version, checksum, generatedAt, configs, |configs|);
    } else if BuildSnapshot(decode, version, checksum, generatedAt, configs).Ok? {
      var built := BuildSnapshot(decode, version, checksum, generatedAt, configs).value;
      BuildPuts(decode, version, checksum, generatedAt, configs, |configs|);
      forall i | 0 <= i < |configs|
        ensures Publishable(decode, Stored(configs[i]))
      {
        PutHas(configs, |configs|, i);
        WellFormedPublishable(decode, built, Stored(configs[i]));
      }
      forall i, j | 0 <= i < j < |configs|
        ensures !Collide(decode, Stored(configs[i]), Stored(configs[j]))
      {
        PutHas(configs, |configs|, i);
        PutHas(configs, |configs|, j);
        WellFormedCompatible(decode, built, Stored(configs[i]), Stored(configs[j]));
      }
    }
  }

  // ---------------------------------------------------------------- delta and rebuild agree

  /** The published configs are those of `m`, each once, in any order. */
  ghost predicate Lists(configs: seq<PublishedConfig>, m: ConfigMap) {
    && DistinctKeys(configs)
    && (forall i :: 0 <= i < |configs| ==> Has(m, Stored(configs[i])))
    && (forall code, id :: id in At(m, code) ==>
          exists i :: 0 <= i < |configs| && Stored(configs[i]).applicationCode == code &&
            Stored(configs[i]).configID == id)
  }

  lemma {:induction false} PutNoEmpty(configs: seq<PublishedConfig>, n: nat)
    requires n <= |configs|
    ensures forall code :: code in PutFirst(configs, n) ==> PutFirst(configs, n)[code] != map[]
  {
    hide Stored;
    if n > 0 {
      PutNoEmpty(configs, n - 1);
      var c := Stored(configs[n - 1]);
      assert c.configID in PutFirst(configs, n)[c.applicationCode];
    }
  }

  lemma ListedMapIsPut(configs: seq<PublishedConfig>, m: ConfigMap)
    requires Lists(configs, m) && forall code :: code in m ==> m[code] != map[]
    ensures PutFirst(configs, |configs|) == m
  {
    hide Stored, PutFirst;
    var put := PutFirst(configs, |configs|);
    PutNoEmpty(configs, |configs|);
    forall code
      ensures At(put, code) == At(m, code)
    {
      ListedAt(configs, m, code);
    }
    forall code
      ensures code in put <==> code in m
    {
      assert At(put, code) == At(m, code);
    }
    assert forall code :: code in m ==> At(put, code) == At(m, code);
  }

  lemma ListedAt(configs: seq<PublishedConfig>, m: ConfigMap, code: string)
    requires Lists(configs, m)
    ensures At(PutFirst(configs, |configs|), code) == At(m, code)
  {
    hide Stored, PutFirst;
    var put := At(PutFirst(configs, |configs|), code);
    forall id | id in put
      ensures id in At(m, code) && put[id] == At(m, code)[id]
    {
      var i := PutSource(configs, |configs|, code, id);
      assert Has(m, Stored(configs[i]));
    }
    forall id | id in At(m, code)
      ensures id in put
    {
      var i :| 0 <= i < |configs| && Stored(configs[i]).applicationCode == code && Stored(configs[i]).configID == id;
      PutHas(configs, |configs|, i);
    }
  }

  lemma ListedCompatible(decode: Decoder, s: Snapshot, configs: seq<PublishedConfig>)
    requires WellFormed(decode, s) && Lists(configs, ConfigsOf(s))
    ensures Compatible(decode, configs, |configs|)
  {
    hide WellFormed, ConfigsOf, Stored, Publishable, Collide, Has, SameKey;
    forall i | 0 <= i < |configs|
      ensures Publishable(decode, Stored(configs[i]))
    {
      WellFormedPublishable(decode, s, Stored(configs[i]));
    }
    forall i, j | 0 <= i < j < |configs|
      ensures !Collide(decode, Stored(configs[i]), Stored(configs[j]))
    {
      WellFormedCompatible(decode, s, Stored(configs[i]), Stored(configs[j]));
    }
  }

  /** Rebuilding the configs of a well-formed snapshot, in any order and at any version, gives its index back. */
  lemma RebuildAgrees(decode: Decoder, s: Snapshot, version: int, checksum: string, generatedAt: int,
                      configs: seq<PublishedConfig>)
    requires WellFormed(decode, s) && Lists(configs, ConfigsOf(s))
    ensures var r := BuildSnapshot(decode, version, checksum, generatedAt, configs);
            r.Ok? && SameIndex(r.value, s)
  {
    hide BuildFirst, Compatible, SameIndex, Lists;
    ListedCompatible(decode, s, configs);
    assert DistinctKeys(configs) by { ListsDistinct(configs, ConfigsOf(s)); }
    BuildSucceedsExactly(decode, version, checksum, generatedAt, configs);
    BuildPuts(decode, version, checksum, generatedAt, configs, |configs|);
    assert forall code :: code in ConfigsOf(s) ==> ConfigsOf(s)[code] != map[];
    ListedMapIsPut(configs, ConfigsOf(s));
    IndexFromConfigs(decode, BuildSnapshot(decode, version, checksum, generatedAt, configs).value, s);
  }

  lemma ListsDistinct(configs: seq<PublishedConfig>, m: ConfigMap)
    requires Lists(configs, m)
    ensures DistinctKeys(configs)
  {
  }

  /**
   Whenever a delta succeeds on a well-formed snapshot, its config map is the old one edited as the
   changes say, and a full build of those configs, in any order, succeeds with the same index.
   */
  lemma DeltaAgreesWithRebuild(decode: Decoder, current: Snapshot, version: int, checksum: string, generatedAt: int,
                               changes: seq<PublishedChange>, configs: seq<PublishedConfig>)
    requires WellFormed(decode, current)
    requires ApplyChanges(decode, current, version, checksum, generatedAt, changes).Ok?
    requires Lists(configs, EditFirst(ConfigsOf(current), changes, |changes|))
    ensures var next := ApplyChanges(decode, current, version, checksum, generatedAt, changes).value;
            var r := BuildSnapshot(decode, version, checksum, generatedAt, configs);
            && WellFormed(decode, next) && r.Ok? && SameIndex(r.value, next)
  {
    hide *;
    DeltaEdits(decode, current, version, checksum, generatedAt, changes);
    RebuildAgrees(decode, ApplyChanges(decode, current, version, checksum, generatedAt, changes).value,
                  version, checksum, generatedAt, configs);
  }

  // ---------------------------------------------------------------- deletes with untrimmed ids

  /**
   A delete change that passes its checks looks up the trimmed ids but deletes under the raw ones:
   the config it names is gone afterwards exactly if it was not there or the ids carry no white space.
   */
  lemma DeleteRemovesExactly(decode: Decoder, s: Snapshot, fromVersion: int, change: PublishedChange)
    requires WellFormed(decode, s) && IsDelete(change.operation) && ApplyChange(decode, s, fromVersion, change).Ok?
    ensures var code, id := Trim(change.applicationCode), Trim(change.configID);
            var next := ApplyChange(decode, s, fromVersion, change).value;
            id !in At(ConfigsOf(next), code) <==>
              (id !in At(ConfigsOf(s), code) || (change.applicationCode == code && change.configID == id))
  {
    hide WellFormed, DeleteConfig, ConfigsOf, Trim, Upper;
    DeleteSnapshot(decode, s, change.applicationCode, change.configID);
  }

  /** A delete with white space around the application code is accepted, checksum and all, and removes nothing. */
  lemma DeleteMisses()
    ensures var s := SnapshotSample(1, "k");
            var change := PublishedChange("DELETE", 1, 2, " a", "c", "k", "", None);
            && WellFormed(Decode(), s)
            && ApplyChanges(Decode(), s, 2, "t", 0, [change]) == Ok(Snapshot(2, "t", 0, s.apps))
            && "c" in At(ConfigsOf(Snapshot(2, "t", 0, s.apps)), "a")
  {
    SampleIsBuilt(1, "k");
    hide WellFormed, ApplyChange, Decode;
    DeleteIgnored();
    var s := Snapshot(2, "t", 0, SnapshotSample(1, "k").apps);
    assert ApplyFirst(Decode(), s, 1, [PublishedChange("DELETE", 1, 2, " a", "c", "k", "", None)], 0) == Ok(s);
    assert Trim("t") == "t";
  }

  lemma DeleteIgnored()
    ensures var s := Snapshot(2, "t", 0, SnapshotSample(1, "k").apps);
            ApplyChange(Decode(), s, 1, PublishedChange("DELETE", 1, 2, " a", "c", "k", "", None)) == Ok(s)
  {
    hide ApplyConfig, Decode;
    UpperOfCapitals("DELETE");
    assert Trim("DELETE") == "DELETE" && Trim(" a") == "a" && Trim("c") == "c" && Trim("k") == "k";
  }
}
