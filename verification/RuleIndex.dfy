/**
 The rule index is a function of the configs: the invariant every edit keeps, and the agreement
 of an incremental delta with a full rebuild.
 */
module RuleIndex {
  import opened Text
  import opened Rules

  // ---------------------------------------------------------------- the rules a config owns

  function Unstamped(r: Rule): Rule {
    r.(snapshotVersion := 0)
  }

  /** The first `n` rules by id; the last one with an id wins. */
  function Overlay(parsed: seq<Rule>, n: nat): map<string, Rule>
    requires n <= |parsed|
  {
    if n == 0 then map[] else Overlay(parsed, n - 1)[parsed[n - 1].ruleID := parsed[n - 1]]
  }

  lemma {:induction false} OverlaySource(parsed: seq<Rule>, n: nat, id: string) returns (i: nat)
    requires n <= |parsed| && id in Overlay(parsed, n)
    ensures i < n && parsed[i].ruleID == id && Overlay(parsed, n)[id] == parsed[i]
  {
    if parsed[n - 1].ruleID == id {
      i := n - 1;
    } else {
      i := OverlaySource(parsed, n - 1, id);
    }
  }

  lemma {:induction false} OverlayHas(parsed: seq<Rule>, n: nat, i: nat)
    requires i < n <= |parsed|
    ensures parsed[i].ruleID in Overlay(parsed, n)
  {
    if i < n - 1 {
      OverlayHas(parsed, n - 1, i);
    }
  }

  /** What a config contributes to the index, without version stamps. */
  function Own(decode: Decoder, c: Config): map<string, Rule> {
    match ParseRules(decode, c, 0)
    case Err(_) => map[]
    case Ok(parsed) => Overlay(parsed, |parsed|)
  }

  lemma OwnFacts(decode: Decoder, c: Config, id: string)
    requires id in Own(decode, c)
    ensures var rule := Own(decode, c)[id];
            && rule.ruleID == id != "" && Trim(id) == id && rule.applicationCode == c.applicationCode &&
              rule.configID == c.configID
            && rule.checksum == c.contentChecksum && rule.quota > 0 && rule.windowSeconds > 0
  {
    var parsed := ParseRules(decode, c, 0).value;
    var _ := OverlaySource(parsed, |parsed|, id);
  }

  lemma OwnNonEmpty(decode: Decoder, c: Config) returns (id: string)
    requires ParseRules(decode, c, 0).Ok?
    ensures id in Own(decode, c)
  {
    var parsed := ParseRules(decode, c, 0).value;
    OverlayHas(parsed, |parsed|, 0);
    id := parsed[0].ruleID;
  }

  lemma RuleFromStamp(c: Config, doc: Document, version: int, index: nat)
    requires index < |doc.items|
    ensures var r, r0 := RuleFrom(c, doc, version, index), RuleFrom(c, doc, 0, index);
            r.Ok? == r0.Ok? && (r.Ok? ==> Unstamped(r.value) == r0.value)
  {
    hide Trim, Choose;
  }

  /** The version stamp is the only trace a snapshot version leaves in parsed rules. */
  lemma {:induction false} RulesFromStamp(c: Config, doc: Document, version: int, n: nat)
    requires n <= |doc.items|
    ensures var r, r0 := RulesFrom(c, doc, version, n), RulesFrom(c, doc, 0, n);
            && r.Ok? == r0.Ok?
            && (r.Ok? ==> forall i :: 0 <= i < n ==> Unstamped(r.value[i]) == r0.value[i])
  {
    hide RuleFrom, Unstamped, Trim;
    if n > 0 {
      RuleFromStamp(c, doc, version, n - 1);
      RulesFromStamp(c, doc, version, n - 1);
    }
  }

  lemma ParseStamp(decode: Decoder, c: Config, version: int)
    ensures var r, r0 := ParseRules(decode, c, version), ParseRules(decode, c, 0);
            && r.Ok? == r0.Ok?
            && (r.Ok? ==> |r.value| == |r0.value|)
            && (r.Ok? ==> forall i :: 0 <= i < |r.value| ==>
                  && Unstamped(r.value[i]) == r0.value[i] && r.value[i].configID == c.configID
                  && r.value[i].snapshotVersion == version)
  {
    if decode(c.content).Some? {
      RulesFromStamp(c, decode(c.content).value, version, |decode(c.content).value.items|);
    }
  }

  lemma {:induction false} OverlayStamp(parsed: seq<Rule>, parsed0: seq<Rule>, n: nat)
    requires n <= |parsed| == |parsed0|
    requires forall i :: 0 <= i < |parsed| ==> Unstamped(parsed[i]) == parsed0[i]
    ensures Overlay(parsed, n).Keys == Overlay(parsed0, n).Keys
    ensures forall id :: id in Overlay(parsed, n) ==> Unstamped(Overlay(parsed, n)[id]) == Overlay(parsed0, n)[id]
  {
    if n > 0 {
      OverlayStamp(parsed, parsed0, n - 1);
      assert parsed[n - 1].ruleID == Unstamped(parsed[n - 1]).ruleID;
    }
  }

  /** Indexing a config's rules succeeds exactly when no other config holds one of their ids. */
  lemma {:induction false} IndexedMerges(rules: map<string, Rule>, parsed: seq<Rule>, n: nat, configID: string)
    requires n <= |parsed|
    requires forall id :: id in rules ==> rules[id].configID != configID
    requires forall i :: 0 <= i < |parsed| ==> parsed[i].configID == configID
    ensures Indexed(rules, parsed, n, configID).Ok? <==> forall i :: 0 <= i < n ==> parsed[i].ruleID !in rules
    ensures Indexed(rules, parsed, n, configID).Ok? ==>
              Indexed(rules, parsed, n, configID).value == rules + Overlay(parsed, n)
  {
    if n > 0 {
      IndexedMerges(rules, parsed, n - 1, configID);
      var id := parsed[n - 1].ruleID;
      if Indexed(rules, parsed, n - 1, configID).Ok? && id in Overlay(parsed, n - 1) {
        var _ := OverlaySource(parsed, n - 1, id);
      }
    }
  }

  // ---------------------------------------------------------------- the invariant

  /** A stored config: trimmed ids, normalised content and checksum, and rules that parse. */
  ghost predicate GoodConfig(decode: Decoder, code: string, id: string, c: Config) {
    && id != "" && Trim(id) == id && c.configID == id && c.applicationCode == code
    && NormalContent(c.content) == c.content
    && Choose(c.contentChecksum, c.aggregateChecksum) == c.contentChecksum
    && ParseRules(decode, c, 0).Ok?
  }

  /** Each rule of the index is owned by exactly one config, and every owned rule is indexed. */
  ghost predicate Consistent(decode: Decoder, code: string, app: Application, bound: int) {
    && app.code == code != "" && Trim(code) == code
    && app.version <= bound
    && (forall id :: id in app.configs ==> GoodConfig(decode, code, id, app.configs[id]))
    && (forall id, rule :: id in app.configs && rule in Own(decode, app.configs[id]) ==>
          rule in app.rules && app.rules[rule].configID == id)
    && (forall rule :: rule in app.rules ==>
          && app.rules[rule].configID in app.configs
          && rule in Own(decode, app.configs[app.rules[rule].configID])
          && Unstamped(app.rules[rule]) == Own(decode, app.configs[app.rules[rule].configID])[rule]
          && app.rules[rule].snapshotVersion <= app.version)
  }

  ghost predicate WellFormed(decode: Decoder, s: Snapshot) {
    forall code :: code in s.apps ==>
      Consistent(decode, code, s.apps[code], s.version) && s.apps[code].configs != map[]
  }

  ghost predicate HasRule(app: Application, configID: string) {
    exists id :: id in app.rules && app.rules[id].configID == configID
  }

  /** What the invariant says about any one application of a snapshot. */
  lemma IndexInvariant(decode: Decoder, s: Snapshot, code: string)
    requires WellFormed(decode, s) && code in s.apps
    ensures var app := s.apps[code];
            && app.configs != map[] && app.rules != map[] && app.code == code && Trim(code) == code &&
              app.version <= s.version
            && (forall id :: id in app.configs ==> HasRule(app, id))
            && (forall id :: id in app.rules ==> RuleInPlace(app, id))
  {
    hide Consistent, RuleInPlace, HasRule;
    var app := s.apps[code];
    forall id | id in app.configs
      ensures HasRule(app, id)
    {
      ConsistentConfig(decode, code, app, s.version, id);
    }
    var some :| some in app.configs;
    ConsistentConfig(decode, code, app, s.version, some);
    forall id | id in app.rules
      ensures RuleInPlace(app, id)
    {
      ConsistentRule(decode, code, app, s.version, id);
    }
  }

  lemma ConsistentConfig(decode: Decoder, code: string, app: Application, bound: int, id: string)
    requires Consistent(decode, code, app, bound) && id in app.configs
    ensures HasRule(app, id) && app.rules != map[] && app.code == code && Trim(code) == code && app.version <= bound
  {
    hide Own, ParseRules;
    var rule := OwnNonEmpty(decode, app.configs[id]);
    assert rule in app.rules;
  }

  lemma ConsistentRule(decode: Decoder, code: string, app: Application, bound: int, id: string)
    requires Consistent(decode, code, app, bound) && id in app.rules
    ensures RuleInPlace(app, id)
  {
    hide Own, ParseRules;
    var rule := app.rules[id];
    OwnFacts(decode, app.configs[rule.configID], id);
    assert Unstamped(rule) == Own(decode, app.configs[rule.configID])[id];
    assert GoodConfig(decode, code, rule.configID, app.configs[rule.configID]);
  }

  /** A rule sits under its own id, belongs to a config of its application, and carries that config's checksum. */
  ghost predicate RuleInPlace(app: Application, id: string)
    requires id in app.rules
  {
    var rule := app.rules[id];
    && rule.ruleID == id != "" && Trim(id) == id && rule.applicationCode == app.code && rule.configID in app.configs
    && rule.checksum == app.configs[rule.configID].contentChecksum
    && rule.quota > 0 && rule.windowSeconds > 0
    && rule.snapshotVersion <= app.version
  }

  // ---------------------------------------------------------------- one upsert, one delete

  /** A rule id of the config is held by another config of the application. */
  ghost predicate Clashes(decode: Decoder, app: Application, c: Config) {
    exists rule :: rule in Own(decode, c) && rule in app.rules && app.rules[rule].configID != c.configID
  }

  /** An upsert succeeds exactly on content that parses and does not clash, and keeps the invariant. */
  lemma UpsertApp(decode: Decoder, code: string, app: Application, c: Config)
    requires Consistent(decode, code, app, app.version)
    requires c.configID != "" && Trim(c.configID) == c.configID && c.applicationCode == code
    requires NormalContent(c.content) == c.content &&
      Choose(c.contentChecksum, c.aggregateChecksum) == c.contentChecksum
    ensures var r := AppWithConfig(decode, app, c);
            && (r.Ok? <==> ParseRules(decode, c, 0).Ok? && !Clashes(decode, app, c))
            && (r.Ok? ==> Consistent(decode, code, r.value, app.version))
            && (r.Ok? ==> r.value.configs == app.configs[c.configID := c])
  {
    hide Trim, NormalContent, Choose, RulesFrom, Unstamped;
    ParseStamp(decode, c, app.version);
    if ParseRules(decode, c, 0).Ok? {
      var parsed, parsed0 := ParseRules(decode, c, app.version).value, ParseRules(decode, c, 0).value;
      var kept := WithoutConfig(app.rules, c.configID);
      IndexedMerges(kept, parsed, |parsed|, c.configID);
      OverlayStamp(parsed, parsed0, |parsed|);
      UpsertClash(decode, app, c, parsed);
      if !Clashes(decode, app, c) {
        forall id | id in Overlay(parsed, |parsed|)
          ensures Overlay(parsed, |parsed|)[id] in parsed
        {
          var _ := OverlaySource(parsed, |parsed|, id);
        }
        UpsertConsistent(decode, code, app, c, Overlay(parsed, |parsed|));
      }
    }
  }

  lemma UpsertClash(decode: Decoder, app: Application, c: Config, parsed: seq<Rule>)
    requires Own(decode, c).Keys == Overlay(parsed, |parsed|).Keys
    ensures Clashes(decode, app, c) <==>
      exists i :: 0 <= i < |parsed| && parsed[i].ruleID in WithoutConfig(app.rules, c.configID)
  {
    hide Own;
    if i :| 0 <= i < |parsed| && parsed[i].ruleID in WithoutConfig(app.rules, c.configID) {
      OverlayHas(parsed, |parsed|, i);
      assert parsed[i].ruleID in Own(decode, c);
    }
    if Clashes(decode, app, c) {
      var rule :| rule in Own(decode, c) && rule in app.rules && app.rules[rule].configID != c.configID;
      var i := OverlaySource(parsed, |parsed|, rule);
      assert parsed[i].ruleID in WithoutConfig(app.rules, c.configID);
    }
  }

  function AppWithRules(app: Application, c: Config, mine: map<string, Rule>): Application {
    app.(configs := app.configs[c.configID := c], rules := WithoutConfig(app.rules, c.configID) + mine)
  }

  lemma UpsertOwned(decode: Decoder, code: string, app: Application, c: Config, mine: map<string, Rule>, id: string,
                    rule: string)
    requires Consistent(decode, code, app, app.version) && !Clashes(decode, app, c)
    requires mine.Keys == Own(decode, c).Keys && forall r :: r in mine ==> mine[r].configID == c.configID
    requires var next := AppWithRules(app, c, mine); id in next.configs && rule in Own(decode, next.configs[id])
    ensures var next := AppWithRules(app, c, mine); rule in next.rules && next.rules[rule].configID == id
  {
    hide Own, GoodConfig, Unstamped;
    if id != c.configID {
      assert rule in app.rules && app.rules[rule].configID == id;
      assert rule !in Own(decode, c);
    }
  }

  lemma UpsertRule(decode: Decoder, code: string, app: Application, c: Config, mine: map<string, Rule>, rule: string)
    requires Consistent(decode, code, app, app.version)
    requires mine.Keys == Own(decode, c).Keys
    requires forall id :: id in mine ==>
      mine[id].configID == c.configID && mine[id].snapshotVersion == app.version &&
        Unstamped(mine[id]) == Own(decode, c)[id]
    requires rule in AppWithRules(app, c, mine).rules
    ensures var next := AppWithRules(app, c, mine);
            && next.rules[rule].configID in next.configs
            && rule in Own(decode, next.configs[next.rules[rule].configID])
            && Unstamped(next.rules[rule]) == Own(decode, next.configs[next.rules[rule].configID])[rule]
            && next.rules[rule].snapshotVersion <= next.version
  {
    hide Own, GoodConfig, Unstamped;
  }

  lemma UpsertConsistent(decode: Decoder, code: string, app: Application, c: Config, mine: map<string, Rule>)
    requires Consistent(decode, code, app, app.version) && GoodConfig(decode, code, c.configID, c)
    requires !Clashes(decode, app, c)
    requires mine.Keys == Own(decode, c).Keys
    requires forall id :: id in mine ==>
      mine[id].configID == c.configID && mine[id].snapshotVersion == app.version &&
        Unstamped(mine[id]) == Own(decode, c)[id]
    ensures Consistent(decode, code, AppWithRules(app, c, mine), app.version)
  {
    hide Own, GoodConfig, Unstamped, Clashes, WithoutConfig;
    var next := AppWithRules(app, c, mine);
    forall id, rule | id in next.configs && rule in Own(decode, next.configs[id])
      ensures rule in next.rules && next.rules[rule].configID == id
    {
      UpsertOwned(decode, code, app, c, mine, id, rule);
    }
    forall rule | rule in next.rules
      ensures && next.rules[rule].configID in next.configs
              && rule in Own(decode, next.configs[next.rules[rule].configID])
              && Unstamped(next.rules[rule]) == Own(decode, next.configs[next.rules[rule].configID])[rule]
              && next.rules[rule].snapshotVersion <= next.version
    {
      UpsertRule(decode, code, app, c, mine, rule);
    }
  }

  /** Removing a config with its rules keeps the invariant. */
  lemma DeleteConsistent(decode: Decoder, code: string, app: Application, version: int, checksum: string, id: string)
    requires Consistent(decode, code, app, version)
    ensures Consistent(decode, code,
              Application(app.code, version, checksum, app.configs - {id}, WithoutConfig(app.rules, id)), version)
    ensures app.configs - {id} == map[] ==> WithoutConfig(app.rules, id) == map[]
  {
    hide Own, GoodConfig, Unstamped;
  }

  // ---------------------------------------------------------------- edits of the config map

  /** Configs by application code and config id; no application is listed without configs. */
  type ConfigMap = map<string, map<string, Config>>

  function ConfigsOf(s: Snapshot): ConfigMap {
    map code | code in s.apps :: s.apps[code].configs
  }

  function At(m: ConfigMap, code: string): map<string, Config> {
    if code in m then m[code] else map[]
  }

  function Put(m: ConfigMap, c: Config): ConfigMap {
    m[c.applicationCode := At(m, c.applicationCode)[c.configID := c]]
  }

  function Drop(m: ConfigMap, code: string, id: string): ConfigMap {
    if At(m, code) - {id} == map[] then m - {code} else m[code := At(m, code) - {id}]
  }

  /** The shape of every stored config: publishing normalises ids, content and checksum. */
  ghost predicate Normal(c: Config) {
    && Trim(c.applicationCode) == c.applicationCode && Trim(c.configID) == c.configID
    && NormalContent(c.content) == c.content
    && Choose(c.contentChecksum, c.aggregateChecksum) == c.contentChecksum
  }

  lemma StoredIsNormal(p: PublishedConfig)
    ensures Normal(Stored(p))
  {
    TrimTrims(p.applicationCode);
    TrimTrims(p.configID);
    TrimTrims(p.content);
    TrimTrims(p.contentChecksum);
    TrimTrims(p.aggregateChecksum);
  }

  /** A config goes in exactly if its ids are given, it parses, and no rule id clashes. */
  ghost predicate Admissible(decode: Decoder, s: Snapshot, c: Config) {
    && c.applicationCode != "" && c.configID != ""
    && ParseRules(decode, c, 0).Ok?
    && !Clashes(decode, AppFor(s, c.applicationCode), c)
  }

  lemma UpsertStored(decode: Decoder, s: Snapshot, c: Config)
    requires WellFormed(decode, s) && Normal(c)
    ensures var r := ApplyStored(decode, s, c);
            && (r.Ok? <==> Admissible(decode, s, c))
            && (r.Ok? ==> WellFormed(decode, r.value) && r.value.version == s.version && r.value.checksum == s.checksum)
            && (r.Ok? ==> ConfigsOf(r.value) == Put(ConfigsOf(s), c))
  {
    hide Consistent, AppWithConfig, ParseRules, Clashes, Trim, NormalContent, Choose;
    if c.applicationCode != "" && c.configID != "" {
      var app := AppFor(s, c.applicationCode);
      AppForConsistent(decode, s, c.applicationCode);
      UpsertApp(decode, c.applicationCode, app, c);
      var r := AppWithConfig(decode, app, c);
      if r.Ok? {
        assert c.configID in r.value.configs;
        AppForConfigs(decode, s, c.applicationCode);
      }
    }
  }

  /** Publishing succeeds exactly on an admissible config, keeps the invariant, and puts the config. */
  lemma UpsertSnapshot(decode: Decoder, s: Snapshot, p: PublishedConfig)
    requires WellFormed(decode, s)
    ensures var r := ApplyConfig(decode, s, p);
            && (r.Ok? <==> Admissible(decode, s, Stored(p)))
            && (r.Ok? ==> WellFormed(decode, r.value) && r.value.version == s.version && r.value.checksum == s.checksum)
            && (r.Ok? ==> ConfigsOf(r.value) == Put(ConfigsOf(s), Stored(p)))
  {
    hide WellFormed, ApplyStored, Stored, Normal, Admissible, ConfigsOf, Put;
    StoredIsNormal(p);
    UpsertStored(decode, s, Stored(p));
  }

  lemma AppForConfigs(decode: Decoder, s: Snapshot, code: string)
    requires WellFormed(decode, s)
    ensures AppFor(s, code).configs == At(ConfigsOf(s), code)
  {
    hide Own, GoodConfig, Unstamped;
  }

  lemma AppForConsistent(decode: Decoder, s: Snapshot, code: string)
    requires WellFormed(decode, s) && code != "" && Trim(code) == code
    ensures Consistent(decode, code, AppFor(s, code), s.version)
  {
    hide Own, GoodConfig, Unstamped, Trim;
    if code in s.apps {
      assert Consistent(decode, code, s.apps[code], s.version);
      RaisedConsistent(decode, code, s.apps[code], s.version, s.checksum);
    }
  }

  lemma RaisedConsistent(decode: Decoder, code: string, app: Application, version: int, checksum: string)
    requires Consistent(decode, code, app, version)
    ensures Consistent(decode, code, app.(version := version, checksum := checksum), version) && app.code != ""
  {
    hide Own, GoodConfig, Unstamped, Trim;
  }

  // ---------------------------------------------------------------- whole deltas and rebuilds

  /** What one change of a delta does to the config map: its operation is one of eight words, in any case. */
  function Edit(m: ConfigMap, change: PublishedChange): ConfigMap {
    var word := Upper(Trim(change.operation));
    if word == "DELETE" || word == "REMOVE" || word == "DELETED" then Drop(m, change.applicationCode, change.configID)
    else if word in {"UPSERT", "UPDATE", "UPDATED", "CREATE", "CREATED"} && change.config.Some?
    then Put(m, Stored(change.config.value))
    else m
  }

  function EditFirst(m: ConfigMap, changes: seq<PublishedChange>, n: nat): ConfigMap
    requires n <= |changes|
  {
    if n == 0 then m else Edit(EditFirst(m, changes, n - 1), changes[n - 1])
  }

  /** The config map that publishing `n` configs in order yields. */
  function PutFirst(configs: seq<PublishedConfig>, n: nat): ConfigMap
    requires n <= |configs|
  {
    if n == 0 then map[] else Put(PutFirst(configs, n - 1), Stored(configs[n - 1]))
  }

  lemma DeleteSnapshot(decode: Decoder, s: Snapshot, code: string, id: string)
    requires WellFormed(decode, s)
    ensures var next := DeleteConfig(s, code, id);
            && WellFormed(decode, next) && next.version == s.version && next.checksum == s.checksum
            && ConfigsOf(next) == Drop(ConfigsOf(s), code, id)
  {
    hide Consistent, WithoutConfig;
    if code in s.apps {
      DeleteConsistent(decode, code, s.apps[code], s.version, s.checksum, id);
      ConsistentCode(decode, code, s.apps[code], s.version);
    }
  }

  lemma ConsistentCode(decode: Decoder, code: string, app: Application, bound: int)
    requires Consistent(decode, code, app, bound)
    ensures app.code == code
  {
  }

  /** A change that succeeds keeps the invariant and edits the config map as the change says. */
  lemma ChangeEdits(decode: Decoder, s: Snapshot, fromVersion: int, change: PublishedChange)
    requires WellFormed(decode, s) && ApplyChange(decode, s, fromVersion, change).Ok?
    ensures var next := ApplyChange(decode, s, fromVersion, change).value;
            && WellFormed(decode, next) && next.version == s.version && next.checksum == s.checksum
            && ConfigsOf(next) == Edit(ConfigsOf(s), change)
  {
    hide WellFormed, ApplyConfig, DeleteConfig, ConfigsOf, Stored, Trim, Upper;
    if IsDelete(change.operation) {
      DeleteSnapshot(decode, s, change.applicationCode, change.configID);
    } else {
      UpsertSnapshot(decode, s, change.config.value);
    }
  }

  lemma {:induction false} ChangesEdit(decode: Decoder, s: Snapshot, fromVersion: int, changes: seq<PublishedChange>,
                                       n: nat)
    requires n <= |changes| && WellFormed(decode, s) && ApplyFirst(decode, s, fromVersion, changes, n).Ok?
    ensures var next := ApplyFirst(decode, s, fromVersion, changes, n).value;
            && WellFormed(decode, next) && next.version == s.version && next.checksum == s.checksum
            && ConfigsOf(next) == EditFirst(ConfigsOf(s), changes, n)
  {
    hide WellFormed, ApplyChange, ConfigsOf, Edit;
    if n > 0 {
      ChangesEdit(decode, s, fromVersion, changes, n - 1);
      ChangeEdits(decode, ApplyFirst(decode, s, fromVersion, changes, n - 1).value, fromVersion, changes[n - 1]);
    }
  }

  /** Raising the snapshot version keeps the invariant. */
  lemma RestampKeeps(decode: Decoder, s: Snapshot, version: int, checksum: string, generatedAt: int)
    requires WellFormed(decode, s) && version >= s.version
    ensures WellFormed(decode, Snapshot(version, checksum, generatedAt, s.apps))
    ensures ConfigsOf(Snapshot(version, checksum, generatedAt, s.apps)) == ConfigsOf(s)
  {
    hide Own, GoodConfig, Unstamped;
  }

  /** A delta that succeeds keeps the invariant and edits the config map as its changes say. */
  lemma DeltaEdits(decode: Decoder, current: Snapshot, version: int, checksum: string, generatedAt: int,
                   changes: seq<PublishedChange>)
    requires WellFormed(decode, current) && ApplyChanges(decode, current, version, checksum, generatedAt, changes).Ok?
    ensures var next := ApplyChanges(decode, current, version, checksum, generatedAt, changes).value;
            && WellFormed(decode, next) && next.version == version > current.version && next.checksum == checksum
            && ConfigsOf(next) == EditFirst(ConfigsOf(current), changes, |changes|)
  {
    hide WellFormed, ApplyFirst, ConfigsOf;
    RestampKeeps(decode, current, version, checksum, generatedAt);
    ChangesEdit(decode, Snapshot(version, checksum, generatedAt, current.apps), current.version, changes, |changes|);
  }

  /** A full build that succeeds satisfies the invariant and holds the published configs. */
  lemma {:induction false} BuildPuts(decode: Decoder, version: int, checksum: string, generatedAt: int,
                                     configs: seq<PublishedConfig>, n: nat)
    requires n <= |configs| && BuildFirst(decode, version, checksum, generatedAt, configs, n).Ok?
    ensures var built := BuildFirst(decode, version, checksum, generatedAt, configs, n).value;
            && WellFormed(decode, built) && built.version == version && built.checksum == checksum
            && ConfigsOf(built) == PutFirst(configs, n)
  {
    hide ApplyConfig, Stored, Consistent;
    if n > 0 {
      BuildPuts(decode, version, checksum, generatedAt, configs, n - 1);
      UpsertSnapshot(decode, BuildFirst(decode, version, checksum, generatedAt, configs, n - 1).value, configs[n - 1]);
    }
  }

  // ---------------------------------------------------------------- the index is a function of the configs

  /** Two snapshots with the same configs and, up to version stamps, the same rules. */
  ghost predicate SameIndex(s: Snapshot, t: Snapshot) {
    && s.apps.Keys == t.apps.Keys
    && forall code :: code in s.apps ==> SameApp(s.apps[code], t.apps[code])
  }

  ghost predicate SameApp(a: Application, b: Application) {
    && a.code == b.code && a.configs == b.configs && a.rules.Keys == b.rules.Keys
    && forall id :: id in a.rules ==> Unstamped(a.rules[id]) == Unstamped(b.rules[id])
  }

  lemma SameAppFromConfigs(decode: Decoder, code: string, a: Application, b: Application, boundA: int, boundB: int)
    requires Consistent(decode, code, a, boundA) && Consistent(decode, code, b, boundB) && a.configs == b.configs
    ensures SameApp(a, b)
  {
    hide Own, GoodConfig, Unstamped;
  }

  /** Equal config maps force equal rules. */
  lemma IndexFromConfigs(decode: Decoder, s: Snapshot, t: Snapshot)
    requires WellFormed(decode, s) && WellFormed(decode, t) && ConfigsOf(s) == ConfigsOf(t)
    ensures SameIndex(s, t)
  {
    hide Consistent, SameApp;
    forall code | code in s.apps
      ensures code in t.apps && SameApp(s.apps[code], t.apps[code])
    {
      assert ConfigsOf(s)[code] == ConfigsOf(t)[code];
      SameAppFromConfigs(decode, code, s.apps[code], t.apps[code], s.version, t.version);
    }
    assert ConfigsOf(s).Keys == s.apps.Keys && ConfigsOf(t).Keys == t.apps.Keys;
  }
}
