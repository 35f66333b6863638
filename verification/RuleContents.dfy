/** What ends up in the index: every field of a rule, from the content that declares it to the lookup that finds it. */
module RuleContents {
  import opened Common
  import opened Text
  import opened Rules
  import opened RuleIndex
  import opened RuleRebuild

  // ---------------------------------------------------------------- one rule of a content

  /** The text, trimmed, or what stands in for it when it is blank. */
  ghost predicate Filled(result: string, text: string, instead: string) {
    result == if Blank(text) then instead else Trim(text)
  }

  /** The rule holds exactly what the item of the content says, completed from content and config. */
  ghost predicate FromItem(rule: Rule, c: Config, doc: Document, item: Item) {
    && rule.applicationCode == c.applicationCode && rule.configID == c.configID && rule.checksum == c.contentChecksum
    && rule.ruleID == Trim(item.ruleID) && rule.quota == item.quota && rule.windowSeconds == item.windowSeconds
    && rule.burst == item.burst && rule.dimensions == item.dimensions
    && rule.attributes == item.attributes && rule.raw == item.raw
    && Filled(rule.name, item.name, c.ruleName) &&
      Filled(rule.schemaVersion, item.schemaVersion, Trim(doc.schemaVersion))
    && Filled(rule.algorithm, item.algorithm, "fixed_window") && Filled(rule.failPolicy, item.failPolicy, "fail_closed")
  }

  /** An item that the parser accepts. */
  predicate Sound(item: Option<Item>) {
    item.Some? && !Blank(item.value.ruleID) && item.value.quota > 0 && item.value.windowSeconds > 0
  }

  lemma RuleFromExactly(c: Config, doc: Document, version: int, index: nat)
    requires index < |doc.items|
    ensures RuleFrom(c, doc, version, index).Ok? <==> Sound(doc.items[index])
    ensures !Sound(doc.items[index]) ==> RuleFrom(c, doc, version, index) == Err(InvalidRule(c.configID, index))
    ensures Sound(doc.items[index]) ==>
      var rule := RuleFrom(c, doc, version, index).value;
      FromItem(rule, c, doc, doc.items[index].value) && rule.snapshotVersion == version
  {
    assert Trim("fixed_window") == "fixed_window" && Trim("fail_closed") == "fail_closed";
    hide Trim;
  }

  lemma {:induction false} RulesFromExactly(c: Config, doc: Document, version: int, n: nat)
    requires n <= |doc.items|
    ensures RulesFrom(c, doc, version, n).Ok? <==> forall i :: 0 <= i < n ==> Sound(doc.items[i])
    ensures RulesFrom(c, doc, version, n).Ok? ==> forall i :: 0 <= i < n ==>
      && FromItem(RulesFrom(c, doc, version, n).value[i], c, doc, doc.items[i].value)
      && RulesFrom(c, doc, version, n).value[i].snapshotVersion == version
  {
    hide RuleFrom, Sound, FromItem, Trim;
    if n > 0 {
      RulesFromExactly(c, doc, version, n - 1);
      RuleFromExactly(c, doc, version, n - 1);
    }
  }

  /** A content parses exactly if it decodes to a list of sound items, and rule i holds what item i says. */
  lemma ParsesExactly(decode: Decoder, c: Config, version: int)
    ensures var parsed := ParseRules(decode, c, version);
            && (parsed.Ok? <==>
                  && decode(c.content).Some? && decode(c.content).value.items != []
                  && forall i :: 0 <= i < |decode(c.content).value.items| ==> Sound(decode(c.content).value.items[i]))
            && (decode(c.content) == None ==> parsed == Err(InvalidContent(c.configID)))
            && (decode(c.content).Some? && decode(c.content).value.items == [] ==> parsed == Err(NoRules(c.configID)))
            && (parsed.Ok? ==>
                  var doc := decode(c.content).value;
                  && |parsed.value| == |doc.items|
                  && forall i :: 0 <= i < |doc.items| ==>
                       FromItem(parsed.value[i], c, doc, doc.items[i].value) &&
                         parsed.value[i].snapshotVersion == version)
  {
    hide RulesFrom, FromItem, Sound;
    if decode(c.content).Some? {
      var doc := decode(c.content).value;
      RulesFromExactly(c, doc, version, |doc.items|);
    }
  }

  // ---------------------------------------------------------------- the rule that a lookup finds

  /** The last item of a content with its rule id. */
  ghost predicate LastWithId(doc: Document, j: nat) {
    && j < |doc.items| && doc.items[j].Some?
    && forall k :: j < k < |doc.items| && doc.items[k].Some? ==>
         Trim(doc.items[k].value.ruleID) != Trim(doc.items[j].value.ruleID)
  }

  lemma {:induction false} OverlayLast(parsed: seq<Rule>, n: nat, j: nat)
    requires j < n <= |parsed| && forall k :: j < k < n ==> parsed[k].ruleID != parsed[j].ruleID
    ensures parsed[j].ruleID in Overlay(parsed, n) && Overlay(parsed, n)[parsed[j].ruleID] == parsed[j]
  {
    if j < n - 1 {
      OverlayLast(parsed, n - 1, j);
    }
  }

  lemma OwnsItem(decode: Decoder, c: Config, j: nat)
    requires ParseRules(decode, c, 0).Ok? && LastWithId(decode(c.content).value, j)
    ensures var doc := decode(c.content).value;
            var id := Trim(doc.items[j].value.ruleID);
            id in Own(decode, c) && FromItem(Own(decode, c)[id], c, doc, doc.items[j].value)
  {
    hide ParseRules, Filled, Trim;
    ParsesExactly(decode, c, 0);
    var parsed := ParseRules(decode, c, 0).value;
    OverlayLast(parsed, |parsed|, j);
  }

  /** In a well-formed snapshot, a lookup finds what the last item with the id says, in the config that declares it. */
  lemma LookupFinds(decode: Decoder, s: Snapshot, c: Config, j: nat)
    requires WellFormed(decode, s) && Has(ConfigsOf(s), c)
    requires decode(c.content).Some? && LastWithId(decode(c.content).value, j)
    ensures var doc := decode(c.content).value;
            var rule := FindRule(s, c.applicationCode, Trim(doc.items[j].value.ruleID));
            rule.Some? && FromItem(rule.value, c, doc, doc.items[j].value)
  {
    hide ParseRules, Own, Consistent, Trim, Filled;
    WellFormedPublishable(decode, s, c);
    OwnsItem(decode, c, j);
    var doc := decode(c.content).value;
    var id := Trim(doc.items[j].value.ruleID);
    IndexedIsOwned(decode, c.applicationCode, s.apps[c.applicationCode], s.version, c.configID, id);
    SameButStamp(s.apps[c.applicationCode].rules[id], Own(decode, c)[id], c, doc, doc.items[j].value);
  }

  lemma IndexedIsOwned(decode: Decoder, code: string, app: Application, bound: int, configID: string, id: string)
    requires Consistent(decode, code, app, bound) && configID in app.configs && id in Own(decode, app.configs[configID])
    ensures id in app.rules && Unstamped(app.rules[id]) == Own(decode, app.configs[configID])[id]
  {
    hide Own, GoodConfig, Unstamped;
  }

  lemma SameButStamp(rule: Rule, unstamped: Rule, c: Config, doc: Document, item: Item)
    requires Unstamped(rule) == unstamped && FromItem(unstamped, c, doc, item)
    ensures FromItem(rule, c, doc, item)
  {
    hide Filled, Trim;
    assert unstamped == rule.(snapshotVersion := 0);
  }

  // ---------------------------------------------------------------- configs as published

  /** What publishing stores of a config. */
  ghost predicate Keeps(c: Config, p: PublishedConfig) {
    && c.applicationCode == Trim(p.applicationCode) && c.configID == Trim(p.configID)
    && c.ruleName == p.ruleName && c.ruleType == p.ruleType && c.ruleCount == p.ruleCount
    && c.aggregateChecksum == p.aggregateChecksum
    && Filled(c.content, p.content, "{}") && Filled(c.contentChecksum, p.contentChecksum, Trim(p.aggregateChecksum))
  }

  lemma StoredKeeps(p: PublishedConfig)
    ensures Keeps(Stored(p), p)
  {
    hide Trim;
  }

  /** The config that a snapshot holds under the trimmed ids of a published one. */
  ghost predicate Holds(s: Snapshot, p: PublishedConfig) {
    var code, id := Trim(p.applicationCode), Trim(p.configID);
    code in s.apps && id in s.apps[code].configs && Keeps(s.apps[code].configs[id], p)
  }

  lemma HasHolds(s: Snapshot, p: PublishedConfig)
    requires Has(ConfigsOf(s), Stored(p))
    ensures Holds(s, p)
  {
    StoredKeeps(p);
    hide Keeps;
  }

  /** The quota and window of a lookup are those that the published content declares. */
  ghost predicate FindsDeclared(decode: Decoder, s: Snapshot, p: PublishedConfig) {
    var content := decode(if Blank(p.content) then "{}" else Trim(p.content));
    content.Some? && forall j: nat :: LastWithId(content.value, j) ==>
      var item := content.value.items[j].value;
      var rule := FindRule(s, Trim(p.applicationCode), Trim(item.ruleID));
      && rule.Some? && rule.value.quota == item.quota && rule.value.windowSeconds == item.windowSeconds
      && rule.value.burst == item.burst && rule.value.configID == Trim(p.configID)
  }

  lemma HasFinds(decode: Decoder, s: Snapshot, p: PublishedConfig)
    requires WellFormed(decode, s) && Has(ConfigsOf(s), Stored(p))
    ensures FindsDeclared(decode, s, p)
  {
    hide WellFormed, ConfigsOf, Has, ParseRules, Trim, Stored, Filled;
    var c := Stored(p);
    StoredKeeps(p);
    WellFormedPublishable(decode, s, c);
    ParsesExactly(decode, c, 0);
    assert c.content == if Blank(p.content) then "{}" else Trim(p.content) by { FilledIs(c.content, p.content, "{}"); }
    forall j: nat | LastWithId(decode(c.content).value, j)
      ensures var item := decode(c.content).value.items[j].value;
              var rule := FindRule(s, c.applicationCode, Trim(item.ruleID));
              && rule.Some? && rule.value.quota == item.quota && rule.value.windowSeconds == item.windowSeconds
              && rule.value.burst == item.burst && rule.value.configID == c.configID
    {
      LookupFinds(decode, s, c, j);
    }
  }

  lemma FilledIs(result: string, text: string, instead: string)
    requires Filled(result, text, instead)
    ensures result == if Blank(text) then instead else Trim(text)
  {
  }

  /** A full build holds every config as published, and lookups find the rules that its content declares. */
  lemma BuildHolds(decode: Decoder, version: int, checksum: string, generatedAt: int, configs: seq<PublishedConfig>,
                   i: nat)
    requires DistinctKeys(configs) && i < |configs|
    requires BuildSnapshot(decode, version, checksum, generatedAt, configs).Ok?
    ensures var built := BuildSnapshot(decode, version, checksum, generatedAt, configs).value;
            && built.version == version && built.checksum == checksum
            && Holds(built, configs[i]) && FindsDeclared(decode, built, configs[i])
  {
    hide DistinctKeys, WellFormed, Stored, Holds, FindsDeclared, BuildFirst, ConfigsOf, PutFirst, Has;
    BuildPuts(decode, version, checksum, generatedAt, configs, |configs|);
    PutHas(configs, |configs|, i);
    var built := BuildSnapshot(decode, version, checksum, generatedAt, configs).value;
    HasHolds(built, configs[i]);
    HasFinds(decode, built, configs[i]);
  }

  // ---------------------------------------------------------------- one change, by its word

  ghost predicate SameElsewhere(s: Snapshot, next: Snapshot, code: string, id: string) {
    forall c, i :: (c, i) != (code, id) ==>
      (i in At(ConfigsOf(next), c) <==> i in At(ConfigsOf(s), c))
      && (i in At(ConfigsOf(s), c) ==> At(ConfigsOf(next), c)[i] == At(ConfigsOf(s), c)[i])
  }

  /** The upserting words put the attached config in place, whose rules lookups then find, and touch no other. */
  lemma UpsertWords(decode: Decoder, s: Snapshot, fromVersion: int, change: PublishedChange)
    requires WellFormed(decode, s) && ApplyChange(decode, s, fromVersion, change).Ok?
    requires Upper(Trim(change.operation)) in {"UPSERT", "UPDATE", "CREATE", "CREATED", "UPDATED"}
    ensures change.config.Some?
    ensures var next, p := ApplyChange(decode, s, fromVersion, change).value, change.config.value;
            && Holds(next, p) && FindsDeclared(decode, next, p)
            && SameElsewhere(s, next, Trim(p.applicationCode), Trim(p.configID))
            && (!Blank(change.currentChecksum) ==> HasChecksum(next, change, Trim(change.currentChecksum)))
            && (Blank(change.currentChecksum) && !Blank(p.contentChecksum) ==>
              HasChecksum(next, change, Trim(p.contentChecksum)))
  {
    hide WellFormed, ApplyConfig, DeleteConfig, ConfigsOf, Stored, Trim, Upper, CheckChecksum, Holds, FindsDeclared,
      Has, HasChecksum;
    ChangeEdits(decode, s, fromVersion, change);
    var next, p := ApplyChange(decode, s, fromVersion, change).value, change.config.value;
    PutIsHad(ConfigsOf(s), Stored(p));
    HasHolds(next, p);
    HasFinds(decode, next, p);
    StoredKeeps(p);
    if ExpectedCurrent(change) != "" {
      CheckedHas(next, change, ExpectedCurrent(change));
    }
  }

  lemma PutIsHad(m: ConfigMap, c: Config)
    ensures Has(Put(m, c), c)
    ensures forall code, id :: (code, id) != (c.applicationCode, c.configID) ==>
      (id in At(Put(m, c), code) <==> id in At(m, code)) &&
        (id in At(m, code) ==> At(Put(m, c), code)[id] == At(m, code)[id])
  {
  }

  /** The config that a change names by trimmed ids has the checksum. */
  ghost predicate HasChecksum(s: Snapshot, change: PublishedChange, checksum: string) {
    var code, id := Trim(change.applicationCode), Trim(change.configID);
    && code in s.apps && id in s.apps[code].configs
    && Filled(checksum, s.apps[code].configs[id].contentChecksum, Trim(s.apps[code].configs[id].aggregateChecksum))
  }

  lemma CheckedHas(s: Snapshot, change: PublishedChange, expected: string)
    requires CheckChecksum(s, change, expected) == None && expected != ""
    ensures HasChecksum(s, change, expected)
  {
    hide Trim;
  }

  /** The deleting words remove the config under the ids as given, and touch no other. */
  lemma DeleteWords(decode: Decoder, s: Snapshot, fromVersion: int, change: PublishedChange)
    requires WellFormed(decode, s) && ApplyChange(decode, s, fromVersion, change).Ok?
    requires Upper(Trim(change.operation)) in {"DELETE", "REMOVE", "DELETED"}
    ensures var next := ApplyChange(decode, s, fromVersion, change).value;
            && change.configID !in At(ConfigsOf(next), change.applicationCode)
            && SameElsewhere(s, next, change.applicationCode, change.configID)
            && (!Blank(change.previousChecksum) ==> HasChecksum(s, change, Trim(change.previousChecksum)))
  {
    hide WellFormed, ApplyConfig, DeleteConfig, ConfigsOf, Trim, Upper, CheckChecksum, HasChecksum;
    ChangeEdits(decode, s, fromVersion, change);
    DropIsGone(ConfigsOf(s), change.applicationCode, change.configID);
    if !Blank(change.previousChecksum) {
      assert IsDelete(change.operation);
      CheckedHas(s, change, Trim(change.previousChecksum));
    }
  }

  lemma DropIsGone(m: ConfigMap, code: string, id: string)
    ensures id !in At(Drop(m, code, id), code)
    ensures forall c, i :: (c, i) != (code, id) ==>
      (i in At(Drop(m, code, id), c) <==> i in At(m, c)) &&
        (i in At(m, c) ==> At(Drop(m, code, id), c)[i] == At(m, c)[i])
  {
    assert At(m, code) - {id} == map[] ==> forall i :: i in At(m, code) ==> i == id by {
      if i :| i in At(m, code) && i != id {
        assert i in At(m, code) - {id};
      }
    }
  }

  /** Any other word is refused. */
  lemma OtherWords(decode: Decoder, s: Snapshot, fromVersion: int, change: PublishedChange)
    requires Upper(Trim(change.operation)) !in
      {"UPSERT", "UPDATE", "CREATE", "CREATED", "UPDATED", "DELETE", "REMOVE", "DELETED"}
    ensures ApplyChange(decode, s, fromVersion, change) in {Err(UnexpectedVersion), Err(UnsupportedOperation)}
  {
    hide Upper, Trim;
  }

  // ---------------------------------------------------------------- whole deltas

  /** The change is an upsert of `p`. */
  ghost predicate Upserts(change: PublishedChange, p: PublishedConfig) {
    Upper(Trim(change.operation)) in {"UPSERT", "UPDATE", "CREATE", "CREATED", "UPDATED"} && change.config == Some(p)
  }

  /** The change leaves the config under these ids alone. */
  ghost predicate Spares(change: PublishedChange, code: string, id: string) {
    match Upper(Trim(change.operation))
    case "DELETE" | "REMOVE" | "DELETED" => change.applicationCode != code || change.configID != id
    case _ =>
      change.config.Some? ==>
        Trim(change.config.value.applicationCode) != code || Trim(change.config.value.configID) != id
  }

  lemma EditSpares(m: ConfigMap, change: PublishedChange, c: Config)
    requires Spares(change, c.applicationCode, c.configID) && Has(m, c)
    ensures Has(Edit(m, change), c)
  {
    hide Upper, Trim;
    if change.config.Some? {
      StoredKeeps(change.config.value);
      hide Stored;
      PutIsHad(m, Stored(change.config.value));
    }
    DropIsGone(m, change.applicationCode, change.configID);
  }

  lemma EditUpserts(m: ConfigMap, change: PublishedChange, p: PublishedConfig)
    requires Upserts(change, p)
    ensures Has(Edit(m, change), Stored(p))
  {
    hide Stored, Trim, Upper;
    PutIsHad(m, Stored(p));
  }

  lemma {:induction false} LastUpsertHolds(m: ConfigMap, changes: seq<PublishedChange>, k: nat, n: nat,
                                           p: PublishedConfig)
    requires k < n <= |changes| && Upserts(changes[k], p)
    requires forall i :: k < i < n ==> Spares(changes[i], Trim(p.applicationCode), Trim(p.configID))
    ensures Has(EditFirst(m, changes, n), Stored(p))
  {
    hide Edit, Upserts, Spares, Stored, Has, Trim;
    if k == n - 1 {
      EditUpserts(EditFirst(m, changes, n - 1), changes[k], p);
    } else {
      LastUpsertHolds(m, changes, k, n - 1, p);
      StoredKeeps(p);
      EditSpares(EditFirst(m, changes, n - 1), changes[n - 1], Stored(p));
    }
  }

  /**
   A delta leaves every config as its last upsert published it, and lookups find the rules that its content
   declares.
   */
  lemma DeltaHolds(decode: Decoder, current: Snapshot, version: int, checksum: string, generatedAt: int,
                   changes: seq<PublishedChange>, k: nat, p: PublishedConfig)
    requires WellFormed(decode, current) && k < |changes| && Upserts(changes[k], p)
    requires forall i :: k < i < |changes| ==> Spares(changes[i], Trim(p.applicationCode), Trim(p.configID))
    requires ApplyChanges(decode, current, version, checksum, generatedAt, changes).Ok?
    ensures var next := ApplyChanges(decode, current, version, checksum, generatedAt, changes).value;
            && next.version == version && next.checksum == checksum
            && Holds(next, p) && FindsDeclared(decode, next, p)
  {
    hide WellFormed, ApplyChanges, Upserts, Spares, Holds, FindsDeclared, Has, Stored, Trim, ConfigsOf, EditFirst;
    DeltaEdits(decode, current, version, checksum, generatedAt, changes);
    LastUpsertHolds(ConfigsOf(current), changes, k, |changes|, p);
    var next := ApplyChanges(decode, current, version, checksum, generatedAt, changes).value;
    HasHolds(next, p);
    HasFinds(decode, next, p);
  }
}
