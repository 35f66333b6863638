/**
 The snapshot builder on the heap.  The maps of a snapshot are shared, mutable objects, so a
 snapshot value is a handle: copying it does not copy its maps, only `Clone` does.
 */
module RuleBuilder {
  import opened Common
  import opened Text
  import opened Rules

  /** The two maps of one application; they are allocated together and shared together. */
  class Maps {
    var configs: map<string, Config>
    var rules: map<string, Rule>

    constructor ()
      ensures configs == map[] && rules == map[]
    {
      configs, rules := map[], map[];
    }
  }

  /** An application as it sits in the table: a struct that refers to its maps. */
  datatype App = App(code: string, version: int, checksum: string, maps: Maps)

  ghost function ViewOf(app: App): Application
    reads app.maps
  {
    Application(app.code, app.version, app.checksum, app.maps.configs, app.maps.rules)
  }

  /** The maps that applications of a table refer to. */
  ghost function MapsOf(entries: map<string, App>): set<Maps> {
    set code | code in entries :: entries[code].maps
  }

  lemma MapsOfPut(entries: map<string, App>, code: string, app: App)
    ensures MapsOf(entries[code := app]) <= MapsOf(entries) + {app.maps}
  {
    forall m | m in MapsOf(entries[code := app])
      ensures m in MapsOf(entries) + {app.maps}
    {
      var c :| c in entries[code := app] && entries[code := app][c].maps == m;
      if c != code {
        assert entries[c].maps in MapsOf(entries);
      }
    }
  }

  lemma MapsOfDrop(entries: map<string, App>, code: string)
    ensures MapsOf(entries - {code}) <= MapsOf(entries)
  {
    forall m | m in MapsOf(entries - {code})
      ensures m in MapsOf(entries)
    {
      var c :| c in entries - {code} && (entries - {code})[c].maps == m;
      assert entries[c].maps in MapsOf(entries);
    }
  }

  /** The table of applications, a map as well. */
  class AppTable {
    var entries: map<string, App>

    constructor ()
      ensures entries == map[]
    {
      entries := map[];
    }

    /** All maps that applications of this table refer to. */
    ghost function AllMaps(): set<Maps>
      reads this
    {
      MapsOf(entries)
    }

    /** No two applications share their maps. */
    ghost predicate Separate()
      reads this
    {
      forall a, b :: a in entries && b in entries && a != b ==> entries[a].maps != entries[b].maps
    }

    ghost function Contents(): map<string, Application>
      reads this, AllMaps()
    {
      map code | code in entries :: ViewOf(entries[code])
    }
  }

  datatype Handle = Handle(version: int, checksum: string, generatedAt: int, apps: AppTable)

  /** The snapshot value that a handle denotes. */
  ghost function View(h: Handle): Snapshot
    reads h.apps, h.apps.AllMaps()
  {
    Snapshot(h.version, h.checksum, h.generatedAt, h.apps.Contents())
  }

  // ---------------------------------------------------------------- cloning

  /** `Application.Clone`: both maps are copied entry by entry into new ones. */
  method CloneApp(app: App) returns (copy: App)
    ensures fresh(copy.maps) && ViewOf(copy) == ViewOf(app)
  {
    var maps := new Maps();
    var configIDs := app.maps.configs.Keys;
    while configIDs != {}
      invariant configIDs <= app.maps.configs.Keys
      invariant maps.configs == app.maps.configs - configIDs && maps.rules == map[]
      decreases configIDs
    {
      var id :| id in configIDs;
      configIDs := configIDs - {id};
      maps.configs := maps.configs[id := app.maps.configs[id]];
    }
    var ruleIDs := app.maps.rules.Keys;
    while ruleIDs != {}
      invariant ruleIDs <= app.maps.rules.Keys
      invariant maps.configs == app.maps.configs && maps.rules == app.maps.rules - ruleIDs
      decreases ruleIDs
    {
      var id :| id in ruleIDs;
      ruleIDs := ruleIDs - {id};
      maps.rules := maps.rules[id := app.maps.rules[id]];
    }
    copy := App(app.code, app.version, app.checksum, maps);
  }

  /** `Snapshot.Clone`: a new table of cloned applications; the original is only read. */
  method Clone(h: Handle) returns (copy: Handle)
    ensures fresh(copy.apps) && fresh(copy.apps.AllMaps()) && copy.apps.Separate()
    ensures View(copy) == old(View(h))
  {
    var apps := new AppTable();
    var codes := h.apps.entries.Keys;
    while codes != {}
      invariant codes <= h.apps.entries.Keys
      invariant apps.entries.Keys == h.apps.entries.Keys - codes
      invariant fresh(apps.AllMaps()) && apps.Separate()
      invariant forall code :: code in apps.entries ==> ViewOf(apps.entries[code]) == ViewOf(h.apps.entries[code])
      decreases codes
    {
      var code :| code in codes;
      codes := codes - {code};
      var app := CloneApp(h.apps.entries[code]);
      MapsOfPut(apps.entries, code, app);
      assert app.maps !in apps.AllMaps();
      apps.entries := apps.entries[code := app];
    }
    copy := Handle(h.version, h.checksum, h.generatedAt, apps);
  }

  // ---------------------------------------------------------------- editing in place

  /** `deleteRulesForConfig`: the rules of a config are deleted while the map is walked. */
  method DeleteRulesForConfig(maps: Maps, configID: string)
    modifies maps`rules
    ensures maps.rules == WithoutConfig(old(maps.rules), configID)
  {
    var all := maps.rules;
    var todo := all.Keys;
    while todo != {}
      invariant todo <= all.Keys
      invariant maps.rules == map id | id in all && (id in todo || all[id].configID != configID) :: all[id]
      decreases todo
    {
      var id :| id in todo;
      todo := todo - {id};
      if all[id].configID == configID {
        maps.rules := maps.rules - {id};
      }
    }
  }

  /** `parseRules`: rules are appended one by one; the first bad element ends it. */
  method Parse(decode: Decoder, c: Config, version: int) returns (r: Result<seq<Rule>, Error>)
    ensures r == ParseRules(decode, c, version)
    ensures r.Ok? ==> decode(c.content).Some? && |r.value| == |decode(c.content).value.items|
    ensures r.Ok? ==> forall i :: 0 <= i < |r.value| ==>
      var item := decode(c.content).value.items[i];
      && item.Some? && r.value[i].ruleID == Trim(item.value.ruleID)
      && r.value[i].quota == item.value.quota && r.value[i].windowSeconds == item.value.windowSeconds
  {
    var decoded := decode(c.content);
    if decoded == None {
      return Err(InvalidContent(c.configID));
    }
    var doc := decoded.value;
    if doc.items == [] {
      return Err(NoRules(c.configID));
    }
    var rules := [];
    for n := 0 to |doc.items|
      invariant RulesFrom(c, doc, version, n) == Ok(rules)
    {
      var rule := RuleFrom(c, doc, version, n);
      if rule.Err? {
        FirstErrorDecides(c, doc, version, n, |doc.items|);
        return Err(rule.error);
      }
      rules := rules + [rule.value];
    }
    r := Ok(rules);
  }

  lemma {:induction false} FirstErrorDecides(c: Config, doc: Document, version: int, n: nat, m: nat)
    requires n < m <= |doc.items| && RulesFrom(c, doc, version, n).Ok? && RuleFrom(c, doc, version, n).Err?
    ensures RulesFrom(c, doc, version, m) == Err(RuleFrom(c, doc, version, n).error)
  {
    hide RuleFrom;
    if n + 1 < m {
      FirstErrorDecides(c, doc, version, n, m - 1);
    }
  }

  lemma {:induction false} FirstClashDecides(rules: map<string, Rule>, parsed: seq<Rule>, n: nat, m: nat,
                                             configID: string)
    requires n < m <= |parsed| && Indexed(rules, parsed, n + 1, configID).Err?
    ensures Indexed(rules, parsed, m, configID) == Indexed(rules, parsed, n + 1, configID)
  {
    if n + 1 < m {
      FirstClashDecides(rules, parsed, n, m - 1, configID);
    }
  }

  /**
   The part of `applyConfig` that works on one application: its maps are edited before parsing can
   fail, so after an error they are neither the old ones nor the new ones.
   */
  method ApplyToApp(decode: Decoder, app: App, c: Config) returns (err: Option<Error>)
    modifies app.maps
    ensures match AppWithConfig(decode, old(ViewOf(app)), c)
            case Ok(next) => err == None && ViewOf(app) == next
            case Err(e) => err == Some(e)
  {
    hide ParseRules, WithoutConfig;
    DeleteRulesForConfig(app.maps, c.configID);
    app.maps.configs := app.maps.configs[c.configID := c];
    var parsed := Parse(decode, c, app.version);
    if parsed.Err? {
      return Some(parsed.error);
    }
    ghost var kept := app.maps.rules;
    for n := 0 to |parsed.value|
      invariant Indexed(kept, parsed.value, n, c.configID) == Ok(app.maps.rules)
      invariant app.maps.configs == old(app.maps.configs)[c.configID := c]
    {
      var rule := parsed.value[n];
      if rule.ruleID in app.maps.rules && app.maps.rules[rule.ruleID].configID != c.configID {
        FirstClashDecides(kept, parsed.value, n, |parsed.value|, c.configID);
        return Some(DuplicateRule(rule.ruleID));
      }
      app.maps.rules := app.maps.rules[rule.ruleID := rule];
    }
    err := None;
  }

  /** `maps` belong to the application `code` of the table, or to none. */
  ghost predicate Slot(apps: AppTable, code: string, maps: Maps)
    reads apps
  {
    forall other :: other in apps.entries && other != code ==> apps.entries[other].maps != maps
  }

  /** Storing an application under its code replaces it in the contents. */
  method Store(apps: AppTable, code: string, app: App)
    requires apps.Separate() && Slot(apps, code, app.maps)
    modifies apps
    ensures apps.Separate() && apps.AllMaps() <= old(apps.AllMaps()) + {app.maps}
    ensures apps.Contents() == old(apps.Contents())[code := ViewOf(app)]
  {
    MapsOfPut(apps.entries, code, app);
    apps.entries := apps.entries[code := app];
  }

  /** Contents of a table, up to one code, given what the maps of the other applications hold. */
  lemma ContentsExcept(apps: AppTable, code: string, before: map<string, Application>, app: Application)
    requires before.Keys == apps.entries.Keys
    requires forall other :: other in apps.entries && other != code ==> ViewOf(apps.entries[other]) == before[other]
    ensures apps.Contents()[code := app] == before[code := app]
    ensures apps.Contents() - {code} == before - {code}
  {
  }

  /** `applyConfig` on a snapshot the caller owns. */
  method Apply(decode: Decoder, h: Handle, p: PublishedConfig) returns (err: Option<Error>)
    requires h.apps.Separate()
    modifies h.apps, h.apps.AllMaps()
    ensures h.apps.Separate() && fresh(h.apps.AllMaps() - old(h.apps.AllMaps()))
    ensures match ApplyConfig(decode, old(View(h)), p)
            case Ok(next) => err == None && View(h) == next
            case Err(e) => err == Some(e)
  {
    hide Stored, AppWithConfig;
    var c := Stored(p);
    if c.applicationCode == "" {
      return Some(ApplicationCodeRequired);
    }
    if c.configID == "" {
      return Some(ConfigIDRequired);
    }
    var app := AppIn(h, c.applicationCode);
    err := ApplyToApp(decode, app, c);
    if err.Some? {
      return;
    }
    ContentsExcept(h.apps, c.applicationCode, old(h.apps.Contents()), ViewOf(app));
    Store(h.apps, c.applicationCode, app);
  }

  /** The application that a config goes into, stamped: a copy of the struct that shares its maps. */
  method AppIn(h: Handle, code: string) returns (app: App)
    requires h.apps.Separate()
    ensures ViewOf(app) == AppFor(View(h), code) && Slot(h.apps, code, app.maps)
    ensures app.maps in h.apps.AllMaps() || fresh(app.maps)
  {
    if code in h.apps.entries && h.apps.entries[code].code != "" {
      app := h.apps.entries[code];
      assert app.maps in h.apps.AllMaps();
    } else {
      var maps := new Maps();
      app := App(code, 0, "", maps);
      assert forall other :: other in h.apps.entries ==> h.apps.entries[other].maps in h.apps.AllMaps();
    }
    app := app.(version := h.version, checksum := h.checksum);
  }

  /** `deleteConfig`, under the ids exactly as given. */
  method Delete(h: Handle, applicationCode: string, configID: string)
    requires h.apps.Separate()
    modifies h.apps, h.apps.AllMaps()
    ensures h.apps.Separate() && h.apps.AllMaps() <= old(h.apps.AllMaps())
    ensures View(h) == DeleteConfig(old(View(h)), applicationCode, configID)
  {
    hide WithoutConfig;
    if applicationCode !in h.apps.entries {
      return;
    }
    var app := h.apps.entries[applicationCode];
    assert app.maps in h.apps.AllMaps();
    assert old(h.apps.Contents())[applicationCode] == old(ViewOf(app));
    app.maps.configs := app.maps.configs - {configID};
    DeleteRulesForConfig(app.maps, configID);
    var stamped := app.(version := h.version, checksum := h.checksum);
    ContentsExcept(h.apps, applicationCode, old(h.apps.Contents()), ViewOf(stamped));
    if app.maps.configs == map[] && app.maps.rules == map[] {
      MapsOfDrop(h.apps.entries, applicationCode);
      h.apps.entries := h.apps.entries - {applicationCode};
      assert h.apps.Contents() == old(h.apps.Contents()) - {applicationCode};
      return;
    }
    Store(h.apps, applicationCode, stamped);
  }

  // ---------------------------------------------------------------- whole snapshots

  /** Both checksum checks only read. */
  method Check(h: Handle, change: PublishedChange, expected: string) returns (err: Option<Error>)
    ensures err == CheckChecksum(View(h), change, expected)
  {
    var code, id := Trim(change.applicationCode), Trim(change.configID);
    if expected == "" {
      return None;
    }
    if code !in h.apps.entries || id !in h.apps.entries[code].maps.configs {
      return Some(ConfigMissing);
    }
    var c := h.apps.entries[code].maps.configs[id];
    err := if Choose(c.contentChecksum, c.aggregateChecksum) != expected then Some(ChecksumMismatch) else None;
  }

  /** One change of a delta, on a working copy the caller owns. */
  method Change(decode: Decoder, h: Handle, fromVersion: int, change: PublishedChange) returns (err: Option<Error>)
    requires h.apps.Separate()
    modifies h.apps, h.apps.AllMaps()
    ensures h.apps.Separate() && fresh(h.apps.AllMaps() - old(h.apps.AllMaps()))
    ensures match ApplyChange(decode, old(View(h)), fromVersion, change)
            case Ok(next) => err == None && View(h) == next
            case Err(e) => err == Some(e)
  {
    hide ApplyConfig, DeleteConfig, CheckChecksum, AppTable.Contents, IsDelete, IsUpsert, ExpectedCurrent, Trim;
    if change.fromVersion != 0 && change.fromVersion != fromVersion {
      return Some(UnexpectedVersion);
    }
    if change.toVersion != 0 && change.toVersion != h.version {
      return Some(UnexpectedVersion);
    }
    if IsDelete(change.operation) {
      err := Check(h, change, Trim(change.previousChecksum));
      if err == None {
        Delete(h, change.applicationCode, change.configID);
      }
    } else if IsUpsert(change.operation) {
      if change.config == None {
        return Some(ConfigMissing);
      }
      err := Apply(decode, h, change.config.value);
      if err == None {
        err := Check(h, change, ExpectedCurrent(change));
      }
    } else {
      err := Some(UnsupportedOperation);
    }
  }

  lemma {:induction false} FirstFailureDecides(decode: Decoder, s: Snapshot, fromVersion: int,
                                               changes: seq<PublishedChange>, n: nat, m: nat)
    requires n < m <= |changes| && ApplyFirst(decode, s, fromVersion, changes, n + 1).Err?
    ensures ApplyFirst(decode, s, fromVersion, changes, m) == ApplyFirst(decode, s, fromVersion, changes, n + 1)
  {
    hide ApplyChange;
    if n + 1 < m {
      FirstFailureDecides(decode, s, fromVersion, changes, n, m - 1);
    }
  }

  lemma {:induction false} FirstBuildFailureDecides(decode: Decoder, version: int, checksum: string, generatedAt: int,
                                                    configs: seq<PublishedConfig>, n: nat, m: nat)
    requires n < m <= |configs| && BuildFirst(decode, version, checksum, generatedAt, configs, n + 1).Err?
    ensures BuildFirst(decode, version, checksum, generatedAt, configs, m) ==
      BuildFirst(decode, version, checksum, generatedAt, configs, n + 1)
  {
    hide ApplyConfig;
    if n + 1 < m {
      FirstBuildFailureDecides(decode, version, checksum, generatedAt, configs, n, m - 1);
    }
  }

  /**
   `ApplyChanges`: all editing happens on a deep copy.  The method modifies nothing that existed
   before, so neither success nor failure shows in any map reachable from `current`.
   */
  method ApplyAll(decode: Decoder, current: Handle, version: int, checksum: string, generatedAt: int,
                  changes: seq<PublishedChange>)
      returns (r: Result<Handle, Error>)
    requires current.apps.Separate()
    ensures r.Ok? ==> fresh(r.value.apps) && fresh(r.value.apps.AllMaps()) && r.value.apps.Separate()
    ensures match ApplyChanges(decode, old(View(current)), version, checksum, generatedAt, changes)
            case Ok(next) => r.Ok? && View(r.value) == next
            case Err(e) => r == Err(e)
  {
    hide ApplyChange, AppTable.Contents;
    if version <= current.version {
      return Err(VersionMustAdvance);
    }
    if Blank(checksum) {
      return Err(ChecksumRequired);
    }
    var copy := Clone(current);
    var next := Handle(version, checksum, generatedAt, copy.apps);
    ghost var start := Snapshot(version, checksum, generatedAt, old(View(current)).apps);
    assert View(next) == start;
    for n := 0 to |changes|
      invariant fresh(next.apps) && fresh(next.apps.AllMaps()) && next.apps.Separate()
      invariant ApplyFirst(decode, start, current.version, changes, n) == Ok(View(next))
    {
      ghost var reached := View(next);
      var err := Change(decode, next, current.version, changes[n]);
      assert ApplyFirst(decode, start, current.version, changes, n + 1)
          == ApplyChange(decode, reached, current.version, changes[n]);
      if err.Some? {
        FirstFailureDecides(decode, start, current.version, changes, n, |changes|);
        return Err(err.value);
      }
    }
    r := Ok(next);
  }

  method Empty(version: int, checksum: string, generatedAt: int) returns (h: Handle)
    ensures fresh(h.apps) && h.apps.AllMaps() == {} && h.apps.Separate()
    ensures View(h) == Snapshot(version, checksum, generatedAt, map[])
  {
    var apps := new AppTable();
    h := Handle(version, checksum, generatedAt, apps);
  }

  /** `BuildSnapshot`: configs are applied one by one to a snapshot that starts empty. */
  method BuildAll(decode: Decoder, version: int, checksum: string, generatedAt: int, configs: seq<PublishedConfig>)
      returns (r: Result<Handle, Error>)
    ensures r.Ok? ==> fresh(r.value.apps) && fresh(r.value.apps.AllMaps()) && r.value.apps.Separate()
    ensures match BuildSnapshot(decode, version, checksum, generatedAt, configs)
            case Ok(next) => r.Ok? && View(r.value) == next
            case Err(e) => r == Err(e)
  {
    hide ApplyConfig, AppTable.Contents;
    var next := Empty(version, checksum, generatedAt);
    for n := 0 to |configs|
      invariant fresh(next.apps) && fresh(next.apps.AllMaps()) && next.apps.Separate()
      invariant BuildFirst(decode, version, checksum, generatedAt, configs, n) == Ok(View(next))
    {
      var err := Apply(decode, next, configs[n]);
      if err.Some? {
        FirstBuildFailureDecides(decode, version, checksum, generatedAt, configs, n, |configs|);
        return Err(err.value);
      }
    }
    r := Ok(next);
  }
}
