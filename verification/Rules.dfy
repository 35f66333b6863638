/**
 Rule snapshots as values, and what building or editing one means.  The heap-level builder of
 module RuleBuilder is proved against the functions of this module.
 */
module Rules {
  import opened Common
  import opened Text

  // ---------------------------------------------------------------- data model

  datatype Snapshot = Snapshot(version: int, checksum: string, generatedAt: int, apps: map<string, Application>)

  datatype Application = Application(
    code: string, version: int, checksum: string, configs: map<string, Config>, rules: map<string, Rule>)

  datatype Config = Config(
    applicationCode: string, configID: string, ruleName: string, ruleType: string, content: string,
    contentChecksum: string, aggregateChecksum: string, ruleCount: int)

  datatype Rule = Rule(
    applicationCode: string, configID: string, ruleID: string, name: string, snapshotVersion: int,
    checksum: string, schemaVersion: string, algorithm: string, quota: int, windowSeconds: int, burst: int,
    dimensions: seq<string>, failPolicy: string, attributes: map<string, string>, raw: string)
  {
    /** The decimal snapshot version; empty for version zero. */
    function Revision(): string {
      if snapshotVersion == 0 then "" else FormatInt(snapshotVersion)
    }
  }

  datatype PublishedConfig = PublishedConfig(
    applicationCode: string, configID: string, ruleName: string, ruleType: string, content: string,
    contentChecksum: string, aggregateChecksum: string, ruleCount: int)

  datatype PublishedChange = PublishedChange(
    operation: string, fromVersion: int, toVersion: int, applicationCode: string, configID: string,
    previousChecksum: string, currentChecksum: string, config: Option<PublishedConfig>)

  datatype Error =
    | ApplicationCodeRequired
    | ConfigIDRequired
    | InvalidContent(configID: string)
    | NoRules(configID: string)
    | InvalidRule(configID: string, index: nat)
    | DuplicateRule(ruleID: string)
    | VersionMustAdvance
    | ChecksumRequired
    | UnexpectedVersion
    | ConfigMissing
    | ChecksumMismatch
    | UnsupportedOperation

  function EmptySnapshot(now: int): Snapshot {
    Snapshot(0, "", now, map[])
  }

  predicate IsEmpty(s: Snapshot) {
    s.version == 0 && s.checksum == "" && s.apps == map[]
  }

  function FindRule(s: Snapshot, applicationCode: string, ruleID: string): Option<Rule> {
    if applicationCode in s.apps && ruleID in s.apps[applicationCode].rules
    then Some(s.apps[applicationCode].rules[ruleID])
    else None
  }

  // ---------------------------------------------------------------- parsing

  /**
   JSON decoding stays abstract: any deterministic partial function from content to the schema
   version and the rule array, each item of which decodes or does not.
   */
  datatype Document = Document(schemaVersion: string, items: seq<Option<Item>>)

  datatype Item = Item(
    ruleID: string, name: string, schemaVersion: string, algorithm: string, quota: int, windowSeconds: int,
    burst: int, dimensions: seq<string>, failPolicy: string, attributes: map<string, string>, raw: string)

  type Decoder = string -> Option<Document>

  function NormalContent(content: string): string {
    if Blank(content) then "{}" else Trim(content)
  }

  /** The config entry that publishing a config stores. */
  function Stored(p: PublishedConfig): Config {
    Config(Trim(p.applicationCode), Trim(p.configID), p.ruleName, p.ruleType, NormalContent(p.content),
           Choose(p.contentChecksum, p.aggregateChecksum), p.aggregateChecksum, p.ruleCount)
  }

  /** One element of the rule array, trimmed, checked and completed from the config around it. */
  function RuleFrom(c: Config, doc: Document, version: int, index: nat): (r: Result<Rule, Error>)
    requires index < |doc.items|
    ensures r.Ok? ==> r.value.ruleID != "" && Trim(r.value.ruleID) == r.value.ruleID
  {
    match doc.items[index]
    case None => Err(InvalidRule(c.configID, index))
    case Some(item) =>
      TrimTrims(item.ruleID);
      var ruleID, name, schemaVersion := Trim(item.ruleID), Trim(item.name), Trim(item.schemaVersion);
      if ruleID == "" || item.quota <= 0 || item.windowSeconds <= 0 then Err(InvalidRule(c.configID, index))
      else Ok(Rule(
        c.applicationCode, c.configID, ruleID, if name == "" then c.ruleName else name, version, c.contentChecksum,
        if schemaVersion == "" then Trim(doc.schemaVersion) else schemaVersion,
        Choose(item.algorithm, "fixed_window"), item.quota, item.windowSeconds, item.burst, item.dimensions,
        Choose(item.failPolicy, "fail_closed"), item.attributes, item.raw))
  }

  /** The first `n` elements of the rule array; the first bad one decides the error. */
  function RulesFrom(c: Config, doc: Document, version: int, n: nat): (r: Result<seq<Rule>, Error>)
    requires n <= |doc.items|
    ensures r.Ok? ==> |r.value| == n
    ensures r.Ok? ==> forall i :: 0 <= i < n ==>
      && r.value[i].applicationCode == c.applicationCode && r.value[i].configID == c.configID
      && r.value[i].checksum == c.contentChecksum && r.value[i].snapshotVersion == version
      && r.value[i].ruleID != "" && Trim(r.value[i].ruleID) == r.value[i].ruleID
      && r.value[i].quota > 0 && r.value[i].windowSeconds > 0
    ensures r.Ok? ==> forall i :: 0 <= i < n ==>
      && doc.items[i].Some? && r.value[i].ruleID == Trim(doc.items[i].value.ruleID)
      && r.value[i].quota == doc.items[i].value.quota
      && r.value[i].windowSeconds == doc.items[i].value.windowSeconds
  {
    if n == 0 then Ok([])
    else
      var rest :- RulesFrom(c, doc, version, n - 1);
      var rule :- RuleFrom(c, doc, version, n - 1);
      Ok(rest + [rule])
  }

  /** `parseRules`: every field it reads of a published config is kept by the stored one. */
  function ParseRules(decode: Decoder, c: Config, version: int): (r: Result<seq<Rule>, Error>)
    ensures r.Ok? ==> r.value != []
  {
    match decode(c.content)
    case None => Err(InvalidContent(c.configID))
    case Some(doc) =>
      if doc.items == [] then Err(NoRules(c.configID)) else RulesFrom(c, doc, version, |doc.items|)
  }

  // ---------------------------------------------------------------- editing one application

  function WithoutConfig(rules: map<string, Rule>, configID: string): map<string, Rule> {
    map id | id in rules && rules[id].configID != configID :: rules[id]
  }

  /** Add the first `n` parsed rules of a config, refusing an id that another config holds. */
  function Indexed(rules: map<string, Rule>, parsed: seq<Rule>, n: nat, configID: string)
      : Result<map<string, Rule>, Error>
    requires n <= |parsed|
  {
    if n == 0 then Ok(rules)
    else
      var before :- Indexed(rules, parsed, n - 1, configID);
      var rule := parsed[n - 1];
      if rule.ruleID in before && before[rule.ruleID].configID != configID then Err(DuplicateRule(rule.ruleID))
      else Ok(before[rule.ruleID := rule])
  }

  /** Put a config and its parsed rules into an application. */
  function AppWithConfig(decode: Decoder, app: Application, c: Config): Result<Application, Error> {
    var parsed :- ParseRules(decode, c, app.version);
    var rules :- Indexed(WithoutConfig(app.rules, c.configID), parsed, |parsed|, c.configID);
    Ok(app.(configs := app.configs[c.configID := c], rules := rules))
  }

  // ---------------------------------------------------------------- editing a snapshot

  /** The application a config goes into, stamped by the snapshot: the existing one, or a new empty one. */
  function AppFor(s: Snapshot, code: string): Application {
    if code in s.apps && s.apps[code].code != "" then s.apps[code].(version := s.version, checksum := s.checksum)
    else Application(code, s.version, s.checksum, map[], map[])
  }

  function ApplyStored(decode: Decoder, s: Snapshot, c: Config): Result<Snapshot, Error> {
    if c.applicationCode == "" then Err(ApplicationCodeRequired)
    else if c.configID == "" then Err(ConfigIDRequired)
    else
      var app :- AppWithConfig(decode, AppFor(s, c.applicationCode), c);
      Ok(s.(apps := s.apps[c.applicationCode := app]))
  }

  function ApplyConfig(decode: Decoder, s: Snapshot, p: PublishedConfig): Result<Snapshot, Error> {
    ApplyStored(decode, s, Stored(p))
  }

  /** Ids are used as given here, although the checksum checks trim them. */
  function DeleteConfig(s: Snapshot, applicationCode: string, configID: string): Snapshot {
    if applicationCode !in s.apps then s
    else
      var app := s.apps[applicationCode];
      var configs, rules := app.configs - {configID}, WithoutConfig(app.rules, configID);
      if configs == map[] && rules == map[] then s.(apps := s.apps - {applicationCode})
      else s.(apps := s.apps[applicationCode := Application(app.code, s.version, s.checksum, configs, rules)])
  }

  predicate IsDelete(operation: string) {
    Upper(Trim(operation)) in {"DELETE", "REMOVE", "DELETED"}
  }

  predicate IsUpsert(operation: string) {
    Upper(Trim(operation)) in {"UPSERT", "UPDATE", "CREATE", "CREATED", "UPDATED"}
  }

  /** Both checksum checks: an expected checksum must be that of the named config. */
  function CheckChecksum(s: Snapshot, change: PublishedChange, expected: string): Option<Error> {
    var code, id := Trim(change.applicationCode), Trim(change.configID);
    if expected == "" then None
    else if code !in s.apps || id !in s.apps[code].configs then Some(ConfigMissing)
    else
      var c := s.apps[code].configs[id];
      if Choose(c.contentChecksum, c.aggregateChecksum) != expected then Some(ChecksumMismatch) else None
  }

  function ExpectedCurrent(change: PublishedChange): string {
    if Blank(change.currentChecksum) && change.config.Some?
    then Choose(change.config.value.contentChecksum, change.config.value.aggregateChecksum)
    else Trim(change.currentChecksum)
  }

  /** One change of a delta on the working copy `s`, which already carries the target version. */
  function ApplyChange(decode: Decoder, s: Snapshot, fromVersion: int, change: PublishedChange)
      : Result<Snapshot, Error> {
    if change.fromVersion != 0 && change.fromVersion != fromVersion then Err(UnexpectedVersion)
    else if change.toVersion != 0 && change.toVersion != s.version then Err(UnexpectedVersion)
    else if IsDelete(change.operation) then
      match CheckChecksum(s, change, Trim(change.previousChecksum))
      case Some(e) => Err(e)
      case None => Ok(DeleteConfig(s, change.applicationCode, change.configID))
    else if IsUpsert(change.operation) then
      if change.config == None then Err(ConfigMissing)
      else
        var next :- ApplyConfig(decode, s, change.config.value);
        match CheckChecksum(next, change, ExpectedCurrent(change))
        case Some(e) => Err(e)
        case None => Ok(next)
    else Err(UnsupportedOperation)
  }

  /** The first `n` changes of a delta. */
  function ApplyFirst(decode: Decoder, s: Snapshot, fromVersion: int, changes: seq<PublishedChange>, n: nat)
      : Result<Snapshot, Error>
    requires n <= |changes|
  {
    if n == 0 then Ok(s)
    else
      var before :- ApplyFirst(decode, s, fromVersion, changes, n - 1);
      ApplyChange(decode, before, fromVersion, changes[n - 1])
  }

  /** `ApplyChanges`: a delta on a copy of the current snapshot. */
  function ApplyChanges(decode: Decoder, current: Snapshot, version: int, checksum: string, generatedAt: int,
                        changes: seq<PublishedChange>): Result<Snapshot, Error> {
    if version <= current.version then Err(VersionMustAdvance)
    else if Blank(checksum) then Err(ChecksumRequired)
    else ApplyFirst(decode, Snapshot(version, checksum, generatedAt, current.apps), current.version, changes, |changes|)
  }

  /** The first `n` configs of a full snapshot. */
  function BuildFirst(decode: Decoder, version: int, checksum: string, generatedAt: int,
                      configs: seq<PublishedConfig>, n: nat): Result<Snapshot, Error>
    requires n <= |configs|
  {
    if n == 0 then Ok(Snapshot(version, checksum, generatedAt, map[]))
    else
      var before :- BuildFirst(decode, version, checksum, generatedAt, configs, n - 1);
      ApplyConfig(decode, before, configs[n - 1])
  }

  /** `BuildSnapshot`: a full snapshot from its configs, in the order given. */
  function BuildSnapshot(decode: Decoder, version: int, checksum: string, generatedAt: int,
                         configs: seq<PublishedConfig>): Result<Snapshot, Error> {
    BuildFirst(decode, version, checksum, generatedAt, configs, |configs|)
  }
}
