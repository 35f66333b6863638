/** When a delta succeeds, in terms of the configs alone; and that the order of its changes matters. */
module RuleDelta {
  import opened Common
  import opened Text
  import opened Rules
  import opened RuleIndex
  import opened RuleRebuild
  import opened Sample

  /** Another config of the application declares one of the config's rules. */
  ghost predicate DeclaredByOther(decode: Decoder, m: ConfigMap, c: Config) {
    exists other, rule :: other in At(m, c.applicationCode) && other != c.configID
      && rule in Own(decode, At(m, c.applicationCode)[other]) && rule in Own(decode, c)
  }

  lemma AppClashes(decode: Decoder, code: string, app: Application, bound: int, c: Config)
    requires Consistent(decode, code, app, bound)
    ensures Clashes(decode, app, c) <==>
      exists other, rule :: other in app.configs && other != c.configID
        && rule in Own(decode, app.configs[other]) && rule in Own(decode, c)
  {
    hide Own, GoodConfig, Unstamped;
    if rule :| rule in Own(decode, c) && rule in app.rules && app.rules[rule].configID != c.configID {
      assert app.rules[rule].configID in app.configs;
    }
  }

  lemma ClashesExactly(decode: Decoder, s: Snapshot, c: Config)
    requires WellFormed(decode, s)
    ensures Clashes(decode, AppFor(s, c.applicationCode), c) <==> DeclaredByOther(decode, ConfigsOf(s), c)
  {
    hide Own, Consistent, Clashes;
    var code := c.applicationCode;
    if code in s.apps {
      assert At(ConfigsOf(s), code) == s.apps[code].configs;
      AppClashes(decode, code, s.apps[code], s.version, c);
      AppForKnown(decode, s, c);
    } else {
      assert At(ConfigsOf(s), code) == map[];
      NoClash(decode, AppFor(s, code), c);
    }
  }

  lemma AppForKnown(decode: Decoder, s: Snapshot, c: Config)
    requires WellFormed(decode, s) && c.applicationCode in s.apps
    ensures Clashes(decode, AppFor(s, c.applicationCode), c) <==> Clashes(decode, s.apps[c.applicationCode], c)
  {
    hide Own;
    var code := c.applicationCode;
    assert Consistent(decode, code, s.apps[code], s.version);
    assert AppFor(s, code).rules == s.apps[code].rules;
  }

  lemma NoClash(decode: Decoder, app: Application, c: Config)
    requires app.rules == map[]
    ensures !Clashes(decode, app, c)
  {
  }

  /** The checksum checks, on the config map. */
  predicate ChecksumFits(m: ConfigMap, change: PublishedChange, expected: string) {
    var code, id := Trim(change.applicationCode), Trim(change.configID);
    expected == "" ||
    (id in At(m, code) && Choose(At(m, code)[id].contentChecksum, At(m, code)[id].aggregateChecksum) == expected)
  }

  /** A change fits where the configs are `m`. */
  ghost predicate Fits(decode: Decoder, m: ConfigMap, fromVersion: int, toVersion: int, change: PublishedChange) {
    && change.fromVersion in {0, fromVersion} && change.toVersion in {0, toVersion}
    && var word := Upper(Trim(change.operation));
       if word in {"DELETE", "DELETED", "REMOVE"} then ChecksumFits(m, change, Trim(change.previousChecksum))
       else
         && word in {"CREATE", "CREATED", "UPDATE", "UPDATED", "UPSERT"} && change.config.Some?
         && var p := change.config.value;
            UpsertFits(decode, m, Stored(p)) && ChecksumFits(Put(m, Stored(p)), change, Wanted(change, p))
  }

  /** The checksum that an upsert must leave: the one the change names, else that of its config. */
  function Wanted(change: PublishedChange, p: PublishedConfig): string {
    if !Blank(change.currentChecksum) then Trim(change.currentChecksum)
    else if !Blank(p.contentChecksum) then Trim(p.contentChecksum)
    else Trim(p.aggregateChecksum)
  }

  ghost predicate UpsertFits(decode: Decoder, m: ConfigMap, c: Config) {
    c.applicationCode != "" && c.configID != "" && ParseRules(decode, c, 0).Ok? && !DeclaredByOther(decode, m, c)
  }

  lemma ChecksumExactly(s: Snapshot, change: PublishedChange, expected: string)
    ensures CheckChecksum(s, change, expected) == None <==> ChecksumFits(ConfigsOf(s), change, expected)
  {
    hide Trim, Choose;
  }

  /** One change succeeds exactly where it fits. */
  lemma ChangeFitsExactly(decode: Decoder, s: Snapshot, fromVersion: int, change: PublishedChange)
    requires WellFormed(decode, s)
    ensures ApplyChange(decode, s, fromVersion, change).Ok? <==>
      Fits(decode, ConfigsOf(s), fromVersion, s.version, change)
  {
    hide WellFormed, ConfigsOf, Put, Stored, ApplyConfig, DeleteConfig, CheckChecksum, ChecksumFits, DeclaredByOther,
      Clashes, ParseRules, Trim, Upper, AppFor;
    if IsDelete(change.operation) {
      ChecksumExactly(s, change, Trim(change.previousChecksum));
    } else if change.config.Some? {
      var p := change.config.value;
      UpsertSnapshot(decode, s, p);
      ClashesExactly(decode, s, Stored(p));
      if ApplyConfig(decode, s, p).Ok? {
        ChecksumExactly(ApplyConfig(decode, s, p).value, change, ExpectedCurrent(change));
        assert ExpectedCurrent(change) == Wanted(change, p);
      }
    }
  }

  lemma {:induction false} ChangesFitExactly(decode: Decoder, s: Snapshot, fromVersion: int,
                                             changes: seq<PublishedChange>, n: nat)
    requires n <= |changes| && WellFormed(decode, s)
    ensures ApplyFirst(decode, s, fromVersion, changes, n).Ok? <==>
      forall i :: 0 <= i < n ==> Fits(decode, EditFirst(ConfigsOf(s), changes, i), fromVersion, s.version, changes[i])
  {
    hide WellFormed, ApplyChange, ConfigsOf, EditFirst, Fits;
    if n > 0 {
      ChangesFitExactly(decode, s, fromVersion, changes, n - 1);
      if ApplyFirst(decode, s, fromVersion, changes, n - 1).Ok? {
        ChangesEdit(decode, s, fromVersion, changes, n - 1);
        ChangeFitsExactly(decode, ApplyFirst(decode, s, fromVersion, changes, n - 1).value, fromVersion,
          changes[n - 1]);
      }
    }
  }

  /**
   A delta succeeds if and only if its version advances, its checksum is given, and every change fits
   the configs that the changes before it leave: for an upsert, that its content parses and no other
   config there declares one of its rules.
   */
  lemma DeltaSucceedsExactly(decode: Decoder, current: Snapshot, version: int, checksum: string, generatedAt: int,
                             changes: seq<PublishedChange>)
    requires WellFormed(decode, current)
    ensures ApplyChanges(decode, current, version, checksum, generatedAt, changes).Ok? <==>
      && version > current.version && !Blank(checksum)
      && forall n :: 0 <= n < |changes| ==>
           Fits(decode, EditFirst(ConfigsOf(current), changes, n), current.version, version, changes[n])
  {
    hide WellFormed, ApplyFirst, ConfigsOf, EditFirst, Fits, Blank;
    if version > current.version {
      RestampKeeps(decode, current, version, checksum, generatedAt);
      ChangesFitExactly(decode, Snapshot(version, checksum, generatedAt, current.apps), current.version, changes,
        |changes|);
    }
  }

  // ---------------------------------------------------------------- the order of changes

  function Removal(): PublishedChange {
    PublishedChange("DELETE", 0, 0, "a", "c", "", "", None)
  }

  function Arrival(): PublishedChange {
    PublishedChange("UPSERT", 0, 0, "a", "d", "", "", Some(PublishedAs("d", "k")))
  }

  /** The configs once `c` has made way for `d`. */
  function Moved(): ConfigMap {
    map["a" := map["d" := StoredAs("d", "k")]]
  }

  lemma SampleOwns(id: string)
    ensures Own(Decode(), StoredAs(id, "k")).Keys == {"r"}
  {
    SampleParses(id, 0, "k");
    hide ParseRules;
    assert Overlay([RuleAs(id, 0, "k")], 0) == map[];
    assert Overlay([RuleAs(id, 0, "k")], 1) == map["r" := RuleAs(id, 0, "k")];
  }

  lemma Operations()
    ensures Upper(Trim(Removal().operation)) == "DELETE" && Upper(Trim(Arrival().operation)) == "UPSERT"
    ensures Stored(PublishedAs("d", "k")) == StoredAs("d", "k") && Wanted(Arrival(), PublishedAs("d", "k")) == "k"
  {
    UpperOfCapitals("DELETE");
    UpperOfCapitals("UPSERT");
    assert Trim("DELETE") == "DELETE" && Trim("UPSERT") == "UPSERT";
    assert Trim("k") == "k" && Trim("d") == "d" && Trim("") == "";
    SampleStored("d", "k");
  }

  lemma SampleConfigs()
    ensures ConfigsOf(SnapshotSample(1, "k")) == map["a" := map["c" := StoredAs("c", "k")]]
  {
  }

  /** `d` declares the rule of `c`. */
  lemma Declares(m: ConfigMap)
    requires m in {map[], map["a" := map["c" := StoredAs("c", "k")]]}
    ensures DeclaredByOther(Decode(), m, StoredAs("d", "k")) <==> m != map[]
  {
    SampleOwns("c");
    SampleOwns("d");
    hide Own, Decode;
    if m != map[] {
      assert "c" in At(m, "a") && "r" in Own(Decode(), At(m, "a")["c"]) && "r" in Own(Decode(), StoredAs("d", "k"));
    }
  }

  /** `d` fits once `c` is gone, and not before. */
  lemma ArrivalFits(m: ConfigMap)
    requires m in {map[], map["a" := map["c" := StoredAs("c", "k")]]}
    ensures Fits(Decode(), m, 1, 2, Arrival()) <==> m == map[]
  {
    Operations();
    Declares(m);
    SampleParses("d", 0, "k");
    assert Trim("a") == "a" && Trim("d") == "d" && Trim("k") == "k";
    hide DeclaredByOther, ParseRules, Stored, Upper, Trim, Wanted, Decode;
  }

  lemma RemovalFits(m: ConfigMap)
    ensures Fits(Decode(), m, 1, 2, Removal())
  {
    Operations();
    assert Trim("") == "";
    hide Upper;
  }

  lemma BothOrders()
    ensures var m := map["a" := map["c" := StoredAs("c", "k")]];
            && EditFirst(m, [Removal(), Arrival()], 0) == m && EditFirst(m, [Removal(), Arrival()], 1) == map[]
            && EditFirst(m, [Removal(), Arrival()], 2) == Moved()
            && EditFirst(m, [Arrival(), Removal()], 0) == m && EditFirst(m, [Arrival(), Removal()], 2) == Moved()
  {
    Operations();
    hide Upper, Trim, Stored;
    var m := map["a" := map["c" := StoredAs("c", "k")]];
    assert EditFirst(m, [Removal(), Arrival()], 1) == Drop(m, "a", "c") == map[];
    assert EditFirst(m, [Removal(), Arrival()], 2) == Put(map[], StoredAs("d", "k"));
    var both := Put(m, StoredAs("d", "k"));
    assert EditFirst(m, [Arrival(), Removal()], 1) == both;
    assert At(both, "a") - {"c"} == map["d" := StoredAs("d", "k")];
    assert Drop(both, "a", "c") == both["a" := map["d" := StoredAs("d", "k")]] == Moved() by {
      assert map["d" := StoredAs("d", "k")] != map[] by { assert "d" in map["d" := StoredAs("d", "k")]; }
      assert both.Keys == {"a"};
    }
    assert EditFirst(m, [Arrival(), Removal()], 2) == Drop(both, "a", "c");
  }

  /**
   A rule moves from one config to another: the delta succeeds if the old config goes first and is
   refused if the new one comes first, although both lists of changes mean the same configs and these
   build.
   */
  lemma OrderMatters()
    ensures var s := SnapshotSample(1, "k");
            && WellFormed(Decode(), s)
            && EditFirst(ConfigsOf(s), [Removal(), Arrival()], 2) == EditFirst(ConfigsOf(s), [Arrival(), Removal()], 2)
            && ApplyChanges(Decode(), s, 2, "t", 0, [Removal(), Arrival()]).Ok?
            && ApplyChanges(Decode(), s, 2, "t", 0, [Arrival(), Removal()]).Err?
            && BuildSnapshot(Decode(), 2, "t", 0, [PublishedAs("d", "k")]).Ok?
  {
    OldFirst();
    NewFirst();
    BothOrders();
    SampleConfigs();
    hide WellFormed, ConfigsOf, EditFirst, ApplyChanges, BuildSnapshot, Decode, Removal, Arrival, Moved, SnapshotSample;
    MovedLists();
    DeltaAgreesWithRebuild(Decode(), SnapshotSample(1, "k"), 2, "t", 0, [Removal(), Arrival()],
      [PublishedAs("d", "k")]);
  }

  lemma OldFirst()
    ensures WellFormed(Decode(), SnapshotSample(1, "k"))
    ensures ApplyChanges(Decode(), SnapshotSample(1, "k"), 2, "t", 0, [Removal(), Arrival()]).Ok?
  {
    assert Trim("k") == "k" && Trim("t") == "t";
    SampleIsBuilt(1, "k");
    SampleConfigs();
    BothOrders();
    RemovalFits(map["a" := map["c" := StoredAs("c", "k")]]);
    ArrivalFits(map[]);
    hide WellFormed, ConfigsOf, EditFirst, Fits, ApplyChanges, Decode, Removal, Arrival;
    DeltaSucceedsExactly(Decode(), SnapshotSample(1, "k"), 2, "t", 0, [Removal(), Arrival()]);
  }

  lemma NewFirst()
    ensures ApplyChanges(Decode(), SnapshotSample(1, "k"), 2, "t", 0, [Arrival(), Removal()]).Err?
  {
    assert Trim("k") == "k";
    SampleIsBuilt(1, "k");
    SampleConfigs();
    BothOrders();
    ArrivalFits(map["a" := map["c" := StoredAs("c", "k")]]);
    hide WellFormed, ConfigsOf, EditFirst, Fits, ApplyChanges, Decode, Removal, Arrival;
    DeltaSucceedsExactly(Decode(), SnapshotSample(1, "k"), 2, "t", 0, [Arrival(), Removal()]);
    assert !Fits(Decode(), map["a" := map["c" := StoredAs("c", "k")]], 1, 2, [Arrival(), Removal()][0]);
  }

  lemma MovedLists()
    ensures Lists([PublishedAs("d", "k")], Moved())
  {
    Operations();
    hide Stored;
    var configs := [PublishedAs("d", "k")];
    assert Stored(configs[0]) == StoredAs("d", "k");
    forall code, id | id in At(Moved(), code)
      ensures exists i ::
        0 <= i < |configs| && Stored(configs[i]).applicationCode == code && Stored(configs[i]).configID == id
    {
      assert code == "a" && id == "d";
    }
  }
}
