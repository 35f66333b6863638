/** One published config with one rule: the concrete snapshot that counterexamples are built on. */
module Sample {
  import opened Common
  import opened Text
  import opened Rules
  import opened RuleIndex

  const ITEM := Item("r", "", "", "", 1, 1, 0, [], "", map[], "")

  /** Every content holds the one rule "r" with a quota of one per second. */
  function Decode(): Decoder {
    content => Some(Document("", [Some(ITEM)]))
  }

  function PublishedAs(id: string, checksum: string): PublishedConfig {
    PublishedConfig("a", id, "", "", "{}", checksum, "", 1)
  }

  function StoredAs(id: string, checksum: string): Config {
    Config("a", id, "", "", "{}", checksum, "", 1)
  }

  function RuleAs(id: string, version: int, checksum: string): Rule {
    Rule("a", id, "r", "", version, checksum, "", "fixed_window", 1, 1, 0, [], "fail_closed", map[], "")
  }

  function Published(checksum: string): PublishedConfig {
    PublishedAs("c", checksum)
  }

  function StoredSample(checksum: string): Config {
    StoredAs("c", checksum)
  }

  function RuleSample(version: int, checksum: string): Rule {
    RuleAs("c", version, checksum)
  }

  function SnapshotSample(version: int, checksum: string): Snapshot {
    Snapshot(version, "s", 0,
      map["a" := Application("a", version, "s", map["c" := StoredSample(checksum)],
        map["r" := RuleSample(version, checksum)])])
  }

  lemma SampleStored(id: string, checksum: string)
    requires Trim(checksum) == checksum && Trim(id) == id
    ensures Stored(PublishedAs(id, checksum)) == StoredAs(id, checksum)
  {
    assert Trim("a") == "a" && Trim("{}") == "{}" && Trim("") == "";
  }

  lemma SampleParses(id: string, version: int, checksum: string)
    ensures ParseRules(Decode(), StoredAs(id, checksum), version) == Ok([RuleAs(id, version, checksum)])
  {
    var doc := Document("", [Some(ITEM)]);
    assert Trim("r") == "r" && Trim("") == "";
    assert Trim("fixed_window") == "fixed_window" && Trim("fail_closed") == "fail_closed";
    assert RuleFrom(StoredAs(id, checksum), doc, version, 0) == Ok(RuleAs(id, version, checksum));
    assert RulesFrom(StoredAs(id, checksum), doc, version, 0) == Ok([]);
    assert RulesFrom(StoredAs(id, checksum), doc, version, 1) == Ok([RuleAs(id, version, checksum)]) by {
      assert [] + [RuleAs(id, version, checksum)] == [RuleAs(id, version, checksum)];
    }
    assert Decode()(StoredAs(id, checksum).content) == Some(doc) && |doc.items| == 1;
  }

  lemma SampleApplied(version: int, checksum: string)
    ensures ApplyStored(Decode(), Snapshot(version, "s", 0, map[]), StoredSample(checksum)) ==
      Ok(SnapshotSample(version, checksum))
  {
    hide ParseRules, Decode;
    SampleParses("c", version, checksum);
    assert Indexed(map[], [RuleSample(version, checksum)], 0, "c") == Ok(map[]);
  }

  /** The sample is what a full build of the one config yields. */
  lemma SampleIsBuilt(version: int, checksum: string)
    requires Trim(checksum) == checksum
    ensures BuildSnapshot(Decode(), version, "s", 0, [Published(checksum)]) == Ok(SnapshotSample(version, checksum))
    ensures WellFormed(Decode(), SnapshotSample(version, checksum))
  {
    assert Trim("c") == "c";
    SampleStored("c", checksum);
    SampleApplied(version, checksum);
    hide Stored, ApplyStored, WellFormed, SnapshotSample, Decode, ConfigsOf, PutFirst;
    assert BuildFirst(Decode(), version, "s", 0, [Published(checksum)], 0) == Ok(Snapshot(version, "s", 0, map[]));
    BuildPuts(Decode(), version, "s", 0, [Published(checksum)], 1);
  }
}
