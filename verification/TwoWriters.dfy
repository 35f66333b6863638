/** A run in which two servers grant from one shard key under one revision, although no digests collide. */
module TwoWriters {
  import opened Common
  import opened Text
  import opened Rules
  import opened Sample
  import Quota
  import opened Topology
  import TopologyManager
  import opened TopologyMovement
  import opened TopologyElectorate
  import opened Admission
  import opened Ownership
  import opened Cluster
  import opened ClusterHandler
  import opened ClusterSafety

  const FORGED_ID := "a" + TAIL + "b"

  /** The digest is the text itself, so there are no collisions; `a` wins where it takes part. */
  function TheWorld(): World {
    World(Ranking(("a", 100), ("a", 100)), TopologyManager.Config("", "", 1), (id: string) => Quota.Config(1, 1, 1, 1))
  }

  function Stores(): map<string, Snapshot> {
    map[FORGED_ID := SnapshotSample(1, "k"), "a" := SnapshotSample(1, "k")]
  }

  function TwoText(): string {
    CanonicalText("", "", TWO)
  }

  function Asked(target: string): Request {
    Request("", "a", "r", "q", 1, "1", "k", TwoText(), target)
  }

  function Read(listed: seq<Instance>): Readings {
    Readings(SnapshotSample(1, "k"), SnapshotSample(1, "k"), SnapshotSample(1, "k"),
             Lookup(0, Some(listed), 0), Lookup(0, None, 0), 0)
  }

  lemma TextNotBlank()
    ensures !Blank(TwoText())
  {
    assert Trim("") == "";
    hide Lines;
    assert TwoText()[0] == '/';
    NotBlank(TwoText());
  }

  lemma AskedValidates(lagRetry: int, target: string)
    ensures Validate(lagRetry, SnapshotSample(1, "k"), Asked(target)).decision == Unspecified
  {
    assert Trim("a") == "a" && Trim("r") == "r" && Trim("k") == "k" && Trim("1") == "1" && Trim("q") == "q";
    NamedNumbers();
    hide FormatInt;
    ParseFormatRoundTrip(1);
    ValidatePassesExactly(lagRetry, SnapshotSample(1, "k"), Asked(target));
  }

  lemma OneIsGranted(cfg: Quota.Config, key: string)
    requires cfg.Valid()
    ensures Quota.Step(cfg, Quota.INITIAL, Quota.Call(key, Quota.Limit(1, 1), 1, 0)).1.verdict == Quota.Allowed
  {
  }

  /** The topology that each server builds, and its owner. */
  lemma BuiltOwner(id: string, listed: seq<Instance>, shardKey: string)
    requires (id, listed) in {(FORGED_ID, FORGED), ("a", TWO)} && !Blank(shardKey)
    ensures var t := Build(TheWorld().hashing, "", "", listed);
            && t.revision == TwoText()
            && OwnerOf(TheWorld().hashing, t, shardKey).Some?
            && OwnerOf(TheWorld().hashing, t, shardKey).value.instanceID == id
  {
    var hashing := TheWorld().hashing;
    ForgedText();
    ForgedOrdered();
    NamedOrdered();
    TextNotBlank();
    BlankIsEmpty();
    hide CanonicalText, Ordered, OwnerOf, Blank;
    var t := Build(hashing, "", "", listed);
    assert Candidate(t.instances[0]) in Candidates(t);
    if id == "a" {
      hide Candidates;
      FavouriteOwns(hashing, t, shardKey, ("a", 100), 3.0);
    } else {
      OwnerIsCandidate(hashing, t, shardKey);
    }
  }

  lemma AskedKey(id: string)
    ensures ShardKeyOf(Asked(id)) == "a:r:q" && !Blank("a:r:q")
  {
    assert Trim("a") == "a" && Trim("r") == "r" && Trim("q") == "q" && Trim("a:r:q") == "a:r:q";
  }

  /** What discovery tells a server makes it the owner. */
  lemma Owns(id: string, listed: seq<Instance>)
    requires (id, listed) in {(FORGED_ID, FORGED), ("a", TWO)}
    ensures CheckOwner(TheWorld().hashing, id, Asked(id),
                       SiteOf(TheWorld(), id).Consult(TopologyManager.EMPTY_CACHE, Read(listed).route).1) == Proceed
  {
    hide Build, OwnerOf, ShardKeyOf, TwoText, Blank, Ranking;
    AskedKey(id);
    BuiltOwner(id, listed, "a:r:q");
    TextNotBlank();
    NotBlank(id);
    OnlyOwnerProceeds(TheWorld().hashing, id, Asked(id), Some(Build(TheWorld().hashing, "", "", listed)));
  }

  ghost predicate OneGrant(log: seq<Entry>, id: string) {
    |log| == 1 && log[0].server == id && log[0].req == Asked(id) && log[0].outcome.verdict == Quota.Allowed
  }

  function Fresh(): Node {
    Node(Quota.INITIAL, TopologyManager.EMPTY_CACHE, SnapshotSample(1, "k"), map[])
  }

  lemma LogsOne(id: string, listed: seq<Instance>)
    requires (id, listed) in {(FORGED_ID, FORGED), ("a", TWO)}
    ensures OneGrant(HandledLog(TheWorld(), Fresh(), id, Asked(id), Read(listed)), id)
  {
    var w := TheWorld();
    Owns(id, listed);
    AskedValidates(w.quota(id).lagRetry, id);
    assert LimitOf(SnapshotSample(1, "k"), Asked(id)) == Quota.Limit(1, 1);
    OneIsGranted(w.quota(id), CallOf(Asked(id), Quota.Limit(1, 1), 0).key);
    hide CheckOwner, Validate, Quota.Step, SnapshotSample, TopologyManager.Served;
  }

  /** The first request at a server that discovery makes the owner is granted there. */
  lemma GrantedAt(s: State, id: string, listed: seq<Instance>)
    requires (id, listed) in {(FORGED_ID, FORGED), ("a", TWO)} && id in s.nodes && s.now == 0 && s.nodes[id] == Fresh()
    ensures var t := Follow(TheWorld(), s, Script(TheWorld(), s, id, 0, Asked(id), Read(listed)));
            && t.nodes.Keys == s.nodes.Keys && t.now == 0
            && (forall other :: other in s.nodes && other != id ==> t.nodes[other] == s.nodes[other])
            && exists log :: OneGrant(log, id) && t.log == s.log + log
  {
    hide Follow, Script, HandledNode, HandledLog, TheWorld, SnapshotSample;
    LogsOne(id, listed);
    HandlerIsFollowed(TheWorld(), s, id, 0, Asked(id), Read(listed));
  }

  ghost function Actions(): seq<Action> {
    var w, s := TheWorld(), Initial(Stores(), 0);
    var first := Script(w, s, FORGED_ID, 0, Asked(FORGED_ID), Read(FORGED));
    var t := Follow(w, s, first);
    if "a" in t.nodes && t.now == 0 then first + Script(w, t, "a", 0, Asked("a"), Read(TWO)) else first
  }

  /** Two grants for one shard key under one revision on two servers: only an id with a stray separator is to blame. */
  lemma TwoWritersOneRevision()
    ensures var s := Reached(TheWorld(), Stores(), 0, Actions());
            && NoCollision(TheWorld(), s.lists)
            && |s.log| == 2 && s.log[0].server != s.log[1].server
            && s.log[0].outcome.verdict == Quota.Allowed && s.log[1].outcome.verdict == Quota.Allowed
            && ShardKeyOf(s.log[0].req) == ShardKeyOf(s.log[1].req)
            && s.log[0].req.topologyRevision == s.log[1].req.topologyRevision
  {
    var w, s := TheWorld(), Initial(Stores(), 0);
    hide Follow, Script, SnapshotSample, Ranking, Next, TwoText, ShardKeyOf;
    assert |FORGED_ID| > 1;
    AskedKey(FORGED_ID);
    AskedKey("a");
    var first := Script(w, s, FORGED_ID, 0, Asked(FORGED_ID), Read(FORGED));
    GrantedAt(s, FORGED_ID, FORGED);
    var t := Follow(w, s, first);
    GrantedAt(t, "a", TWO);
    assert Reached(w, Stores(), 0, []) == s;
    assert [] + Actions() == Actions();
    ReachedFollows(w, Stores(), 0, [], Actions());
    FollowAppend(w, s, first, Script(w, t, "a", 0, Asked("a"), Read(TWO)));
    DigestIsText();
  }

  lemma DigestIsText()
    ensures forall text :: TheWorld().hashing.digest(text) == text
  {
  }
}
