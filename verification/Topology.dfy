/**
 Building a topology from discovered instances: normalise, order, serialise, hash; and choosing
 the owner of a shard key by weighted rendezvous.
 */
module Topology {
  import opened Common
  import opened Text

  datatype Instance = Instance(
    instanceID: string, host: string, port: int, priority: int, weight: int, zone: string, version: string,
    ruleRevision: string, state: string, metadata: map<string, string>)

  datatype Topology = Topology(
    namespace: string, service: string, revision: string, hashAlgorithm: string, instances: seq<Instance>)

  /** The zero value a manager starts from; it has no revision. */
  const NO_TOPOLOGY := Topology("", "", "", "", [])

  const RENDEZVOUS_V1 := "rendezvous_hash_v1"

  /**
   The hash functions, as arbitrary deterministic functions: the truncated digest of a canonical
   text, and the score of (revision, shard key, instance id, weight).
   */
  datatype Hashing = Hashing(digest: string -> string, score: (string, string, string, int) -> real) {
    /** `weight / -ln(unit)` with a positive weight and a unit strictly between 0 and 1. */
    ghost predicate Positive() {
      forall revision, key, id, weight :: score(revision, key, id, weight) > 0.0
    }
  }

  // ---------------------------------------------------------------- normalising

  function NormalState(state: string): string {
    if Blank(state) then "UP" else Upper(Trim(state))
  }

  /** Trim and default the fields; drop instances without id, endpoint or a participating state. */
  function Normalized(i: Instance): (r: Option<Instance>)
    ensures r.Some? ==> r.value.instanceID != "" && r.value.weight > 0
  {
    var n := i.(
      instanceID := Trim(i.instanceID), host := Trim(i.host), zone := Trim(i.zone), version := Trim(i.version),
      state := NormalState(i.state), priority := if i.priority == 0 then 100 else i.priority,
      weight := if i.weight <= 0 then 100 else i.weight);
    if n.instanceID == "" || n.host == "" || n.port <= 0 then None
    else if n.state !in {"UP", "DRAINING", "MIGRATING"} then None
    else Some(n)
  }

  /** Normalising is done once and for all: what it returns is complete, takes part, and is its own normal form. */
  lemma NormalizedAgain(i: Instance)
    requires Normalized(i).Some?
    ensures var n := Normalized(i).value;
            && Normalized(n) == Some(n) && n.state in {"UP", "DRAINING", "MIGRATING"}
            && n.instanceID != "" && n.host != "" && n.port > 0 && n.weight > 0 && n.priority != 0
  {
    hide Trim, Upper;
    TrimTrims(i.instanceID);
    TrimTrims(i.host);
    TrimTrims(i.zone);
    TrimTrims(i.version);
    TakingPart(NormalState(i.state));
  }

  lemma TakingPart(state: string)
    requires state in {"UP", "DRAINING", "MIGRATING"}
    ensures NormalState(state) == state
  {
    UpperOfCapitals(state);
  }

  /** The instances that take part, normalised, in discovery order. */
  function Participants(found: seq<Instance>): seq<Instance> {
    if found == [] then []
    else
      var last := |found| - 1;
      match Normalized(found[last])
      case None => Participants(found[..last])
      case Some(n) => Participants(found[..last]) + [n]
  }

  // ---------------------------------------------------------------- ordering

  /** All that the comparator looks at. */
  datatype SortKey = SortKey(priority: int, weight: int, id: string, endpoint: string)

  function KeyOf(i: Instance): SortKey {
    SortKey(i.priority, i.weight, i.instanceID, i.host + ":" + FormatInt(i.port))
  }

  /** Priority ascending, weight descending, id ascending, then host and port as text. */
  predicate KeyBefore(a: SortKey, b: SortKey) {
    if a.priority != b.priority then a.priority < b.priority
    else if a.weight != b.weight then a.weight > b.weight
    else if a.id != b.id then Less(a.id, b.id)
    else Less(a.endpoint, b.endpoint)
  }

  predicate Before(a: Instance, b: Instance) {
    KeyBefore(KeyOf(a), KeyOf(b))
  }

  /** Where a stable sort puts `x` among sorted instances: right before the first one it precedes. */
  function Slot(sorted: seq<Instance>, x: Instance): (k: nat)
    ensures k <= |sorted|
    ensures k < |sorted| ==> Before(x, sorted[k])
    ensures forall i :: 0 <= i < k ==> !Before(x, sorted[i])
  {
    if sorted == [] then 0
    else if Before(x, sorted[0]) then 0
    else 1 + Slot(sorted[1..], x)
  }

  function Inserted(sorted: seq<Instance>, x: Instance): seq<Instance> {
    var k := Slot(sorted, x);
    sorted[..k] + [x] + sorted[k..]
  }

  /** `sort.SliceStable` under the comparator. */
  function StableSort(s: seq<Instance>): seq<Instance> {
    if s == [] then [] else Inserted(StableSort(s[..|s| - 1]), s[|s| - 1])
  }

  // ---------------------------------------------------------------- the canonical text

  /** The eight rendered fields of an instance. */
  function Fields(i: Instance): (f: seq<string>)
    ensures |f| == 8
  {
    [i.instanceID, i.state, FormatInt(i.priority), FormatInt(i.weight), i.zone, i.host, FormatInt(i.port), i.version]
  }

  /** Fields separated by '|' and ended by a newline. */
  function Line(fields: seq<string>): string
    requires fields != []
  {
    if |fields| == 1 then fields[0] + "\n" else fields[0] + "|" + Line(fields[1..])
  }

  function Lines(instances: seq<Instance>): string {
    if instances == [] then "" else Line(Fields(instances[0])) + Lines(instances[1..])
  }

  function Header(namespace: string, service: string): string {
    Trim(namespace) + "/" + Trim(service)
  }

  function CanonicalText(namespace: string, service: string, instances: seq<Instance>): string {
    Header(namespace, service) + "\n" + Lines(instances)
  }

  function Ordered(found: seq<Instance>): seq<Instance> {
    StableSort(Participants(found))
  }

  /** `Build`. */
  function Build(hashing: Hashing, namespace: string, service: string, found: seq<Instance>): Topology {
    Topology(Trim(namespace), Trim(service), hashing.digest(CanonicalText(namespace, service, Ordered(found))),
             RENDEZVOUS_V1, Ordered(found))
  }

  // ---------------------------------------------------------------- ownership

  function ShardKey(applicationCode: string, ruleID: string, quotaKey: string): string {
    Trim(applicationCode) + ":" + Trim(ruleID) + ":" + Trim(quotaKey)
  }

  /** The weight that counts. */
  function Weight(i: Instance): (w: int)
    ensures w > 0 && (i.weight > 0 ==> w == i.weight)
  {
    if i.weight <= 0 then 100 else i.weight
  }

  function Score(hashing: Hashing, revision: string, key: string, i: Instance): real {
    hashing.score(Trim(revision), Trim(key), i.instanceID, Weight(i))
  }

  predicate Up(i: Instance) {
    i.state == "UP"
  }

  /** The better of the best so far and the next instance; ties go to the smaller id. */
  function Better(hashing: Hashing, revision: string, key: string, best: Option<Instance>, i: Instance)
      : Option<Instance> {
    if !Up(i) then best
    else if best == None then Some(i)
    else
      var s, t := Score(hashing, revision, key, i), Score(hashing, revision, key, best.value);
      if s > t || (s == t && Less(i.instanceID, best.value.instanceID)) then Some(i) else best
  }

  function BestOf(hashing: Hashing, revision: string, key: string, instances: seq<Instance>, n: nat): Option<Instance>
    requires n <= |instances|
  {
    if n == 0 then None
    else Better(hashing, revision, key, BestOf(hashing, revision, key, instances, n - 1), instances[n - 1])
  }

  /** `Topology.OwnerOf`. */
  function OwnerOf(hashing: Hashing, t: Topology, shardKey: string): Option<Instance> {
    if Blank(shardKey) || t.revision == "" then None
    else BestOf(hashing, t.revision, Trim(shardKey), t.instances, |t.instances|)
  }

  /** The owner's selection as a loop over a running best score, as the service runs it. */
  method SelectOwner(hashing: Hashing, t: Topology, shardKey: string) returns (owner: Option<Instance>)
    requires hashing.Positive()
    ensures owner == OwnerOf(hashing, t, shardKey)
  {
    var key := Trim(shardKey);
    if key == "" || t.revision == "" {
      return None;
    }
    owner := None;
    var bestScore := -1.0;
    for n := 0 to |t.instances|
      invariant owner == BestOf(hashing, t.revision, key, t.instances, n)
      invariant bestScore == if owner == None then -1.0 else Score(hashing, t.revision, key, owner.value)
    {
      var i := t.instances[n];
      if i.state == "UP" {
        var score := Score(hashing, t.revision, key, i);
        if score > bestScore || (score == bestScore && owner.Some? && Less(i.instanceID, owner.value.instanceID)) {
          bestScore := score;
          owner := Some(i);
        }
      }
    }
    if bestScore < 0.0 {
      return None;
    }
  }

  /** `revision`: the text is written line by line into one buffer, then hashed. */
  method Revision(hashing: Hashing, namespace: string, service: string, instances: seq<Instance>)
      returns (revision: string)
    ensures revision == hashing.digest(CanonicalText(namespace, service, instances))
  {
    hide Line, Fields, Header;
    var written := "";
    for n := 0 to |instances|
      invariant written + Lines(instances[n..]) == Lines(instances)
    {
      var line := Line(Fields(instances[n]));
      assert instances[n..][0] == instances[n] && instances[n..][1..] == instances[n + 1..];
      assert written + (line + Lines(instances[n + 1..])) == (written + line) + Lines(instances[n + 1..]);
      written := written + line;
    }
    assert instances[|instances|..] == [] && written + "" == written;
    revision := hashing.digest(Header(namespace, service) + "\n" + written);
  }

  /** `Build`: filtering and normalising into a buffer, then sorting and hashing. */
  method BuildTopology(hashing: Hashing, namespace: string, service: string, found: seq<Instance>) returns (t: Topology)
    ensures t == Build(hashing, namespace, service, found)
  {
    hide Normalized, StableSort, CanonicalText;
    var filtered: seq<Instance> := [];
    for n := 0 to |found|
      invariant filtered == Participants(found[..n])
    {
      var normalized := Normalized(found[n]);
      assert found[..n + 1][..n] == found[..n];
      if normalized.Some? {
        filtered := filtered + [normalized.value];
      }
    }
    assert found[..|found|] == found;
    var sorted := StableSort(filtered);
    var revision := Revision(hashing, namespace, service, sorted);
    t := Topology(Trim(namespace), Trim(service), revision, RENDEZVOUS_V1, sorted);
  }

  // ---------------------------------------------------------------- ownership is an argmax

  /** `o` is UP, nothing UP scores higher, and nothing UP with the same score has a smaller id. */
  ghost predicate Argmax(hashing: Hashing, revision: string, key: string, instances: seq<Instance>, n: nat, o: Instance)
    requires n <= |instances|
  {
    && o in instances[..n] && Up(o)
    && forall i :: 0 <= i < n && Up(instances[i]) ==>
         var s, best := Score(hashing, revision, key, instances[i]), Score(hashing, revision, key, o);
         s < best || (s == best && !Less(instances[i].instanceID, o.instanceID))
  }

  lemma {:induction false} BestIsArgmax(hashing: Hashing, revision: string, key: string, instances: seq<Instance>,
                                        n: nat)
    requires n <= |instances|
    ensures var best := BestOf(hashing, revision, key, instances, n);
            && (best.Some? <==> exists i :: 0 <= i < n && Up(instances[i]))
            && (best.Some? ==> Argmax(hashing, revision, key, instances, n, best.value))
  {
    if n > 0 {
      BestIsArgmax(hashing, revision, key, instances, n - 1);
      var before, i := BestOf(hashing, revision, key, instances, n - 1), instances[n - 1];
      assert instances[..n] == instances[..n - 1] + [i];
      LessTrichotomy(i.instanceID, i.instanceID);
      if before.Some? {
        LessTrichotomy(i.instanceID, before.value.instanceID);
        forall j | 0 <= j < n - 1 && Less(instances[j].instanceID, i.instanceID) &&
          Less(i.instanceID, before.value.instanceID)
          ensures Less(instances[j].instanceID, before.value.instanceID)
        {
          LessTransitive(instances[j].instanceID, i.instanceID, before.value.instanceID);
        }
      }
    }
  }

  /** There is an owner exactly when key and revision are given and some instance is UP; it is an argmax. */
  lemma OwnerIsArgmax(hashing: Hashing, t: Topology, shardKey: string)
    ensures var owner := OwnerOf(hashing, t, shardKey);
            && (owner.Some? <==>
                  !Blank(shardKey) && t.revision != "" && exists i :: 0 <= i < |t.instances| && Up(t.instances[i]))
            && (owner.Some? ==>
                  Argmax(hashing, t.revision, Trim(shardKey), t.instances, |t.instances|, owner.value))
  {
    BestIsArgmax(hashing, t.revision, Trim(shardKey), t.instances, |t.instances|);
  }

  /** The UP instances as the owner's selection sees them. */
  function Candidate(i: Instance): (string, int) {
    (i.instanceID, Weight(i))
  }

  ghost function Candidates(t: Topology): set<(string, int)> {
    set i | 0 <= i < |t.instances| && Up(t.instances[i]) :: Candidate(t.instances[i])
  }

  lemma CandidateMoves(t: Topology, u: Topology, i: nat) returns (j: nat)
    requires Candidates(t) <= Candidates(u) && i < |t.instances| && Up(t.instances[i])
    ensures j < |u.instances| && Up(u.instances[j]) && Candidate(u.instances[j]) == Candidate(t.instances[i])
  {
    assert Candidate(t.instances[i]) in Candidates(t);
    j :| 0 <= j < |u.instances| && Up(u.instances[j]) && Candidate(u.instances[j]) == Candidate(t.instances[i]);
  }

  /** No candidate beats an argmax. */
  lemma NoneBeatsArgmax(hashing: Hashing, revision: string, key: string, u: Topology, a: Instance, b: Instance)
    requires Candidate(a) in Candidates(u) && Argmax(hashing, revision, key, u.instances, |u.instances|, b)
    ensures var s, best := Score(hashing, revision, key, a), Score(hashing, revision, key, b);
            s < best || (s == best && !Less(a.instanceID, b.instanceID))
  {
    var i :| 0 <= i < |u.instances| && Up(u.instances[i]) && Candidate(u.instances[i]) == Candidate(a);
    assert Score(hashing, revision, key, u.instances[i]) == Score(hashing, revision, key, a);
  }

  lemma ArgmaxIsCandidate(hashing: Hashing, revision: string, key: string, t: Topology, a: Instance)
    requires Argmax(hashing, revision, key, t.instances, |t.instances|, a)
    ensures Candidate(a) in Candidates(t)
  {
    var i :| 0 <= i < |t.instances| && t.instances[i] == a;
  }

  /** The owner's id depends only on the revision and the set of UP (id, weight) pairs. */
  lemma OwnerFromCandidates(hashing: Hashing, t: Topology, u: Topology, shardKey: string)
    requires t.revision == u.revision && Candidates(t) == Candidates(u)
    ensures var a, b := OwnerOf(hashing, t, shardKey), OwnerOf(hashing, u, shardKey);
            && a.Some? == b.Some?
            && (a.Some? ==> a.value.instanceID == b.value.instanceID)
  {
    hide OwnerOf, Argmax, Candidates, Score;
    OwnerIsArgmax(hashing, t, shardKey);
    OwnerIsArgmax(hashing, u, shardKey);
    var a, b := OwnerOf(hashing, t, shardKey), OwnerOf(hashing, u, shardKey);
    if i :| 0 <= i < |t.instances| && Up(t.instances[i]) {
      var _ := CandidateMoves(t, u, i);
    }
    if i :| 0 <= i < |u.instances| && Up(u.instances[i]) {
      var _ := CandidateMoves(u, t, i);
    }
    if a.Some? && b.Some? {
      ArgmaxIsCandidate(hashing, t.revision, Trim(shardKey), t, a.value);
      ArgmaxIsCandidate(hashing, u.revision, Trim(shardKey), u, b.value);
      NoneBeatsArgmax(hashing, u.revision, Trim(shardKey), u, a.value, b.value);
      NoneBeatsArgmax(hashing, t.revision, Trim(shardKey), t, b.value, a.value);
      LessTrichotomy(a.value.instanceID, b.value.instanceID);
    }
  }
}
