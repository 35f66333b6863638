/** Who owns a key in a topology built from discovery, in terms of the instances as they were found. */
module TopologyOwner {
  import opened Common
  import opened Text
  import opened Topology
  import opened TopologyOrder
  import opened TopologyTies

  // ---------------------------------------------------------------- taking part

  /** The states that take part, in any case and with any white space around them; a blank one is UP. */
  function StateWord(state: string): string {
    if Blank(state) then "UP" else Upper(Trim(state))
  }

  /**
   An instance takes part exactly if its id and host are given, its port is positive, and its state is
   one of three; ids, host, zone and version lose outer white space, a zero priority and a weight that
   is not positive become 100, and nothing else changes.
   */
  lemma TakesPartExactly(i: Instance)
    ensures Normalized(i).Some? <==>
      !Blank(i.instanceID) && !Blank(i.host) && i.port > 0 && StateWord(i.state) in {"UP", "DRAINING", "MIGRATING"}
    ensures Normalized(i).Some? ==>
      var n := Normalized(i).value;
      && n.instanceID == Trim(i.instanceID) && n.host == Trim(i.host) && n.zone == Trim(i.zone)
      && n.version == Trim(i.version) && n.port == i.port && n.state == StateWord(i.state)
      && (i.priority == 0 ==> n.priority == 100) && (i.priority != 0 ==> n.priority == i.priority)
      && (i.weight > 0 ==> n.weight == i.weight) && (i.weight <= 0 ==> n.weight == 100)
      && n.ruleRevision == i.ruleRevision && n.metadata == i.metadata
  {
    hide Trim, Upper;
  }

  /** Every instance of a built topology was found, and took part. */
  lemma BuiltFromFound(found: seq<Instance>, k: nat) returns (i: nat)
    requires k < |Ordered(found)|
    ensures i < |found| && Normalized(found[i]) == Some(Ordered(found)[k]) && Ordered(found)[k].weight > 0
  {
    hide Normalized, StableSort, Participants;
    SortSorts(Participants(found));
    assert Ordered(found)[k] in multiset(Ordered(found));
    i := ParticipantAt(found, Ordered(found)[k]);
  }

  /** Every instance that takes part is in the built topology. */
  lemma {:induction false} FoundParticipates(found: seq<Instance>, i: nat)
    requires i < |found| && Normalized(found[i]).Some?
    ensures Normalized(found[i]).value in Participants(found)
  {
    hide Normalized;
    var last := |found| - 1;
    if i < last {
      FoundParticipates(found[..last], i);
    }
  }

  lemma FoundIsBuilt(found: seq<Instance>, i: nat)
    requires i < |found| && Normalized(found[i]).Some?
    ensures Normalized(found[i]).value in Ordered(found)
  {
    hide Normalized, StableSort, Participants;
    FoundParticipates(found, i);
    SortSorts(Participants(found));
    assert Normalized(found[i]).value in multiset(Participants(found));
  }

  // ---------------------------------------------------------------- order

  /** Instances are listed by priority, then the heavier first, then by id, then by host and port as text. */
  ghost predicate Listed(a: Instance, b: Instance) {
    && a.priority <= b.priority
    && (a.priority == b.priority ==>
          && a.weight >= b.weight
          && (a.weight == b.weight ==>
                && !Less(b.instanceID, a.instanceID)
                && (a.instanceID == b.instanceID ==>
                      !Less(b.host + ":" + FormatInt(b.port), a.host + ":" + FormatInt(a.port)))))
  }

  lemma NotBeforeIsListed(a: Instance, b: Instance)
    requires !Before(b, a)
    ensures Listed(a, b)
  {
    hide FormatInt;
    LessTrichotomy(a.instanceID, b.instanceID);
  }

  lemma BuiltIsListed(found: seq<Instance>, i: nat, j: nat)
    requires i < j < |Ordered(found)|
    ensures Listed(Ordered(found)[i], Ordered(found)[j])
  {
    hide StableSort, Participants, Before, Listed;
    SortSorts(Participants(found));
    NotBeforeIsListed(Ordered(found)[i], Ordered(found)[j]);
  }

  // ---------------------------------------------------------------- the text

  /** A line renders eight fields in this order. */
  lemma LineExactly(i: Instance)
    ensures LineOf(i) ==
      i.instanceID + "|" + (i.state + "|" + (FormatInt(i.priority) + "|" + (FormatInt(i.weight) + "|"
      + (i.zone + "|" + (i.host + "|" + (FormatInt(i.port) + "|" + (i.version + "\n")))))))
  {
    hide FormatInt;
    var f := Fields(i);
    assert f[7..] == [i.version] && Line(f[7..]) == i.version + "\n";
    Peel(f, 6);
    Peel(f, 5);
    Peel(f, 4);
    Peel(f, 3);
    Peel(f, 2);
    Peel(f, 1);
    Peel(f, 0);
    assert f[0..] == f;
    hide Line;
  }

  lemma Peel(f: seq<string>, k: nat)
    requires k + 1 < |f|
    ensures Line(f[k..]) == f[k] + "|" + Line(f[k + 1..])
  {
    assert f[k..][1..] == f[k + 1..];
  }

  /** The canonical text of a topology: a header, then a line for each instance. */
  lemma TextExactly(ns: string, svc: string, instances: seq<Instance>, i: Instance)
    ensures CanonicalText(ns, svc, []) == Trim(ns) + "/" + Trim(svc) + "\n"
    ensures CanonicalText(ns, svc, instances + [i]) == CanonicalText(ns, svc, instances) + LineOf(i)
  {
    hide Line, Fields, Trim;
    LinesAppend(instances, [i]);
    assert [i] == [i] + [];
    FirstLine(i, []);
    assert CanonicalText(ns, svc, instances) + LineOf(i) == Header(ns, svc) + "\n" + (Lines(instances) + LineOf(i));
  }

  /** A built topology names itself, its algorithm, and the digest of its text. */
  lemma BuildExactly(hashing: Hashing, ns: string, svc: string, found: seq<Instance>)
    ensures var t := Build(hashing, ns, svc, found);
            && t.namespace == Trim(ns) && t.service == Trim(svc) && t.hashAlgorithm == "rendezvous_hash_v1"
            && t.revision == hashing.digest(CanonicalText(ns, svc, t.instances))
  {
    hide CanonicalText, Ordered, Trim;
  }

  // ---------------------------------------------------------------- the owner

  /**
   In every built topology the owner of a key is an UP instance whose own weight gives the highest
   score, with the least id among those; there is one exactly if key and revision are given and some
   instance is UP.
   */
  lemma OwnerScoresHighest(hashing: Hashing, ns: string, svc: string, found: seq<Instance>, shardKey: string)
    ensures var t := Build(hashing, ns, svc, found);
            var owner := OwnerOf(hashing, t, shardKey);
            var score := (i: Instance) => hashing.score(Trim(t.revision), Trim(shardKey), i.instanceID, i.weight);
            && (owner.Some? <==>
                  && Trim(shardKey) != "" && t.revision != ""
                  && exists k :: 0 <= k < |t.instances| && t.instances[k].state == "UP")
            && (owner.Some? ==>
                  && owner.value in t.instances && owner.value.state == "UP"
                  && forall k :: 0 <= k < |t.instances| && t.instances[k].state == "UP" ==>
                       && score(t.instances[k]) <= score(owner.value)
                       && (score(t.instances[k]) == score(owner.value) ==>
                             !Less(t.instances[k].instanceID, owner.value.instanceID)))
  {
    hide OwnerOf, Ordered, CanonicalText, Trim;
    var t := Build(hashing, ns, svc, found);
    TrimTrims(shardKey);
    OwnerIsArgmax(hashing, t, shardKey);
    assert forall k :: 0 <= k < |t.instances| ==> Up(t.instances[k]) == (t.instances[k].state == "UP");
    forall k | 0 <= k < |t.instances|
      ensures t.instances[k].weight > 0
    {
      var i := BuiltFromFound(found, k);
    }
  }

  /** If the score grows with the weight and depends on nothing else, the heaviest UP instance owns every key. */
  lemma HeaviestOwns(hashing: Hashing, ns: string, svc: string, found: seq<Instance>, shardKey: string, k: nat)
    requires forall r, key, id, w, r', key', id', w' :: w < w' ==>
      hashing.score(r, key, id, w) < hashing.score(r', key', id', w')
    ensures var t := Build(hashing, ns, svc, found);
            var owner := OwnerOf(hashing, t, shardKey);
            owner.Some? && k < |t.instances| && t.instances[k].state == "UP" ==>
              owner.value.weight >= t.instances[k].weight
  {
    hide OwnerOf, Ordered, CanonicalText, Trim;
    OwnerScoresHighest(hashing, ns, svc, found, shardKey);
    var t := Build(hashing, ns, svc, found);
    if OwnerOf(hashing, t, shardKey).Some? && k < |t.instances| && t.instances[k].state == "UP" {
      var o, i := OwnerOf(hashing, t, shardKey).value, t.instances[k];
      var r, key := Trim(t.revision), Trim(shardKey);
      assert o.weight < i.weight ==>
        hashing.score(r, key, o.instanceID, o.weight) < hashing.score(r, key, i.instanceID, i.weight);
    }
  }
}
