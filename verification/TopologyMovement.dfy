/** How keys move between instances when the topology changes. */
module TopologyMovement {
  import opened Common
  import opened Text
  import opened Topology
  import opened TopologyOrder
  import opened TopologyStable
  import opened TopologyText
  import opened TopologyTies

  /** The key stays with its owner or goes to a newcomer. */
  ghost predicate StaysOrJoins(hashing: Hashing, t: Topology, u: Topology, shardKey: string) {
    var a, b := OwnerOf(hashing, t, shardKey), OwnerOf(hashing, u, shardKey);
    a.Some? && b.Some? ==> b.value.instanceID == a.value.instanceID || Candidate(b.value) !in Candidates(t)
  }

  lemma SameRevisionStays(hashing: Hashing, t: Topology, u: Topology, shardKey: string)
    requires Candidates(t) <= Candidates(u) && Trim(t.revision) == Trim(u.revision)
    ensures StaysOrJoins(hashing, t, u, shardKey)
  {
    hide OwnerOf, Argmax, Candidates, Candidate, Trim;
    var key := Trim(shardKey);
    OwnerIsArgmax(hashing, t, shardKey);
    OwnerIsArgmax(hashing, u, shardKey);
    if OwnerOf(hashing, t, shardKey).Some? && OwnerOf(hashing, u, shardKey).Some? {
      var a, b := OwnerOf(hashing, t, shardKey).value, OwnerOf(hashing, u, shardKey).value;
      ArgmaxIsCandidate(hashing, t.revision, key, t, a);
      if Candidate(b) in Candidates(t) {
        NoneBeatsArgmax(hashing, u.revision, key, u, a, b);
        NoneBeatsArgmax(hashing, t.revision, key, t, b, a);
        LessTrichotomy(a.instanceID, b.instanceID);
      }
    }
  }

  /** The instances of `t` under the revision of `u`. */
  function Rehashed(t: Topology, u: Topology): Topology {
    t.(revision := u.revision)
  }

  /**
   Instances join and none leaves: a key goes to a newcomer, or to the instance that the old ones
   alone would choose under the new revision.
   */
  lemma MovesByRehashing(hashing: Hashing, t: Topology, u: Topology, shardKey: string)
    requires Candidates(t) <= Candidates(u)
    ensures StaysOrJoins(hashing, Rehashed(t, u), u, shardKey)
  {
    assert Candidates(Rehashed(t, u)) == Candidates(t);
    SameRevisionStays(hashing, Rehashed(t, u), u, shardKey);
  }

  // ---------------------------------------------------------------- the exact condition

  /** Scores that put `a` on top under one revision and `b` under all others. */
  function Favouring(revision: string, a: (string, int), b: (string, int)): Hashing {
    Hashing(text => text, (r: string, key: string, id: string, weight: int) =>
      if (id, weight) == (if r == revision then a else b) then 3.0 else 1.0)
  }

  /** A candidate that scores the top and alone does so owns the key. */
  lemma FavouriteOwns(hashing: Hashing, t: Topology, shardKey: string, favourite: (string, int), top: real)
    requires favourite in Candidates(t) && !Blank(shardKey) && t.revision != ""
    requires forall i: Instance :: Candidate(i) == favourite ==> Score(hashing, t.revision, Trim(shardKey), i) == top
    requires forall i: Instance :: Candidate(i) in Candidates(t) && Candidate(i) != favourite ==>
      Score(hashing, t.revision, Trim(shardKey), i) < top
    ensures OwnerOf(hashing, t, shardKey).Some? && Candidate(OwnerOf(hashing, t, shardKey).value) == favourite
  {
    hide OwnerOf, Score;
    var i :| 0 <= i < |t.instances| && Up(t.instances[i]) && Candidate(t.instances[i]) == favourite;
    OwnerIsArgmax(hashing, t, shardKey);
    var o := OwnerOf(hashing, t, shardKey).value;
    ArgmaxIsCandidate(hashing, t.revision, Trim(shardKey), t, o);
    NoneBeatsArgmax(hashing, t.revision, Trim(shardKey), t, t.instances[i], o);
  }

  lemma RevisionMatters(t: Topology, u: Topology, a: (string, int), b: (string, int))
    requires Candidates(t) <= Candidates(u) && t.revision != "" && u.revision != ""
    requires a in Candidates(t) && b in Candidates(t) && a.0 != b.0 && Trim(t.revision) != Trim(u.revision)
    ensures var hashing := Favouring(Trim(t.revision), a, b); hashing.Positive() && !StaysOrJoins(hashing, t, u, "k")
  {
    assert Trim("k") == "k";
    hide Trim, OwnerOf, Candidates;
    var hashing := Favouring(Trim(t.revision), a, b);
    FavouriteOwns(hashing, t, "k", a, 3.0);
    FavouriteOwns(hashing, u, "k", b, 3.0);
  }

  /**
   When instances join and none leaves, all keys stay or go to newcomers, whatever the scores, if and
   only if the revision stays the same: every change of revision can move keys between old instances.
   */
  lemma MovementExactly(t: Topology, u: Topology)
    requires Candidates(t) <= Candidates(u) && t.revision != "" && u.revision != ""
    requires exists a, b :: a in Candidates(t) && b in Candidates(t) && a.0 != b.0
    ensures (forall hashing: Hashing, shardKey :: hashing.Positive() ==> StaysOrJoins(hashing, t, u, shardKey))
            <==> Trim(t.revision) == Trim(u.revision)
  {
    hide StaysOrJoins, Candidates, Trim, Favouring;
    if Trim(t.revision) == Trim(u.revision) {
      forall hashing: Hashing, shardKey
        ensures StaysOrJoins(hashing, t, u, shardKey)
      {
        SameRevisionStays(hashing, t, u, shardKey);
      }
    } else {
      var a, b :| a in Candidates(t) && b in Candidates(t) && a.0 != b.0;
      RevisionMatters(t, u, a, b);
    }
  }

  // ---------------------------------------------------------------- an input on which a key moves

  function Named(id: string): Instance {
    Instance(id, "h", 1, 100, 100, "", "", "", "UP", map[])
  }

  const TWO := [Named("a"), Named("b")]
  const THREE := [Named("a"), Named("b"), Named("c")]

  /** Two and three instances have different texts, so a digest may tell them apart. */
  function Telling(): Hashing {
    Favouring("r1", ("a", 100), ("b", 100)).(
      digest := text => if text == CanonicalText("", "", Ordered(TWO)) then "r1" else "r2")
  }

  lemma NamedTakesPart(id: string)
    requires id in {"a", "b", "c"}
    ensures Normalized(Named(id)) == Some(Named(id))
  {
    TakingPart("UP");
    assert Trim(id) == id && Trim("h") == "h" && Trim("") == "";
  }

  lemma {:induction false} AlreadyOrdered(found: seq<Instance>)
    requires forall i :: 0 <= i < |found| ==> Normalized(found[i]) == Some(found[i])
    requires Sorted(found)
    ensures Ordered(found) == found
  {
    hide Normalized, Before, StableSort;
    AllParticipate(found);
    StableSortExactly(found, found);
  }

  lemma {:induction false} AllParticipate(found: seq<Instance>)
    requires forall i :: 0 <= i < |found| ==> Normalized(found[i]) == Some(found[i])
    ensures Participants(found) == found
  {
    hide Normalized;
    if found != [] {
      AllParticipate(found[..|found| - 1]);
    }
  }

  lemma NamedNotBefore(id: string, other: string)
    requires id != other && !Less(id, other)
    ensures !Before(Named(id), Named(other))
  {
    hide FormatInt;
  }

  lemma NamedSorted()
    ensures Sorted(TWO) && Sorted(THREE)
  {
    NamedNotBefore("b", "a");
    NamedNotBefore("c", "b");
    NamedNotBefore("c", "a");
    hide Before;
  }

  lemma NamedOrdered()
    ensures Ordered(TWO) == TWO && Ordered(THREE) == THREE
  {
    hide Before, Normalized, Sorted, Ordered;
    NamedSorted();
    NamedTakesPart("a");
    NamedTakesPart("b");
    NamedTakesPart("c");
    AlreadyOrdered(TWO);
    AlreadyOrdered(THREE);
  }

  lemma TextsDiffer()
    ensures CanonicalText("", "", TWO) != CanonicalText("", "", THREE)
  {
    hide Line, Fields, Header;
    assert THREE == TWO + [Named("c")];
    LinesAppend(TWO, [Named("c")]);
    FirstLine(Named("c"), []);
    assert [Named("c")] + [] == [Named("c")];
    LineNonEmpty(Fields(Named("c")));
  }

  /** Movement is not confined to the newcomer: `c` joins and owns nothing, and the key moves from `a` to `b`. */
  lemma KeyMovesBetweenOthers()
    ensures var t, u := Build(Telling(), "", "", TWO), Build(Telling(), "", "", THREE);
            && Telling().Positive() && Candidates(t) <= Candidates(u)
            && OwnerOf(Telling(), t, "k") == Some(Named("a")) && OwnerOf(Telling(), u, "k") == Some(Named("b"))
  {
    NamedOrdered();
    TextsDiffer();
    hide CanonicalText, Ordered;
    var t, u := Build(Telling(), "", "", TWO), Build(Telling(), "", "", THREE);
    assert Trim("k") == "k" && Trim("r1") == "r1" && Trim("r2") == "r2";
    assert t.revision == "r1" && u.revision == "r2";
    forall c | c in Candidates(t)
      ensures c in Candidates(u)
    {
      var i :| 0 <= i < |TWO| && Up(TWO[i]) && Candidate(TWO[i]) == c;
      assert THREE[i] == TWO[i];
    }
    assert BestOf(Telling(), "r1", "k", TWO, 1) == Some(Named("a"));
    assert BestOf(Telling(), "r2", "k", THREE, 1) == Some(Named("a"));
    assert BestOf(Telling(), "r2", "k", THREE, 2) == Some(Named("b"));
  }
}
