/** What an owner depends on: when two topologies of one revision agree on every owner, and what priority counts for. */
module TopologyElectorate {
  import opened Common
  import opened Text
  import opened Topology
  import opened TopologyOrder
  import opened TopologyTies
  import opened TopologyMovement

  // ---------------------------------------------------------------- equal owners

  /** The same candidates, or candidates that all carry one id. */
  ghost predicate SameElectorate(t: Topology, u: Topology) {
    || Candidates(t) == Candidates(u)
    || (Candidates(t) != {} && Candidates(u) != {} && exists id :: OneId(t, id) && OneId(u, id))
  }

  ghost predicate OneId(t: Topology, id: string) {
    forall c :: c in Candidates(t) ==> c.0 == id
  }

  ghost predicate SameOwner(hashing: Hashing, t: Topology, u: Topology, shardKey: string) {
    var a, b := OwnerOf(hashing, t, shardKey), OwnerOf(hashing, u, shardKey);
    a.Some? == b.Some? && (a.Some? ==> a.value.instanceID == b.value.instanceID)
  }

  /** There is an owner for a key exactly if there is a candidate, and the owner is one. */
  lemma OwnerIsCandidate(hashing: Hashing, t: Topology, shardKey: string)
    ensures var owner := OwnerOf(hashing, t, shardKey);
            && (owner.Some? <==> !Blank(shardKey) && t.revision != "" && Candidates(t) != {})
            && (owner.Some? ==> Candidate(owner.value) in Candidates(t))
  {
    hide OwnerOf, Argmax, Trim;
    OwnerIsArgmax(hashing, t, shardKey);
    if i :| 0 <= i < |t.instances| && Up(t.instances[i]) {
      assert Candidate(t.instances[i]) in Candidates(t);
    }
    if OwnerOf(hashing, t, shardKey).Some? {
      ArgmaxIsCandidate(hashing, t.revision, Trim(shardKey), t, OwnerOf(hashing, t, shardKey).value);
    }
  }

  lemma ElectorateSuffices(hashing: Hashing, t: Topology, u: Topology, shardKey: string)
    requires t.revision == u.revision && SameElectorate(t, u)
    ensures SameOwner(hashing, t, u, shardKey)
  {
    hide OwnerOf, Candidates, Blank;
    if Candidates(t) == Candidates(u) {
      OwnerFromCandidates(hashing, t, u, shardKey);
    } else {
      OwnerIsCandidate(hashing, t, shardKey);
      OwnerIsCandidate(hashing, u, shardKey);
    }
  }

  /** Scores that put one candidate on top, and another one second. */
  function Ranking(first: (string, int), second: (string, int)): Hashing {
    Hashing(text => text, (r: string, key: string, id: string, weight: int) =>
      if (id, weight) == first then 3.0 else if (id, weight) == second then 2.0 else 1.0)
  }

  /** A candidate of one topology and one of another id tell the two topologies apart. */
  lemma RankingTells(t: Topology, u: Topology, first: (string, int), second: (string, int))
    requires t.revision != "" && u.revision != "" && first.0 != second.0
    requires first in Candidates(t) && first !in Candidates(u) && second in Candidates(u)
    ensures Ranking(first, second).Positive()
    ensures !SameOwner(Ranking(first, second), t, u, "k") && !SameOwner(Ranking(first, second), u, t, "k")
  {
    assert Trim("k") == "k";
    hide Trim, OwnerOf, Candidates;
    FavouriteOwns(Ranking(first, second), t, "k", first, 3.0);
    FavouriteOwns(Ranking(first, second), u, "k", second, 2.0);
  }

  lemma EmptyTells(t: Topology, u: Topology)
    requires t.revision != "" && Candidates(t) != {} && Candidates(u) == {}
    ensures var hashing := Ranking(("", 0), ("", 0));
            hashing.Positive() && !SameOwner(hashing, t, u, "k") && !SameOwner(hashing, u, t, "k")
  {
    assert Trim("k") == "k";
    hide OwnerOf, Candidates;
    OwnerIsCandidate(Ranking(("", 0), ("", 0)), t, "k");
    OwnerIsCandidate(Ranking(("", 0), ("", 0)), u, "k");
  }

  /** A candidate that one topology lacks tells it from another, unless all candidates carry one id. */
  lemma DifferenceTells(t: Topology, u: Topology, c: (string, int)) returns (hashing: Hashing)
    requires t.revision != "" && u.revision != "" && !SameElectorate(t, u) && !SameElectorate(u, t)
    requires c in Candidates(t) && c !in Candidates(u)
    ensures hashing.Positive() && !SameOwner(hashing, t, u, "k") && !SameOwner(hashing, u, t, "k")
  {
    hide SameOwner, Candidates;
    if Candidates(u) == {} {
      EmptyTells(t, u);
      hashing := Ranking(("", 0), ("", 0));
    } else if d :| d in Candidates(u) && d.0 != c.0 {
      RankingTells(t, u, c, d);
      hashing := Ranking(c, d);
    } else {
      assert OneId(u, c.0);
      var e :| e in Candidates(t) && e.0 != c.0;
      var d :| d in Candidates(u);
      RankingTells(t, u, e, d);
      hashing := Ranking(e, d);
    }
  }

  /**
   Two topologies of one revision name the same owner for every key, whatever the scores, if and only
   if they have the same candidates or all their candidates carry one id.
   */
  lemma SameOwnersExactly(t: Topology, u: Topology)
    requires t.revision == u.revision != ""
    ensures (forall hashing: Hashing, shardKey :: hashing.Positive() ==> SameOwner(hashing, t, u, shardKey))
            <==> SameElectorate(t, u)
  {
    hide SameOwner, Candidates;
    if SameElectorate(t, u) {
      forall hashing: Hashing, shardKey
        ensures SameOwner(hashing, t, u, shardKey)
      {
        ElectorateSuffices(hashing, t, u, shardKey);
      }
    } else if c :| c in Candidates(t) && c !in Candidates(u) {
      var hashing := DifferenceTells(t, u, c);
    } else {
      var c :| c in Candidates(u) && c !in Candidates(t);
      var hashing := DifferenceTells(u, t, c);
    }
  }

  // ---------------------------------------------------------------- one text, two electorates

  /** What follows the id in the line of an instance of the kind `Named`. */
  const TAIL := "|UP|100|100||h|1|\n"

  /** One instance whose id reads like the end of one line and the start of the next. */
  const FORGED := [Named("a" + TAIL + "b")]

  lemma LineStep(first: string, rest: seq<string>)
    requires rest != []
    ensures Line([first] + rest) == first + "|" + Line(rest)
  {
    assert ([first] + rest)[1..] == rest;
  }

  lemma NamedNumbers()
    ensures FormatInt(100) == "100" && FormatInt(1) == "1"
  {
  }

  lemma NamedLine(id: string)
    ensures LineOf(Named(id)) == id + TAIL
  {
    hide FormatInt, Line;
    NamedNumbers();
    LineEnds();
    var rest := ["UP", "100", "100", "", "h", "1", ""];
    assert Fields(Named(id)) == [id] + rest;
    LineStep(id, rest);
  }

  lemma LineEnds()
    ensures "|" + Line(["UP", "100", "100", "", "h", "1", ""]) == TAIL
  {
    var e1 := [""];
    assert Line(e1) == "\n";
    hide Line;
    var e2 := ["1"] + e1;
    LineStep("1", e1);
    assert Line(e2) == "1|\n";
    var e3 := ["h"] + e2;
    LineStep("h", e2);
    assert Line(e3) == "h|1|\n";
    var e4 := [""] + e3;
    LineStep("", e3);
    assert Line(e4) == "|h|1|\n";
    var e5 := ["100"] + e4;
    LineStep("100", e4);
    assert Line(e5) == "100||h|1|\n";
    var e6 := ["100"] + e5;
    LineStep("100", e5);
    assert Line(e6) == "100|100||h|1|\n";
    LineStep("UP", e6);
    assert ["UP", "100", "100", "", "h", "1", ""] == ["UP"] + e6;
  }

  lemma ForgedText()
    ensures CanonicalText("", "", FORGED) == CanonicalText("", "", TWO)
  {
    hide Line, Fields, Header;
    NamedLine("a");
    NamedLine("b");
    NamedLine("a" + TAIL + "b");
    FirstLine(FORGED[0], []);
    FirstLine(Named("a"), [Named("b")]);
    FirstLine(Named("b"), []);
    assert FORGED == [FORGED[0]] + [] && TWO == [Named("a")] + [Named("b")] && [Named("b")] == [Named("b")] + [];
    assert ("a" + TAIL + "b") + TAIL == ("a" + TAIL) + ("b" + TAIL);
  }

  lemma ForgedOrdered()
    ensures Ordered(FORGED) == FORGED
  {
    TakingPart("UP");
    var id := "a" + TAIL + "b";
    assert id[0] == 'a' && id[|id| - 1] == 'b' && Trim(id) == id;
    assert Trim("h") == "h" && Trim("") == "";
    assert Normalized(Named(id)) == Some(Named(id));
    AlreadyOrdered(FORGED);
  }

  /**
   Two discovery answers with one canonical text, so that no digest can tell them apart: their
   revisions are equal, and every key has different owners.
   */
  lemma OneTextTwoOwners(hashing: Hashing, shardKey: string)
    requires hashing.digest(CanonicalText("", "", TWO)) != "" && !Blank(shardKey)
    ensures var t, u := Build(hashing, "", "", FORGED), Build(hashing, "", "", TWO);
            && t.revision == u.revision && t.revision == hashing.digest(CanonicalText("", "", TWO))
            && OwnerOf(hashing, t, shardKey).Some? && OwnerOf(hashing, u, shardKey).Some?
            && OwnerOf(hashing, t, shardKey).value.instanceID != OwnerOf(hashing, u, shardKey).value.instanceID
  {
    ForgedText();
    ForgedOrdered();
    NamedOrdered();
    hide CanonicalText, Ordered, OwnerOf, Blank;
    var t, u := Build(hashing, "", "", FORGED), Build(hashing, "", "", TWO);
    assert Candidate(t.instances[0]) in Candidates(t) && Candidate(u.instances[0]) in Candidates(u);
    OwnerIsCandidate(hashing, t, shardKey);
    OwnerIsCandidate(hashing, u, shardKey);
    assert |"a" + TAIL + "b"| > 1;
  }

  // ---------------------------------------------------------------- priority

  /** The owner has the best priority, the smallest number, of all UP instances. */
  ghost predicate BestPriorityOwns(hashing: Hashing, t: Topology, shardKey: string) {
    var owner := OwnerOf(hashing, t, shardKey);
    owner.Some? ==> forall i :: 0 <= i < |t.instances| && Up(t.instances[i]) ==>
      owner.value.priority <= t.instances[i].priority
  }

  ghost predicate OnePriority(t: Topology) {
    forall i, j :: 0 <= i < |t.instances| && 0 <= j < |t.instances| && Up(t.instances[i]) && Up(t.instances[j]) ==>
      t.instances[i].priority == t.instances[j].priority
  }

  /** If one UP instance has a worse priority than another, some scores make it the owner. */
  lemma WorseCanOwn(t: Topology, i: nat, j: nat)
    requires t.revision != "" && DistinctIds(t.instances) && i < |t.instances| && j < |t.instances|
    requires Up(t.instances[i]) && Up(t.instances[j]) && t.instances[i].priority > t.instances[j].priority
    ensures var favourite := Candidate(t.instances[i]);
            Ranking(favourite, favourite).Positive() && !BestPriorityOwns(Ranking(favourite, favourite), t, "k")
  {
    assert Trim("k") == "k";
    hide Trim, OwnerOf;
    var favourite := Candidate(t.instances[i]);
    var hashing := Ranking(favourite, favourite);
    assert favourite in Candidates(t);
    FavouriteOwns(hashing, t, "k", favourite, 3.0);
    OwnerIsArgmax(hashing, t, "k");
    var o := OwnerOf(hashing, t, "k").value;
    var k :| 0 <= k < |t.instances| && t.instances[k] == o;
    assert k == i;
  }

  /**
   Among instances with distinct ids, the owner has the best priority for every key, whatever the
   scores, if and only if all UP instances have one priority.
   */
  lemma PriorityExactly(t: Topology)
    requires t.revision != "" && DistinctIds(t.instances)
    ensures (forall hashing: Hashing, shardKey :: hashing.Positive() ==> BestPriorityOwns(hashing, t, shardKey))
            <==> OnePriority(t)
  {
    hide OwnerOf, DistinctIds;
    if OnePriority(t) {
      forall hashing: Hashing, shardKey
        ensures BestPriorityOwns(hashing, t, shardKey)
      {
        OwnerIsArgmax(hashing, t, shardKey);
      }
    } else {
      var i, j :| 0 <= i < |t.instances| && 0 <= j < |t.instances| && Up(t.instances[i]) && Up(t.instances[j])
        && t.instances[i].priority != t.instances[j].priority;
      if t.instances[i].priority > t.instances[j].priority {
        WorseCanOwn(t, i, j);
      } else {
        WorseCanOwn(t, j, i);
      }
    }
  }

  function Prioritised(id: string, priority: int): Instance {
    Named(id).(priority := priority)
  }

  /** A built topology in which `b` owns the key although `a` is UP with a better priority. */
  lemma WorseOwns()
    ensures var found := [Prioritised("a", 1), Prioritised("b", 2)];
            var hashing := Ranking(("b", 100), ("b", 100)).(digest := text => "r");
            && hashing.Positive()
            && OwnerOf(hashing, Build(hashing, "", "", found), "k") == Some(Prioritised("b", 2))
  {
    var a, b := Prioritised("a", 1), Prioritised("b", 2);
    var found := [a, b];
    var hashing := Ranking(("b", 100), ("b", 100)).(digest := text => "r");
    PrioritisedOrdered();
    hide CanonicalText, Ordered;
    var t := Build(hashing, "", "", found);
    assert Trim("k") == "k" && t.revision == "r" && t.instances == found;
    assert BestOf(hashing, "r", "k", found, 0) == None;
    assert BestOf(hashing, "r", "k", found, 1) == Some(a);
    assert BestOf(hashing, "r", "k", found, 2) == Some(b);
  }

  lemma PrioritisedTakesPart(id: string, priority: int)
    requires id in {"a", "b"} && priority > 0
    ensures Normalized(Prioritised(id, priority)) == Some(Prioritised(id, priority))
  {
    TakingPart("UP");
    assert Trim(id) == id && Trim("h") == "h" && Trim("") == "";
  }

  lemma PrioritisedOrdered()
    ensures var found := [Prioritised("a", 1), Prioritised("b", 2)]; Ordered(found) == found
  {
    hide Normalized, FormatInt, Ordered;
    PrioritisedTakesPart("a", 1);
    PrioritisedTakesPart("b", 2);
    assert !Before(Prioritised("b", 2), Prioritised("a", 1));
    AlreadyOrdered([Prioritised("a", 1), Prioritised("b", 2)]);
  }
}
