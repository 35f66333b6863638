/** When the canonical text, and with it the revision, is independent of discovery order: the exact condition. */
module TopologyTies {
  import opened Common
  import opened Text
  import opened Topology
  import opened TopologyText
  import opened TopologyOrder
  import opened TopologyStable

  function LineOf(i: Instance): string {
    Line(Fields(i))
  }

  predicate Commute(a: Instance, b: Instance) {
    LineOf(a) + LineOf(b) == LineOf(b) + LineOf(a)
  }

  /** Instances that the comparator cannot tell apart render the same text in either order. */
  ghost predicate TiesCommute(s: seq<Instance>) {
    forall a, b :: a in multiset(s) && b in multiset(s) && KeyOf(a) == KeyOf(b) ==> Commute(a, b)
  }

  ghost predicate TiesRenderAlike(s: seq<Instance>) {
    forall a, b :: a in multiset(s) && b in multiset(s) && KeyOf(a) == KeyOf(b) ==> Fields(a) == Fields(b)
  }

  lemma {:induction false} LinesAppend(a: seq<Instance>, b: seq<Instance>)
    ensures Lines(a + b) == Lines(a) + Lines(b)
  {
    hide Line, Fields;
    if a == [] {
      assert a + b == b;
    } else {
      LinesAppend(a[1..], b);
      assert (a + b)[1..] == a[1..] + b;
    }
  }

  // ---------------------------------------------------------------- commuting ties are enough

  lemma FirstLine(x: Instance, rest: seq<Instance>)
    ensures Lines([x] + rest) == LineOf(x) + Lines(rest)
  {
    assert ([x] + rest)[1..] == rest;
  }

  lemma Exchange(a: string, b: string, rest: string)
    requires a + b == b + a
    ensures a + (b + rest) == b + (a + rest)
  {
    assert a + (b + rest) == (a + b) + rest == (b + a) + rest == b + (a + rest);
  }

  lemma {:induction false} MovesToFront(before: seq<Instance>, x: Instance, behind: seq<Instance>)
    requires forall i :: 0 <= i < |before| ==> Commute(before[i], x)
    ensures Lines(before + [x] + behind) == LineOf(x) + Lines(before + behind)
  {
    hide LineOf, Line, Fields;
    if before == [] {
      assert Lines([x] + behind) == LineOf(x) + Lines(behind) by { FirstLine(x, behind); }
      assert before + [x] + behind == [x] + behind && before + behind == behind;
    } else {
      MovesToFront(before[1..], x, behind);
      assert before + [x] + behind == [before[0]] + (before[1..] + [x] + behind);
      assert before + behind == [before[0]] + (before[1..] + behind);
      FirstLine(before[0], before[1..] + [x] + behind);
      FirstLine(before[0], before[1..] + behind);
      assert Commute(before[0], x);
      Exchange(LineOf(before[0]), LineOf(x), Lines(before[1..] + behind));
    }
  }

  /** In sorted permutations, what stands before the first one's head ties with it. */
  lemma TiesWithHead(p: seq<Instance>, q: seq<Instance>, k: nat, j: nat)
    requires Sorted(p) && Sorted(q) && multiset(p) == multiset(q) && p != []
    requires j <= k < |q| && q[k] == p[0]
    ensures KeyOf(q[j]) == KeyOf(p[0]) && q[j] in multiset(p)
  {
    hide KeyOf, KeyBefore;
    assert q[j] in multiset(q);
    var m :| 0 <= m < |p| && p[m] == q[j];
    KeyTotal(KeyOf(p[0]), KeyOf(p[0]));
    KeyTotal(KeyOf(q[j]), KeyOf(p[0]));
  }

  lemma WithoutSorted(q: seq<Instance>, k: nat)
    requires Sorted(q) && k < |q|
    ensures Sorted(Without(q, k))
  {
    hide Before;
  }

  lemma CommutesWithHead(p: seq<Instance>, a: Instance)
    requires TiesCommute(p) && p != [] && a in multiset(p) && KeyOf(a) == KeyOf(p[0])
    ensures Commute(a, p[0])
  {
    assert p[0] in multiset(p);
  }

  lemma FewerTies(p: seq<Instance>)
    requires TiesCommute(p) && p != []
    ensures TiesCommute(p[1..])
  {
    hide KeyOf, Commute;
    assert p == [p[0]] + p[1..];
    assert forall a :: a in multiset(p[1..]) ==> a in multiset(p);
  }

  lemma {:induction false} SortedRenderAlike(p: seq<Instance>, q: seq<Instance>)
    requires Sorted(p) && Sorted(q) && multiset(p) == multiset(q) && TiesCommute(p)
    ensures Lines(p) == Lines(q)
  {
    hide KeyOf, KeyBefore, LineOf, Line, Fields, Sorted, TiesCommute;
    SameLength(p, q);
    if p != [] {
      var k := RemoveCommon(p, 0, q);
      assert Without(p, 0) == p[1..] && p == [p[0]] + p[1..] && q == q[..k] + [q[k]] + q[k + 1..];
      FirstLine(p[0], p[1..]);
      forall j | 0 <= j < k
        ensures Commute(q[..k][j], p[0])
      {
        TiesWithHead(p, q, k, j);
        CommutesWithHead(p, q[j]);
      }
      MovesToFront(q[..k], p[0], q[k + 1..]);
      WithoutSorted(p, 0);
      WithoutSorted(q, k);
      FewerTies(p);
      SortedRenderAlike(p[1..], Without(q, k));
    }
  }

  // ---------------------------------------------------------------- and needed

  /** Ties stand next to each other in a sorted list. */
  lemma {:induction false} TiesAdjacent(s: seq<Instance>, a: Instance, b: Instance, more: seq<Instance>)
      returns (p: nat)
    requires Sorted(s) && KeyOf(a) == KeyOf(b) && Tied(s, KeyOf(a)) == [a, b] + more
    ensures p + 1 < |s| && s[p] == a && s[p + 1] == b
    ensures Tied(s[..p], KeyOf(a)) == [] && Tied(s[p + 2..], KeyOf(a)) == more
  {
    hide KeyOf, KeyBefore;
    var key := KeyOf(a);
    TiedHead(s, key);
    if KeyOf(s[0]) == key {
      p := 0;
      var tail := s[1..];
      assert Tied(tail, key) == [b] + more;
      var j := SomeTied(tail, key);
      KeyTotal(KeyOf(tail[0]), key);
      KeyTotal(key, key);
      assert !Before(s[1], s[0]) && (j > 0 ==> !Before(s[j + 1], s[1]));
      TiedHead(tail, key);
      assert tail[1..] == s[2..];
    } else {
      WithoutSorted(s, 0);
      assert Without(s, 0) == s[1..];
      var q := TiesAdjacent(s[1..], a, b, more);
      p := q + 1;
      assert s[1..][..q] == s[..p][1..] && s[1..][q + 2..] == s[p + 2..];
    }
  }

  lemma PairTied(a: Instance, b: Instance, key: SortKey)
    requires KeyOf(a) == KeyOf(b)
    ensures Tied([a, b], key) == if KeyOf(a) == key then [a, b] else []
  {
    hide KeyOf;
    assert [a, b] == [a] + [b];
    TiedAppend([a], [b], key);
  }

  /** Discovering two ties in the other order swaps their lines and changes nothing else. */
  lemma SwapTies(a: Instance, b: Instance, rest: seq<Instance>) returns (before: seq<Instance>, behind: seq<Instance>)
    requires KeyOf(a) == KeyOf(b)
    ensures StableSort([a, b] + rest) == before + [a, b] + behind
    ensures StableSort([b, a] + rest) == before + [b, a] + behind
  {
    hide KeyOf, KeyBefore, StableSort, Tied;
    var key, s := KeyOf(a), StableSort([a, b] + rest);
    SortSorts([a, b] + rest);
    SortIsStable([a, b] + rest, key);
    TiedAppend([a, b], rest, key);
    PairTied(a, b, key);
    var p := TiesAdjacent(s, a, b, Tied(rest, key));
    before, behind := s[..p], s[p + 2..];
    assert s == before + [a, b] + behind;
    var r := before + [b, a] + behind;
    forall k
      ensures Tied(r, k) == Tied([b, a] + rest, k)
    {
      SwappedTies(a, b, before, behind, rest, k);
    }
    SwappedSorted(before, a, b, behind);
    StableSortExactly([b, a] + rest, r);
  }

  lemma SwappedTies(a: Instance, b: Instance, before: seq<Instance>, behind: seq<Instance>, rest: seq<Instance>,
                    k: SortKey)
    requires KeyOf(a) == KeyOf(b) && StableSort([a, b] + rest) == before + [a, b] + behind
    requires Tied(before, KeyOf(a)) == [] && Tied(behind, KeyOf(a)) == Tied(rest, KeyOf(a))
    ensures Tied(before + [b, a] + behind, k) == Tied([b, a] + rest, k)
  {
    hide KeyOf, StableSort, Tied;
    SortIsStable([a, b] + rest, k);
    TiedAppend(before + [a, b], behind, k);
    TiedAppend(before, [a, b], k);
    TiedAppend(before + [b, a], behind, k);
    TiedAppend(before, [b, a], k);
    TiedAppend([a, b], rest, k);
    TiedAppend([b, a], rest, k);
    PairTied(a, b, k);
    PairTied(b, a, k);
  }

  lemma SwappedSorted(before: seq<Instance>, a: Instance, b: Instance, behind: seq<Instance>)
    requires KeyOf(a) == KeyOf(b) && Sorted(before + [a, b] + behind)
    ensures Sorted(before + [b, a] + behind)
  {
    hide KeyBefore, KeyOf;
    var s, r := before + [a, b] + behind, before + [b, a] + behind;
    KeyTotal(KeyOf(a), KeyOf(a));
    assert forall i :: 0 <= i < |r| ==> KeyOf(r[i]) == KeyOf(s[i]);
    assert forall i, j :: 0 <= i < j < |r| ==> !Before(s[j], s[i]);
  }

  lemma {:induction false} ParticipantAt(found: seq<Instance>, a: Instance) returns (k: nat)
    requires a in multiset(Participants(found))
    ensures k < |found| && Normalized(found[k]) == Some(a)
  {
    hide Normalized;
    var last := |found| - 1;
    if Normalized(found[last]) == Some(a) {
      k := last;
    } else {
      assert a in Participants(found);
      assert a in Participants(found[..last]);
      k := ParticipantAt(found[..last], a);
    }
  }

  lemma OneParticipant(i: Instance, a: Instance)
    requires Normalized(i) == Some(a)
    ensures Participants([i]) == [a]
  {
    hide Normalized;
    assert [i][..0] == [];
    assert Participants([i]) == Participants([i][..0]) + [a];
  }

  /** Any two participants can be discovered first. */
  lemma DiscoveredFirst(found: seq<Instance>, a: Instance, b: Instance)
      returns (x: Instance, y: Instance, rest: seq<Instance>)
    requires a != b && a in multiset(Participants(found)) && b in multiset(Participants(found))
    ensures Normalized(x) == Some(a) && Normalized(y) == Some(b)
    ensures multiset([x, y] + rest) == multiset(found) == multiset([y, x] + rest)
  {
    hide Normalized, Participants;
    var i := ParticipantAt(found, a);
    var j := ParticipantAt(found, b);
    x, y := found[i], found[j];
    var others := TakeOut(found, x);
    assert y in multiset(others) by { assert y in multiset(found) && y != x; }
    rest := TakeOut(others, y);
    TwoInFront(x, y, rest);
    TwoInFront(y, x, rest);
  }

  lemma TakeOut<T>(s: seq<T>, x: T) returns (rest: seq<T>)
    requires x in multiset(s)
    ensures multiset(s) == multiset{x} + multiset(rest)
  {
    assert x in s;
    var k :| 0 <= k < |s| && s[k] == x;
    rest := Without(s, k);
    WithoutMultiset(s, k);
  }

  lemma TwoInFront<T>(x: T, y: T, rest: seq<T>)
    ensures multiset([x, y] + rest) == multiset{x} + multiset{y} + multiset(rest)
  {
  }

  lemma PairParticipates(x: Instance, y: Instance, a: Instance, b: Instance, rest: seq<Instance>)
    requires Normalized(x) == Some(a) && Normalized(y) == Some(b)
    ensures Participants([x, y] + rest) == [a, b] + Participants(rest)
  {
    hide Normalized, Participants;
    OneParticipant(x, a);
    OneParticipant(y, b);
    assert [x, y] + rest == [x] + ([y] + rest);
    ParticipantsAppend([x], [y] + rest);
    ParticipantsAppend([y], rest);
  }

  ghost predicate OrderIndependentText(ns: string, svc: string, found: seq<Instance>) {
    forall order :: multiset(order) == multiset(found) ==>
      CanonicalText(ns, svc, Ordered(order)) == CanonicalText(ns, svc, Ordered(found))
  }

  lemma SwapShows(ns: string, svc: string, found: seq<Instance>, a: Instance, b: Instance)
    requires a in multiset(Participants(found)) && b in multiset(Participants(found))
    requires KeyOf(a) == KeyOf(b) && OrderIndependentText(ns, svc, found)
    ensures Commute(a, b)
  {
    hide KeyOf, Participants, StableSort, Line, Fields, Header, Lines, Normalized;
    if a != b {
      var x, y, rest := DiscoveredFirst(found, a, b);
      PairParticipates(x, y, a, b, rest);
      PairParticipates(y, x, b, a, rest);
      var before, behind := SwapTies(a, b, Participants(rest));
      var head, first, second := Header(ns, svc) + "\n", Lines(before), Lines(behind);
      LinesOfPair(before, a, b, behind);
      LinesOfPair(before, b, a, behind);
      assert CanonicalText(ns, svc, Ordered([x, y] + rest)) == CanonicalText(ns, svc, Ordered([y, x] + rest));
      Cancel(head, Lines(before + [a, b] + behind), Lines(before + [b, a] + behind));
      Cancel(first, (LineOf(a) + LineOf(b)) + second, (LineOf(b) + LineOf(a)) + second);
      var pair := LineOf(a) + LineOf(b);
      assert pair == (pair + second)[..|pair|] && LineOf(b) + LineOf(a) == ((LineOf(b) + LineOf(a)) + second)[..|pair|];
    }
  }

  lemma LinesOfPair(before: seq<Instance>, a: Instance, b: Instance, behind: seq<Instance>)
    ensures Lines(before + [a, b] + behind) == Lines(before) + ((LineOf(a) + LineOf(b)) + Lines(behind))
  {
    hide Line, Fields;
    LinesAppend(before + [a, b], behind);
    LinesAppend(before, [a, b]);
    assert [a, b] == [a] + [b];
    LinesAppend([a], [b]);
    assert Lines([a]) == LineOf(a) + "" && Lines([b]) == LineOf(b) + "";
    assert (Lines(before) + (LineOf(a) + LineOf(b))) + Lines(behind) ==
      Lines(before) + ((LineOf(a) + LineOf(b)) + Lines(behind));
  }

  lemma Cancel(head: string, a: string, b: string)
    requires head + a == head + b
    ensures a == b
  {
    assert a == (head + a)[|head|..] && b == (head + b)[|head|..];
  }

  /**
   The canonical text does not depend on discovery order exactly when the lines of participants that
   the comparator cannot tell apart read the same in either order.
   */
  lemma TextOrderIndependentExactly(ns: string, svc: string, found: seq<Instance>)
    ensures OrderIndependentText(ns, svc, found) <==> TiesCommute(Participants(found))
  {
    hide CanonicalText, Participants, Commute, KeyOf;
    if TiesCommute(Participants(found)) {
      forall order | multiset(order) == multiset(found)
        ensures CanonicalText(ns, svc, Ordered(order)) == CanonicalText(ns, svc, Ordered(found))
      {
        TiesAlikeText(ns, svc, found, order);
      }
    }
    if OrderIndependentText(ns, svc, found) {
      forall a, b | a in multiset(Participants(found)) && b in multiset(Participants(found)) && KeyOf(a) == KeyOf(b)
        ensures Commute(a, b)
      {
        SwapShows(ns, svc, found, a, b);
      }
    }
  }

  lemma TiesAlikeText(ns: string, svc: string, a: seq<Instance>, b: seq<Instance>)
    requires multiset(a) == multiset(b) && TiesCommute(Participants(a))
    ensures CanonicalText(ns, svc, Ordered(a)) == CanonicalText(ns, svc, Ordered(b))
  {
    hide StableSort, Participants, Lines, Commute, KeyOf, Sorted;
    ParticipantsPermute(a, b);
    SortSorts(Participants(a));
    SortSorts(Participants(b));
    SortedRenderAlike(Ordered(a), Ordered(b));
  }

  // ---------------------------------------------------------------- without stray separators

  /** Without stray separators, lines read the same in either order only if all their fields agree. */
  lemma PlainTies(s: seq<Instance>)
    requires PlainInstances(s)
    ensures TiesCommute(s) <==> TiesRenderAlike(s)
  {
    hide KeyOf, PlainInstance, Fields;
    forall a, b | a in multiset(s) && b in multiset(s) && Commute(a, b)
      ensures Fields(a) == Fields(b)
    {
      assert a in s && b in s;
      FieldsPlain(a);
      FieldsPlain(b);
      LineUnique(Fields(a), Fields(b), LineOf(b), LineOf(a));
    }
  }

  function Zoned(zone: string): Instance {
    Instance("i", "h", 1, 100, 100, zone, "", "", "UP", map[])
  }

  /** One instance listed twice with different zones: the two orders of discovery give different texts. */
  lemma ZonesShow(ns: string, svc: string)
    ensures CanonicalText(ns, svc, Ordered([Zoned("x"), Zoned("y")])) !=
      CanonicalText(ns, svc, Ordered([Zoned("y"), Zoned("x")]))
  {
    ZonedTakesPart("x");
    ZonedTakesPart("y");
    PairParticipates(Zoned("x"), Zoned("y"), Zoned("x"), Zoned("y"), []);
    PairParticipates(Zoned("y"), Zoned("x"), Zoned("y"), Zoned("x"), []);
    assert Participants([]) == [];
    hide Participants, StableSort, CanonicalText, Normalized;
    assert [Zoned("x"), Zoned("y")] + [] == [Zoned("x"), Zoned("y")] &&
      [Zoned("y"), Zoned("x")] + [] == [Zoned("y"), Zoned("x")];
    var before, behind := SwapTies(Zoned("x"), Zoned("y"), []);
    ZonesDiffer(ns, svc, before, behind);
  }

  lemma ZonedTakesPart(zone: string)
    requires zone in {"x", "y"}
    ensures Normalized(Zoned(zone)) == Some(Zoned(zone))
  {
    TakingPart("UP");
    assert Trim("i") == "i" && Trim("h") == "h" && Trim(zone) == zone && Trim("") == "";
  }

  lemma ZoneLines(restX: string, restY: string)
    ensures LineOf(Zoned("x")) + restX != LineOf(Zoned("y")) + restY
  {
    var x, y := Zoned("x"), Zoned("y");
    FieldsPlain(x);
    FieldsPlain(y);
    assert Fields(x)[4] == "x" && Fields(y)[4] == "y";
    hide Line, Fields;
    if LineOf(x) + restX == LineOf(y) + restY {
      LineUnique(Fields(x), Fields(y), restX, restY);
    }
  }

  lemma ZonesDiffer(ns: string, svc: string, before: seq<Instance>, behind: seq<Instance>)
    ensures CanonicalText(ns, svc, before + [Zoned("x"), Zoned("y")] + behind)
         != CanonicalText(ns, svc, before + [Zoned("y"), Zoned("x")] + behind)
  {
    hide Line, Fields, Header, Lines;
    var x, y := Zoned("x"), Zoned("y");
    var restX, restY := LineOf(y) + Lines(behind), LineOf(x) + Lines(behind);
    LinesOfPair(before, x, y, behind);
    LinesOfPair(before, y, x, behind);
    assert (LineOf(x) + LineOf(y)) + Lines(behind) == LineOf(x) + restX;
    assert (LineOf(y) + LineOf(x)) + Lines(behind) == LineOf(y) + restY;
    ZoneLines(restX, restY);
    if CanonicalText(ns, svc, before + [x, y] + behind) == CanonicalText(ns, svc, before + [y, x] + behind) {
      Cancel(Header(ns, svc) + "\n", Lines(before) + (LineOf(x) + restX), Lines(before) + (LineOf(y) + restY));
      Cancel(Lines(before), LineOf(x) + restX, LineOf(y) + restY);
    }
  }
}
