/** The stable sort, characterised: sorted, and instances that tie keep their order; nothing else is. */
module TopologyStable {
  import opened Topology
  import opened TopologyOrder

  /** The instances with one sort key, in order. */
  function Tied(s: seq<Instance>, key: SortKey): seq<Instance> {
    if s == [] then [] else (if KeyOf(s[0]) == key then [s[0]] else []) + Tied(s[1..], key)
  }

  lemma {:induction false} TiedAppend(a: seq<Instance>, b: seq<Instance>, key: SortKey)
    ensures Tied(a + b, key) == Tied(a, key) + Tied(b, key)
  {
    hide KeyOf;
    if a == [] {
      assert a + b == b;
    } else {
      TiedAppend(a[1..], b, key);
      assert (a + b)[1..] == a[1..] + b;
    }
  }

  lemma {:induction false} NoneTied(s: seq<Instance>, key: SortKey)
    requires forall i :: 0 <= i < |s| ==> KeyOf(s[i]) != key
    ensures Tied(s, key) == []
  {
    hide KeyOf;
    if s != [] {
      NoneTied(s[1..], key);
    }
  }

  lemma {:induction false} SomeTied(s: seq<Instance>, key: SortKey) returns (i: nat)
    requires Tied(s, key) != []
    ensures i < |s| && KeyOf(s[i]) == key
  {
    hide KeyOf;
    if KeyOf(s[0]) == key {
      i := 0;
    } else {
      var j := SomeTied(s[1..], key);
      i := j + 1;
    }
  }

  /** An instance goes behind all that tie with it. */
  lemma InsertedLast(sorted: seq<Instance>, x: Instance, key: SortKey)
    requires Sorted(sorted)
    ensures Tied(Inserted(sorted, x), key) == Tied(sorted, key) + Tied([x], key)
  {
    hide KeyOf, KeyBefore;
    var k := Slot(sorted, x);
    assert sorted == sorted[..k] + sorted[k..];
    TiedAppend(sorted[..k], sorted[k..], key);
    TiedAppend(sorted[..k] + [x], sorted[k..], key);
    TiedAppend(sorted[..k], [x], key);
    if KeyOf(x) == key {
      forall i | 0 <= i < |sorted[k..]|
        ensures KeyOf(sorted[k..][i]) != key
      {
        BehindSlot(sorted, x, k + i);
      }
      NoneTied(sorted[k..], key);
    } else {
      NoneTied([x], key);
      assert Tied(sorted[..k], key) + [] == Tied(sorted[..k], key);
    }
  }

  lemma BehindSlot(sorted: seq<Instance>, x: Instance, i: nat)
    requires Sorted(sorted) && Slot(sorted, x) <= i < |sorted|
    ensures KeyOf(sorted[i]) != KeyOf(x)
  {
    hide KeyOf, KeyBefore;
    var k := Slot(sorted, x);
    assert KeyBefore(KeyOf(x), KeyOf(sorted[k]));
    KeyTotal(KeyOf(x), KeyOf(sorted[k]));
    assert i > k ==> !Before(sorted[i], sorted[k]);
  }

  /** Sorting keeps the order of instances that tie. */
  lemma {:induction false} SortIsStable(s: seq<Instance>, key: SortKey)
    ensures Tied(StableSort(s), key) == Tied(s, key)
  {
    hide KeyOf, Inserted, Tied, Sorted;
    if s != [] {
      var last := |s| - 1;
      SortIsStable(s[..last], key);
      SortSorts(s[..last]);
      InsertedLast(StableSort(s[..last]), s[last], key);
      assert s == s[..last] + [s[last]];
      TiedAppend(s[..last], [s[last]], key);
    }
  }

  lemma TiedHead(s: seq<Instance>, key: SortKey)
    requires s != []
    ensures if KeyOf(s[0]) == key then Tied(s, key) != [] && Tied(s, key)[0] == s[0] &&
      Tied(s[1..], key) == Tied(s, key)[1..]
            else Tied(s[1..], key) == Tied(s, key)
  {
    hide KeyOf;
  }

  ghost predicate SameTies(a: seq<Instance>, b: seq<Instance>) {
    forall key :: Tied(a, key) == Tied(b, key)
  }

  lemma HeadNotAfter(a: seq<Instance>, b: seq<Instance>)
    requires Sorted(b) && a != [] && SameTies(a, b)
    ensures b != [] && !Before(a[0], b[0])
  {
    hide KeyOf, KeyBefore;
    assert Tied(b, KeyOf(a[0])) == Tied(a, KeyOf(a[0])) != [];
    var j := SomeTied(b, KeyOf(a[0]));
    KeyTotal(KeyOf(b[0]), KeyOf(b[0]));
  }

  lemma {:induction false} SortedTiesUnique(a: seq<Instance>, b: seq<Instance>)
    requires Sorted(a) && Sorted(b) && SameTies(a, b)
    ensures a == b
  {
    hide KeyOf, KeyBefore;
    if a != [] && b != [] {
      HeadNotAfter(a, b);
      HeadNotAfter(b, a);
      KeyTotal(KeyOf(a[0]), KeyOf(b[0]));
      TiedHead(a, KeyOf(a[0]));
      TiedHead(b, KeyOf(a[0]));
      assert Tied(a, KeyOf(a[0])) == Tied(b, KeyOf(a[0]));
      forall key
        ensures Tied(a[1..], key) == Tied(b[1..], key)
      {
        assert Tied(a, key) == Tied(b, key);
        TiedHead(a, key);
        TiedHead(b, key);
      }
      SortedTiesUnique(a[1..], b[1..]);
      assert a == [a[0]] + a[1..] && b == [b[0]] + b[1..];
    } else if a != [] {
      HeadNotAfter(a, b);
    } else if b != [] {
      HeadNotAfter(b, a);
    }
  }

  /** Any stable sorting algorithm has the result of the model's: sorted, with ties in their old order. */
  lemma StableSortExactly(s: seq<Instance>, r: seq<Instance>)
    ensures r == StableSort(s) <==> Sorted(r) && SameTies(r, s)
  {
    hide StableSort, Sorted, Tied;
    SortSorts(s);
    forall key
      ensures Tied(StableSort(s), key) == Tied(s, key)
    {
      SortIsStable(s, key);
    }
    if Sorted(r) && SameTies(r, s) {
      SortedTiesUnique(r, StableSort(s));
    }
  }
}
