/** When the canonical text, and with it the revision, is independent of discovery order. */
module TopologyOrder {
  import opened Text
  import opened Topology

  // ---------------------------------------------------------------- the comparator is a total order on keys

  lemma KeyTotal(a: SortKey, b: SortKey)
    ensures a == b ==> !KeyBefore(a, b)
    ensures a != b ==> KeyBefore(a, b) != KeyBefore(b, a)
  {
    LessTrichotomy(a.id, b.id);
    LessTrichotomy(a.endpoint, b.endpoint);
  }

  lemma KeyTransitive(a: SortKey, b: SortKey, c: SortKey)
    requires KeyBefore(a, b) && KeyBefore(b, c)
    ensures KeyBefore(a, c)
  {
    if Less(a.id, b.id) && Less(b.id, c.id) {
      LessTransitive(a.id, b.id, c.id);
      LessTrichotomy(a.id, c.id);
    }
    if Less(a.endpoint, b.endpoint) && Less(b.endpoint, c.endpoint) {
      LessTransitive(a.endpoint, b.endpoint, c.endpoint);
    }
  }

  /** `!KeyBefore` is transitive as well: the order is total. */
  lemma KeyNotAfterTransitive(a: SortKey, b: SortKey, c: SortKey)
    requires !KeyBefore(b, a) && !KeyBefore(c, b)
    ensures !KeyBefore(c, a)
  {
    KeyTotal(a, b);
    KeyTotal(b, c);
    KeyTotal(a, c);
    if KeyBefore(a, b) && KeyBefore(b, c) {
      KeyTransitive(a, b, c);
    }
  }

  // ---------------------------------------------------------------- the sort sorts and permutes

  ghost predicate Sorted(s: seq<Instance>) {
    forall i, j :: 0 <= i < j < |s| ==> !Before(s[j], s[i])
  }

  lemma InsertedSorted(sorted: seq<Instance>, x: Instance)
    requires Sorted(sorted)
    ensures Sorted(Inserted(sorted, x))
    ensures multiset(Inserted(sorted, x)) == multiset(sorted) + multiset{x}
  {
    hide KeyBefore, KeyOf;
    var k := Slot(sorted, x);
    assert sorted == sorted[..k] + sorted[k..];
    var r := Inserted(sorted, x);
    forall i, j | 0 <= i < j < |r|
      ensures !Before(r[j], r[i])
    {
      if i == k {
        KeyTotal(KeyOf(x), KeyOf(sorted[k]));
        if j > k + 1 {
          KeyNotAfterTransitive(KeyOf(x), KeyOf(sorted[k]), KeyOf(r[j]));
        }
      }
    }
  }

  lemma {:induction false} SortSorts(s: seq<Instance>)
    ensures Sorted(StableSort(s)) && multiset(StableSort(s)) == multiset(s)
  {
    hide Before, Inserted;
    if s != [] {
      var last := |s| - 1;
      SortSorts(s[..last]);
      InsertedSorted(StableSort(s[..last]), s[last]);
      assert s == s[..last] + [s[last]];
    }
  }

  // ---------------------------------------------------------------- sorted permutations agree on keys

  function Without<T>(s: seq<T>, k: nat): seq<T>
    requires k < |s|
  {
    s[..k] + s[k + 1..]
  }

  lemma WithoutMultiset<T>(s: seq<T>, k: nat)
    requires k < |s|
    ensures multiset(Without(s, k)) == multiset(s) - multiset{s[k]}
  {
    assert s == s[..k] + [s[k]] + s[k + 1..];
  }

  /** An element of one permutation can be removed from the other, leaving permutations. */
  lemma RemoveCommon<T>(a: seq<T>, i: nat, b: seq<T>) returns (k: nat)
    requires i < |a| && multiset(a) == multiset(b)
    ensures k < |b| && b[k] == a[i] && multiset(Without(a, i)) == multiset(Without(b, k))
  {
    assert a[i] in multiset(b);
    k :| 0 <= k < |b| && b[k] == a[i];
    WithoutMultiset(a, i);
    WithoutMultiset(b, k);
  }

  lemma SameLength<T>(a: seq<T>, b: seq<T>)
    requires multiset(a) == multiset(b)
    ensures |a| == |b|
  {
    assert |a| == |multiset(a)| == |multiset(b)| == |b|;
  }

  function Keys(s: seq<Instance>): (k: seq<SortKey>)
    ensures |k| == |s|
    ensures forall i :: 0 <= i < |s| ==> k[i] == KeyOf(s[i])
  {
    if s == [] then [] else [KeyOf(s[0])] + Keys(s[1..])
  }

  lemma KeysAppend(a: seq<Instance>, b: seq<Instance>)
    ensures Keys(a + b) == Keys(a) + Keys(b)
  {
    hide KeyOf;
    forall i | 0 <= i < |a + b|
      ensures Keys(a + b)[i] == (Keys(a) + Keys(b))[i]
    {
      assert Keys(a + b)[i] == KeyOf((a + b)[i]);
    }
  }

  lemma {:induction false} KeysPermute(a: seq<Instance>, b: seq<Instance>)
    requires multiset(a) == multiset(b)
    ensures multiset(Keys(a)) == multiset(Keys(b))
  {
    hide KeyOf;
    SameLength(a, b);
    if a != [] {
      var k := RemoveCommon(a, 0, b);
      assert Without(a, 0) == a[1..];
      KeysPermute(a[1..], Without(b, k));
      KeysWithout(b, k);
      assert Keys(a) == [KeyOf(a[0])] + Keys(a[1..]);
    }
  }

  lemma MiddleOut<T>(before: seq<T>, x: T, behind: seq<T>)
    ensures multiset(before + ([x] + behind)) == multiset(before + behind) + multiset{x}
  {
  }

  lemma SplitAt<T>(s: seq<T>, k: nat)
    requires k < |s|
    ensures s == s[..k] + ([s[k]] + s[k + 1..])
  {
  }

  lemma KeysOne(x: Instance)
    ensures Keys([x]) == [KeyOf(x)]
  {
    hide KeyOf;
  }

  lemma KeysParts(b: seq<Instance>, k: nat)
    requires k < |b|
    ensures Keys(b) == Keys(b[..k]) + ([KeyOf(b[k])] + Keys(b[k + 1..]))
    ensures Keys(Without(b, k)) == Keys(b[..k]) + Keys(b[k + 1..])
  {
    hide KeyOf, Keys;
    var middle := [b[k]];
    KeysAppend(b[..k], b[k + 1..]);
    KeysAppend(b[..k], middle + b[k + 1..]);
    KeysAppend(middle, b[k + 1..]);
    KeysOne(b[k]);
    SplitAt(b, k);
  }

  lemma KeysWithout(b: seq<Instance>, k: nat)
    requires k < |b|
    ensures multiset(Keys(b)) == multiset(Keys(Without(b, k))) + multiset{KeyOf(b[k])}
  {
    hide KeyOf, Keys, Without;
    KeysParts(b, k);
    MiddleOut(Keys(b[..k]), KeyOf(b[k]), Keys(b[k + 1..]));
  }

  ghost predicate SortedKeys(k: seq<SortKey>) {
    forall i, j :: 0 <= i < j < |k| ==> !KeyBefore(k[j], k[i])
  }

  lemma HeadIsLeast(a: seq<SortKey>, b: seq<SortKey>)
    requires SortedKeys(a) && a != [] && b != [] && multiset(a) == multiset(b)
    ensures !KeyBefore(b[0], a[0])
  {
    assert b[0] in multiset(b);
    assert b[0] in multiset(a);
    var m :| 0 <= m < |a| && a[m] == b[0];
    KeyTotal(a[0], a[0]);
  }

  lemma {:induction false} SortedKeysUnique(a: seq<SortKey>, b: seq<SortKey>)
    requires SortedKeys(a) && SortedKeys(b) && multiset(a) == multiset(b)
    ensures a == b
  {
    assert |a| == |multiset(a)| == |multiset(b)| == |b|;
    if a != [] {
      HeadIsLeast(a, b);
      HeadIsLeast(b, a);
      KeyTotal(a[0], b[0]);
      assert a == [a[0]] + a[1..] && b == [b[0]] + b[1..];
      assert multiset(a[1..]) == multiset(a) - multiset{a[0]} == multiset(b[1..]);
      SortedKeysUnique(a[1..], b[1..]);
    }
  }

  /** Sorting any two permutations puts equal keys at equal places. */
  lemma SortKeysAgree(a: seq<Instance>, b: seq<Instance>)
    requires multiset(a) == multiset(b)
    ensures |StableSort(a)| == |StableSort(b)| && Keys(StableSort(a)) == Keys(StableSort(b))
  {
    SortSorts(a);
    SortSorts(b);
    hide KeyBefore, StableSort;
    KeysPermute(StableSort(a), StableSort(b));
    SortedKeysUnique(Keys(StableSort(a)), Keys(StableSort(b)));
  }

  // ---------------------------------------------------------------- participants of a permutation

  lemma {:induction false} ParticipantsAppend(a: seq<Instance>, b: seq<Instance>)
    ensures Participants(a + b) == Participants(a) + Participants(b)
  {
    hide Normalized;
    if b == [] {
      assert a + b == a;
    } else {
      ParticipantsAppend(a, b[..|b| - 1]);
      assert (a + b)[..|a + b| - 1] == a + b[..|b| - 1];
    }
  }

  lemma {:induction false} ParticipantsPermute(a: seq<Instance>, b: seq<Instance>)
    requires multiset(a) == multiset(b)
    ensures multiset(Participants(a)) == multiset(Participants(b))
  {
    hide Normalized;
    SameLength(a, b);
    if a != [] {
      var k := RemoveCommon(a, 0, b);
      assert Without(a, 0) == a[1..];
      ParticipantsPermute(a[1..], Without(b, k));
      ParticipantsWithout(a, 0);
      ParticipantsWithout(b, k);
    }
  }

  lemma ParticipantsWithout(b: seq<Instance>, k: nat)
    requires k < |b|
    ensures multiset(Participants(b)) == multiset(Participants(Without(b, k))) + multiset(Participants([b[k]]))
  {
    hide Participants;
    ParticipantsAppend(b[..k], b[k + 1..]);
    ParticipantsAppend(b[..k], [b[k]] + b[k + 1..]);
    ParticipantsAppend([b[k]], b[k + 1..]);
    assert b == b[..k] + ([b[k]] + b[k + 1..]);
  }

  // ---------------------------------------------------------------- distinct ids: nothing depends on the order

  ghost predicate DistinctIds(s: seq<Instance>) {
    forall i, j :: 0 <= i < j < |s| ==> s[i].instanceID != s[j].instanceID
  }

  lemma SameIdSameInstance(s: seq<Instance>, a: Instance, b: Instance)
    requires DistinctIds(s) && a in multiset(s) && b in multiset(s) && a.instanceID == b.instanceID
    ensures a == b
  {
    var i :| 0 <= i < |s| && s[i] == a;
    var j :| 0 <= j < |s| && s[j] == b;
  }

  lemma SortOrderIndependent(a: seq<Instance>, b: seq<Instance>)
    requires multiset(a) == multiset(b) && DistinctIds(a)
    ensures StableSort(a) == StableSort(b)
  {
    hide StableSort;
    var p, q := StableSort(a), StableSort(b);
    SortKeysAgree(a, b);
    SortSorts(a);
    SortSorts(b);
    forall i | 0 <= i < |p|
      ensures p[i] == q[i]
    {
      assert Keys(p)[i] == Keys(q)[i];
      assert p[i] in multiset(p) && q[i] in multiset(q);
      SameIdSameInstance(a, p[i], q[i]);
    }
  }

  /** For distinct normalised ids, any discovery order builds the same topology. */
  lemma BuildOrderIndependent(hashing: Hashing, ns: string, svc: string, a: seq<Instance>, b: seq<Instance>)
    requires multiset(a) == multiset(b) && DistinctIds(Participants(a))
    ensures Build(hashing, ns, svc, a) == Build(hashing, ns, svc, b)
  {
    hide StableSort, Participants, CanonicalText, DistinctIds;
    ParticipantsPermute(a, b);
    SortOrderIndependent(Participants(a), Participants(b));
  }
}
