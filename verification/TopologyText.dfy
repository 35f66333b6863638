/** The canonical text of a topology determines every field it renders. */
module TopologyText {
  import opened Text
  import opened Topology

  /** No separator inside: neither '|' nor a newline. */
  predicate Plain(s: string) {
    '|' !in s && '\n' !in s
  }

  ghost predicate PlainInstance(i: Instance) {
    Plain(i.instanceID) && Plain(i.state) && Plain(i.zone) && Plain(i.host) && Plain(i.version)
  }

  ghost predicate PlainInstances(instances: seq<Instance>) {
    forall i :: 0 <= i < |instances| ==> PlainInstance(instances[i])
  }

  /** Integers in the ranges of their Go types. */
  ghost predicate InRange(instances: seq<Instance>) {
    forall i :: 0 <= i < |instances| ==>
      IsInt64(instances[i].priority) && IsInt64(instances[i].weight) && IsInt64(instances[i].port)
  }

  lemma {:induction false} LineUnique(a: seq<string>, b: seq<string>, restA: string, restB: string)
    requires |a| == |b| > 0 && (forall i :: 0 <= i < |a| ==> Plain(a[i]) && Plain(b[i]))
    requires Line(a) + restA == Line(b) + restB
    ensures a == b && restA == restB
  {
    if |a| == 1 {
      assert Line(a) + restA == a[0] + ['\n'] + restA && Line(b) + restB == b[0] + ['\n'] + restB;
      SplitUnique('\n', a[0], restA, b[0], restB);
    } else {
      assert Line(a) + restA == a[0] + ['|'] + (Line(a[1..]) + restA);
      assert Line(b) + restB == b[0] + ['|'] + (Line(b[1..]) + restB);
      SplitUnique('|', a[0], Line(a[1..]) + restA, b[0], Line(b[1..]) + restB);
      LineUnique(a[1..], b[1..], restA, restB);
      assert a == [a[0]] + a[1..] && b == [b[0]] + b[1..];
    }
  }

  lemma {:induction false} LineNonEmpty(fields: seq<string>)
    requires fields != []
    ensures Line(fields) != ""
  {
  }

  ghost predicate SameFields(a: seq<Instance>, b: seq<Instance>) {
    |a| == |b| && forall i :: 0 <= i < |a| ==> Fields(a[i]) == Fields(b[i])
  }

  lemma FormatIntPlain(n: int)
    ensures Plain(FormatInt(n))
  {
  }

  lemma FieldsPlain(i: Instance)
    requires PlainInstance(i)
    ensures forall k :: 0 <= k < 8 ==> Plain(Fields(i)[k])
  {
    FormatIntPlain(i.priority);
    FormatIntPlain(i.weight);
    FormatIntPlain(i.port);
  }

  lemma {:induction false} LinesUnique(a: seq<Instance>, b: seq<Instance>)
    requires PlainInstances(a) && PlainInstances(b) && Lines(a) == Lines(b)
    ensures SameFields(a, b)
  {
    hide Line, Fields;
    if a == [] || b == [] {
      if a != [] { LineNonEmpty(Fields(a[0])); }
      if b != [] { LineNonEmpty(Fields(b[0])); }
    } else {
      FieldsPlain(a[0]);
      FieldsPlain(b[0]);
      LineUnique(Fields(a[0]), Fields(b[0]), Lines(a[1..]), Lines(b[1..]));
      LinesUnique(a[1..], b[1..]);
      assert forall i :: 0 < i < |a| ==> a[i] == a[1..][i - 1] && b[i] == b[1..][i - 1];
    }
  }

  /** Everything the text renders, as values. */
  ghost predicate SameRendered(a: Instance, b: Instance) {
    && a.instanceID == b.instanceID && a.state == b.state && a.priority == b.priority && a.weight == b.weight
    && a.zone == b.zone && a.host == b.host && a.port == b.port && a.version == b.version
  }

  lemma FieldsDetermine(a: Instance, b: Instance)
    requires Fields(a) == Fields(b)
    requires IsInt64(a.priority) && IsInt64(a.weight) && IsInt64(a.port)
    requires IsInt64(b.priority) && IsInt64(b.weight) && IsInt64(b.port)
    ensures SameRendered(a, b)
  {
    hide FormatInt;
    var fa, fb := Fields(a), Fields(b);
    assert fa[0] == fb[0] && fa[1] == fb[1] && fa[2] == fb[2] && fa[3] == fb[3];
    assert fa[4] == fb[4] && fa[5] == fb[5] && fa[6] == fb[6] && fa[7] == fb[7];
    ParseFormatRoundTrip(a.priority);
    ParseFormatRoundTrip(b.priority);
    ParseFormatRoundTrip(a.weight);
    ParseFormatRoundTrip(b.weight);
    ParseFormatRoundTrip(a.port);
    ParseFormatRoundTrip(b.port);
  }

  /** Equal canonical texts without stray separators come from equal lists of rendered instances. */
  lemma CanonicalInjective(ns: string, svc: string, a: seq<Instance>, ns': string, svc': string, b: seq<Instance>)
    requires '\n' !in Header(ns, svc) && '\n' !in Header(ns', svc')
    requires PlainInstances(a) && PlainInstances(b) && InRange(a) && InRange(b)
    requires CanonicalText(ns, svc, a) == CanonicalText(ns', svc', b)
    ensures Header(ns, svc) == Header(ns', svc')
    ensures |a| == |b| && forall i :: 0 <= i < |a| ==> SameRendered(a[i], b[i])
  {
    hide Lines, Fields, Header;
    assert CanonicalText(ns, svc, a) == Header(ns, svc) + ['\n'] + Lines(a);
    assert CanonicalText(ns', svc', b) == Header(ns', svc') + ['\n'] + Lines(b);
    SplitUnique('\n', Header(ns, svc), Lines(a), Header(ns', svc'), Lines(b));
    LinesUnique(a, b);
    forall i | 0 <= i < |a|
      ensures SameRendered(a[i], b[i])
    {
      FieldsDetermine(a[i], b[i]);
    }
  }

  /** Under one header, equal texts without stray separators come from equal lists of rendered instances. */
  lemma TextDeterminesRendered(ns: string, svc: string, a: seq<Instance>, b: seq<Instance>)
    requires PlainInstances(a) && PlainInstances(b) && InRange(a) && InRange(b)
    requires CanonicalText(ns, svc, a) == CanonicalText(ns, svc, b)
    ensures |a| == |b| && forall i :: 0 <= i < |a| ==> SameRendered(a[i], b[i])
  {
    hide Lines, Fields, Header;
    var head := Header(ns, svc) + "\n";
    assert Lines(a) == CanonicalText(ns, svc, a)[|head|..] && Lines(b) == CanonicalText(ns, svc, b)[|head|..];
    LinesUnique(a, b);
    forall i | 0 <= i < |a|
      ensures SameRendered(a[i], b[i])
    {
      FieldsDetermine(a[i], b[i]);
    }
  }

  lemma RenderedCandidates(t: Topology, u: Topology)
    requires |t.instances| == |u.instances|
    requires forall i :: 0 <= i < |t.instances| ==> SameRendered(t.instances[i], u.instances[i])
    ensures Candidates(t) == Candidates(u)
  {
    forall c
      ensures c in Candidates(t) <==> c in Candidates(u)
    {
    }
  }

  /** Rendered fields are all that ownership reads. */
  lemma RenderedDeterminesOwner(hashing: Hashing, t: Topology, u: Topology, shardKey: string)
    requires t.revision == u.revision && |t.instances| == |u.instances|
    requires forall i :: 0 <= i < |t.instances| ==> SameRendered(t.instances[i], u.instances[i])
    ensures var a, b := OwnerOf(hashing, t, shardKey), OwnerOf(hashing, u, shardKey);
            a.Some? == b.Some? && (a.Some? ==> a.value.instanceID == b.value.instanceID)
  {
    hide OwnerOf;
    RenderedCandidates(t, u);
    OwnerFromCandidates(hashing, t, u, shardKey);
  }
}
