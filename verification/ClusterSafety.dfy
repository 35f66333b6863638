/** Safety of every reachable state of the cluster: one writer per revision, bounded admission. */
module ClusterSafety {
  import opened Common
  import opened Rules
  import Quota
  import QuotaBounds
  import opened Topology
  import opened TopologyText
  import opened TopologyElectorate
  import TopologyManager
  import opened Admission
  import opened Ownership
  import opened Cluster

  // ---------------------------------------------------------------- the invariant holds in every reachable state

  /** Every store content ever in use stays within the cap. */
  ghost predicate Undisturbed(stores: map<string, Snapshot>, actions: seq<Action>, k: Option<Cap>) {
    && (forall id :: id in stores ==> Serves(stores[id], k))
    && (forall n :: 0 <= n < |actions| && actions[n].Install? ==> Serves(actions[n].snapshot, k))
  }

  lemma TickKeeps(w: World, s: State, k: Option<Cap>, a: Action)
    requires Invariant(w, s, k) && a.Tick?
    ensures Invariant(w, Next(w, s, a), k)
  {
    hide GoodNode, GoodEntry, CoherentAt;
    var t := Next(w, s, a);
    forall id | id in t.nodes
      ensures GoodNode(w, t, k, id, t.nodes[id])
    {
      NodeGrows(w, s, t, k, id, s.nodes[id]);
    }
    forall n | 0 <= n < |t.log|
      ensures GoodEntry(w, t.lists, t.now, k, t.log[n])
    {
      EntryGrows(w, s.lists, t.lists, s.now, t.now, k, s.log[n]);
    }
  }

  lemma LocalKeeps(w: World, s: State, k: Option<Cap>, a: Action)
    requires Invariant(w, s, k) && !a.Tick? && !a.Commit? && a.server in s.nodes
    requires a.Install? ==> Serves(a.snapshot, k)
    ensures Invariant(w, Next(w, s, a), k)
  {
    hide GoodNode, GoodEntry, CoherentAt, Local, Serves;
    var t := Next(w, s, a);
    var node := s.nodes[a.server];
    assert s.lists <= t.lists;
    if a.Route? {
      RouteKeepsNode(w, s, t, k, a.server, node, a);
    } else if a.Refresh? {
      RefreshKeepsNode(w, s, t, k, a.server, node, a);
    } else {
      LocalKeepsNode(w, s, k, a.server, node, a);
      NodeGrows(w, s, t, k, a.server, Local(w, a.server, node, s.now, a));
    }
    forall id | id in t.nodes
      ensures GoodNode(w, t, k, id, t.nodes[id])
    {
      if id != a.server {
        NodeGrows(w, s, t, k, id, s.nodes[id]);
      }
    }
    forall n | 0 <= n < |t.log|
      ensures GoodEntry(w, t.lists, t.now, k, t.log[n])
    {
      EntryGrows(w, s.lists, t.lists, s.now, t.now, k, s.log[n]);
    }
  }

  lemma AfterOneMore(cfg: Quota.Config, calls: seq<Quota.Call>, c: Quota.Call)
    ensures Quota.After(cfg, calls + [c]) == Quota.Step(cfg, Quota.After(cfg, calls), c).0
  {
    hide Quota.Step;
    assert (calls + [c])[..|calls|] == calls;
  }

  lemma CallsOneMore(log: seq<Entry>, e: Entry, id: string)
    ensures CallsOf(log + [e], id) == if e.server == id then CallsOf(log, id) + [e.call] else CallsOf(log, id)
  {
    assert (log + [e])[..|log|] == log;
  }

  lemma CommitKeepsNode(w: World, s: State, t: State, k: Option<Cap>, id: string, node: Node, flight: nat)
    requires GoodNode(w, s, k, id, node) && flight in node.flights && node.flights[flight].phase.Timed?
    requires var (node', entry) := Committed(w, id, node, flight, s.now);
             t.lists == s.lists && t.now == s.now && t.log == s.log + [entry]
    ensures GoodNode(w, t, k, id, Committed(w, id, node, flight, s.now).0)
    ensures GoodEntry(w, t.lists, t.now, k, Committed(w, id, node, flight, s.now).1)
    ensures CoherentAt(w, t.log, |s.log|)
  {
    hide Quota.Step, Serves, TopologyManager.Grounded, OwnedBy, GoodRequest, GoodLimit, CallOf;
    var entry := Committed(w, id, node, flight, s.now).1;
    CallsOneMore(s.log, entry, id);
    AfterOneMore(w.quota(id), CallsOf(s.log, id), entry.call);
    assert t.log[..|s.log|] == s.log;
    assert GoodFlight(w, s.lists, s.now, k, id, node.flights[flight]);
    CallOfTwice(node.flights[flight].req, node.flights[flight].phase.limit, node.flights[flight].phase.time);
  }

  lemma CallOfTwice(req: Request, limit: Quota.Limit, time: int)
    ensures var c := CallOf(req, limit, time); c.limit == limit && c.time == time
  {
  }

  lemma CoherentExtends(w: World, log: seq<Entry>, e: Entry)
    requires Coherent(w, log) && CoherentAt(w, log + [e], |log|)
    ensures Coherent(w, log + [e])
  {
    hide Quota.Step;
    forall n | 0 <= n < |log + [e]|
      ensures CoherentAt(w, log + [e], n)
    {
      if n < |log| {
        assert CoherentAt(w, log, n);
        assert (log + [e])[..n] == log[..n];
      }
    }
  }

  lemma CommitKeeps(w: World, s: State, k: Option<Cap>, a: Action)
    requires Invariant(w, s, k) && a.Commit? && a.server in s.nodes
    requires a.flight in s.nodes[a.server].flights && s.nodes[a.server].flights[a.flight].phase.Timed?
    ensures Invariant(w, Next(w, s, a), k)
  {
    hide GoodNode, GoodEntry, CoherentAt, Coherent;
    var t := Next(w, s, a);
    var entry := Committed(w, a.server, s.nodes[a.server], a.flight, s.now).1;
    CommitKeepsNode(w, s, t, k, a.server, s.nodes[a.server], a.flight);
    CoherentExtends(w, s.log, entry);
    forall id | id in t.nodes
      ensures GoodNode(w, t, k, id, t.nodes[id])
    {
      if id != a.server {
        CommitOther(s.log, entry, id, w, a.server, s.nodes[a.server], a.flight, s.now);
        NodeGrows(w, s, t, k, id, s.nodes[id]);
      }
    }
    forall n | 0 <= n < |s.log|
      ensures s.log[n].committed <= s.now
    {
      EntryCommitted(w, s.lists, s.now, k, s.log[n]);
    }
  }

  lemma CommitOther(log: seq<Entry>, e: Entry, id: string, w: World, server: string, node: Node, flight: nat, now: int)
    requires flight in node.flights && node.flights[flight].phase.Timed? &&
      e == Committed(w, server, node, flight, now).1
    requires id != server
    ensures CallsOf(log + [e], id) == CallsOf(log, id)
  {
    CallsOneMore(log, e, id);
  }

  lemma EntryCommitted(w: World, lists: seq<seq<Instance>>, now: int, k: Option<Cap>, e: Entry)
    requires GoodEntry(w, lists, now, k, e)
    ensures e.committed <= now
  {
  }

  lemma InitialHolds(w: World, stores: map<string, Snapshot>, start: int, k: Option<Cap>)
    requires forall id :: id in stores ==> Serves(stores[id], k)
    ensures Invariant(w, Initial(stores, start), k)
  {
    hide Serves;
  }

  lemma {:induction false} InvariantReached(w: World, stores: map<string, Snapshot>, start: int, actions: seq<Action>,
                                            k: Option<Cap>)
    requires Undisturbed(stores, actions, k)
    ensures Invariant(w, Reached(w, stores, start, actions), k)
  {
    hide Invariant, Next, Serves, Initial;
    if actions == [] {
      InitialHolds(w, stores, start, k);
    } else {
      var last := |actions| - 1;
      InvariantReached(w, stores, start, actions[..last], k);
      NextKeeps(w, Reached(w, stores, start, actions[..last]), k, actions[last]);
    }
  }

  lemma NextKeeps(w: World, s: State, k: Option<Cap>, a: Action)
    requires Invariant(w, s, k) && (a.Install? ==> Serves(a.snapshot, k))
    ensures Invariant(w, Next(w, s, a), k)
  {
    hide Invariant, Serves, Local, Committed;
    if a.Tick? {
      TickKeeps(w, s, k, a);
    } else if a.server in s.nodes {
      if !a.Commit? {
        LocalKeeps(w, s, k, a);
      } else if a.flight in s.nodes[a.server].flights && s.nodes[a.server].flights[a.flight].phase.Timed? {
        CommitKeeps(w, s, k, a);
      }
    }
  }

  // ---------------------------------------------------------------- a single writer per revision

  function TextOf(w: World, found: seq<Instance>): string {
    CanonicalText(w.topology.namespace, w.topology.service, Ordered(found))
  }

  function BuildOf(w: World, found: seq<Instance>): Topology {
    Build(w.hashing, w.topology.namespace, w.topology.service, found)
  }

  /**
   Equal revisions in the run mean the same electorate.  `SameOwnersExactly` shows that nothing weaker
   makes revisions name owners.
   */
  ghost predicate RevisionsTell(w: World, lists: seq<seq<Instance>>) {
    forall m, n :: 0 <= m < |lists| && 0 <= n < |lists| ==>
      BuildOf(w, lists[m]).revision == BuildOf(w, lists[n]).revision ==>
        SameElectorate(BuildOf(w, lists[m]), BuildOf(w, lists[n]))
  }

  /** Equal revisions name the same owner for every shard key. */
  lemma RevisionDeterminesOwner(w: World, lists: seq<seq<Instance>>, m: nat, n: nat, shardKey: string)
    requires RevisionsTell(w, lists) && m < |lists| && n < |lists|
    requires BuildOf(w, lists[m]).revision == BuildOf(w, lists[n]).revision
    ensures SameOwner(w.hashing, BuildOf(w, lists[m]), BuildOf(w, lists[n]), shardKey)
  {
    hide BuildOf, SameElectorate, SameOwner;
    ElectorateSuffices(w.hashing, BuildOf(w, lists[m]), BuildOf(w, lists[n]), shardKey);
  }

  // ---------------------------------------------------------------- when revisions tell

  /** Discovery answers that take part render without stray separators and with in-range integers. */
  ghost predicate CleanLists(w: World, lists: seq<seq<Instance>>) {
    forall n :: 0 <= n < |lists| ==> PlainInstances(Ordered(lists[n])) && InRange(Ordered(lists[n]))
  }

  /** No two canonical texts of the run share a digest. */
  ghost predicate NoCollision(w: World, lists: seq<seq<Instance>>) {
    forall m, n :: 0 <= m < |lists| && 0 <= n < |lists| ==>
      w.hashing.digest(TextOf(w, lists[m])) == w.hashing.digest(TextOf(w, lists[n])) ==>
        TextOf(w, lists[m]) == TextOf(w, lists[n])
  }

  /** Without stray separators and digest collisions, equal revisions mean the same electorate. */
  lemma CleanListsTell(w: World, lists: seq<seq<Instance>>)
    requires CleanLists(w, lists) && NoCollision(w, lists)
    ensures RevisionsTell(w, lists)
  {
    hide CanonicalText, Ordered, PlainInstances, InRange, SameRendered, Candidates;
    forall m, n | 0 <= m < |lists| && 0 <= n < |lists| &&
      BuildOf(w, lists[m]).revision == BuildOf(w, lists[n]).revision
      ensures SameElectorate(BuildOf(w, lists[m]), BuildOf(w, lists[n]))
    {
      assert TextOf(w, lists[m]) == TextOf(w, lists[n]);
      TextDeterminesRendered(w.topology.namespace, w.topology.service, Ordered(lists[m]), Ordered(lists[n]));
      RenderedCandidates(BuildOf(w, lists[m]), BuildOf(w, lists[n]));
    }
  }

  // ---------------------------------------------------------------- one writer

  lemma OwnersAgree(w: World, lists: seq<seq<Instance>>, a: string, b: string, reqA: Request, reqB: Request)
    requires RevisionsTell(w, lists) && OwnedBy(w, lists, a, reqA) && OwnedBy(w, lists, b, reqB)
    requires ShardKeyOf(reqA) == ShardKeyOf(reqB) && reqA.topologyRevision == reqB.topologyRevision
    ensures a == b
  {
    hide RevisionsTell, Build, OwnerOf, ShardKeyOf;
    var m :| 0 <= m < |lists| && OwnsUnder(w, lists[m], a, reqA);
    var n :| 0 <= n < |lists| && OwnsUnder(w, lists[n], b, reqB);
    RevisionDeterminesOwner(w, lists, m, n, ShardKeyOf(reqA));
  }

  /**
   In every reachable state, two requests for one shard key that carry the same topology revision
   and passed a critical section did so on the same instance, whatever refreshes, failures of
   discovery, rule swaps and delays came in between, provided that equal revisions of the run mean the
   same electorate.
   */
  lemma SingleWriter(w: World, stores: map<string, Snapshot>, start: int, actions: seq<Action>, i: nat, j: nat)
    requires var s := Reached(w, stores, start, actions);
             && RevisionsTell(w, s.lists)
             && i < |s.log| && j < |s.log|
             && ShardKeyOf(s.log[i].req) == ShardKeyOf(s.log[j].req)
             && s.log[i].req.topologyRevision == s.log[j].req.topologyRevision
    ensures var s := Reached(w, stores, start, actions); s.log[i].server == s.log[j].server
  {
    hide Reached, RevisionsTell, OwnedBy, GoodNode, Coherent, ShardKeyOf, GoodLimit, CallOf;
    InvariantReached(w, stores, start, actions, None);
    var s := Reached(w, stores, start, actions);
    assert GoodEntry(w, s.lists, s.now, None, s.log[i]) && GoodEntry(w, s.lists, s.now, None, s.log[j]);
    OwnersAgree(w, s.lists, s.log[i].server, s.log[j].server, s.log[i].req, s.log[j].req);
  }

  /** In particular when no instance field that discovery lists has a stray separator, and no digests collide. */
  lemma SingleWriterClean(w: World, stores: map<string, Snapshot>, start: int, actions: seq<Action>, i: nat, j: nat)
    requires var s := Reached(w, stores, start, actions);
             && CleanLists(w, s.lists) && NoCollision(w, s.lists)
             && i < |s.log| && j < |s.log|
             && ShardKeyOf(s.log[i].req) == ShardKeyOf(s.log[j].req)
             && s.log[i].req.topologyRevision == s.log[j].req.topologyRevision
    ensures var s := Reached(w, stores, start, actions); s.log[i].server == s.log[j].server
  {
    hide Reached, CleanLists, NoCollision, RevisionsTell, ShardKeyOf;
    CleanListsTell(w, Reached(w, stores, start, actions).lists);
    SingleWriter(w, stores, start, actions, i, j);
  }

  // ---------------------------------------------------------------- bounded admission

  /** The cost granted to one bucket key by all servers, at clock readings from `lo` to `hi`. */
  ghost function TotalGranted(log: seq<Entry>, key: string, lo: int, hi: int): int {
    if log == [] then 0
    else TotalGranted(log[..|log| - 1], key, lo, hi) + ShareOf(log[|log| - 1], key, lo, hi)
  }

  ghost function ShareOf(e: Entry, key: string, lo: int, hi: int): int {
    Quota.Share(e.call, e.outcome, key, lo, hi)
  }

  /** The same for a set of servers. */
  ghost function GrantedBy(log: seq<Entry>, ids: set<string>, key: string, lo: int, hi: int): int {
    if log == [] then 0
    else
      var last := log[|log| - 1];
      GrantedBy(log[..|log| - 1], ids, key, lo, hi) + if last.server in ids then ShareOf(last, key, lo, hi) else 0
  }

  lemma {:induction false} TotalIsGrantedBy(log: seq<Entry>, ids: set<string>, key: string, lo: int, hi: int)
    requires forall n :: 0 <= n < |log| && ShareOf(log[n], key, lo, hi) != 0 ==> log[n].server in ids
    ensures TotalGranted(log, key, lo, hi) == GrantedBy(log, ids, key, lo, hi)
  {
    hide ShareOf;
    if log != [] {
      TotalIsGrantedBy(log[..|log| - 1], ids, key, lo, hi);
    }
  }

  lemma {:induction false} GrantedBySplits(log: seq<Entry>, ids: set<string>, id: string, key: string, lo: int, hi: int)
    requires id in ids
    ensures GrantedBy(log, ids, key, lo, hi) ==
      GrantedBy(log, ids - {id}, key, lo, hi) + GrantedBy(log, {id}, key, lo, hi)
  {
    hide ShareOf;
    if log != [] {
      GrantedBySplits(log[..|log| - 1], ids, id, key, lo, hi);
    }
  }

  lemma {:induction false} GrantedByNone(log: seq<Entry>, key: string, lo: int, hi: int)
    ensures GrantedBy(log, {}, key, lo, hi) == 0
  {
    if log != [] {
      GrantedByNone(log[..|log| - 1], key, lo, hi);
    }
  }

  lemma CoherentPrefix(w: World, log: seq<Entry>, n: nat)
    requires Coherent(w, log) && n <= |log|
    ensures Coherent(w, log[..n])
  {
    hide Quota.Step;
    forall m | 0 <= m < n
      ensures CoherentAt(w, log[..n], m)
    {
      assert CoherentAt(w, log, m);
      assert log[..n][..m] == log[..m];
    }
  }

  lemma CallsOfLast(log: seq<Entry>, id: string)
    requires log != []
    ensures var last := |log| - 1;
            CallsOf(log, id) == if log[last].server == id then CallsOf(log[..last], id) + [log[last].call]
              else CallsOf(log[..last], id)
  {
  }

  /** What one server grants according to the log is what its engine's run grants. */
  lemma {:induction false} GrantedByOne(w: World, log: seq<Entry>, id: string, key: string, lo: int, hi: int)
    requires Coherent(w, log)
    ensures GrantedBy(log, {id}, key, lo, hi) == Quota.Granted(w.quota(id), CallsOf(log, id), key, lo, hi)
  {
    hide Quota.Step, Quota.Share, Coherent;
    if log != [] {
      var last := |log| - 1;
      CoherentPrefix(w, log, last);
      GrantedByOne(w, log[..last], id, key, lo, hi);
      CallsOfLast(log, id);
      if log[last].server == id {
        var calls := CallsOf(log, id);
        assert calls[..|calls| - 1] == CallsOf(log[..last], id);
        LastOutcome(w, log);
      }
    }
  }

  lemma LastOutcome(w: World, log: seq<Entry>)
    requires Coherent(w, log) && log != []
    ensures var last := |log| - 1;
            var calls := CallsOf(log, log[last].server);
            calls != [] && log[last].outcome == Quota.OutcomeAt(w.quota(log[last].server), calls, |calls| - 1)
  {
    hide Quota.Step;
    var last := |log| - 1;
    CallsOfLast(log, log[last].server);
    var calls := CallsOf(log, log[last].server);
    assert CoherentAt(w, log, last);
    assert calls[..|calls| - 1] == CallsOf(log[..last], log[last].server);
  }

  /** At most `lag` passes between a clock reading and its critical section. */
  ghost predicate Prompt(log: seq<Entry>, lag: int) {
    forall n :: 0 <= n < |log| ==> log[n].committed - log[n].call.time <= lag
  }

  ghost predicate InOrder(log: seq<Entry>) {
    && (forall n :: 0 <= n < |log| ==> log[n].call.time <= log[n].committed)
    && (forall m, n :: 0 <= m < n < |log| ==> log[m].committed <= log[n].committed)
  }

  /** Prompt critical sections in real-time order see clock readings with bounded skew. */
  lemma {:induction false} PromptIsSkewed(log: seq<Entry>, id: string, lag: int)
    requires Prompt(log, lag) && InOrder(log)
    ensures Quota.Skewed(CallsOf(log, id), lag)
    ensures forall n :: 0 <= n < |CallsOf(log, id)| ==>
      log != [] && CallsOf(log, id)[n].time <= log[|log| - 1].committed
  {
    if log != [] {
      var last := |log| - 1;
      PromptIsSkewed(log[..last], id, lag);
      CallsOfLast(log, id);
      if last > 0 {
        assert log[last - 1].committed <= log[last].committed;
      }
    }
  }

  /** Every call of a server comes from an entry of the log. */
  lemma {:induction false} CallSource(log: seq<Entry>, id: string, n: nat) returns (m: nat)
    requires n < |CallsOf(log, id)|
    ensures m < |log| && log[m].server == id && log[m].call == CallsOf(log, id)[n]
  {
    var last := |log| - 1;
    CallsOfLast(log, id);
    if log[last].server == id && n == |CallsOf(log, id)| - 1 {
      m := last;
    } else {
      m := CallSource(log[..last], id, n);
    }
  }

  /** The calls on one server for a bucket of the capped rule all carry limits within the cap. */
  lemma CallsCarryLimit(w: World, s: State, k: Cap, id: string, quotaKey: string)
    requires Invariant(w, s, Some(k)) && ':' !in k.code && ':' !in k.rule
    ensures QuotaBoundsReady(CallsOf(s.log, id), BucketKey(k.code, k.rule, quotaKey), k.limit)
  {
    hide BucketKey, OwnedBy, GoodNode, Coherent, Quota.Within;
    var calls := CallsOf(s.log, id);
    forall n | 0 <= n < |calls|
      ensures calls[n].Proper()
      ensures calls[n].key == BucketKey(k.code, k.rule, quotaKey) ==> Quota.Within(calls[n].limit, k.limit)
    {
      var m := CallSource(s.log, id, n);
      var e := s.log[m];
      assert GoodEntry(w, s.lists, s.now, Some(k), e);
      if e.call.key == BucketKey(k.code, k.rule, quotaKey) {
        BucketKeyInjective(k.code, k.rule, quotaKey, e.req.applicationCode, e.req.ruleId, e.req.quotaKey);
      }
    }
  }

  ghost predicate QuotaBoundsReady(calls: seq<Quota.Call>, key: string, limit: Quota.Limit) {
    Quota.AllProper(calls) && QuotaBounds.AllWithin(calls, key, limit)
  }

  /** The share of one quota that every server may grant in an interval. */
  function PerServer(limit: Quota.Limit, lag: int, lo: int, hi: int): int
    requires limit.Proper()
  {
    (QuotaBounds.CeilDiv(hi - lo + lag, limit.windowSeconds * Quota.SECOND) + 1) * limit.quota
  }

  /** Every server's settings are those of a constructed engine, with a grace period that covers the lag. */
  ghost predicate Settled(w: World, lag: int) {
    forall id :: w.quota(id).Valid() && 0 <= lag <= w.quota(id).grace
  }

  lemma {:induction false} GrantedByBound(w: World, log: seq<Entry>, ids: set<string>, key: string, limit: Quota.Limit,
                                          lag: int, lo: int, hi: int)
    requires limit.Proper() && lo <= hi && Coherent(w, log) && Prompt(log, lag) && InOrder(log)
    requires Settled(w, lag)
    requires forall id :: id in ids ==> QuotaBoundsReady(CallsOf(log, id), key, limit)
    ensures GrantedBy(log, ids, key, lo, hi) <= |ids| * PerServer(limit, lag, lo, hi)
  {
    hide Coherent, Prompt, InOrder, PerServer, Settled, QuotaBoundsReady;
    if ids == {} {
      GrantedByNone(log, key, lo, hi);
    } else {
      var id :| id in ids;
      GrantedByBound(w, log, ids - {id}, key, limit, lag, lo, hi);
      GrantedBySplits(log, ids, id, key, lo, hi);
      assert w.quota(id).Valid() && 0 <= lag <= w.quota(id).grace by { SettledAt(w, lag, id); }
      OneServerBound(w, log, id, key, limit, lag, lo, hi);
      QuotaBounds.Distribute(|ids| - 1, PerServer(limit, lag, lo, hi));
    }
  }

  lemma SettledAt(w: World, lag: int, id: string)
    requires Settled(w, lag)
    ensures w.quota(id).Valid() && 0 <= lag <= w.quota(id).grace
  {
  }

  lemma OneServerBound(w: World, log: seq<Entry>, id: string, key: string, limit: Quota.Limit, lag: int, lo: int,
                       hi: int)
    requires limit.Proper() && lo <= hi && Coherent(w, log) && Prompt(log, lag) && InOrder(log)
    requires w.quota(id).Valid() && 0 <= lag <= w.quota(id).grace
    requires QuotaBoundsReady(CallsOf(log, id), key, limit)
    ensures GrantedBy(log, {id}, key, lo, hi) <= PerServer(limit, lag, lo, hi)
  {
    hide Coherent, Prompt, InOrder, Quota.Granted;
    GrantedByOne(w, log, id, key, lo, hi);
    PromptIsSkewed(log, id, lag);
    QuotaBounds.SlidingBoundWithin(w.quota(id), CallsOf(log, id), key, limit, lag, lo, hi);
  }

  // ---------------------------------------------------------------- owners and revisions of an interval

  /** The topology revisions carried by the requests granted in the interval. */
  ghost function RevisionsOf(log: seq<Entry>, key: string, lo: int, hi: int): set<string> {
    set n | 0 <= n < |log| && ShareOf(log[n], key, lo, hi) != 0 :: log[n].req.topologyRevision
  }

  /** The instances that own a shard key under one of the revisions. */
  ghost function OwnersUnder(w: World, lists: seq<seq<Instance>>, revisions: set<string>, shardKey: string)
      : set<string> {
    set n | 0 <= n < |lists| && BuildOf(w, lists[n]).revision in revisions &&
      OwnerOf(w.hashing, BuildOf(w, lists[n]), shardKey).Some?
      :: OwnerOf(w.hashing, BuildOf(w, lists[n]), shardKey).value.instanceID
  }

  /** One revision contributes at most one owner. */
  lemma {:induction false} OwnersAtMostRevisions(w: World, lists: seq<seq<Instance>>, revisions: set<string>,
                                                 shardKey: string)
    requires RevisionsTell(w, lists)
    ensures |OwnersUnder(w, lists, revisions, shardKey)| <= |revisions|
  {
    hide RevisionsTell, BuildOf, OwnerOf;
    var owners := OwnersUnder(w, lists, revisions, shardKey);
    if owners != {} {
      var n :| 0 <= n < |lists| && BuildOf(w, lists[n]).revision in revisions &&
        OwnerOf(w.hashing, BuildOf(w, lists[n]), shardKey).Some?;
      var revision := BuildOf(w, lists[n]).revision;
      var owner := OwnerOf(w.hashing, BuildOf(w, lists[n]), shardKey).value.instanceID;
      OwnersAtMostRevisions(w, lists, revisions - {revision}, shardKey);
      var rest := OwnersUnder(w, lists, revisions - {revision}, shardKey);
      forall o | o in owners
        ensures o in rest + {owner}
      {
        var m :| 0 <= m < |lists| && BuildOf(w, lists[m]).revision in revisions &&
          OwnerOf(w.hashing, BuildOf(w, lists[m]), shardKey).Some?
          && OwnerOf(w.hashing, BuildOf(w, lists[m]), shardKey).value.instanceID == o;
        if BuildOf(w, lists[m]).revision == revision {
          RevisionDeterminesOwner(w, lists, m, n, shardKey);
        }
      }
      QuotaBounds.SubsetSize(owners, rest + {owner});
    }
  }

  /** A server that ran a critical section owns the shard key under the revision that the request carries. */
  lemma ServerIsOwner(w: World, s: State, k: Option<Cap>, n: nat, revisions: set<string>)
    requires Invariant(w, s, k) && n < |s.log| && s.log[n].req.topologyRevision in revisions
    ensures s.log[n].server in OwnersUnder(w, s.lists, revisions, ShardKeyOf(s.log[n].req))
  {
    hide GoodNode, Coherent, Build, OwnerOf, ShardKey, GoodRequest, GoodLimit, CallOf;
    assert GoodEntry(w, s.lists, s.now, k, s.log[n]);
    var m :| 0 <= m < |s.lists| && OwnsUnder(w, s.lists[m], s.log[n].server, s.log[n].req);
  }

  /** Requests for a bucket of the capped rule name that rule and the bucket's quota key. */
  lemma EntryNames(w: World, s: State, k: Cap, quotaKey: string, n: nat)
    requires Invariant(w, s, Some(k)) && PlainName(k.code) && PlainName(k.rule) && n < |s.log|
    ensures var req := s.log[n].req;
            && PlainName(req.applicationCode) && PlainName(req.ruleId)
            && (s.log[n].call.key == BucketKey(k.code, k.rule, quotaKey) <==>
                  req.applicationCode == k.code && req.ruleId == k.rule && req.quotaKey == quotaKey)
  {
    hide GoodNode, Coherent, OwnedBy, GoodLimit, BucketKey;
    var req := s.log[n].req;
    assert GoodEntry(w, s.lists, s.now, Some(k), s.log[n]);
    if s.log[n].call.key == BucketKey(k.code, k.rule, quotaKey) {
      BucketKeyInjective(k.code, k.rule, quotaKey, req.applicationCode, req.ruleId, req.quotaKey);
    }
  }

  /** Every critical section charges the cost that its request names, or one if it names none. */
  lemma EntryCost(w: World, s: State, k: Option<Cap>, n: nat)
    requires Invariant(w, s, k) && n < |s.log|
    ensures s.log[n].call.cost == if s.log[n].req.cost >= 1 then s.log[n].req.cost else 1
  {
    hide GoodNode, Coherent, OwnedBy, GoodRequest, GoodLimit;
    assert GoodEntry(w, s.lists, s.now, k, s.log[n]);
  }

  /** The cost that the granted requests themselves name. */
  ghost function TotalRequested(log: seq<Entry>, key: string, lo: int, hi: int): int {
    if log == [] then 0
    else
      var last := log[|log| - 1];
      TotalRequested(log[..|log| - 1], key, lo, hi)
      + if last.call.key == key && lo <= last.call.time <= hi &&
        last.outcome.verdict == Quota.Allowed then last.req.cost else 0
  }

  lemma {:induction false} RequestedIsGranted(log: seq<Entry>, key: string, lo: int, hi: int)
    requires forall n :: 0 <= n < |log| ==> log[n].call.cost == if log[n].req.cost >= 1 then log[n].req.cost else 1
    ensures TotalRequested(log, key, lo, hi) <= TotalGranted(log, key, lo, hi)
  {
    if log != [] {
      RequestedIsGranted(log[..|log| - 1], key, lo, hi);
    }
  }

  /** If all servers that grant from a bucket are among the owners, each of them grants its share at most. */
  lemma BucketBound(w: World, s: State, k: Cap, quotaKey: string, owners: set<string>, lag: int, lo: int, hi: int)
    requires Invariant(w, s, Some(k)) && k.limit.Proper() && PlainName(k.code) && PlainName(k.rule)
    requires Settled(w, lag) && lo <= hi && Prompt(s.log, lag)
    requires forall n :: 0 <= n < |s.log| && ShareOf(s.log[n], BucketKey(k.code, k.rule, quotaKey), lo, hi) != 0 ==>
      s.log[n].server in owners
    ensures TotalGranted(s.log, BucketKey(k.code, k.rule, quotaKey), lo, hi) <=
      |owners| * PerServer(k.limit, lag, lo, hi)
  {
    hide Invariant, Settled, Prompt, BucketKey, ShareOf, PerServer;
    var key := BucketKey(k.code, k.rule, quotaKey);
    TotalIsGrantedBy(s.log, owners, key, lo, hi);
    InvariantOrders(w, s, k);
    forall id | id in owners
      ensures QuotaBoundsReady(CallsOf(s.log, id), key, k.limit)
    {
      CallsCarryLimit(w, s, k, id, quotaKey);
    }
    GrantedByBound(w, s.log, owners, key, k.limit, lag, lo, hi);
  }

  /**
   In every interleaved run, a bucket of a rule that is absent or within a cap (Q, W) at all times is
   granted by the whole cluster, in an interval of length L, at most ceil((L + lag) / W) + 1 quotas
   for each distinct instance that owns it under the topology revisions of the interval's requests, and
   the costs that the granted requests name add up to no more;
   if equal revisions mean the same electorate, these instances are no more than the revisions.
   */
  lemma ClusterBound(w: World, stores: map<string, Snapshot>, start: int, actions: seq<Action>, k: Cap,
                     quotaKey: string, lag: int, lo: int, hi: int)
    requires Undisturbed(stores, actions, Some(k)) && k.limit.Proper() && PlainName(k.code) && PlainName(k.rule)
    requires Settled(w, lag) && lo <= hi && Prompt(Reached(w, stores, start, actions).log, lag)
    ensures var s := Reached(w, stores, start, actions);
            var key := BucketKey(k.code, k.rule, quotaKey);
            var revisions := RevisionsOf(s.log, key, lo, hi);
            var owners := OwnersUnder(w, s.lists, revisions, ShardKey(k.code, k.rule, quotaKey));
            && TotalGranted(s.log, key, lo, hi)
                 <= |owners|
                    * ((QuotaBounds.CeilDiv(hi - lo + lag, k.limit.windowSeconds * Quota.SECOND) + 1) * k.limit.quota)
            && TotalRequested(s.log, key, lo, hi) <= TotalGranted(s.log, key, lo, hi)
            && (RevisionsTell(w, s.lists) ==> |owners| <= |revisions|)
  {
    hide Reached, Invariant, RevisionsTell, Settled, Prompt, Undisturbed, OwnersUnder, ShardKey, BucketKey,
      PlainName;
    InvariantReached(w, stores, start, actions, Some(k));
    var s := Reached(w, stores, start, actions);
    var key := BucketKey(k.code, k.rule, quotaKey);
    var revisions := RevisionsOf(s.log, key, lo, hi);
    var shardKey := ShardKey(k.code, k.rule, quotaKey);
    var owners := OwnersUnder(w, s.lists, revisions, shardKey);
    forall n | 0 <= n < |s.log| && ShareOf(s.log[n], key, lo, hi) != 0
      ensures s.log[n].server in owners
    {
      EntryNames(w, s, k, quotaKey, n);
      ServerIsOwner(w, s, Some(k), n, revisions);
    }
    BucketBound(w, s, k, quotaKey, owners, lag, lo, hi);
    forall n | 0 <= n < |s.log|
      ensures s.log[n].call.cost == if s.log[n].req.cost >= 1 then s.log[n].req.cost else 1
    {
      EntryCost(w, s, Some(k), n);
    }
    RequestedIsGranted(s.log, key, lo, hi);
    if RevisionsTell(w, s.lists) {
      OwnersAtMostRevisions(w, s.lists, revisions, shardKey);
    }
  }

  lemma InvariantOrders(w: World, s: State, k: Cap)
    requires Invariant(w, s, Some(k))
    ensures Coherent(w, s.log) && InOrder(s.log)
  {
    hide GoodNode, Coherent, OwnedBy, CallOf;
    forall n | 0 <= n < |s.log|
      ensures s.log[n].call.time <= s.log[n].committed
    {
      assert GoodEntry(w, s.lists, s.now, Some(k), s.log[n]);
    }
  }
}
