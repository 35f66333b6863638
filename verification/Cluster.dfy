/**
 A cluster of servers as interleaved steps.  A request is in flight from its first rule check to
 the critical section, and anything may happen in between: topology refreshes, rule swaps, other
 requests on this and other servers, and the passage of time.
 */
module Cluster {
  import opened Common
  import opened Text
  import opened Rules
  import Quota
  import opened Topology
  import TopologyManager
  import opened Admission
  import opened Ownership

  /** What does not change: the hash functions, and the settings of each server. */
  datatype World = World(hashing: Hashing, topology: TopologyManager.Config, quota: string -> Quota.Config)

  /** How far a request has come. */
  datatype Phase =
    | Validated
    | Routed
    | Revalidated
    | Limited(limit: Quota.Limit)
    | Timed(limit: Quota.Limit, time: int)

  datatype Flight = Flight(req: Request, phase: Phase)

  /** One server, identified by its instance id. */
  datatype Node = Node(engine: Quota.State, cache: TopologyManager.Cache, store: Snapshot, flights: map<nat, Flight>)

  /** One pass through a critical section, with the time it happened. */
  datatype Entry = Entry(server: string, req: Request, call: Quota.Call, outcome: Quota.Outcome, committed: int)

  /** `lists` are the discovery answers so far and `log` the critical sections, both in order. */
  datatype State = State(now: int, nodes: map<string, Node>, lists: seq<seq<Instance>>, log: seq<Entry>)

  /** `started` is when a route read the clock to see whether the cache is live. */
  datatype Action =
    | Tick(elapsed: nat)
    | Install(server: string, snapshot: Snapshot)
    | Refresh(server: string, listed: Option<seq<Instance>>)
    | Receive(server: string, flight: nat, req: Request)
    | Route(server: string, flight: nat, started: int, listed: Option<seq<Instance>>)
    | Revalidate(server: string, flight: nat)
    | ReadLimit(server: string, flight: nat)
    | ReadClock(server: string, flight: nat)
    | Commit(server: string, flight: nat)

  function Answered(lists: seq<seq<Instance>>, listed: Option<seq<Instance>>): seq<seq<Instance>> {
    if listed.Some? then lists + [listed.value] else lists
  }

  function Initial(stores: map<string, Snapshot>, now: int): State {
    State(now, map id | id in stores :: Node(Quota.INITIAL, TopologyManager.EMPTY_CACHE, stores[id], map[]), [], [])
  }

  predicate InPhase(node: Node, flight: nat, phase: Phase) {
    flight in node.flights && node.flights[flight].phase == phase
  }

  function Advance(node: Node, flight: nat, phase: Phase): Node
    requires flight in node.flights
  {
    node.(flights := node.flights[flight := Flight(node.flights[flight].req, phase)])
  }

  function Drop(node: Node, flight: nat): Node {
    node.(flights := node.flights - {flight})
  }

  /** The step of one server that touches only that server. */
  function Local(w: World, id: string, node: Node, now: int, a: Action): Node {
    match a
    case Install(_, snapshot) => node.(store := snapshot)
    case Refresh(_, listed) =>
      node.(cache := TopologyManager.Refreshed(w.hashing, w.topology, node.cache, listed, now).0)
    case Receive(_, flight, req) =>
      if flight !in node.flights && Validate(w.quota(id).lagRetry, node.store, req).decision == Unspecified
      then node.(flights := node.flights[flight := Flight(req, Validated)]) else node
    case Route(_, flight, started, listed) =>
      if !InPhase(node, flight, Validated) then node
      else
        var (cache, served) := TopologyManager.Served(w.hashing, w.topology, node.cache, started, listed, now);
        var refreshed := node.(cache := cache);
        if CheckOwner(w.hashing, id, node.flights[flight].req, served) == Proceed
        then Advance(refreshed, flight, Routed) else Drop(refreshed, flight)
    case Revalidate(_, flight) =>
      if !InPhase(node, flight, Routed) then node
      else if Validate(w.quota(id).lagRetry, node.store, node.flights[flight].req).decision == Unspecified
      then Advance(node, flight, Revalidated) else Drop(node, flight)
    case ReadLimit(_, flight) =>
      if !InPhase(node, flight, Revalidated) then node
      else Advance(node, flight, Limited(LimitOf(node.store, node.flights[flight].req)))
    case ReadClock(_, flight) =>
      if flight !in node.flights || !node.flights[flight].phase.Limited? then node
      else Advance(node, flight, Timed(node.flights[flight].phase.limit, now))
    case _ => node
  }

  function Listed(a: Action): Option<seq<Instance>> {
    match a
    case Refresh(_, listed) => listed
    case Route(_, _, _, listed) => listed
    case _ => None
  }

  /** The critical section of a flight that has read its rule and its clock. */
  function Committed(w: World, id: string, node: Node, flight: nat, now: int): (Node, Entry)
    requires flight in node.flights && node.flights[flight].phase.Timed?
  {
    var Flight(req, phase) := node.flights[flight];
    var call := CallOf(req, phase.limit, phase.time);
    var (engine, outcome) := Quota.Step(w.quota(id), node.engine, call);
    (Drop(node.(engine := engine), flight), Entry(id, req, call, outcome, now))
  }

  /** One step of the cluster; a step that is not enabled changes nothing. */
  function Next(w: World, s: State, a: Action): State {
    if a.Tick? then s.(now := s.now + a.elapsed)
    else if a.server !in s.nodes then s
    else
      var node := s.nodes[a.server];
      if a.Commit? then
        if a.flight in node.flights && node.flights[a.flight].phase.Timed? then
          var (node', entry) := Committed(w, a.server, node, a.flight, s.now);
          s.(nodes := s.nodes[a.server := node'], log := s.log + [entry])
        else s
      else
        s.(nodes := s.nodes[a.server := Local(w, a.server, node, s.now, a)], lists := Answered(s.lists, Listed(a)))
  }

  /** The state after a sequence of steps. */
  ghost function Reached(w: World, stores: map<string, Snapshot>, start: int, actions: seq<Action>): State {
    if actions == [] then Initial(stores, start)
    else Next(w, Reached(w, stores, start, actions[..|actions| - 1]), actions[|actions| - 1])
  }

  // ---------------------------------------------------------------- the invariant

  /** Some topology that discovery answers built names `id` the owner of the request, under its revision. */
  ghost predicate OwnedBy(w: World, lists: seq<seq<Instance>>, id: string, req: Request) {
    exists k :: 0 <= k < |lists| && OwnsUnder(w, lists[k], id, req)
  }

  ghost predicate OwnsUnder(w: World, found: seq<Instance>, id: string, req: Request) {
    var t := Build(w.hashing, w.topology.namespace, w.topology.service, found);
    && t.revision == req.topologyRevision
    && OwnerOf(w.hashing, t, ShardKeyOf(req)).Some?
    && OwnerOf(w.hashing, t, ShardKeyOf(req)).value.instanceID == id
  }

  /** The calls that passed one server's critical section. */
  ghost function CallsOf(log: seq<Entry>, id: string): seq<Quota.Call> {
    if log == [] then []
    else
      var last := |log| - 1;
      if log[last].server == id then CallsOf(log[..last], id) + [log[last].call] else CallsOf(log[..last], id)
  }

  /** Every logged outcome is what the server's engine answered at that point. */
  ghost predicate Coherent(w: World, log: seq<Entry>) {
    forall n :: 0 <= n < |log| ==> CoherentAt(w, log, n)
  }

  ghost predicate CoherentAt(w: World, log: seq<Entry>, n: nat)
    requires n < |log|
  {
    var cfg := w.quota(log[n].server);
    log[n].outcome == Quota.Step(cfg, Quota.After(cfg, CallsOf(log[..n], log[n].server)), log[n].call).1
  }

  /** A rule with a quota that no snapshot exceeds and a window that none undercuts. */
  datatype Cap = Cap(code: string, rule: string, limit: Quota.Limit)

  /** Names as the rule index keeps them, without a colon: trimmed, so that equal shard keys mean equal names. */
  ghost predicate PlainName(name: string) {
    ':' !in name && Trim(name) == name
  }

  /**
   If a cap is assumed: all names are plain, no quota is negative, and the rule, where it is there at
   all, stays within the cap.
   */
  ghost predicate Serves(s: Snapshot, k: Option<Cap>) {
    k.Some? ==>
      && (forall c, r :: FindRule(s, c, r).Some? ==> PlainName(c) && PlainName(r) && FindRule(s, c, r).value.quota >= 0)
      && forall rule :: FindRule(s, k.value.code, k.value.rule) == Some(rule) ==>
           Quota.Within(Quota.Limit(rule.quota, rule.windowSeconds), k.value.limit)
  }

  ghost predicate GoodRequest(k: Option<Cap>, req: Request) {
    k.Some? ==> PlainName(req.applicationCode) && PlainName(req.ruleId)
  }

  ghost predicate GoodLimit(k: Option<Cap>, req: Request, limit: Quota.Limit) {
    k.Some? ==>
      && limit.quota >= 0
      && (req.applicationCode == k.value.code && req.ruleId == k.value.rule ==> Quota.Within(limit, k.value.limit))
  }

  ghost predicate GoodFlight(w: World, lists: seq<seq<Instance>>, now: int, k: Option<Cap>, id: string, f: Flight) {
    && GoodRequest(k, f.req)
    && (!f.phase.Validated? ==> OwnedBy(w, lists, id, f.req))
    && (f.phase.Limited? || f.phase.Timed? ==> GoodLimit(k, f.req, f.phase.limit))
    && (f.phase.Timed? ==> f.phase.time <= now)
  }

  ghost predicate GoodNode(w: World, s: State, k: Option<Cap>, id: string, node: Node) {
    && TopologyManager.Grounded(w.hashing, w.topology, s.lists, node.cache)
    && Serves(node.store, k)
    && node.engine == Quota.After(w.quota(id), CallsOf(s.log, id))
    && forall f :: f in node.flights ==> GoodFlight(w, s.lists, s.now, k, id, node.flights[f])
  }

  ghost predicate GoodEntry(w: World, lists: seq<seq<Instance>>, now: int, k: Option<Cap>, e: Entry) {
    && GoodRequest(k, e.req) && OwnedBy(w, lists, e.server, e.req)
    && e.call == CallOf(e.req, e.call.limit, e.call.time) && GoodLimit(k, e.req, e.call.limit)
    && e.call.time <= e.committed <= now
  }

  ghost predicate Invariant(w: World, s: State, k: Option<Cap>) {
    && (forall id :: id in s.nodes ==> GoodNode(w, s, k, id, s.nodes[id]))
    && (forall n :: 0 <= n < |s.log| ==> GoodEntry(w, s.lists, s.now, k, s.log[n]))
    && (forall m, n :: 0 <= m < n < |s.log| ==> s.log[m].committed <= s.log[n].committed)
    && Coherent(w, s.log)
  }

  // ---------------------------------------------------------------- every step keeps it

  lemma OwnedByGrows(w: World, lists: seq<seq<Instance>>, more: seq<seq<Instance>>, id: string, req: Request)
    requires OwnedBy(w, lists, id, req) && lists <= more
    ensures OwnedBy(w, more, id, req)
  {
    hide OwnsUnder;
    var k :| 0 <= k < |lists| && OwnsUnder(w, lists[k], id, req);
    assert OwnsUnder(w, more[k], id, req);
  }

  lemma FlightGrows(w: World, lists: seq<seq<Instance>>, more: seq<seq<Instance>>, now: int, later: int, k: Option<Cap>,
                    id: string, f: Flight)
    requires GoodFlight(w, lists, now, k, id, f) && lists <= more && now <= later
    ensures GoodFlight(w, more, later, k, id, f)
  {
    hide OwnedBy, GoodLimit, GoodRequest;
    if !f.phase.Validated? {
      OwnedByGrows(w, lists, more, id, f.req);
    }
  }

  lemma EntryGrows(w: World, lists: seq<seq<Instance>>, more: seq<seq<Instance>>, now: int, later: int, k: Option<Cap>,
                   e: Entry)
    requires GoodEntry(w, lists, now, k, e) && lists <= more && now <= later
    ensures GoodEntry(w, more, later, k, e)
  {
    hide OwnedBy, GoodLimit, GoodRequest, CallOf;
    OwnedByGrows(w, lists, more, e.server, e.req);
  }

  lemma GroundedGrows(w: World, lists: seq<seq<Instance>>, more: seq<seq<Instance>>, cache: TopologyManager.Cache)
    requires TopologyManager.Grounded(w.hashing, w.topology, lists, cache) && lists <= more
    ensures TopologyManager.Grounded(w.hashing, w.topology, more, cache)
  {
    hide Build;
    if cache.current != NO_TOPOLOGY {
      var k :| 0 <= k < |lists| &&
        cache.current == Build(w.hashing, w.topology.namespace, w.topology.service, lists[k]);
      assert cache.current == Build(w.hashing, w.topology.namespace, w.topology.service, more[k]);
    }
  }

  /** Growing time and lists without touching a node keeps it good. */
  lemma NodeGrows(w: World, s: State, t: State, k: Option<Cap>, id: string, node: Node)
    requires GoodNode(w, s, k, id, node) && s.lists <= t.lists && s.now <= t.now
    requires CallsOf(t.log, id) == CallsOf(s.log, id)
    ensures GoodNode(w, t, k, id, node)
  {
    hide GoodFlight, Serves, TopologyManager.Grounded;
    GroundedGrows(w, s.lists, t.lists, node.cache);
    forall f | f in node.flights
      ensures GoodFlight(w, t.lists, t.now, k, id, node.flights[f])
    {
      FlightGrows(w, s.lists, t.lists, s.now, t.now, k, id, node.flights[f]);
    }
  }

  /** A validated request names a rule of the snapshot, so its names carry no colon. */
  lemma ValidatedIsGood(lagRetry: int, s: Snapshot, k: Option<Cap>, req: Request)
    requires Serves(s, k) && Validate(lagRetry, s, req).decision == Unspecified
    ensures GoodRequest(k, req)
  {
    hide CompareRuleVersion, MissingField;
  }

  lemma LimitIsGood(s: Snapshot, k: Option<Cap>, req: Request)
    requires Serves(s, k)
    ensures GoodLimit(k, req, LimitOf(s, req))
  {
  }

  /** Passing the owner check against a built topology means being its owner. */
  lemma ProceedIsOwned(w: World, lists: seq<seq<Instance>>, id: string, req: Request, served: Option<Topology>)
    requires served.Some? ==> TopologyManager.BuiltFrom(w.hashing, w.topology, lists, served.value)
    requires CheckOwner(w.hashing, id, req, served) == Proceed
    ensures OwnedBy(w, lists, id, req)
  {
    OnlyOwnerProceeds(w.hashing, id, req, served);
    hide Build, OwnerOf;
    var k :| 0 <= k < |lists| && served.value == Build(w.hashing, w.topology.namespace, w.topology.service, lists[k]);
    assert OwnsUnder(w, lists[k], id, req);
  }

  lemma RouteKeepsNode(w: World, s: State, t: State, k: Option<Cap>, id: string, node: Node, a: Action)
    requires GoodNode(w, s, k, id, node) && a.Route?
    requires t.lists == Answered(s.lists, a.listed) && t.now == s.now && t.log == s.log
    ensures GoodNode(w, t, k, id, Local(w, id, node, s.now, a))
  {
    hide Serves, TopologyManager.Grounded, CheckOwner, TopologyManager.Served, OwnedBy, GoodRequest, GoodLimit,
      TopologyManager.BuiltFrom;
    NodeGrows(w, s, t, k, id, node);
    if InPhase(node, a.flight, Validated) {
      TopologyManager.ServedIsBuilt(w.hashing, w.topology, s.lists, node.cache, a.started, a.listed, s.now);
      var served := TopologyManager.Served(w.hashing, w.topology, node.cache, a.started, a.listed, s.now).1;
      if CheckOwner(w.hashing, id, node.flights[a.flight].req, served) == Proceed {
        ProceedIsOwned(w, t.lists, id, node.flights[a.flight].req, served);
      }
    }
  }

  lemma RefreshKeepsNode(w: World, s: State, t: State, k: Option<Cap>, id: string, node: Node, a: Action)
    requires GoodNode(w, s, k, id, node) && a.Refresh?
    requires t.lists == Answered(s.lists, a.listed) && t.now == s.now && t.log == s.log
    ensures GoodNode(w, t, k, id, Local(w, id, node, s.now, a))
  {
    hide Serves, GoodFlight, Build;
    NodeGrows(w, s, t, k, id, node);
    if a.listed.Some? {
      assert t.lists[|s.lists|] == a.listed.value;
    }
  }

  lemma LocalKeepsNode(w: World, s: State, k: Option<Cap>, id: string, node: Node, a: Action)
    requires GoodNode(w, s, k, id, node) && !a.Route? && !a.Refresh? && !a.Commit? && !a.Tick?
    requires a.Install? ==> Serves(a.snapshot, k)
    ensures GoodNode(w, s, k, id, Local(w, id, node, s.now, a))
  {
    hide Serves, TopologyManager.Grounded, OwnedBy, GoodRequest, GoodLimit, Validate, LimitOf, CheckOwner;
    if a.Receive? && Validate(w.quota(id).lagRetry, node.store, a.req).decision == Unspecified {
      ValidatedIsGood(w.quota(id).lagRetry, node.store, k, a.req);
    }
    if a.ReadLimit? && a.flight in node.flights {
      LimitIsGood(node.store, k, node.flights[a.flight].req);
    }
  }
}
