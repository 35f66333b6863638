/** The request handler as cluster steps: what the steps of one flight do, undisturbed, is what the handler does. */
module ClusterHandler {
  import opened Common
  import opened Rules
  import Quota
  import opened Topology
  import TopologyManager
  import opened Admission
  import opened Ownership
  import opened Cluster

  // ---------------------------------------------------------------- following actions from a state

  ghost function Follow(w: World, s: State, actions: seq<Action>): State
    decreases |actions|
  {
    if actions == [] then s else Follow(w, Next(w, s, actions[0]), actions[1..])
  }

  lemma FollowStep(w: World, s: State, a: Action, rest: seq<Action>)
    ensures Follow(w, s, [a] + rest) == Follow(w, Next(w, s, a), rest)
  {
    hide Next;
    assert ([a] + rest)[1..] == rest;
  }

  lemma FollowOne(w: World, s: State, a: Action)
    ensures Follow(w, s, [a]) == Next(w, s, a)
  {
    hide Next;
    FollowStep(w, s, a, []);
    assert [a] + [] == [a];
  }

  lemma {:induction false} FollowAppend(w: World, s: State, first: seq<Action>, second: seq<Action>)
    ensures Follow(w, s, first + second) == Follow(w, Follow(w, s, first), second)
    decreases |first|
  {
    hide Next;
    if first == [] {
      assert first + second == second;
    } else {
      assert first + second == [first[0]] + (first[1..] + second);
      FollowStep(w, s, first[0], first[1..] + second);
      FollowAppend(w, Next(w, s, first[0]), first[1..], second);
    }
  }

  /** Following further actions from a reachable state is reaching the end of the longer sequence. */
  lemma {:induction false} ReachedFollows(w: World, stores: map<string, Snapshot>, start: int, actions: seq<Action>,
                                          more: seq<Action>)
    ensures Reached(w, stores, start, actions + more) == Follow(w, Reached(w, stores, start, actions), more)
    decreases |more|
  {
    hide Next;
    if more == [] {
      assert actions + more == actions;
    } else {
      var longer := actions + [more[0]];
      assert actions + more == longer + more[1..] && longer[..|longer| - 1] == actions;
      ReachedFollows(w, stores, start, longer, more[1..]);
    }
  }

  // ---------------------------------------------------------------- the stages of a request

  /** Compared with `s`, only the node of `id`, the time and the log are different, and they are these. */
  ghost predicate Differs(s: State, t: State, id: string, node: Node, now: int, log: seq<Entry>) {
    t.nodes == s.nodes[id := node] && t.now == now && t.log == log
  }

  /** Consulting the topology: a cluster refresh, unless the cache is live. */
  function Consultation(id: string, cache: TopologyManager.Cache, l: Lookup): seq<Action> {
    if cache.current.revision != "" && l.now < cache.expiresAt then [] else [Refresh(id, l.listed)]
  }

  function SiteOf(w: World, id: string): Site {
    Site(w.hashing, id, w.topology, w.quota(id))
  }

  /** The readings come in the order of the handler's reads, from `now` on. */
  predicate InTime(now: int, r: Readings) {
    now <= r.route.listedAt <= r.clock <= r.decoration.listedAt
  }

  function Waiting(now: int, later: int): Action
    requires now <= later
  {
    Tick(later - now)
  }

  lemma Waits(w: World, s: State, t: State, id: string, node: Node, now: int, log: seq<Entry>, later: int)
    requires Differs(s, t, id, node, now, log) && now <= later
    ensures Differs(s, Next(w, t, Waiting(now, later)), id, node, later, log)
  {
  }

  /** Waiting for a consultation, and the consultation. */
  lemma Consulted(w: World, s: State, t: State, id: string, node: Node, now: int, log: seq<Entry>, l: Lookup)
    requires id in s.nodes && Differs(s, t, id, node, now, log) && now <= l.listedAt
    ensures var actions := [Waiting(now, l.listedAt)] + Consultation(id, node.cache, l);
            var cache := SiteOf(w, id).Consult(node.cache, l).0;
            Differs(s, Follow(w, t, actions), id, node.(cache := cache), l.listedAt, log)
  {
    hide Differs;
    var u := Next(w, t, Waiting(now, l.listedAt));
    Waits(w, s, t, id, node, now, log, l.listedAt);
    FollowStep(w, t, Waiting(now, l.listedAt), Consultation(id, node.cache, l));
    if Consultation(id, node.cache, l) != [] {
      FollowOne(w, u, Refresh(id, l.listed));
      Refreshes(w, s, u, id, node, l.listedAt, log, l.listed);
    }
  }

  lemma Refreshes(w: World, s: State, t: State, id: string, node: Node, now: int, log: seq<Entry>,
                  listed: Option<seq<Instance>>)
    requires id in s.nodes && Differs(s, t, id, node, now, log)
    ensures var cache := TopologyManager.Refreshed(w.hashing, w.topology, node.cache, listed, now).0;
            Differs(s, Next(w, t, Refresh(id, listed)), id, node.(cache := cache), now, log)
  {
    hide Build;
  }

  /** The step of one node. */
  lemma Steps(w: World, s: State, t: State, id: string, node: Node, now: int, log: seq<Entry>, a: Action)
    requires id in s.nodes && Differs(s, t, id, node, now, log) && !a.Tick? && !a.Commit? && a.server == id
    ensures Differs(s, Next(w, t, a), id, Local(w, id, node, now, a), now, log)
  {
    hide Local;
  }

  lemma Commits(w: World, s: State, t: State, id: string, node: Node, now: int, log: seq<Entry>, flight: nat)
    requires id in s.nodes && Differs(s, t, id, node, now, log)
    ensures if flight in node.flights && node.flights[flight].phase.Timed? then
              var (node', entry) := Committed(w, id, node, flight, now);
              Differs(s, Next(w, t, Commit(id, flight)), id, node', now, log + [entry])
            else Differs(s, Next(w, t, Commit(id, flight)), id, node, now, log)
  {
    hide Committed;
  }

  // ---------------------------------------------------------------- arrival and routing

  function Arriving(id: string, flight: nat, req: Request, now: int, l: Lookup): seq<Action>
    requires now <= l.listedAt
  {
    [Receive(id, flight, req), Waiting(now, l.listedAt), Route(id, flight, l.now, l.listed)]
  }

  /** A validated request is routed, and dropped unless this is the owner. */
  lemma Arrives(w: World, s: State, id: string, flight: nat, req: Request, l: Lookup)
    requires id in s.nodes && flight !in s.nodes[id].flights && s.now <= l.listedAt
    requires Validate(w.quota(id).lagRetry, s.nodes[id].store, req).decision == Unspecified
    ensures var node := s.nodes[id];
            var (cache, served) := SiteOf(w, id).Consult(node.cache, l);
            var routed := node.(cache := cache);
            Differs(s, Follow(w, s, Arriving(id, flight, req, s.now, l)), id,
                    if CheckOwner(w.hashing, id, req, served) == Proceed
                    then routed.(flights := node.flights[flight := Flight(req, Routed)]) else routed,
                    l.listedAt, s.log)
  {
    hide Differs, CheckOwner, TopologyManager.Served, Validate;
    var node := s.nodes[id];
    var received := node.(flights := node.flights[flight := Flight(req, Validated)]);
    var a, b, c := Receive(id, flight, req), Waiting(s.now, l.listedAt), Route(id, flight, l.now, l.listed);
    assert Arriving(id, flight, req, s.now, l) == [a] + ([b] + [c]);
    FollowStep(w, s, a, [b] + [c]);
    NothingYet(s, id);
    Steps(w, s, s, id, node, s.now, s.log, a);
    var t := Next(w, s, a);
    FollowStep(w, t, b, [c]);
    Waits(w, s, t, id, received, s.now, s.log, l.listedAt);
    var u := Next(w, t, b);
    FollowOne(w, u, c);
    Steps(w, s, u, id, received, l.listedAt, s.log, c);
    assert received.flights - {flight} == node.flights;
    assert received.flights[flight := Flight(req, Routed)] == node.flights[flight := Flight(req, Routed)];
  }

  lemma NothingYet(s: State, id: string)
    requires id in s.nodes
    ensures Differs(s, s, id, s.nodes[id], s.now, s.log)
  {
  }

  // ---------------------------------------------------------------- the deduction

  function Acquiring(id: string, flight: nat, r: Readings): seq<Action>
    requires r.route.listedAt <= r.clock
  {
    [Install(id, r.second), Revalidate(id, flight), Install(id, r.third)] + Deducting(id, flight, r)
  }

  function Deducting(id: string, flight: nat, r: Readings): seq<Action>
    requires r.route.listedAt <= r.clock
  {
    [ReadLimit(id, flight), Waiting(r.route.listedAt, r.clock), ReadClock(id, flight), Commit(id, flight)]
  }

  /** What a deduction adds to the log. */
  function Logged(cfg: Quota.Config, id: string, engine: Quota.State, req: Request, r: Readings): seq<Entry> {
    if Validate(cfg.lagRetry, r.second, req).decision != Unspecified then []
    else
      var call := CallOf(req, LimitOf(r.third, req), r.clock);
      [Entry(id, req, call, Quota.Step(cfg, engine, call).1, r.clock)]
  }

  /** The node when the limit is about to be read. */
  function Rechecked(w: World, id: string, node: Node, flight: nat, r: Readings): Node
    requires flight in node.flights
  {
    var req := node.flights[flight].req;
    if Validate(w.quota(id).lagRetry, r.second, req).decision == Unspecified
    then Advance(node, flight, Revalidated).(store := r.third)
    else Drop(node, flight).(store := r.third)
  }

  lemma Rechecks(w: World, s: State, t: State, id: string, node: Node, log: seq<Entry>, flight: nat, r: Readings)
    requires id in s.nodes && Differs(s, t, id, node, r.route.listedAt, log)
    requires InPhase(node, flight, Routed)
    ensures Differs(s, Follow(w, t, [Install(id, r.second), Revalidate(id, flight), Install(id, r.third)]), id,
                    Rechecked(w, id, node, flight, r), r.route.listedAt, log)
  {
    hide Differs, Validate;
    var now := r.route.listedAt;
    var a, b, c := Install(id, r.second), Revalidate(id, flight), Install(id, r.third);
    assert [a, b, c] == [a] + ([b] + [c]);
    FollowStep(w, t, a, [b] + [c]);
    Steps(w, s, t, id, node, now, log, a);
    var t1 := Next(w, t, a);
    FollowStep(w, t1, b, [c]);
    Steps(w, s, t1, id, node.(store := r.second), now, log, b);
    var t2 := Next(w, t1, b);
    FollowOne(w, t2, c);
    Steps(w, s, t2, id, Local(w, id, node.(store := r.second), now, b), now, log, c);
  }

  lemma Deducts(w: World, s: State, t: State, id: string, node: Node, log: seq<Entry>, flight: nat, r: Readings)
    requires id in s.nodes && Differs(s, t, id, node, r.route.listedAt, log) && r.route.listedAt <= r.clock
    requires flight in node.flights ==> InPhase(node, flight, Revalidated)
    ensures var actions := Deducting(id, flight, r);
            if flight !in node.flights then Differs(s, Follow(w, t, actions), id, node, r.clock, log)
            else
              var req := node.flights[flight].req;
              var call := CallOf(req, LimitOf(node.store, req), r.clock);
              var (engine, outcome) := Quota.Step(w.quota(id), node.engine, call);
              Differs(s, Follow(w, t, actions), id, Drop(node, flight).(engine := engine), r.clock,
                      log + [Entry(id, req, call, outcome, r.clock)])
  {
    hide Differs, Quota.Step, LimitOf, CallOf;
    var a, b := ReadLimit(id, flight), Waiting(r.route.listedAt, r.clock);
    var c, d := ReadClock(id, flight), Commit(id, flight);
    assert [a, b, c, d] == [a] + ([b] + ([c] + [d]));
    FollowStep(w, t, a, [b] + ([c] + [d]));
    Steps(w, s, t, id, node, r.route.listedAt, log, a);
    var t1, node1 := Next(w, t, a), Local(w, id, node, r.route.listedAt, a);
    FollowStep(w, t1, b, [c] + [d]);
    Waits(w, s, t1, id, node1, r.route.listedAt, log, r.clock);
    var t2 := Next(w, t1, b);
    FollowStep(w, t2, c, [d]);
    Steps(w, s, t2, id, node1, r.clock, log, c);
    var t3, node3 := Next(w, t2, c), Local(w, id, node1, r.clock, c);
    FollowOne(w, t3, d);
    Commits(w, s, t3, id, node3, r.clock, log, flight);
    if flight in node.flights {
      var entry := Committed(w, id, node3, flight, r.clock).1;
      assert node3.flights - {flight} == node.flights - {flight};
    }
  }

  /** The deduction of a routed flight: engine and log as `Acquired` says, and the flight is over. */
  lemma Acquires(w: World, s: State, t: State, id: string, node: Node, log: seq<Entry>, flight: nat, r: Readings)
    requires id in s.nodes && Differs(s, t, id, node, r.route.listedAt, log) && r.route.listedAt <= r.clock
    requires InPhase(node, flight, Routed)
    ensures var req := node.flights[flight].req;
            var engine := Acquired(w.quota(id), node.engine, r.second, r.third, req, r.clock).0;
            Differs(s, Follow(w, t, Acquiring(id, flight, r)), id,
                    Drop(node, flight).(engine := engine, store := r.third), r.clock, log +
                      Logged(w.quota(id), id, node.engine, req, r))
  {
    hide Differs, Quota.Step, LimitOf, CallOf, Validate;
    var first := [Install(id, r.second), Revalidate(id, flight), Install(id, r.third)];
    var second := Deducting(id, flight, r);
    assert Acquiring(id, flight, r) == first + second;
    FollowAppend(w, t, first, second);
    Rechecks(w, s, t, id, node, log, flight, r);
    var node1 := Rechecked(w, id, node, flight, r);
    Deducts(w, s, Follow(w, t, first), id, node1, log, flight, r);
    assert log + [] == log;
    assert node1.flights - {flight} == node.flights - {flight};
  }

  // ---------------------------------------------------------------- the whole handler

  /** The steps that a request takes, undisturbed, on the readings that the handler sees. */
  function Script(w: World, s: State, id: string, flight: nat, req: Request, r: Readings): seq<Action>
    requires id in s.nodes && InTime(s.now, r)
  {
    var node := s.nodes[id];
    if Validate(w.quota(id).lagRetry, r.first, req).decision != Unspecified then
      [Waiting(s.now, r.decoration.listedAt)] + Consultation(id, node.cache, r.decoration)
    else if MissingRoute(req) != "" then Arriving(id, flight, req, s.now, r.decoration)
    else
      var (cache, served) := SiteOf(w, id).Consult(node.cache, r.route);
      if CheckOwner(w.hashing, id, req, served) != Proceed then Arriving(id, flight, req, s.now, r.route)
      else
        Arriving(id, flight, req, s.now, r.route) + Acquiring(id, flight, r)
        + ([Waiting(r.clock, r.decoration.listedAt)] + Consultation(id, cache, r.decoration))
  }

  /** What the handler adds to the log. */
  function HandledLog(w: World, node: Node, id: string, req: Request, r: Readings): seq<Entry> {
    if Validate(w.quota(id).lagRetry, r.first, req).decision == Unspecified &&
      CheckOwner(w.hashing, id, req, SiteOf(w, id).Consult(node.cache, r.route).1) == Proceed
    then Logged(w.quota(id), id, node.engine, req, r) else []
  }

  /** A node after the handler: its engine and cache are those of `Handled`, its flights as before. */
  ghost predicate HandledNode(w: World, before: Node, after: Node, id: string, req: Request, r: Readings) {
    var (engine, cache, reply) := Handled(SiteOf(w, id), before.engine, before.cache, req, r);
    after.engine == engine && after.cache == cache && after.flights == before.flights &&
      after.store in {r.first, r.third}
  }

  /**
   The steps of one request without others in between do at its node what the handler does: the same
   engine state, the same topology cache and the critical section that the handler ran, and nothing
   anywhere else.
   */
  lemma HandlerIsFollowed(w: World, s: State, id: string, flight: nat, req: Request, r: Readings)
    requires id in s.nodes && flight !in s.nodes[id].flights && s.nodes[id].store == r.first && InTime(s.now, r)
    ensures var t := Follow(w, s, Script(w, s, id, flight, req, r));
            && t.nodes.Keys == s.nodes.Keys && HandledNode(w, s.nodes[id], t.nodes[id], id, req, r)
            && (forall other :: other in s.nodes && other != id ==> t.nodes[other] == s.nodes[other])
            && t.log == s.log + HandledLog(w, s.nodes[id], id, req, r)
            && s.now <= t.now <= r.decoration.listedAt
  {
    hide Validate, CheckOwner, TopologyManager.Served, Quota.Step, LimitOf, CallOf, Decorated, Follow, Next;
    var node := s.nodes[id];
    NothingYet(s, id);
    assert s.log + [] == s.log;
    if Validate(w.quota(id).lagRetry, r.first, req).decision != Unspecified {
      Consulted(w, s, s, id, node, s.now, s.log, r.decoration);
    } else if MissingRoute(req) != "" {
      NoRouteNoOwner(w.hashing, id, req, SiteOf(w, id).Consult(node.cache, r.decoration).1);
      NoRouteNoOwner(w.hashing, id, req, SiteOf(w, id).Consult(node.cache, r.route).1);
      Arrives(w, s, id, flight, req, r.decoration);
    } else {
      Arrives(w, s, id, flight, req, r.route);
      var (cache, served) := SiteOf(w, id).Consult(node.cache, r.route);
      if CheckOwner(w.hashing, id, req, served) == Proceed {
        ProceedIsFollowed(w, s, id, flight, req, r);
      }
    }
  }

  lemma NoRouteNoOwner(hashing: Hashing, self: string, req: Request, served: Option<Topology>)
    requires MissingRoute(req) != ""
    ensures CheckOwner(hashing, self, req, served) != Proceed
  {
  }

  lemma ProceedIsFollowed(w: World, s: State, id: string, flight: nat, req: Request, r: Readings)
    requires id in s.nodes && flight !in s.nodes[id].flights && s.nodes[id].store == r.first && InTime(s.now, r)
    requires Validate(w.quota(id).lagRetry, r.first, req).decision == Unspecified && MissingRoute(req) == ""
    requires CheckOwner(w.hashing, id, req, SiteOf(w, id).Consult(s.nodes[id].cache, r.route).1) == Proceed
    ensures var node := s.nodes[id];
            var engine := Acquired(w.quota(id), node.engine, r.second, r.third, req, r.clock).0;
            var routed := SiteOf(w, id).Consult(node.cache, r.route).0;
            var cache := SiteOf(w, id).Consult(routed, r.decoration).0;
            Differs(s, Follow(w, s, Script(w, s, id, flight, req, r)), id,
                    node.(engine := engine, cache := cache, store := r.third), r.decoration.listedAt, s.log +
                      Logged(w.quota(id), id, node.engine, req, r))
  {
    hide Differs, Validate, CheckOwner, TopologyManager.Served, Acquired, Logged, Next, Follow;
    var node := s.nodes[id];
    var cache := SiteOf(w, id).Consult(node.cache, r.route).0;
    var routed := node.(cache := cache, flights := node.flights[flight := Flight(req, Routed)]);
    var first, second := Arriving(id, flight, req, s.now, r.route), Acquiring(id, flight, r);
    var third := [Waiting(r.clock, r.decoration.listedAt)] + Consultation(id, cache, r.decoration);
    assert Script(w, s, id, flight, req, r) == first + second + third;
    FollowAppend(w, s, first + second, third);
    FollowAppend(w, s, first, second);
    Arrives(w, s, id, flight, req, r.route);
    var t := Follow(w, s, first);
    Acquires(w, s, t, id, routed, s.log, flight, r);
    assert Drop(routed, flight).flights == node.flights;
    var engine := Acquired(w.quota(id), node.engine, r.second, r.third, req, r.clock).0;
    Consulted(w, s, Follow(w, t, second), id, node.(cache := cache, engine := engine, store := r.third), r.clock,
              s.log + Logged(w.quota(id), id, node.engine, req, r), r.decoration);
  }
}
