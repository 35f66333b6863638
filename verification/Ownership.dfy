/** The owner check of one server, and its request handler in the order the checks run. */
module Ownership {
  import opened Common
  import opened Text
  import Rules
  import Quota
  import opened Topology
  import TopologyManager
  import opened Admission
  import QuotaEngine

  /** Go on to the deduction, or answer with a redirect or an error. */
  datatype Check =
    | Proceed
    | Reject(decision: Decision, reason: string, retryAfterMs: int, revision: string, hashAlgorithm: string,
             owner: Option<Instance>)

  function ShardKeyOf(req: Request): string {
    ShardKey(req.applicationCode, req.ruleId, req.quotaKey)
  }

  /** Whether the two topology fields every request must carry are there. */
  function MissingRoute(req: Request): string {
    if Blank(req.topologyRevision) then "topology_revision_required"
    else if Blank(req.targetInstanceId) then "target_instance_id_required"
    else ""
  }

  /** `validateOwner`, on the topology the manager serves; None when it has none. */
  function CheckOwner(hashing: Hashing, self: string, req: Request, served: Option<Topology>): Check {
    if MissingRoute(req) != "" then Reject(InvalidRequest, MissingRoute(req), 0, "", "", None)
    else match served
      case None => Reject(Denied, "topology_unavailable", 0, "", "", None)
      case Some(t) =>
        var owner := OwnerOf(hashing, t, ShardKeyOf(req));
        if owner == None
        then Reject(ShardMigrating, "topology_owner_unavailable", 50, t.revision, t.hashAlgorithm, None)
        else if req.topologyRevision != t.revision then NotOwnerOf(t, owner.value, "topology_revision_mismatch")
        else if req.targetInstanceId != owner.value.instanceID
        then NotOwnerOf(t, owner.value, "target_instance_mismatch")
        else if owner.value.instanceID != self then NotOwnerOf(t, owner.value, "not_owner")
        else Proceed
  }

  /** `notOwnerResponse`: a redirect to the owner under the served revision. */
  function NotOwnerOf(t: Topology, owner: Instance, reason: string): Check {
    Reject(NotOwner, reason, 10, t.revision, t.hashAlgorithm, Some(owner))
  }

  /** Exactly the owner may go on, asked as the target under the very revision it serves. */
  lemma OnlyOwnerProceeds(hashing: Hashing, self: string, req: Request, served: Option<Topology>)
    ensures CheckOwner(hashing, self, req, served) == Proceed <==>
      && !Blank(req.topologyRevision) && !Blank(req.targetInstanceId)
      && served.Some? && served.value.revision == req.topologyRevision
      && var owner := OwnerOf(hashing, served.value, ShardKeyOf(req));
         owner.Some? && owner.value.instanceID == self == req.targetInstanceId
  {
    hide OwnerOf, Trim;
  }

  /** Following a redirect succeeds: the named owner, asked under the named revision, goes on. */
  lemma RedirectConverges(hashing: Hashing, self: string, req: Request, t: Topology)
    requires CheckOwner(hashing, self, req, Some(t)).Reject?
    requires CheckOwner(hashing, self, req, Some(t)).decision == NotOwner
    requires !Blank(t.revision) && forall i :: 0 <= i < |t.instances| ==> !Blank(t.instances[i].instanceID)
    ensures var redirect := CheckOwner(hashing, self, req, Some(t));
            && redirect.owner.Some?
            && CheckOwner(hashing, redirect.owner.value.instanceID,
                 req.(topologyRevision := redirect.revision, targetInstanceId := redirect.owner.value.instanceID),
                 Some(t)) == Proceed
  {
    hide OwnerOf, Trim, ShardKey;
    OwnerIsArgmax(hashing, t, ShardKeyOf(req));
  }

  // ---------------------------------------------------------------- the handler

  /** One consultation of the topology: when it starts, what discovery answers if asked, and when it did. */
  datatype Lookup = Lookup(now: int, listed: Option<seq<Instance>>, listedAt: int)

  /** The values that the handler's reads of store, discovery and clock return. */
  datatype Readings = Readings(
    first: Rules.Snapshot, second: Rules.Snapshot, third: Rules.Snapshot, route: Lookup, decoration: Lookup, clock: int)

  /** A response with the topology fields that every answer may carry. */
  datatype Reply = Reply(response: Response, revision: string, hashAlgorithm: string, owner: Option<Instance>)

  /** What does not change at one server. */
  datatype Site = Site(hashing: Hashing, self: string, topology: TopologyManager.Config, quota: Quota.Config)
  {
    function Consult(cache: TopologyManager.Cache, l: Lookup): (TopologyManager.Cache, Option<Topology>) {
      TopologyManager.Served(hashing, topology, cache, l.now, l.listed, l.listedAt)
    }
  }

  /** `decorateTopology`, on the topology served after the decision; nothing is added when there is none. */
  function Decorated(hashing: Hashing, req: Request, response: Response, served: Option<Topology>): Reply {
    match served
    case None => Reply(response, "", "", None)
    case Some(t) => Reply(response, t.revision, t.hashAlgorithm, OwnerOf(hashing, t, ShardKeyOf(req)))
  }

  function Rejection(req: Request, check: Check): Reply
    requires check.Reject?
  {
    Reply(EmptyResponse(req).(decision := check.decision, reason := check.reason, retryAfterMs := check.retryAfterMs),
          check.revision, check.hashAlgorithm, check.owner)
  }

  /**
   `AcquireQuota`: rule checks first, then the owner check, then the deduction.  Rule errors, missing
   topology fields and quota decisions are decorated, which consults the topology once more.
   */
  function Handled(site: Site, engine: Quota.State, cache: TopologyManager.Cache, req: Request, r: Readings)
      : (Quota.State, TopologyManager.Cache, Reply) {
    var validated := Validate(site.quota.lagRetry, r.first, req);
    if validated.decision != Unspecified then
      var (cache', served) := site.Consult(cache, r.decoration);
      (engine, cache', Decorated(site.hashing, req, validated, served))
    else if MissingRoute(req) != "" then
      var (cache', served) := site.Consult(cache, r.decoration);
      var refusal := EmptyResponse(req).(decision := InvalidRequest, reason := MissingRoute(req));
      (engine, cache', Decorated(site.hashing, req, refusal, served))
    else
      var (routed, t) := site.Consult(cache, r.route);
      var check := CheckOwner(site.hashing, site.self, req, t);
      if check != Proceed then (engine, routed, Rejection(req, check))
      else
        var (engine', response) := Acquired(site.quota, engine, r.second, r.third, req, r.clock);
        var (cache', served) := site.Consult(routed, r.decoration);
        (engine', cache', Decorated(site.hashing, req, response, served))
  }

  /**
   A request is allowed exactly if it passes validation, the owner check under the topology served
   then, and the deduction; only then, or when the deduction itself refuses, may the buckets change.
   */
  lemma AllowedExactly(site: Site, engine: Quota.State, cache: TopologyManager.Cache, req: Request, r: Readings)
    ensures var (engine', _, reply) := Handled(site, engine, cache, req, r);
            var admitted :=
              && Validate(site.quota.lagRetry, r.first, req).decision == Unspecified
              && CheckOwner(site.hashing, site.self, req, site.Consult(cache, r.route).1) == Proceed;
            var (deducted, response) := Acquired(site.quota, engine, r.second, r.third, req, r.clock);
            && (reply.response.decision == Allowed <==> admitted && response.decision == Allowed)
            && engine' == if admitted then deducted else engine
  {
    ValidateDecides(site.quota.lagRetry, r.first, req);
    hide Validate, Acquired, OwnerOf, TopologyManager.Served, Trim, ShardKeyOf;
  }

  /** A refusal with its topology fields, for the request. */
  ghost predicate Refused(req: Request, reply: Reply, decision: Decision, reason: string, retryAfterMs: int) {
    && reply.response.requestId == req.requestId && reply.response.ruleId == req.ruleId
    && reply.response.decision == decision && reply.response.reason == reason
    && reply.response.retryAfterMs == retryAfterMs && reply.response.remaining == 0 && reply.response.resetAtUnixMs == 0
  }

  /** The reply carries the topology: its revision, its algorithm, and the owner it names for the request. */
  ghost predicate Carries(reply: Reply, t: Topology, owner: Option<Instance>) {
    reply.revision == t.revision && reply.hashAlgorithm == t.hashAlgorithm && reply.owner == owner
  }

  /**
   Every refusal of the owner check by its cause: missing fields, no topology, no owner, and for another
   revision, another target or another server a redirect to the owner under the served revision.
   */
  lemma RefusedByCause(site: Site, engine: Quota.State, cache: TopologyManager.Cache, req: Request, r: Readings)
    requires Validate(site.quota.lagRetry, r.first, req).decision == Unspecified
    ensures var reply := Handled(site, engine, cache, req, r).2;
            var served := site.Consult(cache, r.route).1;
            if Blank(req.topologyRevision) then Refused(req, reply, InvalidRequest, "topology_revision_required", 0)
            else if Blank(req.targetInstanceId) then
              Refused(req, reply, InvalidRequest, "target_instance_id_required", 0)
            else match served
              case None =>
                && Refused(req, reply, Denied, "topology_unavailable", 0)
                && reply.revision == "" && reply.hashAlgorithm == "" && reply.owner == None
              case Some(t) =>
                match OwnerOf(site.hashing, t, ShardKeyOf(req))
                case None => Refused(req, reply, ShardMigrating, "topology_owner_unavailable", 50) &&
                  Carries(reply, t, None)
                case Some(owner) =>
                  && (req.topologyRevision != t.revision ==>
                        Refused(req, reply, NotOwner, "topology_revision_mismatch", 10) &&
                          Carries(reply, t, Some(owner)))
                  && (req.topologyRevision == t.revision && req.targetInstanceId != owner.instanceID ==>
                        Refused(req, reply, NotOwner, "target_instance_mismatch", 10) && Carries(reply, t, Some(owner)))
                  && (req.topologyRevision == t.revision && req.targetInstanceId == owner.instanceID != site.self ==>
                        Refused(req, reply, NotOwner, "not_owner", 10) && Carries(reply, t, Some(owner)))
  {
    hide Validate, Acquired, OwnerOf, TopologyManager.Served, Trim, ShardKeyOf;
  }

  /** Decorated answers carry the topology that is served then, and the owner it names; none if there is none. */
  lemma DecoratedCarries(hashing: Hashing, req: Request, response: Response, served: Option<Topology>)
    ensures var reply := Decorated(hashing, req, response, served);
            && reply.response == response
            && (served == None ==> reply.revision == "" && reply.owner == None)
            && (served.Some? ==>
                  Carries(reply, served.value,
                          OwnerOf(hashing, served.value, ShardKey(req.applicationCode, req.ruleId, req.quotaKey))))
  {
    hide OwnerOf;
  }

  /** Decoration reads the topology again and may show a newer one, but decides nothing. */
  lemma DecorationDecidesNothing(site: Site, engine: Quota.State, cache: TopologyManager.Cache, req: Request,
                                 r: Readings, other: Lookup)
    ensures var (engine', _, reply) := Handled(site, engine, cache, req, r);
            var (engine'', _, reply') := Handled(site, engine, cache, req, r.(decoration := other));
            engine' == engine'' && reply.response == reply'.response
  {
    hide Validate, Acquired, CheckOwner, OwnerOf, TopologyManager.Served, Trim, ShardKeyOf;
  }

  class Server {
    const instanceID: string
    const engine: QuotaEngine.Engine
    const manager: TopologyManager.Manager

    constructor (instanceID: string, engine: QuotaEngine.Engine, manager: TopologyManager.Manager)
      ensures this.instanceID == instanceID && this.engine == engine && this.manager == manager
    {
      this.instanceID, this.engine, this.manager := instanceID, engine, manager;
    }

    ghost function Here(): Site {
      Site(manager.hashing, instanceID, manager.config, engine.config)
    }

    method Decorate(req: Request, response: Response, l: Lookup) returns (reply: Reply)
      requires manager.hashing.Positive()
      modifies manager
      ensures var (cache, served) := Here().Consult(old(manager.State()), l);
              manager.State() == cache && reply == Decorated(manager.hashing, req, response, served)
    {
      var served := manager.Current(l.now, l.listed, l.listedAt);
      if served == None {
        return Reply(response, "", "", None);
      }
      var owner := SelectOwner(manager.hashing, served.value, ShardKeyOf(req));
      reply := Reply(response, served.value.revision, served.value.hashAlgorithm, owner);
    }

    /** `validateOwner`, for a request that carries both topology fields. */
    method ValidateOwner(req: Request, l: Lookup) returns (check: Check)
      requires manager.hashing.Positive() && MissingRoute(req) == ""
      modifies manager
      ensures var (cache, served) := Here().Consult(old(manager.State()), l);
              manager.State() == cache && check == CheckOwner(manager.hashing, instanceID, req, served)
    {
      var served := manager.Current(l.now, l.listed, l.listedAt);
      if served == None {
        return Reject(Denied, "topology_unavailable", 0, "", "", None);
      }
      var t := served.value;
      var owner := SelectOwner(manager.hashing, t, ShardKeyOf(req));
      if owner == None {
        return Reject(ShardMigrating, "topology_owner_unavailable", 50, t.revision, t.hashAlgorithm, None);
      }
      if req.topologyRevision != t.revision {
        return NotOwnerOf(t, owner.value, "topology_revision_mismatch");
      }
      if req.targetInstanceId != owner.value.instanceID {
        return NotOwnerOf(t, owner.value, "target_instance_mismatch");
      }
      if owner.value.instanceID != instanceID {
        return NotOwnerOf(t, owner.value, "not_owner");
      }
      check := Proceed;
    }

    method AcquireQuota(req: Request, r: Readings) returns (reply: Reply)
      requires manager.hashing.Positive()
      modifies engine, manager
      ensures (engine.State(), manager.State(), reply) ==
        Handled(Here(), old(engine.State()), old(manager.State()), req, r)
    {
      hide Validate, Acquired, CheckOwner, Decorated, TopologyManager.Served, Blank;
      var validated := Validate(engine.config.lagRetry, r.first, req);
      if validated.decision != Unspecified {
        reply := Decorate(req, validated, r.decoration);
        return;
      }
      if MissingRoute(req) != "" {
        reply := Decorate(req, EmptyResponse(req).(decision := InvalidRequest, reason := MissingRoute(req)),
          r.decoration);
        return;
      }
      var check := ValidateOwner(req, r.route);
      if check != Proceed {
        return Rejection(req, check);
      }
      var response := engine.Acquire(r.second, r.third, req, r.clock);
      reply := Decorate(req, response, r.decoration);
    }
  }
}
