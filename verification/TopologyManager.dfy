/** The topology cache of one server: refreshed from discovery, served stale when discovery fails. */
module TopologyManager {
  import opened Common
  import opened Topology

  const DEFAULT_TTL: int := 2_000_000_000

  datatype Config = Config(namespace: string, service: string, cacheTTL: int)

  datatype Cache = Cache(current: Topology, expiresAt: int, updatedAt: int)

  const EMPTY_CACHE := Cache(NO_TOPOLOGY, 0, 0)

  /**
   `Refresh`: `listed` is what discovery answered, None when it failed.  A failure falls back to
   the cached topology, if there is one, and leaves the cache alone.
   */
  function Refreshed(hashing: Hashing, config: Config, cache: Cache, listed: Option<seq<Instance>>, now: int)
      : (Cache, Option<Topology>) {
    match listed
    case None => (cache, if cache.current.revision != "" then Some(cache.current) else None)
    case Some(found) =>
      var t := Build(hashing, config.namespace, config.service, found);
      (Cache(t, now + config.cacheTTL, now), Some(t))
  }

  /** `Current`: the cached topology while it is fresh, else a refresh. */
  function Served(hashing: Hashing, config: Config, cache: Cache, now: int, listed: Option<seq<Instance>>, later: int)
      : (Cache, Option<Topology>) {
    if cache.current.revision != "" && now < cache.expiresAt then (cache, Some(cache.current))
    else Refreshed(hashing, config, cache, listed, later)
  }

  /** Some discovery answer among `lists` builds this topology. */
  ghost predicate BuiltFrom(hashing: Hashing, config: Config, lists: seq<seq<Instance>>, t: Topology) {
    exists k :: 0 <= k < |lists| && t == Build(hashing, config.namespace, config.service, lists[k])
  }

  /** A cache without a topology, or with one that discovery once listed. */
  ghost predicate Grounded(hashing: Hashing, config: Config, lists: seq<seq<Instance>>, cache: Cache) {
    cache.current == NO_TOPOLOGY || BuiltFrom(hashing, config, lists, cache.current)
  }

  /** Whatever is served, fresh, refreshed or stale, was built from a discovery answer. */
  lemma ServedIsBuilt(hashing: Hashing, config: Config, lists: seq<seq<Instance>>, cache: Cache, now: int,
                      listed: Option<seq<Instance>>, later: int)
    requires Grounded(hashing, config, lists, cache)
    ensures var seen := if listed.Some? then lists + [listed.value] else lists;
            var (cache', t) := Served(hashing, config, cache, now, listed, later);
            && Grounded(hashing, config, seen, cache')
            && (t.Some? ==> BuiltFrom(hashing, config, seen, t.value))
  {
    hide Build;
    if listed.Some? {
      var seen := lists + [listed.value];
      assert seen[|lists|] == listed.value;
      assert forall k :: 0 <= k < |lists| ==> seen[k] == lists[k];
    }
  }

  /** The cache holds nothing, or a topology that expires its lifetime after it was built. */
  ghost predicate Dated(config: Config, cache: Cache) {
    cache == EMPTY_CACHE || cache.expiresAt == cache.updatedAt + config.cacheTTL
  }

  /**
   Every consultation keeps the dates.  A topology older than its lifetime is not served once discovery
   answers: then what discovery lists now is built, served and dated; a younger one is served as it is;
   and when discovery fails, the cached topology is served at any age.
   */
  lemma ServedByAge(hashing: Hashing, config: Config, cache: Cache, now: int, listed: Option<seq<Instance>>, later: int)
    requires Dated(config, cache)
    ensures var (cache', served) := Served(hashing, config, cache, now, listed, later);
            var has := cache.current.revision != "";
            && Dated(config, cache')
            && (has && now - cache.updatedAt < config.cacheTTL ==> served == Some(cache.current) && cache' == cache)
            && (listed.Some? && (!has || now - cache.updatedAt >= config.cacheTTL) ==>
                  && served == Some(Build(hashing, config.namespace, config.service, listed.value))
                  && cache'.current == served.value && cache'.updatedAt == later)
            && (listed == None ==> cache' == cache && served == if has then Some(cache.current) else None)
  {
    hide Build;
  }

  class Manager {
    const hashing: Hashing
    const config: Config
    var current: Topology
    var expiresAt: int
    var updatedAt: int

    constructor (hashing: Hashing, config: Config)
      ensures this.hashing == hashing && State() == EMPTY_CACHE
      ensures this.config == config.(cacheTTL := if config.cacheTTL <= 0 then 2_000_000_000 else config.cacheTTL)
    {
      this.hashing := hashing;
      this.config := config.(cacheTTL := if config.cacheTTL <= 0 then DEFAULT_TTL else config.cacheTTL);
      current, expiresAt, updatedAt := NO_TOPOLOGY, 0, 0;
    }

    ghost function State(): Cache
      reads this
    {
      Cache(current, expiresAt, updatedAt)
    }

    method Refresh(listed: Option<seq<Instance>>, now: int) returns (t: Option<Topology>)
      modifies this
      ensures (State(), t) == Refreshed(hashing, config, old(State()), listed, now)
    {
      if listed == None {
        t := if current.revision != "" then Some(current) else None;
        return;
      }
      var topology := BuildTopology(hashing, config.namespace, config.service, listed.value);
      current := topology;
      updatedAt := now;
      expiresAt := now + config.cacheTTL;
      t := Some(topology);
    }

    method Current(now: int, listed: Option<seq<Instance>>, later: int) returns (t: Option<Topology>)
      modifies this
      ensures (State(), t) == Served(hashing, config, old(State()), now, listed, later)
    {
      if current.revision != "" && now < expiresAt {
        return Some(current);
      }
      t := Refresh(listed, later);
    }
  }
}
