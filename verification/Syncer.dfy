/**
 The replica: full syncs from an upstream that may fail or move on at any time, deltas, and the
 fallback between them.  Whatever happens, the store holds a complete snapshot.
 */
module Syncer {
  import opened Common
  import opened Rules
  import opened RuleBuilder
  import opened RuleStore
  import opened Upstreams

  // ---------------------------------------------------------------- outcomes

  /** A swap always takes place; its error is that of the cache. */
  function Swapped(cached: bool): Option<SyncError> {
    if cached then None else Some(CacheFailed)
  }

  /** The outcome of a full sync whose fetch ended like this: a complete build is in place, or nothing changed. */
  ghost predicate Synced(decode: Decoder, upstream: Upstream, fetched: Result<Answer, SyncError>, before: Snapshot,
                         cached: bool, after: Snapshot, err: Option<SyncError>) {
    match fetched
    case Err(e) => after == before && err == Some(e)
    case Ok(Fails) => false
    case Ok(StandsAt(version, checksum, generatedAt)) =>
      match BuildSnapshot(decode, version, checksum, generatedAt, upstream.configs(version, checksum))
      case Ok(built) => after == built && err == Swapped(cached)
      case Err(e) => after == before && err == Some(BuildFailed(e))
  }

  /** The checks on a delta before anything is applied. */
  function Refusal(version: int, d: Delta): Option<SyncError> {
    if d.changeCount != 0 && d.changeCount != |d.changes| then Some(CountMismatch)
    else if d.toVersion <= version then Some(NotAdvancing)
    else if d.toChecksum == "" then Some(TargetChecksumRequired)
    else None
  }

  predicate Continues(current: Snapshot, d: Delta) {
    d.fromVersion == current.version && d.fromChecksum == current.checksum
  }

  /** The outcome of a delta that continues the snapshot: its changes are in place, or nothing changed. */
  ghost predicate Applied(decode: Decoder, before: Snapshot, d: Delta, cached: bool, after: Snapshot,
                          err: Option<SyncError>) {
    match ApplyChanges(decode, before, d.toVersion, d.toChecksum, d.generatedAt, d.changes)
    case Ok(next) => after == next && err == Swapped(cached)
    case Err(e) => after == before && err == Some(BuildFailed(e))
  }

  /** The outcome of one request for changes; `fetched` is how a fetch of all pages would end. */
  ghost predicate DeltaOutcome(decode: Decoder, upstream: Upstream, answer: Option<Delta>,
                               fetched: Result<Answer, SyncError>, before: Snapshot, cached: bool,
                               after: Snapshot, err: Option<SyncError>) {
    match answer
    case None => after == before && err == Some(FetchFailed)
    case Some(d) =>
      if Refusal(before.version, d).Some? then after == before && err == Refusal(before.version, d)
      else if Continues(before, d) then Applied(decode, before, d, cached, after, err)
      else Synced(decode, upstream, fetched, before, cached, after, err)
  }

  /** The outcome of a start whose sync left the snapshot `middle` and the error `failure`. */
  ghost predicate Started(enabled: bool, allowEmpty: bool, now: int, emptyCached: bool, middle: Snapshot,
                          failure: Option<SyncError>, after: Snapshot, err: Option<SyncError>) {
    if failure == None || !allowEmpty then after == middle && err == failure
    else if !IsEmpty(middle) then after == middle && err == None
    else
      && after == EmptySnapshot(now)
      && err == if emptyCached then None
                else if enabled then Some(Both(failure.value, CacheFailed)) else Some(CacheFailed)
  }

  // ---------------------------------------------------------------- the replica

  class Replica {
    const decode: Decoder
    const client: Client
    const store: Store
    const pageSize: nat
    const maxRetries: nat

    constructor (decode: Decoder, client: Client, store: Store, pageSize: int, maxRetries: int)
      ensures this.decode == decode && this.client == client && this.store == store
      ensures this.pageSize == if pageSize <= 0 then 100 else pageSize
      ensures this.maxRetries == if maxRetries <= 0 then 3 else maxRetries
    {
      this.decode, this.client, this.store := decode, client, store;
      this.pageSize := if pageSize <= 0 then 100 else pageSize;
      this.maxRetries := if maxRetries <= 0 then 3 else maxRetries;
    }

    ghost predicate Valid()
      reads store, store.current.apps, store.Channels(), client
    {
      store.Valid() && client.Honest() && pageSize > 0 && maxRetries > 0
    }

    /**
     The page loop of a full sync: all pages must carry the version and checksum of the first.
     If it ends well, the configs are exactly what the upstream published under that version.
     */
    method FetchAll() returns (r: Result<Page, SyncError>)
      requires pageSize > 0
      modifies client`pages
      ensures client.pages == Fetch(client.upstream, old(client.pages), pageSize).rest
      ensures match Fetch(client.upstream, old(client.pages), pageSize).outcome
              case Err(e) => r == Err(e)
              case Ok(first) =>
                && r.Ok? && first == StandsAt(r.value.version, r.value.checksum, r.value.generatedAt)
                && r.value.content == client.upstream.configs(first.version, first.checksum)
    {
      hide PagesOf, Chunk, Prefix;
      assert forall published :: Prefix(published, 0, pageSize) == [] by { NoPages(pageSize); }
      var configs: seq<PublishedConfig> := [];
      var version, checksum, generatedAt := 0, "", 0;
      var totalPages := 1;
      var page := 0;
      ghost var answers := client.pages;
      while page < totalPages
        invariant page <= totalPages && totalPages >= 1
        invariant page == 0 ==> configs == [] && client.pages == answers
        invariant page > 0 ==>
          && answers != [] && answers[0] == StandsAt(version, checksum, generatedAt)
          && totalPages == PagesToFetch(client.upstream, answers[0], pageSize)
          && Fetch(client.upstream, answers, pageSize) == FetchFrom(client.pages, page, totalPages, answers[0])
          && configs == Prefix(client.upstream.configs(version, checksum), page, pageSize)
        decreases page == 0, totalPages - page
      {
        var response := client.Snapshot(page, pageSize);
        if response == None {
          return Err(FetchFailed);
        }
        if page == 0 {
          version, checksum, generatedAt := response.value.version, response.value.checksum, response.value.generatedAt;
          totalPages := if response.value.totalPages == 0 then 1 else response.value.totalPages;
        }
        if response.value.version != version || response.value.checksum != checksum {
          return Err(ChangedWhilePaging);
        }
        NextPage(client.upstream.configs(version, checksum), page, pageSize);
        configs := configs + response.value.content;
        page := page + 1;
      }
      AllPages(client.upstream.configs(version, checksum), totalPages, pageSize);
      r := Ok(Page(version, checksum, generatedAt, totalPages, configs));
    }

    /** One attempt: fetch all pages, build, swap.  The store keeps its snapshot until the new one is complete. */
    method FullSyncLocked(cached: bool, gaps: nat -> (nat, nat)) returns (err: Option<SyncError>)
      requires Valid()
      modifies client`pages, store`current, store.Channels()
      ensures Valid() && client.pages == Fetch(client.upstream, old(client.pages), pageSize).rest
      ensures Synced(decode, client.upstream, Fetch(client.upstream, old(client.pages), pageSize).outcome,
                     old(store.Current()), cached, store.Current(), err)
      ensures err.Some? && err != Some(CacheFailed) ==> store.current == old(store.current)
    {
      hide BuildSnapshot, Fetch;
      var fetched := FetchAll();
      assert store.Current() == old(store.Current());
      if fetched.Err? {
        return Some(fetched.error);
      }
      var full := fetched.value;
      var built := BuildAll(decode, full.version, full.checksum, full.generatedAt, full.content);
      assert store.Current() == old(store.Current());
      if built.Err? {
        return Some(BuildFailed(built.error));
      }
      var ok, copies := store.Replace(built.value, cached, gaps);
      err := if ok then None else Some(CacheFailed);
    }

    /** Only a change while paging is retried, and it is given up only after the last attempt. */
    method FullSync(cached: bool, gaps: nat -> (nat, nat)) returns (err: Option<SyncError>, attempts: nat)
      requires Valid()
      modifies client`pages, store`current, store.Channels()
      ensures var (last, n) := Attempts(client.upstream, old(client.pages), pageSize, maxRetries);
              && Valid() && attempts == n && client.pages == last.rest
              && Synced(decode, client.upstream, last.outcome, old(store.Current()), cached, store.Current(), err)
              && (err.Some? && err != Some(CacheFailed) ==> store.current == old(store.current))
    {
      hide AppTable.Contents, Fetch, BuildSnapshot;
      attempts := 0;
      while true
        invariant attempts < maxRetries && Valid()
        invariant store.current == old(store.current) && store.Current() == old(store.Current())
        invariant var (last, n) := Attempts(client.upstream, client.pages, pageSize, maxRetries - attempts);
                  Attempts(client.upstream, old(client.pages), pageSize, maxRetries) == (last, n + attempts)
        decreases maxRetries - attempts
      {
        attempts := attempts + 1;
        err := FullSyncLocked(cached, gaps);
        if err != Some(ChangedWhilePaging) || attempts >= maxRetries {
          return;
        }
      }
    }

    /** A delta is applied only where it continues the snapshot at hand; otherwise one full sync is tried. */
    method FetchAndApplyDelta(cached: bool, gaps: nat -> (nat, nat)) returns (err: Option<SyncError>)
      requires Valid()
      modifies client, store`current, store.Channels()
      ensures Valid()
      ensures DeltaOutcome(decode, client.upstream, old(client.NextDelta()),
                           Fetch(client.upstream, old(client.pages), pageSize).outcome,
                           old(store.Current()), cached, store.Current(), err)
      ensures err.Some? && err != Some(CacheFailed) ==> store.current == old(store.current)
    {
      hide Applied, Synced, Truthful, Fetch, AppTable.Contents, AppTable.Separate, Client.Honest;
      var current, response := AskForChanges();
      if response == None {
        return Some(FetchFailed);
      }
      var delta := response.value;
      if delta.changeCount != 0 && delta.changeCount != |delta.changes| {
        return Some(CountMismatch);
      }
      if delta.toVersion <= current.version {
        return Some(NotAdvancing);
      }
      if delta.toChecksum == "" {
        return Some(TargetChecksumRequired);
      }
      if delta.fromVersion != current.version || delta.fromChecksum != current.checksum {
        err := FullSyncLocked(cached, gaps);
        return;
      }
      err := ApplyDelta(current, delta, cached, gaps);
    }

    /** A copy of the snapshot at hand, and what the upstream answers to a request for the changes since. */
    method AskForChanges() returns (current: Handle, response: Option<Delta>)
      requires Valid()
      modifies client`deltas
      ensures Valid() && store.Current() == old(store.Current())
      ensures fresh(current.apps) && fresh(current.apps.AllMaps()) && current.apps.Separate()
      ensures View(current) == store.Current() && response == old(client.NextDelta())
    {
      hide Truthful;
      current := store.Snapshot();
      response := client.Changes();
      assert store.Current() == old(store.Current());
    }

    method ApplyDelta(current: Handle, delta: Delta, cached: bool, gaps: nat -> (nat, nat))
        returns (err: Option<SyncError>)
      requires Valid() && current.apps.Separate() && View(current) == store.Current()
      modifies store`current, store.Channels()
      ensures Valid() && Applied(decode, old(store.Current()), delta, cached, store.Current(), err)
      ensures err.Some? && err != Some(CacheFailed) ==> store.current == old(store.current)
    {
      hide ApplyChanges, Truthful;
      var next := ApplyAll(decode, current, delta.toVersion, delta.toChecksum, delta.generatedAt, delta.changes);
      assert store.Current() == old(store.Current());
      if next.Err? {
        return Some(BuildFailed(next.error));
      }
      var ok, copies := store.Replace(next.value, cached, gaps);
      err := if ok then None else Some(CacheFailed);
    }

    method HandleWatchEvent(eventType: string, cached: bool, gaps: nat -> (nat, nat)) returns (err: Option<SyncError>)
      requires Valid()
      modifies client, store`current, store.Channels()
      ensures Valid()
      ensures eventType == "DELTA_CHANGED" ==>
        DeltaOutcome(decode, client.upstream, old(client.NextDelta()),
          Fetch(client.upstream, old(client.pages), pageSize).outcome,
                     old(store.Current()), cached, store.Current(), err)
      ensures eventType == "FULL_SYNC_REQUIRED" ==>
        Synced(decode, client.upstream, Attempts(client.upstream, old(client.pages), pageSize, maxRetries).0.outcome,
               old(store.Current()), cached, store.Current(), err)
      ensures eventType !in {"DELTA_CHANGED", "FULL_SYNC_REQUIRED"} ==>
        err == None && store.current == old(store.current)
    {
      hide DeltaOutcome, Synced, Fetch, Attempts;
      match eventType
      case "DELTA_CHANGED" => err := FetchAndApplyDelta(cached, gaps);
      case "FULL_SYNC_REQUIRED" =>
        var attempts;
        err, attempts := FullSync(cached, gaps);
      case _ => err := None;
    }

    /**
     A failed start is forgiven if empty starts are allowed: then a cached snapshot stays, and the empty
     one takes over where nothing was cached.  `middle` and `failure` are snapshot and error after the sync.
     */
    method Bootstrap(enabled: bool, allowEmpty: bool, now: int, cached: bool, emptyCached: bool,
                     gaps: nat -> (nat, nat))
        returns (err: Option<SyncError>, ghost middle: Snapshot, ghost failure: Option<SyncError>)
      requires Valid()
      modifies client`pages, store`current, store.Channels()
      ensures Valid()
      ensures if enabled
              then Synced(decode, client.upstream,
                          Attempts(client.upstream, old(client.pages), pageSize, maxRetries).0.outcome,
                          old(store.Current()), cached, middle, failure)
              else middle == old(store.Current()) && failure == Some(EndpointRequired)
      ensures Started(enabled, allowEmpty, now, emptyCached, middle, failure, store.Current(), err)
    {
      hide Synced, Attempts;
      middle, failure := store.Current(), Some(EndpointRequired);
      var failed := EndpointRequired;
      if enabled {
        var attempts;
        err, attempts := FullSync(cached, gaps);
        middle, failure := store.Current(), err;
        if err == None || !allowEmpty {
          return;
        }
        failed := err.value;
      } else if !allowEmpty {
        return Some(EndpointRequired), middle, failure;
      }
      assert middle.apps.Keys == store.current.apps.entries.Keys;
      if store.current.version != 0 || store.current.checksum != "" || store.current.apps.entries != map[] {
        return None, middle, failure;
      }
      var nothing := Empty(0, "", now);
      var ok, copies := store.Replace(nothing, emptyCached, gaps);
      err := if ok then None else if enabled then Some(Both(failed, CacheFailed)) else Some(CacheFailed);
    }
  }
}
