/** The upstream that a replica follows: what it publishes, page by page and change by change, and how it may fail. */
module Upstreams {
  import opened Common
  import opened Text
  import opened Rules
  import opened RuleIndex

  // ---------------------------------------------------------------- the upstream

  /**
   The configs that the upstream publishes under each (version, checksum), as a list: its order is
   fixed too, since pages are cut from it and an upstream that reorders between two pages could drop
   one config and repeat another.
   */
  datatype Upstream = Upstream(configs: (int, string) -> seq<PublishedConfig>)

  datatype Page = Page(version: int, checksum: string, generatedAt: int, totalPages: nat, content: seq<PublishedConfig>)

  datatype Delta = Delta(
    fromVersion: int, fromChecksum: string, toVersion: int, toChecksum: string, generatedAt: int,
    changeCount: int, changes: seq<PublishedChange>)

  function Min(a: nat, b: nat): nat {
    if a < b then a else b
  }

  /** Page `page` of a list, `size` configs to a page. */
  function Chunk(configs: seq<PublishedConfig>, page: nat, size: nat): seq<PublishedConfig> {
    configs[Min(page * size, |configs|)..Min(page * size + size, |configs|)]
  }

  /** The first `pages` pages. */
  function Prefix(configs: seq<PublishedConfig>, pages: nat, size: nat): seq<PublishedConfig> {
    configs[..Min(pages * size, |configs|)]
  }

  function PagesOf(configs: seq<PublishedConfig>, size: nat): nat
    requires size > 0
  {
    (|configs| + size - 1) / size
  }

  /** What the upstream answers when it stands at the given version. */
  function PageAt(upstream: Upstream, version: int, checksum: string, generatedAt: int, page: nat, size: nat): Page
    requires size > 0
  {
    var configs := upstream.configs(version, checksum);
    Page(version, checksum, generatedAt, PagesOf(configs, size), Chunk(configs, page, size))
  }

  function Truth(upstream: Upstream, version: int, checksum: string): ConfigMap {
    PutFirst(upstream.configs(version, checksum), |upstream.configs(version, checksum)|)
  }

  /** A delete change that names its config by trimmed ids. */
  ghost predicate TrimmedIds(change: PublishedChange) {
    Trim(change.applicationCode) == change.applicationCode && Trim(change.configID) == change.configID
  }

  /** A truthful delta leads from the configs of its origin to those of its target. */
  ghost predicate Truthful(upstream: Upstream, d: Delta) {
    && (forall i :: 0 <= i < |d.changes| ==> TrimmedIds(d.changes[i]))
    && MeantFirst(Truth(upstream, d.fromVersion, d.fromChecksum), d.changes, |d.changes|)
       == Truth(upstream, d.toVersion, d.toChecksum)
  }

  /** What the upstream means by a change: ids name configs whatever the white space around them. */
  function Meant(m: ConfigMap, change: PublishedChange): ConfigMap {
    match Upper(Trim(change.operation))
    case "DELETE" | "REMOVE" | "DELETED" => Drop(m, Trim(change.applicationCode), Trim(change.configID))
    case "UPSERT" | "UPDATE" | "CREATE" | "CREATED" | "UPDATED" =>
      if change.config.Some? then Put(m, Stored(change.config.value)) else m
    case _ => m
  }

  function MeantFirst(m: ConfigMap, changes: seq<PublishedChange>, n: nat): ConfigMap
    requires n <= |changes|
  {
    if n == 0 then m else Meant(MeantFirst(m, changes, n - 1), changes[n - 1])
  }

  lemma {:induction false} MeantIsEdited(m: ConfigMap, changes: seq<PublishedChange>, n: nat)
    requires n <= |changes| && forall i :: 0 <= i < |changes| ==> TrimmedIds(changes[i])
    ensures MeantFirst(m, changes, n) == EditFirst(m, changes, n)
  {
    hide Trim, Drop, Put, Stored, Upper;
    if n > 0 {
      MeantIsEdited(m, changes, n - 1);
      assert TrimmedIds(changes[n - 1]);
    }
  }

  /** Answers to come: failures, and the versions the upstream stands at when it is asked for a page. */
  datatype Answer = Fails | StandsAt(version: int, checksum: string, generatedAt: int)

  class Client {
    const upstream: Upstream
    var pages: seq<Answer>
    var deltas: seq<Option<Delta>>

    constructor (upstream: Upstream, pages: seq<Answer>, deltas: seq<Option<Delta>>)
      ensures this.upstream == upstream && this.pages == pages && this.deltas == deltas
    {
      this.upstream, this.pages, this.deltas := upstream, pages, deltas;
    }

    ghost predicate Honest()
      reads this
    {
      forall i :: 0 <= i < |deltas| && deltas[i].Some? ==> Truthful(upstream, deltas[i].value)
    }

    method Snapshot(page: nat, size: nat) returns (r: Option<Page>)
      requires size > 0
      modifies this`pages
      ensures pages == if old(pages) == [] then [] else old(pages)[1..]
      ensures r == if old(pages) == [] || old(pages)[0].Fails? then None
                   else
                     var StandsAt(version, checksum, generatedAt) := old(pages)[0];
                     Some(PageAt(upstream, version, checksum, generatedAt, page, size))
    {
      if pages == [] {
        return None;
      }
      var answer := pages[0];
      pages := pages[1..];
      r := if answer.Fails? then None
        else Some(PageAt(upstream, answer.version, answer.checksum, answer.generatedAt, page, size));
    }

    /** What the next request for changes will be answered; None if it fails. */
    ghost function NextDelta(): Option<Delta>
      reads this
    {
      if deltas == [] then None else deltas[0]
    }

    method Changes() returns (r: Option<Delta>)
      requires Honest()
      modifies this`deltas
      ensures Honest() && r == old(NextDelta()) && (r.Some? ==> Truthful(upstream, r.value))
    {
      if deltas == [] {
        return None;
      }
      r := deltas[0];
      deltas := deltas[1..];
    }
  }

  // ---------------------------------------------------------------- paging

  lemma NextPage(configs: seq<PublishedConfig>, page: nat, size: nat)
    ensures Prefix(configs, page, size) + Chunk(configs, page, size) == Prefix(configs, page + 1, size)
  {
    assert (page + 1) * size == page * size + size;
  }

  lemma NoPages(size: nat)
    ensures forall configs :: Prefix(configs, 0, size) == []
  {
  }

  lemma AllPages(configs: seq<PublishedConfig>, pages: nat, size: nat)
    requires size > 0 && pages >= PagesOf(configs, size)
    ensures Prefix(configs, pages, size) == configs
  {
    var n := PagesOf(configs, size);
    assert n * size >= |configs|;
    assert pages * size >= n * size by { TimesMonotone(n, pages, size); }
  }

  lemma TimesMonotone(a: nat, b: nat, m: nat)
    ensures a <= b ==> a * m <= b * m
  {
  }

  // ---------------------------------------------------------------- what a fetch of all pages comes to

  datatype SyncError =
    | FetchFailed
    | ChangedWhilePaging
    | BuildFailed(error: Error)
    | CacheFailed
    | CountMismatch
    | NotAdvancing
    | TargetChecksumRequired
    | EndpointRequired
    | Both(first: SyncError, second: SyncError)

  /** The upstream went to another version or checksum between two answers. */
  predicate Moved(a: Answer, b: Answer) {
    a.StandsAt? && b.StandsAt? && (a.version != b.version || a.checksum != b.checksum)
  }

  /** How a fetch ends, at which answer of the upstream's, and the answers still to come. */
  datatype Fetched = Fetched(outcome: Result<Answer, SyncError>, rest: seq<Answer>)

  /** Pages `page` to `total` of a fetch that began with the answer `first`. */
  function FetchFrom(pages: seq<Answer>, page: nat, total: nat, first: Answer): Fetched
    decreases total - page
  {
    if page >= total then Fetched(Ok(first), pages)
    else if pages == [] then Fetched(Err(FetchFailed), [])
    else if pages[0].Fails? then Fetched(Err(FetchFailed), pages[1..])
    else if Moved(first, pages[0]) then Fetched(Err(ChangedWhilePaging), pages[1..])
    else FetchFrom(pages[1..], page + 1, total, first)
  }

  /** An empty list still has one page to fetch. */
  function PagesToFetch(upstream: Upstream, first: Answer, size: nat): (n: nat)
    requires size > 0 && first.StandsAt?
    ensures n >= 1
  {
    var n := PagesOf(upstream.configs(first.version, first.checksum), size);
    if n == 0 then 1 else n
  }

  function Fetch(upstream: Upstream, pages: seq<Answer>, size: nat): Fetched
    requires size > 0
  {
    if pages == [] then Fetched(Err(FetchFailed), [])
    else if pages[0].Fails? then Fetched(Err(FetchFailed), pages[1..])
    else FetchFrom(pages[1..], 1, PagesToFetch(upstream, pages[0], size), pages[0])
  }

  /** The first `n` answers all stand where the first one does. */
  ghost predicate Steady(pages: seq<Answer>, n: nat) {
    && 1 <= n <= |pages| && pages[0].StandsAt?
    && forall i :: 0 <= i < n ==> pages[i].StandsAt? && !Moved(pages[0], pages[i])
  }

  lemma {:induction false} FetchFromExactly(pages: seq<Answer>, page: nat, total: nat, first: Answer)
    requires first.StandsAt? && page <= total
    ensures var steady := total - page <= |pages| && forall i :: 0 <= i < total - page ==>
      pages[i].StandsAt? && !Moved(first, pages[i]);
            && (FetchFrom(pages, page, total, first).outcome.Ok? <==> steady)
            && (steady ==> FetchFrom(pages, page, total, first) == Fetched(Ok(first), pages[total - page..]))
    decreases total - page
  {
    if page < total && pages != [] {
      if pages[0].StandsAt? && !Moved(first, pages[0]) {
        FetchFromExactly(pages[1..], page + 1, total, first);
        assert forall i :: 0 < i < |pages| ==> pages[i] == pages[1..][i - 1];
        assert total - page <= |pages| ==> pages[1..][total - page - 1..] == pages[total - page..];
      }
    }
  }

  /** A fetch ends well exactly if the upstream stands still for as many answers as it has pages at first. */
  lemma FetchExactly(upstream: Upstream, pages: seq<Answer>, size: nat)
    requires size > 0
    ensures var f := Fetch(upstream, pages, size);
            && (f.outcome.Ok? <==>
                  pages != [] && pages[0].StandsAt? && Steady(pages, PagesToFetch(upstream, pages[0], size)))
            && (f.outcome.Ok? ==>
                  f.outcome.value == pages[0] && f.rest == pages[PagesToFetch(upstream, pages[0], size)..])
  {
    hide PagesOf;
    if pages != [] && pages[0].StandsAt? {
      var n := PagesToFetch(upstream, pages[0], size);
      FetchFromExactly(pages[1..], 1, n, pages[0]);
      assert forall i :: 0 < i < |pages| ==> pages[i] == pages[1..][i - 1];
    }
  }

  lemma {:induction false} FetchFromFails(pages: seq<Answer>, page: nat, total: nat, first: Answer)
    requires FetchFrom(pages, page, total, first).outcome == Err(ChangedWhilePaging)
    ensures exists i :: 0 <= i < |pages| && Moved(first, pages[i])
    decreases total - page
  {
    if !Moved(first, pages[0]) {
      FetchFromFails(pages[1..], page + 1, total, first);
      var i :| 0 <= i < |pages[1..]| && Moved(first, pages[1..][i]);
      assert pages[i + 1] == pages[1..][i];
    }
  }

  /** A fetch ends badly in two ways only, and reports a change only if the upstream moved. */
  lemma FetchFails(upstream: Upstream, pages: seq<Answer>, size: nat)
    requires size > 0 && Fetch(upstream, pages, size).outcome == Err(ChangedWhilePaging)
    ensures exists i :: 0 < i < |pages| && Moved(pages[0], pages[i])
  {
    hide PagesOf;
    FetchFromFails(pages[1..], 1, PagesToFetch(upstream, pages[0], size), pages[0]);
    var i :| 0 <= i < |pages[1..]| && Moved(pages[0], pages[1..][i]);
    assert pages[i + 1] == pages[1..][i];
  }

  /** Up to `retries` fetches, as long as the upstream moves while they run; with the number of fetches made. */
  function Attempts(upstream: Upstream, pages: seq<Answer>, size: nat, retries: nat): (Fetched, nat)
    requires size > 0
    decreases retries
  {
    var f := Fetch(upstream, pages, size);
    if f.outcome == Err(ChangedWhilePaging) && retries > 1 then
      var (last, n) := Attempts(upstream, f.rest, size, retries - 1);
      (last, n + 1)
    else (f, 1)
  }

  /** A change while paging is reported only after the last attempt; everything else ends the attempts at once. */
  lemma {:induction false} AttemptsExhausted(upstream: Upstream, pages: seq<Answer>, size: nat, retries: nat)
    requires size > 0 && retries >= 1
    ensures var (last, n) := Attempts(upstream, pages, size, retries);
            && 1 <= n <= retries
            && (last.outcome == Err(ChangedWhilePaging) ==> n == retries)
            && (Fetch(upstream, pages, size).outcome != Err(ChangedWhilePaging) ==>
              n == 1 && last == Fetch(upstream, pages, size))
    decreases retries
  {
    hide Fetch;
    var f := Fetch(upstream, pages, size);
    if f.outcome == Err(ChangedWhilePaging) && retries > 1 {
      AttemptsExhausted(upstream, f.rest, size, retries - 1);
    }
  }
}
