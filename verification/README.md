# StellPulsar: verification of the distributed rate limiter

Dafny models and proofs for the parts of StellPulsar that decide whether a request is admitted:

- **Quota engine** (`Quota`, `QuotaBounds`, `QuotaOverflow`, `QuotaGc`, `QuotaLag`, `QuotaEngine`,
  `Admission`). Fixed-window buckets that
  are reset lazily, collected after a grace period and capped in number. Clock readings are taken before the
  lock, so they may arrive out of order; 64-bit wrap-around of the window product, saturation and truncation
  of durations are explicit. The object with its map is `QuotaEngine.Engine`; each method is proved against
  the transition `Quota.Step`, and the theorems are about runs of that transition.
- **Owner routing** (`Topology`, `TopologyText`, `TopologyOrder`, `TopologyStable`, `TopologyTies`, `TopologyMovement`,
  `TopologyElectorate`, `TopologyOwner`, `TopologyManager`, `Ownership`). Instances are normalised, stably sorted, serialised and hashed into a revision; a weighted
  rendezvous argmax picks the one owner; requests under another revision or for another instance are redirected.
- **Cluster** (`Cluster`, `ClusterSafety`, `ClusterHandler`, `Spelling`, `TwoWriters`). Any number of servers as interleaved steps. A request is in flight
  from its first rule check to its critical section and is advanced by five separate steps (route, revalidate,
  read the rule, read the clock, commit), so refreshes, rule swaps and other requests fall in between.
- **Rule replication** (`Rules`, `RuleIndex`, `RuleRebuild`, `RuleDelta`, `RuleContents`, `RuleBuilder`, `RuleStore`, `Upstreams`, `Syncer`,
  `Replication`). Snapshots as
  values and what edits mean; the same on the heap, where maps are edited in place on deep copies; the store with
  its pointer swap and drop-oldest channels; paged full sync, deltas and the fallback between them.
- **Digest reconciliation** (`Digests`, and the digest checks in `Admission`).

`Sample` is one published config with one rule, on which concrete inputs are built.

## Hypotheses

None of these is an axiom; each is a `requires`, or an arbitrary function passed as a parameter.

- The digest of canonical texts is an arbitrary function (`Hashing.digest`). A single writer per revision needs that
  equal revisions of a run mean the same electorate (`ClusterSafety.RevisionsTell`): exactly what makes revisions name
  owners (`TopologyElectorate.SameOwnersExactly`). It holds when no instance field that discovery lists has a '|' or a
  newline, integers are in range, and no two canonical texts of the run share a digest (`CleanLists`, `InRange`,
  `NoCollision`). The code checks none of these; `TwoWriters.TwoWritersOneRevision` is a run in which the first fails.
- Clock readings lag by a bounded time: what an engine sees under its lock is at most d below what it saw before
  (`Quota.Skewed`), in the cluster because at most that time passes between a reading and its critical section
  (`ClusterSafety.Prompt`), and the grace period covers it (`Settled`). `QuotaLag.LagExactly` shows that the latter is
  needed unless there is room for one bucket only.
- Where a list of published configs is compared with a config map, its configs have distinct keys
  (`RuleRebuild.DistinctKeys`).
- The score is an arbitrary function of revision, shard key, instance id and weight (`Hashing.score`); the loop
  over a running best additionally needs it positive.
- JSON decoding is an arbitrary partial function (`Rules.Decoder`); the checks of `parseRules` are modelled.
- An upstream answers truthfully: equal version and checksum mean the same list of configs in the same order on
  every page (pages are cut from it, and one that is reordered between two requests could drop a config and repeat
  another), and a delta maps the configs of its origin to those of its target and names configs by trimmed ids
  (`Upstreams.Truthful`). It may fail at any request and move on between any two pages. At version zero without
  checksum it publishes nothing.
- Colon-free application codes and rule ids where bucket keys must be injective, windows of 1 to 9223372036
  seconds where the product must not wrap. `Admission.BucketKeySharedExactly` and `QuotaOverflow.BoundedExactly` show
  that these are exactly what is needed. The cluster bounds allow a rule to be absent, to come and go, and to change
  within a cap; names in the stores are as the rule index keeps them, trimmed (`Spelling.WellFormedServes`).

## Where code and documentation disagree

The model follows the code.

- `docs/distributed-quota-consistency.md` says that instances of a better priority own keys first. The code's
  owner selection ignores priority, which only enters the revision: an instance can own a key although one of better
  priority is UP (`TopologyElectorate.WorseOwns`), and the promise is kept exactly if all UP instances have one
  priority (`PriorityExactly`).
- The document's first promise, one owner per key and revision, fails for instance ids with stray separators; see the
  hypotheses.
- The same document promises that few keys move when instances change. The revision is part of the hash input, so
  keys can move between instances that stay (`TopologyMovement.KeyMovesBetweenOthers`), and do so for some scores
  whenever the revision changes (`MovementExactly`).
- The document's order of instances stops at the instance id; the code goes on to host and port as text. Instances
  that even this leaves tied are ordered by discovery, and the canonical text is independent of discovery order
  exactly if the lines of tied instances commute (`TopologyTies.TextOrderIndependentExactly`).
- A delete change is checked under trimmed ids and carried out under the raw ones
  (`RuleRebuild.DeleteRemovesExactly`, `DeleteMisses`).
- A digest with blank revision and checksum reads as a delete, but a rule of snapshot version zero without a
  checksum renders the same way (`Digests.Reconciles`, `BlankRuleLost`).
- The document has one bucket per shard key. Shard keys are trimmed and bucket keys are not, so quota keys that
  differ only in surrounding white space have one shard key and several buckets (`Spelling.SpacedTwice`); for colon-free
  names that is the only way it happens (`SpellingsExactly`), and the bound per shard key has the number of spellings in use as a
  factor (`ShardBound`).

## Model

| member | source | states |
|---|---|---|
| `Quota.WindowExact` | internal/quota/engine.go:77 | the window product is exact for 1 to 9223372036 seconds |
| `QuotaEngine.Defaulted` | internal/quota/engine.go:38-63 | every non-positive setting gets its default (50 ms, 30 s, 120 s, a million buckets), every positive one stays, so all are positive |
| `QuotaEngine.Engine.constructor` | internal/quota/engine.go:38-63 | a new engine has no bucket and no cleanup deadline |
| `QuotaEngine.Engine.CleanupExpired` | internal/quota/engine.go:199-209 | the deleting loop leaves exactly the buckets whose reset plus grace lies ahead, if a cleanup is due, and moves the deadline |
| `QuotaEngine.Engine.Deduct` | internal/quota/engine.go:79-113 | the locked part of a request is one step of the bucket transition `Quota.Step`, response included |
| `QuotaEngine.Engine.Acquire` | internal/quota/engine.go:65-113 | validation and deduction, with the store possibly swapped between the two rule lookups, are the transition `Admission.Acquired` |
| `QuotaBounds.BucketsCapped` | internal/quota/engine.go:81-97 | on every run, whatever the clocks, the bucket count never exceeds `maxBuckets` |
| `QuotaBounds.StepConserves` | internal/quota/engine.go:91-112 | a call either opens a bucket with its own quota and window or changes the old balance by exactly what it was granted |
| `QuotaBounds.BucketConservation` | internal/quota/engine.go:91-112 | after any run, every bucket was opened by some call, keeps that call's quota and window whatever rules came later, and its balance plus all granted since equals the quota at opening; the balance is never negative |
| `QuotaBounds.TrackRun` | internal/quota/engine.go:76-112 | along any run with bounded lag and limits within a cap (Q, W), bucket epochs of a key reset at least W apart and each grants at most Q |
| `QuotaBounds.SlidingBoundWithin` | internal/quota/engine.go:65-113 | the sliding bound while the rule changes, goes and comes back: if every limit read for a key has quota at most Q and window at least W, or is the zero limit of an absent rule, the key is granted at most (ceil((L + d) / W) + 1) * Q in any interval of length L |
| `QuotaBounds.SlidingBound` | internal/quota/engine.go:65-113 | a key under a constant rule (Q, W) is granted at most (ceil((L + d) / W) + 1) * Q in any interval of length L, when every reading lags the running maximum by at most d, which is at most the grace period |
| `QuotaOverflow.OverflowUnlimits` | internal/quota/engine.go:77-97 | when the window product wraps to zero or below, n calls at one instant are granted n full quotas |
| `QuotaOverflow.ExcessBreaks` | internal/quota/engine.go:77-97 | every window whose product overflows has a run that breaks the bound: two calls at one instant, or three calls an actual window apart when the product wraps to a shorter positive one |
| `QuotaOverflow.BoundedExactly` | internal/quota/engine.go:77-97 | for windows of 1 s to the largest 64-bit number of seconds, the bound with the rule's own window holds on all eligible runs if and only if the window is at most 9223372036 s |
| `QuotaOverflow.OverflowReachable` | internal/rulestore/builder.go:209-216 | the rule parser accepts every positive window, also those that wrap to a negative or to a shorter positive one |
| `QuotaGc.SimulationStep` | internal/quota/engine.go:76-112 | one call to the collecting engine and to one that never deletes gives the same answer and keeps the correspondence, capacity refusals aside |
| `QuotaGc.SimulationRun` | internal/quota/engine.go:81-97 | the same along every run with bounded lag |
| `QuotaGc.OneBucketRun` | internal/quota/engine.go:199-209 | with room for one bucket only, collection is invisible on every run without wrapping windows, whatever the lag |
| `QuotaGc.LateReadingVisible` | internal/quota/engine.go:199-209 | a run whose last reading lags beyond the grace period, in which a collected bucket is missed and a second quota granted that the reference refuses: visible unless there is room for one bucket only |
| `QuotaGc.GcInvisibleExactly` | internal/quota/engine.go:199-209 | collection is invisible on all runs without wrapping windows whose readings lag by at most d if and only if d is at most the grace period or there is room for one bucket only |
| `QuotaLag.InvisibleBound` | internal/quota/engine.go:65-113 | the sliding bound holds, however much readings lag, on every run on which collection is invisible |
| `QuotaLag.LateGrants` | internal/quota/engine.go:76-112 | with room for more than one bucket, late calls a nanosecond less than a window apart are all granted a full quota |
| `QuotaLag.LagExactly` | internal/quota/engine.go:76-112 | the sliding bound for a lag of at most d holds on all runs without wrapping windows if and only if d is at most the grace period or there is room for one bucket only |
| `QuotaGc.AfterDenial` | internal/quota/engine.go:98-112 | after a denial, a retry of cost within the quota is granted exactly from the reset on, or if it costs no more than the balance |
| `QuotaGc.RetryHintTight` | internal/quota/engine.go:98-105 | the retry hint falls short of the reset by less than 1 ms; a retry 1 ms after it is granted even if the bucket was collected and the map full; a retry exactly at it is granted only if the wait is a whole number of milliseconds |
| `Text.ParseFormatRoundTrip` | internal/rulestore/model.go:120-125 | every 64-bit integer parses back from its decimal form |
| `Text.ParseExactly` | internal/quota/engine.go:174 | a text parses if and only if it is digits behind at most one sign and denotes a 64-bit number, read from the left; that is its value |
| `Text.UpperOfLetters` | internal/rulestore/builder.go:72 | ASCII letters become the capital at their place in the alphabet |
| `Text.LessExactly` | internal/topology/topology.go:300-303 | texts are compared at the first place where they differ; a beginning precedes what it begins |
| `Admission.BucketKeyInjective` | internal/quota/engine.go:75 | without a colon in application code and rule id, equal bucket keys mean equal triples |
| `Admission.BucketKeySharedExactly` | internal/quota/engine.go:75 | a bucket key is also that of another triple with colon-free code and rule if and only if a colon occurs in the code or the rule |
| `Admission.BucketKeyAmbiguous` | internal/quota/engine.go:75 | three triples that share a bucket |
| `Admission.ValidateDecides` | internal/quota/engine.go:115-149 | validation never allows, never redirects, and uses none of the reasons of the deduction |
| `Admission.ValidatePassesExactly` | internal/quota/engine.go:115-190 | validation passes if and only if all five fields are given, the rule is there with positive quota and window, the revision parses to its version and the checksum is its own |
| `Admission.EngineTouchedOnlyIfValidated` | internal/quota/engine.go:65-113 | a rule error leaves the engine state as it was, and an allowed answer means that validation passed and the step granted |
| `Admission.AllowedDeductsOnce` | internal/quota/engine.go:65-113 | an allowed request takes the cost it names, one if it names none, once, from its own bucket, and no other bucket changes except by collection |
| `Admission.AcquireAnswers` | internal/quota/engine.go:79-113 | the answer to a validated request in terms of the bucket it finds and the bucket after it: granted if and only if there is room and the bucket holds the cost; balance, reset in whole milliseconds and waiting time of each answer |
| `Admission.ValidateAnswers` | internal/quota/engine.go:115-190 | every refusal of validation by its cause, with decision, reason, retry time and the rule's revision and checksum |
| `Admission.ComparisonsAgree` | internal/quota/engine.go:169-190 | the rule comparison is a threshold test on the parsed revision, then on the checksum; unparsable revisions conflict |
| `Admission.RevisionParses` | internal/rulestore/model.go:120-125 | a rule's own revision parses to its snapshot version; only version zero renders blank |
| `Admission.RuleChecksAgreeExactly` | internal/grpcapi/server.go:387-416 | `Validate` and `validateDigest` classify alike if and only if no required field is missing and it is not the case that the revision is no integer while the rule is there with the checksum given |
| `Admission.RuleChecksDisagree` | internal/grpcapi/server.go:387-416 | a request on which one reports a conflict and the other a match |
| `Admission.DigestStatusExactly` | internal/grpcapi/server.go:387-416 | each digest status by its cause, for every digest: at an equal revision a blank checksum matches |
| `Admission.ValidateDigests` | internal/grpcapi/server.go:168-182 | the fold is matched iff all match, conflict iff any conflicts, else the first mismatch |
| `Digests.ChangedDigests` | internal/grpcapi/server.go:359-385 | the changed digests are the server's answers on exactly the rules that some digest of the client holds differently, and the rules of the session's application whose seen key no digest has; for all digests, repeated ones included |
| `Digests.DistinctReports` | internal/grpcapi/server.go:359-385 | if the client repeats no rule, these are exactly the rules where client and server differ |
| `Digests.Reconciles` | internal/grpcapi/server.go:359-385 | nothing is reported iff both sides agree; a client that applies the report ends with exactly what it ought to hold iff it already holds every due rule whose revision and checksum are blank |
| `Digests.BlankRuleLost` | internal/grpcapi/server.go:359-385 | a rule of version zero without a checksum that never reaches the client |
| `Digests.ReconcilesStamped` | internal/grpcapi/server.go:418-426 | with non-zero rule versions, applying the report always reconciles |
| `Digests.ReconcilesOneApplication` | internal/grpcapi/server.go:359-385 | for a client of one application the patched book equals the server's book |
| `Digests.WellFormedInPlace` | internal/grpcapi/server.go:377-383 | the index invariant gives the hypothesis that rules sit under their own code and id |
| `Digests.ClientKeyExactly` | internal/grpcapi/server.go:363 | a digest belongs to the application it names, or to that of the session if it names none |
| `Topology.NormalizedAgain` | internal/topology/topology.go:219-249 | a normalised instance is complete, in a participating state, and its own normal form |
| `TopologyOwner.TakesPartExactly` | internal/topology/topology.go:219-249 | an instance takes part if and only if id, host, port and state qualify, and then exactly the stated fields are trimmed or defaulted |
| `TopologyOwner.BuiltFromFound` | internal/topology/topology.go:162-180 | every instance of a built topology was found, took part, and has a positive weight |
| `TopologyOwner.FoundIsBuilt` | internal/topology/topology.go:162-180 | every instance that takes part is in the built topology |
| `TopologyOwner.BuiltIsListed` | internal/topology/topology.go:290-305 | instances are listed by priority, the heavier first, then by id, then by host and port as text |
| `TopologyOwner.LineExactly` | internal/topology/topology.go:257-270 | a line renders eight fields in their order |
| `TopologyOwner.TextExactly` | internal/topology/topology.go:251-270 | the canonical text is the header and the lines of the instances |
| `TopologyOwner.BuildExactly` | internal/topology/topology.go:172-179 | a built topology names itself, its algorithm and the digest of its text |
| `TopologyOwner.OwnerScoresHighest` | internal/topology/topology.go:187-208 | in every built topology the owner is an UP instance whose own weight gives the highest score, with the least id among those; there is one if and only if key and revision are given and some instance is UP |
| `TopologyOwner.HeaviestOwns` | internal/topology/topology.go:275-288 | if the score grows with the weight and depends on nothing else, the heaviest UP instance owns every key |
| `Topology.SelectOwner` | internal/topology/topology.go:187-208 | the loop over a running best score computes the owner selection `Topology.OwnerOf` |
| `Topology.Revision` | internal/topology/topology.go:251-273 | the buffer written line by line is the canonical text that is hashed |
| `Topology.BuildTopology` | internal/topology/topology.go:162-180 | filtering, normalising, sorting and hashing give `Topology.Build` |
| `Topology.BestIsArgmax` | internal/topology/topology.go:192-207 | the running best is an UP instance with maximal score and least id among ties; there is one iff some instance is UP |
| `Topology.OwnerIsArgmax` | internal/topology/topology.go:187-208 | an owner exists iff shard key and revision are given and some instance is UP, and it is that argmax |
| `Topology.OwnerFromCandidates` | internal/topology/topology.go:187-208 | the owner's id depends only on the revision and the set of (id, weight) of UP instances: not on order, duplicates or priority |
| `TopologyElectorate.SameOwnersExactly` | internal/topology/topology.go:187-208 | two topologies of one revision name the same owner for every key, whatever the scores, if and only if they have the same candidates or all their candidates carry one id |
| `TopologyElectorate.OneTextTwoOwners` | internal/topology/topology.go:251-273 | two discovery answers, one with a separator and a newline inside an instance id, with one canonical text, hence one revision for every digest, and different owners for every key |
| `TopologyElectorate.PriorityExactly` | internal/topology/topology.go:187-208 | among instances with distinct ids the owner has the best priority for every key, whatever the scores, if and only if all UP instances have one priority |
| `TopologyElectorate.WorseOwns` | internal/topology/topology.go:162-208 | a built topology in which an instance owns a key although one of better priority is UP |
| `TopologyMovement.MovesByRehashing` | internal/topology/topology.go:275-288 | when instances join, a key goes to a newcomer or where the old instances alone would send it under the new revision |
| `TopologyMovement.MovementExactly` | internal/topology/topology.go:187-208 | when instances join, all keys stay or go to newcomers, whatever the scores, if and only if the revision stays the same |
| `TopologyMovement.KeyMovesBetweenOthers` | internal/topology/topology.go:162-208 | two built topologies, the second with one more instance that wins nothing, between which a key moves from one old instance to the other |
| `TopologyText.LinesUnique` | internal/topology/topology.go:257-270 | lines of fields without separators split back uniquely |
| `TopologyText.CanonicalInjective` | internal/topology/topology.go:251-273 | equal canonical texts of plain instances mean equal lists of all eight rendered fields |
| `TopologyText.RenderedDeterminesOwner` | internal/topology/topology.go:187-208 | equal revisions with equal rendered fields give the same owner id for every shard key |
| `TopologyOrder.KeyTotal` | internal/topology/topology.go:291-303 | no sort key precedes itself, and of two different ones exactly one precedes the other |
| `TopologyOrder.KeyTransitive` | internal/topology/topology.go:291-303 | the comparator is transitive |
| `TopologyOrder.SortSorts` | internal/topology/topology.go:290-305 | the stable sort returns a sorted permutation |
| `TopologyOrder.SortedKeysUnique` | internal/topology/topology.go:290-305 | a sorted permutation is unique |
| `TopologyOrder.BuildOrderIndependent` | internal/topology/topology.go:162-180 | with distinct normalised ids, every discovery order builds the same topology |
| `TopologyStable.StableSortExactly` | internal/topology/topology.go:290-305 | a list is the result of the stable sort if and only if it is sorted and instances that tie keep their order |
| `TopologyStable.SortIsStable` | internal/topology/topology.go:290-305 | sorting keeps the order of instances that tie |
| `TopologyTies.TextOrderIndependentExactly` | internal/topology/topology.go:162-180 | the canonical text is the same for every discovery order if and only if the lines of instances that the comparator cannot tell apart read the same in either order |
| `TopologyTies.PlainTies` | internal/topology/topology.go:257-270 | without stray separators that is so exactly when tied instances agree in all rendered fields |
| `TopologyTies.ZonesShow` | internal/topology/topology.go:162-180 | one instance listed twice with different zones: its two orders give different texts |
| `TopologyManager.Manager.Refresh` | internal/topology/topology.go:90-120 | a refresh caches what discovery answered, or serves the stale cache when discovery fails |
| `TopologyManager.Manager.Current` | internal/topology/topology.go:67-88 | a live cache is served as it is, otherwise a refresh decides |
| `TopologyManager.ServedIsBuilt` | internal/topology/topology.go:67-120 | whatever is served or cached was built from some discovery answer so far |
| `TopologyManager.ServedByAge` | internal/topology/topology.go:67-120 | a topology older than its lifetime is not served once discovery answers, a younger one is served as it is, and when discovery fails the cached one is served at any age |
| `Ownership.OnlyOwnerProceeds` | internal/grpcapi/server.go:473-531 | a request passes the owner check if and only if both topology fields are given, it carries the served revision, and this instance is the owner under it and the target |
| `Ownership.RedirectConverges` | internal/grpcapi/server.go:517-528 | following a redirect passes the check at the instance it names |
| `Ownership.RefusedByCause` | internal/grpcapi/server.go:473-551 | every refusal of the owner check by its cause: decision, reason, retry time, and for another revision, target or server the served revision and its owner |
| `Ownership.DecoratedCarries` | internal/grpcapi/server.go:553-568 | decorated answers carry the topology served then and the owner it names |
| `Ownership.Server.Decorate` | internal/grpcapi/server.go:553-568 | decoration serves the topology once more, which may refresh the cache, and adds revision, algorithm and owner |
| `Ownership.Server.ValidateOwner` | internal/grpcapi/server.go:493-530 | the owner check on the served topology is `Ownership.CheckOwner` |
| `Ownership.Server.AcquireQuota` | internal/grpcapi/server.go:139-150 | the handler is `Ownership.Handled`: validation, owner check and deduction in this order, with the decoration of rule errors, missing topology fields and quota decisions |
| `Ownership.AllowedExactly` | internal/grpcapi/server.go:139-150 | a request is allowed if and only if it passes validation, the owner check under the topology served then, and the deduction; only requests that pass the first two reach the engine |
| `Ownership.DecorationDecidesNothing` | internal/grpcapi/server.go:553-568 | what decoration reads changes neither the decision nor the buckets |
| `ClusterHandler.HandlerIsFollowed` | internal/grpcapi/server.go:139-150 | the cluster steps of one request without others in between do at its node what `Ownership.Handled` does: the same engine state and topology cache, the same critical section in the log, and nothing elsewhere |
| `Cluster.LocalKeepsNode` | internal/grpcapi/server.go:139-150 | installing a snapshot, receiving, revalidating, reading the rule and reading the clock keep the invariant of the server |
| `Cluster.RefreshKeepsNode` | internal/topology/topology.go:90-120 | a refresh keeps it |
| `Cluster.RouteKeepsNode` | internal/grpcapi/server.go:473-531 | routing keeps it, with the discovery answer it may have used |
| `ClusterSafety.CommitKeeps` | internal/quota/engine.go:79-113 | a critical section keeps the invariant of the whole cluster |
| `ClusterSafety.InvariantReached` | internal/grpcapi/server.go:139-150 | every reachable state satisfies the invariant: whoever is past the owner check owns the key under the revision its request carries, and every engine is the result of its own calls |
| `ClusterSafety.RevisionDeterminesOwner` | internal/topology/topology.go:187-208 | if equal revisions of the run mean the same electorate, they name the same owner for every shard key |
| `ClusterSafety.CleanListsTell` | internal/topology/topology.go:251-273 | equal revisions mean the same electorate when no field that discovery lists has a stray separator and no digests collide |
| `ClusterSafety.SingleWriter` | docs/distributed-quota-consistency.md:30-38 | if equal revisions of the run mean the same electorate: in every reachable state, two requests for one shard key and one topology revision that reached a critical section did so on the same instance, through refreshes, discovery failures, rule swaps and delays |
| `ClusterSafety.SingleWriterClean` | docs/distributed-quota-consistency.md:30-38 | the same for discovery answers without stray separators and digests without collisions |
| `TwoWriters.TwoWritersOneRevision` | docs/distributed-quota-consistency.md:30-38 | a run without digest collisions in which two servers grant from one shard key under one revision, because an instance id holds a separator and a newline |
| `ClusterSafety.GrantedByOne` | internal/quota/engine.go:65-113 | what one server grants according to the log is what its engine's run grants |
| `ClusterSafety.PromptIsSkewed` | internal/quota/engine.go:76-81 | readings taken at most `lag` before their critical section lag the running maximum by at most `lag` |
| `ClusterSafety.OwnersAtMostRevisions` | internal/topology/topology.go:187-208 | if equal revisions of the run mean the same electorate, the owners under a set of revisions are no more than the revisions |
| `ClusterSafety.ServerIsOwner` | internal/grpcapi/server.go:473-531 | a server that ran a critical section owns the shard key under the revision the request carries |
| `ClusterSafety.EntryCost` | internal/quota/engine.go:70-72 | every critical section charges the cost that its request names, or one if it names none |
| `ClusterSafety.ClusterBound` | internal/grpcapi/server.go:139-150 | in every interleaved run, one bucket key of a rule that is absent or within a cap (Q, W) in every store at all times is granted by the whole cluster at most (ceil((L + lag) / W) + 1) * Q per distinct owner under the revisions of the interval's requests; the costs that the granted requests name add up to no more |
| `Spelling.SpacedTwice` | internal/quota/engine.go:75 | two requests that differ in one space are for one shard key and are both allowed at one instant, although the quota is one |
| `Spelling.SpellingsExactly` | internal/topology/topology.go:210-212 | requests for rules of well-formed snapshots, named without colons, have one shard key and different buckets if and only if they are for one rule and their quota keys differ only in the white space around them |
| `Spelling.ShardBound` | internal/grpcapi/server.go:139-150 | in every interleaved run, one shard key is granted by the whole cluster at most (ceil((L + lag) / W) + 1) * Q per spelling of its quota key in use and per distinct owner |
| `Spelling.WellFormedServes` | internal/rulestore/builder.go:96-146 | a well-formed snapshot with colon-free names serves every cap that the rule keeps to, if it is there |
| `Rules.RulesFrom` | internal/rulestore/builder.go:190-236 | parsed rules carry the ids, checksum and version of their config and the trimmed id, the quota and the window of their item, both positive |
| `RuleContents.ParsesExactly` | internal/rulestore/builder.go:172-237 | a content parses if and only if it decodes to a list of sound items, and every field of rule i is that of item i or its stated default |
| `RuleContents.LookupFinds` | internal/rulestore/store.go:111-125 | in a well-formed snapshot a lookup finds what the last item with the id says, in the config that declares it |
| `RuleContents.BuildHolds` | internal/rulestore/builder.go:39-52 | a full build holds every config as published, and lookups find the quota and window that its content declares |
| `RuleContents.DeltaHolds` | internal/rulestore/builder.go:54-94 | a delta leaves every config as its last upsert published it, and lookups find the quota and window that its content declares |
| `RuleContents.UpsertWords` | internal/rulestore/builder.go:79-88 | after UPSERT, UPDATE, CREATE, CREATED or UPDATED the attached config is held with its rules and the checksum that the change names, and no other config changed |
| `RuleContents.DeleteWords` | internal/rulestore/builder.go:74-78 | after DELETE, REMOVE or DELETED the config under the ids as given is gone, it had the checksum that the change names, and no other config changed |
| `RuleContents.OtherWords` | internal/rulestore/builder.go:89-91 | any other word is refused |
| `RuleIndex.IndexInvariant` | internal/rulestore/builder.go:96-170 | in a well-formed snapshot no application is empty, the configs named by rules are exactly the configs, and each rule sits under its own id with its config's checksum, positive quota and window, and a version at most that of application and snapshot |
| `RuleIndex.IndexedMerges` | internal/rulestore/builder.go:137-142 | indexing succeeds exactly if no other config holds one of the ids, and then overlays the parsed rules |
| `RuleIndex.UpsertSnapshot` | internal/rulestore/builder.go:96-146 | an upsert succeeds exactly on admissible configs, keeps the invariant and puts the config |
| `RuleIndex.DeleteSnapshot` | internal/rulestore/builder.go:148-170 | a delete keeps the invariant and drops exactly the config |
| `RuleIndex.DeltaEdits` | internal/rulestore/builder.go:54-94 | a delta that succeeds keeps the invariant, advances the version and edits the config map as its changes say |
| `RuleIndex.BuildPuts` | internal/rulestore/builder.go:39-52 | a full build that succeeds is well formed and holds the published configs |
| `RuleIndex.IndexFromConfigs` | internal/rulestore/builder.go:96-170 | equal config maps force equal rules up to version stamps |
| `RuleRebuild.BuildSucceedsExactly` | internal/rulestore/builder.go:39-52 | a full build of configs with distinct keys succeeds if and only if every one parses and no two of an application declare the same rule: the order is immaterial |
| `RuleRebuild.RebuildAgrees` | internal/rulestore/builder.go:39-52 | rebuilding the configs of a well-formed snapshot in any order gives its index back |
| `RuleRebuild.DeltaAgreesWithRebuild` | internal/rulestore/builder.go:54-94 | whenever a delta succeeds, a full build of the edited configs in any order succeeds with the same index |
| `RuleDelta.DeltaSucceedsExactly` | internal/rulestore/builder.go:54-94 | a delta succeeds if and only if its version advances, its checksum is given, and every change fits the configs that the changes before it leave |
| `RuleDelta.OrderMatters` | internal/rulestore/builder.go:137-142 | changes that are accepted in one order and refused in the other, although both mean the same configs and these build |
| `RuleRebuild.DeleteRemovesExactly` | internal/rulestore/builder.go:74-78 | an accepted delete removes the config its trimmed ids name if and only if that config was absent or the ids carry no white space |
| `RuleRebuild.DeleteMisses` | internal/rulestore/builder.go:74-78 | a delete with white space around the application code that is accepted, checksum and all, and removes nothing |
| `RuleBuilder.CloneApp` | internal/rulestore/model.go:78-93 | both maps of the copy are new and hold the same entries |
| `RuleBuilder.Clone` | internal/rulestore/model.go:65-76 | the copy shares no map with the original and denotes the same snapshot |
| `RuleBuilder.DeleteRulesForConfig` | internal/rulestore/builder.go:164-170 | the deleting loop leaves exactly the rules of other configs |
| `RuleBuilder.Parse` | internal/rulestore/builder.go:172-237 | the appending loop is `Rules.ParseRules`, first error included; rule i has the trimmed id, the quota and the window of item i |
| `RuleBuilder.ApplyToApp` | internal/rulestore/builder.go:114-142 | the in-place edit of one application has the outcome `Rules.AppWithConfig` |
| `RuleBuilder.Apply` | internal/rulestore/builder.go:96-146 | the in-place upsert on a working copy has the outcome `Rules.ApplyConfig` |
| `RuleBuilder.Delete` | internal/rulestore/builder.go:148-162 | the in-place delete has the outcome `Rules.DeleteConfig` |
| `RuleBuilder.Check` | internal/rulestore/builder.go:239-280 | the checksum checks read only |
| `RuleBuilder.Change` | internal/rulestore/builder.go:66-91 | one change of a delta has the outcome `Rules.ApplyChange` |
| `RuleBuilder.ApplyAll` | internal/rulestore/builder.go:54-94 | a delta has the outcome `Rules.ApplyChanges` and modifies nothing that existed before, whether it succeeds or fails; the result shares no map with its input |
| `RuleBuilder.BuildAll` | internal/rulestore/builder.go:39-52 | a full build has the outcome `Rules.BuildSnapshot`, on maps of its own |
| `RuleStore.Store.constructor` | internal/rulestore/store.go:26-30 | the store holds a deep copy of its initial snapshot |
| `RuleStore.Store.Snapshot` | internal/rulestore/store.go:69-75 | readers get a deep copy |
| `RuleStore.Store.Find` | internal/rulestore/store.go:111-125 | the lookup finds the rule in the published snapshot |
| `RuleStore.Store.Subscribe` | internal/rulestore/store.go:77-90 | a new subscriber gets a channel and an id of its own, and capacity at least one |
| `RuleStore.Store.Unsubscribe` | internal/rulestore/store.go:97-98 | exactly that subscriber is gone |
| `RuleStore.Channel.Drain` | internal/rulestore/store.go:174-185 | a subscriber receives in the order of the channel |
| `RuleStore.Channel.TrySend` | internal/rulestore/store.go:174-175 | a send that does not block succeeds exactly if there is room |
| `RuleStore.Channel.TryDrop` | internal/rulestore/store.go:177-180 | dropping loses at most the oldest element |
| `RuleStore.Channel.MakeRoom` | internal/rulestore/store.go:176-181 | however the subscriber drains meanwhile, there is room afterwards and at most one element, none already received, is lost |
| `RuleStore.Channel.Publish` | internal/rulestore/store.go:174-185 | the received snapshots stay a publication-ordered subsequence, the newest is the last element of the channel or received, and nothing is lost unless the channel was full: the last default branch is unreachable |
| `RuleStore.Store.Notify` | internal/rulestore/store.go:164-187 | every live subscriber is sent a deep copy of the snapshot; no two of the copies, and none and the snapshot, share a map |
| `RuleStore.Store.Replace` | internal/rulestore/store.go:43-49 | the pointer swaps to a complete deep copy even if the cache write fails, and every subscriber is sent a copy of its own |
| `Syncer.Replica.FetchAll` | internal/runtimeapi/syncer.go:221-252 | the page loop ends as `Upstreams.Fetch` says, request by request, and if it ends well, the pages concatenate to exactly what the upstream published |
| `Upstreams.FetchExactly` | internal/runtimeapi/syncer.go:221-252 | a fetch ends well if and only if the upstream stands at one version for as many answers as it has pages at first |
| `Upstreams.FetchFails` | internal/runtimeapi/syncer.go:241-248 | a change while paging is reported only if the upstream moved |
| `Upstreams.AttemptsExhausted` | internal/runtimeapi/syncer.go:200-218 | only paging errors are retried, and they are reported only after the last attempt |
| `Syncer.Replica.FullSyncLocked` | internal/runtimeapi/syncer.go:220-263 | one attempt leaves the old snapshot, or the complete build of what was fetched; the latter also after a cache error |
| `Syncer.Replica.FullSync` | internal/runtimeapi/syncer.go:200-218 | the retry loop makes exactly the requests and attempts that `Upstreams.Attempts` says, and the store holds the old snapshot or the complete new one |
| `Syncer.Replica.FetchAndApplyDelta` | internal/runtimeapi/syncer.go:265-305 | a delta is refused for the first of its faults, applied where it continues the snapshot, or replaced by one full sync |
| `Syncer.Replica.ApplyDelta` | internal/runtimeapi/syncer.go:292-304 | a continuing delta is installed whole or not at all |
| `Syncer.Replica.HandleWatchEvent` | internal/runtimeapi/syncer.go:185-198 | heartbeats and unknown events change nothing; the other two run a delta or a full sync |
| `Syncer.Replica.Bootstrap` | internal/runtimeapi/syncer.go:75-106 | without permission the error of the sync is returned; with it, a non-empty snapshot survives a failed sync, and the empty one is installed where there is none; if its cache write fails too, both errors are reported |
| `Replication.StartIsSteps` | internal/runtimeapi/syncer.go:75-106 | a start is a sequence of steps of the replica |
| `Replication.SyncedIsStep` | internal/runtimeapi/syncer.go:200-263 | every full sync, failed or not, is a step: nothing changes or a complete build takes over |
| `Replication.DeltaIsStep` | internal/runtimeapi/syncer.go:265-305 | so is every request for changes that is answered truthfully |
| `Replication.RefusedExactly` | internal/runtimeapi/syncer.go:277-285 | a delta is refused, with nothing changed, if and only if it miscounts its changes, does not advance or has no target checksum; the first of these is reported |
| `Replication.DeltaInstalls` | internal/runtimeapi/syncer.go:286-304 | a truthful delta that continues the snapshot, advances, has a target checksum and the right count, and whose changes fit, is installed: the store ends at its target with the upstream's configs there |
| `Replication.StandingStillInstalls` | internal/runtimeapi/syncer.go:200-263 | an upstream that stands still long enough is installed by the first attempt, unless its configs do not build |
| `Replication.EmptyIsFaithful` | internal/rulestore/model.go:53-59 | the empty snapshot a replica starts from is faithful |
| `Replication.StepKeepsFaithful` | internal/runtimeapi/syncer.go:200-305 | every step keeps the replica equal to what the upstream publishes at the replica's own version |
| `Replication.AdvanceIsFaithful` | internal/runtimeapi/syncer.go:292-304 | a truthful delta keeps that and advances the version |
| `Replication.RunStaysFaithful` | internal/runtimeapi/syncer.go:200-305 | the same over every run, whatever failed on the way |
| `Replication.ReplicaRefines` | internal/runtimeapi/syncer.go:200-305 | after any run, a full build of the upstream's configs at the replica's version, in any order, succeeds and has the same configs and rules up to version stamps |
| `Replication.ReplicaRefinesUpstream` | internal/runtimeapi/syncer.go:200-305 | in particular for the configs as published, if their keys are distinct |

## Left out

- HTTP and SSE client, gRPC wiring, generated protobuf code, configuration, metrics, logging: no state to reason about; the client is an oracle.
- Byte-level JSON parsing and the JSON cache round trip (`AttachCache`): library behaviour; a run of the replica may start from any faithful snapshot.
- SHA-256, logarithm and floating-point rounding: deterministic functions without further assumptions.
- Token authorisation and the `OpenSession` loop: scheduling of input and output. The code does not promise that every session hears of every change.
- Closing a channel while `notify` is sending: delivery is stated for live subscribers.
- Shard migration, draining hand-over, the external counter backend: described in the documents, not implemented.
- Crash and restart of a server: its buckets are lost by design, so the bounds are for crash-free runs.
- Nil requests and nil managers: every handler receives values.
- Pointers to buckets and to the two maps of an application: a bucket is a value in the map, and an application refers to one object that holds both maps. Slices and attribute maps inside a rule are values, so their copying is not modelled.
- Upper-casing outside ASCII: exact only for comparing with the keywords of the code.
- The internals of Go's stable sort: `Topology.StableSort` is stable insertion; `TopologyStable.StableSortExactly` shows that any stable sort has its result.
- Readers that race with a pointer swap see the old or the new snapshot; `Admission.Acquired` and `Ownership.Server.AcquireQuota` take the snapshots of their separate reads as parameters.
- RuleStore.Store.Notify: one publisher at a time; two concurrent calls to `ReplaceWithContext` can notify in an order other than that of the swaps.
