# Predicate-result equivalence cache, modelled in Dafny

This project models the Kubernetes scheduler's equivalence cache
(`pkg/scheduler/core/equivalence_cache.go`). The cache memoises the results of fit
predicates. A result is keyed by the node name, the predicate name and the
equivalence hash of the pod, and it stays cached until one of the invalidation
operations removes it.

Layout:

- `wrappers.dfy` (`Wrappers`): `Option`. It stands for Go's nil-able pointers, slices, maps and errors.
- `result_store.dfy` (`ResultStore`): the three-level store type
  `NodeMap = map<string, map<string, map<uint64, PredicateResult>>>`. It also holds
  the pure operations on the store: `Store`, `RemovePredicates`,
  `RemovePredicatesOnNode` and `RemoveNode`. Each of them is characterised through
  `Entries`, a flattened view that keys every cached result by the triple
  (node, predicate, hash).
- `pods.dfy` (`Pods`): the pod fields that the cache reads. A nil slice or map is
  `None`. An allocated but empty one is `Some([])` or `Some(map[])`.
- `equivalence_class.dfy` (`EquivalenceClass`): `getEquivalencePod` and
  `GetEquivalenceClassInfo`. The hash is a function parameter.
- `pod_add_policy.dfy` (`PodAddPolicy`): which predicates are invalidated when a pod
  is added to a node. It holds a declarative specification and the loop over the
  pod's volumes.
- `equivalence_cache.dfy` (`EquivalenceCaches`): the class `EquivalenceCache`. Its
  field `cache: NodeMap` is updated in place by `UpdateResult`, `RunPredicate` and
  the invalidations. Each state-changing method ensures
  `cache == F(old(cache), ...)` for the matching store operation `F`.
- `cache_scenarios.dfy` (`CacheScenarios`): callers that chain several calls. They
  show reuse of a cached result, recomputation of an uncached one, and targeted
  invalidation.

The collaborators are parameters:

- The fit predicate is a function `(Pod, Meta, NodeInfo) -> PredicateOutput`.
- The freshness oracle `IsUpToDate` is an `Option<NodeInfo -> bool>`. `None` stands
  for a nil scheduler cache.
- The FNV-32a deep hash of the view is a function `EquivalencePod -> uint32`. Its
  value is widened to `uint64`, as the Go code does.

## Model

| member | source | states |
|---|---|---|
| `ResultStore.Store` | pkg/scheduler/core/equivalence_cache.go:121-138 | A write creates missing node and predicate sub-maps and adds the node key. Afterwards the flattened view maps (node, predicate, hash) to the new result, replacing any earlier one. Every other key keeps its result. |
| `ResultStore.LastWriterWins` | pkg/scheduler/core/equivalence_cache.go:129-138 | Writing the same key twice leaves the same node keys and the same entries as the second write alone. |
| `ResultStore.RemovePredicates` | pkg/scheduler/core/equivalence_cache.go:163-168 | Node keys are unchanged and no node holds any of the given predicates. The remaining entries are exactly the old entries of other predicates, with their values. |
| `ResultStore.RemovePredicatesOnNode` | pkg/scheduler/core/equivalence_cache.go:179-181 | Node keys are unchanged, and an absent node leaves the store as it was. The node loses exactly the given predicates. Other nodes are untouched, and the entries are the old ones minus (node, given predicate, any hash). |
| `ResultStore.RemoveNode` | pkg/scheduler/core/equivalence_cache.go:189 | The node key is removed and the other nodes are unchanged. The entries are the old ones minus every entry of that node. |
| `ResultStore.RemoveNoPredicatesAll` | pkg/scheduler/core/equivalence_cache.go:158-160 | Invalidating an empty predicate set on every node leaves the store unchanged. |
| `ResultStore.RemoveNoPredicatesOnNode` | pkg/scheduler/core/equivalence_cache.go:174-176 | Invalidating an empty predicate set on one node leaves the store unchanged. |
| `EquivalenceCaches.EquivalenceCache.constructor` | pkg/scheduler/core/equivalence_cache.go:62-68 | A new cache holds no entries. |
| `EquivalenceCaches.EquivalenceCache.LookupResult` | pkg/scheduler/core/equivalence_cache.go:142-154 | Reports found iff node, predicate and hash are all present. When found it returns the stored result; otherwise it returns the zero result (fit false, no reasons). It only reads the store. |
| `EquivalenceCaches.EquivalenceCache.UpdateResult` | pkg/scheduler/core/equivalence_cache.go:102-140 | The store becomes `Store(old, node name, predicate, hash, {fit, reasons})` if the snapshot has a node and the oracle reports it up to date. Otherwise it is unchanged. |
| `EquivalenceCaches.EquivalenceCache.RunPredicate` | pkg/scheduler/core/equivalence_cache.go:70-100 | A missing snapshot or node gives `(false, [], "nodeInfo is nil or node is invalid")`, with no evaluation and no store change. A hit returns the stored fit and reasons with no error, no evaluation and no change. A miss returns the predicate's output unchanged. The result is stored only if there was no error, an oracle is given and it reports the snapshot fresh. |
| `EquivalenceCaches.EquivalenceCache.InvalidatePredicates` | pkg/scheduler/core/equivalence_cache.go:156-170 | The nested loops over nodes and predicate keys leave exactly `RemovePredicates(old, keys)`. An empty set returns early. |
| `EquivalenceCaches.EquivalenceCache.InvalidatePredicatesOnNode` | pkg/scheduler/core/equivalence_cache.go:172-183 | The loop over predicate keys leaves exactly `RemovePredicatesOnNode(old, node, keys)`. |
| `EquivalenceCaches.EquivalenceCache.InvalidateAllPredicatesOnNode` | pkg/scheduler/core/equivalence_cache.go:185-191 | Leaves exactly `RemoveNode(old, node)`. |
| `EquivalenceCaches.EquivalenceCache.InvalidateCachedPredicateItemForPodAdd` | pkg/scheduler/core/equivalence_cache.go:193-230 | Leaves exactly `RemovePredicatesOnNode(old, node, PodAddInvalidations(volumes))`, so only that node is affected. |
| `PodAddPolicy.InvalidPredicatesForPodAdd` | pkg/scheduler/core/equivalence_cache.go:210-228 | The loop over the pod's volumes (none for a nil slice) yields exactly the declarative set `PodAddInvalidations`. |
| `PodAddPolicy.PodAddInvalidationsBounds` | pkg/scheduler/core/equivalence_cache.go:197-211 | `GeneralPredicates` is always invalidated and `MatchInterPodAffinity` never is. Nothing outside the general and the three volume-count predicates is invalidated. |
| `PodAddPolicy.CountPredicateInvalidatedIff` | pkg/scheduler/core/equivalence_cache.go:213-228 | A backend's volume-count predicate is invalidated iff some volume is a claim or names that backend directly. |
| `PodAddPolicy.ClaimInvalidatesAllCounts` | pkg/scheduler/core/equivalence_cache.go:215-216 | A persistent-volume-claim volume invalidates all three volume-count predicates (EBS, GCE PD, Azure disk). |
| `PodAddPolicy.SingleBackendInvalidatesOnlyItsCount` | pkg/scheduler/core/equivalence_cache.go:217-227 | A pod with no claim volume, some volume naming one backend directly and no volume naming another backend (other kinds of volume allowed) invalidates exactly the general predicates and that backend's count predicate. |
| `EquivalenceClass.NilIfEmpty` | pkg/scheduler/core/equivalence_cache.go:289-301 | The result is never an empty non-nil slice and has the same elements, in the same order, as the input. |
| `EquivalenceClass.NilIfEmptyMap` | pkg/scheduler/core/equivalence_cache.go:302-308 | The result is never an empty non-nil map and has the same entries as the input. |
| `EquivalenceClass.GetEquivalencePod` | pkg/scheduler/core/equivalence_cache.go:275-311 | The view is normalised: none of the six collections is empty but non-nil. Namespace, node name and affinity are copied, and each collection keeps its elements and their order. |
| `EquivalenceClass.GetEquivalenceClassInfo` | pkg/scheduler/core/equivalence_cache.go:240-253 | Never nil. The hash is the 32-bit digest of the view widened to 64 bits, so it is below 2^32. |
| `EquivalenceClass.SameViewIffEquivalent` | pkg/scheduler/core/equivalence_cache.go:255-311 | Two pods have equal views iff they agree on namespace, labels, affinity, containers, init containers, node name, node selector, tolerations and volumes, counting an empty collection equal to a nil one. |
| `EquivalenceClass.EquivalentPodsShareClass` | pkg/scheduler/core/equivalence_cache.go:240-253 | Pods that differ only in empty-versus-nil collections (or in fields outside the view) get equal class info for any hash function. |
| `EquivalenceClass.NormalizationIdempotent` | pkg/scheduler/core/equivalence_cache.go:289-308 | Taking the view of a pod built from a view gives that view back. |
| `EquivalenceClass.NormalizedPodCopied` | pkg/scheduler/core/equivalence_cache.go:277-288 | A pod with no empty non-nil collection is copied into its view field for field. |
| `EquivalenceClass.ContainerOrderSignificant` | pkg/scheduler/core/equivalence_cache.go:259-267 | Replacing a pod's containers by a different list, even a permutation of the same containers, changes the view: list order is kept, not sorted. |
| `CacheScenarios.CachedResultIsReused` | pkg/scheduler/core/equivalence_cache.go:70-100 | After an error-free evaluation on a fresh snapshot, a second call with the same key returns the same fit and reasons without evaluating the predicate. |
| `CacheScenarios.UncachedResultIsRecomputed` | pkg/scheduler/core/equivalence_cache.go:92-98 | A predicate error, a missing oracle or a stale snapshot leaves the store unchanged. A second call evaluates again and returns the predicate's output. |
| `CacheScenarios.TargetedInvalidation` | pkg/scheduler/core/equivalence_cache.go:172-183 | Invalidating (n1, {p1}) removes the (n1, p1, hash) entry. It keeps every entry of another predicate p2, and every entry on another node n2, with its value. |

## Left out

- The `sync.RWMutex` is not modelled: each operation is atomic. Two concurrent misses
  on one key may both evaluate and both write. The sequential counterpart of that is
  `LastWriterWins`.
- `glog` logging is not modelled. The pod name passed to `LookupResult` and `UpdateResult` is kept but unused.
- FNV-32a and `hashutil.DeepHashObject` are a function parameter `EquivalencePod -> uint32`.
  That function may map different views to the same value: collisions are allowed, and no
  lemma assumes their absence.
- The predicate functions (`algorithm.FitPredicate`) and `schedulercache.Cache.IsUpToDate` are
  function parameters. The predicate metadata is a type parameter.
- `v1.Pod` is reduced to its name, namespace, labels and the seven spec fields the view copies.
- `v1.Container`, `v1.Toleration` and `v1.Affinity` are copied whole into the view and hashed
  deeply, so they are opaque types here. Their equality stands for deep equality of the Go value.
- `v1.Volume` keeps the four sources the pod-add policy tests (claim, EBS, GCE PD, Azure disk)
  as booleans. Everything else about it, including its name and the contents of those sources,
  is an opaque remainder compared by deep equality.
- Nested slices and maps inside containers, tolerations, affinity and volumes are not
  normalised, and neither are they in `getEquivalencePod`.
- A nil `equivClassInfo` passed to `RunPredicate` makes the Go code panic. The model
  takes the class info by value, so that case does not arise.
- A nil and an empty `FailReasons` slice are both the empty sequence.
- Errors are reduced to their message: `Option<string>`, where `None` means no error.
- `GetEquivalenceClassInfo` is a method of the cache in the Go code but does not use
  the cache. Here it is a function of the pod and the hash.
- The predicate-name constants come from `pkg/scheduler/algorithm/predicates`, which
  is not part of this model. Their string values are restated in `PodAddPolicy`.
