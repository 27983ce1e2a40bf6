/**
 * The equivalence class of a pod: a hash over a normalised view of the pod
 * fields that fit predicates may read.
 */
module EquivalenceClass {
  import opened Wrappers
  import opened Pods
  import opened ResultStore

  /** Go's uint32: the width of the FNV-32a sum behind the hash. */
  newtype uint32 = x: int | 0 <= x < 0x1_0000_0000

  /** The hash computed once per scheduling attempt and passed to every lookup. */
  datatype EquivalenceClassInfo = EquivalenceClassInfo(hash: uint64)

  /**
   * The pod attributes that must match for two pods to be equivalent for
   * scheduling. `getEquivalencePod` in the Go code stores the namespace and
   * node name as pointers to the pod's own fields, which are never nil, so
   * they are plain strings here.
   */
  datatype EquivalencePod = EquivalencePod(
    namespace: string,
    labels: Option<map<string, string>>,
    affinity: Option<Affinity>,
    containers: Option<seq<Container>>,
    initContainers: Option<seq<Container>>,
    nodeName: string,
    nodeSelector: Option<map<string, string>>,
    tolerations: Option<seq<Toleration>>,
    volumes: Option<seq<Volume>>)

  /** A slice that is present is not empty. */
  predicate NormalizedSlice<T>(s: Option<seq<T>>)
  {
    s.Some? ==> |s.value| > 0
  }

  /** A map that is present is not empty. */
  predicate NormalizedMap<K, V>(m: Option<map<K, V>>)
  {
    m.Some? ==> |m.value| > 0
  }

  /** No collection of the view is empty but non-nil. */
  predicate Normalized(ep: EquivalencePod)
  {
    && NormalizedMap(ep.labels)
    && NormalizedSlice(ep.containers)
    && NormalizedSlice(ep.initContainers)
    && NormalizedMap(ep.nodeSelector)
    && NormalizedSlice(ep.tolerations)
    && NormalizedSlice(ep.volumes)
  }

  /** Replaces a zero-length slice by nil. */
  function NilIfEmpty<T>(s: Option<seq<T>>): (r: Option<seq<T>>)
    ensures NormalizedSlice(r)
    ensures Elements(r) == Elements(s)
  {
    if |Elements(s)| == 0 then None else s
  }

  /** Replaces a zero-length map by nil. */
  function NilIfEmptyMap<K, V>(m: Option<map<K, V>>): (r: Option<map<K, V>>)
    ensures NormalizedMap(r)
    ensures MapEntries(r) == MapEntries(m)
  {
    if |MapEntries(m)| == 0 then None else m
  }

  /**
   * The normalised view of a pod: each field copied, with zero-length
   * containers, init containers, tolerations, volumes, labels and node
   * selector replaced by nil. Nested slices and maps are not normalised and
   * list order is kept.
   */
  function GetEquivalencePod(pod: Pod): (ep: EquivalencePod)
    ensures Normalized(ep)
    ensures ep.namespace == pod.namespace && ep.nodeName == pod.spec.nodeName
    ensures ep.affinity == pod.spec.affinity
    ensures MapEntries(ep.labels) == MapEntries(pod.labels)
    ensures MapEntries(ep.nodeSelector) == MapEntries(pod.spec.nodeSelector)
    ensures Elements(ep.containers) == Elements(pod.spec.containers)
    ensures Elements(ep.initContainers) == Elements(pod.spec.initContainers)
    ensures Elements(ep.tolerations) == Elements(pod.spec.tolerations)
    ensures Elements(ep.volumes) == Elements(pod.spec.volumes)
  {
    EquivalencePod(
      namespace := pod.namespace,
      labels := NilIfEmptyMap(pod.labels),
      affinity := pod.spec.affinity,
      containers := NilIfEmpty(pod.spec.containers),
      initContainers := NilIfEmpty(pod.spec.initContainers),
      nodeName := pod.spec.nodeName,
      nodeSelector := NilIfEmptyMap(pod.spec.nodeSelector),
      tolerations := NilIfEmpty(pod.spec.tolerations),
      volumes := NilIfEmpty(pod.spec.volumes))
  }

  /**
   * The hash of a pod's view, as `fnv32a` (the FNV-32a digest of the view's
   * deep hash) computes it, widened to uint64. The Go function returns nil
   * when `getEquivalencePod` returns nil, which it never does, so the result
   * is always present.
   */
  function GetEquivalenceClassInfo(pod: Pod, fnv32a: EquivalencePod -> uint32): (r: Option<EquivalenceClassInfo>)
    ensures r.Some?
    ensures r.value.hash as int == fnv32a(GetEquivalencePod(pod)) as int
    ensures r.value.hash < 0x1_0000_0000
  {
    Some(EquivalenceClassInfo(fnv32a(GetEquivalencePod(pod)) as int as uint64))
  }

  /**
   * Two pods agree on everything a predicate may read, with an empty
   * collection counted equal to a nil one. The pod name is not among them.
   */
  ghost predicate SchedulingEquivalent(p: Pod, q: Pod)
  {
    && p.namespace == q.namespace
    && MapEntries(p.labels) == MapEntries(q.labels)
    && p.spec.affinity == q.spec.affinity
    && Elements(p.spec.containers) == Elements(q.spec.containers)
    && Elements(p.spec.initContainers) == Elements(q.spec.initContainers)
    && p.spec.nodeName == q.spec.nodeName
    && MapEntries(p.spec.nodeSelector) == MapEntries(q.spec.nodeSelector)
    && Elements(p.spec.tolerations) == Elements(q.spec.tolerations)
    && Elements(p.spec.volumes) == Elements(q.spec.volumes)
  }

  /**
   * Two pods have the same view exactly when they are scheduling-equivalent:
   * empty and nil collections are not distinguished, and nothing else is
   * identified.
   */
  lemma SameViewIffEquivalent(p: Pod, q: Pod)
    ensures GetEquivalencePod(p) == GetEquivalencePod(q) <==> SchedulingEquivalent(p, q)
  {
  }

  /** Scheduling-equivalent pods get the same equivalence class, whatever the hash function. */
  lemma EquivalentPodsShareClass(p: Pod, q: Pod, fnv32a: EquivalencePod -> uint32)
    requires SchedulingEquivalent(p, q)
    ensures GetEquivalenceClassInfo(p, fnv32a) == GetEquivalenceClassInfo(q, fnv32a)
  {
  }

  /** A pod carrying exactly the fields of a view, under the given name. */
  function ViewAsPod(ep: EquivalencePod, name: string): Pod
  {
    Pod(name, ep.namespace, ep.labels,
      PodSpec(ep.affinity, ep.containers, ep.initContainers, ep.nodeName,
        ep.nodeSelector, ep.tolerations, ep.volumes))
  }

  /**
   * Normalisation is idempotent: taking the view of a pod built from a view
   * gives that view back.
   */
  lemma NormalizationIdempotent(pod: Pod)
    ensures GetEquivalencePod(ViewAsPod(GetEquivalencePod(pod), pod.name)) == GetEquivalencePod(pod)
  {
  }

  /**
   * Every field other than the six normalised collections is copied as is:
   * a pod with no empty-but-non-nil collection is its own view.
   */
  lemma NormalizedPodCopied(pod: Pod)
    requires NormalizedMap(pod.labels) && NormalizedMap(pod.spec.nodeSelector)
    requires NormalizedSlice(pod.spec.containers) && NormalizedSlice(pod.spec.initContainers)
    requires NormalizedSlice(pod.spec.tolerations) && NormalizedSlice(pod.spec.volumes)
    ensures ViewAsPod(GetEquivalencePod(pod), pod.name) == pod
  {
  }

  /**
   * List order is significant: reordering a pod's containers into a different
   * list, even a permutation of the same containers, changes the view, so the
   * two pods are not guaranteed to share a class.
   */
  lemma ContainerOrderSignificant(pod: Pod, reordered: seq<Container>)
    requires pod.spec.containers.Some?
    requires multiset(reordered) == multiset(pod.spec.containers.value)
    requires reordered != pod.spec.containers.value
    ensures GetEquivalencePod(pod) != GetEquivalencePod(pod.(spec := pod.spec.(containers := Some(reordered))))
  {
    SameViewIffEquivalent(pod, pod.(spec := pod.spec.(containers := Some(reordered))));
  }
}
