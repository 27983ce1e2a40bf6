/**
 * The equivalence cache: saves and reuses the output of fit predicates,
 * keyed by node name, predicate name and pod equivalence hash, until an
 * invalidation removes it. Each operation is atomic here.
 */
module EquivalenceCaches {
  import opened Wrappers
  import opened ResultStore
  import opened Pods
  import opened EquivalenceClass
  import opened PodAddPolicy

  /** The node object of a snapshot, reduced to its name. */
  datatype Node = Node(name: string)

  /**
   * A node snapshot. `node` is nil for a snapshot without a node object;
   * `generation` is what a freshness oracle compares with the current state.
   */
  datatype NodeInfo = NodeInfo(node: Option<Node>, generation: int)

  /** What a fit predicate returns: fit, failure reasons and an optional error. */
  datatype PredicateOutput = PredicateOutput(fit: bool, reasons: seq<FailureReason>, err: Option<string>)

  /** The error returned for a missing snapshot or node. */
  const InvalidNodeInfoError := "nodeInfo is nil or node is invalid"

  /** The snapshot is present and has a node. */
  predicate ValidNodeInfo(nodeInfo: Option<NodeInfo>)
  {
    nodeInfo.Some? && nodeInfo.value.node.Some?
  }

  /** The store key a lookup uses for a valid snapshot. */
  function CacheKey(nodeInfo: Option<NodeInfo>, predicateKey: string, info: EquivalenceClassInfo): Key
    requires ValidNodeInfo(nodeInfo)
  {
    Key(nodeInfo.value.node.value.name, predicateKey, info.hash)
  }

  class EquivalenceCache {
    var cache: NodeMap

    /** A new cache holds no results. */
    constructor ()
      ensures Entries(cache) == map[] && cache == map[]
    {
      cache := map[];
    }

    /**
     * The cached result for (node, predicate, hash) and whether there is one;
     * on a miss, the zero result. The pod name is only used for logging.
     */
    function LookupResult(podName: string, nodeName: string, predicateKey: string, equivalenceHash: uint64)
      : (r: (PredicateResult, bool))
      reads this
      ensures r.1 <==> Key(nodeName, predicateKey, equivalenceHash) in Entries(cache)
      ensures r.1 ==> r.0 == Entries(cache)[Key(nodeName, predicateKey, equivalenceHash)]
      ensures !r.1 ==> r.0 == PredicateResult(false, [])
    {
      EntriesAt(cache, Key(nodeName, predicateKey, equivalenceHash));
      if nodeName in cache && predicateKey in cache[nodeName] && equivalenceHash in cache[nodeName][predicateKey]
      then (cache[nodeName][predicateKey][equivalenceHash], true)
      else (PredicateResult(false, []), false)
    }

    /**
     * Caches a predicate result for the snapshot's node, unless the snapshot
     * has no node or the freshness oracle reports it stale.
     */
    method UpdateResult(
      podName: string,
      predicateKey: string,
      fit: bool,
      reasons: seq<FailureReason>,
      equivalenceHash: uint64,
      isUpToDate: NodeInfo -> bool,
      nodeInfo: Option<NodeInfo>)
      modifies this
      ensures cache ==
        if ValidNodeInfo(nodeInfo) && isUpToDate(nodeInfo.value)
        then Store(old(cache), nodeInfo.value.node.value.name, predicateKey, equivalenceHash, PredicateResult(fit, reasons))
        else old(cache)
    {
      if !ValidNodeInfo(nodeInfo) {
        return;
      }
      if !isUpToDate(nodeInfo.value) {
        return;
      }
      var nodeName := nodeInfo.value.node.value.name;
      ghost var item := PredicateResult(fit, reasons);
      ghost var predicates := if nodeName in cache then cache[nodeName] else map[];
      if nodeName !in cache {
        cache := cache[nodeName := map[]];
      }
      assert cache == old(cache)[nodeName := predicates];
      var predicateItem := PredicateResult(fit, reasons);
      if predicateKey in cache[nodeName] {
        cache := cache[nodeName := cache[nodeName][predicateKey := cache[nodeName][predicateKey][equivalenceHash := predicateItem]]];
        assert cache == old(cache)[nodeName := predicates[predicateKey := predicates[predicateKey][equivalenceHash := item]]];
      } else {
        cache := cache[nodeName := cache[nodeName][predicateKey := map[equivalenceHash := predicateItem]]];
        assert cache == old(cache)[nodeName := predicates[predicateKey := map[equivalenceHash := item]]];
      }
    }

    /**
     * Returns the cached result for the snapshot's node, the predicate and the
     * pod's class; on a miss, runs the predicate and caches its result when it
     * did not fail, a freshness oracle is given and it reports the snapshot up
     * to date. `evaluated` records whether the predicate was run.
     */
    method RunPredicate<Meta>(
      pred: (Pod, Meta, NodeInfo) -> PredicateOutput,
      predicateKey: string,
      pod: Pod,
      meta: Meta,
      nodeInfo: Option<NodeInfo>,
      equivClassInfo: EquivalenceClassInfo,
      isUpToDate: Option<NodeInfo -> bool>)
      returns (fit: bool, reasons: seq<FailureReason>, err: Option<string>, ghost evaluated: bool)
      modifies this
      ensures !ValidNodeInfo(nodeInfo) ==>
        && fit == false && reasons == [] && err == Some(InvalidNodeInfoError)
        && !evaluated && cache == old(cache)
      ensures ValidNodeInfo(nodeInfo) && CacheKey(nodeInfo, predicateKey, equivClassInfo) in old(Entries(cache)) ==>
        var hit := old(Entries(cache))[CacheKey(nodeInfo, predicateKey, equivClassInfo)];
        && fit == hit.fit && reasons == hit.failReasons && err == None
        && !evaluated && cache == old(cache)
      ensures ValidNodeInfo(nodeInfo) && CacheKey(nodeInfo, predicateKey, equivClassInfo) !in old(Entries(cache)) ==>
        var out := pred(pod, meta, nodeInfo.value);
        && evaluated && fit == out.fit && reasons == out.reasons && err == out.err
        && cache ==
          if out.err.None? && isUpToDate.Some? && isUpToDate.value(nodeInfo.value)
          then Store(old(cache), nodeInfo.value.node.value.name, predicateKey, equivClassInfo.hash,
                     PredicateResult(out.fit, out.reasons))
          else old(cache)
    {
      if !ValidNodeInfo(nodeInfo) {
        return false, [], Some(InvalidNodeInfoError), false;
      }
      var result := LookupResult(pod.name, nodeInfo.value.node.value.name, predicateKey, equivClassInfo.hash);
      if result.1 {
        return result.0.fit, result.0.failReasons, None, false;
      }
      var out := pred(pod, meta, nodeInfo.value);
      evaluated := true;
      if out.err.Some? {
        return out.fit, out.reasons, out.err, evaluated;
      }
      if isUpToDate.Some? {
        UpdateResult(pod.name, predicateKey, out.fit, out.reasons, equivClassInfo.hash, isUpToDate.value, nodeInfo);
      }
      return out.fit, out.reasons, None, evaluated;
    }

    /** Clears the cached results of the given predicates on every node. */
    method InvalidatePredicates(predicateKeys: set<string>)
      modifies this
      ensures cache == RemovePredicates(old(cache), predicateKeys)
    {
      if |predicateKeys| == 0 {
        RemoveNoPredicatesAll(cache);
        return;
      }
      var pending := cache.Keys;
      while pending != {}
        invariant cache.Keys == old(cache).Keys && pending <= cache.Keys
        invariant forall n :: n in cache ==>
          cache[n] == if n in pending then old(cache)[n] else old(cache)[n] - predicateKeys
        decreases pending
      {
        var nodeName :| nodeName in pending;
        var keys := predicateKeys;
        while keys != {}
          invariant cache.Keys == old(cache).Keys
          invariant forall n :: n in cache && n != nodeName ==>
            cache[n] == if n in pending then old(cache)[n] else old(cache)[n] - predicateKeys
          invariant cache[nodeName] == old(cache)[nodeName] - (predicateKeys - keys)
          decreases keys
        {
          var predicateKey :| predicateKey in keys;
          cache := cache[nodeName := cache[nodeName] - {predicateKey}];
          keys := keys - {predicateKey};
        }
        pending := pending - {nodeName};
      }
    }

    /** Clears the cached results of the given predicates on one node. */
    method InvalidatePredicatesOnNode(nodeName: string, predicateKeys: set<string>)
      modifies this
      ensures cache == RemovePredicatesOnNode(old(cache), nodeName, predicateKeys)
    {
      if |predicateKeys| == 0 {
        RemoveNoPredicatesOnNode(cache, nodeName);
        return;
      }
      var keys := predicateKeys;
      RemoveNoPredicatesOnNode(cache, nodeName);
      assert predicateKeys - keys == {};
      while keys != {}
        invariant cache == RemovePredicatesOnNode(old(cache), nodeName, predicateKeys - keys)
        decreases keys
      {
        var predicateKey :| predicateKey in keys;
        RemovePredicatesOnNodeStep(old(cache), nodeName, predicateKeys - keys, predicateKey);
        assert predicateKeys - (keys - {predicateKey}) == (predicateKeys - keys) + {predicateKey};
        if nodeName in cache {
          cache := cache[nodeName := cache[nodeName] - {predicateKey}];
        }
        keys := keys - {predicateKey};
      }
      assert predicateKeys - keys == predicateKeys;
    }

    /** Clears every cached result of one node. */
    method InvalidateAllPredicatesOnNode(nodeName: string)
      modifies this
      ensures cache == RemoveNode(old(cache), nodeName)
    {
      cache := cache - {nodeName};
    }

    /**
     * Invalidates, on the given node only, the predicates that adding the pod
     * there makes unsafe to reuse.
     */
    method InvalidateCachedPredicateItemForPodAdd(pod: Pod, nodeName: string)
      modifies this
      ensures cache == RemovePredicatesOnNode(old(cache), nodeName, PodAddInvalidations(Elements(pod.spec.volumes)))
    {
      var invalidPredicates := InvalidPredicatesForPodAdd(pod);
      InvalidatePredicatesOnNode(nodeName, invalidPredicates);
    }
  }
}
