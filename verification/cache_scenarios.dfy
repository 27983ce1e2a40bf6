/**
 * Callers of the equivalence cache, showing what its contracts let a
 * scheduling loop conclude across several calls.
 */
module CacheScenarios {
  import opened Wrappers
  import opened ResultStore
  import opened Pods
  import opened EquivalenceClass
  import opened EquivalenceCaches

  /**
   * After a predicate ran without error on a fresh snapshot, asking again for
   * the same node, predicate and class returns the same answer without
   * running the predicate.
   */
  method CachedResultIsReused<Meta>(
    ec: EquivalenceCache,
    pred: (Pod, Meta, NodeInfo) -> PredicateOutput,
    predicateKey: string,
    pod: Pod,
    meta: Meta,
    nodeInfo: NodeInfo,
    equivClassInfo: EquivalenceClassInfo,
    isUpToDate: NodeInfo -> bool)
    returns (first: PredicateResult, second: PredicateResult, ghost evaluatedAgain: bool)
    requires nodeInfo.node.Some? && isUpToDate(nodeInfo)
    requires pred(pod, meta, nodeInfo).err.None?
    modifies ec
    ensures second == first && !evaluatedAgain
  {
    var fit, reasons, err, evaluated := ec.RunPredicate(pred, predicateKey, pod, meta, Some(nodeInfo), equivClassInfo, Some(isUpToDate));
    first := PredicateResult(fit, reasons);
    fit, reasons, err, evaluatedAgain := ec.RunPredicate(pred, predicateKey, pod, meta, Some(nodeInfo), equivClassInfo, Some(isUpToDate));
    second := PredicateResult(fit, reasons);
  }

  /**
   * A result computed on a stale snapshot, or without a freshness oracle, or
   * by a predicate that failed, is returned but not cached: the next call for
   * the same key runs the predicate again.
   */
  method UncachedResultIsRecomputed<Meta>(
    ec: EquivalenceCache,
    pred: (Pod, Meta, NodeInfo) -> PredicateOutput,
    predicateKey: string,
    pod: Pod,
    meta: Meta,
    nodeInfo: NodeInfo,
    equivClassInfo: EquivalenceClassInfo,
    isUpToDate: Option<NodeInfo -> bool>)
    returns (fit: bool, reasons: seq<FailureReason>, err: Option<string>, ghost evaluatedAgain: bool)
    requires nodeInfo.node.Some?
    requires Key(nodeInfo.node.value.name, predicateKey, equivClassInfo.hash) !in Entries(ec.cache)
    requires pred(pod, meta, nodeInfo).err.Some? || isUpToDate.None? || !isUpToDate.value(nodeInfo)
    modifies ec
    ensures fit == pred(pod, meta, nodeInfo).fit && reasons == pred(pod, meta, nodeInfo).reasons
    ensures err == pred(pod, meta, nodeInfo).err
    ensures evaluatedAgain && ec.cache == old(ec.cache)
  {
    ghost var evaluated: bool;
    fit, reasons, err, evaluated := ec.RunPredicate(pred, predicateKey, pod, meta, Some(nodeInfo), equivClassInfo, isUpToDate);
    fit, reasons, err, evaluatedAgain := ec.RunPredicate(pred, predicateKey, pod, meta, Some(nodeInfo), equivClassInfo, isUpToDate);
  }

  /**
   * Targeted invalidation: with results cached for two predicates on two
   * nodes, invalidating the first predicate on the first node removes only
   * that node's results for it.
   */
  method TargetedInvalidation(
    ec: EquivalenceCache,
    n1: string, n2: string, p1: string, p2: string, hash: uint64)
    requires n1 != n2 && p1 != p2
    modifies ec
    ensures Key(n1, p1, hash) !in Entries(ec.cache)
    ensures forall k :: k in old(Entries(ec.cache)) && k.predicateKey == p2 ==>
      k in Entries(ec.cache) && Entries(ec.cache)[k] == old(Entries(ec.cache))[k]
    ensures forall k :: k in old(Entries(ec.cache)) && k.node == n2 ==>
      k in Entries(ec.cache) && Entries(ec.cache)[k] == old(Entries(ec.cache))[k]
  {
    ec.InvalidatePredicatesOnNode(n1, {p1});
  }
}
