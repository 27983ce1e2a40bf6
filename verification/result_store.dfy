/**
 * The result store of the equivalence cache: a three-level table
 * node name -> predicate name -> equivalence hash -> predicate result,
 * and the pure operations that the cache's methods perform on it.
 *
 * Every operation is characterised through the flattened view `Entries`,
 * which keys each cached result by the triple (node, predicate, hash).
 */
module ResultStore {

  /** Go's uint64: the type of an equivalence hash. */
  newtype uint64 = x: int | 0 <= x < 0x1_0000_0000_0000_0000

  /** An opaque failure-reason token produced by a fit predicate. */
  datatype FailureReason = FailureReason(reason: string)

  /** The output of a fit predicate as the cache keeps it. */
  datatype PredicateResult = PredicateResult(fit: bool, failReasons: seq<FailureReason>)

  /** Results of one predicate on one node, by pod equivalence hash. */
  type ResultMap = map<uint64, PredicateResult>

  /** Result maps of one node, by predicate name. */
  type PredicateMap = map<string, ResultMap>

  /** The whole store, by node name. */
  type NodeMap = map<string, PredicateMap>

  /** The key of one cached result. */
  datatype Key = Key(node: string, predicateKey: string, hash: uint64)

  /** All three levels of the store hold the key. */
  ghost predicate Holds(c: NodeMap, k: Key)
  {
    k.node in c && k.predicateKey in c[k.node] && k.hash in c[k.node][k.predicateKey]
  }

  /** The keys the store holds. */
  ghost function KeysOf(c: NodeMap): (keys: set<Key>)
    ensures forall k :: k in keys <==> Holds(c, k)
  {
    var keys := set n, p, h | n in c && p in c[n] && h in c[n][p] :: Key(n, p, h);
    assert forall k :: Holds(c, k) ==> k == Key(k.node, k.predicateKey, k.hash) && k in keys;
    keys
  }

  /** The flattened view of the store: one entry per cached (node, predicate, hash). */
  ghost function Entries(c: NodeMap): map<Key, PredicateResult>
  {
    map k | k in KeysOf(c) :: c[k.node][k.predicateKey][k.hash]
  }

  /** A key is in the flattened view exactly when all three levels hold it. */
  lemma EntriesAt(c: NodeMap, k: Key)
    ensures k in Entries(c) <==> k.node in c && k.predicateKey in c[k.node] && k.hash in c[k.node][k.predicateKey]
    ensures k in Entries(c) ==> Entries(c)[k] == c[k.node][k.predicateKey][k.hash]
  {
  }

  /**
   * Writes `v` under (node, predicate, hash), creating the node's and the
   * predicate's sub-maps when they are missing. A later write for the same
   * key replaces the earlier one; every other key keeps its result.
   */
  function Store(c: NodeMap, node: string, predicateKey: string, hash: uint64, v: PredicateResult): (r: NodeMap)
    ensures r.Keys == c.Keys + {node}
    ensures Entries(r) == Entries(c)[Key(node, predicateKey, hash) := v]
  {
    var predicates := if node in c then c[node] else map[];
    var results := if predicateKey in predicates then predicates[predicateKey] else map[];
    var r := if predicateKey in predicates
      then c[node := predicates[predicateKey := predicates[predicateKey][hash := v]]]
      else c[node := predicates[predicateKey := map[hash := v]]];
    StoreEntries(c, node, predicateKey, hash, v, predicates, results, r);
    r
  }

  /** One key of the flattened view after a write: the written key holds the new value, others are as before. */
  lemma StoreEntryAt(
    c: NodeMap, node: string, predicateKey: string, hash: uint64, v: PredicateResult,
    predicates: PredicateMap, results: ResultMap, r: NodeMap, k: Key)
    requires predicates == if node in c then c[node] else map[]
    requires results == if predicateKey in predicates then predicates[predicateKey] else map[]
    requires r == c[node := predicates[predicateKey := results[hash := v]]]
    ensures k in Entries(r) <==> k in Entries(c) || k == Key(node, predicateKey, hash)
    ensures k in Entries(r) ==> Entries(r)[k] == if k == Key(node, predicateKey, hash) then v else Entries(c)[k]
  {
  }

  /** The flattened view after a write: the written key maps to the new value, all others as before. */
  lemma StoreEntries(
    c: NodeMap, node: string, predicateKey: string, hash: uint64, v: PredicateResult,
    predicates: PredicateMap, results: ResultMap, r: NodeMap)
    requires predicates == if node in c then c[node] else map[]
    requires results == if predicateKey in predicates then predicates[predicateKey] else map[]
    requires r == c[node := predicates[predicateKey := results[hash := v]]]
    ensures Entries(r) == Entries(c)[Key(node, predicateKey, hash) := v]
  {
    var want := Entries(c)[Key(node, predicateKey, hash) := v];
    forall k ensures k in Entries(r) <==> k in want {
      StoreEntryAt(c, node, predicateKey, hash, v, predicates, results, r, k);
    }
    forall k | k in Entries(r) ensures Entries(r)[k] == want[k] {
      StoreEntryAt(c, node, predicateKey, hash, v, predicates, results, r, k);
    }
  }

  /**
   * Removes, on every node, the result maps of the given predicates. The set
   * of node keys is unchanged (a node may be left with an empty predicate map).
   */
  function RemovePredicates(c: NodeMap, predicates: set<string>): (r: NodeMap)
    ensures r.Keys == c.Keys
    ensures forall n :: n in r ==> r[n].Keys !! predicates
    ensures Entries(r) == map k | k in Entries(c) && k.predicateKey !in predicates :: Entries(c)[k]
  {
    var r := map n | n in c :: c[n] - predicates;
    forall k ensures k in Entries(r) <==> k in Entries(c) && k.predicateKey !in predicates {
      EntriesAt(r, k);
      EntriesAt(c, k);
    }
    forall k | k in Entries(r) ensures Entries(r)[k] == Entries(c)[k] {
      EntriesAt(r, k);
      EntriesAt(c, k);
    }
    r
  }

  /**
   * Removes the result maps of the given predicates on one node. Nothing is
   * created when the node is absent; other nodes are untouched.
   */
  function RemovePredicatesOnNode(c: NodeMap, node: string, predicates: set<string>): (r: NodeMap)
    ensures r.Keys == c.Keys
    ensures node !in c ==> r == c
    ensures node in r ==> r[node].Keys == c[node].Keys - predicates
    ensures forall n :: n in r && n != node ==> r[n] == c[n]
    ensures Entries(r) == map k | k in Entries(c) && !(k.node == node && k.predicateKey in predicates) :: Entries(c)[k]
  {
    var r := if node in c then c[node := c[node] - predicates] else c;
    forall k ensures k in Entries(r) <==> k in Entries(c) && !(k.node == node && k.predicateKey in predicates) {
      EntriesAt(r, k);
      EntriesAt(c, k);
    }
    forall k | k in Entries(r) ensures Entries(r)[k] == Entries(c)[k] {
      EntriesAt(r, k);
      EntriesAt(c, k);
    }
    r
  }

  /** Removes a node's whole sub-map: every predicate and every hash on it. */
  function RemoveNode(c: NodeMap, node: string): (r: NodeMap)
    ensures r.Keys == c.Keys - {node}
    ensures forall n :: n in r ==> r[n] == c[n]
    ensures Entries(r) == map k | k in Entries(c) && k.node != node :: Entries(c)[k]
  {
    var r := c - {node};
    forall k ensures k in Entries(r) <==> k in Entries(c) && k.node != node {
      EntriesAt(r, k);
      EntriesAt(c, k);
    }
    forall k | k in Entries(r) ensures Entries(r)[k] == Entries(c)[k] {
      EntriesAt(r, k);
      EntriesAt(c, k);
    }
    r
  }

  /** Removing no predicates from every node leaves the store as it was. */
  lemma RemoveNoPredicatesAll(c: NodeMap)
    ensures RemovePredicates(c, {}) == c
  {
    forall n | n in c ensures c[n] - {} == c[n] {
      assert (c[n] - {}).Keys == c[n].Keys;
    }
  }

  /** Removing no predicates from one node leaves the store as it was. */
  lemma RemoveNoPredicatesOnNode(c: NodeMap, node: string)
    ensures RemovePredicatesOnNode(c, node, {}) == c
  {
    if node in c {
      assert c[node] - {} == c[node];
      assert c[node := c[node]] == c;
    }
  }

  /** Removing predicates one at a time on a node removes their union. */
  lemma RemovePredicatesOnNodeStep(c: NodeMap, node: string, done: set<string>, p: string)
    ensures var before := RemovePredicatesOnNode(c, node, done);
      RemovePredicatesOnNode(c, node, done + {p})
        == if node in before then before[node := before[node] - {p}] else before
  {
    if node in c {
      assert c[node] - (done + {p}) == (c[node] - done) - {p};
    }
  }

  /**
   * Last writer wins: a second write to a key fully replaces the first, with
   * no trace of the earlier value left anywhere in the store.
   */
  lemma LastWriterWins(c: NodeMap, node: string, predicateKey: string, hash: uint64, first: PredicateResult, second: PredicateResult)
    ensures var twice := Store(Store(c, node, predicateKey, hash, first), node, predicateKey, hash, second);
      && twice.Keys == Store(c, node, predicateKey, hash, second).Keys
      && Entries(twice) == Entries(Store(c, node, predicateKey, hash, second))
  {
    OverwriteTwice(Entries(c), Key(node, predicateKey, hash), first, second);
  }

  /** Updating a map at one key twice is the same as updating it once with the second value. */
  lemma OverwriteTwice<K, V>(m: map<K, V>, k: K, first: V, second: V)
    ensures m[k := first][k := second] == m[k := second]
  {
  }
}
