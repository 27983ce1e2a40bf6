/**
 * Which predicate results become unsafe to reuse on a node when a pod is
 * added to it.
 */
module PodAddPolicy {
  import opened Pods

  /** Predicate names, as registered by the scheduler's predicate package. */
  const GeneralPred := "GeneralPredicates"
  const MaxEBSVolumeCountPred := "MaxEBSVolumeCount"
  const MaxGCEPDVolumeCountPred := "MaxGCEPDVolumeCount"
  const MaxAzureDiskVolumeCountPred := "MaxAzureDiskVolumeCount"
  const MatchInterPodAffinityPred := "MatchInterPodAffinity"

  /** The storage backends that have a volume-count predicate. */
  datatype Backend = AWSElasticBlockStore | GCEPersistentDisk | AzureDisk

  /** The volume-count predicate of a backend. */
  function CountPredicate(b: Backend): string
  {
    match b
    case AWSElasticBlockStore => MaxEBSVolumeCountPred
    case GCEPersistentDisk => MaxGCEPDVolumeCountPred
    case AzureDisk => MaxAzureDiskVolumeCountPred
  }

  /** The volume names the backend directly. */
  predicate DirectlyUses(v: Volume, b: Backend)
  {
    match b
    case AWSElasticBlockStore => v.awsElasticBlockStore
    case GCEPersistentDisk => v.gcePersistentDisk
    case AzureDisk => v.azureDisk
  }

  /**
   * The volume may use the backend: a claim may be bound to any backend,
   * since it is not resolved here; any other volume uses what it names.
   */
  predicate MayUse(v: Volume, b: Backend)
  {
    v.persistentVolumeClaim || DirectlyUses(v, b)
  }

  /** Some volume of the list may use the backend. */
  ghost predicate Implicates(volumes: seq<Volume>, b: Backend)
  {
    exists i :: 0 <= i < |volumes| && MayUse(volumes[i], b)
  }

  /**
   * The predicates to invalidate on a node when a pod with these volumes is
   * added there: the general predicates always, the volume-count predicate
   * of every backend some volume may use, and nothing else (inter-pod
   * affinity in particular is left to pod removal).
   */
  ghost function PodAddInvalidations(volumes: seq<Volume>): set<string>
  {
    {GeneralPred}
    + (if Implicates(volumes, AWSElasticBlockStore) then {MaxEBSVolumeCountPred} else {})
    + (if Implicates(volumes, GCEPersistentDisk) then {MaxGCEPDVolumeCountPred} else {})
    + (if Implicates(volumes, AzureDisk) then {MaxAzureDiskVolumeCountPred} else {})
  }

  /** Extending the volume list by one volume adds exactly the backends that volume may use. */
  lemma ImplicatesSnoc(volumes: seq<Volume>, i: nat, b: Backend)
    requires i < |volumes|
    ensures Implicates(volumes[..i + 1], b) <==> Implicates(volumes[..i], b) || MayUse(volumes[i], b)
  {
  }

  /**
   * Collects the predicate names to invalidate for an added pod by walking
   * its volumes: a claim adds all three volume-count predicates, any other
   * volume adds the count predicate of each backend it names.
   */
  method InvalidPredicatesForPodAdd(pod: Pod) returns (invalidPredicates: set<string>)
    ensures invalidPredicates == PodAddInvalidations(Elements(pod.spec.volumes))
  {
    var volumes := Elements(pod.spec.volumes);
    invalidPredicates := {GeneralPred};
    for i := 0 to |volumes|
      invariant invalidPredicates == PodAddInvalidations(volumes[..i])
    {
      var vol := volumes[i];
      if vol.persistentVolumeClaim {
        invalidPredicates := invalidPredicates
          + {MaxEBSVolumeCountPred, MaxGCEPDVolumeCountPred, MaxAzureDiskVolumeCountPred};
      } else {
        if vol.awsElasticBlockStore {
          invalidPredicates := invalidPredicates + {MaxEBSVolumeCountPred};
        }
        if vol.gcePersistentDisk {
          invalidPredicates := invalidPredicates + {MaxGCEPDVolumeCountPred};
        }
        if vol.azureDisk {
          invalidPredicates := invalidPredicates + {MaxAzureDiskVolumeCountPred};
        }
      }
      ImplicatesSnoc(volumes, i, AWSElasticBlockStore);
      ImplicatesSnoc(volumes, i, GCEPersistentDisk);
      ImplicatesSnoc(volumes, i, AzureDisk);
    }
    assert volumes[..|volumes|] == volumes;
  }

  /**
   * The general predicates are always invalidated, inter-pod affinity never,
   * and nothing outside the general and volume-count predicates is.
   */
  lemma PodAddInvalidationsBounds(volumes: seq<Volume>)
    ensures GeneralPred in PodAddInvalidations(volumes)
    ensures MatchInterPodAffinityPred !in PodAddInvalidations(volumes)
    ensures PodAddInvalidations(volumes)
      <= {GeneralPred, MaxEBSVolumeCountPred, MaxGCEPDVolumeCountPred, MaxAzureDiskVolumeCountPred}
  {
  }

  /** A backend's volume-count predicate is invalidated exactly when some volume may use that backend. */
  lemma CountPredicateInvalidatedIff(volumes: seq<Volume>, b: Backend)
    ensures CountPredicate(b) in PodAddInvalidations(volumes)
      <==> exists i :: 0 <= i < |volumes| && (volumes[i].persistentVolumeClaim || DirectlyUses(volumes[i], b))
  {
  }

  /** A claim volume invalidates all three volume-count predicates. */
  lemma ClaimInvalidatesAllCounts(volumes: seq<Volume>, i: nat)
    requires i < |volumes| && volumes[i].persistentVolumeClaim
    ensures {MaxEBSVolumeCountPred, MaxGCEPDVolumeCountPred, MaxAzureDiskVolumeCountPred}
      <= PodAddInvalidations(volumes)
  {
  }

  /**
   * A pod with no claim volume, some volume naming backend `b` directly and
   * no volume naming another backend (volumes of any other kind are allowed)
   * invalidates the general predicates and `b`'s count predicate, and no
   * other volume-count predicate.
   */
  lemma {:induction false} SingleBackendInvalidatesOnlyItsCount(volumes: seq<Volume>, b: Backend)
    requires exists i :: 0 <= i < |volumes| && DirectlyUses(volumes[i], b)
    requires forall i :: 0 <= i < |volumes| ==>
      !volumes[i].persistentVolumeClaim && forall c: Backend :: c != b ==> !DirectlyUses(volumes[i], c)
    ensures PodAddInvalidations(volumes) == {GeneralPred, CountPredicate(b)}
  {
    var j :| 0 <= j < |volumes| && DirectlyUses(volumes[j], b);
    assert MayUse(volumes[j], b);
    forall c: Backend | c != b ensures !Implicates(volumes, c) {
      forall i | 0 <= i < |volumes| ensures !MayUse(volumes[i], c) {
      }
    }
  }
}
