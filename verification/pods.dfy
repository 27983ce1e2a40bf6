/**
 * The parts of a pod that the equivalence cache copies or reads. Go's nil slices and
 * maps are `None`; an allocated but empty one is `Some([])` / `Some(map[])`,
 * because reflection-based hashing tells the two apart.
 */
module Pods {
  import opened Wrappers

  /**
   * A container of the pod. Its fields are copied into the view whole and
   * hashed deeply, so it is opaque here: equality stands for deep equality
   * of the whole Go value.
   */
  type Container(==)

  /** A toleration of the pod, opaque for the same reason as a container. */
  type Toleration(==)

  /** The pod's affinity and anti-affinity rules, opaque for the same reason. */
  type Affinity(==)

  /**
   * Every field of a volume other than the four sources the pod-add policy
   * inspects: its name and all remaining source pointers with their contents
   * (a volume ID, a disk name, ...). Opaque; equality is deep equality.
   */
  type VolumeRest(==)

  /**
   * A volume: whether each of the four sources the cache inspects is set
   * (a non-nil pointer in the volume source), and everything else about it.
   */
  datatype Volume = Volume(
    persistentVolumeClaim: bool,
    awsElasticBlockStore: bool,
    gcePersistentDisk: bool,
    azureDisk: bool,
    rest: VolumeRest)

  datatype PodSpec = PodSpec(
    affinity: Option<Affinity>,
    containers: Option<seq<Container>>,
    initContainers: Option<seq<Container>>,
    nodeName: string,
    nodeSelector: Option<map<string, string>>,
    tolerations: Option<seq<Toleration>>,
    volumes: Option<seq<Volume>>)

  datatype Pod = Pod(
    name: string,
    namespace: string,
    labels: Option<map<string, string>>,
    spec: PodSpec)

  /** The elements of a slice; ranging over a nil slice visits nothing. */
  function Elements<T>(s: Option<seq<T>>): seq<T>
  {
    match s
    case None => []
    case Some(xs) => xs
  }

  /** The entries of a map; a nil map reads as empty. */
  function MapEntries<K, V>(m: Option<map<K, V>>): map<K, V>
  {
    match m
    case None => map[]
    case Some(kv) => kv
  }
}
