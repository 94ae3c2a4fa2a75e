/** Labels and annotations of a Kubernetes object, with the key families the controllers
    read and write as constructors: `SoftFinalizer("c1")` is the key
    "finalizers.workload.kcp.dev/c1", `DeleteAt("c1")` is "kuadrant.dev/glbc-delete-at-c1". */
module Metadata {

  type Cluster = string

  datatype AnnotationKey =
    | SoftFinalizer(cluster: Cluster)
    | DeleteAt(cluster: Cluster)
    | Deletion(cluster: Cluster)
    | SpecDiff(cluster: Cluster)
    | GeneratedHost
    | Health(name: string)
    | Named(name: string)

  datatype LabelKey = SyncTarget(cluster: Cluster) | PlainLabel(name: string)

  /** An annotation's value; `GlbcMigration` is the marker "kuadrant.dev/glbc-migration". */
  datatype AnnotationValue = GlbcMigration | Text(text: string)

  function TextOf(v: AnnotationValue): string {
    match v
    case GlbcMigration => "kuadrant.dev/glbc-migration"
    case Text(s) => s
  }

  type Annotations = map<AnnotationKey, AnnotationValue>
  type Labels = map<LabelKey, string>

  /** The metadata part of an object that a reconcile mutates. */
  class ObjectMeta {
    const key: string
    var labels: Labels
    var annotations: Annotations

    constructor (key: string, labels: Labels, annotations: Annotations)
      ensures this.key == key && this.labels == labels && this.annotations == annotations
    {
      this.key := key;
      this.labels := labels;
      this.annotations := annotations;
    }

    predicate HasAnnotation(k: AnnotationKey)
      reads this`annotations
    {
      k in annotations
    }

    /** The annotation's text, empty when there is none. */
    function GetAnnotation(k: AnnotationKey): string
      reads this`annotations
    {
      if k in annotations then TextOf(annotations[k]) else ""
    }

    method AddAnnotation(k: AnnotationKey, value: AnnotationValue)
      modifies this`annotations
      ensures annotations == old(annotations)[k := value]
    {
      if k in annotations && annotations[k] == value {
        return;
      }
      annotations := annotations[k := value];
    }

    method RemoveAnnotation(k: AnnotationKey)
      modifies this`annotations
      ensures annotations == old(annotations) - {k}
    {
      if k in annotations {
        annotations := annotations - {k};
      }
    }
  }

  /** The clusters named by the sync-target labels. */
  function SyncTargets(labels: Labels): (clusters: set<Cluster>)
    ensures forall c :: c in clusters <==> SyncTarget(c) in labels
  {
    set k | k in labels && k.SyncTarget? :: k.cluster
  }

  /** The clusters holding a soft finalizer. */
  function SoftFinalized(annotations: Annotations): (clusters: set<Cluster>)
    ensures forall c :: c in clusters <==> SoftFinalizer(c) in annotations
  {
    set k | k in annotations && k.SoftFinalizer? :: k.cluster
  }

  /** The annotations whose key starts with "kuadrant.experimental/health-". */
  function HealthOf(annotations: Annotations): map<string, string> {
    map k | k in annotations && k.Health? :: k.name := TextOf(annotations[k])
  }
}
