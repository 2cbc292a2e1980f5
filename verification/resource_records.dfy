/** The stored form of a resource, whose nested records all carry the resource's id. */
module ResourceRecords {
  import opened ResourceIdentity

  class KeyValue {
    const kind: Text
    const key: Text
    const value: Text
    var id: Text
    var uniqueId: Text

    constructor (kind: Text, key: Text, value: Text)
      ensures this.kind == kind && this.key == key && this.value == value
    {
      this.kind, this.key, this.value := kind, key, value;
      id, uniqueId := [], [];
    }
  }

  /** A spec or a status. */
  class Attribute {
    const attribute: Text
    var id: Text

    constructor (attribute: Text)
      ensures this.attribute == attribute
    {
      this.attribute := attribute;
      id := [];
    }
  }

  function Objects(kvs: seq<KeyValue>): (r: set<object>)
    ensures forall kv :: kv in kvs ==> kv in r
  {
    set kv: KeyValue | kv in kvs :: kv as object
  }

  class ObjectMeta {
    const namespace: Text
    const name: Text
    const labels: seq<KeyValue>
    const annotations: seq<KeyValue>
    var id: Text

    constructor (namespace: Text, name: Text, labels: seq<KeyValue>, annotations: seq<KeyValue>)
      ensures this.namespace == namespace && this.name == name
      ensures this.labels == labels && this.annotations == annotations
    {
      this.namespace, this.name, this.labels, this.annotations := namespace, name, labels, annotations;
      id := [];
    }
  }

  class Resource {
    const clusterId: Text
    const kind: Text
    const apiVersion: Text
    const meta: ObjectMeta?
    const spec: Attribute?
    const status: Attribute?
    var id: Text

    constructor (clusterId: Text, kind: Text, apiVersion: Text, meta: ObjectMeta?, spec: Attribute?, status: Attribute?)
      ensures this.clusterId == clusterId && this.kind == kind && this.apiVersion == apiVersion
      ensures this.meta == meta && this.spec == spec && this.status == status
    {
      this.clusterId, this.kind, this.apiVersion := clusterId, kind, apiVersion;
      this.meta, this.spec, this.status := meta, spec, status;
      id := [];
    }

    function Parts(): set<object> {
      {this} + (if meta == null then {} else {meta as object} + Objects(meta.labels) + Objects(meta.annotations))
      + (if spec == null then {} else {spec as object}) + (if status == null then {} else {status as object})
    }

    /** The resource and all its nested records have this id. */
    ghost predicate Carries(t: Text)
      requires meta != null
      reads Parts()
    {
      && id == t && meta.id == t
      && (forall kv :: kv in meta.labels ==> kv.id == t)
      && (forall kv :: kv in meta.annotations ==> kv.id == t)
      && (spec != null ==> spec.id == t) && (status != null ==> status.id == t)
    }
  }

  function IdentityOf(obj: Resource): (i: Identity)
    requires obj.meta != null
    ensures i.clusterId == obj.clusterId && i.kind == obj.kind && i.apiVersion == obj.apiVersion
    ensures i.namespace == obj.meta.namespace && i.name == obj.meta.name
  {
    Identity(obj.clusterId, obj.kind, obj.apiVersion, obj.meta.namespace, obj.meta.name)
  }

  method Stamp(kvs: seq<KeyValue>, id: Text)
    modifies Objects(kvs)
    ensures forall kv :: kv in kvs ==> kv.id == id
  {
    for i := 0 to |kvs|
      invariant forall j :: 0 <= j < i ==> kvs[j].id == id
    {
      kvs[i].id := id;
      kvs[i].uniqueId := *;
    }
  }

  /** A resource with metadata, and all its nested records, get the id of its identity. */
  method SetID(obj: Resource?)
    modifies if obj == null then {} else obj.Parts()
    ensures obj != null && obj.meta != null ==> obj.Carries(ResourceId(IdentityOf(obj)))
    ensures obj != null && obj.meta == null ==> unchanged(obj.Parts())
  {
    if obj != null && obj.meta != null {
      var id := ResourceId(IdentityOf(obj));
      obj.id := id;
      obj.meta.id := id;
      Stamp(obj.meta.labels, id);
      Stamp(obj.meta.annotations, id);
      if obj.spec != null {
        obj.spec.id := id;
      }
      if obj.status != null {
        obj.status.id := id;
      }
    }
  }

  /** What Kubernetes guarantees of a resource with metadata. */
  ghost predicate WellNamedResource(obj: Resource) {
    && obj.meta != null
    && Plain(obj.clusterId) && Plain(obj.kind) && IsApiVersion(obj.apiVersion)
    && Plain(obj.meta.namespace) && SLASH !in obj.meta.name
  }

  /** Two resources get the same id exactly when all five fields agree, and so do all their nested records. */
  method SetIDs(a: Resource, b: Resource)
    requires WellNamedResource(a) && WellNamedResource(b) && a.Parts() !! b.Parts()
    modifies a.Parts(), b.Parts()
    ensures a.id == b.id <==>
      && a.clusterId == b.clusterId && a.kind == b.kind && a.apiVersion == b.apiVersion
      && a.meta.namespace == b.meta.namespace && a.meta.name == b.meta.name
    ensures a.Carries(a.id) && b.Carries(b.id)
  {
    SetID(a);
    SetID(b);
    ResourceIdIsInjective(IdentityOf(a), IdentityOf(b));
  }
}
