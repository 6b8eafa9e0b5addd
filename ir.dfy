/** The architecture intermediate representation: the JSON document that the
    translator produces and the diagram builder consumes.  A string-valued
    key that the JSON object may omit is an `Option`; the builder's
    `.get(key, default)` fallbacks are the functions at the end of this
    module.  A list the object may omit is a plain sequence: an absent list
    and an empty list are iterated the same way. */
module ArchitectureIr {

  datatype Option<+T> = None | Some(value: T) {
    /** The value, or `default` when there is none (Python's `dict.get`). */
    function GetOr(default: T): T {
      match this
      case Some(v) => v
      case None => default
    }
  }

  datatype Result<+T, +E> = Success(value: T) | Failure(error: E)

  /** One entry of "resources": its "name", its "type" and its "attributes". */
  datatype Resource = Resource(
    name: Option<string>,
    resourceType: Option<string>,
    attributes: map<string, string>)

  /** One entry of "relationships": "source", "target" and "type". */
  datatype Relationship = Relationship(
    source: Option<string>,
    target: Option<string>,
    relation: Option<string>)

  /** One entry of "clusters": its "name" and the resource names it groups. */
  datatype ClusterInfo = ClusterInfo(name: Option<string>, resources: seq<string>)

  /** The whole document: "diagram_label", "resources", "relationships", "clusters". */
  datatype Architecture = Architecture(
    diagramLabel: Option<string>,
    resources: seq<Resource>,
    relationships: seq<Relationship>,
    clusters: seq<ClusterInfo>)

  /** A decoded JSON document: an object, read as an architecture, or a
      value of another type (a list, a string, a number, a boolean or
      null), known only by the name of its Python type. */
  datatype JsonValue = Object(arch: Architecture) | NonObject(typeName: string)

  const DefaultLabel := "Azure Architecture"
  const DefaultClusterName := "Cluster"
  const DefaultResourceName := "Resource"
  const DefaultResourceType := "Azure.WebApp"

  /** `arch_json.get("diagram_label", "Azure Architecture")`. */
  function LabelOf(a: Architecture): (title: string)
    ensures a.diagramLabel.Some? ==> title == a.diagramLabel.value
    ensures a.diagramLabel.None? ==> title == DefaultLabel
  {
    a.diagramLabel.GetOr(DefaultLabel)
  }

  /** `cluster_info.get("name", "Cluster")`. */
  function ClusterNameOf(c: ClusterInfo): (name: string)
    ensures c.name.Some? ==> name == c.name.value
    ensures c.name.None? ==> name == DefaultClusterName
  {
    c.name.GetOr(DefaultClusterName)
  }

  /** `resource.get("name", "Resource")`. */
  function ResourceNameOf(r: Resource): (name: string)
    ensures r.name.Some? ==> name == r.name.value
    ensures r.name.None? ==> name == DefaultResourceName
  {
    r.name.GetOr(DefaultResourceName)
  }

  /** `resource.get("type", "Azure.WebApp")`. */
  function ResourceTypeOf(r: Resource): (typeId: string)
    ensures r.resourceType.Some? ==> typeId == r.resourceType.value
    ensures r.resourceType.None? ==> typeId == DefaultResourceType
  {
    r.resourceType.GetOr(DefaultResourceType)
  }
}
