/** The resource type registry: the static table from canonical type
    identifiers to the node kinds the diagram library draws. */
module Registry {

  /** The node classes the table refers to. */
  datatype NodeKind =
    | AppServices
    | SQLDatabases
    | BlobStorage
    | LoadBalancers
    | ApplicationGateway
    | VirtualNetworks
    | ActiveDirectory
    | KeyVaults
    | ServiceBus
    | SynapseAnalytics
    | CognitiveServices
    | AppServicePlans

  /** The node kind used for every type identifier the table does not list. */
  const DefaultKind := AppServices

  const NodeTable: map<string, NodeKind> := map[
    "Azure.WebApp" := AppServices,
    "Azure.SQLDatabase" := SQLDatabases,
    "Azure.BlobStorage" := BlobStorage,
    "Azure.LoadBalancer" := LoadBalancers,
    "Azure.ApplicationGateway" := ApplicationGateway,
    "Azure.VirtualNetwork" := VirtualNetworks,
    "Azure.ActiveDirectory" := ActiveDirectory,
    "Azure.KeyVault" := KeyVaults,
    "Azure.ServiceBus" := ServiceBus,
    "Azure.PowerBI" := SynapseAnalytics,
    "Azure.CognitiveServices" := CognitiveServices,
    "Azure.AppServicePlan" := AppServicePlans
  ]

  /** The type identifier under which the table lists each kind: an
      independent statement of the table, one kind at a time. */
  function TypeIdOf(k: NodeKind): string {
    match k
    case AppServices => "Azure.WebApp"
    case SQLDatabases => "Azure.SQLDatabase"
    case BlobStorage => "Azure.BlobStorage"
    case LoadBalancers => "Azure.LoadBalancer"
    case ApplicationGateway => "Azure.ApplicationGateway"
    case VirtualNetworks => "Azure.VirtualNetwork"
    case ActiveDirectory => "Azure.ActiveDirectory"
    case KeyVaults => "Azure.KeyVault"
    case ServiceBus => "Azure.ServiceBus"
    case SynapseAnalytics => "Azure.PowerBI"
    case CognitiveServices => "Azure.CognitiveServices"
    case AppServicePlans => "Azure.AppServicePlan"
  }

  /** `AZURE_NODE_MAP.get(typeId, AppServices)`: never fails. */
  function Lookup(typeId: string): (k: NodeKind)
    ensures typeId in NodeTable ==> TypeIdOf(k) == typeId
    ensures typeId !in NodeTable ==> k == DefaultKind
  {
    if typeId in NodeTable then NodeTable[typeId] else DefaultKind
  }

  /** Every kind is listed, under its own identifier, and looking that
      identifier up gives the kind back. */
  lemma LookupTypeId(k: NodeKind)
    ensures TypeIdOf(k) in NodeTable
    ensures Lookup(TypeIdOf(k)) == k
  {
  }

  /** Every listed identifier is the identifier of the kind it is listed
      under, so the table and `TypeIdOf` are inverse to each other. */
  lemma TableInverse(typeId: string)
    requires typeId in NodeTable
    ensures TypeIdOf(NodeTable[typeId]) == typeId
  {
  }

  /** Every identifier of the table is in the "Azure." namespace. */
  lemma TableNamespace(k: NodeKind)
    ensures TypeIdOf(k)[..6] == "Azure."
  {
  }

  /** An identifier looks up to the default kind exactly when it is not
      listed or is the web-app identifier, listed under the default kind. */
  lemma LookupDefault(typeId: string)
    ensures Lookup(typeId) == DefaultKind <==> typeId !in NodeTable || typeId == "Azure.WebApp"
  {
    if typeId in NodeTable {
      TableInverse(typeId);
    }
  }
}
