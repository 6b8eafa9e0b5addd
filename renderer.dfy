/** The diagram builder of `generate_diagram_from_json`: clusters first,
    then one node per resource, then one edge per relationship whose two
    endpoints are nodes.  The diagram is kept abstract (the cluster
    objects, the nodes with their kind and cluster, the edge list); laying
    it out and serialising it as an image are not modelled. */
module Renderer {
  import opened ArchitectureIr
  import opened Registry
  import Translator

  /** A node: its class, and the position in the "clusters" list of the
      cluster object it was created in, if any. */
  datatype Node = Node(kind: NodeKind, cluster: Option<nat>)

  /** A directed edge `nodes[source] >> nodes[target]`. */
  datatype Edge = Edge(source: string, target: string)

  /** The builder's state once its loops are done: the diagram's title,
      the `cluster_objects` dictionary (each name bound to the position of
      the entry whose object it last received), the `nodes` dictionary (each
      resource name bound to the node created last under it) and the edges
      in the order they were added.  These are the dictionaries, not the
      drawing: the library draws a node for every resource, including ones
      whose name a later resource reuses, and draws only the cluster objects
      that some node was created in. */
  datatype Diagram = Diagram(
    title: string,
    clusters: map<string, nat>,
    nodes: map<string, Node>,
    edges: seq<Edge>)

  const UnavailableMessage := "diagrams library is not available. Please install it."

  /** Python's message when `.get` is called on a decoded value of type
      `typeName` that is not a dictionary. */
  function NoGetMessage(typeName: string): string {
    "'" + typeName + "' object has no attribute 'get'"
  }

  // ---------------------------------------------------------------------
  // Step 1: clusters and the resource-to-cluster mapping

  /** `mapping[name] = cluster` for every name of `members`, in order. */
  function Assign(mapping: map<string, string>, members: seq<string>, cluster: string): map<string, string>
  {
    if members == [] then mapping
    else Assign(mapping, members[..|members| - 1], cluster)[members[|members| - 1] := cluster]
  }

  /** `cluster_resource_mapping` after the loop over `clusters`. */
  function ClusterMapping(clusters: seq<ClusterInfo>): map<string, string>
  {
    if clusters == [] then map[]
    else
      var last := clusters[|clusters| - 1];
      Assign(ClusterMapping(clusters[..|clusters| - 1]), last.resources, ClusterNameOf(last))
  }

  /** `cluster_objects` after the loop over `clusters`: each name is bound
      to the position of the entry whose cluster object it holds. */
  function ClusterObjects(clusters: seq<ClusterInfo>): map<string, nat>
  {
    if clusters == [] then map[]
    else ClusterObjects(clusters[..|clusters| - 1])[ClusterNameOf(clusters[|clusters| - 1]) := |clusters| - 1]
  }

  lemma {:induction false} AssignSpec(mapping: map<string, string>, members: seq<string>, cluster: string, r: string)
    ensures r in Assign(mapping, members, cluster) <==> r in mapping || r in members
    ensures r in members ==> Assign(mapping, members, cluster)[r] == cluster
    ensures r !in members && r in mapping ==> Assign(mapping, members, cluster)[r] == mapping[r]
  {
    if members != [] {
      var init := members[..|members| - 1];
      assert members == init + [members[|members| - 1]];
      AssignSpec(mapping, init, cluster, r);
    }
  }

  /** A resource name is mapped exactly when some cluster lists it. */
  lemma {:induction false} ClusterMappingDomain(clusters: seq<ClusterInfo>, r: string)
    ensures r in ClusterMapping(clusters) <==>
      exists j :: 0 <= j < |clusters| && r in clusters[j].resources
  {
    if clusters != [] {
      var n := |clusters| - 1;
      var init := clusters[..n];
      ClusterMappingDomain(init, r);
      AssignSpec(ClusterMapping(init), clusters[n].resources, ClusterNameOf(clusters[n]), r);
      if r in ClusterMapping(clusters) && r !in clusters[n].resources {
        var j :| 0 <= j < n && r in init[j].resources;
        assert r in clusters[j].resources;
      }
      if exists j :: 0 <= j < |clusters| && r in clusters[j].resources {
        var j :| 0 <= j < |clusters| && r in clusters[j].resources;
        if j < n { assert r in init[j].resources; }
      }
    }
  }

  /** A name listed by several clusters is mapped to the last of them. */
  lemma {:induction false} ClusterMappingLastWins(clusters: seq<ClusterInfo>, r: string, j: nat)
    requires j < |clusters| && r in clusters[j].resources
    requires forall k :: j < k < |clusters| ==> r !in clusters[k].resources
    ensures r in ClusterMapping(clusters)
    ensures ClusterMapping(clusters)[r] == ClusterNameOf(clusters[j])
  {
    var n := |clusters| - 1;
    var init := clusters[..n];
    AssignSpec(ClusterMapping(init), clusters[n].resources, ClusterNameOf(clusters[n]), r);
    if j < n {
      ClusterMappingLastWins(init, r, j);
    }
  }

  /** A name is a cluster object exactly when some entry has that name,
      and it holds the object of the last such entry. */
  lemma {:induction false} ClusterObjectsSpec(clusters: seq<ClusterInfo>, name: string)
    ensures name in ClusterObjects(clusters) <==>
      exists j :: 0 <= j < |clusters| && ClusterNameOf(clusters[j]) == name
    ensures name in ClusterObjects(clusters) ==>
      var k := ClusterObjects(clusters)[name];
      k < |clusters| && ClusterNameOf(clusters[k]) == name &&
      forall j :: k < j < |clusters| ==> ClusterNameOf(clusters[j]) != name
  {
    if clusters != [] {
      var n := |clusters| - 1;
      var init := clusters[..n];
      ClusterObjectsSpec(init, name);
      if exists j :: 0 <= j < |clusters| && ClusterNameOf(clusters[j]) == name {
        var j :| 0 <= j < |clusters| && ClusterNameOf(clusters[j]) == name;
        if j < n { assert ClusterNameOf(init[j]) == name; }
      }
      if name in ClusterObjects(init) && name != ClusterNameOf(clusters[n]) {
        var k := ClusterObjects(init)[name];
        assert ClusterNameOf(init[k]) == name;
      }
    }
  }

  /** Every cluster a resource is mapped to has a cluster object, so the
      lookup `cluster_objects[cluster_name]` never fails. */
  lemma {:induction false} MappingTargetsExist(clusters: seq<ClusterInfo>, r: string)
    requires r in ClusterMapping(clusters)
    ensures ClusterMapping(clusters)[r] in ClusterObjects(clusters)
  {
    var n := |clusters| - 1;
    var init := clusters[..n];
    AssignSpec(ClusterMapping(init), clusters[n].resources, ClusterNameOf(clusters[n]), r);
    if r !in clusters[n].resources {
      MappingTargetsExist(init, r);
    }
  }

  // ---------------------------------------------------------------------
  // Step 2: one node per resource name

  /** The cluster object a resource of this name is created in, if any. */
  function Placement(name: string, mapping: map<string, string>, objects: map<string, nat>): Option<nat>
  {
    if name in mapping && mapping[name] in objects then Some(objects[mapping[name]]) else None
  }

  /** The node created for one resource. */
  function NodeOf(r: Resource, mapping: map<string, string>, objects: map<string, nat>): Node
  {
    Node(Lookup(ResourceTypeOf(r)), Placement(ResourceNameOf(r), mapping, objects))
  }

  /** `nodes` after the loop over `resources`. */
  function NodesOf(resources: seq<Resource>, mapping: map<string, string>, objects: map<string, nat>)
    : map<string, Node>
  {
    if resources == [] then map[]
    else
      var last := resources[|resources| - 1];
      NodesOf(resources[..|resources| - 1], mapping, objects)[ResourceNameOf(last) := NodeOf(last, mapping, objects)]
  }

  /** The names of the resources, defaults included. */
  function NamesOf(resources: seq<Resource>): set<string>
  {
    set r | r in resources :: ResourceNameOf(r)
  }

  /** The node keys are exactly the resource names. */
  lemma {:induction false} NodeKeys(resources: seq<Resource>, mapping: map<string, string>, objects: map<string, nat>)
    ensures NodesOf(resources, mapping, objects).Keys == NamesOf(resources)
  {
    if resources != [] {
      var init := resources[..|resources| - 1];
      NodeKeys(init, mapping, objects);
      assert resources == init + [resources[|resources| - 1]];
      assert NamesOf(resources) == NamesOf(init) + {ResourceNameOf(resources[|resources| - 1])};
    }
  }

  /** When several resources share a name, the last one's node is kept. */
  lemma {:induction false} NodesLastWins(resources: seq<Resource>, mapping: map<string, string>, objects: map<string, nat>, j: nat)
    requires j < |resources|
    requires forall k :: j < k < |resources| ==> ResourceNameOf(resources[k]) != ResourceNameOf(resources[j])
    ensures ResourceNameOf(resources[j]) in NodesOf(resources, mapping, objects)
    ensures NodesOf(resources, mapping, objects)[ResourceNameOf(resources[j])] == NodeOf(resources[j], mapping, objects)
  {
    var n := |resources| - 1;
    var init := resources[..n];
    var name := ResourceNameOf(resources[j]);
    assert NodesOf(resources, mapping, objects) ==
      NodesOf(init, mapping, objects)[ResourceNameOf(resources[n]) := NodeOf(resources[n], mapping, objects)];
    if j < n {
      assert init[j] == resources[j];
      assert ResourceNameOf(resources[n]) != name;
      NodesLastWins(init, mapping, objects, j);
    }
  }

  /** A name no resource carries is not among the names. */
  lemma NameAbsent(resources: seq<Resource>, name: string)
    requires forall i :: 0 <= i < |resources| ==> ResourceNameOf(resources[i]) != name
    ensures name !in NamesOf(resources)
  {
    forall r | r in resources
      ensures ResourceNameOf(r) != name
    {
      var i :| 0 <= i < |resources| && resources[i] == r;
    }
  }

  /** Distinct names give one node per resource. */
  lemma {:induction false} NodeCount(resources: seq<Resource>, mapping: map<string, string>, objects: map<string, nat>)
    requires forall i, k :: 0 <= i < k < |resources| ==> ResourceNameOf(resources[i]) != ResourceNameOf(resources[k])
    ensures |NodesOf(resources, mapping, objects)| == |resources|
  {
    if resources != [] {
      var n := |resources| - 1;
      var init := resources[..n];
      var prior := NodesOf(init, mapping, objects);
      var name := ResourceNameOf(resources[n]);
      NodeCount(init, mapping, objects);
      NodeKeys(init, mapping, objects);
      forall i | 0 <= i < |init|
        ensures ResourceNameOf(init[i]) != name
      {
        assert init[i] == resources[i];
      }
      NameAbsent(init, name);
      assert NodesOf(resources, mapping, objects) == prior[name := NodeOf(resources[n], mapping, objects)];
      assert name !in prior;
    }
  }

  // ---------------------------------------------------------------------
  // Step 3: edges between existing nodes

  /** Both endpoints are present and name nodes. */
  predicate Resolves(rel: Relationship, names: set<string>)
  {
    rel.source.Some? && rel.target.Some? && rel.source.value in names && rel.target.value in names
  }

  /** `edges` after the loop over `relationships`. */
  function EdgesOf(rels: seq<Relationship>, names: set<string>): seq<Edge>
  {
    if rels == [] then []
    else
      var last := rels[|rels| - 1];
      EdgesOf(rels[..|rels| - 1], names) +
        (if Resolves(last, names) then [Edge(last.source.value, last.target.value)] else [])
  }

  /** Skipping relationships commutes with splitting the list: the edges
      of `a + b` are those of `a` followed by those of `b`. */
  lemma {:induction false} EdgesConcat(a: seq<Relationship>, b: seq<Relationship>, names: set<string>)
    ensures EdgesOf(a + b, names) == EdgesOf(a, names) + EdgesOf(b, names)
  {
    if b != [] {
      var init := b[..|b| - 1];
      assert (a + b)[..|a + b| - 1] == a + init;
      EdgesConcat(a, init, names);
    } else {
      assert a + b == a;
    }
  }

  /** An edge is drawn exactly for a relationship whose endpoints both name
      nodes, so every edge joins two nodes. */
  lemma {:induction false} EdgesSpec(rels: seq<Relationship>, names: set<string>, e: Edge)
    ensures e in EdgesOf(rels, names) <==>
      exists i :: 0 <= i < |rels| && Resolves(rels[i], names) &&
        rels[i].source.value == e.source && rels[i].target.value == e.target
    ensures e in EdgesOf(rels, names) ==> e.source in names && e.target in names
  {
    if rels != [] {
      var n := |rels| - 1;
      var init := rels[..n];
      EdgesSpec(init, names, e);
      if exists i :: 0 <= i < |rels| && Resolves(rels[i], names) &&
          rels[i].source.value == e.source && rels[i].target.value == e.target {
        var i :| 0 <= i < |rels| && Resolves(rels[i], names) &&
          rels[i].source.value == e.source && rels[i].target.value == e.target;
        if i < n { assert init[i] == rels[i]; }
      }
      if e in EdgesOf(init, names) {
        var i :| 0 <= i < n && Resolves(init[i], names) &&
          init[i].source.value == e.source && init[i].target.value == e.target;
        assert rels[i] == init[i];
      }
    }
  }

  /** Every edge joins two of the given names. */
  lemma EdgesJoinNames(rels: seq<Relationship>, names: set<string>)
    ensures forall e :: e in EdgesOf(rels, names) ==> e.source in names && e.target in names
  {
    forall e | e in EdgesOf(rels, names)
      ensures e.source in names && e.target in names
    {
      EdgesSpec(rels, names, e);
    }
  }

  /** When every relationship resolves, the edges are the relationships,
      one for one and in order. */
  lemma {:induction false} EdgesAllResolve(rels: seq<Relationship>, names: set<string>)
    requires forall i :: 0 <= i < |rels| ==> Resolves(rels[i], names)
    ensures |EdgesOf(rels, names)| == |rels|
    ensures forall i :: 0 <= i < |rels| && Resolves(rels[i], names) ==>
      EdgesOf(rels, names)[i] == Edge(rels[i].source.value, rels[i].target.value)
  {
    if rels != [] {
      var n := |rels| - 1;
      EdgesAllResolve(rels[..n], names);
    }
  }

  // ---------------------------------------------------------------------
  // The whole builder

  /** The diagram the builder produces for an architecture: titled by its
      label or "Azure Architecture", one node key per resource name, and
      edges only between nodes. */
  function DiagramOf(a: Architecture): (d: Diagram)
    ensures a.diagramLabel.Some? ==> d.title == a.diagramLabel.value
    ensures a.diagramLabel.None? ==> d.title == DefaultLabel
    ensures d.nodes.Keys == NamesOf(a.resources)
    ensures forall e :: e in d.edges ==> e.source in d.nodes && e.target in d.nodes
  {
    var mapping := ClusterMapping(a.clusters);
    var objects := ClusterObjects(a.clusters);
    var nodes := NodesOf(a.resources, mapping, objects);
    NodeKeys(a.resources, mapping, objects);
    EdgesJoinNames(a.relationships, nodes.Keys);
    Diagram(LabelOf(a), objects, nodes, EdgesOf(a.relationships, nodes.Keys))
  }

  /** `generate_diagram_from_json`: fails when the diagram library is
      missing, fails at the first `.get` when the decoded value is not an
      object, and otherwise fills the cluster, mapping and node
      dictionaries and the edge list in loops. */
  method GenerateDiagramFromJson(diagramsAvailable: bool, doc: JsonValue) returns (r: Result<Diagram, string>)
    ensures !diagramsAvailable ==> r == Failure(UnavailableMessage)
    ensures diagramsAvailable && doc.NonObject? ==> r == Failure(NoGetMessage(doc.typeName))
    ensures diagramsAvailable && doc.Object? ==> r == Success(DiagramOf(doc.arch))
  {
    if !diagramsAvailable {
      return Failure(UnavailableMessage);
    }
    if doc.NonObject? {
      return Failure(NoGetMessage(doc.typeName));
    }
    var a := doc.arch;
    var clusterObjects, clusterResourceMapping := CreateClusters(a.clusters);
    forall name | name in clusterResourceMapping
      ensures clusterResourceMapping[name] in clusterObjects
    {
      MappingTargetsExist(a.clusters, name);
    }
    var nodes := CreateNodes(a.resources, clusterResourceMapping, clusterObjects);
    var edges := CreateEdges(a.relationships, nodes);
    return Success(Diagram(LabelOf(a), clusterObjects, nodes, edges));
  }

  /** The loop over "clusters": one cluster object per name, and each listed
      resource mapped to the cluster that lists it. */
  method CreateClusters(clusters: seq<ClusterInfo>)
    returns (clusterObjects: map<string, nat>, clusterResourceMapping: map<string, string>)
    ensures clusterObjects == ClusterObjects(clusters)
    ensures clusterResourceMapping == ClusterMapping(clusters)
  {
    clusterObjects, clusterResourceMapping := map[], map[];
    for i := 0 to |clusters|
      invariant clusterObjects == ClusterObjects(clusters[..i])
      invariant clusterResourceMapping == ClusterMapping(clusters[..i])
    {
      var info := clusters[i];
      var clusterName := ClusterNameOf(info);
      clusterObjects := clusterObjects[clusterName := i];
      ghost var before := clusterResourceMapping;
      for j := 0 to |info.resources|
        invariant clusterResourceMapping == Assign(before, info.resources[..j], clusterName)
      {
        assert info.resources[..j + 1][..j] == info.resources[..j];
        clusterResourceMapping := clusterResourceMapping[info.resources[j] := clusterName];
      }
      assert info.resources[..|info.resources|] == info.resources;
      assert clusters[..i + 1][..i] == clusters[..i];
    }
    assert clusters[..|clusters|] == clusters;
  }

  /** The loop over "resources": each resource's node, keyed by its name,
      inside the cluster object its name is mapped to, if any. */
  method CreateNodes(resources: seq<Resource>, clusterResourceMapping: map<string, string>, clusterObjects: map<string, nat>)
    returns (nodes: map<string, Node>)
    requires forall name :: name in clusterResourceMapping ==> clusterResourceMapping[name] in clusterObjects
    ensures nodes == NodesOf(resources, clusterResourceMapping, clusterObjects)
  {
    nodes := map[];
    for i := 0 to |resources|
      invariant nodes == NodesOf(resources[..i], clusterResourceMapping, clusterObjects)
    {
      var resource := resources[i];
      var resourceName := ResourceNameOf(resource);
      var nodeClass := Lookup(ResourceTypeOf(resource));
      if resourceName in clusterResourceMapping {
        var clusterName := clusterResourceMapping[resourceName];
        nodes := nodes[resourceName := Node(nodeClass, Some(clusterObjects[clusterName]))];
      } else {
        nodes := nodes[resourceName := Node(nodeClass, None)];
      }
      assert resources[..i + 1][..i] == resources[..i];
    }
    assert resources[..|resources|] == resources;
  }

  /** The loop over "relationships": an edge for each one whose source and
      target both name nodes, in order; the others are skipped. */
  method CreateEdges(relationships: seq<Relationship>, nodes: map<string, Node>) returns (edges: seq<Edge>)
    ensures edges == EdgesOf(relationships, nodes.Keys)
  {
    edges := [];
    for i := 0 to |relationships|
      invariant edges == EdgesOf(relationships[..i], nodes.Keys)
    {
      var relationship := relationships[i];
      var sourceName := relationship.source;
      var targetName := relationship.target;
      if sourceName.Some? && targetName.Some? && sourceName.value in nodes && targetName.value in nodes {
        edges := edges + [Edge(sourceName.value, targetName.value)];
      }
      assert relationships[..i + 1][..i] == relationships[..i];
    }
    assert relationships[..|relationships|] == relationships;
  }

  /** A node sits in a cluster exactly when its name is mapped to one, and
      then in the last cluster object bearing the mapped name. */
  lemma DiagramPlacement(a: Architecture, name: string)
    requires name in DiagramOf(a).nodes
    ensures DiagramOf(a).nodes[name].cluster.Some? <==> name in ClusterMapping(a.clusters)
    ensures DiagramOf(a).nodes[name].cluster.Some? ==>
      var k := DiagramOf(a).nodes[name].cluster.value;
      k < |a.clusters| && ClusterNameOf(a.clusters[k]) == ClusterMapping(a.clusters)[name]
  {
    var mapping := ClusterMapping(a.clusters);
    var objects := ClusterObjects(a.clusters);
    var j := LastWithName(a.resources, name);
    NodesLastWins(a.resources, mapping, objects, j);
    if name in mapping {
      MappingTargetsExist(a.clusters, name);
      ClusterObjectsSpec(a.clusters, mapping[name]);
    }
  }

  /** The node recorded for a name is the last resource of that name: its kind
      is the table entry for its type, and an unknown or missing type gives
      an `AppServices` node. */
  lemma DiagramNodeKind(a: Architecture, j: nat)
    requires j < |a.resources|
    requires forall k :: j < k < |a.resources| ==> ResourceNameOf(a.resources[k]) != ResourceNameOf(a.resources[j])
    ensures ResourceNameOf(a.resources[j]) in DiagramOf(a).nodes
    ensures DiagramOf(a).nodes[ResourceNameOf(a.resources[j])].kind == Lookup(ResourceTypeOf(a.resources[j]))
    ensures ResourceTypeOf(a.resources[j]) !in NodeTable ==> DiagramOf(a).nodes[ResourceNameOf(a.resources[j])].kind == AppServices
    ensures a.resources[j].resourceType.None? ==> DiagramOf(a).nodes[ResourceNameOf(a.resources[j])].kind == AppServices
  {
    NodesLastWins(a.resources, ClusterMapping(a.clusters), ClusterObjects(a.clusters), j);
  }

  /** The position of the last resource with a given name. */
  lemma LastWithName(resources: seq<Resource>, name: string) returns (j: nat)
    requires name in NamesOf(resources)
    ensures j < |resources| && ResourceNameOf(resources[j]) == name
    ensures forall k :: j < k < |resources| ==> ResourceNameOf(resources[k]) != name
  {
    var n := |resources| - 1;
    if ResourceNameOf(resources[n]) == name {
      j := n;
    } else {
      var init := resources[..n];
      var r :| r in resources && ResourceNameOf(r) == name;
      assert r in init;
      j := LastWithName(init, name);
    }
  }

  /** With distinct resource names and only resolving relationships, the
      diagram has one node per resource and one edge per relationship. */
  lemma NodeAndEdgeCounts(a: Architecture)
    requires forall i, k :: 0 <= i < k < |a.resources| ==> ResourceNameOf(a.resources[i]) != ResourceNameOf(a.resources[k])
    requires forall i :: 0 <= i < |a.relationships| ==> Resolves(a.relationships[i], NamesOf(a.resources))
    ensures |DiagramOf(a).nodes| == |a.resources|
    ensures |DiagramOf(a).edges| == |a.relationships|
  {
    var mapping := ClusterMapping(a.clusters);
    var objects := ClusterObjects(a.clusters);
    NodeCount(a.resources, mapping, objects);
    NodeKeys(a.resources, mapping, objects);
    EdgesAllResolve(a.relationships, NamesOf(a.resources));
  }

  /** The demo's cluster dictionaries: one cluster object, holding both
      resources. */
  lemma DemoClusters()
    ensures ClusterMapping(Translator.Demo().clusters) ==
      map["Web App" := "Resource Group 1", "SQL Database" := "Resource Group 1"]
    ensures ClusterObjects(Translator.Demo().clusters) == map["Resource Group 1" := 0]
  {
    var cs := Translator.Demo().clusters;
    var c := cs[0];
    assert cs[..0] == [];
    assert c.resources[..1] == ["Web App"];
    assert c.resources[..1][..0] == [];
    assert Assign(map[], c.resources[..1], "Resource Group 1") == map["Web App" := "Resource Group 1"];
  }

  /** Without credentials the pipeline draws the demo architecture: two
      nodes in the one cluster and one edge from the web app to the
      database. */
  lemma DemoDiagram(cfg: Translator.Config, reply: Translator.Reply, parse: string -> Option<JsonValue>)
    requires !Translator.Configured(cfg)
    ensures Translator.Translate(cfg, reply, parse) == Success(Object(Translator.Demo()))
    ensures DiagramOf(Translator.Demo()) == Diagram(
      "Sample Web App Architecture",
      map["Resource Group 1" := 0],
      map["Web App" := Node(AppServices, Some(0)), "SQL Database" := Node(SQLDatabases, Some(0))],
      [Edge("Web App", "SQL Database")])
  {
    var a := Translator.Demo();
    DemoClusters();
    var mapping := ClusterMapping(a.clusters);
    var objects := ClusterObjects(a.clusters);
    assert a.resources[..1][..0] == [];
    var nodes := NodesOf(a.resources, mapping, objects);
    assert NodesOf(a.resources[..1], mapping, objects) == map["Web App" := Node(AppServices, Some(0))];
    assert nodes == map["Web App" := Node(AppServices, Some(0)), "SQL Database" := Node(SQLDatabases, Some(0))];
    assert a.relationships[..0] == [];
    assert EdgesOf(a.relationships, nodes.Keys) == [Edge("Web App", "SQL Database")];
  }
}
