/** The topology graphs the API sends (backend/app/api/routes.py, fleet_topology and environment_topology). */
module Topology {

  datatype Node = Node(id: string, kind: string)
  datatype Edge = Edge(source: string, target: string, relationship: string)
  datatype Graph = Graph(nodes: seq<Node>, edges: seq<Edge>)

  // ----- Trees -----

  predicate HasNode(nodes: seq<Node>, id: string)
  {
    exists i :: 0 <= i < |nodes| && nodes[i].id == id
  }

  predicate DistinctIds(nodes: seq<Node>)
  {
    forall i, j :: 0 <= i < j < |nodes| ==> nodes[i].id != nodes[j].id
  }

  /** Distinct ids; edge k leads to node k + 1 from an earlier node. */
  predicate TreeGraph(g: Graph)
  {
    |g.nodes| > 0 && |g.edges| == |g.nodes| - 1 && DistinctIds(g.nodes) &&
    forall k :: 0 <= k < |g.edges| ==>
      g.edges[k].target == g.nodes[k + 1].id && HasNode(g.nodes[..k + 1], g.edges[k].source)
  }

  /** A node and the edge that hangs it below a parent. */
  function Grow(g: Graph, parent: string, node: Node, relationship: string): Graph
  {
    Graph(g.nodes + [node], g.edges + [Edge(parent, node.id, relationship)])
  }

  lemma GrowTree(g: Graph, parent: string, node: Node, relationship: string)
    requires TreeGraph(g) && HasNode(g.nodes, parent) && !HasNode(g.nodes, node.id)
    ensures TreeGraph(Grow(g, parent, node, relationship))
  {
    var h := Grow(g, parent, node, relationship);
    forall k | 0 <= k < |h.edges|
      ensures h.edges[k].target == h.nodes[k + 1].id && HasNode(h.nodes[..k + 1], h.edges[k].source)
    {
      assert h.nodes[..k + 1] == g.nodes[..k + 1];
      assert g.nodes[..|g.nodes|] == g.nodes;
    }
  }

  lemma GrowHas(g: Graph, parent: string, node: Node, relationship: string)
    ensures forall id :: HasNode(Grow(g, parent, node, relationship).nodes, id) <==>
      HasNode(g.nodes, id) || id == node.id
  {
    var nodes := g.nodes + [node];
    forall id ensures HasNode(nodes, id) <==> HasNode(g.nodes, id) || id == node.id {
      if HasNode(g.nodes, id) {
        var i :| 0 <= i < |g.nodes| && g.nodes[i].id == id;
        assert nodes[i].id == id;
      }
      assert nodes[|g.nodes|].id == node.id;
    }
  }

  /** In a tree every node but the root is the target of exactly one edge, and the root of none. */
  lemma TargetsOnce(g: Graph, i: nat)
    requires TreeGraph(g) && i < |g.nodes|
    ensures i == 0 ==> forall k :: 0 <= k < |g.edges| ==> g.edges[k].target != g.nodes[0].id
    ensures i > 0 ==> g.edges[i - 1].target == g.nodes[i].id
    ensures i > 0 ==> forall k :: 0 <= k < |g.edges| && g.edges[k].target == g.nodes[i].id ==> k == i - 1
  {
  }

  /** An edge leads from node i to node j. */
  predicate IsEdge(g: Graph, i: nat, j: nat)
    requires TreeGraph(g) && i < |g.nodes| && j < |g.nodes|
  {
    j > 0 && g.edges[j - 1].source == g.nodes[i].id && g.edges[j - 1].target == g.nodes[j].id
  }

  /** A chain of edges from the root. */
  predicate Reaches(g: Graph, i: nat, path: seq<nat>)
    requires TreeGraph(g) && i < |g.nodes|
  {
    path != [] && path[0] == 0 && path[|path| - 1] == i && (forall k :: 0 <= k < |path| ==> path[k] < |g.nodes|) &&
    forall k :: 0 < k < |path| ==> IsEdge(g, path[k - 1], path[k])
  }

  lemma {:induction false} EveryNodeIsReachable(g: Graph, i: nat) returns (path: seq<nat>)
    requires TreeGraph(g) && i < |g.nodes|
    ensures Reaches(g, i, path)
    decreases i
  {
    if i == 0 {
      path := [0];
    } else {
      var p :| 0 <= p < i && g.nodes[..i][p].id == g.edges[i - 1].source;
      var front := EveryNodeIsReachable(g, p);
      path := front + [i];
      assert IsEdge(g, p, i);
    }
  }

  // ----- Ids -----

  /** An id column: a UUID in text form. */
  predicate IsUuid(id: string)
  {
    |id| == 36 && ':' !in id
  }

  const HubId := "aam-hub"

  function ServiceId(environment: string, service: string): string { environment + ":" + service }
  function ResourceId(environment: string, service: string,
                      resource: string): string { ServiceId(environment, service) + ":" + resource }
  function IntegrationId(environment: string, kind: string): string { environment + ":integration:" + kind }

  lemma SplitAtColon(a: string, b: string, c: string, d: string)
    requires ':' !in a && ':' !in c
    ensures a + ":" + b == c + ":" + d ==> a == c && b == d
  {
    var s, t := a + ":" + b, c + ":" + d;
    if s == t {
      assert s[|a|] == ':' && t[|c|] == ':';
      assert forall i :: 0 <= i < |a| ==> s[i] == a[i] && a[i] in a;
      assert forall i :: 0 <= i < |c| ==> t[i] == c[i] && c[i] in c;
      assert |a| == |c|;
      assert a == s[..|a|] && c == t[..|c|] && b == s[|a| + 1..] && d == t[|c| + 1..];
    }
  }

  lemma HasColon(a: string, b: string)
    ensures ':' in a + ":" + b
  {
  }

  // ----- The fleet -----

  datatype Resource = Resource(id: string, service: string, kind: string)

  /** services: the services of the snapshots; declared: the capabilities that are set. */
  datatype Environment = Environment(id: string, services: seq<string>, resources: seq<Resource>, declared: set<string>)

  predicate Distinct(s: seq<string>)
  {
    forall i, j :: 0 <= i < j < |s| ==> s[i] != s[j]
  }

  /** What the tables guarantee: UUIDs as keys and one snapshot per service. */
  predicate ValidFleet(environments: seq<Environment>)
  {
    (forall e :: e in environments ==> IsUuid(e.id) && Distinct(e.services)) &&
    forall i, j :: 0 <= i < j < |environments| ==> environments[i].id != environments[j].id
  }

  function AddServices(g: Graph, environment: string, services: seq<string>): Graph
  {
    if services == [] then g
    else
      var service := services[|services| - 1];
      Grow(AddServices(g, environment, services[..|services| - 1]), environment,
           Node(ServiceId(environment, service), "service"), "contains")
  }

  function FleetGraph(environments: seq<Environment>): Graph
  {
    if environments == [] then Graph([Node(HubId, "hub")], [])
    else
      var last := environments[|environments| - 1];
      AddServices(Grow(FleetGraph(environments[..|environments| - 1]), HubId, Node(last.id, "environment"), "manages"),
                  last.id, last.services)
  }

  method FleetTopology(environments: seq<Environment>) returns (g: Graph)
    ensures g == FleetGraph(environments)
  {
    var nodes := [Node(HubId, "hub")];
    var edges: seq<Edge> := [];
    for i := 0 to |environments|
      invariant Graph(nodes, edges) == FleetGraph(environments[..i])
    {
      var environment := environments[i];
      assert environments[..i + 1][..i] == environments[..i];
      nodes := nodes + [Node(environment.id, "environment")];
      edges := edges + [Edge(HubId, environment.id, "manages")];
      ghost var start := Graph(nodes, edges);
      for j := 0 to |environment.services|
        invariant Graph(nodes, edges) == AddServices(start, environment.id, environment.services[..j])
      {
        assert environment.services[..j + 1][..j] == environment.services[..j];
        var serviceId := environment.id + ":" + environment.services[j];
        nodes := nodes + [Node(serviceId, "service")];
        edges := edges + [Edge(environment.id, serviceId, "contains")];
      }
      assert environment.services[..|environment.services|] == environment.services;
    }
    assert environments[..|environments|] == environments;
    g := Graph(nodes, edges);
  }

  /** The ids below one environment. */
  predicate OfEnvironment(id: string, environment: string, services: seq<string>)
  {
    id == environment || exists s :: s in services && id == ServiceId(environment, s)
  }

  predicate OfFleet(id: string, environments: seq<Environment>)
  {
    id == HubId || exists e :: e in environments && OfEnvironment(id, e.id, e.services)
  }

  lemma {:induction false} AddServicesTree(g: Graph, environment: string, services: seq<string>)
    requires TreeGraph(g) && HasNode(g.nodes, environment) && IsUuid(environment) && Distinct(services)
    requires forall s :: s in services ==> !HasNode(g.nodes, ServiceId(environment, s))
    ensures TreeGraph(AddServices(g, environment, services))
    ensures forall id :: HasNode(AddServices(g, environment, services).nodes, id) <==>
      HasNode(g.nodes, id) || exists s :: s in services && id == ServiceId(environment, s)
  {
    if services != [] {
      var front, last := services[..|services| - 1], services[|services| - 1];
      assert services == front + [last];
      AddServicesTree(g, environment, front);
      var h := AddServices(g, environment, front);
      forall s | s in front ensures ServiceId(environment, s) != ServiceId(environment, last) {
        SplitAtColon(environment, s, environment, last);
      }
      assert !HasNode(h.nodes, ServiceId(environment, last));
      GrowTree(h, environment, Node(ServiceId(environment, last), "service"), "contains");
      GrowHas(h, environment, Node(ServiceId(environment, last), "service"), "contains");
    }
  }

  /** No id of another environment is in the way. */
  lemma FreshEnvironment(environments: seq<Environment>, environment: string, id: string)
    requires forall e :: e in environments ==> IsUuid(e.id) && e.id != environment
    requires IsUuid(environment) && OfFleet(id, environments)
    ensures id != environment
    ensures forall s :: id != ServiceId(environment, s)
  {
    assert ':' !in HubId;
    forall s ensures id != ServiceId(environment, s) {
      HasColon(environment, s);
      if e :| e in environments && OfEnvironment(id, e.id, e.services) {
        if t :| t in e.services && id == ServiceId(e.id, t) { SplitAtColon(e.id, t, environment, s); }
      }
    }
    if e :| e in environments && OfEnvironment(id, e.id, e.services) {
      if t :| t in e.services && id == ServiceId(e.id, t) { HasColon(e.id, t); }
    }
  }

  /** Main result: the fleet graph is a tree over the hub, the environments and their services. */
  lemma {:induction false} FleetGraphIsTree(environments: seq<Environment>)
    requires ValidFleet(environments)
    ensures TreeGraph(FleetGraph(environments))
    ensures forall id :: HasNode(FleetGraph(environments).nodes, id) <==> OfFleet(id, environments)
  {
    if environments == [] {
      assert FleetGraph(environments).nodes[0].id == HubId;
    } else {
      var front, last := environments[..|environments| - 1], environments[|environments| - 1];
      assert environments == front + [last];
      FleetGraphIsTree(front);
      var g := FleetGraph(front);
      forall id | HasNode(g.nodes, id) ensures id != last.id && forall s :: id != ServiceId(last.id, s) {
        FreshEnvironment(front, last.id, id);
      }
      assert HasNode(g.nodes, HubId);
      GrowTree(g, HubId, Node(last.id, "environment"), "manages");
      GrowHas(g, HubId, Node(last.id, "environment"), "manages");
      var h := Grow(g, HubId, Node(last.id, "environment"), "manages");
      forall s | s in last.services ensures !HasNode(h.nodes, ServiceId(last.id, s)) {
        HasColon(last.id, s);
      }
      AddServicesTree(h, last.id, last.services);
      forall id ensures OfFleet(id, environments) <==> OfFleet(id, front) || OfEnvironment(id, last.id, last.services) {
      }
    }
  }

  // ----- One environment -----

  /** The integrations in the order of the code, each with the capabilities that declare it. */
  const Integrations: seq<(string, set<string>)> := [
    ("management", {"management_mode"}), ("runner", {"runner_enabled"}), ("builder", {"builder_pipeline_enabled"}),
    ("receptor", {"receptor_mesh_enabled"}), ("content_trust", {"content_signing_enabled"}),
    ("observability", {"metrics_enabled", "automation_reports_enabled"}),
    ("developer_portal", {"backstage_entity_ref"}), ("mcp", {"mcp_endpoint"}),
    ("ai_assistant", {"ai_assistant_enabled"})]

  function AddResources(g: Graph, environment: string, service: string, resources: seq<Resource>): Graph
  {
    if resources == [] then g
    else
      var last := resources[|resources| - 1];
      var h := AddResources(g, environment, service, resources[..|resources| - 1]);
      if last.service == service
      then Grow(h, ServiceId(environment, service), Node(ResourceId(environment, service, last.id), last.kind),
                "manages")
      else h
  }

  function AddSnapshots(g: Graph, environment: Environment, services: seq<string>): Graph
  {
    if services == [] then g
    else
      var service := services[|services| - 1];
      var h := AddSnapshots(g, environment, services[..|services| - 1]);
      var grown := Grow(h, environment.id, Node(ServiceId(environment.id, service), "service"), "contains");
      AddResources(grown, environment.id, service, environment.resources)
  }

  function AddIntegrations(g: Graph, environment: Environment, specs: seq<(string, set<string>)>): Graph
  {
    if specs == [] then g
    else
      var last := specs[|specs| - 1];
      var h := AddIntegrations(g, environment, specs[..|specs| - 1]);
      if last.1 * environment.declared != {}
      then Grow(h, environment.id, Node(IntegrationId(environment.id, last.0), last.0), "integrates")
      else h
  }

  function EnvironmentGraph(environment: Environment): Graph
  {
    AddIntegrations(AddSnapshots(Graph([Node(environment.id, "environment")], []), environment, environment.services),
                    environment, Integrations)
  }

  method EnvironmentTopology(environment: Environment) returns (g: Graph)
    ensures g == EnvironmentGraph(environment)
  {
    var nodes := [Node(environment.id, "environment")];
    var edges: seq<Edge> := [];
    ghost var root := Graph(nodes, edges);
    for i := 0 to |environment.services|
      invariant Graph(nodes, edges) == AddSnapshots(root, environment, environment.services[..i])
    {
      var service := environment.services[i];
      assert environment.services[..i + 1][..i] == environment.services[..i];
      var serviceId := environment.id + ":" + service;
      nodes := nodes + [Node(serviceId, "service")];
      edges := edges + [Edge(environment.id, serviceId, "contains")];
      ghost var start := Graph(nodes, edges);
      for j := 0 to |environment.resources|
        invariant Graph(nodes, edges) == AddResources(start, environment.id, service, environment.resources[..j])
      {
        var resource := environment.resources[j];
        assert environment.resources[..j + 1][..j] == environment.resources[..j];
        if resource.service != service {
          continue;
        }
        var resourceId := serviceId + ":" + resource.id;
        nodes := nodes + [Node(resourceId, resource.kind)];
        edges := edges + [Edge(serviceId, resourceId, "manages")];
      }
      assert environment.resources[..|environment.resources|] == environment.resources;
    }
    assert environment.services[..|environment.services|] == environment.services;
    ghost var start := Graph(nodes, edges);
    for k := 0 to |Integrations|
      invariant Graph(nodes, edges) == AddIntegrations(start, environment, Integrations[..k])
    {
      var spec := Integrations[k];
      assert Integrations[..k + 1][..k] == Integrations[..k];
      if spec.1 * environment.declared != {} {
        var nodeId := environment.id + ":integration:" + spec.0;
        nodes := nodes + [Node(nodeId, spec.0)];
        edges := edges + [Edge(environment.id, nodeId, "integrates")];
      }
    }
    assert Integrations[..|Integrations|] == Integrations;
    g := Graph(nodes, edges);
  }

  /** What the tables guarantee, and services without a colon: the connector only stores the names of
      its five services. */
  predicate ValidEnvironment(environment: Environment)
  {
    IsUuid(environment.id) && Distinct(environment.services) && (forall s :: s in environment.services ==> ':' !in s) &&
    (forall r :: r in environment.resources ==> IsUuid(r.id)) &&
    forall i, j :: 0 <= i < j < |environment.resources| ==> environment.resources[i].id != environment.resources[j].id
  }

  lemma ServiceApart(e: string, s: string, other: string, r: string)
    requires IsUuid(e) && ':' !in s
    ensures ServiceId(e, s) != e && ServiceId(e, s) != ResourceId(e, other, r) && ServiceId(e, s) != IntegrationId(e, r)
    ensures ServiceId(e, s) == ServiceId(e, other) ==> s == other
  {
    HasColon(e, s);
    HasColon(other, r);
    HasColon("integration", r);
    SplitAtColon(e, s, e, other);
    assert ResourceId(e, other, r) == e + ":" + (other + ":" + r);
    SplitAtColon(e, s, e, other + ":" + r);
    assert IntegrationId(e, r) == e + ":" + ("integration" + ":" + r);
    SplitAtColon(e, s, e, "integration" + ":" + r);
  }

  lemma ResourceApart(e: string, s: string, r: string, otherService: string, other: string)
    requires IsUuid(e) && ':' !in s && ':' !in otherService
    ensures ResourceId(e, s, r) != e
    ensures ResourceId(e, s, r) == ResourceId(e, otherService, other) ==> s == otherService && r == other
    ensures ResourceId(e, s, r) == IntegrationId(e, other) ==> r == other
  {
    assert ResourceId(e, s, r) == e + ":" + (s + ":" + r);
    assert ResourceId(e, otherService, other) == e + ":" + (otherService + ":" + other);
    assert IntegrationId(e, other) == e + ":" + ("integration" + ":" + other);
    HasColon(e, s + ":" + r);
    SplitAtColon(e, s + ":" + r, e, otherService + ":" + other);
    SplitAtColon(s, r, otherService, other);
    SplitAtColon(e, s + ":" + r, e, "integration" + ":" + other);
    assert ':' !in "integration";
    SplitAtColon(s, r, "integration", other);
  }

  lemma IntegrationApart(e: string, kind: string, other: string)
    requires IsUuid(e)
    ensures IntegrationId(e, kind) != e
    ensures IntegrationId(e, kind) == IntegrationId(e, other) ==> kind == other
  {
    assert IntegrationId(e, kind) == e + ":" + ("integration:" + kind);
    assert IntegrationId(e, other) == e + ":" + ("integration:" + other);
    HasColon(e, "integration:" + kind);
    SplitAtColon(e, "integration:" + kind, e, "integration:" + other);
    assert ("integration:" + kind)[|"integration:"|..] == kind && ("integration:" + other)[|"integration:"|..] == other;
  }

  predicate OfResources(id: string, environment: string, service: string, resources: seq<Resource>)
  {
    exists r :: r in resources && r.service == service && id == ResourceId(environment, service, r.id)
  }

  predicate OfSnapshots(id: string, environment: Environment, services: seq<string>)
  {
    exists s :: s in services &&
      (id == ServiceId(environment.id, s) || OfResources(id, environment.id, s, environment.resources))
  }

  predicate OfIntegrations(id: string, environment: Environment, specs: seq<(string, set<string>)>)
  {
    exists spec :: spec in specs && spec.1 * environment.declared != {} && id == IntegrationId(environment.id, spec.0)
  }

  lemma {:induction false} AddResourcesTree(g: Graph, environment: string, service: string, resources: seq<Resource>)
    requires TreeGraph(g) && HasNode(g.nodes, ServiceId(environment, service)) && IsUuid(environment) && ':' !in service
    requires forall r :: r in resources ==> !HasNode(g.nodes, ResourceId(environment, service, r.id))
    requires forall i, j :: 0 <= i < j < |resources| ==> resources[i].id != resources[j].id
    ensures TreeGraph(AddResources(g, environment, service, resources))
    ensures forall id :: HasNode(AddResources(g, environment, service, resources).nodes, id) <==>
      HasNode(g.nodes, id) || OfResources(id, environment, service, resources)
  {
    if resources != [] {
      var front, last := resources[..|resources| - 1], resources[|resources| - 1];
      assert resources == front + [last];
      AddResourcesTree(g, environment, service, front);
      var h := AddResources(g, environment, service, front);
      forall r | r in front
        ensures ResourceId(environment, service, r.id) != ResourceId(environment, service, last.id)
      {
        ResourceApart(environment, service, r.id, service, last.id);
      }
      forall id ensures OfResources(id, environment, service, resources) <==>
        OfResources(id, environment, service, front) ||
        (last.service == service && id == ResourceId(environment, service, last.id)) {
      }
      if last.service == service {
        var node := Node(ResourceId(environment, service, last.id), last.kind);
        GrowTree(h, ServiceId(environment, service), node, "manages");
        GrowHas(h, ServiceId(environment, service), node, "manages");
      }
    }
  }

  lemma ApartFromSnapshots(environment: Environment, services: seq<string>, service: string, id: string)
    requires ValidEnvironment(environment) && (forall s :: s in services ==> ':' !in s) && ':' !in service &&
      service !in services
    requires id == environment.id || OfSnapshots(id, environment, services)
    ensures id != ServiceId(environment.id, service)
    ensures forall r :: r in environment.resources ==> id != ResourceId(environment.id, service, r.id)
  {
    ServiceApart(environment.id, service, service, "");
    forall r | r in environment.resources ensures id != ResourceId(environment.id, service, r.id) {
      ResourceApart(environment.id, service, r.id, service, r.id);
      if s :| s in services && id == ServiceId(environment.id, s) { ServiceApart(environment.id, s, service, r.id); }
      if s, q :| s in services && q in environment.resources && id == ResourceId(environment.id, s, q.id) {
        ResourceApart(environment.id, s, q.id, service, r.id);
      }
    }
    if s :| s in services && id == ServiceId(environment.id, s) { ServiceApart(environment.id, service, s, ""); }
    if s, q :| s in services && q in environment.resources && id == ResourceId(environment.id, s, q.id) {
      ServiceApart(environment.id, service, s, q.id);
    }
  }

  lemma {:induction false} AddSnapshotsTree(environment: Environment, services: seq<string>)
    requires ValidEnvironment(environment) && Distinct(services) && forall s :: s in services ==> ':' !in s
    ensures var g := AddSnapshots(Graph([Node(environment.id, "environment")], []), environment, services);
      TreeGraph(g) && forall id :: HasNode(g.nodes, id) <==>
        id == environment.id || OfSnapshots(id, environment, services)
  {
    var root := Graph([Node(environment.id, "environment")], []);
    if services == [] {
      assert root.nodes[0].id == environment.id;
    } else {
      var front, last := services[..|services| - 1], services[|services| - 1];
      assert services == front + [last];
      AddSnapshotsTree(environment, front);
      var h := AddSnapshots(root, environment, front);
      forall id | HasNode(h.nodes, id)
        ensures id != ServiceId(environment.id, last)
        ensures forall r :: r in environment.resources ==> id != ResourceId(environment.id, last, r.id)
      {
        ApartFromSnapshots(environment, front, last, id);
      }
      var node := Node(ServiceId(environment.id, last), "service");
      GrowTree(h, environment.id, node, "contains");
      GrowHas(h, environment.id, node, "contains");
      forall r | r in environment.resources
        ensures ServiceId(environment.id, last) != ResourceId(environment.id, last, r.id)
      {
        ServiceApart(environment.id, last, last, r.id);
      }
      AddResourcesTree(Grow(h, environment.id, node, "contains"), environment.id, last, environment.resources);
      forall id ensures OfSnapshots(id, environment, services) <==>
        OfSnapshots(id, environment, front) || id == ServiceId(environment.id, last) ||
        OfResources(id, environment.id, last, environment.resources) {
      }
    }
  }

  lemma ApartFromIntegration(environment: Environment, kind: string, id: string)
    requires ValidEnvironment(environment) && |kind| < 36
    requires id == environment.id || OfSnapshots(id, environment, environment.services)
    ensures id != IntegrationId(environment.id, kind)
  {
    IntegrationApart(environment.id, kind, kind);
    if s :| s in environment.services && id == ServiceId(environment.id, s) {
      ServiceApart(environment.id, s, s, kind);
    }
    if s, q :| s in environment.services && q in environment.resources && id == ResourceId(environment.id, s, q.id) {
      ResourceApart(environment.id, s, q.id, s, kind);
    }
  }

  lemma {:induction false} AddIntegrationsTree(g: Graph, environment: Environment, specs: seq<(string, set<string>)>)
    requires ValidEnvironment(environment) && TreeGraph(g)
    requires forall id :: HasNode(g.nodes, id) <==>
      id == environment.id || OfSnapshots(id, environment, environment.services)
    requires forall i :: 0 <= i < |specs| ==> |specs[i].0| < 36
    requires forall i, j :: 0 <= i < j < |specs| ==> specs[i].0 != specs[j].0
    ensures TreeGraph(AddIntegrations(g, environment, specs))
    ensures forall id :: HasNode(AddIntegrations(g, environment, specs).nodes, id) <==>
      id == environment.id || OfSnapshots(id, environment, environment.services) ||
      OfIntegrations(id, environment, specs)
  {
    if specs != [] {
      var front, last := specs[..|specs| - 1], specs[|specs| - 1];
      assert specs == front + [last];
      AddIntegrationsTree(g, environment, front);
      var h := AddIntegrations(g, environment, front);
      forall id | HasNode(h.nodes, id) ensures id != IntegrationId(environment.id, last.0) {
        if OfIntegrations(id, environment, front) {
          var spec :| spec in front && id == IntegrationId(environment.id, spec.0);
          IntegrationApart(environment.id, spec.0, last.0);
        } else {
          ApartFromIntegration(environment, last.0, id);
        }
      }
      forall id ensures OfIntegrations(id, environment, specs) <==>
        OfIntegrations(id, environment, front) ||
        (last.1 * environment.declared != {} && id == IntegrationId(environment.id, last.0)) {
      }
      if last.1 * environment.declared != {} {
        var node := Node(IntegrationId(environment.id, last.0), last.0);
        GrowTree(h, environment.id, node, "integrates");
        GrowHas(h, environment.id, node, "integrates");
      }
    }
  }

  /** Main result: the graph of one environment is a tree over the environment, its services, their
      resources and the declared integrations. */
  lemma EnvironmentGraphIsTree(environment: Environment)
    requires ValidEnvironment(environment)
    ensures TreeGraph(EnvironmentGraph(environment))
    ensures forall id :: HasNode(EnvironmentGraph(environment).nodes, id) <==>
      id == environment.id || OfSnapshots(id, environment, environment.services) ||
      OfIntegrations(id, environment, Integrations)
  {
    AddSnapshotsTree(environment, environment.services);
    var g := AddSnapshots(Graph([Node(environment.id, "environment")], []), environment, environment.services);
    AddIntegrationsTree(g, environment, Integrations);
  }

  /** A colon in a service name can make two nodes share an id. */
  lemma ColonMakesIdsCollide(environment: string, resource: string)
    ensures ServiceId(environment, "hub:" + resource) == ResourceId(environment, "hub", resource)
  {
  }

  // ----- What hangs where -----

  predicate HasEdge(g: Graph, edge: Edge)
  {
    exists k :: 0 <= k < |g.edges| && g.edges[k] == edge
  }

  predicate HasTypedNode(g: Graph, node: Node)
  {
    exists i :: 0 <= i < |g.nodes| && g.nodes[i] == node
  }

  /** The larger graph keeps every node and edge of the smaller one. */
  ghost predicate Extends(h: Graph, g: Graph)
  {
    |g.nodes| <= |h.nodes| && g.nodes == h.nodes[..|g.nodes|] && |g.edges| <= |h.edges| &&
    g.edges == h.edges[..|g.edges|]
  }

  lemma ExtendsKeeps(h: Graph, g: Graph, edge: Edge, node: Node)
    requires Extends(h, g)
    ensures HasEdge(g, edge) ==> HasEdge(h, edge)
    ensures HasTypedNode(g, node) ==> HasTypedNode(h, node)
  {
    if k :| 0 <= k < |g.edges| && g.edges[k] == edge { assert h.edges[k] == edge; }
    if i :| 0 <= i < |g.nodes| && g.nodes[i] == node { assert h.nodes[i] == node; }
  }

  lemma GrowAdds(g: Graph, parent: string, node: Node, relationship: string)
    ensures var h := Grow(g, parent, node, relationship);
      Extends(h, g) && HasEdge(h, Edge(parent, node.id, relationship)) && HasTypedNode(h, node)
  {
    var h := Grow(g, parent, node, relationship);
    assert h.nodes[..|g.nodes|] == g.nodes && h.edges[..|g.edges|] == g.edges;
    assert h.nodes[|g.nodes|] == node && h.edges[|g.edges|] == Edge(parent, node.id, relationship);
  }

  lemma ExtendsTransitive(a: Graph, b: Graph, c: Graph)
    requires Extends(b, a) && Extends(c, b)
    ensures Extends(c, a)
  {
  }

  lemma {:induction false} ServicesAdded(g: Graph, environment: string, services: seq<string>)
    ensures Extends(AddServices(g, environment, services), g)
    ensures forall s :: s in services ==>
      HasEdge(AddServices(g, environment, services), Edge(environment, environment + ":" + s, "contains")) &&
      HasTypedNode(AddServices(g, environment, services), Node(environment + ":" + s, "service"))
  {
    if services == [] {
      assert g.nodes[..|g.nodes|] == g.nodes && g.edges[..|g.edges|] == g.edges;
    } else {
      var front, last := services[..|services| - 1], services[|services| - 1];
      var h := AddServices(g, environment, front);
      ServicesAdded(g, environment, front);
      GrowAdds(h, environment, Node(ServiceId(environment, last), "service"), "contains");
      ExtendsTransitive(g, h, AddServices(g, environment, services));
      forall s | s in services
        ensures HasEdge(AddServices(g, environment, services), Edge(environment, environment + ":" + s, "contains"))
        ensures HasTypedNode(AddServices(g, environment, services), Node(environment + ":" + s, "service"))
      {
        if s != last {
          assert s in front;
          ExtendsKeeps(AddServices(g, environment, services), h, Edge(environment, environment + ":" + s, "contains"),
                       Node(environment + ":" + s, "service"));
        }
      }
    }
  }

  /** What the fleet graph shows of one environment. */
  ghost predicate ShowsEnvironment(g: Graph, e: Environment)
  {
    HasEdge(g, Edge("aam-hub", e.id, "manages")) && HasTypedNode(g, Node(e.id, "environment")) &&
    forall s :: s in e.services ==>
      HasEdge(g, Edge(e.id, e.id + ":" + s, "contains")) && HasTypedNode(g, Node(e.id + ":" + s, "service"))
  }

  lemma ShownStays(h: Graph, g: Graph, e: Environment)
    requires Extends(h, g) && ShowsEnvironment(g, e)
    ensures ShowsEnvironment(h, e)
  {
    ExtendsKeeps(h, g, Edge("aam-hub", e.id, "manages"), Node(e.id, "environment"));
    forall s | s in e.services
      ensures HasEdge(h, Edge(e.id, e.id + ":" + s, "contains")) && HasTypedNode(h, Node(e.id + ":" + s, "service"))
    {
      ExtendsKeeps(h, g, Edge(e.id, e.id + ":" + s, "contains"), Node(e.id + ":" + s, "service"));
    }
  }

  /** Main result: in the fleet graph every environment hangs below the hub and every service below its
      own environment; being a tree, it has no other edge to them. */
  lemma {:induction false} FleetParents(environments: seq<Environment>)
    ensures forall e :: e in environments ==> ShowsEnvironment(FleetGraph(environments), e)
  {
    if environments != [] {
      var front, last := environments[..|environments| - 1], environments[|environments| - 1];
      var g := FleetGraph(front);
      var h := Grow(g, HubId, Node(last.id, "environment"), "manages");
      FleetParents(front);
      GrowAdds(g, HubId, Node(last.id, "environment"), "manages");
      ServicesAdded(h, last.id, last.services);
      ExtendsTransitive(g, h, FleetGraph(environments));
      ExtendsKeeps(FleetGraph(environments), h, Edge("aam-hub", last.id, "manages"), Node(last.id, "environment"));
      forall e | e in environments ensures ShowsEnvironment(FleetGraph(environments), e) {
        if e in front { ShownStays(FleetGraph(environments), g, e); }
      }
    }
  }

  lemma {:induction false} ResourcesAdded(g: Graph, environment: string, service: string, resources: seq<Resource>)
    ensures Extends(AddResources(g, environment, service, resources), g)
    ensures forall r :: r in resources && r.service == service ==>
      ShowsResource(AddResources(g, environment, service, resources), environment, r)
  {
    if resources == [] {
      assert g.nodes[..|g.nodes|] == g.nodes && g.edges[..|g.edges|] == g.edges;
    } else {
      var front, last := resources[..|resources| - 1], resources[|resources| - 1];
      var h := AddResources(g, environment, service, front);
      var all := AddResources(g, environment, service, resources);
      ResourcesAdded(g, environment, service, front);
      GrowAdds(h, ServiceId(environment, service), Node(ResourceId(environment, service, last.id), last.kind),
               "manages");
      assert h.nodes[..|h.nodes|] == h.nodes && h.edges[..|h.edges|] == h.edges;
      ExtendsTransitive(g, h, all);
      forall r | r in resources && r.service == service ensures ShowsResource(all, environment, r) {
        if r != last { ResourceStays(all, h, environment, r); }
      }
    }
  }

  predicate ShowsResource(g: Graph, environment: string, r: Resource)
  {
    HasEdge(g, Edge(environment + ":" + r.service, environment + ":" + r.service + ":" + r.id, "manages")) &&
    HasTypedNode(g, Node(environment + ":" + r.service + ":" + r.id, r.kind))
  }

  lemma ResourceStays(h: Graph, g: Graph, environment: string, r: Resource)
    requires Extends(h, g) && ShowsResource(g, environment, r)
    ensures ShowsResource(h, environment, r)
  {
    ExtendsKeeps(h, g, Edge(environment + ":" + r.service, environment + ":" + r.service + ":" + r.id, "manages"),
                 Node(environment + ":" + r.service + ":" + r.id, r.kind));
  }

  predicate ShowsService(g: Graph, environment: string, service: string)
  {
    HasEdge(g, Edge(environment, environment + ":" + service, "contains")) &&
    HasTypedNode(g, Node(environment + ":" + service, "service"))
  }

  lemma ServiceStays(h: Graph, g: Graph, environment: string, service: string)
    requires Extends(h, g) && ShowsService(g, environment, service)
    ensures ShowsService(h, environment, service)
  {
    ExtendsKeeps(h, g, Edge(environment, environment + ":" + service, "contains"),
                 Node(environment + ":" + service, "service"));
  }

  lemma {:induction false} SnapshotsAdded(g: Graph, environment: Environment, services: seq<string>)
    ensures Extends(AddSnapshots(g, environment, services), g)
    ensures forall s :: s in services ==> ShowsService(AddSnapshots(g, environment, services), environment.id, s)
    ensures forall r :: r in environment.resources && r.service in services ==>
      ShowsResource(AddSnapshots(g, environment, services), environment.id, r)
  {
    if services == [] {
      assert g.nodes[..|g.nodes|] == g.nodes && g.edges[..|g.edges|] == g.edges;
    } else {
      var front, last := services[..|services| - 1], services[|services| - 1];
      var h := AddSnapshots(g, environment, front);
      var grown := Grow(h, environment.id, Node(ServiceId(environment.id, last), "service"), "contains");
      var all := AddSnapshots(g, environment, services);
      SnapshotsAdded(g, environment, front);
      GrowAdds(h, environment.id, Node(ServiceId(environment.id, last), "service"), "contains");
      ResourcesAdded(grown, environment.id, last, environment.resources);
      ExtendsTransitive(h, grown, all);
      ExtendsTransitive(g, h, all);
      forall s | s in services ensures ShowsService(all, environment.id, s) {
        if s in front { ServiceStays(all, h, environment.id, s); } else { ServiceStays(all, grown, environment.id, s); }
      }
      forall r | r in environment.resources && r.service in services ensures ShowsResource(all, environment.id, r) {
        if r.service in front { ResourceStays(all, h, environment.id, r); }
      }
    }
  }

  predicate ShowsIntegration(g: Graph, environment: string, kind: string)
  {
    HasEdge(g, Edge(environment, environment + ":integration:" + kind, "integrates")) &&
    HasTypedNode(g, Node(environment + ":integration:" + kind, kind))
  }

  lemma {:induction false} IntegrationsAdded(g: Graph, environment: Environment, specs: seq<(string, set<string>)>)
    ensures Extends(AddIntegrations(g, environment, specs), g)
    ensures forall i, c :: 0 <= i < |specs| && c in specs[i].1 && c in environment.declared ==>
      ShowsIntegration(AddIntegrations(g, environment, specs), environment.id, specs[i].0)
  {
    if specs == [] {
      assert g.nodes[..|g.nodes|] == g.nodes && g.edges[..|g.edges|] == g.edges;
    } else {
      var front, last := specs[..|specs| - 1], specs[|specs| - 1];
      var h := AddIntegrations(g, environment, front);
      var all := AddIntegrations(g, environment, specs);
      IntegrationsAdded(g, environment, front);
      GrowAdds(h, environment.id, Node(IntegrationId(environment.id, last.0), last.0), "integrates");
      assert h.nodes[..|h.nodes|] == h.nodes && h.edges[..|h.edges|] == h.edges;
      ExtendsTransitive(g, h, all);
      forall i, c | 0 <= i < |specs| && c in specs[i].1 && c in environment.declared
        ensures ShowsIntegration(all, environment.id, specs[i].0)
      {
        if i == |specs| - 1 {
          assert c in last.1 * environment.declared;
        } else {
          assert specs[i] == front[i];
          ExtendsKeeps(all, h, Edge(environment.id, environment.id + ":integration:" + front[i].0, "integrates"),
                       Node(environment.id + ":integration:" + front[i].0, front[i].0));
        }
      }
    }
  }

  /** The capability that declares a kind of integration; observability has a second one. */
  const DeclaredBy: map<string, string> :=
    map["management" := "management_mode", "runner" := "runner_enabled", "builder" := "builder_pipeline_enabled",
        "receptor" := "receptor_mesh_enabled", "content_trust" := "content_signing_enabled",
        "observability" := "metrics_enabled", "developer_portal" := "backstage_entity_ref",
        "mcp" := "mcp_endpoint", "ai_assistant" := "ai_assistant_enabled"]

  /** Every kind of integration appears as soon as its capability is declared. */
  lemma IntegrationsByCapability(environment: Environment, kind: string)
    requires kind in DeclaredBy
    requires DeclaredBy[kind] in environment.declared ||
      (kind == "observability" && "automation_reports_enabled" in environment.declared)
    ensures ShowsIntegration(EnvironmentGraph(environment), environment.id, kind)
  {
    EnvironmentParents(environment);
    var kinds := ["management", "runner", "builder", "receptor", "content_trust", "observability",
                  "developer_portal", "mcp", "ai_assistant"];
    assert DeclaredBy.Keys == set k | k in kinds;
    var i :| 0 <= i < |kinds| && kinds[i] == kind;
    assert Integrations[i].0 == kinds[i] && DeclaredBy[kinds[i]] in Integrations[i].1;
    assert "automation_reports_enabled" in Integrations[5].1;
  }

  /** Main result: in the graph of an environment every service hangs below the environment, every
      resource of a reported service below that service, and every declared integration below the
      environment, each with its kind. */
  lemma EnvironmentParents(environment: Environment)
    ensures forall s :: s in environment.services ==> ShowsService(EnvironmentGraph(environment), environment.id, s)
    ensures forall r :: r in environment.resources && r.service in environment.services ==>
      ShowsResource(EnvironmentGraph(environment), environment.id, r)
    ensures forall i, c :: 0 <= i < |Integrations| && c in Integrations[i].1 && c in environment.declared ==>
      ShowsIntegration(EnvironmentGraph(environment), environment.id, Integrations[i].0)
  {
    var root := Graph([Node(environment.id, "environment")], []);
    var g := AddSnapshots(root, environment, environment.services);
    SnapshotsAdded(root, environment, environment.services);
    IntegrationsAdded(g, environment, Integrations);
    forall s | s in environment.services ensures ShowsService(EnvironmentGraph(environment), environment.id, s) {
      ServiceStays(EnvironmentGraph(environment), g, environment.id, s);
    }
    forall r | r in environment.resources && r.service in environment.services
      ensures ShowsResource(EnvironmentGraph(environment), environment.id, r)
    {
      ResourceStays(EnvironmentGraph(environment), g, environment.id, r);
    }
  }
}
