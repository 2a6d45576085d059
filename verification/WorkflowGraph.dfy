/**
  packages/runtime-core/src/workflow-graph.ts: validation of a workflow definition, the search behind
  approval ordering, and the wave of ready nodes.
 */
module WorkflowGraph {
  import opened Wrappers
  import opened Text
  import opened Counting
  import opened Protocol
  import opened Layering

  // ----- search for a dependency

  /** Everything one step before `n` or before a visited node has been visited or is waiting its turn. */
  ghost predicate Covers(g: Graph, n: NodeId, visited: set<NodeId>, pending: seq<NodeId>)
    requires n in g && visited <= g.Keys
  {
    (forall d :: d in g[n] ==> d in visited || d in pending)
    && forall v, d :: v in visited && d in g[v] ==> d in visited || d in pending
  }

  ghost predicate AllPrecede(g: Graph, found: seq<NodeId>, n: NodeId)
  {
    forall x :: x in found ==> x in g && Precedes(g, x, n)
  }

  lemma StepsPrecede(g: Graph, x: NodeId, n: NodeId)
    requires Closed(g) && x in g && n in g
    requires Precedes(g, x, n)
    ensures AllPrecede(g, g[x], n)
  {
    var p :| ChainTo(g, p, n) && |p| >= 2 && p[0] == x;
    forall d | d in g[x] ensures d in g && Precedes(g, d, n) {
      ExtendChain(g, d, p);
      assert ChainTo(g, [d] + p, n);
    }
  }

  lemma DirectPrecede(g: Graph, n: NodeId)
    requires Closed(g) && n in g
    ensures AllPrecede(g, g[n], n)
  {
    forall d | d in g[n] ensures d in g && Precedes(g, d, n) {
      assert Chain(g, [n]);
      ExtendChain(g, d, [n]);
      assert ChainTo(g, [d] + [n], n);
    }
  }

  /** When nothing is pending, every chain that ends in `n` starts in a visited node. */
  lemma {:induction false} ChainIsVisited(g: Graph, n: NodeId, visited: set<NodeId>, p: seq<NodeId>, i: nat)
    requires n in g && visited <= g.Keys && Covers(g, n, visited, [])
    requires ChainTo(g, p, n) && i < |p| - 1
    ensures p[i] in visited
    decreases |p| - i
  {
    if i + 1 < |p| - 1 {
      ChainIsVisited(g, n, visited, p, i + 1);
    }
    assert p[(i + 1) - 1] in g[p[i + 1]];
    var none: seq<NodeId> := [];
    assert p[i] !in none;
  }

  method HasDependency(g: Graph, nodeId: NodeId, dependencyId: NodeId) returns (found: bool)
    requires Closed(g) && nodeId in g
    ensures found <==> Precedes(g, dependencyId, nodeId)
  {
    var pending := g[nodeId];
    var visited: set<NodeId> := {};
    DirectPrecede(g, nodeId);
    while |pending| > 0
      invariant AllPrecede(g, pending, nodeId) && visited <= g.Keys && dependencyId !in visited
      invariant Covers(g, nodeId, visited, pending)
      invariant forall v :: v in visited ==> Precedes(g, v, nodeId)
      decreases g.Keys - visited, |pending|
    {
      var current := pending[|pending| - 1];
      var rest := pending[..|pending| - 1];
      assert pending == rest + [current] && current in pending;
      if current == dependencyId {
        return true;
      }
      if current in visited {
        pending := rest;
      } else {
        StepsPrecede(g, current, nodeId);
        visited, pending := visited + {current}, rest + g[current];
      }
    }
    if Precedes(g, dependencyId, nodeId) {
      var p :| ChainTo(g, p, nodeId) && |p| >= 2 && p[0] == dependencyId;
      ChainIsVisited(g, nodeId, visited, p, 0);
    }
    return false;
  }

  // ----- validation of a definition

  datatype GraphError =
    | NodeLimitExceeded
    | NodeIdDuplicate
    | SelfDependency(id: NodeId)
    | DependencyMissing(id: NodeId, dependency: NodeId)
    | ApprovalTargetMissing(id: NodeId)
    | CompensationTargetMissing(id: NodeId)
    | CompensationTargetNotOperation(id: NodeId)
    | ConditionSourceMissing(id: NodeId)
    | ConditionSourceNotOperation(id: NodeId)
    | DependencyCycle
    | ApprovalMustPrecedeTarget(id: NodeId)

  function Ids(nodes: Definition): seq<NodeId>
  {
    seq(|nodes|, i requires 0 <= i < |nodes| => nodes[i].id)
  }

  ghost predicate DistinctIds(nodes: Definition)
  {
    Distinct(Ids(nodes))
  }

  /** `new Map(nodes.map((node) => [node.id, node]))` */
  function Table(nodes: Definition): map<NodeId, Node>
  {
    if nodes == [] then map[] else Table(nodes[..|nodes| - 1])[nodes[|nodes| - 1].id := nodes[|nodes| - 1]]
  }

  lemma {:induction false} TableKeys(nodes: Definition)
    ensures forall n :: n in Table(nodes) <==> n in Ids(nodes)
  {
    if nodes != [] {
      var init := nodes[..|nodes| - 1];
      TableKeys(init);
      assert Ids(nodes) == Ids(init) + [nodes[|nodes| - 1].id];
    }
  }

  lemma {:induction false} TableHolds(nodes: Definition, i: nat)
    requires DistinctIds(nodes) && i < |nodes|
    ensures nodes[i].id in Table(nodes) && Table(nodes)[nodes[i].id] == nodes[i]
  {
    var init := nodes[..|nodes| - 1];
    assert Ids(nodes) == Ids(init) + [nodes[|nodes| - 1].id];
    assert Distinct(Ids(init)) by {
      forall j, k | 0 <= j < k < |init| ensures Ids(init)[j] != Ids(init)[k] {
        assert Ids(nodes)[j] != Ids(nodes)[k];
      }
    }
    if i < |init| {
      TableHolds(init, i);
      assert Ids(nodes)[i] != Ids(nodes)[|nodes| - 1];
    }
  }

  function GraphOf(table: map<NodeId, Node>): Graph
  {
    map n | n in table :: table[n].dependsOn
  }

  function CheckDependencies(table: map<NodeId, Node>, id: NodeId, dependsOn: seq<NodeId>): (e: Option<GraphError>)
    ensures e.Some? ==> e.value.SelfDependency? || e.value.DependencyMissing?
  {
    if dependsOn == [] then None
    else if dependsOn[0] == id then Some(SelfDependency(id))
    else if dependsOn[0] !in table then Some(DependencyMissing(id, dependsOn[0]))
    else CheckDependencies(table, id, dependsOn[1..])
  }

  lemma {:induction false} DependenciesPass(table: map<NodeId, Node>, id: NodeId, dependsOn: seq<NodeId>)
    ensures CheckDependencies(table, id, dependsOn).None? <==> forall d :: d in dependsOn ==> d != id && d in table
  {
    if dependsOn != [] {
      DependenciesPass(table, id, dependsOn[1..]);
      assert forall d :: d in dependsOn <==> d == dependsOn[0] || d in dependsOn[1..];
    }
  }

  /** The checks on one node, in the order of the source. */
  function CheckNode(table: map<NodeId, Node>, node: Node): (e: Option<GraphError>)
    ensures e != Some(DependencyCycle)
  {
    var dependencies := CheckDependencies(table, node.id, node.dependsOn);
    if dependencies.Some? then dependencies
    else match node.kind
      case Approval(target) => if target !in table then Some(ApprovalTargetMissing(node.id)) else None
      case Compensation(target) =>
        if target !in table then Some(CompensationTargetMissing(node.id))
        else if !table[target].kind.Operation? then Some(CompensationTargetNotOperation(node.id))
        else None
      case Condition(source) =>
        if source !in table then Some(ConditionSourceMissing(node.id))
        else if !table[source].kind.Operation? then Some(ConditionSourceNotOperation(node.id))
        else None
      case _ => None
  }

  ghost predicate NodesPass(nodes: Definition)
  {
    forall i :: 0 <= i < |nodes| ==> CheckNode(Table(nodes), nodes[i]).None?
  }

  /** Node `i` is the first whose checks fail, and `e` is its failure. */
  ghost predicate FirstFailure(nodes: Definition, i: int, e: GraphError)
  {
    0 <= i < |nodes| && CheckNode(Table(nodes), nodes[i]) == Some(e)
    && forall j :: 0 <= j < i ==> CheckNode(Table(nodes), nodes[j]).None?
  }

  ghost predicate ApprovalInPlace(g: Graph, node: Node)
  {
    node.kind.Approval? ==> Precedes(g, node.id, node.kind.forNode)
  }

  /** Each node stands in exactly one layer, the one numbered by its longest dependency chain. */
  ghost predicate LayersAreDepths(g: Graph, layers: seq<seq<NodeId>>)
  {
    (forall k :: 0 <= k < |layers| ==> layers[k] != [] && Distinct(layers[k]) && Sorted(layers[k]))
    && EveryNodeHasLayer(g, layers) && EveryLayerIsDepth(g, layers)
  }

  ghost predicate EveryNodeHasLayer(g: Graph, layers: seq<seq<NodeId>>)
  {
    forall n :: n in g ==> exists k :: 0 <= k < |layers| && n in layers[k]
  }

  ghost predicate EveryLayerIsDepth(g: Graph, layers: seq<seq<NodeId>>)
  {
    forall k, n :: 0 <= k < |layers| && n in layers[k] ==> n in g && LongestChain(g, n, k)
  }

  lemma DepthIsUnique(g: Graph, n: NodeId, j: nat, k: nat)
    requires LongestChain(g, n, j) && LongestChain(g, n, k)
    ensures j == k
  {
    var p :| ChainTo(g, p, n) && |p| == j + 1;
    var q :| ChainTo(g, q, n) && |q| == k + 1;
  }

  lemma LayerIsDepth(g: Graph, level: map<NodeId, nat>, layers: seq<seq<NodeId>>, k: int, n: NodeId)
    requires level.Keys == g.Keys && Levelled(g, level) && LayersShow(layers, level)
    requires 0 <= k < |layers| && n in layers[k]
    ensures n in g && LongestChain(g, n, k)
  {
    LevelIsLongestChain(g, level, n);
  }

  lemma ShownLayersAreDepths(g: Graph, level: map<NodeId, nat>, layers: seq<seq<NodeId>>)
    requires level.Keys == g.Keys && Levelled(g, level) && LayersShow(layers, level)
    ensures LayersAreDepths(g, layers)
  {
    assert EveryLayerIsDepth(g, layers) by {
      forall k, n | 0 <= k < |layers| && n in layers[k] ensures n in g && LongestChain(g, n, k) {
        LayerIsDepth(g, level, layers, k, n);
      }
    }
    assert EveryNodeHasLayer(g, layers) by { LayersCover(g, level, layers); }
  }

  lemma LayersCover(g: Graph, level: map<NodeId, nat>, layers: seq<seq<NodeId>>)
    requires level.Keys == g.Keys && LayersShow(layers, level)
    ensures EveryNodeHasLayer(g, layers)
  {
    forall n | n in g ensures exists k :: 0 <= k < |layers| && n in layers[k] {
      assert n in level;
      assert n in layers[level[n]];
    }
  }

  /** The first loop: index the nodes, refusing a repeated id. */
  method IndexNodes(nodes: Definition) returns (table: Option<map<NodeId, Node>>)
    ensures table == if DistinctIds(nodes) then Some(Table(nodes)) else None
  {
    var entries: map<NodeId, Node> := map[];
    for i := 0 to |nodes|
      invariant DistinctIds(nodes[..i]) && entries == Table(nodes[..i])
    {
      NextNode(nodes, i);
      if nodes[i].id in entries {
        return None;
      }
      entries := entries[nodes[i].id := nodes[i]];
    }
    assert nodes[..|nodes|] == nodes;
    return Some(entries);
  }

  lemma NextNode(nodes: Definition, i: nat)
    requires i < |nodes| && DistinctIds(nodes[..i])
    ensures Table(nodes[..i + 1]) == Table(nodes[..i])[nodes[i].id := nodes[i]]
    ensures DistinctIds(nodes[..i + 1]) <==> nodes[i].id !in Table(nodes[..i])
    ensures nodes[i].id in Table(nodes[..i]) ==> !DistinctIds(nodes)
  {
    var prefix := nodes[..i];
    assert nodes[..i + 1] == prefix + [nodes[i]];
    assert (prefix + [nodes[i]])[..i] == prefix;
    TableKeys(prefix);
    var ids, more := Ids(prefix), Ids(nodes[..i + 1]);
    assert more == ids + [nodes[i].id];
    if nodes[i].id in ids {
      var j :| 0 <= j < i && ids[j] == nodes[i].id;
      assert more[j] == more[i] && Ids(nodes)[j] == Ids(nodes)[i];
    } else {
      forall j, k | 0 <= j < k < |more| ensures more[j] != more[k] {
        assert more[j] == ids[j];
        if k < i { assert more[k] == ids[k]; }
      }
    }
  }

  lemma TableEntry(nodes: Definition, n: NodeId) returns (i: nat)
    requires DistinctIds(nodes) && n in Table(nodes)
    ensures i < |nodes| && nodes[i].id == n && Table(nodes)[n] == nodes[i]
  {
    TableKeys(nodes);
    i :| 0 <= i < |nodes| && Ids(nodes)[i] == n;
    TableHolds(nodes, i);
  }

  lemma EntryIsClosed(nodes: Definition, n: NodeId, d: NodeId)
    requires DistinctIds(nodes) && NodesPass(nodes)
    requires n in Table(nodes) && d in Table(nodes)[n].dependsOn
    ensures d in Table(nodes)
  {
    var i := TableEntry(nodes, n);
    assert CheckNode(Table(nodes), nodes[i]).None?;
    DependenciesPass(Table(nodes), n, nodes[i].dependsOn);
  }

  lemma IndexedGraph(nodes: Definition)
    requires DistinctIds(nodes) && NodesPass(nodes)
    ensures Closed(GraphOf(Table(nodes))) && GraphOf(Table(nodes)).Keys == Members(Ids(nodes))
    ensures forall i :: 0 <= i < |nodes| && nodes[i].kind.Approval? ==> nodes[i].kind.forNode in Table(nodes)
  {
    TableKeys(nodes);
    var table := Table(nodes);
    forall n, d | n in table && d in table[n].dependsOn ensures d in table {
      EntryIsClosed(nodes, n, d);
    }
    forall i | 0 <= i < |nodes| && nodes[i].kind.Approval? ensures nodes[i].kind.forNode in table {
      assert CheckNode(table, nodes[i]).None?;
    }
  }

  /** The checks before the layering: the indexed nodes, or the first failure. */
  method CheckNodes(nodes: Definition) returns (r: Result<map<NodeId, Node>, GraphError>)
    ensures r.Ok? ==> r.value == Table(nodes) && |nodes| <= 500 && DistinctIds(nodes) && NodesPass(nodes)
    ensures r.Err? ==> RejectedEarly(nodes, r.error)
  {
    if |nodes| > 500 {
      return Err(NodeLimitExceeded);
    }
    var table := IndexNodes(nodes);
    if table.None? {
      return Err(NodeIdDuplicate);
    }
    for i := 0 to |nodes|
      invariant forall j :: 0 <= j < i ==> CheckNode(Table(nodes), nodes[j]).None?
    {
      var failure := CheckNode(table.value, nodes[i]);
      if failure.Some? {
        assert FirstFailure(nodes, i, failure.value);
        return Err(failure.value);
      }
    }
    return Ok(table.value);
  }

  /** Which error the checks before the layering report. */
  ghost predicate RejectedEarly(nodes: Definition, e: GraphError)
  {
    if |nodes| > 500 then e == NodeLimitExceeded
    else if !DistinctIds(nodes) then e == NodeIdDuplicate
    else exists i :: FirstFailure(nodes, i, e)
  }

  ghost predicate ApprovalsInPlace(nodes: Definition)
  {
    forall i :: 0 <= i < |nodes| ==> ApprovalInPlace(GraphOf(Table(nodes)), nodes[i])
  }

  /**
    `validateWorkflow`. A definition is accepted exactly when its nodes pass their checks, there is no
    dependency cycle and every approval precedes its target; then the layers are the dependency depths.
    A cycle is reported exactly when the nodes pass their checks and there is one.
   */
  method ValidateWorkflow(nodes: Definition) returns (r: Result<seq<seq<NodeId>>, GraphError>)
    ensures r.Ok? <==>
        |nodes| <= 500 && DistinctIds(nodes) && NodesPass(nodes) && Acyclic(GraphOf(Table(nodes))) && ApprovalsInPlace(nodes)
    ensures r.Ok? ==> LayersAreDepths(GraphOf(Table(nodes)), r.value)
    ensures r == Err(DependencyCycle) <==>
        |nodes| <= 500 && DistinctIds(nodes) && NodesPass(nodes) && !Acyclic(GraphOf(Table(nodes)))
    ensures !(|nodes| <= 500 && DistinctIds(nodes) && NodesPass(nodes)) ==> r.Err? && RejectedEarly(nodes, r.error)
  {
    var checked := CheckNodes(nodes);
    if checked.Err? {
      EarlyIsNotCycle(nodes, checked.error);
      return Err(checked.error);
    }
    var g := GraphOf(checked.value);
    IndexedGraph(nodes);
    var layers, processed := KahnLayers(Ids(nodes), g);
    if processed != |nodes| {
      return Err(DependencyCycle);
    }
    ghost var level: map<NodeId, nat> :| level.Keys == g.Keys && Levelled(g, level) && LayersShow(layers, level);
    ShownLayersAreDepths(g, level, layers);
    var misplaced := FindMisplaced(nodes, g);
    if misplaced.Some? {
      return Err(ApprovalMustPrecedeTarget(misplaced.value));
    }
    return Ok(layers);
  }

  method FindMisplaced(nodes: Definition, g: Graph) returns (id: Option<NodeId>)
    requires Closed(g) && forall i :: 0 <= i < |nodes| && nodes[i].kind.Approval? ==> nodes[i].kind.forNode in g
    ensures id.None? <==> forall i :: 0 <= i < |nodes| ==> ApprovalInPlace(g, nodes[i])
    ensures id.Some? ==> exists i :: 0 <= i < |nodes| && nodes[i].id == id.value && !ApprovalInPlace(g, nodes[i])
  {
    for i := 0 to |nodes|
      invariant forall j :: 0 <= j < i ==> ApprovalInPlace(g, nodes[j])
    {
      if nodes[i].kind.Approval? {
        var inPlace := HasDependency(g, nodes[i].kind.forNode, nodes[i].id);
        if !inPlace {
          assert !ApprovalInPlace(g, nodes[i]);
          return Some(nodes[i].id);
        }
      }
    }
    return None;
  }

  lemma EarlyIsNotCycle(nodes: Definition, e: GraphError)
    requires RejectedEarly(nodes, e)
    ensures e != DependencyCycle
    ensures |nodes| <= 500 && DistinctIds(nodes) ==> !NodesPass(nodes)
  {
  }

  // ----- the wave

  predicate DependenciesFinished(states: map<NodeId, NodeState>, dependsOn: seq<NodeId>)
  {
    forall d :: d in dependsOn ==> d in states && Finished(states[d].status)
  }

  predicate IsReady(states: map<NodeId, NodeState>, node: Node)
  {
    !node.kind.Compensation? && node.id in states && states[node.id].status.Pending?
    && DependenciesFinished(states, node.dependsOn)
  }

  /** `.filter(...).map((node) => node.id)` */
  function ReadyInOrder(nodes: Definition, states: map<NodeId, NodeState>): (ids: seq<NodeId>)
    ensures forall id :: id in ids ==> exists i :: 0 <= i < |nodes| && nodes[i].id == id && IsReady(states, nodes[i])
    ensures forall i :: 0 <= i < |nodes| && IsReady(states, nodes[i]) ==> nodes[i].id in ids
  {
    if nodes == [] then []
    else
      assert nodes == [nodes[0]] + nodes[1..];
      (if IsReady(states, nodes[0]) then [nodes[0].id] else []) + ReadyInOrder(nodes[1..], states)
  }

  lemma RestIsDistinct(nodes: Definition)
    requires nodes != [] && DistinctIds(nodes)
    ensures DistinctIds(nodes[1..])
    ensures forall i :: 0 <= i < |nodes[1..]| ==> nodes[1..][i].id != nodes[0].id
  {
    assert Ids(nodes)[1..] == Ids(nodes[1..]);
    forall i | 0 <= i < |nodes[1..]| ensures nodes[1..][i].id != nodes[0].id {
      assert Ids(nodes)[0] != Ids(nodes)[i + 1];
    }
  }

  /** No id comes twice: the first node's is not among those of the rest. */
  lemma {:induction false} ReadyOnce(nodes: Definition, states: map<NodeId, NodeState>)
    requires DistinctIds(nodes)
    ensures Distinct(ReadyInOrder(nodes, states))
  {
    if nodes != [] {
      RestIsDistinct(nodes);
      ReadyOnce(nodes[1..], states);
      var rest := ReadyInOrder(nodes[1..], states);
      assert nodes[0].id !in rest;
      ConsDistinct(nodes[0].id, rest);
      assert ReadyInOrder(nodes, states) == if IsReady(states, nodes[0]) then [nodes[0].id] + rest else [] + rest;
      assert [] + rest == rest;
    }
  }

  /**
    `readyNodeIds`: the ids of the ready nodes, each once if the definition has each once, sorted; so the
    order of the definition does not show.
   */
  function ReadyNodeIds(nodes: Definition, states: map<NodeId, NodeState>): (ids: seq<NodeId>)
    ensures forall id :: id in ids <==> exists i :: 0 <= i < |nodes| && nodes[i].id == id && IsReady(states, nodes[i])
    ensures Sorted(ids)
    ensures DistinctIds(nodes) ==> Distinct(ids)
  {
    SortMembers(ReadyInOrder(nodes, states));
    SortSorts(ReadyInOrder(nodes, states));
    SortKeepsDistinct(ReadyInOrder(nodes, states));
    assert DistinctIds(nodes) ==> Distinct(ReadyInOrder(nodes, states)) by {
      if DistinctIds(nodes) { ReadyOnce(nodes, states); }
    }
    Sort(ReadyInOrder(nodes, states))
  }
}
