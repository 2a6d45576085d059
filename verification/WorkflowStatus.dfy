/**
  What the statuses of a run and of its nodes say about each other: what an advance or a recovery derives,
  what halting and resuming give back, what a cancellation takes, and what the checks on a definition and
  one task of a node come to. Every status is written out where it matters.
 */
module WorkflowStatuses {
  import opened Wrappers
  import opened Text
  import opened Protocol
  import opened WorkflowEvents
  import opened WorkflowStores
  import opened WorkflowGraph
  import opened WorkflowDrafts
  import opened WorkflowControllers

  // ----- the status that is derived

  /** Some node that is no compensation has this status. */
  ghost predicate Stands(definition: Definition, nodes: map<NodeId, NodeState>, status: NodeStatus)
  {
    exists node :: node in definition && !node.kind.Compensation? && node.id in nodes && nodes[node.id].status == status
  }

  /** Every node that is no compensation is done, and each of its tasks has its certificate. */
  ghost predicate AllProven(definition: Definition, nodes: map<NodeId, NodeState>, certified: set<TaskId>)
  {
    forall node :: node in definition && !node.kind.Compensation? ==>
      node.id in nodes
      && nodes[node.id].status in {NodeStatus.VerifiedComplete, NodeStatus.Skipped, NodeStatus.Compensated}
      && forall t :: t in nodes[node.id].taskIds ==> t in certified
  }

  /** A failure outweighs a mutation to reconcile, that outweighs an approval, and that an answer; done is all done. */
  ghost predicate Weighs(definition: Definition, nodes: map<NodeId, NodeState>, certified: set<TaskId>, status: RunStatus)
  {
    var failed := Stands(definition, nodes, NodeStatus.Failed);
    var unclear := Stands(definition, nodes, NodeStatus.RecoveryRequired);
    var approval := Stands(definition, nodes, NodeStatus.AwaitingApproval);
    var input := Stands(definition, nodes, NodeStatus.AwaitingInput);
    var proven := AllProven(definition, nodes, certified);
    && (status == RunStatus.Failed <==> failed)
    && (status == RunStatus.RecoveryRequired <==> unclear && !failed)
    && (status == RunStatus.AwaitingApproval <==> approval && !failed && !unclear)
    && (status == RunStatus.AwaitingInput <==> input && !failed && !unclear && !approval)
    && (status == RunStatus.VerifiedComplete <==> proven)
    && (status == RunStatus.Running <==> !failed && !unclear && !approval && !input && !proven)
  }

  lemma StandsIff(definition: Definition, nodes: map<NodeId, NodeState>, status: NodeStatus)
    ensures SomeRequired(definition, nodes, status) <==> Stands(definition, nodes, status)
  {
    if node :| node in definition && !node.kind.Compensation? && node.id in nodes && nodes[node.id].status == status {
      var i :| 0 <= i < |definition| && definition[i] == node;
      assert IsRequired(definition[i]);
    }
  }

  lemma ProvenIff(definition: Definition, nodes: map<NodeId, NodeState>, certified: set<TaskId>)
    ensures AllRequiredProven(definition, nodes, certified) <==> AllProven(definition, nodes, certified)
  {
    if AllRequiredProven(definition, nodes, certified) {
      forall node | node in definition && !node.kind.Compensation? ensures ProvenDone(nodes, certified, node.id) {
        var i :| 0 <= i < |definition| && definition[i] == node;
        assert IsRequired(definition[i]);
      }
    }
  }

  lemma DoneStandsApart(definition: Definition, nodes: map<NodeId, NodeState>, certified: set<TaskId>, status: NodeStatus)
    requires AllProven(definition, nodes, certified)
    requires status !in {NodeStatus.VerifiedComplete, NodeStatus.Skipped, NodeStatus.Compensated}
    ensures !Stands(definition, nodes, status)
  {
  }

  lemma DerivedWeighs(definition: Definition, nodes: map<NodeId, NodeState>, certified: set<TaskId>)
    ensures Weighs(definition, nodes, certified, DeriveStatus(nodes, definition, certified))
  {
    StandsIff(definition, nodes, NodeStatus.Failed);
    StandsIff(definition, nodes, NodeStatus.RecoveryRequired);
    StandsIff(definition, nodes, NodeStatus.AwaitingApproval);
    StandsIff(definition, nodes, NodeStatus.AwaitingInput);
    ProvenIff(definition, nodes, certified);
    if AllProven(definition, nodes, certified) {
      DoneStandsApart(definition, nodes, certified, NodeStatus.Failed);
      DoneStandsApart(definition, nodes, certified, NodeStatus.RecoveryRequired);
      DoneStandsApart(definition, nodes, certified, NodeStatus.AwaitingApproval);
      DoneStandsApart(definition, nodes, certified, NodeStatus.AwaitingInput);
    }
  }

  /** An advance leaves a run whose status is exactly what its nodes weigh up to. */
  lemma AdvancedWeighs(current: Run, definition: Definition, results: seq<NodeResult>, certified: set<TaskId>, target: Run)
    requires DistinctIds(definition) && target == AdvancedRun(current, definition, results, certified)
    ensures Weighs(definition, target.nodes, certified, target.status)
  {
    SkippingKeepsStatus(definition, ApplyResults(current.nodes, results), certified);
    DerivedWeighs(definition, target.nodes, certified);
  }

  /** So does a recovery, whatever the rows it found. */
  lemma RecoveredWeighs(current: Run, definition: Definition, recovered: map<NodeId, NodeState>, certified: set<TaskId>, target: Run)
    requires DistinctIds(definition) && target == RecoveredRun(current, definition, recovered, certified)
    ensures Weighs(definition, target.nodes, certified, target.status)
    ensures target.error.Some? <==> target.status == RunStatus.RecoveryRequired
  {
    SkippingKeepsStatus(definition, recovered, certified);
    DerivedWeighs(definition, target.nodes, certified);
  }

  lemma {:induction false} LastResultCounts(nodes: map<NodeId, NodeState>, results: seq<NodeResult>, k: nat)
    requires k < |results| && forall j :: k < j < |results| ==> results[j].nodeId != results[k].nodeId
    ensures results[k].nodeId in ApplyResults(nodes, results)
    ensures ApplyResults(nodes, results)[results[k].nodeId] == results[k].advance.state
  {
    var init := results[..|results| - 1];
    if k < |init| {
      assert results[|results| - 1].nodeId != results[k].nodeId;
      LastResultCounts(nodes, init, k);
    }
  }

  /**
    What an advance makes of one node: the state of its last result; without one, its own state, except that
    a compensation still pending when the run is complete becomes skipped.
   */
  lemma AdvancedNodeIs(current: Run, definition: Definition, results: seq<NodeResult>, certified: set<TaskId>, target: Run, i: nat)
    requires DistinctIds(definition) && target == AdvancedRun(current, definition, results, certified)
    requires i < |definition| && definition[i].id in current.nodes
    requires forall r :: r in results ==> r.nodeId != definition[i].id
    ensures definition[i].id in target.nodes
    ensures var before := current.nodes[definition[i].id];
      target.nodes[definition[i].id] ==
        if definition[i].kind.Compensation? && before.status == NodeStatus.Pending && target.status == RunStatus.VerifiedComplete
        then before.(status := NodeStatus.Skipped) else before
  {
    ResultsTouchOnly(current.nodes, results, definition[i].id);
    SkipPendingEffect(definition, ApplyResults(current.nodes, results), |definition|);
  }

  lemma AdvancedNodeHasItsResult(current: Run, definition: Definition, results: seq<NodeResult>, certified: set<TaskId>, target: Run,
                                 i: nat, k: nat)
    requires DistinctIds(definition) && target == AdvancedRun(current, definition, results, certified)
    requires i < |definition| && k < |results| && results[k].nodeId == definition[i].id
    requires forall j :: k < j < |results| ==> results[j].nodeId != results[k].nodeId
    requires !(definition[i].kind.Compensation? && results[k].advance.state.status == NodeStatus.Pending)
    ensures definition[i].id in target.nodes && target.nodes[definition[i].id] == results[k].advance.state
  {
    LastResultCounts(current.nodes, results, k);
    SkipPendingEffect(definition, ApplyResults(current.nodes, results), |definition|);
  }

  // ----- halting and resuming

  ghost predicate SomeWaits(nodes: map<NodeId, NodeState>, status: NodeStatus)
  {
    exists id :: id in nodes && nodes[id].status == status
  }

  lemma ResumedFrom(nodes: map<NodeId, NodeState>)
    ensures ResumedStatus(nodes) == RunStatus.AwaitingApproval <==> SomeWaits(nodes, NodeStatus.AwaitingApproval)
    ensures ResumedStatus(nodes) == RunStatus.AwaitingInput
      <==> !SomeWaits(nodes, NodeStatus.AwaitingApproval) && SomeWaits(nodes, NodeStatus.AwaitingInput)
    ensures ResumedStatus(nodes) == RunStatus.Running
      <==> !SomeWaits(nodes, NodeStatus.AwaitingApproval) && !SomeWaits(nodes, NodeStatus.AwaitingInput)
  {
  }

  /** A compensation, which no derived status counts, waits for a person. */
  ghost predicate CompensationWaits(definition: Definition, nodes: map<NodeId, NodeState>, status: NodeStatus)
  {
    exists node :: node in definition && node.kind.Compensation? && node.id in nodes && nodes[node.id].status == status
  }

  lemma WaitsIff(definition: Definition, nodes: map<NodeId, NodeState>, status: NodeStatus)
    requires nodes.Keys == set node | node in definition :: node.id
    ensures SomeWaits(nodes, status) <==> Stands(definition, nodes, status) || CompensationWaits(definition, nodes, status)
  {
    if id :| id in nodes && nodes[id].status == status {
      var node :| node in definition && node.id == id;
      assert node.kind.Compensation? || !node.kind.Compensation?;
    }
  }

  /**
    Halting a run and resuming it gives back the status it had, for a run that waits for an approval; for
    one that waits for an answer or runs, exactly if no compensation waits for more; for any other, never.
   */
  lemma ResumeUndoesHaltIff(definition: Definition, current: Run, certified: set<TaskId>, to: RunStatus, kind: ChangeKind, resumed: Run)
    requires current.nodes.Keys == set node | node in definition :: node.id
    requires Weighs(definition, current.nodes, certified, current.status)
    requires resumed == DraftResume(DraftHalt(current, to, kind).run).run
    ensures resumed.nodes == current.nodes && resumed.error.None?
    ensures resumed.status == current.status <==>
      match current.status {
        case AwaitingApproval => true
        case AwaitingInput => !CompensationWaits(definition, current.nodes, NodeStatus.AwaitingApproval)
        case Running =>
          !CompensationWaits(definition, current.nodes, NodeStatus.AwaitingApproval)
          && !CompensationWaits(definition, current.nodes, NodeStatus.AwaitingInput)
        case _ => false
      }
  {
    ResumedFrom(current.nodes);
    WaitsIff(definition, current.nodes, NodeStatus.AwaitingApproval);
    WaitsIff(definition, current.nodes, NodeStatus.AwaitingInput);
  }

  // ----- cancelling

  /** Exactly the nodes that have not begun, or wait for an approval, are cancelled; a node under way or ended stays. */
  lemma CancelTakesIff(current: Run, target: Run, id: NodeId)
    requires target == CancelledRun(current) && id in current.nodes
    ensures target.status == RunStatus.Cancelled && target.error.None? && target.nodes.Keys == current.nodes.Keys
    ensures target.nodes[id] ==
      if current.nodes[id].status in {NodeStatus.Pending, NodeStatus.Ready, NodeStatus.AwaitingApproval}
      then current.nodes[id].(status := NodeStatus.Cancelled) else current.nodes[id]
  {
  }

  // ----- which statuses an operation takes

  /** Every status of a run, with what may be done to a run that has it. */
  lemma OperationsByStatus(status: RunStatus)
    ensures Haltable(status) <==> status !in {RunStatus.Failed, RunStatus.VerifiedComplete, RunStatus.Cancelled}
    ensures IsHalted(status) <==> status == RunStatus.Paused || status == RunStatus.Suspended
    ensures Terminal(status) <==> status == RunStatus.VerifiedComplete || status == RunStatus.Cancelled
    ensures Recoverable(status)
      <==> (status == RunStatus.Planned || status == RunStatus.Running || status == RunStatus.AwaitingApproval
            || status == RunStatus.RecoveryRequired)
  {
  }

  // ----- the checks on a definition

  ghost predicate IsId(nodes: Definition, id: NodeId)
  {
    exists node :: node in nodes && node.id == id
  }

  ghost predicate IsOperationId(nodes: Definition, id: NodeId)
  {
    exists node :: node in nodes && node.id == id && node.kind.Operation?
  }

  /** The nodes a node speaks of are there, are others, and are operations where something is done to their task. */
  ghost predicate WellPlaced(nodes: Definition, node: Node)
  {
    (forall d :: d in node.dependsOn ==> d != node.id && IsId(nodes, d))
    && match node.kind {
      case Approval(target) => IsId(nodes, target)
      case Compensation(target) => IsOperationId(nodes, target)
      case Condition(source) => IsOperationId(nodes, source)
      case _ => true
    }
  }

  lemma TableIsTheNodes(nodes: Definition, id: NodeId)
    requires DistinctIds(nodes)
    ensures id in Table(nodes) <==> IsId(nodes, id)
    ensures id in Table(nodes) && Table(nodes)[id].kind.Operation? <==> IsOperationId(nodes, id)
  {
    TableKeys(nodes);
    if id in Table(nodes) {
      var i := TableEntry(nodes, id);
      assert nodes[i] in nodes;
    }
    forall node | node in nodes && node.id == id ensures id in Table(nodes) && Table(nodes)[id] == node {
      var i :| 0 <= i < |nodes| && nodes[i] == node;
      TableHolds(nodes, i);
    }
  }

  lemma CheckPassesIff(nodes: Definition, node: Node)
    requires DistinctIds(nodes)
    ensures CheckNode(Table(nodes), node).None? <==> WellPlaced(nodes, node)
  {
    DependenciesPass(Table(nodes), node.id, node.dependsOn);
    forall d ensures d in Table(nodes) <==> IsId(nodes, d) {
      TableIsTheNodes(nodes, d);
    }
    if node.kind.Approval? || node.kind.Compensation? {
      TableIsTheNodes(nodes, node.kind.forNode);
    } else if node.kind.Condition? {
      TableIsTheNodes(nodes, node.kind.source);
    }
  }

  /** The checks on the nodes of a definition pass exactly if every node is well placed in it. */
  lemma NodesPassIff(nodes: Definition)
    requires DistinctIds(nodes)
    ensures NodesPass(nodes) <==> forall node :: node in nodes ==> WellPlaced(nodes, node)
  {
    forall node ensures CheckNode(Table(nodes), node).None? <==> WellPlaced(nodes, node) {
      CheckPassesIff(nodes, node);
    }
    if NodesPass(nodes) {
      forall node | node in nodes ensures WellPlaced(nodes, node) {
        var i :| 0 <= i < |nodes| && nodes[i] == node;
        assert CheckNode(Table(nodes), nodes[i]).None?;
      }
    }
  }
}
