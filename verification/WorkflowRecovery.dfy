/**
  What recovery does to the order of a workflow (packages/runtime-core/src/workflow-controller.ts): when
  the nodes it leaves started still have their dependencies finished, and which nodes it leaves finished.

  Every other operation of the controller keeps that order. Recovery rebuilds each node from the task rows
  under its keys and does not look at the graph; the theorems say which rows keep the order and which do not.
 */
module WorkflowRecovery {
  import opened Wrappers
  import opened Text
  import opened Counting
  import opened Protocol
  import opened WorkflowGraph
  import opened WorkflowDrafts
  import opened NodeSchedulers
  import opened NodeRecovery
  import opened WorkflowControllers

  /** The rows found for the nodes of one workflow. */
  type Rows = NodeId -> seq<TaskView>

  // ----- what a caller can see before recovery

  predicate ListsOnly(rows: seq<TaskView>, certified: set<TaskId>)
  {
    forall t :: t in rows ==> t.id in certified
  }

  /** A required node that comes back finished, with a certificate behind every task it will list. */
  ghost predicate ComesBackProven(nodes: map<NodeId, NodeState>, rows: Rows, certified: set<TaskId>, id: NodeId)
  {
    id in nodes && ComesBackFinished(nodes[id], rows(id))
    && if rows(id) == [] then forall t :: t in nodes[id].taskIds ==> t in certified else ListsOnly(rows(id), certified)
  }

  ghost predicate AllComeBackProven(definition: Definition, nodes: map<NodeId, NodeState>, rows: Rows, certified: set<TaskId>)
  {
    forall i :: 0 <= i < |definition| && IsRequired(definition[i]) ==> ComesBackProven(nodes, rows, certified, definition[i].id)
  }

  /** A node that comes back finished by its rows, or is a compensation that a complete run skips. */
  ghost predicate FinishedByRows(node: Node, nodes: map<NodeId, NodeState>, rows: Rows, complete: bool)
  {
    node.id in nodes
    && (ComesBackFinished(nodes[node.id], rows(node.id))
        || (complete && node.kind.Compensation? && ComesBackPending(nodes[node.id], rows(node.id))))
  }

  ghost predicate DependencyByRows(definition: Definition, nodes: map<NodeId, NodeState>, rows: Rows, complete: bool, d: NodeId)
  {
    exists j :: 0 <= j < |definition| && definition[j].id == d && FinishedByRows(definition[j], nodes, rows, complete)
  }

  ghost predicate DependenciesByRows(definition: Definition, nodes: map<NodeId, NodeState>, rows: Rows, complete: bool,
                                     dependsOn: seq<NodeId>)
  {
    forall d :: d in dependsOn ==> DependencyByRows(definition, nodes, rows, complete, d)
  }

  /** A node that will count as started: it has rows, or had started already. */
  ghost predicate StartedByRows(node: Node, nodes: map<NodeId, NodeState>, rows: Rows)
  {
    IsRequired(node) && node.id in nodes && (rows(node.id) != [] || Started(nodes[node.id]))
  }

  /** Every node with rows, and every node that had started, depends only on nodes that come back finished. */
  ghost predicate RowsKeepWave(definition: Definition, nodes: map<NodeId, NodeState>, rows: Rows, complete: bool)
  {
    forall i :: 0 <= i < |definition| && StartedByRows(definition[i], nodes, rows)
      ==> DependenciesByRows(definition, nodes, rows, complete, definition[i].dependsOn)
  }

  // ----- one node

  /** Rows name the tasks of the node they are found for. */
  lemma RecoveredTasks(kind: Kind, rows: seq<TaskView>, previous: NodeState)
    ensures RecoveredNodeState(kind, rows, previous).taskIds == if rows == [] then previous.taskIds else ViewIds(rows)
  {
  }

  lemma RowsStart(kind: Kind, rows: seq<TaskView>, previous: NodeState)
    ensures Started(RecoveredNodeState(kind, rows, previous)) <==> rows != [] || Started(previous)
  {
    RecoveredTasks(kind, rows, previous);
  }

  lemma RecoveredAt(definition: Definition, nodes: map<NodeId, NodeState>, rows: Rows, i: nat)
    requires DistinctIds(definition) && i < |definition|
    ensures definition[i].id in nodes <==> definition[i].id in RecoveredNodes(definition, nodes, rows)
    ensures definition[i].id in nodes ==>
        RecoveredNodes(definition, nodes, rows)[definition[i].id]
        == RecoveredNodeState(definition[i].kind, rows(definition[i].id), nodes[definition[i].id])
  {
    TableHolds(definition, i);
  }

  // ----- the status of the run

  lemma ProvenIff(definition: Definition, nodes: map<NodeId, NodeState>, rows: Rows, certified: set<TaskId>, i: nat)
    requires DistinctIds(definition) && i < |definition|
    ensures ProvenDone(RecoveredNodes(definition, nodes, rows), certified, definition[i].id)
            <==> ComesBackProven(nodes, rows, certified, definition[i].id)
  {
    var id := definition[i].id;
    RecoveredAt(definition, nodes, rows, i);
    if id in nodes {
      FinishedIff(definition[i].kind, rows(id), nodes[id]);
      RecoveredTasks(definition[i].kind, rows(id), nodes[id]);
      ListedIds(rows(id), certified);
    }
  }

  lemma ListedIds(rows: seq<TaskView>, certified: set<TaskId>)
    ensures ListsOnly(rows, certified) <==> forall t :: t in ViewIds(rows) ==> t in certified
  {
    if ListsOnly(rows, certified) {
      forall t | t in ViewIds(rows) ensures t in certified {
        var k :| 0 <= k < |rows| && ViewIds(rows)[k] == t;
        assert rows[k] in rows;
      }
    } else {
      var t :| t in rows && t.id !in certified;
      var k :| 0 <= k < |rows| && rows[k] == t;
      assert ViewIds(rows)[k] == t.id;
    }
  }

  lemma ProvenHasNo(definition: Definition, nodes: map<NodeId, NodeState>, certified: set<TaskId>, status: NodeStatus)
    requires AllRequiredProven(definition, nodes, certified) && !Finished(status)
    ensures !SomeRequired(definition, nodes, status)
  {
  }

  lemma CompleteIff(definition: Definition, nodes: map<NodeId, NodeState>, certified: set<TaskId>)
    ensures DeriveStatus(nodes, definition, certified) == RunStatus.VerifiedComplete <==> AllRequiredProven(definition, nodes, certified)
  {
    if AllRequiredProven(definition, nodes, certified) {
      ProvenHasNo(definition, nodes, certified, NodeStatus.Failed);
      ProvenHasNo(definition, nodes, certified, NodeStatus.RecoveryRequired);
      ProvenHasNo(definition, nodes, certified, NodeStatus.AwaitingApproval);
      ProvenHasNo(definition, nodes, certified, NodeStatus.AwaitingInput);
    }
  }

  /** Recovery reports a run complete exactly when every required node comes back finished and certified. */
  lemma RecoveredCompleteIff(definitions: map<(nat, nat), Definition>, certified: set<TaskId>, run: Run, rows: Rows)
    requires Bound(definitions, run)
    ensures RecoveryTarget(definitions, certified, run, rows).status == RunStatus.VerifiedComplete
            <==> AllComeBackProven(DefinitionOf(definitions, run), run.nodes, rows, certified)
  {
    var definition := DefinitionOf(definitions, run);
    var nodes := RecoveredNodes(definition, run.nodes, rows);
    CompleteIff(definition, nodes, certified);
    forall i | 0 <= i < |definition|
      ensures ProvenDone(nodes, certified, definition[i].id) <==> ComesBackProven(run.nodes, rows, certified, definition[i].id)
    {
      ProvenIff(definition, run.nodes, rows, certified, i);
    }
  }

  // ----- the order of the run

  /** The state recovery leaves node `i` in. */
  lemma SettledAt(definition: Definition, nodes: map<NodeId, NodeState>, rows: Rows, certified: set<TaskId>, i: nat, after: map<NodeId, NodeState>,
                  complete: bool)
    requires DistinctIds(definition) && i < |definition|
    requires after == Settle(definition, RecoveredNodes(definition, nodes, rows), certified)
    requires complete <==> DeriveStatus(RecoveredNodes(definition, nodes, rows), definition, certified) == RunStatus.VerifiedComplete
    ensures definition[i].id in after <==> definition[i].id in nodes
    ensures definition[i].id in after ==>
        var state := RecoveredNodeState(definition[i].kind, rows(definition[i].id), nodes[definition[i].id]);
        after[definition[i].id]
        == if complete && definition[i].kind.Compensation? && state.status.Pending? then state.(status := NodeStatus.Skipped) else state
  {
    RecoveredAt(definition, nodes, rows, i);
    SkipPendingEffect(definition, RecoveredNodes(definition, nodes, rows), |definition|);
  }

  lemma NodeAfter(definition: Definition, nodes: map<NodeId, NodeState>, rows: Rows, certified: set<TaskId>, i: nat, after: map<NodeId, NodeState>,
                  complete: bool)
    requires DistinctIds(definition) && i < |definition|
    requires after == Settle(definition, RecoveredNodes(definition, nodes, rows), certified)
    requires complete <==> DeriveStatus(RecoveredNodes(definition, nodes, rows), definition, certified) == RunStatus.VerifiedComplete
    ensures InWave(after, definition[i]) <==> StartedByRows(definition[i], nodes, rows)
    ensures definition[i].id in after && Finished(after[definition[i].id].status) <==> FinishedByRows(definition[i], nodes, rows, complete)
  {
    var id := definition[i].id;
    SettledAt(definition, nodes, rows, certified, i, after, complete);
    if id in nodes {
      FinishedIff(definition[i].kind, rows(id), nodes[id]);
      PendingIff(definition[i].kind, rows(id), nodes[id]);
      RowsStart(definition[i].kind, rows(id), nodes[id]);
    }
  }

  /** The nodes recovery leaves are finished as their rows say. */
  ghost predicate AsRowsSay(definition: Definition, nodes: map<NodeId, NodeState>, rows: Rows, complete: bool, after: map<NodeId, NodeState>)
  {
    forall i :: 0 <= i < |definition| ==>
      (InWave(after, definition[i]) <==> StartedByRows(definition[i], nodes, rows))
      && (definition[i].id in after && Finished(after[definition[i].id].status) <==> FinishedByRows(definition[i], nodes, rows, complete))
  }

  lemma DependencyIff(definition: Definition, nodes: map<NodeId, NodeState>, rows: Rows, complete: bool, after: map<NodeId, NodeState>, d: NodeId)
    requires AsRowsSay(definition, nodes, rows, complete, after) && after.Keys == Members(Ids(definition))
    ensures d in after && Finished(after[d].status) <==> DependencyByRows(definition, nodes, rows, complete, d)
  {
    if d in after {
      assert d in Ids(definition);
      var j :| 0 <= j < |definition| && Ids(definition)[j] == d;
      assert definition[j].id == d;
    }
  }

  lemma DependenciesIff(definition: Definition, nodes: map<NodeId, NodeState>, rows: Rows, complete: bool, after: map<NodeId, NodeState>,
                        dependsOn: seq<NodeId>)
    requires AsRowsSay(definition, nodes, rows, complete, after) && after.Keys == Members(Ids(definition))
    ensures DependenciesFinished(after, dependsOn) <==> DependenciesByRows(definition, nodes, rows, complete, dependsOn)
  {
    forall d | d in dependsOn
      ensures d in after && Finished(after[d].status) <==> DependencyByRows(definition, nodes, rows, complete, d)
    {
      DependencyIff(definition, nodes, rows, complete, after, d);
    }
  }

  lemma WaveIff(definition: Definition, nodes: map<NodeId, NodeState>, rows: Rows, complete: bool, after: map<NodeId, NodeState>)
    requires AsRowsSay(definition, nodes, rows, complete, after) && after.Keys == Members(Ids(definition))
    ensures WaveClosed(definition, after) <==> RowsKeepWave(definition, nodes, rows, complete)
  {
    forall i | 0 <= i < |definition|
      ensures DependenciesFinished(after, definition[i].dependsOn)
              <==> DependenciesByRows(definition, nodes, rows, complete, definition[i].dependsOn)
    {
      DependenciesIff(definition, nodes, rows, complete, after, definition[i].dependsOn);
    }
  }

  /** Which nodes recovery leaves started, and which finished, for every node of the definition. */
  lemma RecoveredAsRowsSay(definitions: map<(nat, nat), Definition>, certified: set<TaskId>, run: Run, rows: Rows)
    requires Bound(definitions, run)
    ensures var definition := DefinitionOf(definitions, run);
            AsRowsSay(definition, run.nodes, rows, AllComeBackProven(definition, run.nodes, rows, certified),
                      RecoveryTarget(definitions, certified, run, rows).nodes)
    ensures RecoveryTarget(definitions, certified, run, rows).nodes.Keys == run.nodes.Keys
  {
    var definition := DefinitionOf(definitions, run);
    var after := RecoveryTarget(definitions, certified, run, rows).nodes;
    var complete := AllComeBackProven(definition, run.nodes, rows, certified);
    RecoveredCompleteIff(definitions, certified, run, rows);
    SettledStatus(definition, RecoveredNodes(definition, run.nodes, rows), certified);
    forall i | 0 <= i < |definition|
      ensures InWave(after, definition[i]) <==> StartedByRows(definition[i], run.nodes, rows)
      ensures definition[i].id in after && Finished(after[definition[i].id].status)
              <==> FinishedByRows(definition[i], run.nodes, rows, complete)
    {
      NodeAfter(definition, run.nodes, rows, certified, i, after, complete);
    }
  }

  /**
    Recovery leaves a run in order exactly when its rows do: every node that has rows, or had started,
    depends only on nodes that come back finished. Nothing is asked of the run before.
   */
  lemma RecoveryKeepsWaveIff(definitions: map<(nat, nat), Definition>, certified: set<TaskId>, run: Run, rows: Rows)
    requires Bound(definitions, run)
    ensures var definition := DefinitionOf(definitions, run);
            RunWaveClosed(definitions, RecoveryTarget(definitions, certified, run, rows))
            <==> RowsKeepWave(definition, run.nodes, rows, AllComeBackProven(definition, run.nodes, rows, certified))
  {
    var definition := DefinitionOf(definitions, run);
    RecoveredAsRowsSay(definitions, certified, run, rows);
    WaveIff(definition, run.nodes, rows, AllComeBackProven(definition, run.nodes, rows, certified),
            RecoveryTarget(definitions, certified, run, rows).nodes);
  }

  ghost predicate RowsKeepRun(definitions: map<(nat, nat), Definition>, certified: set<TaskId>, run: Run, rows: Rows)
  {
    var definition := DefinitionOf(definitions, run);
    RowsKeepWave(definition, run.nodes, rows, AllComeBackProven(definition, run.nodes, rows, certified))
  }

  /** The whole of `recoverInterrupted`: all runs are in order afterwards exactly when the rows of each recovered one keep it so. */
  lemma RecoveryKeepsWavesIff(definitions: map<(nat, nat), Definition>, certified: set<TaskId>, before: map<WorkflowId, Run>,
                              after: map<WorkflowId, Run>, found: (WorkflowId, NodeId) -> seq<TaskView>, recovered: set<WorkflowId>)
    requires forall id :: id in before ==> Bound(definitions, before[id])
    requires RecoveredOnly(before, after, Targets(definitions, certified, before, found), recovered)
    ensures RunsWaveClosed(definitions, after) <==>
        forall id :: id in before ==>
          if id in recovered then RowsKeepRun(definitions, certified, before[id], RowsOf(found, id))
          else RunWaveClosed(definitions, before[id])
  {
    var targets := Targets(definitions, certified, before, found);
    forall id | id in before
      ensures RunWaveClosed(definitions, after[id]) <==>
          if id in recovered then RowsKeepRun(definitions, certified, before[id], RowsOf(found, id))
          else RunWaveClosed(definitions, before[id])
    {
      if id in recovered {
        RecoveryKeepsWaveIff(definitions, certified, before[id], RowsOf(found, id));
        assert MovedTo(before[id], after[id], targets[id]);
      }
    }
  }

  // ----- the status of the run, by the rows of its nodes

  ghost predicate SomeRequiredFails(definition: Definition, nodes: map<NodeId, NodeState>, rows: Rows)
  {
    exists i :: 0 <= i < |definition| && !definition[i].kind.Compensation? && definition[i].id in nodes
             && ComesBackFailed(nodes[definition[i].id], rows(definition[i].id))
  }

  ghost predicate SomeRequiredUnclear(definition: Definition, nodes: map<NodeId, NodeState>, rows: Rows)
  {
    exists i :: 0 <= i < |definition| && !definition[i].kind.Compensation? && definition[i].id in nodes
             && ComesBackUnclear(nodes[definition[i].id], rows(definition[i].id))
  }

  ghost predicate SomeRequiredAwaits(definition: Definition, nodes: map<NodeId, NodeState>, rows: Rows)
  {
    exists i :: 0 <= i < |definition| && !definition[i].kind.Compensation? && definition[i].id in nodes
             && ComesBackAwaiting(nodes[definition[i].id], rows(definition[i].id))
  }

  ghost predicate SomeRequiredAsks(definition: Definition, nodes: map<NodeId, NodeState>, rows: Rows)
  {
    exists i :: 0 <= i < |definition| && !definition[i].kind.Compensation? && definition[i].id in nodes
             && rows(definition[i].id) == [] && nodes[definition[i].id].status == NodeStatus.AwaitingInput
  }

  lemma SomeRequiredIff(definition: Definition, nodes: map<NodeId, NodeState>, rows: Rows)
    requires DistinctIds(definition)
    ensures var after := RecoveredNodes(definition, nodes, rows);
            (SomeRequired(definition, after, NodeStatus.Failed) <==> SomeRequiredFails(definition, nodes, rows))
            && (SomeRequired(definition, after, NodeStatus.RecoveryRequired) <==> SomeRequiredUnclear(definition, nodes, rows))
            && (SomeRequired(definition, after, NodeStatus.AwaitingApproval) <==> SomeRequiredAwaits(definition, nodes, rows))
            && (SomeRequired(definition, after, NodeStatus.AwaitingInput) <==> SomeRequiredAsks(definition, nodes, rows))
  {
    var after := RecoveredNodes(definition, nodes, rows);
    forall i | 0 <= i < |definition|
      ensures definition[i].id in after <==> definition[i].id in nodes
      ensures definition[i].id in nodes ==>
          var id := definition[i].id;
          (after[id].status == NodeStatus.Failed <==> ComesBackFailed(nodes[id], rows(id)))
          && (after[id].status == NodeStatus.RecoveryRequired <==> ComesBackUnclear(nodes[id], rows(id)))
          && (after[id].status == NodeStatus.AwaitingApproval <==> ComesBackAwaiting(nodes[id], rows(id)))
          && (after[id].status == NodeStatus.AwaitingInput <==> rows(id) == [] && nodes[id].status == NodeStatus.AwaitingInput)
    {
      RecoveredAt(definition, nodes, rows, i);
      if definition[i].id in nodes {
        OtherStatusesIff(definition[i].kind, rows(definition[i].id), nodes[definition[i].id]);
      }
    }
  }

  /**
    The status recovery gives a run: failed, in need of a person, awaiting approval or awaiting input exactly
    when the rows of some required node say so and those of none say anything before it in this list; else
    complete or running. The error stands exactly beside the second.
   */
  lemma RecoveredStatusIff(definitions: map<(nat, nat), Definition>, certified: set<TaskId>, run: Run, rows: Rows)
    requires Bound(definitions, run)
    ensures var definition := DefinitionOf(definitions, run);
            var target := RecoveryTarget(definitions, certified, run, rows);
            (target.status == RunStatus.Failed <==> SomeRequiredFails(definition, run.nodes, rows))
            && (target.status == RunStatus.RecoveryRequired <==>
                  !SomeRequiredFails(definition, run.nodes, rows) && SomeRequiredUnclear(definition, run.nodes, rows))
            && (target.status == RunStatus.AwaitingApproval <==>
                  !SomeRequiredFails(definition, run.nodes, rows) && !SomeRequiredUnclear(definition, run.nodes, rows)
                  && SomeRequiredAwaits(definition, run.nodes, rows))
            && (target.status == RunStatus.AwaitingInput <==>
                  !SomeRequiredFails(definition, run.nodes, rows) && !SomeRequiredUnclear(definition, run.nodes, rows)
                  && !SomeRequiredAwaits(definition, run.nodes, rows) && SomeRequiredAsks(definition, run.nodes, rows))
            && (target.error.Some? <==> target.status == RunStatus.RecoveryRequired)
  {
    SomeRequiredIff(DefinitionOf(definitions, run), run.nodes, rows);
  }
}
