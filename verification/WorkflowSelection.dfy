/**
  Which nodes an advance takes and what it makes of them, in the author's terms: the choices at the head of
  `advanceOnce` of packages/runtime-core/src/workflow-controller.ts, and the compensations of a failed wave.
 */
module WorkflowSelection {
  import opened Wrappers
  import opened Text
  import opened Counting
  import opened Protocol
  import opened WorkflowGraph
  import opened WorkflowDrafts
  import opened NodeSchedulers
  import opened WorkflowControllers

  // ----- a failed run rolls back

  /** Node `i` compensates an operation that is done, and has not run or was parked for its approval. */
  ghost predicate Owed(definition: Definition, nodes: map<NodeId, NodeState>, i: nat)
    requires i < |definition|
  {
    var node := definition[i];
    node.kind.Compensation? && node.id in nodes && node.kind.forNode in nodes
    && (nodes[node.id].status == NodeStatus.Pending || nodes[node.id].status == NodeStatus.AwaitingApproval)
    && nodes[node.kind.forNode].status == NodeStatus.VerifiedComplete
  }

  /** An id before another in the list belongs to a node after that one's in the definition. */
  ghost predicate Backwards(ids: seq<NodeId>, definition: Definition)
  {
    forall a, b, i, j ::
      (0 <= a < b < |ids| && 0 <= i < |definition| && 0 <= j < |definition|
       && ids[a] == definition[i].id && ids[b] == definition[j].id)
      ==> i > j
  }

  lemma {:induction false} RollbackTakes(definition: Definition, nodes: map<NodeId, NodeState>, id: NodeId)
    ensures id in Rollback(definition, nodes)
      <==> exists i :: 0 <= i < |definition| && definition[i].id == id && Owed(definition, nodes, i)
  {
    if definition != [] {
      RollbackTakes(definition[1..], nodes, id);
      if exists i :: 0 <= i < |definition| && definition[i].id == id && Owed(definition, nodes, i) {
        var i :| 0 <= i < |definition| && definition[i].id == id && Owed(definition, nodes, i);
        if i > 0 { assert definition[1..][i - 1] == definition[i] && Owed(definition[1..], nodes, i - 1); }
      }
      if id in Rollback(definition[1..], nodes) {
        var i :| 0 <= i < |definition[1..]| && definition[1..][i].id == id && Owed(definition[1..], nodes, i);
        assert definition[i + 1] == definition[1..][i] && Owed(definition, nodes, i + 1);
      }
    }
  }

  lemma RestDoesNotName(definition: Definition, nodes: map<NodeId, NodeState>)
    requires definition != [] && DistinctIds(definition)
    ensures definition[0].id !in Rollback(definition[1..], nodes)
  {
    RestIsDistinct(definition);
    RollbackTakes(definition[1..], nodes, definition[0].id);
  }

  lemma {:induction false} RollbackOnce(definition: Definition, nodes: map<NodeId, NodeState>)
    requires DistinctIds(definition)
    ensures Distinct(Rollback(definition, nodes))
  {
    if definition != [] {
      RestIsDistinct(definition);
      RollbackOnce(definition[1..], nodes);
      RestDoesNotName(definition, nodes);
      var rest := Rollback(definition[1..], nodes);
      forall i | 0 <= i < |rest| ensures rest[i] != definition[0].id {
        assert rest[i] in rest;
      }
    }
  }

  lemma LastIsFirst(definition: Definition, nodes: map<NodeId, NodeState>)
    requires definition != []
    ensures |Rollback(definition[1..], nodes)| < |Rollback(definition, nodes)|
      ==> Rollback(definition, nodes)[|Rollback(definition[1..], nodes)|] == definition[0].id
  {
  }

  lemma {:induction false} RollbackBackwards(definition: Definition, nodes: map<NodeId, NodeState>)
    requires DistinctIds(definition)
    ensures Backwards(Rollback(definition, nodes), definition)
  {
    if definition != [] {
      RestIsDistinct(definition);
      RollbackBackwards(definition[1..], nodes);
      RestDoesNotName(definition, nodes);
      LastIsFirst(definition, nodes);
      var ids, rest := Rollback(definition, nodes), Rollback(definition[1..], nodes);
      forall a, b, i, j | 0 <= a < b < |ids| && 0 <= i < |definition| && 0 <= j < |definition|
        && ids[a] == definition[i].id && ids[b] == definition[j].id
        ensures i > j
      {
        assert ids[a] == rest[a] && rest[a] in rest;
        if j > 0 {
          assert definition[1..][i - 1] == definition[i] && definition[1..][j - 1] == definition[j];
        }
      }
    }
  }

  /**
    A failed run: the advance takes exactly the compensations that are owed, each once, the last of the
    definition first.
   */
  lemma FailedRunRollsBack(run: Run, definition: Definition)
    requires run.status == RunStatus.Failed && DistinctIds(definition)
    ensures forall id :: id in Select(run, definition) <==>
        exists i :: 0 <= i < |definition| && definition[i].id == id && Owed(definition, run.nodes, i)
    ensures Distinct(Select(run, definition)) && Backwards(Select(run, definition), definition)
  {
    forall id ensures id in Select(run, definition) <==>
        exists i :: 0 <= i < |definition| && definition[i].id == id && Owed(definition, run.nodes, i)
    {
      RollbackTakes(definition, run.nodes, id);
    }
    RollbackOnce(definition, run.nodes);
    RollbackBackwards(definition, run.nodes);
  }

  // ----- any other run offers parked nodes first, then ready ones

  /** Node `i` is parked for a person: an approval phrase, or an input. */
  ghost predicate Parked(definition: Definition, nodes: map<NodeId, NodeState>, i: nat)
    requires i < |definition|
  {
    var node := definition[i];
    !node.kind.Compensation? && node.id in nodes
    && (nodes[node.id].status == NodeStatus.AwaitingApproval || nodes[node.id].status == NodeStatus.AwaitingInput)
  }

  ghost predicate SomeParked(definition: Definition, nodes: map<NodeId, NodeState>)
  {
    exists i :: 0 <= i < |definition| && Parked(definition, nodes, i)
  }

  /** Node `i` has not begun, and all it depends on is complete, skipped or compensated. */
  ghost predicate Unblocked(definition: Definition, nodes: map<NodeId, NodeState>, i: nat)
    requires i < |definition|
  {
    var node := definition[i];
    !node.kind.Compensation? && node.id in nodes && nodes[node.id].status == NodeStatus.Pending
    && forall d :: d in node.dependsOn ==>
        d in nodes
        && (nodes[d].status == NodeStatus.VerifiedComplete || nodes[d].status == NodeStatus.Skipped
            || nodes[d].status == NodeStatus.Compensated)
  }

  lemma {:induction false} AwaitingTakes(definition: Definition, nodes: map<NodeId, NodeState>, id: NodeId)
    ensures id in AwaitingInOrder(definition, nodes) <==>
        exists i :: 0 <= i < |definition| && definition[i].id == id && Parked(definition, nodes, i)
  {
    if definition != [] {
      AwaitingTakes(definition[1..], nodes, id);
      if exists i :: 0 <= i < |definition| && definition[i].id == id && Parked(definition, nodes, i) {
        var i :| 0 <= i < |definition| && definition[i].id == id && Parked(definition, nodes, i);
        if i > 0 { assert definition[1..][i - 1] == definition[i] && Parked(definition[1..], nodes, i - 1); }
      }
      if id in AwaitingInOrder(definition[1..], nodes) {
        var i :| 0 <= i < |definition[1..]| && definition[1..][i].id == id && Parked(definition[1..], nodes, i);
        assert definition[i + 1] == definition[1..][i] && Parked(definition, nodes, i + 1);
      }
    }
  }

  lemma {:induction false} AwaitingOnce(definition: Definition, nodes: map<NodeId, NodeState>)
    requires DistinctIds(definition)
    ensures Distinct(AwaitingInOrder(definition, nodes))
  {
    if definition != [] {
      RestIsDistinct(definition);
      AwaitingOnce(definition[1..], nodes);
      AwaitingTakes(definition[1..], nodes, definition[0].id);
      ConsDistinct(definition[0].id, AwaitingInOrder(definition[1..], nodes));
      assert [] + AwaitingInOrder(definition[1..], nodes) == AwaitingInOrder(definition[1..], nodes);
    }
  }

  lemma AwaitingIsExact(definition: Definition, nodes: map<NodeId, NodeState>)
    requires DistinctIds(definition)
    ensures forall id :: id in Awaiting(definition, nodes) <==>
        exists i :: 0 <= i < |definition| && definition[i].id == id && Parked(definition, nodes, i)
    ensures Sorted(Awaiting(definition, nodes)) && Distinct(Awaiting(definition, nodes))
    ensures Awaiting(definition, nodes) != [] <==> SomeParked(definition, nodes)
  {
    var inOrder := AwaitingInOrder(definition, nodes);
    SortMembers(inOrder);
    SortSorts(inOrder);
    AwaitingOnce(definition, nodes);
    SortKeepsDistinct(inOrder);
    forall id ensures id in Awaiting(definition, nodes) <==>
        exists i :: 0 <= i < |definition| && definition[i].id == id && Parked(definition, nodes, i)
    {
      AwaitingTakes(definition, nodes, id);
    }
    FirstIsMember(Awaiting(definition, nodes));
    if SomeParked(definition, nodes) {
      var i :| 0 <= i < |definition| && Parked(definition, nodes, i);
      assert definition[i].id in Awaiting(definition, nodes);
    }
  }

  lemma FirstIsMember(ids: seq<NodeId>)
    ensures ids == [] || ids[0] in ids
  {
  }

  /** A run that has not failed: the parked nodes if there are any, else the unblocked ones; sorted, each once. */
  lemma OtherRunsGoOn(run: Run, definition: Definition)
    requires run.status != RunStatus.Failed && DistinctIds(definition)
    ensures Sorted(Select(run, definition)) && Distinct(Select(run, definition))
    ensures SomeParked(definition, run.nodes) ==>
        forall id :: id in Select(run, definition) <==>
          exists i :: 0 <= i < |definition| && definition[i].id == id && Parked(definition, run.nodes, i)
    ensures !SomeParked(definition, run.nodes) ==>
        forall id :: id in Select(run, definition) <==>
          exists i :: 0 <= i < |definition| && definition[i].id == id && Unblocked(definition, run.nodes, i)
  {
    AwaitingIsExact(definition, run.nodes);
    forall i | 0 <= i < |definition| ensures IsReady(run.nodes, definition[i]) <==> Unblocked(definition, run.nodes, i) {
    }
  }

  // ----- the compensations of a failed wave

  ghost predicate About(results: seq<NodeResult>, id: NodeId)
  {
    exists r :: r in results && r.nodeId == id
  }

  ghost predicate CompleteIn(results: seq<NodeResult>, id: NodeId)
  {
    exists r :: r in results && r.nodeId == id && r.advance.state.status == NodeStatus.VerifiedComplete
  }

  /** The operation is complete: the wave says so, or it was complete before and the wave did not take it. */
  ghost predicate TargetComplete(wave: seq<NodeResult>, nodes: map<NodeId, NodeState>, target: NodeId)
  {
    if About(wave, target) then CompleteIn(wave, target)
    else target in nodes && nodes[target].status == NodeStatus.VerifiedComplete
  }

  ghost predicate OneResultEach(results: seq<NodeResult>)
  {
    forall a, b :: 0 <= a < b < |results| ==> results[a].nodeId != results[b].nodeId
  }

  lemma {:induction false} FindsTheResult(results: seq<NodeResult>, id: NodeId)
    requires OneResultEach(results)
    ensures FindResult(results, id).Some? <==> About(results, id)
    ensures FindResult(results, id).Some? && FindResult(results, id).value.status == NodeStatus.VerifiedComplete
      <==> CompleteIn(results, id)
  {
    if results != [] {
      FindsTheResult(results[1..], id);
      assert results == [results[0]] + results[1..];
      if results[0].nodeId == id {
        assert forall r :: r in results[1..] ==> r.nodeId != id;
      }
    }
  }

  lemma {:induction false} FindBefore(results: seq<NodeResult>, more: seq<NodeResult>, id: NodeId)
    requires forall r :: r in more ==> r.nodeId != id
    ensures FindResult(results + more, id) == FindResult(results, id)
  {
    if results == [] {
      assert results + more == more;
      FindNone(more, id);
    } else {
      FindBefore(results[1..], more, id);
      assert (results + more)[1..] == results[1..] + more;
    }
  }

  lemma {:induction false} FindNone(results: seq<NodeResult>, id: NodeId)
    requires forall r :: r in results ==> r.nodeId != id
    ensures FindResult(results, id) == None
  {
    if results != [] {
      FindNone(results[1..], id);
    }
  }

  lemma {:induction false} GatheredInOrder(ids: seq<NodeId>, outcome: NodeId -> Option<NodeAdvance>)
    requires Gather(ids, outcome).Some?
    ensures |Gather(ids, outcome).value| == |ids|
    ensures forall k :: 0 <= k < |ids| ==> Gather(ids, outcome).value[k].nodeId == ids[k]
  {
    if ids != [] {
      GatheredInOrder(ids[..|ids| - 1], outcome);
    }
  }

  /** Compensations name operations, as `validateWorkflow` asks. */
  ghost predicate TargetsAreOperations(definition: Definition)
  {
    forall i, j ::
      (0 <= i < |definition| && 0 <= j < |definition| && definition[i].kind.Compensation?
       && definition[j].id == definition[i].kind.forNode)
      ==> definition[j].kind.Operation?
  }

  ghost predicate OfCompensations(results: seq<NodeResult>, definition: Definition)
  {
    forall r :: r in results ==> exists i :: 0 <= i < |definition| && definition[i].id == r.nodeId && definition[i].kind.Compensation?
  }

  /** What the loop has added by node `i` are results of compensations, after those of the wave. */
  lemma {:induction false} AddsCompensations(run: Run, definition: Definition, i: nat, wave: seq<NodeResult>, compensate: NodeId -> Option<NodeState>)
    returns (more: seq<NodeResult>)
    requires i <= |definition| && WithCompensations(run, definition, i, wave, compensate).Some?
    ensures WithCompensations(run, definition, i, wave, compensate).value == wave + more && OfCompensations(more, definition)
    decreases |definition| - i
  {
    if i == |definition| {
      more := [];
    } else {
      more := AddsCompensations(run, definition, i + 1, wave, compensate);
      if PendingCompensation(run.nodes, definition[i]) {
        var one := CompensationResult(run, definition[i], wave + more, compensate).value;
        assert one.nodeId == definition[i].id;
        assert wave + more + [one] == wave + (more + [one]);
        more := more + [one];
      }
    }
  }

  lemma TargetIsNotAdded(definition: Definition, more: seq<NodeResult>, i: nat)
    requires DistinctIds(definition) && TargetsAreOperations(definition) && OfCompensations(more, definition)
    requires i < |definition| && definition[i].kind.Compensation?
    ensures forall r :: r in more ==> r.nodeId != definition[i].kind.forNode
  {
  }

  /** What becomes of a pending compensation: skipped if its operation is not complete, else what running it gave. */
  ghost predicate Compensated(r: NodeResult, wave: seq<NodeResult>, nodes: map<NodeId, NodeState>, node: Node,
                              compensate: NodeId -> Option<NodeState>)
    requires node.kind.Compensation?
  {
    r.nodeId == node.id && !r.advance.checkpoint
    && if !TargetComplete(wave, nodes, node.kind.forNode)
       then r.advance.state.status == NodeStatus.Skipped && r.advance.state.taskIds == []
       else compensate(node.id).Some?
            && r.advance.state == (if compensate(node.id).value.status == NodeStatus.VerifiedComplete
                                   then compensate(node.id).value.(status := NodeStatus.Compensated) else compensate(node.id).value)
  }

  lemma OneCompensation(run: Run, definition: Definition, i: nat, wave: seq<NodeResult>, more: seq<NodeResult>,
                        compensate: NodeId -> Option<NodeState>)
    requires DistinctIds(definition) && TargetsAreOperations(definition) && OneResultEach(wave) && OfCompensations(more, definition)
    requires i < |definition| && definition[i].kind.Compensation? && CompensationResult(run, definition[i], wave + more, compensate).Some?
    ensures Compensated(CompensationResult(run, definition[i], wave + more, compensate).value, wave, run.nodes, definition[i], compensate)
  {
    TargetIsNotAdded(definition, more, i);
    FindBefore(wave, more, definition[i].kind.forNode);
    FindsTheResult(wave, definition[i].kind.forNode);
  }

  /** Every compensation that was pending when the wave failed gets its result. */
  lemma {:induction false} EachIsCompensated(run: Run, definition: Definition, i: nat, wave: seq<NodeResult>,
                                             compensate: NodeId -> Option<NodeState>, k: nat)
    requires DistinctIds(definition) && TargetsAreOperations(definition) && OneResultEach(wave)
    requires i <= k < |definition| && definition[k].kind.Compensation? && definition[k].id in run.nodes
    requires run.nodes[definition[k].id].status == NodeStatus.Pending
    requires WithCompensations(run, definition, i, wave, compensate).Some?
    ensures exists r :: r in WithCompensations(run, definition, i, wave, compensate).value
                     && Compensated(r, wave, run.nodes, definition[k], compensate)
    decreases |definition| - i
  {
    if i < k {
      EachIsCompensated(run, definition, i + 1, wave, compensate, k);
      var r :| r in WithCompensations(run, definition, i + 1, wave, compensate).value
               && Compensated(r, wave, run.nodes, definition[k], compensate);
      assert r in WithCompensations(run, definition, i, wave, compensate).value;
    } else {
      var more := AddsCompensations(run, definition, i + 1, wave, compensate);
      OneCompensation(run, definition, i, wave, more, compensate);
      var one := CompensationResult(run, definition[i], wave + more, compensate).value;
      assert one in WithCompensations(run, definition, i, wave, compensate).value;
    }
  }

  /**
    A wave in which a node failed: everything pending that would undo a complete operation is run, and is
    compensated if that succeeds; every other pending compensation is skipped.
   */
  lemma FailedWaveCompensates(run: Run, definition: Definition, outcome: NodeId -> Option<NodeAdvance>,
                              compensate: NodeId -> Option<NodeState>, wave: seq<NodeResult>, k: nat)
    requires DistinctIds(definition) && TargetsAreOperations(definition) && Gather(Select(run, definition), outcome) == Some(wave)
    requires (exists r :: r in wave && r.advance.state.status == NodeStatus.Failed) && Collected(run, definition, outcome, compensate).Some?
    requires k < |definition| && definition[k].kind.Compensation? && definition[k].id in run.nodes
    requires run.nodes[definition[k].id].status == NodeStatus.Pending
    ensures exists r :: r in Collected(run, definition, outcome, compensate).value
                     && Compensated(r, wave, run.nodes, definition[k], compensate)
  {
    GatheredInOrder(Select(run, definition), outcome);
    if run.status == RunStatus.Failed { FailedRunRollsBack(run, definition); } else { OtherRunsGoOn(run, definition); }
    EachIsCompensated(run, definition, 0, wave, compensate, k);
  }

  /** A wave in which nothing failed adds nothing. */
  lemma CleanWaveAddsNothing(run: Run, definition: Definition, outcome: NodeId -> Option<NodeAdvance>,
                             compensate: NodeId -> Option<NodeState>)
    requires Gather(Select(run, definition), outcome).Some?
    requires forall r :: r in Gather(Select(run, definition), outcome).value ==> r.advance.state.status != NodeStatus.Failed
    ensures Collected(run, definition, outcome, compensate) == Gather(Select(run, definition), outcome)
  {
  }
}
