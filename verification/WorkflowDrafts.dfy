/**
  The mutations that packages/runtime-core/src/workflow-controller.ts hands to `transition`: each one
  edits a draft of the run and emits the data of the events that should explain the edit.

  `Tracks` is the question `transition` asks of every draft: do the emitted events lead to it? It does
  for any number of node results; the one way to fail is a stored error that the draft keeps and the
  reducer drops.
 */
module WorkflowDrafts {
  import opened Wrappers
  import opened Text
  import opened Counting
  import opened Protocol
  import opened WorkflowEvents
  import opened Layering
  import opened WorkflowGraph

  datatype Draft = Edit(run: Run, emitted: seq<EventData>)

  ghost predicate Tracks(current: Run, draft: Draft)
  {
    FoldData(current, draft.emitted) == Ok(draft.run)
  }

  /** What a node's advance reports: its new state, and whether it asks for a snapshot. */
  datatype NodeAdvance = NodeAdvance(state: NodeState, checkpoint: bool)

  datatype NodeResult = NodeResult(nodeId: NodeId, advance: NodeAdvance)

  // ----- status of a run

  predicate IsRequired(node: Node)
  {
    !node.kind.Compensation?
  }

  predicate SomeRequired(definition: Definition, nodes: map<NodeId, NodeState>, status: NodeStatus)
  {
    exists i :: 0 <= i < |definition| && IsRequired(definition[i])
             && definition[i].id in nodes && nodes[definition[i].id].status == status
  }

  /** A node that is done, with a VERIFIED_SUCCESS certificate behind every task it lists. */
  predicate ProvenDone(nodes: map<NodeId, NodeState>, certified: set<TaskId>, id: NodeId)
  {
    id in nodes && Finished(nodes[id].status) && forall t :: t in nodes[id].taskIds ==> t in certified
  }

  predicate AllRequiredProven(definition: Definition, nodes: map<NodeId, NodeState>, certified: set<TaskId>)
  {
    forall i :: 0 <= i < |definition| && IsRequired(definition[i]) ==> ProvenDone(nodes, certified, definition[i].id)
  }

  /** `deriveStatus` */
  function DeriveStatus(nodes: map<NodeId, NodeState>, definition: Definition, certified: set<TaskId>): RunStatus
  {
    if SomeRequired(definition, nodes, NodeStatus.Failed) then RunStatus.Failed
    else if SomeRequired(definition, nodes, NodeStatus.RecoveryRequired) then RunStatus.RecoveryRequired
    else if SomeRequired(definition, nodes, NodeStatus.AwaitingApproval) then RunStatus.AwaitingApproval
    else if SomeRequired(definition, nodes, NodeStatus.AwaitingInput) then RunStatus.AwaitingInput
    else if AllRequiredProven(definition, nodes, certified) then RunStatus.VerifiedComplete
    else RunStatus.Running
  }

  predicate PendingCompensation(nodes: map<NodeId, NodeState>, node: Node)
  {
    node.kind.Compensation? && node.id in nodes && nodes[node.id].status.Pending?
  }

  /** What `verified_complete` promises: every required node proven done and no compensation left pending. */
  ghost predicate NothingLeft(definition: Definition, nodes: map<NodeId, NodeState>, certified: set<TaskId>)
  {
    AllRequiredProven(definition, nodes, certified)
    && forall i :: 0 <= i < |definition| ==> !PendingCompensation(nodes, definition[i])
  }

  // ----- editing a draft

  function SetNode(draft: Draft, id: NodeId, state: NodeState): Draft
    requires id in draft.run.nodes
  {
    Edit(draft.run.(nodes := draft.run.nodes[id := state]),
          draft.emitted + [NodeChange(id, draft.run.nodes[id].status, state)])
  }

  lemma SetNodeTracks(current: Run, draft: Draft, id: NodeId, state: NodeState)
    requires Tracks(current, draft) && id in draft.run.nodes
    ensures Tracks(current, SetNode(draft, id, state))
  {
    FoldDataAppend(current, draft.emitted, NodeChange(id, draft.run.nodes[id].status, state));
  }

  /** A status change that sets the error to `error` in the draft, and emits `reported`. */
  function SetStatus(draft: Draft, kind: ChangeKind, to: RunStatus, error: Option<string>, reported: Option<string>): Draft
  {
    Edit(draft.run.(status := to, error := error), draft.emitted + [StatusChange(kind, draft.run.status, to, reported)])
  }

  /** The draft follows its events exactly when the error it keeps is the error it reports. */
  lemma SetStatusTracks(current: Run, draft: Draft, kind: ChangeKind, to: RunStatus, error: Option<string>, reported: Option<string>)
    requires Tracks(current, draft) && KindAllows(kind, to)
    ensures Tracks(current, SetStatus(draft, kind, to, error, reported)) <==> error == reported
  {
    FoldDataAppend(current, draft.emitted, StatusChange(kind, draft.run.status, to, reported));
  }

  /** Node states after a list of results: a later result for the same node wins. */
  function ApplyResults(nodes: map<NodeId, NodeState>, results: seq<NodeResult>): map<NodeId, NodeState>
  {
    if results == [] then nodes
    else
      var last := results[|results| - 1];
      ApplyResults(nodes, results[..|results| - 1])[last.nodeId := last.advance.state]
  }

  lemma {:induction false} ResultsTouchOnly(nodes: map<NodeId, NodeState>, results: seq<NodeResult>, id: NodeId)
    requires forall r :: r in results ==> r.nodeId != id
    ensures id in ApplyResults(nodes, results) <==> id in nodes
    ensures id in nodes ==> ApplyResults(nodes, results)[id] == nodes[id]
  {
    if results != [] {
      assert results[|results| - 1] in results;
      ResultsTouchOnly(nodes, results[..|results| - 1], id);
    }
  }

  lemma {:induction false} ResultsKeepKeys(nodes: map<NodeId, NodeState>, results: seq<NodeResult>)
    requires forall r :: r in results ==> r.nodeId in nodes
    ensures ApplyResults(nodes, results).Keys == nodes.Keys
  {
    if results != [] {
      assert results[|results| - 1] in results;
      ResultsKeepKeys(nodes, results[..|results| - 1]);
    }
  }

  /** Pending compensations of the first `n` nodes become skipped. */
  function SkipPending(definition: Definition, nodes: map<NodeId, NodeState>, n: nat): map<NodeId, NodeState>
    requires n <= |definition|
  {
    if n == 0 then nodes
    else
      var before := SkipPending(definition, nodes, n - 1);
      var node := definition[n - 1];
      if PendingCompensation(before, node) then before[node.id := before[node.id].(status := NodeStatus.Skipped)] else before
  }

  lemma {:induction false} SkipPendingEffect(definition: Definition, nodes: map<NodeId, NodeState>, n: nat)
    requires n <= |definition| && DistinctIds(definition)
    ensures SkipPending(definition, nodes, n).Keys == nodes.Keys
    ensures forall i :: 0 <= i < |definition| && definition[i].id in nodes ==>
        SkipPending(definition, nodes, n)[definition[i].id]
        == if i < n && PendingCompensation(nodes, definition[i])
           then nodes[definition[i].id].(status := NodeStatus.Skipped) else nodes[definition[i].id]
  {
    if n > 0 {
      SkipPendingEffect(definition, nodes, n - 1);
      forall i | 0 <= i < |definition| && i != n - 1 ensures definition[i].id != definition[n - 1].id {
        assert Ids(definition)[i] != Ids(definition)[n - 1];
      }
    }
  }

  lemma SkippingKeepsRequired(definition: Definition, nodes: map<NodeId, NodeState>, certified: set<TaskId>)
    requires DistinctIds(definition) && AllRequiredProven(definition, nodes, certified)
    ensures NothingLeft(definition, SkipPending(definition, nodes, |definition|), certified)
  {
    var after := SkipPending(definition, nodes, |definition|);
    SkipPendingEffect(definition, nodes, |definition|);
    forall i | 0 <= i < |definition| ensures !PendingCompensation(after, definition[i]) {
      assert definition[i].id in after ==> definition[i].id in nodes;
    }
    forall i | 0 <= i < |definition| && IsRequired(definition[i]) ensures ProvenDone(after, certified, definition[i].id) {
      assert ProvenDone(nodes, certified, definition[i].id);
    }
  }

  /** A skipped compensation is no required node, so the status does not move. */
  lemma SkippingKeepsStatus(definition: Definition, nodes: map<NodeId, NodeState>, certified: set<TaskId>)
    requires DistinctIds(definition)
    ensures DeriveStatus(SkipPending(definition, nodes, |definition|), definition, certified) == DeriveStatus(nodes, definition, certified)
  {
    var after := SkipPending(definition, nodes, |definition|);
    SkipPendingEffect(definition, nodes, |definition|);
    forall i | 0 <= i < |definition| && IsRequired(definition[i])
      ensures definition[i].id in after <==> definition[i].id in nodes
      ensures definition[i].id in nodes ==> after[definition[i].id] == nodes[definition[i].id]
    {
    }
    forall s ensures SomeRequired(definition, after, s) <==> SomeRequired(definition, nodes, s) {
    }
    assert AllRequiredProven(definition, after, certified) <==> AllRequiredProven(definition, nodes, certified) by {
      forall i | 0 <= i < |definition| && IsRequired(definition[i])
        ensures ProvenDone(after, certified, definition[i].id) <==> ProvenDone(nodes, certified, definition[i].id)
      {
      }
    }
  }

  /** The node states an advance or a recovery ends with. */
  function Settle(definition: Definition, nodes: map<NodeId, NodeState>, certified: set<TaskId>): map<NodeId, NodeState>
  {
    if DeriveStatus(nodes, definition, certified) == RunStatus.VerifiedComplete
    then SkipPending(definition, nodes, |definition|) else nodes
  }

  lemma SettledStatus(definition: Definition, nodes: map<NodeId, NodeState>, certified: set<TaskId>)
    requires DistinctIds(definition)
    ensures DeriveStatus(Settle(definition, nodes, certified), definition, certified) == DeriveStatus(nodes, definition, certified)
    ensures DeriveStatus(nodes, definition, certified) == RunStatus.VerifiedComplete ==>
        NothingLeft(definition, Settle(definition, nodes, certified), certified)
    ensures Settle(definition, nodes, certified).Keys == nodes.Keys
  {
    SkippingKeepsStatus(definition, nodes, certified);
    SkipPendingEffect(definition, nodes, |definition|);
    if DeriveStatus(nodes, definition, certified) == RunStatus.VerifiedComplete {
      SkippingKeepsRequired(definition, nodes, certified);
    }
  }

  // ----- the loops

  /** Skips the pending compensations of a draft, one event each. */
  method SkipCompensations(ghost current: Run, definition: Definition, start: Draft) returns (draft: Draft)
    requires Tracks(current, start)
    ensures Tracks(current, draft)
    ensures draft.run == start.run.(nodes := SkipPending(definition, start.run.nodes, |definition|))
    ensures |draft.emitted| >= |start.emitted|
  {
    draft := start;
    for i := 0 to |definition|
      invariant Tracks(current, draft) && draft.run == start.run.(nodes := SkipPending(definition, start.run.nodes, i))
      invariant |draft.emitted| >= |start.emitted|
    {
      var node := definition[i];
      if PendingCompensation(draft.run.nodes, node) {
        var state := draft.run.nodes[node.id].(status := NodeStatus.Skipped);
        SetNodeTracks(current, draft, node.id, state);
        draft := SetNode(draft, node.id, state);
      }
    }
  }

  /** The settled run of an advance: node results, skipped compensations, derived status. */
  ghost function AdvancedRun(current: Run, definition: Definition, results: seq<NodeResult>, certified: set<TaskId>): Run
  {
    var nodes := ApplyResults(current.nodes, results);
    current.(nodes := Settle(definition, nodes, certified), status := DeriveStatus(nodes, definition, certified))
  }

  /**
    The callback of `advanceOnce`. For any list of results the draft follows its events, unless the run
    carries an error and its status moves: the event clears the error, the draft does not.
   */
  method DraftAdvance(current: Run, definition: Definition, results: seq<NodeResult>, certified: set<TaskId>)
    returns (draft: Draft)
    requires DistinctIds(definition) && forall r :: r in results ==> r.nodeId in current.nodes
    ensures draft.run == AdvancedRun(current, definition, results, certified)
    ensures Tracks(current, draft) <==> current.error.None? || draft.run.status == current.status
    ensures results != [] ==> draft.emitted != []
  {
    draft := Edit(current, []);
    for i := 0 to |results|
      invariant Tracks(current, draft) && |draft.emitted| == i
      invariant draft.run == current.(nodes := ApplyResults(current.nodes, results[..i]))
    {
      assert results[..i + 1][..i] == results[..i] && results[i] in results;
      ResultsKeepKeys(current.nodes, results[..i]);
      SetNodeTracks(current, draft, results[i].nodeId, results[i].advance.state);
      draft := SetNode(draft, results[i].nodeId, results[i].advance.state);
    }
    assert results[..|results|] == results;
    var status := DeriveStatus(draft.run.nodes, definition, certified);
    SettledStatus(definition, draft.run.nodes, certified);
    if status == RunStatus.VerifiedComplete {
      draft := SkipCompensations(current, definition, draft);
      status := DeriveStatus(draft.run.nodes, definition, certified);
    }
    if status != draft.run.status {
      SetStatusTracks(current, draft, StatusChanged, status, draft.run.error, None);
      draft := SetStatus(draft, StatusChanged, status, draft.run.error, None);
    }
  }

  const UNRECONCILED := "workflow_contains_unreconciled_mutation"

  ghost function RecoveredRun(current: Run, definition: Definition, nodes: map<NodeId, NodeState>, certified: set<TaskId>): Run
  {
    var status := DeriveStatus(nodes, definition, certified);
    current.(nodes := Settle(definition, nodes, certified), status := status,
             error := if status == RunStatus.RecoveryRequired then Some(UNRECONCILED) else None)
  }

  /** Node states once the first `n` nodes of the definition have their recovered state. */
  ghost predicate RecoveredUpTo(definition: Definition, before: map<NodeId, NodeState>, recovered: map<NodeId, NodeState>,
                                nodes: map<NodeId, NodeState>, n: nat)
    requires n <= |definition|
  {
    nodes.Keys == before.Keys
    && forall i :: 0 <= i < |definition| && definition[i].id in before && definition[i].id in recovered ==>
        nodes[definition[i].id] == if i < n then recovered[definition[i].id] else before[definition[i].id]
  }

  /** The callback of `recoverInterrupted`: always accepted, because it reports the error it keeps. */
  method DraftRecovery(current: Run, definition: Definition, recovered: map<NodeId, NodeState>, certified: set<TaskId>)
    returns (draft: Draft)
    requires DistinctIds(definition) && current.nodes.Keys == Members(Ids(definition)) && recovered.Keys == current.nodes.Keys
    ensures draft.run == RecoveredRun(current, definition, recovered, certified)
    ensures Tracks(current, draft) && draft.emitted != []
  {
    draft := Edit(current, []);
    for i := 0 to |definition|
      invariant Tracks(current, draft)
      invariant draft.run == current.(nodes := draft.run.nodes)
      invariant RecoveredUpTo(definition, current.nodes, recovered, draft.run.nodes, i)
    {
      var id := definition[i].id;
      assert Ids(definition)[i] in Ids(definition);
      forall j | 0 <= j < |definition| && j != i ensures definition[j].id != id {
        assert Ids(definition)[i] != Ids(definition)[j];
      }
      if draft.run.nodes[id] != recovered[id] {
        SetNodeTracks(current, draft, id, recovered[id]);
        draft := SetNode(draft, id, recovered[id]);
      }
    }
    assert draft.run.nodes == recovered by {
      forall id | id in recovered ensures draft.run.nodes[id] == recovered[id] {
        assert id in Ids(definition);
        var i :| 0 <= i < |definition| && Ids(definition)[i] == id;
        assert definition[i].id == id;
      }
    }
    var status := DeriveStatus(draft.run.nodes, definition, certified);
    SettledStatus(definition, draft.run.nodes, certified);
    if status == RunStatus.VerifiedComplete {
      draft := SkipCompensations(current, definition, draft);
      status := DeriveStatus(draft.run.nodes, definition, certified);
    }
    var needed := status == RunStatus.RecoveryRequired;
    var error := if needed then Some(UNRECONCILED) else None;
    var kind := if needed then NeedsRecovery else Recovered;
    SetStatusTracks(current, draft, kind, status, error, error);
    draft := SetStatus(draft, kind, status, error, error);
  }

  /** `halt`: the draft keeps the error, the event clears it. */
  function DraftHalt(current: Run, to: RunStatus, kind: ChangeKind): Draft
  {
    SetStatus(Edit(current, []), kind, to, current.error, None)
  }

  lemma HaltTracksWithoutError(current: Run, to: RunStatus, kind: ChangeKind)
    requires KindAllows(kind, to)
    ensures Tracks(current, DraftHalt(current, to, kind)) <==> current.error.None?
  {
    SetStatusTracks(current, Edit(current, []), kind, to, current.error, None);
  }

  predicate SomeNode(nodes: map<NodeId, NodeState>, status: NodeStatus)
  {
    exists id :: id in nodes && nodes[id].status == status
  }

  /** `resume`: what the graph was waiting for before the halt. */
  function ResumedStatus(nodes: map<NodeId, NodeState>): RunStatus
  {
    if SomeNode(nodes, NodeStatus.AwaitingApproval) then RunStatus.AwaitingApproval
    else if SomeNode(nodes, NodeStatus.AwaitingInput) then RunStatus.AwaitingInput
    else RunStatus.Running
  }

  function DraftResume(current: Run): Draft
  {
    SetStatus(Edit(current, []), Resumed, ResumedStatus(current.nodes), None, None)
  }

  lemma ResumeTracks(current: Run)
    ensures Tracks(current, DraftResume(current))
  {
    SetStatusTracks(current, Edit(current, []), Resumed, ResumedStatus(current.nodes), None, None);
  }

  predicate Cancellable(status: NodeStatus)
  {
    status in {NodeStatus.Pending, NodeStatus.Ready, NodeStatus.AwaitingApproval}
  }

  function CancelNode(state: NodeState): NodeState
  {
    if Cancellable(state.status) then state.(status := NodeStatus.Cancelled) else state
  }

  ghost function CancelledRun(current: Run): Run
  {
    current.(nodes := map id | id in current.nodes :: CancelNode(current.nodes[id]), status := RunStatus.Cancelled, error := None)
  }

  /** The callback of `cancel`; the order in which the nodes are visited does not matter. */
  method DraftCancel(current: Run) returns (draft: Draft, tasks: set<TaskId>)
    ensures draft.run == CancelledRun(current) && Tracks(current, draft) && draft.emitted != []
    ensures tasks == set id, t | id in current.nodes && Cancellable(current.nodes[id].status) && t in current.nodes[id].taskIds :: t
  {
    draft, tasks := Edit(current, []), {};
    var todo := current.nodes.Keys;
    while todo != {}
      invariant todo <= current.nodes.Keys && Tracks(current, draft)
      invariant draft.run == current.(nodes := map id | id in current.nodes ::
                                      if id in todo then current.nodes[id] else CancelNode(current.nodes[id]))
      invariant tasks == set id, t | id in current.nodes - todo && Cancellable(current.nodes[id].status) && t in current.nodes[id].taskIds :: t
      decreases todo
    {
      var nodeId :| nodeId in todo;
      var node := draft.run.nodes[nodeId];
      if Cancellable(node.status) {
        tasks := tasks + set t | t in node.taskIds;
        SetNodeTracks(current, draft, nodeId, CancelNode(node));
        draft := SetNode(draft, nodeId, CancelNode(node));
      }
      todo := todo - {nodeId};
    }
    SetStatusTracks(current, draft, WasCancelled, RunStatus.Cancelled, None, None);
    draft := SetStatus(draft, WasCancelled, RunStatus.Cancelled, None, None);
  }
}
