/**
  Two workflows, called from an empty store and interrupted once, in which the recovery of
  packages/runtime-core/src/workflow-controller.ts leaves something a caller may not expect: a started node
  behind an approval that is no longer finished, and a run with an error that can be neither paused nor
  advanced past its status.
 */
module RecoveryCases {
  import opened Wrappers
  import opened Text
  import opened Counting
  import opened Protocol
  import opened WorkflowStores
  import opened Layering
  import opened WorkflowGraph
  import opened WorkflowDrafts
  import opened NodeSchedulers
  import opened NodeRecovery
  import opened WorkflowControllers
  import opened WorkflowRecovery

  const FIRST: NodeId := [97]
  const SECOND: NodeId := [98]

  lemma TwoIds(first: Node, second: Node)
    requires first.id == FIRST && second.id == SECOND
    ensures DistinctIds([first, second]) && Members(Ids([first, second])) == {FIRST, SECOND}
    ensures Table([first, second]) == map[FIRST := first, SECOND := second]
  {
    assert FIRST[0] != SECOND[0];
    assert Ids([first, second]) == [FIRST, SECOND];
    assert [first, second][..1] == [first] && [first][..0] == [];
    assert Table([first]) == map[FIRST := first];
  }

  /** Two nodes, of which the second may depend on the first, have no cycle. */
  lemma TwoAreAcyclic(g: Graph)
    requires g.Keys == {FIRST, SECOND} && g[FIRST] == [] && (g[SECOND] == [] || g[SECOND] == [FIRST])
    ensures Acyclic(g)
  {
    assert FIRST[0] != SECOND[0];
    var level: map<NodeId, nat> := map[FIRST := 0, SECOND := if g[SECOND] == [] then 0 else 1];
    forall n | n in level && level[n] > 0 ensures HasParentAt(g, level, n, level[n] - 1) {
      assert FIRST in g[SECOND] && level[FIRST] == 0;
    }
    LevelledIsAcyclic(g, level);
  }

  // ----- the first workflow: an operation behind its approval

  const APPROVAL := Node(FIRST, [], Approval(SECOND))
  const APPROVED := Node(SECOND, [FIRST], Operation)

  const APPROVED_OPERATION: Definition := [APPROVAL, APPROVED]

  lemma ApprovedGraph()
    ensures GraphOf(Table(APPROVED_OPERATION)) == map[FIRST := [], SECOND := [FIRST]]
  {
    TwoIds(APPROVAL, APPROVED);
    assert FIRST[0] != SECOND[0];
  }

  lemma ApprovalComesFirst(g: Graph)
    requires g == map[FIRST := [], SECOND := [FIRST]]
    ensures Precedes(g, FIRST, SECOND)
  {
    assert FIRST[0] != SECOND[0];
    assert FIRST in [FIRST];
    assert ChainTo(g, [FIRST, SECOND], SECOND);
  }

  lemma ApprovedIsValid()
    ensures ValidDefinition(APPROVED_OPERATION)
  {
    TwoIds(APPROVAL, APPROVED);
    assert FIRST[0] != SECOND[0];
    ApprovedGraph();
    TwoAreAcyclic(GraphOf(Table(APPROVED_OPERATION)));
    ApprovalComesFirst(GraphOf(Table(APPROVED_OPERATION)));
    var table := Table(APPROVED_OPERATION);
    assert CheckDependencies(table, SECOND, [FIRST][1..]).None?;
    assert CheckNode(table, APPROVAL).None? && CheckNode(table, APPROVED).None?;
  }

  /** Node states after the first advance: the approval found its task planned, so it is done, and nothing has run. */
  function ApprovedNodes(): map<NodeId, NodeState>
  {
    map[FIRST := Fresh(NodeStatus.VerifiedComplete, [7]), SECOND := Fresh(NodeStatus.Pending, [])]
  }

  const APPROVAL_DONE := NodeResult(FIRST, NodeAdvance(Fresh(NodeStatus.VerifiedComplete, [7]), false))

  lemma FirstAreMembers<T>(s: seq<T>)
    ensures s == [] || s[0] in s
    ensures |s| > 1 ==> s[1] in s && (Distinct(s) ==> s[0] != s[1])
  {
  }

  lemma OnlyMember(ids: seq<NodeId>, id: NodeId)
    requires Distinct(ids) && forall x :: x in ids <==> x == id
    ensures ids == [id]
  {
    assert id in ids;
    FirstAreMembers(ids);
  }

  /** The first advance takes the approval node. */
  lemma ApprovalIsSelected(run: Run)
    requires run.nodes == PlannedNodes(APPROVED_OPERATION) && run.status == RunStatus.Planned
    ensures Select(run, APPROVED_OPERATION) == [FIRST]
  {
    TwoIds(APPROVAL, APPROVED);
    assert FIRST[0] != SECOND[0];
    assert FIRST in APPROVED.dependsOn;
    var ready := ReadyNodeIds(APPROVED_OPERATION, run.nodes);
    forall x ensures x in ready <==> x == FIRST {
      if x == FIRST {
        assert APPROVED_OPERATION[0].id == x && IsReady(run.nodes, APPROVED_OPERATION[0]);
      }
    }
    OnlyMember(ready, FIRST);
    NoneAwaits(run.nodes, APPROVED_OPERATION);
  }

  lemma NoneAwaits(nodes: map<NodeId, NodeState>, definition: Definition)
    requires forall i :: 0 <= i < |definition| ==> !Awaits(nodes, definition[i])
    ensures Awaiting(definition, nodes) == []
  {
    FirstAreMembers(Awaiting(definition, nodes));
  }

  lemma NoFailure(result: NodeResult)
    requires !result.advance.state.status.Failed?
    ensures !SomeFailed([result])
  {
  }

  lemma OneGathered(id: NodeId, outcome: NodeId -> Option<NodeAdvance>, advance: NodeAdvance)
    requires outcome(id) == Some(advance)
    ensures Gather([id], outcome) == Some([NodeResult(id, advance)])
  {
    assert [id][..0] == [];
    assert Gather([id][..0], outcome) == Some([]);
    assert [] + [NodeResult(id, advance)] == [NodeResult(id, advance)];
  }

  /** The state the first advance leaves is running, for its operation is still pending. */
  lemma ApprovedIsRunning(run: Run, certified: set<TaskId>)
    requires run.nodes == PlannedNodes(APPROVED_OPERATION)
    ensures AdvancedRun(run, APPROVED_OPERATION, [APPROVAL_DONE], certified)
         == run.(nodes := ApprovedNodes(), status := RunStatus.Running)
  {
    TwoIds(APPROVAL, APPROVED);
    assert FIRST[0] != SECOND[0];
    assert [APPROVAL_DONE][..0] == [];
    assert ApplyResults(run.nodes, []) == run.nodes;
    assert ApplyResults(run.nodes, [APPROVAL_DONE]) == ApprovedNodes();
    assert !ProvenDone(ApprovedNodes(), certified, APPROVED_OPERATION[1].id);
    assert !AllRequiredProven(APPROVED_OPERATION, ApprovedNodes(), certified);
  }

  lemma ApprovedIsInOrder()
    ensures WaveClosed(APPROVED_OPERATION, ApprovedNodes())
  {
    assert FIRST[0] != SECOND[0];
  }

  lemma OneRowNotVerified(row: TaskView, previous: NodeState)
    requires row.status != TaskStatus.VerifiedSuccess
    ensures !ComesBackFinished(previous, [row])
  {
    assert [row][0] == row;
  }

  lemma SharedRowBreaksOrder(rows: Rows, row: TaskView, complete: bool)
    requires row.status != TaskStatus.VerifiedSuccess && rows(FIRST) == [row] && rows(SECOND) == [row]
    ensures !RowsKeepWave(APPROVED_OPERATION, ApprovedNodes(), rows, complete)
  {
    OneRowNotVerified(row, ApprovedNodes()[FIRST]);
    assert FIRST[0] != SECOND[0];
    assert StartedByRows(APPROVED_OPERATION[1], ApprovedNodes(), rows);
    assert APPROVED.dependsOn == [FIRST] && FIRST in [FIRST];
    assert !DependencyByRows(APPROVED_OPERATION, ApprovedNodes(), rows, complete, FIRST);
  }

  /**
    The operation was begun and a crash came before the advance could commit. An approval node is looked up
    under the key of the operation it approves, so both nodes get the row of the one task; unless that task
    is verified, the approval is no longer finished and the operation has started behind it.
   */
  lemma RecoveryTakesBackAnApproval(definitions: map<(nat, nat), Definition>, certified: set<TaskId>, run: Run, rows: Rows, row: TaskView)
    requires (run.definitionId, run.definitionVersion) in definitions && DefinitionOf(definitions, run) == APPROVED_OPERATION
    requires run.nodes == ApprovedNodes()
    requires row.status != TaskStatus.VerifiedSuccess && rows(FIRST) == [row] && rows(SECOND) == [row]
    ensures RunWaveClosed(definitions, run)
    ensures !RunWaveClosed(definitions, RecoveryTarget(definitions, certified, run, rows))
  {
    TwoIds(APPROVAL, APPROVED);
    ApprovedIsInOrder();
    RecoveryKeepsWaveIff(definitions, certified, run, rows);
    SharedRowBreaksOrder(rows, row, AllComeBackProven(APPROVED_OPERATION, ApprovedNodes(), rows, certified));
  }

  /** The store holds one run, and the definition it was planned from. */
  ghost predicate HoldsOne(s: WorkflowStore, id: WorkflowId, run: Run, definition: Definition)
    reads s
  {
    s.runs == map[id := run] && DefinitionOf(s.definitions, run) == definition
  }

  ghost predicate JustPlanned(run: Run, definition: Definition)
  {
    run.nodes == PlannedNodes(definition) && run.status == RunStatus.Planned && run.error.None? && run.stateVersion == 2
  }

  method NewController() returns (c: WorkflowController)
    ensures fresh(c.store) && Valid(c.store)
    ensures c.store.runs == map[] && c.store.definitions == map[] && c.store.certified == {}
  {
    var store := new WorkflowStore();
    c := new WorkflowController(store);
  }

  lemma AddedToEmpty(definition: Definition, run: Run)
    ensures map[][(run.definitionId, run.definitionVersion) := definition] == map[(run.definitionId, run.definitionVersion) := definition]
    ensures DefinitionOf(map[(run.definitionId, run.definitionVersion) := definition], run) == definition
  {
  }

  method PlanFirst(c: WorkflowController, definition: Definition, id: WorkflowId, traceId: nat, createdAt: int, denied: NodeId -> bool)
    returns (planned: Run)
    requires Valid(c.store) && c.store.runs == map[] && c.store.definitions == map[]
    requires ValidDefinition(definition) && forall i :: 0 <= i < |definition| ==> !denied(definition[i].id)
    modifies c.store
    ensures Valid(c.store) && HoldsOne(c.store, id, planned, definition) && JustPlanned(planned, definition)
  {
    var r := c.Plan(definition, 0, 0, id, traceId, createdAt, denied);
    planned := r.value;
    AddedToEmpty(definition, planned);
  }

  /** A controller over an empty store, and the first workflow planned. */
  method NewPlanned(definition: Definition, id: WorkflowId, traceId: nat, createdAt: int, denied: NodeId -> bool)
    returns (c: WorkflowController, planned: Run)
    requires ValidDefinition(definition) && forall i :: 0 <= i < |definition| ==> !denied(definition[i].id)
    ensures fresh(c.store) && Valid(c.store) && HoldsOne(c.store, id, planned, definition) && JustPlanned(planned, definition)
  {
    c := NewController();
    planned := PlanFirst(c, definition, id, traceId, createdAt, denied);
  }

  lemma OneMoved(definitions: map<(nat, nat), Definition>, id: WorkflowId, current: Run, after: map<WorkflowId, Run>, target: Run, value: Run)
    requires Moved(map[id := current], after, id, target, value)
    requires target.definitionId == current.definitionId && target.definitionVersion == current.definitionVersion
    ensures after == map[id := value] && MovedTo(current, value, target)
    ensures DefinitionOf(definitions, value) == DefinitionOf(definitions, current)
  {
  }

  method AdvanceOne(c: WorkflowController, id: WorkflowId, current: Run, definition: Definition, ghost results: seq<NodeResult>,
                    outcome: NodeId -> Option<NodeAdvance>, compensate: NodeId -> Option<NodeState>)
    returns (r: Result<Run, WorkflowError>, ghost target: Run)
    requires Valid(c.store) && HoldsOne(c.store, id, current, definition) && !Terminal(current.status) && !IsHalted(current.status)
    requires Select(current, definition) != [] && Collected(current, definition, outcome, compensate) == Some(results)
    modifies c.store
    ensures Valid(c.store) && target == AdvancedRun(current, definition, results, old(c.store.certified))
    ensures r.Ok? <==> current.error.None? || target.status == current.status
    ensures r.Ok? ==> HoldsOne(c.store, id, r.value, definition) && MovedTo(current, r.value, target)
    ensures r.Err? ==> HoldsOne(c.store, id, current, definition)
  {
    StoredIsRecorded(c.store, id);
    target := AdvancedRun(current, definition, results, c.store.certified);
    r := c.Advance(current, outcome, compensate);
    if r.Ok? {
      OneMoved(c.store.definitions, id, current, c.store.runs, target, r.value);
    }
  }

  method RecoverOne(c: WorkflowController, id: WorkflowId, current: Run, definition: Definition, found: (WorkflowId, NodeId) -> seq<TaskView>)
    returns (after: Run, ghost target: Run)
    requires Valid(c.store) && HoldsOne(c.store, id, current, definition) && Recoverable(current.status)
    modifies c.store
    ensures Valid(c.store) && HoldsOne(c.store, id, after, definition) && MovedTo(current, after, target)
    ensures c.store.definitions == old(c.store.definitions)
    ensures target == RecoveryTarget(old(c.store.definitions), old(c.store.certified), current, RowsOf(found, id))
  {
    target := RecoveryTarget(c.store.definitions, c.store.certified, current, RowsOf(found, id));
    ghost var targets := Targets(c.store.definitions, c.store.certified, c.store.runs, found);
    var recovered := c.RecoverInterrupted(found);
    after := c.store.runs[id];
    OneRecovered(id, current, c.store.runs, targets, recovered);
  }

  lemma OneRecovered(id: WorkflowId, current: Run, after: map<WorkflowId, Run>, targets: map<WorkflowId, Run>, recovered: set<WorkflowId>)
    requires RecoveredOnly(map[id := current], after, targets, recovered)
    ensures id in after && after == map[id := after[id]] && id in targets
    ensures id in recovered ==> MovedTo(current, after[id], targets[id])
  {
    var before: map<WorkflowId, Run> := map[id := current];
    assert id in before && before[id] == current;
    assert after.Keys == {id};
  }

  lemma ApprovalIsCollected(planned: Run, outcome: NodeId -> Option<NodeAdvance>, compensate: NodeId -> Option<NodeState>)
    requires JustPlanned(planned, APPROVED_OPERATION) && outcome(FIRST) == Some(APPROVAL_DONE.advance)
    ensures Select(planned, APPROVED_OPERATION) == [FIRST]
    ensures Collected(planned, APPROVED_OPERATION, outcome, compensate) == Some([APPROVAL_DONE])
  {
    ApprovalIsSelected(planned);
    OneGathered(FIRST, outcome, APPROVAL_DONE.advance);
    NoFailure(APPROVAL_DONE);
  }

  /** The first advance. */
  method AdvanceApproval(c: WorkflowController, id: WorkflowId, planned: Run, outcome: NodeId -> Option<NodeAdvance>,
                         compensate: NodeId -> Option<NodeState>)
    returns (advanced: Run)
    requires Valid(c.store) && HoldsOne(c.store, id, planned, APPROVED_OPERATION) && JustPlanned(planned, APPROVED_OPERATION)
    requires outcome(FIRST) == Some(APPROVAL_DONE.advance)
    modifies c.store
    ensures Valid(c.store) && HoldsOne(c.store, id, advanced, APPROVED_OPERATION)
    ensures advanced.nodes == ApprovedNodes() && advanced.status == RunStatus.Running
  {
    ApprovalIsCollected(planned, outcome, compensate);
    ApprovedIsRunning(planned, c.store.certified);
    ghost var target;
    var r;
    r, target := AdvanceOne(c, id, planned, APPROVED_OPERATION, [APPROVAL_DONE], outcome, compensate);
    advanced := r.value;
  }

  /** Plan, and the first advance. */
  method ApprovedRun(id: WorkflowId, traceId: nat, createdAt: int, denied: NodeId -> bool,
                     outcome: NodeId -> Option<NodeAdvance>, compensate: NodeId -> Option<NodeState>)
    returns (c: WorkflowController, advanced: Run)
    requires !denied(FIRST) && !denied(SECOND) && outcome(FIRST) == Some(APPROVAL_DONE.advance)
    ensures fresh(c.store) && Valid(c.store) && HoldsOne(c.store, id, advanced, APPROVED_OPERATION)
    ensures advanced.nodes == ApprovedNodes() && advanced.status == RunStatus.Running
  {
    ApprovedIsValid();
    var planned;
    c, planned := NewPlanned(APPROVED_OPERATION, id, traceId, createdAt, denied);
    advanced := AdvanceApproval(c, id, planned, outcome, compensate);
  }

  /**
    Plan, one advance, a crash during the second, recovery: the order of the one stored run is lost. The
    approval finds its task planned, which takes a task that the policy allows at once.
   */
  method ApprovalIsTakenBack(id: WorkflowId, traceId: nat, createdAt: int, denied: NodeId -> bool,
                             outcome: NodeId -> Option<NodeAdvance>, compensate: NodeId -> Option<NodeState>,
                             found: (WorkflowId, NodeId) -> seq<TaskView>, row: TaskView)
    returns (c: WorkflowController, advanced: Run, after: Run)
    requires !denied(FIRST) && !denied(SECOND) && outcome(FIRST) == Some(APPROVAL_DONE.advance)
    requires row.id == 7 && row.status != TaskStatus.VerifiedSuccess && found(id, FIRST) == [row] && found(id, SECOND) == [row]
    ensures fresh(c.store) && Valid(c.store) && HoldsOne(c.store, id, after, APPROVED_OPERATION)
    ensures advanced.nodes == ApprovedNodes() && advanced.status == RunStatus.Running
    ensures RunWaveClosed(c.store.definitions, advanced) && !RunWaveClosed(c.store.definitions, after)
  {
    c, advanced := ApprovedRun(id, traceId, createdAt, denied, outcome, compensate);
    RecoveryTakesBackAnApproval(c.store.definitions, c.store.certified, advanced, RowsOf(found, id), row);
    ghost var target;
    after, target := RecoverOne(c, id, advanced, APPROVED_OPERATION, found);
  }

  // ----- the second workflow: two operations that do not wait for each other

  const LEFT := Node(FIRST, [], Operation)
  const RIGHT := Node(SECOND, [], Operation)

  const PAIR: Definition := [LEFT, RIGHT]

  lemma PairIsValid()
    ensures ValidDefinition(PAIR)
  {
    TwoIds(LEFT, RIGHT);
    assert FIRST[0] != SECOND[0];
    var table := Table(PAIR);
    assert GraphOf(table) == map[FIRST := [], SECOND := []];
    TwoAreAcyclic(GraphOf(table));
    assert CheckNode(table, LEFT).None? && CheckNode(table, RIGHT).None?;
  }

  /** The first operation was called and its outcome could not be established; the second was never planned. */
  function UnclearNodes(row: TaskView): map<NodeId, NodeState>
  {
    map[FIRST := Fresh(NodeStatus.RecoveryRequired, [7]).(error := row.error), SECOND := Fresh(NodeStatus.Pending, [])]
  }

  lemma UnclearNode(row: TaskView, previous: NodeState)
    requires row.id == 7 && row.status == TaskStatus.RecoveryRequired
    ensures RecoveredNodeState(Operation, [row], previous) == Fresh(NodeStatus.RecoveryRequired, [7]).(error := row.error)
  {
    assert [row][0] == row && row in [row];
    assert HasStatus([row], {TaskStatus.RecoveryRequired});
    assert ViewIds([row]) == [7];
  }

  lemma UnclearNodesRecovered(rows: Rows, row: TaskView)
    requires row.id == 7 && row.status == TaskStatus.RecoveryRequired && rows(FIRST) == [row] && rows(SECOND) == []
    ensures RecoveredNodes(PAIR, PlannedNodes(PAIR), rows) == UnclearNodes(row)
  {
    TwoIds(LEFT, RIGHT);
    assert FIRST[0] != SECOND[0];
    UnclearNode(row, Fresh(NodeStatus.Pending, []));
  }

  lemma UnclearStatus(row: TaskView, certified: set<TaskId>)
    ensures DeriveStatus(UnclearNodes(row), PAIR, certified) == RunStatus.RecoveryRequired
  {
    assert FIRST[0] != SECOND[0];
    assert PAIR[0].id == FIRST && PAIR[1].id == SECOND;
  }

  /** What recovery makes of the planned run: an error stands beside the status. */
  lemma UnclearTarget(definitions: map<(nat, nat), Definition>, certified: set<TaskId>, planned: Run, rows: Rows, row: TaskView)
    requires DefinitionOf(definitions, planned) == PAIR && planned.nodes == PlannedNodes(PAIR)
    requires row.id == 7 && row.status == TaskStatus.RecoveryRequired && rows(FIRST) == [row] && rows(SECOND) == []
    ensures RecoveryTarget(definitions, certified, planned, rows)
         == planned.(nodes := UnclearNodes(row), status := RunStatus.RecoveryRequired, error := Some(UNRECONCILED))
  {
    UnclearNodesRecovered(rows, row);
    UnclearStatus(row, certified);
  }

  /** The second operation is ready all the same. */
  lemma RightIsSelected(run: Run, row: TaskView)
    requires run.nodes == UnclearNodes(row) && run.status == RunStatus.RecoveryRequired
    ensures Select(run, PAIR) == [SECOND]
  {
    TwoIds(LEFT, RIGHT);
    assert FIRST[0] != SECOND[0];
    var ready := ReadyNodeIds(PAIR, run.nodes);
    forall x ensures x in ready <==> x == SECOND {
      if x == SECOND {
        assert PAIR[1].id == x && IsReady(run.nodes, PAIR[1]);
      }
    }
    OnlyMember(ready, SECOND);
    NoneAwaits(run.nodes, PAIR);
  }

  const RIGHT_FAILED := NodeResult(SECOND, NodeAdvance(Fresh(NodeStatus.Failed, [8]), false))

  lemma RightIsCollected(run: Run, row: TaskView, outcome: NodeId -> Option<NodeAdvance>, compensate: NodeId -> Option<NodeState>)
    requires run.nodes == UnclearNodes(row) && run.status == RunStatus.RecoveryRequired
    requires outcome(SECOND) == Some(RIGHT_FAILED.advance)
    ensures Select(run, PAIR) == [SECOND]
    ensures Collected(run, PAIR, outcome, compensate) == Some([RIGHT_FAILED])
  {
    RightIsSelected(run, row);
    OneGathered(SECOND, outcome, RIGHT_FAILED.advance);
    assert PAIR[1].kind.Operation? && PAIR[0].kind.Operation?;
    assert WithCompensations(run, PAIR, 2, [RIGHT_FAILED], compensate) == Some([RIGHT_FAILED]);
    assert WithCompensations(run, PAIR, 1, [RIGHT_FAILED], compensate) == Some([RIGHT_FAILED]);
  }

  lemma RightMovesTheStatus(run: Run, row: TaskView, certified: set<TaskId>)
    requires run.nodes == UnclearNodes(row)
    ensures AdvancedRun(run, PAIR, [RIGHT_FAILED], certified).status == RunStatus.Failed
  {
    assert FIRST[0] != SECOND[0];
    assert [RIGHT_FAILED][..0] == [];
    var nodes := ApplyResults(run.nodes, [RIGHT_FAILED]);
    assert nodes == ApplyResults(run.nodes, [])[SECOND := RIGHT_FAILED.advance.state];
    assert PAIR[1].id == SECOND && IsRequired(PAIR[1]) && nodes[SECOND].status == NodeStatus.Failed;
  }

  method HaltRefused(c: WorkflowController, id: WorkflowId, current: Run, definition: Definition, to: RunStatus, kind: ChangeKind)
    returns (r: Result<Run, WorkflowError>)
    requires Valid(c.store) && HoldsOne(c.store, id, current, definition)
    requires current.error.Some? && current.status == RunStatus.RecoveryRequired
    requires (to == RunStatus.Paused && kind == WasPaused) || (to == RunStatus.Suspended && kind == WasSuspended)
    modifies c.store
    ensures Valid(c.store) && HoldsOne(c.store, id, current, definition) && r == Err(ProjectionMismatch)
    ensures c.store.certified == old(c.store.certified)
  {
    r := c.Halt(id, to, kind);
  }

  /** Plan, a crash during the first advance, recovery: the run carries an error. */
  method UnclearRun(id: WorkflowId, traceId: nat, createdAt: int, denied: NodeId -> bool,
                    found: (WorkflowId, NodeId) -> seq<TaskView>, row: TaskView)
    returns (c: WorkflowController, after: Run)
    requires !denied(FIRST) && !denied(SECOND)
    requires row.id == 7 && row.status == TaskStatus.RecoveryRequired && found(id, FIRST) == [row] && found(id, SECOND) == []
    ensures fresh(c.store) && Valid(c.store) && HoldsOne(c.store, id, after, PAIR)
    ensures after.nodes == UnclearNodes(row) && after.status == RunStatus.RecoveryRequired && after.error.Some?
  {
    PairIsValid();
    var planned;
    c, planned := NewPlanned(PAIR, id, traceId, createdAt, denied);
    UnclearTarget(c.store.definitions, c.store.certified, planned, RowsOf(found, id), row);
    ghost var target;
    after, target := RecoverOne(c, id, planned, PAIR, found);
  }

  /**
    Such a run can be neither paused nor suspended, and the advance in which the second operation fails is
    refused after that operation has run.
   */
  method ErrorIsStuck(id: WorkflowId, traceId: nat, createdAt: int, denied: NodeId -> bool,
                      outcome: NodeId -> Option<NodeAdvance>, compensate: NodeId -> Option<NodeState>,
                      found: (WorkflowId, NodeId) -> seq<TaskView>, row: TaskView)
    returns (c: WorkflowController, after: Run, paused: Result<Run, WorkflowError>, suspended: Result<Run, WorkflowError>,
             advanced: Result<Run, WorkflowError>)
    requires !denied(FIRST) && !denied(SECOND) && outcome(SECOND) == Some(RIGHT_FAILED.advance)
    requires row.id == 7 && row.status == TaskStatus.RecoveryRequired && found(id, FIRST) == [row] && found(id, SECOND) == []
    ensures fresh(c.store) && Valid(c.store) && HoldsOne(c.store, id, after, PAIR)
    ensures after.status == RunStatus.RecoveryRequired && after.error.Some? && Select(after, PAIR) == [SECOND]
    ensures paused == suspended == Err(ProjectionMismatch) && advanced.Err?
  {
    c, after := UnclearRun(id, traceId, createdAt, denied, found, row);
    paused := HaltRefused(c, id, after, PAIR, RunStatus.Paused, WasPaused);
    suspended := HaltRefused(c, id, after, PAIR, RunStatus.Suspended, WasSuspended);
    RightIsCollected(after, row, outcome, compensate);
    RightMovesTheStatus(after, row, c.store.certified);
    ghost var target;
    advanced, target := AdvanceOne(c, id, after, PAIR, [RIGHT_FAILED], outcome, compensate);
  }
}
