/**
  The records of packages/protocol/src/index.ts that the durable core reads and writes. Identifiers are
  opaque values, timestamps are integers; fields that no decision looks at are left out.
 */
module Protocol {
  import opened Wrappers
  import opened Text

  type NodeId = Text
  type WorkflowId = nat
  type TaskId = nat

  datatype Kind =
    | Operation
    | Approval(forNode: NodeId)
    | Condition(source: NodeId)
    | Parallel
    | BoundedLoop(bodyLength: nat)
    | Checkpoint
    | Compensation(forNode: NodeId)
    | HumanInput
    | Delegation

  datatype Node = Node(id: NodeId, dependsOn: seq<NodeId>, kind: Kind)

  /** `definition.nodes`, in the order the author wrote them. */
  type Definition = seq<Node>

  datatype NodeStatus =
    | Pending | Ready | AwaitingApproval | AwaitingInput | Running | Verifying
    | VerifiedComplete | Skipped | RecoveryRequired | Failed | Cancelled | Compensated

  datatype NodeState = NodeState(
    status: NodeStatus,
    taskIds: seq<TaskId>,
    iterations: Option<nat>,
    approvalId: Option<nat>,
    prompt: Option<string>,
    input: Option<string>,
    error: Option<string>)

  datatype TaskStatus =
    | Planned | AwaitingApproval | Running | Verifying | VerifiedSuccess | Partial
    | Failed | Cancelled | WaitingUser | PolicyBlocked | BudgetExhausted | RecoveryRequired

  datatype RunStatus =
    | Draft | Planned | AwaitingApproval | AwaitingInput | Running | Paused | Suspended
    | PartiallyComplete | VerifiedComplete | RecoveryRequired | Failed | Cancelled

  datatype Run = Run(
    id: WorkflowId,
    traceId: nat,
    definitionId: nat,
    definitionVersion: nat,
    status: RunStatus,
    stateVersion: nat,
    nodes: map<NodeId, NodeState>,
    error: Option<string>,
    createdAt: int,
    updatedAt: int)

  /** The event types whose data is a status change; the rest have data of their own. */
  datatype ChangeKind = StatusChanged | WasCancelled | Recovered | NeedsRecovery | WasPaused | WasSuspended | Resumed

  datatype EventData =
    | Created(run: Run)
    | StatusChange(kind: ChangeKind, from: RunStatus, to: RunStatus, error: Option<string>)
    | NodeChange(nodeId: NodeId, fromNode: NodeStatus, state: NodeState)
    | CheckpointSaved(sequence: nat)

  datatype Event = Event(aggregateId: WorkflowId, sequence: nat, traceId: nat, data: EventData, occurredAt: int)

  /** A node in one of these states no longer holds back the nodes that depend on it. */
  predicate Finished(status: NodeStatus)
  {
    status in {NodeStatus.VerifiedComplete, NodeStatus.Skipped, NodeStatus.Compensated}
  }

  function Fresh(status: NodeStatus, taskIds: seq<TaskId>): NodeState
  {
    NodeState(status, taskIds, None, None, None, None, None)
  }
}
