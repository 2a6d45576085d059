/**
  What one advance of a node does to the tasks: when a task is planned, when it is executed and what state
  the node then reports; which task an approved operation goes on with; which branch of a condition counts.
 */
module NodeOutcomes {
  import opened Wrappers
  import opened Text
  import opened Protocol
  import opened WorkflowGraph
  import opened WorkflowDrafts
  import opened NodeSchedulers
  import opened NodeRecovery
  import opened NodeAdvances

  // ----- one task

  /** The status of the task before it may be executed: its row, or what the policy says to a new one. */
  function Found(env: Env, w: World, request: Request, existing: Option<TaskId>): TaskStatus
    requires existing.Some? ==> existing.value in w.tasks
  {
    match existing
    case Some(id) => w.tasks[id]
    case None => env.planned(request)
  }

  /** A planned task is executed unless only planning was asked for, an approval only with the approval in hand. */
  predicate Executes(env: Env, id: TaskId, found: TaskStatus, executePlanned: bool)
  {
    match found
    case Planned => executePlanned
    case AwaitingApproval => id in env.approved
    case _ => false
  }

  /** The node state that stands for a task of this status, by the statuses of both. */
  predicate Stands(task: TaskStatus, node: NodeStatus, plannedIsComplete: bool)
  {
    match node
    case VerifiedComplete => task.VerifiedSuccess? || (task.Planned? && plannedIsComplete)
    case Ready => task.Planned? && !plannedIsComplete
    case AwaitingApproval => task.AwaitingApproval?
    case RecoveryRequired => task.RecoveryRequired?
    case Cancelled => task.Cancelled?
    case Failed =>
      task.Failed? || task.Partial? || task.PolicyBlocked? || task.BudgetExhausted?
      || task.Running? || task.Verifying? || task.WaitingUser?
    case _ => false
  }

  lemma StandsFor(id: TaskId, task: TaskStatus, plannedIsComplete: bool)
    ensures Stands(task, NodeStateForTask(id, task, plannedIsComplete).status, plannedIsComplete)
    ensures NodeStateForTask(id, task, plannedIsComplete).taskIds == [id]
  {
  }

  /**
    One task of a node: planned only if there is none yet, under the next free id; executed exactly if it may
    be; and the node reports the state that stands for the row that is then there.
   */
  lemma RunTaskIsExact(env: Env, w: World, request: Request, existing: Option<TaskId>, executePlanned: bool, r: TaskRun)
    requires existing.Some? ==> existing.value in w.tasks
    requires r == RunTask(env, w, request, existing, executePlanned)
    ensures var id := if existing.Some? then existing.value else w.next;
      var executes := Executes(env, id, Found(env, w, request, existing), executePlanned);
      && r.world.next == (if existing.Some? then w.next else w.next + 1)
      && r.world.executions == (if executes then w.executions + [id] else w.executions)
      && r.world.tasks == w.tasks[id := if executes then env.outcome(id) else Found(env, w, request, existing)]
      && r.state.taskIds == [id]
      && Stands(r.world.tasks[id], r.state.status, !executePlanned)
  {
    var id := r.state.taskIds[0];
    StandsFor(id, r.world.tasks[id], !executePlanned);
    if existing.Some? && !Executes(env, id, w.tasks[id], executePlanned) {
      assert w.tasks[id := w.tasks[id]] == w.tasks;
    }
  }

  // ----- an operation and its approval

  lemma {:induction false} OneApproval(definition: Definition, i: nat, id: NodeId)
    requires i < |definition| && definition[i].kind == Approval(id)
    requires forall j :: 0 <= j < |definition| && definition[j].kind == Approval(id) ==> j == i
    ensures ApprovalOf(definition, id) == Some(definition[i].id)
  {
    if i > 0 {
      assert definition[0].kind != Approval(id);
      assert forall j :: 0 <= j < |definition[1..]| ==> definition[1..][j] == definition[j + 1];
      OneApproval(definition[1..], i - 1, id);
    }
  }

  /** The task a person approved is the one that runs: the operation plans no other. */
  lemma ApprovedTaskIsTheOneRun(env: Env, w: World, definition: Definition, nodes: map<NodeId, NodeState>, node: Node, works: Works,
                                answers: Answers, i: nat)
    requires CanAdvance(w, nodes, node, works(node.id)) && node.kind.Operation?
    requires i < |definition| && definition[i].kind == Approval(node.id)
    requires forall j :: 0 <= j < |definition| && definition[j].kind == Approval(node.id) ==> j == i
    requires definition[i].id in nodes && nodes[definition[i].id].taskIds != []
    ensures var ran := AdvanceNode(env, w, definition, nodes, node, works, answers);
      ran.Some? && ran.value.advance.state.taskIds == [nodes[definition[i].id].taskIds[0]]
      && ran.value.world.next == w.next
  {
    OneApproval(definition, i, node.id);
    assert Known(w, nodes[definition[i].id].taskIds);
  }

  /** An approval node never lets a planned task run; it plans the task of its operation and waits. */
  lemma ApprovalOnlyAsks(env: Env, w: World, definition: Definition, nodes: map<NodeId, NodeState>, node: Node, works: Works,
                         answers: Answers)
    requires CanAdvance(w, nodes, node, works(node.id)) && node.kind.Approval?
    requires AdvanceNode(env, w, definition, nodes, node, works, answers).Some?
    ensures var ran := AdvanceNode(env, w, definition, nodes, node, works, answers).value;
      |ran.advance.state.taskIds| == 1
      && var id := ran.advance.state.taskIds[0];
         id in ran.world.tasks && ran.world.executions in {w.executions, w.executions + [id]}
         && (ran.world.executions != w.executions ==> id in env.approved)
         && (ran.world.tasks[id].Planned? ==> ran.advance.state.status.VerifiedComplete?)
  {
    var existing := FirstTask(nodes, node.id);
    assert existing.Some? ==> Known(w, nodes[node.id].taskIds);
    RunTaskIsExact(env, w, works(node.kind.forNode).request, existing, false,
                   RunTask(env, w, works(node.kind.forNode).request, existing, false));
  }

  /** A node that has a task goes on with it and plans no other. */
  lemma GoesOnWithItsTask(env: Env, w: World, definition: Definition, nodes: map<NodeId, NodeState>, node: Node, works: Works,
                          answers: Answers)
    requires CanAdvance(w, nodes, node, works(node.id)) && nodes[node.id].taskIds != []
    requires node.kind.Compensation? || node.kind.Approval?
             || (node.kind.Operation? && OperationTask(definition, nodes, node.id) == Some(nodes[node.id].taskIds[0]))
    requires AdvanceNode(env, w, definition, nodes, node, works, answers).Some?
    ensures var ran := AdvanceNode(env, w, definition, nodes, node, works, answers).value;
      ran.advance.state.taskIds == [nodes[node.id].taskIds[0]] && ran.world.next == w.next
  {
    assert Known(w, nodes[node.id].taskIds);
  }

  /** A compensation that ran is compensated exactly if its task is verified, and never counts as work that is done. */
  lemma CompensatedIff(env: Env, w: World, definition: Definition, nodes: map<NodeId, NodeState>, node: Node, works: Works,
                       answers: Answers)
    requires CanAdvance(w, nodes, node, works(node.id)) && node.kind.Compensation?
    ensures var ran := AdvanceNode(env, w, definition, nodes, node, works, answers);
      ran.Some? && |ran.value.advance.state.taskIds| == 1
      && var (id, status) := (ran.value.advance.state.taskIds[0], ran.value.advance.state.status);
         id in ran.value.world.tasks && (status.Compensated? <==> ran.value.world.tasks[id].VerifiedSuccess?)
         && !status.VerifiedComplete?
  {
    var existing := FirstTask(nodes, node.id);
    assert existing.Some? ==> Known(w, nodes[node.id].taskIds);
    RunTaskIsExact(env, w, works(node.id).request, existing, true, RunTask(env, w, works(node.id).request, existing, true));
  }

  // ----- a condition

  function WithoutOther(work: Work, holds: bool): Work
  {
    if holds then work.(whenFalse := []) else work.(whenTrue := [])
  }

  /** What a condition does is the same whatever its other branch holds, and done means the chosen branch is verified. */
  lemma OnlyTheChosenBranchRuns(env: Env, w: World, definition: Definition, nodes: map<NodeId, NodeState>, node: Node, works: Works,
                                other: Works, answers: Answers)
    requires CanAdvance(w, nodes, node, works(node.id)) && node.kind.Condition?
    requires other(node.id) == WithoutOther(works(node.id), answers.holds(node.id))
    ensures AdvanceNode(env, w, definition, nodes, node, works, answers) == AdvanceNode(env, w, definition, nodes, node, other, answers)
    ensures var ran := AdvanceNode(env, w, definition, nodes, node, works, answers);
      ran.Some? && ran.value.advance.state.status.VerifiedComplete? ==>
        SlotsVerified(ran.value.world, ran.value.advance.state.taskIds,
                      |if answers.holds(node.id) then works(node.id).whenTrue else works(node.id).whenFalse|)
  {
    var chosen := if answers.holds(node.id) then works(node.id).whenTrue else works(node.id).whenFalse;
    PassVerifies(env, w, chosen, nodes[node.id].taskIds, 0, 0);
  }

  // ----- a loop

  /** A loop that is complete before its maximum was ended by its predicate, asked about the last task of its last iteration. */
  lemma {:induction false} LoopEndsByItsLastTask(env: Env, w: World, body: seq<Request>, maximum: nat, until: Option<TaskId -> bool>,
                                                 ids: seq<TaskId>, k: nat, end: LoopEnd)
    requires AtIteration(w, body, ids, k) && end == LoopFrom(env, w, body, maximum, until, ids, k)
    ensures end.state.iterations.Some?
    ensures end.state.status.VerifiedComplete? && end.state.iterations.value < maximum ==>
      var last := end.state.iterations.value * |body| - 1;
      0 <= last < |end.state.taskIds| && until.Some? && until.value(end.state.taskIds[last])
    decreases maximum - k
  {
    if k < maximum {
      var p := Turn(env, w, body, ids, k);
      if p.stopped.None? {
        OffsetIsProduct(k + 1, |body|);
        if !Holds(body, until, p.ids, k) {
          LoopEndsByItsLastTask(env, p.world, body, maximum, until, p.ids, k + 1, end);
        }
      }
    }
  }

  /** A checkpoint runs nothing, and it alone asks for a snapshot. */
  lemma OnlyCheckpointsAskForASnapshot(env: Env, w: World, definition: Definition, nodes: map<NodeId, NodeState>, node: Node,
                                       works: Works, answers: Answers)
    requires CanAdvance(w, nodes, node, works(node.id))
    requires AdvanceNode(env, w, definition, nodes, node, works, answers).Some?
    ensures var ran := AdvanceNode(env, w, definition, nodes, node, works, answers).value;
      (ran.advance.checkpoint <==> node.kind.Checkpoint?)
      && (node.kind.Checkpoint? ==> ran.world == w && ran.advance.state == Fresh(NodeStatus.VerifiedComplete, []))
  {
  }

  // ----- a parallel node

  ghost predicate SomeOf(states: seq<NodeState>, status: NodeStatus)
  {
    exists s :: s in states && s.status == status
  }

  /** One branch that failed outweighs one that is unclear, that one that waits, and that one that was cancelled. */
  lemma AggregateIsExact(states: seq<NodeState>, node: NodeState)
    requires node == Aggregate(states)
    ensures node.status == NodeStatus.Failed <==> SomeOf(states, NodeStatus.Failed)
    ensures node.status == NodeStatus.RecoveryRequired
      <==> SomeOf(states, NodeStatus.RecoveryRequired) && !SomeOf(states, NodeStatus.Failed)
    ensures node.status == NodeStatus.AwaitingApproval
      <==> (SomeOf(states, NodeStatus.AwaitingApproval)
            && !SomeOf(states, NodeStatus.Failed) && !SomeOf(states, NodeStatus.RecoveryRequired))
    ensures node.status == NodeStatus.Cancelled
      <==> (SomeOf(states, NodeStatus.Cancelled) && !SomeOf(states, NodeStatus.Failed)
            && !SomeOf(states, NodeStatus.RecoveryRequired) && !SomeOf(states, NodeStatus.AwaitingApproval))
  {
    FirstWithFinds(states, NodeStatus.Failed);
    FirstWithFinds(states, NodeStatus.RecoveryRequired);
    FirstWithFinds(states, NodeStatus.AwaitingApproval);
    FirstWithFinds(states, NodeStatus.Cancelled);
  }
}
