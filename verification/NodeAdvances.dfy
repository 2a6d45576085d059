/**
  `advanceNode` of packages/runtime-core/src/workflow-controller.ts: which scheduler a node runs, over which
  tasks; and what the states it reports say about the task rows, from then on and in every later one.
 */
module NodeAdvances {
  import opened Wrappers
  import opened Protocol
  import opened WorkflowGraph
  import opened WorkflowDrafts
  import opened NodeSchedulers
  import opened NodeRecovery

  /** What the definition says about one node; only the parts of its kind are looked at. */
  datatype Work = Work(
    request: Request,
    whenTrue: seq<Request>,
    whenFalse: seq<Request>,
    requests: seq<Request>,
    body: seq<Request>,
    maximum: nat,
    until: Option<TaskId -> bool>)

  type Works = NodeId -> Work

  /**
    What a call finds outside the task rows: the state that a person's or a delegate's answer gives a node,
    `None` if it is refused, and what the predicate of a condition says this time.
   */
  datatype Answers = Answers(supplied: NodeId -> Option<NodeState>, holds: NodeId -> bool)

  datatype Ran = Ran(world: World, advance: NodeAdvance)

  function FirstTask(nodes: map<NodeId, NodeState>, id: NodeId): Option<TaskId>
  {
    if id in nodes && nodes[id].taskIds != [] then Some(nodes[id].taskIds[0]) else None
  }

  /** `definition.nodes.find(...)` for the approval node of an operation. */
  function ApprovalOf(definition: Definition, id: NodeId): Option<NodeId>
  {
    if definition == [] then None
    else if definition[0].kind == Approval(id) then Some(definition[0].id)
    else ApprovalOf(definition[1..], id)
  }

  /** The task an operation goes on with: that of its approval node, or else its own. */
  function OperationTask(definition: Definition, nodes: map<NodeId, NodeState>, id: NodeId): Option<TaskId>
  {
    var approval := ApprovalOf(definition, id);
    if approval.Some? && FirstTask(nodes, approval.value).Some? then FirstTask(nodes, approval.value) else FirstTask(nodes, id)
  }

  function Iterations(state: NodeState): nat
  {
    if state.iterations.Some? then state.iterations.value else 0
  }

  /** Every task that some node lists has a row. */
  predicate AllKnown(w: World, nodes: map<NodeId, NodeState>)
  {
    forall id :: id in nodes ==> Known(w, nodes[id].taskIds)
  }

  ghost predicate CanAdvance(w: World, nodes: map<NodeId, NodeState>, node: Node, work: Work)
  {
    WorldOk(w) && AllKnown(w, nodes) && node.id in nodes
    && (node.kind.BoundedLoop? ==> AtIteration(w, work.body, nodes[node.id].taskIds, Iterations(nodes[node.id])))
  }

  predicate IsOperation(definition: Definition, id: NodeId)
  {
    id in Table(definition) && Table(definition)[id].kind.Operation?
  }

  /** `advanceNode`; `None` where it throws. */
  ghost function AdvanceNode(env: Env, w: World, definition: Definition, nodes: map<NodeId, NodeState>, node: Node, works: Works,
                             answers: Answers): Option<Ran>
    requires CanAdvance(w, nodes, node, works(node.id))
  {
    var work, state := works(node.id), nodes[node.id];
    match node.kind
    case Operation =>
      var r := RunTask(env, w, work.request, OperationTask(definition, nodes, node.id), true);
      Some(Ran(r.world, NodeAdvance(r.state, false)))
    case Approval(target) =>
      if !IsOperation(definition, target) then None
      else
        var r := RunTask(env, w, works(target).request, FirstTask(nodes, node.id), false);
        Some(Ran(r.world, NodeAdvance(r.state, false)))
    case Condition(source) =>
      if FirstTask(nodes, source).None? then None
      else
        var chosen := if answers.holds(node.id) then work.whenTrue else work.whenFalse;
        var r := SequentialEnd(env, w, chosen, state.taskIds);
        Some(Ran(r.world, NodeAdvance(r.state, false)))
    case Parallel =>
      var r := ParallelEnd(env, w, work.requests, state.taskIds);
      Some(Ran(r.world, NodeAdvance(r.state, false)))
    case BoundedLoop(_) =>
      var r := LoopFrom(env, w, work.body, work.maximum, work.until, state.taskIds, Iterations(state));
      Some(Ran(r.world, NodeAdvance(r.state, false)))
    case Compensation(_) =>
      var r := RunTask(env, w, work.request, FirstTask(nodes, node.id), true);
      Some(Ran(r.world, NodeAdvance(AsCompensated(r.state), false)))
    case Checkpoint => Some(Ran(w, NodeAdvance(Fresh(NodeStatus.VerifiedComplete, []), true)))
    case _ =>
      if answers.supplied(node.id).None? then None
      else Some(Ran(w, NodeAdvance(answers.supplied(node.id).value.(taskIds := []), false)))
  }

  // ----- later rows: nothing is lost, and what is verified stays verified

  ghost predicate Follows(w: World, v: World)
  {
    WorldOk(w) && WorldOk(v) && forall t :: t in w.tasks ==> t in v.tasks && (Verified(w, t) ==> Verified(v, t))
  }

  lemma FollowsOn(u: World, v: World, w: World)
    requires Follows(u, v) && Follows(v, w)
    ensures Follows(u, w)
  {
  }

  lemma RunFollows(env: Env, w: World, request: Request, existing: Option<TaskId>, executePlanned: bool)
    requires WorldOk(w) && (existing.Some? ==> existing.value in w.tasks)
    ensures Follows(w, RunTask(env, w, request, existing, executePlanned).world)
  {
    forall t | t in w.tasks && Verified(w, t) ensures Verified(RunTask(env, w, request, existing, executePlanned).world, t) {
      VerifiedStays(env, w, request, existing, executePlanned, t);
    }
  }

  lemma {:induction false} PassFollows(env: Env, w: World, body: seq<Request>, ids: seq<TaskId>, offset: nat, i: nat)
    requires i <= |body| && offset + i <= |ids| && WorldOk(w) && Known(w, ids)
    ensures Follows(w, PassFrom(env, w, body, ids, offset, i).world)
    ensures Known(PassFrom(env, w, body, ids, offset, i).world, PassFrom(env, w, body, ids, offset, i).ids)
    decreases |body| - i
  {
    if i < |body| {
      var r := RunTask(env, w, body[i], SlotAt(ids, offset + i), true);
      RunFollows(env, w, body[i], SlotAt(ids, offset + i), true);
      if r.state.status == NodeStatus.VerifiedComplete {
        var more := SetAt(ids, offset + i, r.state.taskIds[0]);
        PassFollows(env, r.world, body, more, offset, i + 1);
        FollowsOn(w, r.world, PassFrom(env, r.world, body, more, offset, i + 1).world);
      }
    }
  }

  lemma {:induction false} LoopFollows(env: Env, w: World, body: seq<Request>, maximum: nat, until: Option<TaskId -> bool>, ids: seq<TaskId>, k: nat)
    requires AtIteration(w, body, ids, k)
    ensures Follows(w, LoopFrom(env, w, body, maximum, until, ids, k).world)
    decreases maximum - k
  {
    if k < maximum {
      var p := Turn(env, w, body, ids, k);
      PassFollows(env, w, body, ids, Offset(k, |body|), 0);
      if p.stopped.None? && !Holds(body, until, p.ids, k) {
        LoopFollows(env, p.world, body, maximum, until, p.ids, k + 1);
        FollowsOn(w, p.world, LoopFrom(env, p.world, body, maximum, until, p.ids, k + 1).world);
      }
    }
  }

  lemma {:induction false} ParallelFollows(env: Env, w: World, requests: seq<Request>, ids: seq<TaskId>, i: nat)
    requires i <= |requests| && WorldOk(w) && Known(w, ids)
    ensures Follows(w, ParallelFrom(env, w, requests, ids, i).0)
    decreases |requests| - i
  {
    if i < |requests| {
      var r := RunTask(env, w, requests[i], SlotAt(ids, i), true);
      RunFollows(env, w, requests[i], SlotAt(ids, i), true);
      ParallelFollows(env, r.world, requests, ids, i + 1);
      FollowsOn(w, r.world, ParallelFrom(env, r.world, requests, ids, i + 1).0);
    }
  }

  lemma ListedFirst(state: NodeState, states: seq<NodeState>)
    ensures AllTaskIds([state] + states) == state.taskIds + AllTaskIds(states)
  {
    assert ([state] + states)[1..] == states;
  }

  lemma ParallelUnfolds(env: Env, w: World, requests: seq<Request>, ids: seq<TaskId>, i: nat, r: TaskRun)
    requires i < |requests| && WorldOk(w) && Known(w, ids) && r == RunTask(env, w, requests[i], SlotAt(ids, i), true)
    ensures WorldOk(r.world) && Known(r.world, ids) && Known(r.world, r.state.taskIds)
    ensures ParallelFrom(env, w, requests, ids, i)
         == (ParallelFrom(env, r.world, requests, ids, i + 1).0, [r.state] + ParallelFrom(env, r.world, requests, ids, i + 1).1)
  {
  }

  lemma KnowsBoth(w: World, v: World, ids: seq<TaskId>, more: seq<TaskId>)
    requires Follows(w, v) && Known(w, ids) && Known(v, more)
    ensures Known(v, ids + more)
  {
  }

  lemma {:induction false} ParallelKnows(env: Env, w: World, requests: seq<Request>, ids: seq<TaskId>, i: nat, world: World, states: seq<NodeState>)
    requires i <= |requests| && WorldOk(w) && Known(w, ids) && (world, states) == ParallelFrom(env, w, requests, ids, i)
    ensures Known(world, AllTaskIds(states))
    decreases |requests| - i
  {
    if i < |requests| {
      var r := RunTask(env, w, requests[i], SlotAt(ids, i), true);
      ParallelUnfolds(env, w, requests, ids, i, r);
      var rest := ParallelFrom(env, r.world, requests, ids, i + 1).1;
      ParallelKnows(env, r.world, requests, ids, i + 1, world, rest);
      ParallelFollows(env, r.world, requests, ids, i + 1);
      ListedFirst(r.state, rest);
      KnowsBoth(r.world, world, r.state.taskIds, AllTaskIds(rest));
    }
  }

  // ----- what the state of a node says about its tasks

  predicate Done(status: NodeStatus)
  {
    status == NodeStatus.VerifiedComplete || status == NodeStatus.Compensated
  }

  ghost predicate EveryTaskVerified(w: World, ids: seq<TaskId>)
  {
    forall t :: t in ids ==> Verified(w, t)
  }

  /** The loop has ended with the slots of its whole iterations verified. */
  ghost predicate LoopEnded(w: World, work: Work, state: NodeState)
  {
    work.body != [] && state.iterations.Some? && SlotsVerified(w, state.taskIds, Offset(state.iterations.value, |work.body|))
    && (state.iterations.value >= work.maximum
        || (state.iterations.value > 0 && Holds(work.body, work.until, state.taskIds, state.iterations.value - 1)))
  }

  /**
    What stands behind a node that is done: verified tasks for all its work. Only a condition and a loop may
    list tasks beyond their work, left over from a branch or an iteration that is no longer wanted.
   */
  ghost predicate Proved(w: World, node: Node, work: Work, state: NodeState)
  {
    match node.kind
    case Approval(_) => true
    case Condition(_) =>
      EveryTaskVerified(w, state.taskIds)
      || SlotsVerified(w, state.taskIds, |work.whenTrue|) || SlotsVerified(w, state.taskIds, |work.whenFalse|)
    case BoundedLoop(_) => EveryTaskVerified(w, state.taskIds) || LoopEnded(w, work, state)
    case Parallel => EveryTaskVerified(w, state.taskIds)
    case Operation => EveryTaskVerified(w, state.taskIds) && state.taskIds != []
    case Compensation(_) => EveryTaskVerified(w, state.taskIds) && state.taskIds != []
    case _ => EveryTaskVerified(w, state.taskIds)
  }

  /** The tasks a node lists have rows, a done node is proved by them, and a loop that is not can be entered again. */
  ghost predicate Backed(w: World, node: Node, work: Work, state: NodeState)
  {
    Known(w, state.taskIds)
    && (Done(state.status) ==> Proved(w, node, work, state))
    && (node.kind.BoundedLoop? && !Done(state.status) ==> AtIteration(w, work.body, state.taskIds, Iterations(state)))
  }

  ghost predicate AllBacked(w: World, definition: Definition, nodes: map<NodeId, NodeState>, works: Works)
  {
    WorldOk(w) && AllKnown(w, nodes)
    && forall i :: 0 <= i < |definition| && definition[i].id in nodes ==>
        Backed(w, definition[i], works(definition[i].id), nodes[definition[i].id])
  }

  lemma SlotsStay(w: World, v: World, ids: seq<TaskId>, n: nat)
    requires Follows(w, v)
    ensures SlotsVerified(w, ids, n) ==> SlotsVerified(v, ids, n)
  {
  }

  lemma TasksStay(w: World, v: World, ids: seq<TaskId>)
    requires Follows(w, v)
    ensures Known(w, ids) ==> Known(v, ids)
    ensures EveryTaskVerified(w, ids) ==> EveryTaskVerified(v, ids)
  {
  }

  /** Later rows back whatever earlier ones did. */
  lemma BackedStays(w: World, v: World, node: Node, work: Work, state: NodeState)
    requires Follows(w, v) && Backed(w, node, work, state)
    ensures Backed(v, node, work, state)
  {
    TasksStay(w, v, state.taskIds);
    SlotsStay(w, v, state.taskIds, |work.whenTrue|);
    SlotsStay(w, v, state.taskIds, |work.whenFalse|);
    SlotsStay(w, v, state.taskIds, Offset(Iterations(state), |work.body|));
  }

  lemma AllBackedStay(w: World, v: World, definition: Definition, nodes: map<NodeId, NodeState>, works: Works)
    requires Follows(w, v) && AllBacked(w, definition, nodes, works)
    ensures AllBacked(v, definition, nodes, works)
  {
    forall i | 0 <= i < |definition| && definition[i].id in nodes
      ensures Backed(v, definition[i], works(definition[i].id), nodes[definition[i].id])
    {
      BackedStays(w, v, definition[i], works(definition[i].id), nodes[definition[i].id]);
    }
    forall id | id in nodes ensures Known(v, nodes[id].taskIds) {
      TasksStay(w, v, nodes[id].taskIds);
    }
  }

  // ----- the state a node reports is backed by the rows it leaves

  /** What one advance of a node leaves. */
  ghost predicate RanWell(w: World, node: Node, work: Work, ran: Ran)
  {
    Follows(w, ran.world) && Backed(ran.world, node, work, ran.advance.state)
  }

  lemma OneTaskRanWell(env: Env, w: World, request: Request, existing: Option<TaskId>, node: Node, work: Work, r: TaskRun)
    requires WorldOk(w) && (existing.Some? ==> existing.value in w.tasks) && !node.kind.BoundedLoop?
    requires r == RunTask(env, w, request, existing, true)
    ensures RanWell(w, node, work, Ran(r.world, NodeAdvance(r.state, false)))
    ensures RanWell(w, node, work, Ran(r.world, NodeAdvance(AsCompensated(r.state), false)))
  {
    RunFollows(env, w, request, existing, true);
  }

  lemma ApprovalRanWell(env: Env, w: World, request: Request, existing: Option<TaskId>, node: Node, work: Work, r: TaskRun)
    requires WorldOk(w) && (existing.Some? ==> existing.value in w.tasks) && node.kind.Approval?
    requires r == RunTask(env, w, request, existing, false)
    ensures RanWell(w, node, work, Ran(r.world, NodeAdvance(r.state, false)))
  {
    RunFollows(env, w, request, existing, false);
  }

  lemma ConditionRanWell(env: Env, w: World, node: Node, work: Work, holds: bool, ids: seq<TaskId>, r: TaskRun)
    requires WorldOk(w) && Known(w, ids) && node.kind.Condition?
    requires r == SequentialEnd(env, w, if holds then work.whenTrue else work.whenFalse, ids)
    ensures RanWell(w, node, work, Ran(r.world, NodeAdvance(r.state, false)))
  {
    var chosen := if holds then work.whenTrue else work.whenFalse;
    PassFollows(env, w, chosen, ids, 0, 0);
    PassVerifies(env, w, chosen, ids, 0, 0);
    PassStopsShort(env, w, chosen, ids, 0, 0);
  }

  /** A pass that stops does so in a state that is not done. */
  lemma {:induction false} PassStopsShort(env: Env, w: World, body: seq<Request>, ids: seq<TaskId>, offset: nat, i: nat)
    requires i <= |body| && offset + i <= |ids| && Known(w, ids)
    ensures PassFrom(env, w, body, ids, offset, i).stopped.Some? ==>
        !Done(PassFrom(env, w, body, ids, offset, i).stopped.value.status)
    decreases |body| - i
  {
    if i < |body| {
      var r := RunTask(env, w, body[i], SlotAt(ids, offset + i), true);
      if r.state.status == NodeStatus.VerifiedComplete {
        PassStopsShort(env, r.world, body, SetAt(ids, offset + i, r.state.taskIds[0]), offset, i + 1);
      }
    }
  }

  lemma ParallelRanWell(env: Env, w: World, node: Node, work: Work, ids: seq<TaskId>, r: TaskRun)
    requires WorldOk(w) && Known(w, ids) && node.kind.Parallel? && Conclusive(env)
    requires r == ParallelEnd(env, w, work.requests, ids)
    ensures RanWell(w, node, work, Ran(r.world, NodeAdvance(r.state, false)))
  {
    var states := ParallelFrom(env, w, work.requests, ids, 0).1;
    ParallelFollows(env, w, work.requests, ids, 0);
    ParallelKnows(env, w, work.requests, ids, 0, r.world, states);
    ParallelComplete(env, w, work.requests, ids);
    AggregateLists(states);
    if Done(r.state.status) {
      forall t | t in r.state.taskIds ensures Verified(r.world, t) {
        var k :| 0 <= k < |r.state.taskIds| && r.state.taskIds[k] == t;
        assert SlotsVerified(r.world, r.state.taskIds, |work.requests|);
      }
    }
  }

  lemma AggregateLists(states: seq<NodeState>)
    ensures Aggregate(states).taskIds == AllTaskIds(states)
    ensures Aggregate(states).status != NodeStatus.Compensated
  {
    FirstWithFinds(states, NodeStatus.Failed);
    FirstWithFinds(states, NodeStatus.RecoveryRequired);
    FirstWithFinds(states, NodeStatus.AwaitingApproval);
    FirstWithFinds(states, NodeStatus.Cancelled);
  }

  lemma TurnKeepsIteration(env: Env, w: World, work: Work, ids: seq<TaskId>, k: nat, p: Pass)
    requires AtIteration(w, work.body, ids, k) && p == Turn(env, w, work.body, ids, k)
    ensures AtIteration(p.world, work.body, p.ids, k)
    ensures p.stopped.Some? ==> !Done(p.stopped.value.status)
  {
    OffsetGrows(k, k + 1, |work.body|);
    PassStopsShort(env, w, work.body, ids, Offset(k, |work.body|), 0);
  }

  lemma {:induction false} LoopRanWell(env: Env, w: World, node: Node, work: Work, ids: seq<TaskId>, k: nat, end: LoopEnd)
    requires AtIteration(w, work.body, ids, k) && node.kind.BoundedLoop?
    requires end == LoopFrom(env, w, work.body, work.maximum, work.until, ids, k)
    ensures Backed(end.world, node, work, end.state)
    decreases work.maximum - k
  {
    if k < work.maximum {
      var p := Turn(env, w, work.body, ids, k);
      TurnKeepsIteration(env, w, work, ids, k, p);
      LoopContinues(env, w, work.body, work.maximum, work.until, ids, k, p, end);
      if p.stopped.None? && !Holds(work.body, work.until, p.ids, k) {
        LoopRanWell(env, p.world, node, work, p.ids, k + 1, end);
      }
    }
  }

  /** Whatever `advanceNode` reports is backed by the rows it leaves, and those follow the rows it found. */
  lemma AdvanceRanWell(env: Env, w: World, definition: Definition, nodes: map<NodeId, NodeState>, node: Node, works: Works,
                       answers: Answers)
    requires CanAdvance(w, nodes, node, works(node.id)) && Conclusive(env)
    requires AdvanceNode(env, w, definition, nodes, node, works, answers).Some?
    ensures RanWell(w, node, works(node.id), AdvanceNode(env, w, definition, nodes, node, works, answers).value)
  {
    var work, state := works(node.id), nodes[node.id];
    match node.kind
    case Operation =>
      var existing := OperationTask(definition, nodes, node.id);
      OneTaskRanWell(env, w, work.request, existing, node, work, RunTask(env, w, work.request, existing, true));
    case Approval(target) =>
      var existing := FirstTask(nodes, node.id);
      ApprovalRanWell(env, w, works(target).request, existing, node, work, RunTask(env, w, works(target).request, existing, false));
    case Condition(source) =>
      var holds := answers.holds(node.id);
      ConditionRanWell(env, w, node, work, holds, state.taskIds,
                       SequentialEnd(env, w, if holds then work.whenTrue else work.whenFalse, state.taskIds));
    case Parallel => ParallelRanWell(env, w, node, work, state.taskIds, ParallelEnd(env, w, work.requests, state.taskIds));
    case BoundedLoop(_) =>
      LoopFollows(env, w, work.body, work.maximum, work.until, state.taskIds, Iterations(state));
      LoopRanWell(env, w, node, work, state.taskIds, Iterations(state),
                  LoopFrom(env, w, work.body, work.maximum, work.until, state.taskIds, Iterations(state)));
    case Compensation(_) =>
      var existing := FirstTask(nodes, node.id);
      OneTaskRanWell(env, w, work.request, existing, node, work, RunTask(env, w, work.request, existing, true));
    case _ =>
  }
}
