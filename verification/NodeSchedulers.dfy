/**
  The node schedulers of packages/runtime-core/src/workflow-controller.ts: one task, a sequence, a set of
  parallel branches, a bounded loop; and the state that recovery gives a node.

  Tasks are kept by status only. What the policy says when a task is planned, how an execution ends and
  which approvals came with the call are given by the environment.
 */
module NodeSchedulers {
  import opened Wrappers
  import opened Protocol

  type Request = nat

  datatype Env = Env(planned: Request -> TaskStatus, outcome: TaskId -> TaskStatus, approved: set<TaskId>)

  /** Task rows, the next fresh id, and the executions in the order they were started. */
  datatype World = World(tasks: map<TaskId, TaskStatus>, next: TaskId, executions: seq<TaskId>)

  ghost predicate WorldOk(w: World)
  {
    forall t :: t in w.tasks ==> t < w.next
  }

  predicate Known(w: World, ids: seq<TaskId>)
  {
    forall t :: t in ids ==> t in w.tasks
  }

  predicate Verified(w: World, t: TaskId)
  {
    t in w.tasks && w.tasks[t] == TaskStatus.VerifiedSuccess
  }

  /** `nodeStateForTask`, without the messages. */
  function NodeStateForTask(id: TaskId, status: TaskStatus, plannedIsComplete: bool): NodeState
  {
    match status
    case VerifiedSuccess => Fresh(NodeStatus.VerifiedComplete, [id])
    case Planned => Fresh(if plannedIsComplete then NodeStatus.VerifiedComplete else NodeStatus.Ready, [id])
    case AwaitingApproval => Fresh(NodeStatus.AwaitingApproval, [id])
    case RecoveryRequired => Fresh(NodeStatus.RecoveryRequired, [id])
    case Cancelled => Fresh(NodeStatus.Cancelled, [id])
    case _ => Fresh(NodeStatus.Failed, [id])
  }

  /** A compensation that is done has a status of its own. */
  function AsCompensated(state: NodeState): NodeState
  {
    if state.status.VerifiedComplete? then state.(status := NodeStatus.Compensated) else state
  }

  datatype TaskRun = TaskRun(world: World, state: NodeState)

  function Execute(env: Env, w: World, id: TaskId): World
  {
    w.(tasks := w.tasks[id := env.outcome(id)], executions := w.executions + [id])
  }

  /** `runTask`: plan if there is no task yet, then execute it if it may run. */
  function RunTask(env: Env, w: World, request: Request, existing: Option<TaskId>, executePlanned: bool): (r: TaskRun)
    requires existing.Some? ==> existing.value in w.tasks
    ensures |r.state.taskIds| == 1 && r.state.taskIds[0] in r.world.tasks
    ensures existing.Some? ==> r.state.taskIds[0] == existing.value
    ensures existing.None? ==> r.state.taskIds[0] == w.next
    ensures WorldOk(w) ==> WorldOk(r.world)
    ensures forall t :: t in w.tasks ==> t in r.world.tasks
    ensures r.state.status == NodeStatus.VerifiedComplete && executePlanned ==> Verified(r.world, r.state.taskIds[0])
  {
    var id := if existing.Some? then existing.value else w.next;
    var planned := if existing.Some? then w else w.(tasks := w.tasks[id := env.planned(request)], next := id + 1);
    var status := planned.tasks[id];
    var after :=
      if (status == TaskStatus.AwaitingApproval && id in env.approved) || (status == TaskStatus.Planned && executePlanned)
      then Execute(env, planned, id) else planned;
    TaskRun(after, NodeStateForTask(id, if executePlanned || status != TaskStatus.Planned then after.tasks[id] else status, !executePlanned))
  }

  /** A task that is verified stays verified, and running its slot again starts nothing. */
  lemma VerifiedStays(env: Env, w: World, request: Request, existing: Option<TaskId>, executePlanned: bool, t: TaskId)
    requires WorldOk(w) && (existing.Some? ==> existing.value in w.tasks) && Verified(w, t)
    ensures Verified(RunTask(env, w, request, existing, executePlanned).world, t)
    ensures existing == Some(t) ==>
        RunTask(env, w, request, existing, executePlanned) == TaskRun(w, Fresh(NodeStatus.VerifiedComplete, [t]))
  {
  }

  lemma AllVerifiedStay(env: Env, w: World, request: Request, existing: Option<TaskId>, world: World)
    requires WorldOk(w) && (existing.Some? ==> existing.value in w.tasks)
    requires world == RunTask(env, w, request, existing, true).world
    ensures forall t :: Verified(w, t) ==> Verified(world, t)
  {
    forall t | Verified(w, t) ensures Verified(world, t) {
      VerifiedStays(env, w, request, existing, true, t);
    }
  }

  // ----- one pass over a list of requests

  function SetAt(ids: seq<TaskId>, i: nat, id: TaskId): seq<TaskId>
    requires i <= |ids|
  {
    if i < |ids| then ids[i := id] else ids + [id]
  }

  function SlotAt(ids: seq<TaskId>, i: nat): Option<TaskId>
  {
    if i < |ids| then Some(ids[i]) else None
  }

  /** Where a pass ends: all requests verified, or the state of the first that is not. */
  datatype Pass = Pass(world: World, ids: seq<TaskId>, stopped: Option<NodeState>)

  /** Runs `body[i..]` in the slots from `offset + i` on. */
  function PassFrom(env: Env, w: World, body: seq<Request>, ids: seq<TaskId>, offset: nat, i: nat): Pass
    requires i <= |body| && offset + i <= |ids| && Known(w, ids)
    decreases |body| - i
  {
    if i == |body| then Pass(w, ids, None)
    else
      var r := RunTask(env, w, body[i], SlotAt(ids, offset + i), true);
      var more := SetAt(ids, offset + i, r.state.taskIds[0]);
      if r.state.status != NodeStatus.VerifiedComplete then Pass(r.world, more, Some(r.state))
      else PassFrom(env, r.world, body, more, offset, i + 1)
  }

  /** The slots below `n` all hold verified tasks. */
  ghost predicate SlotsVerified(w: World, ids: seq<TaskId>, n: nat)
  {
    n <= |ids| && forall j :: 0 <= j < n ==> Verified(w, ids[j])
  }

  /** A pass keeps verified slots, and one that does not stop verifies every slot it covers. */
  lemma {:induction false} PassVerifies(env: Env, w: World, body: seq<Request>, ids: seq<TaskId>, offset: nat, i: nat)
    requires i <= |body| && WorldOk(w) && Known(w, ids) && SlotsVerified(w, ids, offset + i)
    ensures var p := PassFrom(env, w, body, ids, offset, i);
            WorldOk(p.world) && Known(p.world, p.ids) && |p.ids| >= |ids|
            && SlotsVerified(p.world, p.ids, if p.stopped.None? then offset + |body| else offset)
            && (forall j :: 0 <= j < offset ==> p.ids[j] == ids[j])
            && (p.stopped.Some? ==> p.stopped.value.status != NodeStatus.VerifiedComplete)
    decreases |body| - i
  {
    if i < |body| {
      var r := RunTask(env, w, body[i], SlotAt(ids, offset + i), true);
      var more := SetAt(ids, offset + i, r.state.taskIds[0]);
      forall j | 0 <= j < offset + i ensures Verified(r.world, more[j]) {
        VerifiedStays(env, w, body[i], SlotAt(ids, offset + i), true, ids[j]);
      }
      if r.state.status == NodeStatus.VerifiedComplete {
        PassVerifies(env, r.world, body, more, offset, i + 1);
      }
    }
  }

  /** Over slots that are already verified a pass changes nothing and starts nothing. */
  lemma {:induction false} PassOverVerified(env: Env, w: World, body: seq<Request>, ids: seq<TaskId>, offset: nat, i: nat)
    requires i <= |body| && WorldOk(w) && Known(w, ids) && SlotsVerified(w, ids, offset + |body|)
    ensures PassFrom(env, w, body, ids, offset, i) == Pass(w, ids, None)
    decreases |body| - i
  {
    if i < |body| {
      VerifiedStays(env, w, body[i], Some(ids[offset + i]), true, ids[offset + i]);
      assert ids[offset + i := ids[offset + i]] == ids;
      PassOverVerified(env, w, body, ids, offset, i + 1);
    }
  }

  /** The inner loop that `runSequential` and `runLoop` share. */
  method RunPass(env: Env, w: World, body: seq<Request>, before: seq<TaskId>, offset: nat)
    returns (world: World, ids: seq<TaskId>, stopped: Option<NodeState>)
    requires WorldOk(w) && offset <= |before| && Known(w, before)
    ensures Pass(world, ids, stopped) == PassFrom(env, w, body, before, offset, 0)
  {
    world, ids, stopped := w, before, None;
    for i := 0 to |body|
      invariant offset + i <= |ids| && Known(world, ids) && WorldOk(world) && stopped.None?
      invariant PassFrom(env, world, body, ids, offset, i) == PassFrom(env, w, body, before, offset, 0)
    {
      var r := RunTask(env, world, body[i], SlotAt(ids, offset + i), true);
      world, ids := r.world, SetAt(ids, offset + i, r.state.taskIds[0]);
      if r.state.status != NodeStatus.VerifiedComplete {
        stopped := Some(r.state);
        return;
      }
    }
  }

  /** Where a sequence ends: the ids of all requests, or of those up to the first that is not verified. */
  function SequentialEnd(env: Env, w: World, requests: seq<Request>, ids: seq<TaskId>): TaskRun
    requires Known(w, ids)
  {
    var p := PassFrom(env, w, requests, ids, 0, 0);
    TaskRun(p.world, if p.stopped.Some? then p.stopped.value.(taskIds := p.ids) else Fresh(NodeStatus.VerifiedComplete, p.ids))
  }

  /** `runSequential` */
  method RunSequential(env: Env, w: World, requests: seq<Request>, state: NodeState) returns (world: World, next: NodeState)
    requires WorldOk(w) && Known(w, state.taskIds)
    ensures TaskRun(world, next) == SequentialEnd(env, w, requests, state.taskIds)
    ensures next.status == NodeStatus.VerifiedComplete ==> SlotsVerified(world, next.taskIds, |requests|)
  {
    var ids, stopped;
    world, ids, stopped := RunPass(env, w, requests, state.taskIds, 0);
    PassVerifies(env, w, requests, state.taskIds, 0, 0);
    if stopped.Some? {
      return world, stopped.value.(taskIds := ids);
    }
    return world, Fresh(NodeStatus.VerifiedComplete, ids);
  }

  // ----- bounded loop

  /** `iterations * node.body.length`, written so that one more iteration is one more addition. */
  function Offset(k: nat, length: nat): nat
  {
    if k == 0 then 0 else Offset(k - 1, length) + length
  }

  lemma {:induction false} OffsetIsProduct(k: nat, length: nat)
    ensures Offset(k, length) == k * length
  {
    if k > 0 {
      OffsetIsProduct(k - 1, length);
      assert k * length == (k - 1) * length + length;
    }
  }

  lemma {:induction false} OffsetGrows(j: nat, k: nat, length: nat)
    requires j <= k
    ensures Offset(j, length) <= Offset(k, length)
  {
    if j < k {
      OffsetGrows(j, k - 1, length);
    }
  }

  datatype LoopEnd = LoopEnd(world: World, state: NodeState)

  function AtLoop(state: NodeState, ids: seq<TaskId>, iterations: nat): NodeState
  {
    state.(taskIds := ids, iterations := Some(iterations))
  }

  function LoopDone(w: World, ids: seq<TaskId>, k: nat): LoopEnd
  {
    LoopEnd(w, AtLoop(Fresh(NodeStatus.VerifiedComplete, []), ids, k))
  }

  /** A loop about to start iteration `k`: the slots of the iterations before it are verified. */
  ghost predicate AtIteration(w: World, body: seq<Request>, ids: seq<TaskId>, k: nat)
  {
    body != [] && WorldOk(w) && Known(w, ids) && SlotsVerified(w, ids, Offset(k, |body|))
  }

  /** Iteration `k`. */
  function Turn(env: Env, w: World, body: seq<Request>, ids: seq<TaskId>, k: nat): (p: Pass)
    requires AtIteration(w, body, ids, k)
    ensures p.stopped.None? ==> AtIteration(p.world, body, p.ids, k + 1)
    ensures p.stopped.Some? ==> AtIteration(p.world, body, p.ids, k) && p.stopped.value.status != NodeStatus.VerifiedComplete
    ensures |p.ids| >= |ids| && forall j :: 0 <= j < Offset(k, |body|) ==> p.ids[j] == ids[j]
  {
    PassVerifies(env, w, body, ids, Offset(k, |body|), 0);
    PassFrom(env, w, body, ids, Offset(k, |body|), 0)
  }

  /** What the predicate says about the last task of iteration `k`. */
  predicate Holds(body: seq<Request>, until: Option<TaskId -> bool>, ids: seq<TaskId>, k: nat)
    requires body != [] && Offset(k + 1, |body|) <= |ids|
  {
    until.Some? && until.value(ids[Offset(k + 1, |body|) - 1])
  }

  /** The loop from iteration `k` on. `until` is what the predicate says about a task's sealed result. */
  function LoopFrom(env: Env, w: World, body: seq<Request>, maximum: nat, until: Option<TaskId -> bool>, ids: seq<TaskId>, k: nat): LoopEnd
    requires AtIteration(w, body, ids, k)
    decreases maximum - k
  {
    if k >= maximum then LoopDone(w, ids, k)
    else
      var p := Turn(env, w, body, ids, k);
      if p.stopped.Some? then LoopEnd(p.world, AtLoop(p.stopped.value, p.ids, k))
      else if Holds(body, until, p.ids, k) then LoopDone(p.world, p.ids, k + 1)
      else LoopFrom(env, p.world, body, maximum, until, p.ids, k + 1)
  }

  lemma LoopContinues(env: Env, w: World, body: seq<Request>, maximum: nat, until: Option<TaskId -> bool>, ids: seq<TaskId>,
                      k: nat, p: Pass, end: LoopEnd)
    requires AtIteration(w, body, ids, k) && k < maximum && p == Turn(env, w, body, ids, k)
    requires LoopFrom(env, w, body, maximum, until, ids, k) == end
    ensures p.stopped.Some? ==> end == LoopEnd(p.world, AtLoop(p.stopped.value, p.ids, k))
    ensures p.stopped.None? && Holds(body, until, p.ids, k) ==> end == LoopDone(p.world, p.ids, k + 1)
    ensures p.stopped.None? && !Holds(body, until, p.ids, k) ==> LoopFrom(env, p.world, body, maximum, until, p.ids, k + 1) == end
  {
  }

  /** One round of the `while`: the pass over the body, and what the predicate says after it. */
  method RunTurn(env: Env, w: World, body: seq<Request>, ids: seq<TaskId>, until: Option<TaskId -> bool>, iterations: nat)
    returns (p: Pass, done: bool)
    requires AtIteration(w, body, ids, iterations)
    ensures p == Turn(env, w, body, ids, iterations)
    ensures p.stopped.None? ==> done == Holds(body, until, p.ids, iterations)
  {
    OffsetIsProduct(iterations, |body|);
    var offset := iterations * |body|;
    var world, taskIds, stopped := RunPass(env, w, body, ids, offset);
    p := Pass(world, taskIds, stopped);
    assert p == Turn(env, w, body, ids, iterations);
    done := stopped.None? && until.Some? && until.value(taskIds[offset + |body| - 1]);
  }

  /** From here, iteration `k` is next and the loop ends in `end`. */
  ghost predicate Heads(env: Env, w: World, body: seq<Request>, maximum: nat, until: Option<TaskId -> bool>, ids: seq<TaskId>,
                        k: nat, end: LoopEnd)
  {
    AtIteration(w, body, ids, k) && LoopFrom(env, w, body, maximum, until, ids, k) == end
  }

  /** One round on the way to the end: it is reached, or the next iteration still heads for it. */
  method RunRound(env: Env, w: World, body: seq<Request>, maximum: nat, until: Option<TaskId -> bool>, ids: seq<TaskId>,
                  iterations: nat, ghost end: LoopEnd)
    returns (p: Pass, done: bool)
    requires Heads(env, w, body, maximum, until, ids, iterations, end) && iterations < maximum
    ensures p.stopped.Some? ==> end == LoopEnd(p.world, AtLoop(p.stopped.value, p.ids, iterations))
    ensures p.stopped.None? && done ==> end == LoopDone(p.world, p.ids, iterations + 1)
    ensures p.stopped.None? && !done ==> Heads(env, p.world, body, maximum, until, p.ids, iterations + 1, end)
  {
    p, done := RunTurn(env, w, body, ids, until, iterations);
    LoopContinues(env, w, body, maximum, until, ids, iterations, p, end);
  }

  lemma LoopExhausted(env: Env, w: World, body: seq<Request>, maximum: nat, until: Option<TaskId -> bool>, ids: seq<TaskId>,
                      k: nat, end: LoopEnd)
    requires Heads(env, w, body, maximum, until, ids, k, end) && k >= maximum
    ensures end == LoopDone(w, ids, k)
  {
  }

  /** `runLoop`; a state without `iterations` starts over at zero. */
  method RunLoop(env: Env, w: World, body: seq<Request>, maximum: nat, until: Option<TaskId -> bool>, state: NodeState)
    returns (world: World, next: NodeState)
    requires AtIteration(w, body, state.taskIds, if state.iterations.Some? then state.iterations.value else 0)
    ensures LoopEnd(world, next)
         == LoopFrom(env, w, body, maximum, until, state.taskIds, if state.iterations.Some? then state.iterations.value else 0)
  {
    var iterations := if state.iterations.Some? then state.iterations.value else 0;
    ghost var end := LoopFrom(env, w, body, maximum, until, state.taskIds, iterations);
    world, next := RunRounds(env, w, body, maximum, until, state.taskIds, iterations, end);
  }

  method RunRounds(env: Env, w: World, body: seq<Request>, maximum: nat, until: Option<TaskId -> bool>, ids: seq<TaskId>,
                   from: nat, ghost end: LoopEnd)
    returns (world: World, next: NodeState)
    requires Heads(env, w, body, maximum, until, ids, from, end)
    ensures LoopEnd(world, next) == end
  {
    var taskIds, iterations := ids, from;
    world := w;
    while iterations < maximum
      invariant Heads(env, world, body, maximum, until, taskIds, iterations, end)
      decreases maximum - iterations
    {
      var p, done := RunRound(env, world, body, maximum, until, taskIds, iterations, end);
      world, taskIds := p.world, p.ids;
      if p.stopped.Some? {
        return world, AtLoop(p.stopped.value, taskIds, iterations);
      }
      iterations := iterations + 1;
      if done {
        return world, AtLoop(Fresh(NodeStatus.VerifiedComplete, []), taskIds, iterations);
      }
    }
    LoopExhausted(env, world, body, maximum, until, taskIds, iterations, end);
    return world, AtLoop(Fresh(NodeStatus.VerifiedComplete, []), taskIds, iterations);
  }

  /** The predicate said no after each of the first `k` iterations; otherwise the loop would have ended there. */
  ghost predicate NotYet(body: seq<Request>, until: Option<TaskId -> bool>, ids: seq<TaskId>, k: nat)
    requires body != []
  {
    k == 0 || (Offset(k, |body|) <= |ids| && !Holds(body, until, ids, k - 1) && NotYet(body, until, ids, k - 1))
  }

  lemma {:induction false} NotYetStays(body: seq<Request>, until: Option<TaskId -> bool>, ids: seq<TaskId>, more: seq<TaskId>, k: nat)
    requires body != [] && Offset(k, |body|) <= |ids| <= |more| && NotYet(body, until, ids, k)
    requires forall j :: 0 <= j < Offset(k, |body|) ==> more[j] == ids[j]
    ensures NotYet(body, until, more, k)
  {
    if k > 0 {
      NotYetStays(body, until, ids, more, k - 1);
    }
  }

  /**
    What a loop node looks like when it stops: every slot below its iteration count is verified, the count
    is within the maximum, and short of completion the predicate has not held yet.
   */
  lemma {:induction false} LoopStopsRestartable(env: Env, w: World, body: seq<Request>, maximum: nat, until: Option<TaskId -> bool>,
                                                ids: seq<TaskId>, k: nat)
    requires AtIteration(w, body, ids, k) && NotYet(body, until, ids, k) && k <= maximum
    ensures var e := LoopFrom(env, w, body, maximum, until, ids, k);
            e.state.iterations.Some? && k <= e.state.iterations.value <= maximum
            && AtIteration(e.world, body, e.state.taskIds, e.state.iterations.value)
            && (e.state.status != NodeStatus.VerifiedComplete ==> NotYet(body, until, e.state.taskIds, e.state.iterations.value))
    decreases maximum - k
  {
    if k < maximum {
      var p := Turn(env, w, body, ids, k);
      NotYetStays(body, until, ids, p.ids, k);
      if p.stopped.None? && !Holds(body, until, p.ids, k) {
        LoopStopsRestartable(env, p.world, body, maximum, until, p.ids, k + 1);
      }
    }
  }

  lemma TurnOverVerified(env: Env, w: World, body: seq<Request>, ids: seq<TaskId>, j: nat)
    requires AtIteration(w, body, ids, j) && AtIteration(w, body, ids, j + 1)
    ensures Turn(env, w, body, ids, j) == Pass(w, ids, None)
  {
    PassOverVerified(env, w, body, ids, Offset(j, |body|), 0);
  }

  /**
    Restart: a loop re-entered with its task ids but at an earlier count ends exactly as if it had gone on
    from the count it had reached: same node state, same task rows, same executions.
   */
  lemma {:induction false} LoopRestart(env: Env, w: World, body: seq<Request>, maximum: nat, until: Option<TaskId -> bool>,
                                       ids: seq<TaskId>, j: nat, k: nat, end: LoopEnd)
    requires AtIteration(w, body, ids, k) && NotYet(body, until, ids, k) && j <= k <= maximum
    requires LoopFrom(env, w, body, maximum, until, ids, k) == end
    ensures AtIteration(w, body, ids, j) && LoopFrom(env, w, body, maximum, until, ids, j) == end
    decreases k - j
  {
    if j < k {
      EarlierIteration(w, body, ids, k - 1, k);
      SkipsVerifiedTurn(env, w, body, maximum, until, ids, k - 1);
      LoopRestart(env, w, body, maximum, until, ids, j, k - 1, end);
    }
  }

  lemma EarlierIteration(w: World, body: seq<Request>, ids: seq<TaskId>, j: nat, k: nat)
    requires AtIteration(w, body, ids, k) && j <= k
    ensures AtIteration(w, body, ids, j)
  {
    OffsetGrows(j, k, |body|);
  }

  lemma SkipsVerifiedTurn(env: Env, w: World, body: seq<Request>, maximum: nat, until: Option<TaskId -> bool>, ids: seq<TaskId>, j: nat)
    requires AtIteration(w, body, ids, j) && AtIteration(w, body, ids, j + 1) && j < maximum
    requires !Holds(body, until, ids, j)
    ensures LoopFrom(env, w, body, maximum, until, ids, j) == LoopFrom(env, w, body, maximum, until, ids, j + 1)
  {
    TurnOverVerified(env, w, body, ids, j);
  }

  /**
    However often a loop node has been interrupted before, forgetting the count at the next restart is
    harmless, whatever the environment is by then. The state it stops in is again one this starts from.
   */
  lemma ForgettingIterationsIsHarmless(env: Env, later: Env, w: World, body: seq<Request>, maximum: nat,
                                       until: Option<TaskId -> bool>, ids: seq<TaskId>, k: nat)
    requires AtIteration(w, body, ids, k) && NotYet(body, until, ids, k) && k <= maximum
    ensures var e := LoopFrom(env, w, body, maximum, until, ids, k);
            e.state.status != NodeStatus.VerifiedComplete ==>
              e.state.iterations.Some? && e.state.iterations.value <= maximum
              && AtIteration(e.world, body, e.state.taskIds, e.state.iterations.value)
              && NotYet(body, until, e.state.taskIds, e.state.iterations.value)
              && AtIteration(e.world, body, e.state.taskIds, 0)
              && LoopFrom(later, e.world, body, maximum, until, e.state.taskIds, 0)
                 == LoopFrom(later, e.world, body, maximum, until, e.state.taskIds, e.state.iterations.value)
  {
    LoopStopsRestartable(env, w, body, maximum, until, ids, k);
    var e := LoopFrom(env, w, body, maximum, until, ids, k);
    if e.state.status != NodeStatus.VerifiedComplete {
      LoopRestart(later, e.world, body, maximum, until, e.state.taskIds, 0, e.state.iterations.value,
                  LoopFrom(later, e.world, body, maximum, until, e.state.taskIds, e.state.iterations.value));
    }
  }

  // ----- parallel branches

  /** `Promise.all` over the flattened branches: every request runs, whatever the others do. */
  function ParallelFrom(env: Env, w: World, requests: seq<Request>, ids: seq<TaskId>, i: nat): (World, seq<NodeState>)
    requires i <= |requests| && WorldOk(w) && Known(w, ids)
    decreases |requests| - i
  {
    if i == |requests| then (w, [])
    else
      var r := RunTask(env, w, requests[i], SlotAt(ids, i), true);
      var (world, states) := ParallelFrom(env, r.world, requests, ids, i + 1);
      (world, [r.state] + states)
  }

  function FirstWith(states: seq<NodeState>, status: NodeStatus): Option<NodeState>
  {
    if states == [] then None
    else if states[0].status == status then Some(states[0])
    else FirstWith(states[1..], status)
  }

  function AllTaskIds(states: seq<NodeState>): seq<TaskId>
  {
    if states == [] then [] else states[0].taskIds + AllTaskIds(states[1..])
  }

  /** `aggregateNodeState` */
  function Aggregate(states: seq<NodeState>): NodeState
  {
    var failed := FirstWith(states, NodeStatus.Failed);
    var recovery := FirstWith(states, NodeStatus.RecoveryRequired);
    var awaiting := FirstWith(states, NodeStatus.AwaitingApproval);
    var cancelled := FirstWith(states, NodeStatus.Cancelled);
    var ids := AllTaskIds(states);
    if failed.Some? then failed.value.(taskIds := ids)
    else if recovery.Some? then recovery.value.(taskIds := ids)
    else if awaiting.Some? then awaiting.value.(taskIds := ids)
    else if cancelled.Some? then cancelled.value.(taskIds := ids)
    else Fresh(NodeStatus.VerifiedComplete, ids)
  }

  function ParallelEnd(env: Env, w: World, requests: seq<Request>, ids: seq<TaskId>): TaskRun
    requires WorldOk(w) && Known(w, ids)
  {
    var (world, states) := ParallelFrom(env, w, requests, ids, 0);
    TaskRun(world, Aggregate(states))
  }

  lemma {:induction false} FirstWithFinds(states: seq<NodeState>, status: NodeStatus)
    ensures FirstWith(states, status).Some? <==> exists s :: s in states && s.status == status
    ensures FirstWith(states, status).Some? ==> FirstWith(states, status).value.status == status
  {
    if states != [] {
      FirstWithFinds(states[1..], status);
      assert states == [states[0]] + states[1..];
    }
  }

  /** One state per request, each with its task, and whatever was verified still is. */
  ghost predicate RanAll(w: World, world: World, states: seq<NodeState>, count: nat)
  {
    |states| == count && |AllTaskIds(states)| == count
    && (forall t :: Verified(w, t) ==> Verified(world, t))
    && (forall j :: 0 <= j < count && states[j].status == NodeStatus.VerifiedComplete ==> Verified(world, AllTaskIds(states)[j]))
    && forall s :: s in states ==> s.status in SETTLED
  }

  const SETTLED: set<NodeStatus> :=
    {NodeStatus.VerifiedComplete, NodeStatus.AwaitingApproval, NodeStatus.RecoveryRequired, NodeStatus.Cancelled, NodeStatus.Failed}

  lemma RanOneMore(w: World, mid: World, world: World, state: NodeState, states: seq<NodeState>, count: nat)
    requires RanAll(mid, world, states, count)
    requires forall t :: Verified(w, t) ==> Verified(mid, t)
    requires |state.taskIds| == 1 && state.status in SETTLED
    requires state.status == NodeStatus.VerifiedComplete ==> Verified(mid, state.taskIds[0])
    ensures RanAll(w, world, [state] + states, count + 1)
  {
    var more := [state] + states;
    assert more[1..] == states;
    assert AllTaskIds(more) == state.taskIds + AllTaskIds(states);
    forall j | 0 <= j < count + 1 && more[j].status == NodeStatus.VerifiedComplete ensures Verified(world, AllTaskIds(more)[j]) {
      if j > 0 { assert more[j] == states[j - 1]; }
    }
  }

  /** An execution always leaves `planned`. */
  ghost predicate Conclusive(env: Env)
  {
    forall t :: env.outcome(t) != TaskStatus.Planned
  }

  lemma OneRuns(env: Env, w: World, request: Request, existing: Option<TaskId>, r: TaskRun)
    requires WorldOk(w) && (existing.Some? ==> existing.value in w.tasks) && Conclusive(env)
    requires r == RunTask(env, w, request, existing, true)
    ensures |r.state.taskIds| == 1 && r.state.status in SETTLED
    ensures r.state.status == NodeStatus.VerifiedComplete ==> Verified(r.world, r.state.taskIds[0])
  {
  }

  /** Every request runs. */
  lemma {:induction false} ParallelRunsAll(env: Env, w: World, requests: seq<Request>, ids: seq<TaskId>, i: nat)
    requires i <= |requests| && WorldOk(w) && Known(w, ids) && Conclusive(env)
    ensures RanAll(w, ParallelFrom(env, w, requests, ids, i).0, ParallelFrom(env, w, requests, ids, i).1, |requests| - i)
    decreases |requests| - i
  {
    if i < |requests| {
      var r := RunTask(env, w, requests[i], SlotAt(ids, i), true);
      ParallelRunsAll(env, r.world, requests, ids, i + 1);
      AllVerifiedStay(env, w, requests[i], SlotAt(ids, i), r.world);
      OneRuns(env, w, requests[i], SlotAt(ids, i), r);
      var (world, states) := ParallelFrom(env, r.world, requests, ids, i + 1);
      RanOneMore(w, r.world, world, r.state, states, |requests| - i - 1);
    }
  }

  /** A parallel node is complete only when every one of its requests is verified. */
  lemma ParallelComplete(env: Env, w: World, requests: seq<Request>, ids: seq<TaskId>)
    requires WorldOk(w) && Known(w, ids) && Conclusive(env)
    ensures var (world, states) := ParallelFrom(env, w, requests, ids, 0);
            var node := Aggregate(states);
            |node.taskIds| == |requests|
            && (node.status == NodeStatus.VerifiedComplete <==> forall s :: s in states ==> s.status == NodeStatus.VerifiedComplete)
            && (node.status == NodeStatus.VerifiedComplete ==> SlotsVerified(world, node.taskIds, |requests|))
  {
    ParallelRunsAll(env, w, requests, ids, 0);
    var states := ParallelFrom(env, w, requests, ids, 0).1;
    FirstWithFinds(states, NodeStatus.Failed);
    FirstWithFinds(states, NodeStatus.RecoveryRequired);
    FirstWithFinds(states, NodeStatus.AwaitingApproval);
    FirstWithFinds(states, NodeStatus.Cancelled);
    if Aggregate(states).status == NodeStatus.VerifiedComplete {
      forall j | 0 <= j < |states| ensures states[j].status == NodeStatus.VerifiedComplete {
        assert states[j] in states;
      }
    }
  }

  // ----- recovery of a node

  datatype TaskView = TaskView(id: TaskId, status: TaskStatus, approvalId: Option<nat>, error: Option<string>)

  predicate HasStatus(tasks: seq<TaskView>, statuses: set<TaskStatus>)
  {
    exists t :: t in tasks && t.status in statuses
  }

  function FirstOf(tasks: seq<TaskView>, statuses: set<TaskStatus>): (t: TaskView)
    requires HasStatus(tasks, statuses)
    ensures t in tasks && t.status in statuses
  {
    if tasks[0].status in statuses then tasks[0] else FirstOf(tasks[1..], statuses)
  }

  function ViewIds(tasks: seq<TaskView>): seq<TaskId>
  {
    seq(|tasks|, i requires 0 <= i < |tasks| => tasks[i].id)
  }

  function FirstError(tasks: seq<TaskView>): Option<string>
  {
    if tasks == [] then None
    else if tasks[0].error.Some? then tasks[0].error
    else FirstError(tasks[1..])
  }

  const FAILURES: set<TaskStatus> := {TaskStatus.Failed, TaskStatus.Partial, TaskStatus.BudgetExhausted, TaskStatus.PolicyBlocked}

  /** `recoveredNodeState`: `tasks` are the rows found for the keys the node is expected to use. */
  function RecoveredNodeState(kind: Kind, tasks: seq<TaskView>, previous: NodeState): NodeState
  {
    if tasks == [] then previous
    else
      var ids := ViewIds(tasks);
      if HasStatus(tasks, {TaskStatus.RecoveryRequired}) then
        Fresh(NodeStatus.RecoveryRequired, ids).(error := FirstOf(tasks, {TaskStatus.RecoveryRequired}).error)
      else if HasStatus(tasks, {TaskStatus.AwaitingApproval}) then
        Fresh(NodeStatus.AwaitingApproval, ids).(approvalId := FirstOf(tasks, {TaskStatus.AwaitingApproval}).approvalId)
      else if HasStatus(tasks, FAILURES) then Fresh(NodeStatus.Failed, ids).(error := FirstOf(tasks, FAILURES).error)
      else if HasStatus(tasks, {TaskStatus.Planned}) then Fresh(NodeStatus.Pending, ids).(error := FirstError(tasks))
      else if forall t :: t in tasks ==> t.status == TaskStatus.VerifiedSuccess then
        Fresh(if kind.Compensation? then NodeStatus.Compensated else NodeStatus.VerifiedComplete, ids)
        .(iterations := if kind.BoundedLoop? && kind.bodyLength > 0
                        then Some((|tasks| + kind.bodyLength - 1) / kind.bodyLength) else None)
      else Fresh(NodeStatus.Cancelled, ids)
  }

  /** The rows present among the expected keys, in their order. */
  function Present(found: seq<Option<TaskView>>): (tasks: seq<TaskView>)
    ensures |tasks| <= |found|
  {
    if found == [] then []
    else (if found[0].Some? then [found[0].value] else []) + Present(found[1..])
  }
}
