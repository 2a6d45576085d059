/**
  `runParallel` of packages/runtime-core/src/workflow-controller.ts as it really runs: the callbacks of
  `map` plan and start their tasks one after the other, and `Promise.all` lets the executions end in any
  order. Whatever the order, the node and the task rows are those of running the requests in turn.
 */
module ParallelBranches {
  import opened Wrappers
  import opened Text
  import opened Protocol
  import opened NodeSchedulers

  /** The task is executed: it is planned, or it waits for an approval that came with the call. */
  predicate Starts(env: Env, w: World, id: TaskId)
    requires id in w.tasks
  {
    w.tasks[id] == TaskStatus.Planned || (w.tasks[id] == TaskStatus.AwaitingApproval && id in env.approved)
  }

  function PlannedWorld(env: Env, w: World, request: Request, existing: Option<TaskId>): World
  {
    if existing.Some? then w else w.(tasks := w.tasks[w.next := env.planned(request)], next := w.next + 1)
  }

  /** What `map` has done with requests `i` and later: rows planned, executions started, none of them ended. */
  datatype Launch = Launch(world: World, slots: seq<TaskId>, started: seq<TaskId>)

  function LaunchFrom(env: Env, w: World, requests: seq<Request>, ids: seq<TaskId>, i: nat): Launch
    requires i <= |requests| && WorldOk(w) && Known(w, ids)
    decreases |requests| - i
  {
    if i == |requests| then Launch(w, [], [])
    else
      var planned := PlannedWorld(env, w, requests[i], SlotAt(ids, i));
      var id := if i < |ids| then ids[i] else w.next;
      var starts := Starts(env, planned, id);
      var rest := LaunchFrom(env, if starts then planned.(executions := planned.executions + [id]) else planned, requests, ids, i + 1);
      Launch(rest.world, [id] + rest.slots, (if starts then [id] else []) + rest.started)
  }

  /** The executions end in the given order. */
  function EndAll(env: Env, w: World, order: seq<TaskId>): World
    decreases |order|
  {
    if order == [] then w
    else EndAll(env, w.(tasks := w.tasks[order[0] := env.outcome(order[0])]), order[1..])
  }

  function StateOf(w: World, id: TaskId): NodeState
    requires id in w.tasks
  {
    NodeStateForTask(id, w.tasks[id], false)
  }

  function Ended(env: Env, w: World, ended: set<TaskId>): World
  {
    w.(tasks := map t | t in w.tasks :: if t in ended then env.outcome(t) else w.tasks[t])
  }

  /** Only which executions have ended matters, not in which order. */
  lemma {:induction false} OrderDoesNotMatter(env: Env, w: World, order: seq<TaskId>)
    requires Known(w, order)
    ensures EndAll(env, w, order) == Ended(env, w, set t | t in order)
    decreases |order|
  {
    if order == [] {
      assert Ended(env, w, {}).tasks == w.tasks;
    } else {
      var next := w.(tasks := w.tasks[order[0] := env.outcome(order[0])]);
      OrderDoesNotMatter(env, next, order[1..]);
      assert order == [order[0]] + order[1..];
      assert Ended(env, next, set t | t in order[1..]).tasks == Ended(env, w, set t | t in order).tasks;
    }
  }

  /** The slots that are still to be filled, from `i` on, do not include `id`. */
  ghost predicate Later(ids: seq<TaskId>, i: nat, id: TaskId, next: TaskId)
  {
    id < next && forall j :: i <= j < |ids| ==> ids[j] != id
  }

  function WithStatus(w: World, id: TaskId, status: TaskStatus): World
  {
    w.(tasks := w.tasks[id := status])
  }

  /** How one task ended is nothing to the requests after it. */
  lemma {:induction false} LaunchIgnores(env: Env, w: World, requests: seq<Request>, ids: seq<TaskId>, i: nat, id: TaskId, status: TaskStatus)
    requires i <= |requests| && WorldOk(w) && Known(w, ids) && id in w.tasks && Later(ids, i, id, w.next)
    ensures WorldOk(WithStatus(w, id, status)) && Known(WithStatus(w, id, status), ids)
    ensures var l := LaunchFrom(env, w, requests, ids, i);
            LaunchFrom(env, WithStatus(w, id, status), requests, ids, i) == Launch(WithStatus(l.world, id, status), l.slots, l.started)
    decreases |requests| - i
  {
    if i < |requests| {
      var one := if i < |ids| then ids[i] else w.next;
      var planned := PlannedWorld(env, w, requests[i], SlotAt(ids, i));
      var other := PlannedWorld(env, WithStatus(w, id, status), requests[i], SlotAt(ids, i));
      assert other == WithStatus(planned, id, status);
      assert one != id;
      var after := if Starts(env, planned, one) then planned.(executions := planned.executions + [one]) else planned;
      LaunchIgnores(env, after, requests, ids, i + 1, id, status);
    }
  }

  /** Starting keeps every row, and the slots from `i` on are those given or new. */
  lemma {:induction false} LaunchFacts(env: Env, w: World, requests: seq<Request>, ids: seq<TaskId>, i: nat)
    requires i <= |requests| && WorldOk(w) && Known(w, ids)
    ensures var l := LaunchFrom(env, w, requests, ids, i);
            |l.slots| == |requests| - i && WorldOk(l.world) && Known(l.world, l.slots)
            && (forall t :: t in w.tasks ==> t in l.world.tasks && l.world.tasks[t] == w.tasks[t])
            && (forall t :: t in l.started ==> t in l.slots)
            && forall t :: t in l.slots ==> !Later(ids, i, t, w.next)
    decreases |requests| - i
  {
    if i < |requests| {
      var id := if i < |ids| then ids[i] else w.next;
      var planned := PlannedWorld(env, w, requests[i], SlotAt(ids, i));
      var after := if Starts(env, planned, id) then planned.(executions := planned.executions + [id]) else planned;
      LaunchFacts(env, after, requests, ids, i + 1);
    }
  }

  /** One request in turn is its start followed by its end. */
  lemma OneInTurn(env: Env, w: World, request: Request, existing: Option<TaskId>, id: TaskId, planned: World, r: TaskRun)
    requires WorldOk(w) && (existing.Some? ==> existing.value in w.tasks) && id == (if existing.Some? then existing.value else w.next)
    requires planned == PlannedWorld(env, w, request, existing) && r == RunTask(env, w, request, existing, true)
    ensures id in planned.tasks
    ensures r.world == if Starts(env, planned, id) then WithStatus(planned.(executions := planned.executions + [id]), id, env.outcome(id))
                       else planned
    ensures id in r.world.tasks && r.state == StateOf(r.world, id)
  {
  }

  lemma EndedOneMore(env: Env, w: World, id: TaskId, ended: set<TaskId>)
    requires id in w.tasks
    ensures Ended(env, WithStatus(w, id, env.outcome(id)), ended) == Ended(env, w, {id} + ended)
  {
    assert Ended(env, WithStatus(w, id, env.outcome(id)), ended).tasks == Ended(env, w, {id} + ended).tasks;
  }

  function Members(s: seq<TaskId>): set<TaskId>
  {
    set t | t in s
  }

  /** The world and the states of running requests `i` and later in turn, from their launch. */
  ghost predicate InTurn(env: Env, l: Launch, world: World, states: seq<NodeState>)
  {
    world == Ended(env, l.world, Members(l.started)) && |states| == |l.slots| && Known(world, l.slots)
    && forall k :: 0 <= k < |states| ==> states[k] == StateOf(world, l.slots[k])
  }

  /** The request before those of `rest`, started and ended before them or together with them. */
  lemma InTurnOneMore(env: Env, rest: Launch, id: TaskId, world: World, states: seq<NodeState>, l: Launch, starts: bool)
    requires id in rest.world.tasks && id !in rest.started
    requires l == Launch(rest.world, [id] + rest.slots, (if starts then [id] else []) + rest.started)
    requires InTurn(env, if starts then Launch(WithStatus(rest.world, id, env.outcome(id)), rest.slots, rest.started) else rest, world, states)
    ensures id in world.tasks && InTurn(env, l, world, [StateOf(world, id)] + states)
  {
    if starts {
      EndedOneMore(env, rest.world, id, Members(rest.started));
      assert Members(l.started) == {id} + Members(rest.started);
    }
  }

  /** Request `i` as both sides see it: the world once it has started, and once it has run. */
  datatype Step = Step(id: TaskId, starts: bool, after: World, r: TaskRun)

  function StepOf(env: Env, w: World, request: Request, existing: Option<TaskId>): Step
    requires WorldOk(w) && (existing.Some? ==> existing.value in w.tasks)
  {
    var id := if existing.Some? then existing.value else w.next;
    var planned := PlannedWorld(env, w, request, existing);
    var starts := Starts(env, planned, id);
    Step(id, starts, if starts then planned.(executions := planned.executions + [id]) else planned,
         RunTask(env, w, request, existing, true))
  }

  lemma StepFacts(env: Env, w: World, request: Request, existing: Option<TaskId>, s: Step)
    requires WorldOk(w) && (existing.Some? ==> existing.value in w.tasks) && s == StepOf(env, w, request, existing)
    ensures WorldOk(s.after) && s.id in s.after.tasks && s.id < s.after.next
    ensures forall t :: t in w.tasks ==> t in s.after.tasks
    ensures s.r.world == if s.starts then WithStatus(s.after, s.id, env.outcome(s.id)) else s.after
    ensures s.r.state == StateOf(s.r.world, s.id)
  {
    OneInTurn(env, w, request, existing, s.id, PlannedWorld(env, w, request, existing), s.r);
  }

  lemma LaunchUnfolds(env: Env, w: World, requests: seq<Request>, ids: seq<TaskId>, i: nat, s: Step)
    requires i < |requests| && WorldOk(w) && Known(w, ids) && s == StepOf(env, w, requests[i], SlotAt(ids, i))
    ensures WorldOk(s.after) && Known(s.after, ids)
    ensures var rest := LaunchFrom(env, s.after, requests, ids, i + 1);
            LaunchFrom(env, w, requests, ids, i)
            == Launch(rest.world, [s.id] + rest.slots, (if s.starts then [s.id] else []) + rest.started)
  {
  }

  lemma TurnsUnfold(env: Env, w: World, requests: seq<Request>, ids: seq<TaskId>, i: nat, s: Step)
    requires i < |requests| && WorldOk(w) && Known(w, ids) && s == StepOf(env, w, requests[i], SlotAt(ids, i))
    ensures WorldOk(s.r.world) && Known(s.r.world, ids)
    ensures var (world, states) := ParallelFrom(env, s.r.world, requests, ids, i + 1);
            ParallelFrom(env, w, requests, ids, i) == (world, [s.r.state] + states)
  {
  }

  lemma SlotIsLater(env: Env, w: World, requests: seq<Request>, ids: seq<TaskId>, i: nat, s: Step)
    requires i < |requests| && WorldOk(w) && Known(w, ids) && Distinct(ids) && s == StepOf(env, w, requests[i], SlotAt(ids, i))
    ensures Later(ids, i + 1, s.id, s.after.next)
  {
  }

  /** The rest of the launch, whether or not the request has ended by then. */
  lemma RestOfLaunch(env: Env, requests: seq<Request>, ids: seq<TaskId>, i: nat, s: Step, rest: Launch, again: Launch)
    requires i < |requests| && WorldOk(s.after) && Known(s.after, ids) && s.id in s.after.tasks && Later(ids, i + 1, s.id, s.after.next)
    requires s.r.world == if s.starts then WithStatus(s.after, s.id, env.outcome(s.id)) else s.after
    requires rest == LaunchFrom(env, s.after, requests, ids, i + 1)
    requires WorldOk(s.r.world) && Known(s.r.world, ids) && again == LaunchFrom(env, s.r.world, requests, ids, i + 1)
    ensures again == if s.starts then Launch(WithStatus(rest.world, s.id, env.outcome(s.id)), rest.slots, rest.started) else rest
    ensures s.id in rest.world.tasks && s.id !in rest.started
    ensures s.id in again.world.tasks && again.world.tasks[s.id] == s.r.world.tasks[s.id] && s.id !in again.started
  {
    LaunchIgnores(env, s.after, requests, ids, i + 1, s.id, env.outcome(s.id));
    LaunchFacts(env, s.after, requests, ids, i + 1);
  }

  /** Running the requests in turn is starting them all and then ending all executions. */
  lemma {:induction false} TurnsAreALaunch(env: Env, w: World, requests: seq<Request>, ids: seq<TaskId>, i: nat)
    requires i <= |requests| && WorldOk(w) && Known(w, ids) && Distinct(ids)
    ensures InTurn(env, LaunchFrom(env, w, requests, ids, i),
                   ParallelFrom(env, w, requests, ids, i).0, ParallelFrom(env, w, requests, ids, i).1)
    decreases |requests| - i
  {
    if i == |requests| {
      assert Ended(env, w, {}).tasks == w.tasks;
      assert Members([]) == {};
    } else {
      var s := StepOf(env, w, requests[i], SlotAt(ids, i));
      StepFacts(env, w, requests[i], SlotAt(ids, i), s);
      LaunchUnfolds(env, w, requests, ids, i, s);
      TurnsUnfold(env, w, requests, ids, i, s);
      SlotIsLater(env, w, requests, ids, i, s);
      TurnsAreALaunch(env, s.r.world, requests, ids, i + 1);
      var rest := LaunchFrom(env, s.after, requests, ids, i + 1);
      var again := LaunchFrom(env, s.r.world, requests, ids, i + 1);
      RestOfLaunch(env, requests, ids, i, s, rest, again);
      var (world, states) := ParallelFrom(env, s.r.world, requests, ids, i + 1);
      InTurnOneMore(env, rest, s.id, world, states, LaunchFrom(env, w, requests, ids, i), s.starts);
    }
  }

  /**
    In whatever order the executions end, every row is as if the requests had run in turn, the executions
    were started in the same order, and the node state collected at the end is the same.
   */
  lemma AnyOrderIsInTurn(env: Env, w: World, requests: seq<Request>, ids: seq<TaskId>, order: seq<TaskId>)
    requires WorldOk(w) && Known(w, ids) && Distinct(ids)
    requires forall t :: t in order <==> t in LaunchFrom(env, w, requests, ids, 0).started
    ensures var l := LaunchFrom(env, w, requests, ids, 0);
            var (world, states) := ParallelFrom(env, w, requests, ids, 0);
            EndAll(env, l.world, order) == world && |states| == |l.slots| == |requests| && Known(world, l.slots)
            && forall k :: 0 <= k < |states| ==> states[k] == StateOf(EndAll(env, l.world, order), l.slots[k])
  {
    var l := LaunchFrom(env, w, requests, ids, 0);
    LaunchFacts(env, w, requests, ids, 0);
    TurnsAreALaunch(env, w, requests, ids, 0);
    OrderDoesNotMatter(env, l.world, order);
    assert (set t | t in order) == Members(l.started);
  }
}
