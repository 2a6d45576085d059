/**
  The controller of packages/runtime-core/src/workflow-controller.ts over whole runs: any list of calls, in
  any order, on any workflows, with any answers from nodes, compensations and recovery.

  An advance may work on a run it read long ago, so a call names the version it read.
 */
module WorkflowRuns {
  import opened Wrappers
  import opened Protocol
  import opened WorkflowEvents
  import opened WorkflowStores
  import opened WorkflowDrafts
  import opened NodeSchedulers
  import opened WorkflowControllers
  import opened WorkflowRecovery

  datatype Call =
    | PlanCall(definition: Definition, definitionId: nat, version: nat, id: WorkflowId, traceId: nat, createdAt: int,
               denied: NodeId -> bool)
    | AdvanceCall(id: WorkflowId, read: nat, outcome: NodeId -> Option<NodeAdvance>, compensate: NodeId -> Option<NodeState>)
    | PauseCall(id: WorkflowId)
    | SuspendCall(id: WorkflowId)
    | ResumeCall(id: WorkflowId)
    | CancelCall(id: WorkflowId)
    | RecoverCall(found: (WorkflowId, NodeId) -> seq<TaskView>)
    | CertifyCall(task: TaskId)

  /** Every run that reported `verified_complete` is the same run still, at the same version. */
  ghost predicate CompleteStay(before: map<WorkflowId, Run>, after: map<WorkflowId, Run>)
  {
    forall id :: id in before && before[id].status == RunStatus.VerifiedComplete ==> id in after && after[id] == before[id]
  }

  /** Every run that reported `cancelled` likewise. */
  ghost predicate CancelledStay(before: map<WorkflowId, Run>, after: map<WorkflowId, Run>)
  {
    forall id :: id in before && before[id].status == RunStatus.Cancelled ==> id in after && after[id] == before[id]
  }

  ghost predicate TerminalStay(before: map<WorkflowId, Run>, after: map<WorkflowId, Run>)
  {
    CompleteStay(before, after) && CancelledStay(before, after)
  }

  /** What the order of the stored runs depends on. */
  datatype Tables = Tables(definitions: map<(nat, nat), Definition>, certified: set<TaskId>, runs: map<WorkflowId, Run>)

  ghost function TablesOf(s: WorkflowStore): Tables
    reads s
  {
    Tables(s.definitions, s.certified, s.runs)
  }

  ghost predicate InOrder(t: Tables)
  {
    RunsWaveClosed(t.definitions, t.runs)
  }

  /** A recovery keeps the order if its rows do, for every run it goes through; any other call keeps it. */
  ghost predicate KeepsOrder(t: Tables, call: Call)
  {
    call.RecoverCall? ==> RowsKeepAll(t, call.found)
  }

  ghost predicate RowsKeepAll(t: Tables, found: (WorkflowId, NodeId) -> seq<TaskView>)
  {
    forall id :: id in t.runs && Recoverable(t.runs[id].status) ==>
      RowsKeepRun(t.definitions, t.certified, t.runs[id], RowsOf(found, id))
  }

  /** One run took on other nodes or another status; the definition it was planned from stayed. */
  ghost predicate OneMoved(before: Tables, after: Tables, id: WorkflowId)
  {
    id in before.runs && id in after.runs && after.runs == before.runs[id := after.runs[id]]
    && after.runs[id].definitionId == before.runs[id].definitionId && after.runs[id].definitionVersion == before.runs[id].definitionVersion
  }

  ghost predicate Unmoved(before: Tables, after: Tables)
  {
    after.runs == before.runs && after.definitions == before.definitions && before.certified <= after.certified
  }

  ghost predicate PlannedBy(before: Tables, call: Call, after: Tables)
    requires call.PlanCall?
  {
    call.id !in before.runs && (call.definitionId, call.version) !in before.definitions
    && after.definitions == before.definitions[(call.definitionId, call.version) := call.definition]
    && call.id in after.runs && after.runs == before.runs[call.id := after.runs[call.id]]
    && after.runs[call.id].nodes == PlannedNodes(call.definition)
    && (after.runs[call.id].definitionId, after.runs[call.id].definitionVersion) == (call.definitionId, call.version)
  }

  /** The run that was read is the stored one, and it took on what the answers make of it. */
  ghost predicate AdvancedBy(before: Tables, call: Call, after: Tables)
    requires call.AdvanceCall?
  {
    OneMoved(before, after, call.id) && before.runs[call.id].stateVersion == call.read
    && var current := before.runs[call.id];
       var results := Collected(current, DefinitionOf(before.definitions, current), call.outcome, call.compensate);
       results.Some?
       && after.runs[call.id].nodes
          == AdvancedRun(current, DefinitionOf(before.definitions, current), results.value, before.certified).nodes
  }

  /** What a call may do to the tables. */
  ghost predicate Effect(before: Tables, call: Call, after: Tables)
  {
    Unmoved(before, after)
    || match call
       case PlanCall(_, _, _, _, _, _, _) => PlannedBy(before, call, after)
       case AdvanceCall(_, _, _, _) => after.definitions == before.definitions && AdvancedBy(before, call, after)
       case CancelCall(id) =>
         after.definitions == before.definitions && OneMoved(before, after, id)
         && after.runs[id].nodes == CancelledRun(before.runs[id]).nodes
       case RecoverCall(found) =>
         after.definitions == before.definitions
         && RecoveredOnly(before.runs, after.runs, Targets(before.definitions, before.certified, before.runs, found),
                          RecoverableIds(before.runs))
       case _ =>
         after.definitions == before.definitions && exists id :: id in before.runs && Restatused(before, after, id)
  }

  ghost predicate Restatused(before: Tables, after: Tables, id: WorkflowId)
  {
    OneMoved(before, after, id) && after.runs[id].nodes == before.runs[id].nodes
  }

  lemma MovedIsOne(before: Tables, after: Tables, id: WorkflowId, target: Run, value: Run)
    requires Moved(before.runs, after.runs, id, target, value)
    requires target.definitionId == before.runs[id].definitionId && target.definitionVersion == before.runs[id].definitionVersion
    ensures OneMoved(before, after, id) && after.runs[id].nodes == target.nodes
  {
  }

  lemma MoveKeepsTerminal(before: map<WorkflowId, Run>, after: map<WorkflowId, Run>, id: WorkflowId, target: Run, value: Run)
    requires Moved(before, after, id, target, value) && !Terminal(before[id].status)
    ensures TerminalStay(before, after)
  {
  }

  lemma AddingKeepsTerminal(before: map<WorkflowId, Run>, id: WorkflowId, value: Run)
    requires id !in before
    ensures TerminalStay(before, before[id := value])
  {
  }

  /** A call that moved the status of one run, or nothing. */
  lemma RestatusHasEffect(before: Tables, after: Tables, call: Call, id: WorkflowId, target: Run, value: Run)
    requires call.PauseCall? || call.SuspendCall? || call.ResumeCall?
    requires after.definitions == before.definitions && Moved(before.runs, after.runs, id, target, value)
    requires target.nodes == before.runs[id].nodes
    requires target.definitionId == before.runs[id].definitionId && target.definitionVersion == before.runs[id].definitionVersion
    ensures Effect(before, call, after)
  {
    MovedIsOne(before, after, id, target, value);
    assert Restatused(before, after, id);
  }

  lemma AdvanceHasEffect(before: Tables, after: Tables, call: Call, current: Run, results: seq<NodeResult>, value: Run)
    requires call.AdvanceCall? && after.definitions == before.definitions
    requires call.id in before.runs && before.runs[call.id] == current && current.stateVersion == call.read
    requires Collected(current, DefinitionOf(before.definitions, current), call.outcome, call.compensate) == Some(results)
    requires Moved(before.runs, after.runs, call.id,
                   AdvancedRun(current, DefinitionOf(before.definitions, current), results, before.certified), value)
    ensures Effect(before, call, after)
  {
    MovedIsOne(before, after, call.id, AdvancedRun(current, DefinitionOf(before.definitions, current), results, before.certified), value);
  }

  lemma CancelHasEffect(before: Tables, after: Tables, id: WorkflowId, value: Run)
    requires after.definitions == before.definitions && id in before.runs
    requires Moved(before.runs, after.runs, id, CancelledRun(before.runs[id]), value)
    ensures Effect(before, CancelCall(id), after)
  {
    MovedIsOne(before, after, id, CancelledRun(before.runs[id]), value);
  }

  /** From tables in order a call leads to tables in order exactly if it keeps it. */
  ghost predicate OrderStep(before: Tables, call: Call, after: Tables)
  {
    InOrder(before) ==> (InOrder(after) <==> KeepsOrder(before, call))
  }

  lemma RecoveryOrders(before: Tables, after: Tables, found: (WorkflowId, NodeId) -> seq<TaskView>, recovered: set<WorkflowId>)
    requires InOrder(before) && forall id :: id in before.runs ==> Bound(before.definitions, before.runs[id])
    requires after.definitions == before.definitions && recovered == RecoverableIds(before.runs)
    requires RecoveredOnly(before.runs, after.runs, Targets(before.definitions, before.certified, before.runs, found), recovered)
    ensures InOrder(after) <==> RowsKeepAll(before, found)
  {
    RecoveryKeepsWavesIff(before.definitions, before.certified, before.runs, after.runs, found, recovered);
    assert forall id :: id in before.runs ==> RunWaveClosed(before.definitions, before.runs[id]);
  }

  lemma RecoveryKeepsTerminal(before: map<WorkflowId, Run>, after: map<WorkflowId, Run>, targets: map<WorkflowId, Run>,
                              recovered: set<WorkflowId>)
    requires RecoveredOnly(before, after, targets, recovered) && recovered == RecoverableIds(before)
    ensures TerminalStay(before, after)
  {
  }

  /** The run a process read at some version of the history. */
  lemma ReadIsRecorded(s: WorkflowStore, id: WorkflowId, version: nat, run: Run)
    requires Valid(s) && id in s.events && 1 <= version <= |s.events[id]|
    requires Fold(None, s.events[id][..version]) == Ok(Some(run))
    ensures Recorded(s, run) && run.id == id && run.stateVersion == version
  {
    var rows := s.events[id];
    assert id in s.runs && History(rows, id, s.runs[id]);
    ReplayedIsNumbered(rows[..version]);
    SnapshotIsShortcut(rows, version);
    ReplayKeepsIdentity(run, rows[version..]);
  }

  lemma PrefixReplays(s: WorkflowStore, id: WorkflowId, version: nat)
    requires Valid(s) && id in s.events && 1 <= version <= |s.events[id]|
    ensures Fold(None, s.events[id][..version]).Ok? && Fold(None, s.events[id][..version]).value.Some?
  {
    var rows := s.events[id];
    assert id in s.runs && History(rows, id, s.runs[id]);
    assert rows == rows[..version] + rows[version..];
    FoldInParts(None, rows[..version], rows[version..]);
    ReplayedIsNumbered(rows[..version]);
  }

  /** An advance of a run that was read once. */
  method AdvanceRead(c: WorkflowController, current: Run, outcome: NodeId -> Option<NodeAdvance>, compensate: NodeId -> Option<NodeState>)
    requires Valid(c.store) && Recorded(c.store, current)
    modifies c.store
    ensures Valid(c.store) && TerminalStay(old(c.store.runs), c.store.runs)
    ensures old(WavesClosed(c.store)) ==> WavesClosed(c.store)
    ensures Effect(old(TablesOf(c.store)), AdvanceCall(current.id, current.stateVersion, outcome, compensate), TablesOf(c.store))
  {
    ghost var before := TablesOf(c.store);
    var r := c.Advance(current, outcome, compensate);
    ghost var results := Collected(current, DefinitionOf(before.definitions, current), outcome, compensate);
    if r.Ok? && TablesOf(c.store) != before {
      ghost var target := AdvancedRun(current, DefinitionOf(before.definitions, current), results.value, before.certified);
      MoveKeepsTerminal(before.runs, c.store.runs, current.id, target, r.value);
      AdvanceHasEffect(before, TablesOf(c.store), AdvanceCall(current.id, current.stateVersion, outcome, compensate), current,
                       results.value, r.value);
    }
  }

  method ServeAdvance(c: WorkflowController, id: WorkflowId, read: nat, outcome: NodeId -> Option<NodeAdvance>,
                      compensate: NodeId -> Option<NodeState>)
    requires Valid(c.store)
    modifies c.store
    ensures Valid(c.store) && TerminalStay(old(c.store.runs), c.store.runs)
    ensures old(WavesClosed(c.store)) ==> WavesClosed(c.store)
    ensures Effect(old(TablesOf(c.store)), AdvanceCall(id, read, outcome, compensate), TablesOf(c.store))
  {
    if id in c.store.events && 1 <= read <= |c.store.events[id]| {
      PrefixReplays(c.store, id, read);
      var current := RebuildWorkflow(None, c.store.events[id][..read]);
      ReadIsRecorded(c.store, id, read, current.value);
      AdvanceRead(c, current.value, outcome, compensate);
    }
  }

  /** A plan that is refused leaves the tables as they were. */
  method TryPlan(c: WorkflowController, definition: Definition, definitionId: nat, version: nat, id: WorkflowId, traceId: nat,
                 createdAt: int, denied: NodeId -> bool)
    returns (planned: bool)
    requires Valid(c.store) && id !in c.store.runs
    modifies c.store
    ensures Valid(c.store) && (old(WavesClosed(c.store)) ==> WavesClosed(c.store))
    ensures !planned ==> TablesOf(c.store) == old(TablesOf(c.store))
    ensures planned ==>
        PlannedBy(old(TablesOf(c.store)), PlanCall(definition, definitionId, version, id, traceId, createdAt, denied), TablesOf(c.store))
  {
    var r := c.Plan(definition, definitionId, version, id, traceId, createdAt, denied);
    planned := r.Ok?;
  }

  method ServePlan(c: WorkflowController, definition: Definition, definitionId: nat, version: nat, id: WorkflowId, traceId: nat,
                   createdAt: int, denied: NodeId -> bool)
    requires Valid(c.store)
    modifies c.store
    ensures Valid(c.store) && TerminalStay(old(c.store.runs), c.store.runs)
    ensures old(WavesClosed(c.store)) ==> WavesClosed(c.store)
    ensures Effect(old(TablesOf(c.store)), PlanCall(definition, definitionId, version, id, traceId, createdAt, denied), TablesOf(c.store))
  {
    if id !in c.store.runs {
      ghost var before := TablesOf(c.store);
      var planned := TryPlan(c, definition, definitionId, version, id, traceId, createdAt, denied);
      if planned {
        AddingKeepsTerminal(before.runs, id, c.store.runs[id]);
      }
    }
  }

  method ServeHalt(c: WorkflowController, id: WorkflowId, to: RunStatus, kind: ChangeKind)
    requires (to == RunStatus.Paused && kind == WasPaused) || (to == RunStatus.Suspended && kind == WasSuspended)
    requires Valid(c.store)
    modifies c.store
    ensures Valid(c.store) && TerminalStay(old(c.store.runs), c.store.runs)
    ensures old(WavesClosed(c.store)) ==> WavesClosed(c.store)
    ensures Effect(old(TablesOf(c.store)), PauseCall(id), TablesOf(c.store)) && Effect(old(TablesOf(c.store)), SuspendCall(id), TablesOf(c.store))
  {
    ghost var before := TablesOf(c.store);
    var r := c.Halt(id, to, kind);
    if r.Ok? && before.runs[id].status != to {
      MoveKeepsTerminal(before.runs, c.store.runs, id, before.runs[id].(status := to), r.value);
      RestatusHasEffect(before, TablesOf(c.store), PauseCall(id), id, before.runs[id].(status := to), r.value);
      RestatusHasEffect(before, TablesOf(c.store), SuspendCall(id), id, before.runs[id].(status := to), r.value);
    }
  }

  method ServeResume(c: WorkflowController, id: WorkflowId)
    requires Valid(c.store)
    modifies c.store
    ensures Valid(c.store) && TerminalStay(old(c.store.runs), c.store.runs)
    ensures old(WavesClosed(c.store)) ==> WavesClosed(c.store)
    ensures Effect(old(TablesOf(c.store)), ResumeCall(id), TablesOf(c.store))
  {
    ghost var before := TablesOf(c.store);
    var r := c.Resume(id);
    if r.Ok? {
      MoveKeepsTerminal(before.runs, c.store.runs, id,
                        before.runs[id].(status := ResumedStatus(before.runs[id].nodes), error := None), r.value);
      RestatusHasEffect(before, TablesOf(c.store), ResumeCall(id), id,
                        before.runs[id].(status := ResumedStatus(before.runs[id].nodes), error := None), r.value);
    }
  }

  method ServeCancel(c: WorkflowController, id: WorkflowId)
    requires Valid(c.store)
    modifies c.store
    ensures Valid(c.store) && TerminalStay(old(c.store.runs), c.store.runs)
    ensures old(WavesClosed(c.store)) ==> WavesClosed(c.store)
    ensures Effect(old(TablesOf(c.store)), CancelCall(id), TablesOf(c.store))
  {
    ghost var before := TablesOf(c.store);
    var r, tasks := c.Cancel(id);
    if r.Ok? && !Terminal(before.runs[id].status) {
      CancelHasEffect(before, TablesOf(c.store), id, r.value);
    }
  }

  method ServeRecover(c: WorkflowController, found: (WorkflowId, NodeId) -> seq<TaskView>)
    requires Valid(c.store)
    modifies c.store
    ensures Valid(c.store) && TerminalStay(old(c.store.runs), c.store.runs)
    ensures OrderStep(old(TablesOf(c.store)), RecoverCall(found), TablesOf(c.store))
    ensures Effect(old(TablesOf(c.store)), RecoverCall(found), TablesOf(c.store))
  {
    ghost var before := TablesOf(c.store);
    ghost var targets := Targets(c.store.definitions, c.store.certified, c.store.runs, found);
    var recovered := c.RecoverInterrupted(found);
    RecoveryKeepsTerminal(before.runs, c.store.runs, targets, recovered);
    if InOrder(before) {
      RecoveryOrders(before, TablesOf(c.store), found, recovered);
    }
  }

  method ServeCertify(c: WorkflowController, task: TaskId)
    requires Valid(c.store)
    modifies c.store
    ensures Valid(c.store) && TerminalStay(old(c.store.runs), c.store.runs)
    ensures old(WavesClosed(c.store)) ==> WavesClosed(c.store)
    ensures Effect(old(TablesOf(c.store)), CertifyCall(task), TablesOf(c.store))
  {
    CertificatesKeepRuns(c.store.definitions, c.store.certified, c.store.certified + {task}, c.store.runs, c.store.events);
    c.store.SaveVerifiedCertificate(task);
  }

  /** One call, whatever comes of it. */
  method Serve(c: WorkflowController, call: Call)
    requires Valid(c.store)
    modifies c.store
    ensures Valid(c.store) && TerminalStay(old(c.store.runs), c.store.runs)
    ensures OrderStep(old(TablesOf(c.store)), call, TablesOf(c.store))
    ensures Effect(old(TablesOf(c.store)), call, TablesOf(c.store))
  {
    match call {
      case PlanCall(definition, definitionId, version, id, traceId, createdAt, denied) =>
        ServePlan(c, definition, definitionId, version, id, traceId, createdAt, denied);
      case AdvanceCall(id, read, outcome, compensate) => ServeAdvance(c, id, read, outcome, compensate);
      case PauseCall(id) => ServeHalt(c, id, RunStatus.Paused, WasPaused);
      case SuspendCall(id) => ServeHalt(c, id, RunStatus.Suspended, WasSuspended);
      case ResumeCall(id) => ServeResume(c, id);
      case CancelCall(id) => ServeCancel(c, id);
      case RecoverCall(found) => ServeRecover(c, found);
      case CertifyCall(task) => ServeCertify(c, task);
    }
  }

  ghost predicate Step(before: Tables, call: Call, after: Tables)
  {
    Effect(before, call, after) && OrderStep(before, call, after)
  }

  /** The tables before each call and after the last. */
  ghost predicate Trace(states: seq<Tables>, calls: seq<Call>)
  {
    |states| == |calls| + 1 && forall i :: 0 <= i < |calls| ==> Step(states[i], calls[i], states[i + 1])
  }

  ghost predicate AllKeepOrder(states: seq<Tables>, calls: seq<Call>)
    requires |states| == |calls| + 1
  {
    forall i :: 0 <= i < |calls| ==> KeepsOrder(states[i], calls[i])
  }

  lemma {:induction false} OrderOverTrace(states: seq<Tables>, calls: seq<Call>, n: nat)
    requires Trace(states, calls) && InOrder(states[0]) && AllKeepOrder(states, calls) && n <= |calls|
    ensures InOrder(states[n])
  {
    if n > 0 {
      OrderOverTrace(states, calls, n - 1);
      assert Step(states[n - 1], calls[n - 1], states[n - 1 + 1]);
    }
  }

  /** Tables in order stay so up to the first recovery whose rows do not keep the order, and that one breaks it. */
  lemma FirstBreak(states: seq<Tables>, calls: seq<Call>, n: nat)
    requires Trace(states, calls) && InOrder(states[0]) && n < |calls|
    requires forall i :: 0 <= i < n ==> KeepsOrder(states[i], calls[i])
    requires !KeepsOrder(states[n], calls[n])
    ensures InOrder(states[n]) && !InOrder(states[n + 1])
  {
    var before, done := states[..n + 1], calls[..n];
    forall i | 0 <= i < n ensures Step(before[i], done[i], before[i + 1]) {
      assert Step(states[i], calls[i], states[i + 1]);
    }
    OrderOverTrace(before, done, n);
    assert Step(states[n], calls[n], states[n + 1]);
  }

  lemma TraceGrows(states: seq<Tables>, calls: seq<Call>, i: nat, next: Tables)
    requires i < |calls| && Trace(states, calls[..i]) && Step(states[i], calls[i], next)
    ensures Trace(states + [next], calls[..i + 1])
  {
    var more, done := states + [next], calls[..i + 1];
    forall j | 0 <= j < i + 1 ensures Step(more[j], done[j], more[j + 1]) {
      if j < i { assert Step(states[j], calls[..i][j], states[j + 1]); }
    }
  }

  lemma OrderAtTheEnd(states: seq<Tables>, calls: seq<Call>)
    requires Trace(states, calls)
    ensures InOrder(states[0]) && AllKeepOrder(states, calls) ==> InOrder(states[|calls|])
    ensures (forall i :: 0 <= i < |calls| ==> !calls[i].RecoverCall?) ==> AllKeepOrder(states, calls)
  {
    if InOrder(states[0]) && AllKeepOrder(states, calls) {
      OrderOverTrace(states, calls, |calls|);
    }
  }

  lemma TerminalStayOn(before: map<WorkflowId, Run>, mid: map<WorkflowId, Run>, after: map<WorkflowId, Run>)
    requires TerminalStay(before, mid) && TerminalStay(mid, after)
    ensures TerminalStay(before, after)
  {
  }

  /** Where a list of calls has led after the first `i` of them. */
  ghost predicate Served(states: seq<Tables>, calls: seq<Call>, i: nat, before: Tables, now: Tables)
    requires i <= |calls|
  {
    Trace(states, calls[..i]) && states[0] == before && states[i] == now && TerminalStay(before.runs, now.runs)
  }

  method ServeNext(c: WorkflowController, calls: seq<Call>, i: nat, ghost states: seq<Tables>, ghost before: Tables)
    returns (ghost more: seq<Tables>)
    requires Valid(c.store) && i < |calls| && Served(states, calls, i, before, TablesOf(c.store))
    modifies c.store
    ensures Valid(c.store) && Served(more, calls, i + 1, before, TablesOf(c.store))
  {
    ghost var mid := TablesOf(c.store);
    Serve(c, calls[i]);
    TraceGrows(states, calls, i, TablesOf(c.store));
    TerminalStayOn(before.runs, mid.runs, c.store.runs);
    more := states + [TablesOf(c.store)];
  }

  /**
    A run that reports `verified_complete`, or `cancelled`, is final: no list of later calls changes it,
    stale advances, recoveries and cancellations included. And runs that are in order stay in order: over any
    list without a recovery, and over recoveries whose rows keep the order at their turn.
   */
  method ServeAll(c: WorkflowController, calls: seq<Call>) returns (ghost states: seq<Tables>)
    requires Valid(c.store)
    modifies c.store
    ensures Valid(c.store) && TerminalStay(old(c.store.runs), c.store.runs)
    ensures Trace(states, calls) && states[0] == old(TablesOf(c.store)) && states[|calls|] == TablesOf(c.store)
    ensures old(WavesClosed(c.store)) && AllKeepOrder(states, calls) ==> WavesClosed(c.store)
    ensures old(WavesClosed(c.store)) && (forall i :: 0 <= i < |calls| ==> !calls[i].RecoverCall?) ==> WavesClosed(c.store)
  {
    ghost var before := TablesOf(c.store);
    states := [before];
    assert calls[..0] == [];
    for i := 0 to |calls|
      invariant Valid(c.store) && Served(states, calls, i, before, TablesOf(c.store))
    {
      states := ServeNext(c, calls, i, states, before);
    }
    assert calls[..|calls|] == calls;
    OrderAtTheEnd(states, calls);
  }
}
