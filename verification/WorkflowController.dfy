/**
  The public operations of packages/runtime-core/src/workflow-controller.ts over the workflow store.

  `Valid` is what every operation keeps, whoever else commits in between: each history is numbered and
  replays to the stored run, each snapshot is a point of that history, and no run claims more than its
  nodes and certificates show. A process that read a run earlier works on a `Recorded` run, stale or not.
 */
module WorkflowControllers {
  import opened Wrappers
  import opened Text
  import opened Counting
  import opened Protocol
  import opened WorkflowEvents
  import opened WorkflowStores
  import opened Layering
  import opened WorkflowGraph
  import opened WorkflowDrafts
  import opened NodeSchedulers

  datatype WorkflowError =
    | WorkflowNotFound
    | InvalidDefinition(graph: GraphError)
    | StoreRejected(store: StoreError)
    | EventRejected
    | ProjectionMismatch
    | HistoryInvalid
    | Halted(status: RunStatus)
    | NotPaused
    | NotHaltable
    | NodeThrew
    | DeniedByPolicy(nodeId: NodeId)

  // ----- what every operation keeps

  ghost predicate History(rows: seq<Event>, id: WorkflowId, run: Run)
  {
    Fold(None, rows) == Ok(Some(run)) && run.id == id
  }

  ghost predicate PointOf(rows: seq<Event>, k: nat, run: Run)
  {
    1 <= k <= |rows| && Fold(None, rows[..k]) == Ok(Some(run))
  }

  /** The definition a run was planned from; `Bound` says there is one. */
  function DefinitionOf(definitions: map<(nat, nat), Definition>, run: Run): Definition
  {
    var key := (run.definitionId, run.definitionVersion);
    if key in definitions then definitions[key] else []
  }

  ghost predicate Bound(definitions: map<(nat, nat), Definition>, run: Run)
  {
    (run.definitionId, run.definitionVersion) in definitions
    && DistinctIds(DefinitionOf(definitions, run))
    && run.nodes.Keys == Members(Ids(DefinitionOf(definitions, run)))
  }

  /** An error stands only beside `recovery_required`; `verified_complete` is never claimed falsely. */
  ghost predicate Honest(definitions: map<(nat, nat), Definition>, certified: set<TaskId>, run: Run)
  {
    (run.error.Some? ==> run.status == RunStatus.RecoveryRequired)
    && (run.status == RunStatus.VerifiedComplete ==> NothingLeft(DefinitionOf(definitions, run), run.nodes, certified))
  }

  ghost predicate RunsValid(definitions: map<(nat, nat), Definition>, certified: set<TaskId>,
                            runs: map<WorkflowId, Run>, events: map<WorkflowId, seq<Event>>)
  {
    runs.Keys == events.Keys
    && forall id :: id in runs ==> History(events[id], id, runs[id]) && Bound(definitions, runs[id]) && Honest(definitions, certified, runs[id])
  }

  ghost predicate SnapshotsValid(snapshots: map<WorkflowId, map<nat, Run>>, events: map<WorkflowId, seq<Event>>)
  {
    forall id, k :: id in snapshots && k in snapshots[id] ==> id in events && PointOf(events[id], k, snapshots[id][k])
  }

  ghost predicate Valid(s: WorkflowStore)
    reads s
  {
    RunsValid(s.definitions, s.certified, s.runs, s.events) && SnapshotsValid(s.snapshots, s.events)
  }

  /** The run was the stored run of its workflow at some version of the history. */
  ghost predicate Recorded(s: WorkflowStore, run: Run)
    reads s
  {
    run.id in s.events && PointOf(s.events[run.id], run.stateVersion, run)
  }

  /** Events are numbered 1..n without gap or repeat, and n is the version of the stored run. */
  lemma HistoryIsNumbered(s: WorkflowStore, id: WorkflowId)
    requires Valid(s) && id in s.runs
    ensures |s.events[id]| == s.runs[id].stateVersion >= 1
    ensures forall i :: 0 <= i < |s.events[id]| ==> s.events[id][i].sequence == i + 1
  {
    ReplayedIsNumbered(s.events[id]);
  }

  /** The version alone tells which run it was, so comparing versions at commit time is enough. */
  lemma VersionDeterminesRun(s: WorkflowStore, a: Run, b: Run)
    requires Recorded(s, a) && Recorded(s, b) && a.id == b.id && a.stateVersion == b.stateVersion
    ensures a == b
  {
  }

  /** No false success: what a stored run that reports `verified_complete` says about node `i` of its definition. */
  lemma CompleteIsProven(s: WorkflowStore, id: WorkflowId, i: nat)
    requires Valid(s) && id in s.runs && s.runs[id].status == RunStatus.VerifiedComplete
    requires i < |DefinitionOf(s.definitions, s.runs[id])|
    ensures s.runs[id].error.None?
    ensures var node := DefinitionOf(s.definitions, s.runs[id])[i];
      node.id in s.runs[id].nodes
      && var state := s.runs[id].nodes[node.id];
         if node.kind.Compensation? then state.status != NodeStatus.Pending
         else Finished(state.status) && forall t :: t in state.taskIds ==> t in s.certified
  {
    var definition := DefinitionOf(s.definitions, s.runs[id]);
    assert Ids(definition)[i] == definition[i].id && Ids(definition)[i] in Members(Ids(definition));
    assert !PendingCompensation(s.runs[id].nodes, definition[i]);
  }

  lemma StoredIsRecorded(s: WorkflowStore, id: WorkflowId)
    requires Valid(s) && id in s.runs
    ensures Recorded(s, s.runs[id])
  {
    HistoryIsNumbered(s, id);
    assert s.events[id][..|s.events[id]|] == s.events[id];
  }

  /** A recorded run has the identity and the nodes of the stored one, and is the stored one if the versions agree. */
  lemma RecordedIdentity(s: WorkflowStore, run: Run)
    requires Valid(s) && Recorded(s, run)
    ensures run.id in s.runs
    ensures var stored := s.runs[run.id];
            stored.traceId == run.traceId && stored.definitionId == run.definitionId
            && stored.definitionVersion == run.definitionVersion && stored.nodes.Keys == run.nodes.Keys
            && run.stateVersion <= stored.stateVersion
            && (stored.stateVersion == run.stateVersion ==> stored == run)
    ensures Bound(s.definitions, run)
  {
    var rows := s.events[run.id];
    assert run.id in s.runs;
    SnapshotIsShortcut(rows, run.stateVersion);
    ReplayKeepsIdentity(run, rows[run.stateVersion..]);
    HistoryIsNumbered(s, run.id);
    if s.runs[run.id].stateVersion == run.stateVersion {
      StoredIsRecorded(s, run.id);
    }
  }

  /** Later events leave earlier points of a history where they were. */
  lemma PointsStay(rows: seq<Event>, more: seq<Event>, k: nat, run: Run)
    requires PointOf(rows, k, run)
    ensures PointOf(rows + more, k, run)
  {
    assert (rows + more)[..k] == rows[..k];
  }

  lemma NothingCollides(rows: seq<Event>, more: seq<Event>)
    requires forall i :: 0 <= i < |rows| ==> rows[i].sequence == i + 1
    requires forall i :: 0 <= i < |more| ==> more[i].sequence == |rows| + i + 1
    ensures !Collides(rows, more)
  {
  }

  lemma StampedPassesAssert(run: Run, data: seq<EventData>, events: seq<Event>)
    requires Stamped(run, data, events) && data != []
    ensures AssertEvents(run.id, run.traceId, run.stateVersion, run.stateVersion + |data|, events).None?
  {
  }

  /** Writing a run that replays and is honest keeps the tables valid. */
  lemma CommitKeepsRuns(definitions: map<(nat, nat), Definition>, certified: set<TaskId>, runs: map<WorkflowId, Run>,
                        events: map<WorkflowId, seq<Event>>, id: WorkflowId, run: Run, more: seq<Event>)
    requires RunsValid(definitions, certified, runs, events) && id in runs
    requires Fold(Some(runs[id]), more) == Ok(Some(run)) && more != []
    requires Honest(definitions, certified, run)
    ensures RunsValid(definitions, certified, runs[id := run], events[id := events[id] + more])
  {
    FoldInParts(None, events[id], more);
    ReplayKeepsIdentity(runs[id], more);
  }

  lemma CommitKeepsSnapshots(snapshots: map<WorkflowId, map<nat, Run>>, events: map<WorkflowId, seq<Event>>,
                             id: WorkflowId, more: seq<Event>)
    requires SnapshotsValid(snapshots, events) && id in events
    ensures SnapshotsValid(snapshots, events[id := events[id] + more])
  {
    forall i, k | i in snapshots && k in snapshots[i] ensures PointOf(events[id := events[id] + more][i], k, snapshots[i][k]) {
      if i == id { PointsStay(events[id], more, k, snapshots[i][k]); }
    }
  }

  lemma CertificatesKeepHonest(definitions: map<(nat, nat), Definition>, certified: set<TaskId>, more: set<TaskId>, run: Run)
    requires Honest(definitions, certified, run) && certified <= more
    ensures Honest(definitions, more, run)
  {
    if run.status == RunStatus.VerifiedComplete {
      var definition := DefinitionOf(definitions, run);
      forall i | 0 <= i < |definition| && IsRequired(definition[i]) ensures ProvenDone(run.nodes, more, definition[i].id) {
        assert ProvenDone(run.nodes, certified, definition[i].id);
      }
    }
  }

  /** Certificates only accumulate; that never makes a claim false. */
  lemma CertificatesKeepRuns(definitions: map<(nat, nat), Definition>, certified: set<TaskId>, more: set<TaskId>,
                             runs: map<WorkflowId, Run>, events: map<WorkflowId, seq<Event>>)
    requires RunsValid(definitions, certified, runs, events) && certified <= more
    ensures RunsValid(definitions, more, runs, events)
  {
    forall id | id in runs ensures Honest(definitions, more, runs[id]) {
      CertificatesKeepHonest(definitions, certified, more, runs[id]);
    }
  }

  // ----- which nodes an advance takes, and what it collects from them

  predicate RollsBack(nodes: map<NodeId, NodeState>, node: Node)
  {
    node.kind.Compensation? && node.id in nodes
    && nodes[node.id].status in {NodeStatus.Pending, NodeStatus.AwaitingApproval}
    && node.kind.forNode in nodes && nodes[node.kind.forNode].status.VerifiedComplete?
  }

  /** Compensations to run for a failed workflow, last one first. */
  function Rollback(definition: Definition, nodes: map<NodeId, NodeState>): (ids: seq<NodeId>)
    ensures forall id :: id in ids ==> exists i :: 0 <= i < |definition| && definition[i].id == id && RollsBack(nodes, definition[i])
  {
    if definition == [] then []
    else
      assert definition == [definition[0]] + definition[1..];
      Rollback(definition[1..], nodes) + (if RollsBack(nodes, definition[0]) then [definition[0].id] else [])
  }

  predicate Awaits(nodes: map<NodeId, NodeState>, node: Node)
  {
    IsRequired(node) && node.id in nodes
    && nodes[node.id].status in {NodeStatus.AwaitingApproval, NodeStatus.AwaitingInput}
  }

  function AwaitingInOrder(definition: Definition, nodes: map<NodeId, NodeState>): (ids: seq<NodeId>)
    ensures forall id :: id in ids ==> exists i :: 0 <= i < |definition| && definition[i].id == id && Awaits(nodes, definition[i])
  {
    if definition == [] then []
    else
      assert definition == [definition[0]] + definition[1..];
      (if Awaits(nodes, definition[0]) then [definition[0].id] else []) + AwaitingInOrder(definition[1..], nodes)
  }

  /** Nodes parked for a person, sorted. */
  function Awaiting(definition: Definition, nodes: map<NodeId, NodeState>): (ids: seq<NodeId>)
    ensures forall id :: id in ids ==> exists i :: 0 <= i < |definition| && definition[i].id == id && Awaits(nodes, definition[i])
  {
    SortMembers(AwaitingInOrder(definition, nodes));
    Sort(AwaitingInOrder(definition, nodes))
  }

  function Select(current: Run, definition: Definition): seq<NodeId>
  {
    if current.status == RunStatus.Failed then Rollback(definition, current.nodes)
    else if Awaiting(definition, current.nodes) != [] then Awaiting(definition, current.nodes)
    else ReadyNodeIds(definition, current.nodes)
  }

  /** What makes a node eligible for an advance. */
  ghost predicate Eligible(nodes: map<NodeId, NodeState>, node: Node)
  {
    RollsBack(nodes, node) || Awaits(nodes, node) || IsReady(nodes, node) || PendingCompensation(nodes, node)
  }

  ghost predicate EligibleId(definition: Definition, nodes: map<NodeId, NodeState>, id: NodeId)
  {
    exists i :: 0 <= i < |definition| && definition[i].id == id && Eligible(nodes, definition[i])
  }

  lemma SelectedAreEligible(current: Run, definition: Definition, id: NodeId)
    requires id in Select(current, definition)
    ensures EligibleId(definition, current.nodes, id) && id in current.nodes
  {
    var i :| 0 <= i < |definition| && definition[i].id == id
             && (RollsBack(current.nodes, definition[i]) || Awaits(current.nodes, definition[i]) || IsReady(current.nodes, definition[i]));
    assert Eligible(current.nodes, definition[i]);
  }

  /** The state the collected results give a node, if any; the first one found counts. */
  function FindResult(results: seq<NodeResult>, id: NodeId): Option<NodeState>
  {
    if results == [] then None
    else if results[0].nodeId == id then Some(results[0].advance.state)
    else FindResult(results[1..], id)
  }

  predicate SomeFailed(results: seq<NodeResult>)
  {
    exists r :: r in results && r.advance.state.status.Failed?
  }

  /**
    What one pending compensation contributes when the wave failed: run it, or skip it if its target is
    not done; `None` if running it threw.
   */
  function CompensationResult(current: Run, node: Node, soFar: seq<NodeResult>, compensate: NodeId -> Option<NodeState>): Option<NodeResult>
    requires node.kind.Compensation?
  {
    var found := FindResult(soFar, node.kind.forNode);
    var done := if found.Some? then found.value.status.VerifiedComplete?
                else node.kind.forNode in current.nodes && current.nodes[node.kind.forNode].status.VerifiedComplete?;
    if !done then Some(NodeResult(node.id, NodeAdvance(Fresh(NodeStatus.Skipped, []), false)))
    else if compensate(node.id).None? then None
    else Some(NodeResult(node.id, NodeAdvance(AsCompensated(compensate(node.id).value), false)))
  }

  /** `for (const node of [...definition.nodes].reverse())`, with nodes `i` and above done; `None` once one threw. */
  function WithCompensations(current: Run, definition: Definition, i: nat, results: seq<NodeResult>,
                             compensate: NodeId -> Option<NodeState>): Option<seq<NodeResult>>
    requires i <= |definition|
    decreases |definition| - i
  {
    if i == |definition| then Some(results)
    else
      var later := WithCompensations(current, definition, i + 1, results, compensate);
      if later.None? || !PendingCompensation(current.nodes, definition[i]) then later
      else
        var one := CompensationResult(current, definition[i], later.value, compensate);
        if one.None? then None else Some(later.value + [one.value])
  }

  lemma {:induction false} ThrowStops(current: Run, definition: Definition, i: nat, j: nat, results: seq<NodeResult>,
                                      compensate: NodeId -> Option<NodeState>)
    requires i <= j <= |definition| && WithCompensations(current, definition, j, results, compensate).None?
    ensures WithCompensations(current, definition, i, results, compensate).None?
    decreases j - i
  {
    if i < j {
      ThrowStops(current, definition, i, j - 1, results, compensate);
    }
  }

  /** Everything an advance collects: the results of the selected nodes, then compensations if one failed; `None` if any threw. */
  function Collected(current: Run, definition: Definition, outcome: NodeId -> Option<NodeAdvance>,
                     compensate: NodeId -> Option<NodeState>): Option<seq<NodeResult>>
  {
    var first := Gather(Select(current, definition), outcome);
    if first.Some? && SomeFailed(first.value) then WithCompensations(current, definition, 0, first.value, compensate) else first
  }

  lemma {:induction false} CompensationsAreEligible(current: Run, definition: Definition, i: nat, results: seq<NodeResult>,
                                                    compensate: NodeId -> Option<NodeState>)
    requires i <= |definition| && WithCompensations(current, definition, i, results, compensate).Some?
    requires forall r :: r in results ==> EligibleId(definition, current.nodes, r.nodeId) && r.nodeId in current.nodes
    ensures var all := WithCompensations(current, definition, i, results, compensate).value;
            |results| <= |all| && forall r :: r in all ==> EligibleId(definition, current.nodes, r.nodeId) && r.nodeId in current.nodes
    decreases |definition| - i
  {
    if i < |definition| {
      CompensationsAreEligible(current, definition, i + 1, results, compensate);
      if PendingCompensation(current.nodes, definition[i]) {
        assert Eligible(current.nodes, definition[i]);
      }
    }
  }

  // ----- wave safety

  /** A node the graph has begun: it has a task, or a status that only a node that was offered takes. */
  predicate Started(state: NodeState)
  {
    state.taskIds != [] || (state.status != NodeStatus.Pending && state.status != NodeStatus.Cancelled)
  }

  predicate InWave(nodes: map<NodeId, NodeState>, node: Node)
  {
    IsRequired(node) && node.id in nodes && Started(nodes[node.id])
  }

  /** Whatever has started, started after its dependencies had finished, and they still are. */
  ghost predicate WaveClosed(definition: Definition, nodes: map<NodeId, NodeState>)
  {
    forall i :: 0 <= i < |definition| && InWave(nodes, definition[i]) ==> DependenciesFinished(nodes, definition[i].dependsOn)
  }

  /** No finished node is ever changed. */
  ghost predicate KeepsFinished(before: map<NodeId, NodeState>, after: map<NodeId, NodeState>)
  {
    forall id :: id in before && Finished(before[id].status) ==> id in after && after[id] == before[id]
  }

  lemma EligibleIsUnfinished(definition: Definition, nodes: map<NodeId, NodeState>, id: NodeId)
    requires EligibleId(definition, nodes, id)
    ensures id in nodes && !Finished(nodes[id].status)
  {
  }

  lemma AdvanceKeepsFinished(current: Run, definition: Definition, results: seq<NodeResult>, certified: set<TaskId>)
    requires DistinctIds(definition) && current.nodes.Keys == Members(Ids(definition))
    requires forall r :: r in results ==> EligibleId(definition, current.nodes, r.nodeId)
    ensures KeepsFinished(current.nodes, AdvancedRun(current, definition, results, certified).nodes)
  {
    var nodes := ApplyResults(current.nodes, results);
    var after := AdvancedRun(current, definition, results, certified).nodes;
    SkipPendingEffect(definition, nodes, |definition|);
    forall id | id in current.nodes && Finished(current.nodes[id].status) ensures id in after && after[id] == current.nodes[id] {
      forall r | r in results ensures r.nodeId != id {
        EligibleIsUnfinished(definition, current.nodes, r.nodeId);
      }
      ResultsTouchOnly(current.nodes, results, id);
      assert id in Ids(definition);
      var i :| 0 <= i < |definition| && Ids(definition)[i] == id;
      assert definition[i].id == id;
    }
  }

  lemma FinishedStay(before: map<NodeId, NodeState>, after: map<NodeId, NodeState>, dependsOn: seq<NodeId>)
    requires KeepsFinished(before, after) && DependenciesFinished(before, dependsOn)
    ensures DependenciesFinished(after, dependsOn)
  {
  }

  /** A node the advance did not take keeps its state, or is a compensation that was skipped. */
  lemma UntouchedNode(current: Run, definition: Definition, results: seq<NodeResult>, certified: set<TaskId>, i: nat)
    requires DistinctIds(definition) && i < |definition| && IsRequired(definition[i])
    requires definition[i].id in current.nodes && forall r :: r in results ==> r.nodeId != definition[i].id
    ensures var after := AdvancedRun(current, definition, results, certified).nodes;
            definition[i].id in after && after[definition[i].id] == current.nodes[definition[i].id]
  {
    ResultsTouchOnly(current.nodes, results, definition[i].id);
    SkipPendingEffect(definition, ApplyResults(current.nodes, results), |definition|);
  }

  lemma EligibleNode(definition: Definition, nodes: map<NodeId, NodeState>, i: nat)
    requires DistinctIds(definition) && i < |definition| && EligibleId(definition, nodes, definition[i].id)
    ensures Eligible(nodes, definition[i])
  {
    var j :| 0 <= j < |definition| && definition[j].id == definition[i].id && Eligible(nodes, definition[j]);
    assert Ids(definition)[i] == Ids(definition)[j];
  }

  /** Every advance starts only nodes whose dependencies are finished. */
  lemma AdvanceKeepsWave(current: Run, definition: Definition, results: seq<NodeResult>, certified: set<TaskId>)
    requires DistinctIds(definition) && current.nodes.Keys == Members(Ids(definition))
    requires forall r :: r in results ==> EligibleId(definition, current.nodes, r.nodeId)
    requires WaveClosed(definition, current.nodes)
    ensures WaveClosed(definition, AdvancedRun(current, definition, results, certified).nodes)
  {
    var after := AdvancedRun(current, definition, results, certified).nodes;
    AdvanceKeepsFinished(current, definition, results, certified);
    forall i | 0 <= i < |definition| && InWave(after, definition[i])
      ensures DependenciesFinished(after, definition[i].dependsOn)
    {
      var id := definition[i].id;
      assert Ids(definition)[i] in Ids(definition);
      assert DependenciesFinished(current.nodes, definition[i].dependsOn) by {
        if exists r :: r in results && r.nodeId == id {
          EligibleNode(definition, current.nodes, i);
        } else {
          UntouchedNode(current, definition, results, certified, i);
        }
      }
      FinishedStay(current.nodes, after, definition[i].dependsOn);
    }
  }

  /** So the started nodes are closed under `dependsOn`. */
  lemma StartedAreClosed(definition: Definition, nodes: map<NodeId, NodeState>, i: nat, d: NodeId)
    requires WaveClosed(definition, nodes) && i < |definition| && InWave(nodes, definition[i]) && d in definition[i].dependsOn
    ensures d in nodes && Started(nodes[d]) && Finished(nodes[d].status)
  {
  }

  lemma CancelKeepsWave(current: Run, definition: Definition)
    requires WaveClosed(definition, current.nodes)
    ensures WaveClosed(definition, CancelledRun(current).nodes) && KeepsFinished(current.nodes, CancelledRun(current).nodes)
  {
    var after := CancelledRun(current).nodes;
    assert KeepsFinished(current.nodes, after);
    forall i | 0 <= i < |definition| && InWave(after, definition[i])
      ensures DependenciesFinished(after, definition[i].dependsOn)
    {
      FinishedStay(current.nodes, after, definition[i].dependsOn);
    }
  }

  /** Every stored run is wave closed. */
  ghost predicate WavesClosed(s: WorkflowStore)
    reads s
  {
    RunsWaveClosed(s.definitions, s.runs)
  }

  ghost predicate RunsWaveClosed(definitions: map<(nat, nat), Definition>, runs: map<WorkflowId, Run>)
  {
    forall id :: id in runs ==> RunWaveClosed(definitions, runs[id])
  }

  ghost predicate RunWaveClosed(definitions: map<(nat, nat), Definition>, run: Run)
  {
    WaveClosed(DefinitionOf(definitions, run), run.nodes)
  }

  /** One workflow moved to `target`, with a higher version and a new time; the others stayed. */
  ghost predicate Moved(before: map<WorkflowId, Run>, after: map<WorkflowId, Run>, id: WorkflowId, target: Run, value: Run)
  {
    id in before && after == before[id := value] && value.stateVersion > before[id].stateVersion
    && value == target.(stateVersion := value.stateVersion, updatedAt := value.updatedAt)
  }

  /** The events of one workflow grew by the stamped data; the others stayed. */
  ghost predicate Appended(before: map<WorkflowId, seq<Event>>, after: map<WorkflowId, seq<Event>>, current: Run, data: seq<EventData>)
  {
    current.id in before
    && exists events :: Stamped(current, data, events) && after == before[current.id := before[current.id] + events]
  }

  /** Moving one workflow keeps the wave property if its new nodes have it. */
  lemma MoveKeepsWaves(definitions: map<(nat, nat), Definition>, before: map<WorkflowId, Run>, after: map<WorkflowId, Run>,
                       id: WorkflowId, target: Run, value: Run)
    requires Moved(before, after, id, target, value) && RunsWaveClosed(definitions, before)
    requires RunWaveClosed(definitions, target)
    ensures RunsWaveClosed(definitions, after)
  {
  }

  predicate Haltable(status: RunStatus)
  {
    status !in {RunStatus.VerifiedComplete, RunStatus.Cancelled, RunStatus.Failed}
  }

  predicate IsHalted(status: RunStatus)
  {
    status in {RunStatus.Paused, RunStatus.Suspended}
  }

  predicate Terminal(status: RunStatus)
  {
    status in {RunStatus.VerifiedComplete, RunStatus.Cancelled}
  }

  /** The statuses of the runs that recovery goes through. */
  predicate Recoverable(status: RunStatus)
  {
    status in {RunStatus.Planned, RunStatus.Running, RunStatus.AwaitingApproval, RunStatus.RecoveryRequired}
  }

  function RecoverableIds(runs: map<WorkflowId, Run>): set<WorkflowId>
  {
    set id | id in runs && Recoverable(runs[id].status)
  }

  /** The outcomes of the selected nodes, in order; `None` if one of them threw. */
  function Gather(ids: seq<NodeId>, outcome: NodeId -> Option<NodeAdvance>): Option<seq<NodeResult>>
  {
    if ids == [] then Some([])
    else
      var before := Gather(ids[..|ids| - 1], outcome);
      var last := ids[|ids| - 1];
      if before.None? || outcome(last).None? then None
      else Some(before.value + [NodeResult(last, outcome(last).value)])
  }

  lemma {:induction false} GatheredIds(ids: seq<NodeId>, outcome: NodeId -> Option<NodeAdvance>)
    requires Gather(ids, outcome).Some?
    ensures |Gather(ids, outcome).value| == |ids|
    ensures forall r :: r in Gather(ids, outcome).value ==> r.nodeId in ids
  {
    if ids != [] {
      GatheredIds(ids[..|ids| - 1], outcome);
      assert ids == ids[..|ids| - 1] + [ids[|ids| - 1]];
    }
  }

  lemma CollectedAreEligible(current: Run, definition: Definition, outcome: NodeId -> Option<NodeAdvance>,
                             compensate: NodeId -> Option<NodeState>)
    requires Collected(current, definition, outcome, compensate).Some? && Select(current, definition) != []
    ensures var results := Collected(current, definition, outcome, compensate).value;
            results != [] && forall r :: r in results ==> EligibleId(definition, current.nodes, r.nodeId) && r.nodeId in current.nodes
  {
    var first := Gather(Select(current, definition), outcome).value;
    GatheredIds(Select(current, definition), outcome);
    forall r | r in first ensures EligibleId(definition, current.nodes, r.nodeId) && r.nodeId in current.nodes {
      SelectedAreEligible(current, definition, r.nodeId);
    }
    if SomeFailed(first) {
      CompensationsAreEligible(current, definition, 0, first, compensate);
    }
  }

  lemma AdvancedIsHonest(definitions: map<(nat, nat), Definition>, certified: set<TaskId>, current: Run, results: seq<NodeResult>)
    requires Bound(definitions, current) && Honest(definitions, certified, current) && current.status != RunStatus.VerifiedComplete
    requires forall r :: r in results ==> r.nodeId in current.nodes
    requires current.error.None? || AdvancedRun(current, DefinitionOf(definitions, current), results, certified).status == current.status
    ensures Honest(definitions, certified, AdvancedRun(current, DefinitionOf(definitions, current), results, certified))
  {
    var definition := DefinitionOf(definitions, current);
    SettledStatus(definition, ApplyResults(current.nodes, results), certified);
  }

  /** The event of a halt always replays; it is the comparison with the draft that can fail. */
  lemma HaltReplays(current: Run, to: RunStatus, kind: ChangeKind)
    requires KindAllows(kind, to)
    ensures FoldData(current, DraftHalt(current, to, kind).emitted).Ok?
  {
    FoldDataAppend(current, [], StatusChange(kind, current.status, to, None));
  }

  lemma ResumeIsHonest(definitions: map<(nat, nat), Definition>, certified: set<TaskId>, current: Run)
    ensures Honest(definitions, certified, DraftResume(current).run)
  {
    assert ResumedStatus(current.nodes) != RunStatus.VerifiedComplete;
  }

  lemma MovedTwice(before: map<WorkflowId, Run>, mid: map<WorkflowId, Run>, after: map<WorkflowId, Run>, id: WorkflowId,
                   target: Run, first: Run, second: Run)
    requires Moved(before, mid, id, target, first) && Moved(mid, after, id, first, second)
    ensures Moved(before, after, id, target, second)
  {
  }

  function CheckpointDraft(run: Run): Draft
  {
    Edit(run, [CheckpointSaved(run.stateVersion + 1)])
  }

  lemma CheckpointTracks(run: Run)
    ensures Tracks(run, CheckpointDraft(run))
  {
    FoldDataAppend(run, [], CheckpointSaved(run.stateVersion + 1));
    assert [] + [CheckpointSaved(run.stateVersion + 1)] == [CheckpointSaved(run.stateVersion + 1)];
  }

  /** Node states as recovery sees them. */
  function RecoveredNodes(definition: Definition, nodes: map<NodeId, NodeState>, found: NodeId -> seq<TaskView>): map<NodeId, NodeState>
  {
    map n | n in nodes ::
      if n in Table(definition) then RecoveredNodeState(Table(definition)[n].kind, found(n), nodes[n]) else nodes[n]
  }

  /** The policy denies the request of this node, and that of no node before it. */
  predicate IsFirstDenied(definition: Definition, denied: NodeId -> bool, id: NodeId)
  {
    exists i :: 0 <= i < |definition| && definition[i].id == id && denied(id)
                && forall j :: 0 <= j < i ==> !denied(definition[j].id)
  }

  lemma LaterDenied(definition: Definition, denied: NodeId -> bool, id: NodeId)
    requires definition != [] && !denied(definition[0].id) && IsFirstDenied(definition[1..], denied, id)
    ensures IsFirstDenied(definition, denied, id)
  {
    var rest := definition[1..];
    var i :| 0 <= i < |rest| && rest[i].id == id && denied(id) && forall j :: 0 <= j < i ==> !denied(rest[j].id);
    assert definition[i + 1] == rest[i];
    assert forall j :: 0 < j < i + 1 ==> definition[j] == rest[j - 1];
  }

  /** A definition's first node whose request the policy denies outright. */
  function FirstDenied(definition: Definition, denied: NodeId -> bool): (id: Option<NodeId>)
    ensures id.None? <==> forall i :: 0 <= i < |definition| ==> !denied(definition[i].id)
    ensures id.Some? ==> IsFirstDenied(definition, denied, id.value)
  {
    if definition == [] then None
    else if denied(definition[0].id) then Some(definition[0].id)
    else
      assert forall i :: 0 < i < |definition| ==> definition[i] == definition[1..][i - 1];
      var later := FirstDenied(definition[1..], denied);
      assert later.Some? ==> IsFirstDenied(definition, denied, later.value) by {
        if later.Some? { LaterDenied(definition, denied, later.value); }
      }
      later
  }

  ghost predicate ValidDefinition(definition: Definition)
  {
    |definition| <= 500 && DistinctIds(definition) && NodesPass(definition)
    && Acyclic(GraphOf(Table(definition))) && ApprovalsInPlace(definition)
  }

  function PlannedNodes(definition: Definition): map<NodeId, NodeState>
  {
    map n | n in Members(Ids(definition)) :: Fresh(NodeStatus.Pending, [])
  }

  lemma ReplayIsStored(s: WorkflowStore, id: WorkflowId, snapshot: Option<Run>)
    requires Valid(s) && id in s.runs
    requires snapshot.Some? ==> id in s.snapshots && exists k :: IsLatest(s.snapshots[id], k, snapshot.value)
    ensures snapshot.Some? ==> Fold(snapshot, s.ListEvents(id, snapshot.value.stateVersion)) == Ok(Some(s.runs[id]))
    ensures snapshot.None? ==> s.ListEvents(id, 0) != [] && Fold(None, s.ListEvents(id, 0)) == Ok(Some(s.runs[id]))
  {
    HistoryIsNumbered(s, id);
    if snapshot.Some? {
      var k: nat :| IsLatest(s.snapshots[id], k, snapshot.value);
      assert PointOf(s.events[id], k, snapshot.value);
      ReplayedIsNumbered(s.events[id][..k]);
      AfterNumbered(s.events[id], 0, k);
      SnapshotIsShortcut(s.events[id], k);
    } else {
      AfterNumbered(s.events[id], 0, 0);
    }
  }

  lemma SnapshotKeepsValid(snapshots: map<WorkflowId, map<nat, Run>>, events: map<WorkflowId, seq<Event>>, run: Run)
    requires SnapshotsValid(snapshots, events) && run.id in events && PointOf(events[run.id], run.stateVersion, run)
    ensures SnapshotsValid(
      snapshots[run.id := (if run.id in snapshots then snapshots[run.id] else map[])[run.stateVersion := run]], events)
  {
  }

  /** A version that has just been written has no snapshot yet. */
  lemma NewVersionHasNoSnapshot(snapshots: map<WorkflowId, map<nat, Run>>, events: map<WorkflowId, seq<Event>>, id: WorkflowId, version: nat)
    requires SnapshotsValid(snapshots, events) && id in events && version > |events[id]|
    ensures !(id in snapshots && version in snapshots[id])
  {
  }

  /** The rows that recovery finds for the nodes of one workflow. */
  function RowsOf(found: (WorkflowId, NodeId) -> seq<TaskView>, id: WorkflowId): NodeId -> seq<TaskView>
  {
    n => found(id, n)
  }

  /** Where recovery takes a run: recovered node states, settled, with the error it reports. */
  ghost function RecoveryTarget(definitions: map<(nat, nat), Definition>, certified: set<TaskId>, run: Run,
                                rows: NodeId -> seq<TaskView>): Run
  {
    var definition := DefinitionOf(definitions, run);
    RecoveredRun(run, definition, RecoveredNodes(definition, run.nodes, rows), certified)
  }

  ghost predicate MovedTo(before: Run, after: Run, target: Run)
  {
    after.stateVersion > before.stateVersion
    && after == target.(stateVersion := after.stateVersion, updatedAt := after.updatedAt)
  }

  /** The targets of all runs at once. */
  ghost function Targets(definitions: map<(nat, nat), Definition>, certified: set<TaskId>, runs: map<WorkflowId, Run>,
                         found: (WorkflowId, NodeId) -> seq<TaskView>): map<WorkflowId, Run>
  {
    map id | id in runs :: RecoveryTarget(definitions, certified, runs[id], RowsOf(found, id))
  }

  /** Recovery of some workflows: those moved to their targets, the others stayed. */
  ghost predicate RecoveredOnly(before: map<WorkflowId, Run>, after: map<WorkflowId, Run>, targets: map<WorkflowId, Run>,
                                recovered: set<WorkflowId>)
  {
    after.Keys == before.Keys == targets.Keys && recovered <= before.Keys
    && forall id :: id in before ==>
        if id in recovered then MovedTo(before[id], after[id], targets[id]) else after[id] == before[id]
  }

  lemma NothingRecovered(before: map<WorkflowId, Run>, targets: map<WorkflowId, Run>)
    requires targets.Keys == before.Keys
    ensures RecoveredOnly(before, before, targets, {})
  {
  }

  lemma OneLess(before: map<WorkflowId, Run>, todo: set<WorkflowId>, left: set<WorkflowId>, id: WorkflowId)
    requires todo == RecoverableIds(before) && left <= todo && id in left
    ensures id in before && Recoverable(before[id].status) && id !in todo - left
    ensures todo - left + {id} == todo - (left - {id})
  {
  }

  lemma RecoveredOneMore(before: map<WorkflowId, Run>, mid: map<WorkflowId, Run>, after: map<WorkflowId, Run>,
                         targets: map<WorkflowId, Run>, recovered: set<WorkflowId>, id: WorkflowId, value: Run)
    requires RecoveredOnly(before, mid, targets, recovered) && id in before && id !in recovered
    requires Moved(mid, after, id, targets[id], value)
    ensures RecoveredOnly(before, after, targets, recovered + {id})
  {
  }

  lemma PlannedReplays(draft: Run, created: Event, planned: Event, run: Run)
    requires draft.status == RunStatus.Draft && draft.stateVersion == 1
    requires created.sequence == 1 && created.aggregateId == draft.id && created.traceId == draft.traceId && created.data == Created(draft)
    requires planned.sequence == 2 && planned.aggregateId == draft.id && planned.traceId == draft.traceId
    requires planned.data == StatusChange(StatusChanged, RunStatus.Draft, RunStatus.Planned, None)
    requires Apply(Some(draft), planned) == Ok(run)
    ensures Fold(None, [created, planned]) == Ok(Some(run))
    ensures AssertEvents(draft.id, draft.traceId, 0, 2, [created, planned]).None?
  {
    var history := [created, planned];
    assert history[..1] == [created] && history[..1][..0] == [];
    assert Fold(None, history[..1]) == Ok(Some(draft));
  }

  /** A new definition and its run leave the others valid. */
  lemma PlanKeepsRuns(definitions: map<(nat, nat), Definition>, certified: set<TaskId>, runs: map<WorkflowId, Run>,
                      events: map<WorkflowId, seq<Event>>, definition: Definition, run: Run, history: seq<Event>)
    requires RunsValid(definitions, certified, runs, events)
    requires (run.definitionId, run.definitionVersion) !in definitions && run.id !in runs
    requires Fold(None, history) == Ok(Some(run)) && run.error.None? && run.status == RunStatus.Planned
    requires DistinctIds(definition) && run.nodes.Keys == Members(Ids(definition))
    ensures RunsValid(definitions[(run.definitionId, run.definitionVersion) := definition], certified, runs[run.id := run], events[run.id := history])
  {
    var key := (run.definitionId, run.definitionVersion);
    var more := definitions[key := definition];
    forall id | id in runs ensures Bound(more, runs[id]) {
      assert Bound(definitions, runs[id]);
    }
    forall id | id in runs ensures Honest(more, certified, runs[id]) {
      assert Bound(definitions, runs[id]) && Honest(definitions, certified, runs[id]);
      assert DefinitionOf(more, runs[id]) == DefinitionOf(definitions, runs[id]);
    }
    assert DefinitionOf(more, run) == definition;
  }

  lemma PlanKeepsSnapshots(snapshots: map<WorkflowId, map<nat, Run>>, events: map<WorkflowId, seq<Event>>, id: WorkflowId, history: seq<Event>)
    requires SnapshotsValid(snapshots, events) && id !in events
    ensures SnapshotsValid(snapshots, events[id := history])
  {
  }

  lemma PlanKeepsWaves(definitions: map<(nat, nat), Definition>, runs: map<WorkflowId, Run>, definition: Definition, run: Run)
    requires (run.definitionId, run.definitionVersion) !in definitions && run.id !in runs
    requires run.nodes == PlannedNodes(definition)
    requires forall id :: id in runs ==> (runs[id].definitionId, runs[id].definitionVersion) in definitions
    ensures RunsWaveClosed(definitions, runs) ==>
        RunsWaveClosed(definitions[(run.definitionId, run.definitionVersion) := definition], runs[run.id := run])
  {
    var more := definitions[(run.definitionId, run.definitionVersion) := definition];
    if RunsWaveClosed(definitions, runs) {
      var after := runs[run.id := run];
      forall id | id in after ensures RunWaveClosed(more, after[id]) {
        if id != run.id {
          assert RunWaveClosed(definitions, runs[id]) && DefinitionOf(more, runs[id]) == DefinitionOf(definitions, runs[id]);
        }
      }
    }
  }

  // ----- the controller

  class WorkflowController {
    const store: WorkflowStore

    constructor (store: WorkflowStore)
      ensures this.store == store
    {
      this.store := store;
    }

    /** `status`: over valid tables, the run that the whole history of the workflow replays to. */
    method Status(id: WorkflowId) returns (r: Result<Run, WorkflowError>)
      ensures r == if id in store.runs then Ok(store.runs[id]) else Err(WorkflowNotFound)
      ensures Valid(store) && r.Ok? ==> id in store.events && History(store.events[id], id, r.value)
    {
      return if id in store.runs then Ok(store.runs[id]) else Err(WorkflowNotFound);
    }

    /** `events` of `transition`: numbered on from the run; the clock may say anything. */
    method MakeEvents(current: Run, data: seq<EventData>) returns (events: seq<Event>)
      ensures Stamped(current, data, events)
    {
      events := [];
      for i := 0 to |data|
        invariant |events| == i && Stamped(current, data[..i], events)
      {
        var occurredAt: int := *;
        events := events + [Event(current.id, current.stateVersion + |events| + 1, current.traceId, data[i], occurredAt)];
      }
      assert data[..|data|] == data;
    }

    /**
      `transition`: stamps the events, replays them, compares the result with the draft and commits with
      a compare-and-swap. It succeeds exactly when the draft follows its events and nobody has committed
      since `current` was read; otherwise nothing is written.
     */
    method Transition(current: Run, draft: Draft) returns (r: Result<Run, WorkflowError>)
      requires Valid(store) && Recorded(store, current)
      requires draft.run.id == current.id && draft.run.stateVersion == current.stateVersion && draft.run.updatedAt == current.updatedAt
      requires Tracks(current, draft) && draft.emitted != [] && store.runs[current.id].stateVersion == current.stateVersion ==>
          Honest(store.definitions, store.certified, draft.run)
      modifies store
      ensures Valid(store)
      ensures draft.emitted == [] ==> r == Ok(current) && unchanged(store)
      ensures draft.emitted != [] ==>
          (r.Ok? <==> Tracks(current, draft) && old(store.runs)[current.id].stateVersion == current.stateVersion)
      ensures draft.emitted != [] && r.Ok? ==>
          old(store.runs)[current.id] == current
          && Moved(old(store.runs), store.runs, current.id, draft.run, r.value)
          && r.value.stateVersion == current.stateVersion + |draft.emitted|
          && Appended(old(store.events), store.events, current, draft.emitted)
      ensures r.Err? ==> unchanged(store)
      ensures r.Err? ==>
          r.error == if FoldData(current, draft.emitted).Err? then EventRejected
                     else if !Tracks(current, draft) then ProjectionMismatch
                     else StoreRejected(StateConflict)
      ensures store.definitions == old(store.definitions) && store.certified == old(store.certified) && store.snapshots == old(store.snapshots)
    {
      if draft.emitted == [] {
        return Ok(current);
      }
      RecordedIdentity(store, current);
      var events := MakeEvents(current, draft.emitted);
      var expected := draft.run.(stateVersion := current.stateVersion + |events|, updatedAt := events[|events| - 1].occurredAt);
      StampedReplay(current, draft.emitted, events);
      var rebuilt := RebuildWorkflow(Some(current), events);
      if rebuilt.Err? {
        return Err(EventRejected);
      }
      if FoldData(current, draft.emitted).Ok? {
        DataKeepsIdentity(current, draft.emitted);
      }
      if rebuilt.value != expected {
        return Err(ProjectionMismatch);
      }
      ghost var stored := store.runs[current.id];
      HistoryIsNumbered(store, current.id);
      StampedPassesAssert(current, draft.emitted, events);
      if stored.stateVersion == current.stateVersion {
        NothingCollides(store.events[current.id], events);
        CommitKeepsRuns(store.definitions, store.certified, store.runs, store.events, current.id, rebuilt.value, events);
        CommitKeepsSnapshots(store.snapshots, store.events, current.id, events);
      }
      var failure := store.TransitionWorkflow(current.id, current.stateVersion, rebuilt.value, events);
      if failure.Some? {
        return Err(StoreRejected(failure.value));
      }
      return Ok(rebuilt.value);
    }

    /** `plan`: a fresh workflow with every node pending, or nothing at all. */
    method Plan(definition: Definition, definitionId: nat, version: nat, id: WorkflowId, traceId: nat, createdAt: int,
                denied: NodeId -> bool)
      returns (r: Result<Run, WorkflowError>)
      requires Valid(store) && id !in store.runs
      modifies store
      ensures Valid(store)
      ensures r.Err? ==> unchanged(store)
      ensures r.Ok? <==> ValidDefinition(definition) && (forall i :: 0 <= i < |definition| ==> !denied(definition[i].id))
                         && (definitionId, version) !in old(store.definitions)
      ensures r.Err? && r.error.DeniedByPolicy? ==> IsFirstDenied(definition, denied, r.error.nodeId)
      ensures r.Ok? ==>
          store.runs == old(store.runs)[id := r.value] && r.value.status == RunStatus.Planned && r.value.stateVersion == 2
          && r.value.nodes == (map n | n in Members(Ids(definition)) :: NodeState(NodeStatus.Pending, [], None, None, None, None, None))
          && r.value.error.None?
          && (r.value.definitionId, r.value.definitionVersion) == (definitionId, version)
          && store.definitions == old(store.definitions)[(definitionId, version) := definition]
      ensures old(WavesClosed(store)) ==> WavesClosed(store)
      ensures store.certified == old(store.certified)
    {
      var graph := ValidateWorkflow(definition);
      if graph.Err? {
        return Err(InvalidDefinition(graph.error));
      }
      var refused := FirstDenied(definition, denied);
      if refused.Some? {
        return Err(DeniedByPolicy(refused.value));
      }
      var draft := Run(id, traceId, definitionId, version, RunStatus.Draft, 1, PlannedNodes(definition), None, createdAt, createdAt);
      var created := Event(id, 1, traceId, Created(draft), createdAt);
      var planned := Event(id, 2, traceId, StatusChange(StatusChanged, RunStatus.Draft, RunStatus.Planned, None), createdAt);
      var run := Apply(Some(draft), planned).value;
      PlannedReplays(draft, created, planned, run);
      if (definitionId, version) !in store.definitions {
        PlanKeepsRuns(store.definitions, store.certified, store.runs, store.events, definition, run, [created, planned]);
        PlanKeepsSnapshots(store.snapshots, store.events, id, [created, planned]);
        PlanKeepsWaves(store.definitions, store.runs, definition, run);
      }
      var failure := store.CreateWorkflow(definitionId, version, definition, run, [created, planned]);
      if failure.Some? {
        return Err(StoreRejected(failure.value));
      }
      return Ok(run);
    }

    /** `halt`, behind `pause` and `suspend`: refused by the replay check exactly when the run carries an error. */
    method Halt(id: WorkflowId, to: RunStatus, kind: ChangeKind) returns (r: Result<Run, WorkflowError>)
      requires Valid(store)
      requires (to == RunStatus.Paused && kind == WasPaused) || (to == RunStatus.Suspended && kind == WasSuspended)
      modifies store
      ensures Valid(store)
      ensures r.Err? ==> unchanged(store)
      ensures r.Ok? <==>
          id in old(store.runs)
          && (old(store.runs)[id].status == to || (Haltable(old(store.runs)[id].status) && old(store.runs)[id].error.None?))
      ensures r.Ok? && old(store.runs)[id].status == to ==> r.value == old(store.runs)[id] && unchanged(store)
      ensures r.Ok? && old(store.runs)[id].status != to ==>
          Moved(old(store.runs), store.runs, id, old(store.runs)[id].(status := to), r.value)
      ensures id in old(store.runs) && old(store.runs)[id].error.Some? ==> r == Err(ProjectionMismatch)
      ensures old(WavesClosed(store)) ==> WavesClosed(store)
      ensures store.definitions == old(store.definitions) && store.certified == old(store.certified)
    {
      if id !in store.runs {
        return Err(WorkflowNotFound);
      }
      var current := store.runs[id];
      assert Honest(store.definitions, store.certified, current);
      if current.status == to {
        return Ok(current);
      }
      if !Haltable(current.status) {
        return Err(NotHaltable);
      }
      StoredIsRecorded(store, id);
      HaltTracksWithoutError(current, to, kind);
      HaltReplays(current, to, kind);
      r := Transition(current, DraftHalt(current, to, kind));
      if r.Ok? && old(RunsWaveClosed(store.definitions, store.runs)) {
        MoveKeepsWaves(store.definitions, old(store.runs), store.runs, id, current.(status := to), r.value);
      }
    }

    /** `resume` */
    method Resume(id: WorkflowId) returns (r: Result<Run, WorkflowError>)
      requires Valid(store)
      modifies store
      ensures Valid(store)
      ensures r.Err? ==> unchanged(store)
      ensures r.Ok? <==> id in old(store.runs) && IsHalted(old(store.runs)[id].status)
      ensures r.Ok? ==>
          Moved(old(store.runs), store.runs, id,
                old(store.runs)[id].(status := ResumedStatus(old(store.runs)[id].nodes), error := None), r.value)
      ensures old(WavesClosed(store)) ==> WavesClosed(store)
      ensures store.definitions == old(store.definitions) && store.certified == old(store.certified)
    {
      if id !in store.runs {
        return Err(WorkflowNotFound);
      }
      var current := store.runs[id];
      if !IsHalted(current.status) {
        return Err(NotPaused);
      }
      StoredIsRecorded(store, id);
      ResumeTracks(current);
      ResumeIsHonest(store.definitions, store.certified, current);
      r := Transition(current, DraftResume(current));
      if old(RunsWaveClosed(store.definitions, store.runs)) {
        MoveKeepsWaves(store.definitions, old(store.runs), store.runs, id, DraftResume(current).run, r.value);
      }
    }

    /** `cancel`; `tasks` are the tasks whose own cancellation it asks for. */
    method Cancel(id: WorkflowId) returns (r: Result<Run, WorkflowError>, tasks: set<TaskId>)
      requires Valid(store)
      modifies store
      ensures Valid(store)
      ensures r.Ok? <==> id in old(store.runs)
      ensures r.Err? || Terminal(old(store.runs)[id].status) ==> unchanged(store) && tasks == {}
      ensures r.Ok? && Terminal(old(store.runs)[id].status) ==> r.value == old(store.runs)[id]
      ensures r.Ok? && !Terminal(old(store.runs)[id].status) ==>
          Moved(old(store.runs), store.runs, id, CancelledRun(old(store.runs)[id]), r.value)
          && tasks == set n, t | n in old(store.runs)[id].nodes && Cancellable(old(store.runs)[id].nodes[n].status)
                               && t in old(store.runs)[id].nodes[n].taskIds :: t
      ensures old(WavesClosed(store)) ==> WavesClosed(store)
      ensures store.definitions == old(store.definitions) && store.certified == old(store.certified)
    {
      tasks := {};
      if id !in store.runs {
        return Err(WorkflowNotFound), {};
      }
      var current := store.runs[id];
      if Terminal(current.status) {
        return Ok(current), {};
      }
      StoredIsRecorded(store, id);
      var draft;
      draft, tasks := DraftCancel(current);
      r := Transition(current, draft);
      if old(RunsWaveClosed(store.definitions, store.runs)) {
        CancelKeepsWave(current, DefinitionOf(store.definitions, current));
        MoveKeepsWaves(store.definitions, old(store.runs), store.runs, id, CancelledRun(current), r.value);
      }
    }

    /** The pushes of `advanceOnce` after a failure, from the last node of the definition to the first. */
    method CollectCompensations(current: Run, definition: Definition, first: seq<NodeResult>, compensate: NodeId -> Option<NodeState>)
      returns (results: Option<seq<NodeResult>>)
      ensures results == WithCompensations(current, definition, 0, first, compensate)
    {
      var collected := first;
      var i: nat := |definition|;
      while i > 0
        invariant i <= |definition| && Some(collected) == WithCompensations(current, definition, i, first, compensate)
      {
        i := i - 1;
        if PendingCompensation(current.nodes, definition[i]) {
          var one := CompensationResult(current, definition[i], collected, compensate);
          if one.None? {
            ThrowStops(current, definition, 0, i, first, compensate);
            return None;
          }
          collected := collected + [one.value];
        }
      }
      return Some(collected);
    }

    method CollectOutcomes(ids: seq<NodeId>, outcome: NodeId -> Option<NodeAdvance>) returns (results: Option<seq<NodeResult>>)
      ensures results == Gather(ids, outcome)
    {
      var collected := [];
      for i := 0 to |ids|
        invariant Gather(ids[..i], outcome) == Some(collected)
      {
        assert ids[..i + 1][..i] == ids[..i];
        if outcome(ids[i]).None? {
          GatherStops(ids, i + 1, outcome);
          return None;
        }
        collected := collected + [NodeResult(ids[i], outcome(ids[i]).value)];
      }
      assert ids[..|ids|] == ids;
      return Some(collected);
    }

    /** The second transition of an advance that asked for a snapshot, and the snapshot. */
    method SaveCheckpoint(run: Run) returns (r: Result<Run, WorkflowError>)
      requires Valid(store) && Recorded(store, run)
      modifies store
      ensures Valid(store)
      ensures r.Ok? <==> old(store.runs)[run.id] == run
      ensures r.Err? ==> unchanged(store)
      ensures r.Ok? ==>
          Moved(old(store.runs), store.runs, run.id, run, r.value)
          && SnapshotTaken(store.snapshots, r.value)
          && store.definitions == old(store.definitions) && store.certified == old(store.certified)
    {
      RecordedIdentity(store, run);
      CheckpointTracks(run);
      HistoryIsNumbered(store, run.id);
      NewVersionHasNoSnapshot(store.snapshots, store.events, run.id, |store.events[run.id]| + 1);
      r := Transition(run, CheckpointDraft(run));
      if r.Ok? {
        StoredIsRecorded(store, run.id);
        SnapshotKeepsValid(store.snapshots, store.events, r.value);
        var failure := store.SaveSnapshot(run.id, r.value.stateVersion, r.value);
        assert failure.None?;
      }
    }

    /** The work of `advanceOnce` between reading the run and its transition; `None` if a node or a compensation threw. */
    method BuildAdvance(current: Run, definition: Definition, certified: set<TaskId>,
                        outcome: NodeId -> Option<NodeAdvance>, compensate: NodeId -> Option<NodeState>)
      returns (draft: Option<Draft>, checkpoint: bool)
      requires DistinctIds(definition) && current.nodes.Keys == Members(Ids(definition)) && Select(current, definition) != []
      ensures draft.Some? <==> Collected(current, definition, outcome, compensate).Some?
      ensures draft.Some? ==>
          var results := Collected(current, definition, outcome, compensate).value;
          draft.value.run == AdvancedRun(current, definition, results, certified) && draft.value.emitted != []
          && (Tracks(current, draft.value) <==> current.error.None? || draft.value.run.status == current.status)
          && checkpoint == SomeCheckpoint(results)
          && forall r :: r in results ==> EligibleId(definition, current.nodes, r.nodeId) && r.nodeId in current.nodes
    {
      var results := CollectOutcomes(Select(current, definition), outcome);
      if results.Some? && SomeFailed(results.value) {
        results := CollectCompensations(current, definition, results.value, compensate);
      }
      if results.None? {
        return None, false;
      }
      CollectedAreEligible(current, definition, outcome, compensate);
      var edited := DraftAdvance(current, definition, results.value, certified);
      return Some(edited), SomeCheckpoint(results.value);
    }

    /** The transition of an advance, and the checkpoint if one was asked for. */
    method CommitAdvance(current: Run, draft: Draft, checkpoint: bool) returns (r: Result<Run, WorkflowError>)
      requires Valid(store) && Recorded(store, current) && draft.emitted != []
      requires draft.run.id == current.id && draft.run.stateVersion == current.stateVersion && draft.run.updatedAt == current.updatedAt
      requires Tracks(current, draft) && store.runs[current.id].stateVersion == current.stateVersion ==>
          Honest(store.definitions, store.certified, draft.run)
      modifies store
      ensures Valid(store)
      ensures r.Ok? <==> Tracks(current, draft) && old(store.runs)[current.id] == current
      ensures r.Err? ==> unchanged(store)
      ensures r.Ok? ==> Moved(old(store.runs), store.runs, current.id, draft.run, r.value)
      ensures r.Ok? && checkpoint ==> SnapshotTaken(store.snapshots, r.value)
      ensures store.definitions == old(store.definitions) && store.certified == old(store.certified)
    {
      RecordedIdentity(store, current);
      r := Transition(current, draft);
      if r.Ok? && checkpoint {
        StoredIsRecorded(store, current.id);
        var first := r.value;
        ghost var mid := store.runs;
        r := SaveCheckpoint(first);
        MovedTwice(old(store.runs), mid, store.runs, current.id, draft.run, first, r.value);
      }
    }

    /**
      `advanceOnce` on the run a process has read, stale or not. `outcome` is what each selected node
      reports and `compensate` what running a compensation gives, `None` if it threw.
     */
    method Advance(current: Run, outcome: NodeId -> Option<NodeAdvance>, compensate: NodeId -> Option<NodeState>)
      returns (r: Result<Run, WorkflowError>)
      requires Valid(store) && Recorded(store, current)
      modifies store
      ensures Valid(store)
      ensures r.Err? ==> unchanged(store)
      ensures Terminal(current.status) ==> r == Ok(current) && unchanged(store)
      ensures IsHalted(current.status) ==> r == Err(Halted(current.status))
      ensures !Terminal(current.status) && !IsHalted(current.status) ==>
          var definition := DefinitionOf(old(store.definitions), current);
          var selected := Select(current, definition);
          if selected == [] then r == Ok(current) && unchanged(store)
          else if Collected(current, definition, outcome, compensate).None? then r == Err(NodeThrew)
          else
            var results := Collected(current, definition, outcome, compensate).value;
            var target := AdvancedRun(current, definition, results, old(store.certified));
            (r.Ok? <==> old(store.runs)[current.id] == current && (current.error.None? || target.status == current.status))
            && (r.Ok? ==>
                  Moved(old(store.runs), store.runs, current.id, target, r.value)
                  && KeepsFinished(current.nodes, r.value.nodes)
                  && (SomeCheckpoint(results) ==> SnapshotTaken(store.snapshots, r.value)))
      ensures old(WavesClosed(store)) ==> WavesClosed(store)
      ensures store.definitions == old(store.definitions) && store.certified == old(store.certified)
    {
      if Terminal(current.status) {
        return Ok(current);
      }
      if IsHalted(current.status) {
        return Err(Halted(current.status));
      }
      RecordedIdentity(store, current);
      var definition := DefinitionOf(store.definitions, current);
      if Select(current, definition) == [] {
        return Ok(current);
      }
      var draft, checkpoint := BuildAdvance(current, definition, store.certified, outcome, compensate);
      if draft.None? {
        return Err(NodeThrew);
      }
      ghost var results := Collected(current, definition, outcome, compensate).value;
      AdvanceFacts(store.definitions, store.certified, store.runs, current, results);
      r := CommitAdvance(current, draft.value, checkpoint);
      if r.Ok? && old(WavesClosed(store)) {
        MoveKeepsWaves(store.definitions, old(store.runs), store.runs, current.id, draft.value.run, r.value);
      }
    }

    /**
      `replay`: the latest snapshot and the events after it, or the whole history if that fails. Over valid
      tables it gives the stored run.
     */
    method Replay(id: WorkflowId) returns (r: Result<Run, WorkflowError>)
      ensures Valid(store) && id in store.runs ==> r == Ok(store.runs[id])
      ensures r.Err? ==> r.error == HistoryInvalid
    {
      var snapshot := store.LatestSnapshot(id);
      var rebuilt;
      if snapshot.Some? {
        rebuilt := RebuildWorkflow(snapshot, store.ListEvents(id, snapshot.value.stateVersion));
      } else {
        rebuilt := RebuildWorkflow(None, store.ListEvents(id, 0));
      }
      if Valid(store) && id in store.runs {
        ReplayIsStored(store, id, snapshot);
      }
      if rebuilt.Err? {
        rebuilt := RebuildWorkflow(None, store.ListEvents(id, 0));
      }
      return if rebuilt.Ok? then Ok(rebuilt.value) else Err(HistoryInvalid);
    }

    /** One round of `recoverInterrupted`: it always succeeds, so the history check never fires. */
    method RecoverRun(id: WorkflowId, found: NodeId -> seq<TaskView>) returns (r: Result<Run, WorkflowError>)
      requires Valid(store) && id in store.runs && Recoverable(store.runs[id].status)
      modifies store
      ensures Valid(store) && r.Ok?
      ensures var definition := DefinitionOf(old(store.definitions), old(store.runs)[id]);
              Moved(old(store.runs), store.runs, id,
                    RecoveredRun(old(store.runs)[id], definition, RecoveredNodes(definition, old(store.runs)[id].nodes, found), old(store.certified)),
                    r.value)
      ensures store.definitions == old(store.definitions) && store.certified == old(store.certified)
    {
      var stored := store.runs[id];
      var replayed := Replay(id);
      if replayed.Err? || replayed.value.stateVersion != stored.stateVersion {
        return Err(HistoryInvalid);
      }
      var definition := DefinitionOf(store.definitions, stored);
      var nodes := RecoveredNodes(definition, replayed.value.nodes, found);
      StoredIsRecorded(store, id);
      var draft := DraftRecovery(stored, definition, nodes, store.certified);
      SettledStatus(definition, nodes, store.certified);
      r := Transition(stored, draft);
    }

    /** One step of the loop of `recoverInterrupted`. */
    method RecoverNext(id: WorkflowId, found: (WorkflowId, NodeId) -> seq<TaskView>, ghost before: map<WorkflowId, Run>,
                       ghost targets: map<WorkflowId, Run>, ghost recovered: set<WorkflowId>)
      requires Valid(store) && RecoveredOnly(before, store.runs, targets, recovered)
      requires id in before && id !in recovered && Recoverable(before[id].status)
      modifies store
      ensures Valid(store) && store.definitions == old(store.definitions) && store.certified == old(store.certified)
      ensures targets == Targets(store.definitions, store.certified, before, found)
        ==> RecoveredOnly(before, store.runs, targets, recovered + {id})
    {
      ghost var mid := store.runs;
      var r := RecoverRun(id, RowsOf(found, id));
      if targets == Targets(store.definitions, store.certified, before, found) {
        RecoveredOneMore(before, mid, store.runs, targets, recovered, id, r.value);
      }
    }

    /** The loop over the workflows that are left. */
    method RecoverAll(todo: set<WorkflowId>, found: (WorkflowId, NodeId) -> seq<TaskView>, ghost before: map<WorkflowId, Run>,
                      ghost targets: map<WorkflowId, Run>)
      requires Valid(store) && store.runs == before && todo == RecoverableIds(before)
      requires targets == Targets(store.definitions, store.certified, before, found) && targets.Keys == before.Keys
      modifies store
      ensures Valid(store) && RecoveredOnly(before, store.runs, targets, todo)
      ensures store.definitions == old(store.definitions) && store.certified == old(store.certified)
    {
      var left := todo;
      NothingRecovered(before, targets);
      assert todo - left == {};
      while left != {}
        invariant Valid(store) && left <= todo && RecoveredOnly(before, store.runs, targets, todo - left)
        invariant store.definitions == old(store.definitions) && store.certified == old(store.certified)
        decreases left
      {
        var id :| id in left;
        OneLess(before, todo, left, id);
        RecoverNext(id, found, before, targets, todo - left);
        left := left - {id};
      }
      assert todo - {} == todo;
    }

    /** `recoverInterrupted`, after the tasks have been recovered: every unfinished run, once each. */
    method RecoverInterrupted(found: (WorkflowId, NodeId) -> seq<TaskView>) returns (recovered: set<WorkflowId>)
      requires Valid(store)
      modifies store
      ensures Valid(store)
      ensures recovered == RecoverableIds(old(store.runs))
      ensures store.definitions == old(store.definitions) && store.certified == old(store.certified)
      ensures RecoveredOnly(old(store.runs), store.runs,
                            Targets(old(store.definitions), old(store.certified), old(store.runs), found), recovered)
    {
      recovered := RecoverableIds(store.runs);
      RecoverAll(recovered, found, store.runs, Targets(store.definitions, store.certified, store.runs, found));
    }
  }

  ghost predicate SnapshotTaken(snapshots: map<WorkflowId, map<nat, Run>>, run: Run)
  {
    run.id in snapshots && run.stateVersion in snapshots[run.id] && snapshots[run.id][run.stateVersion] == run
  }

  /** What the transition of an advance needs to know about its target. */
  lemma AdvanceFacts(definitions: map<(nat, nat), Definition>, certified: set<TaskId>, runs: map<WorkflowId, Run>,
                     current: Run, results: seq<NodeResult>)
    requires Bound(definitions, current) && !Terminal(current.status)
    requires forall r :: r in results ==> EligibleId(DefinitionOf(definitions, current), current.nodes, r.nodeId) && r.nodeId in current.nodes
    ensures var target := AdvancedRun(current, DefinitionOf(definitions, current), results, certified);
            KeepsFinished(current.nodes, target.nodes)
            && (Honest(definitions, certified, current) && (current.error.None? || target.status == current.status) ==>
                  Honest(definitions, certified, target))
            && (RunWaveClosed(definitions, current) ==> RunWaveClosed(definitions, target))
  {
    var definition := DefinitionOf(definitions, current);
    var target := AdvancedRun(current, definition, results, certified);
    AdvanceKeepsFinished(current, definition, results, certified);
    if Honest(definitions, certified, current) && (current.error.None? || target.status == current.status) {
      AdvancedIsHonest(definitions, certified, current, results);
    }
    if WaveClosed(definition, current.nodes) {
      AdvanceKeepsWave(current, definition, results, certified);
    }
  }

  predicate SomeCheckpoint(results: seq<NodeResult>)
  {
    exists r :: r in results && r.advance.checkpoint
  }

  lemma {:induction false} GatherStops(ids: seq<NodeId>, i: nat, outcome: NodeId -> Option<NodeAdvance>)
    requires i <= |ids| && Gather(ids[..i], outcome).None?
    ensures Gather(ids, outcome).None?
    decreases |ids| - i
  {
    if i < |ids| {
      assert ids[..i + 1][..i] == ids[..i];
      GatherStops(ids, i + 1, outcome);
    } else {
      assert ids[..i] == ids;
    }
  }
}
