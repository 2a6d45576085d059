/**
  The workflow controller over the task rows its nodes run on: every state that an advance commits is one
  that a scheduler computed over the rows of some moment of that advance, and every state that recovery
  writes comes from rows that are there. So the done nodes of every stored run, finished or not, have verified
  tasks behind them, at any time.
 */
module WorkflowRows {
  import opened Wrappers
  import opened Text
  import opened Counting
  import opened Protocol
  import opened WorkflowStores
  import opened WorkflowGraph
  import opened WorkflowDrafts
  import opened NodeSchedulers
  import opened NodeRecovery
  import opened NodeAdvances
  import opened WorkflowControllers
  import opened WorkflowRecovery
  import opened WorkflowRuns

  /** What a node finds when its turn comes: the rows, how its tasks will go, and what lies outside them. */
  datatype Moment = Moment(env: Env, world: World, answers: Answers)

  /** What all nodes of one run have in common. */
  datatype Setting = Setting(definition: Definition, works: Works)

  /** At some moment after `start` and before `end`, advancing the node gave this. */
  ghost predicate RanBetween(start: World, end: World, nodes: map<NodeId, NodeState>, node: Node, s: Setting, advance: NodeAdvance, m: Moment)
  {
    Follows(start, m.world) && Conclusive(m.env) && CanAdvance(m.world, nodes, node, s.works(node.id))
    && var ran := AdvanceNode(m.env, m.world, s.definition, nodes, node, s.works, m.answers);
       ran.Some? && ran.value.advance == advance && Follows(ran.value.world, end)
  }

  /** The same of a compensation that a failed wave runs, before its status is adjusted. */
  ghost predicate CompensatedBetween(start: World, end: World, nodes: map<NodeId, NodeState>, node: Node, s: Setting, state: NodeState, m: Moment)
  {
    Follows(start, m.world) && AllKnown(m.world, nodes) && Conclusive(m.env)
    && var r := RunTask(m.env, m.world, s.works(node.id).request, FirstTask(nodes, node.id), true);
       r.state == state && Follows(r.world, end)
  }

  /** Every answer an advance can collect comes from such a moment. */
  ghost predicate FromSchedulers(start: World, end: World, nodes: map<NodeId, NodeState>, s: Setting,
                                 outcome: NodeId -> Option<NodeAdvance>, compensate: NodeId -> Option<NodeState>,
                                 moments: NodeId -> Moment)
  {
    forall i :: 0 <= i < |s.definition| && s.definition[i].id in nodes ==>
      (outcome(s.definition[i].id).Some? ==>
         RanBetween(start, end, nodes, s.definition[i], s, outcome(s.definition[i].id).value, moments(s.definition[i].id)))
      && (s.definition[i].kind.Compensation? && compensate(s.definition[i].id).Some? ==>
            CompensatedBetween(start, end, nodes, s.definition[i], s, compensate(s.definition[i].id).value, moments(s.definition[i].id)))
  }

  // ----- where the results of an advance come from

  ghost predicate FromNode(r: NodeResult, outcome: NodeId -> Option<NodeAdvance>)
  {
    outcome(r.nodeId) == Some(r.advance)
  }

  ghost predicate FromCompensation(r: NodeResult, definition: Definition, nodes: map<NodeId, NodeState>, compensate: NodeId -> Option<NodeState>)
  {
    exists i :: 0 <= i < |definition| && definition[i].id == r.nodeId && PendingCompensation(nodes, definition[i])
             && (r.advance.state == Fresh(NodeStatus.Skipped, [])
                 || (compensate(r.nodeId).Some? && r.advance.state == AsCompensated(compensate(r.nodeId).value)))
  }

  lemma {:induction false} GatheredFromNodes(ids: seq<NodeId>, outcome: NodeId -> Option<NodeAdvance>)
    requires Gather(ids, outcome).Some?
    ensures forall r :: r in Gather(ids, outcome).value ==> FromNode(r, outcome)
  {
    if ids != [] {
      GatheredFromNodes(ids[..|ids| - 1], outcome);
    }
  }

  ghost predicate Sourced(r: NodeResult, current: Run, definition: Definition, outcome: NodeId -> Option<NodeAdvance>,
                          compensate: NodeId -> Option<NodeState>)
  {
    FromNode(r, outcome) || FromCompensation(r, definition, current.nodes, compensate)
  }

  lemma {:induction false} CompensationsAreSourced(current: Run, definition: Definition, i: nat, results: seq<NodeResult>,
                                                   outcome: NodeId -> Option<NodeAdvance>, compensate: NodeId -> Option<NodeState>)
    requires i <= |definition| && WithCompensations(current, definition, i, results, compensate).Some?
    requires forall r :: r in results ==> Sourced(r, current, definition, outcome, compensate)
    ensures forall r :: r in WithCompensations(current, definition, i, results, compensate).value ==>
        Sourced(r, current, definition, outcome, compensate)
    decreases |definition| - i
  {
    if i < |definition| {
      CompensationsAreSourced(current, definition, i + 1, results, outcome, compensate);
      if PendingCompensation(current.nodes, definition[i]) {
        var later := WithCompensations(current, definition, i + 1, results, compensate).value;
        var one := CompensationResult(current, definition[i], later, compensate).value;
        assert FromCompensation(one, definition, current.nodes, compensate);
      }
    }
  }

  lemma CollectedAreSourced(current: Run, definition: Definition, outcome: NodeId -> Option<NodeAdvance>,
                            compensate: NodeId -> Option<NodeState>)
    requires Collected(current, definition, outcome, compensate).Some?
    ensures forall r :: r in Collected(current, definition, outcome, compensate).value ==>
        Sourced(r, current, definition, outcome, compensate)
  {
    var first := Gather(Select(current, definition), outcome);
    GatheredFromNodes(Select(current, definition), outcome);
    if SomeFailed(first.value) {
      CompensationsAreSourced(current, definition, 0, first.value, outcome, compensate);
    }
  }

  lemma {:induction false} AppliedFrom(nodes: map<NodeId, NodeState>, results: seq<NodeResult>, id: NodeId)
    requires id in ApplyResults(nodes, results)
    ensures (id in nodes && ApplyResults(nodes, results)[id] == nodes[id])
            || exists r :: r in results && r.nodeId == id && r.advance.state == ApplyResults(nodes, results)[id]
  {
    if results != [] {
      var last := results[|results| - 1];
      if last.nodeId == id {
        assert last in results;
      } else {
        AppliedFrom(nodes, results[..|results| - 1], id);
      }
    }
  }

  // ----- an advance

  lemma NodeOutcomeIsBacked(start: World, end: World, nodes: map<NodeId, NodeState>, node: Node, s: Setting, advance: NodeAdvance, m: Moment)
    requires RanBetween(start, end, nodes, node, s, advance, m)
    ensures Backed(end, node, s.works(node.id), advance.state)
  {
    AdvanceRanWell(m.env, m.world, s.definition, nodes, node, s.works, m.answers);
    var ran := AdvanceNode(m.env, m.world, s.definition, nodes, node, s.works, m.answers).value;
    BackedStays(ran.world, end, node, s.works(node.id), advance.state);
  }

  lemma CompensationIsBacked(start: World, end: World, nodes: map<NodeId, NodeState>, node: Node, s: Setting, state: NodeState, m: Moment)
    requires CompensatedBetween(start, end, nodes, node, s, state, m) && node.kind.Compensation?
    ensures Backed(end, node, s.works(node.id), AsCompensated(state))
  {
    var existing := FirstTask(nodes, node.id);
    var r := RunTask(m.env, m.world, s.works(node.id).request, existing, true);
    OneTaskRanWell(m.env, m.world, s.works(node.id).request, existing, node, s.works(node.id), r);
    BackedStays(r.world, end, node, s.works(node.id), AsCompensated(state));
  }

  lemma SkippedIsBacked(w: World, node: Node, work: Work)
    requires node.kind.Compensation?
    ensures Backed(w, node, work, Fresh(NodeStatus.Skipped, []))
  {
  }

  /** The node of the definition a result is about. */
  lemma SameNode(definition: Definition, i: nat, j: nat)
    requires DistinctIds(definition) && i < |definition| && j < |definition| && definition[i].id == definition[j].id
    ensures i == j
  {
    assert Ids(definition)[i] == Ids(definition)[j];
  }

  lemma ResultIsBacked(start: World, end: World, current: Run, s: Setting, outcome: NodeId -> Option<NodeAdvance>,
                       compensate: NodeId -> Option<NodeState>, moments: NodeId -> Moment, r: NodeResult, i: nat)
    requires DistinctIds(s.definition) && i < |s.definition| && s.definition[i].id == r.nodeId && r.nodeId in current.nodes
    requires FromSchedulers(start, end, current.nodes, s, outcome, compensate, moments)
    requires Sourced(r, current, s.definition, outcome, compensate)
    ensures Backed(end, s.definition[i], s.works(r.nodeId), r.advance.state)
  {
    if FromNode(r, outcome) {
      NodeOutcomeIsBacked(start, end, current.nodes, s.definition[i], s, r.advance, moments(r.nodeId));
    } else {
      var j :| 0 <= j < |s.definition| && s.definition[j].id == r.nodeId && PendingCompensation(current.nodes, s.definition[j])
               && (r.advance.state == Fresh(NodeStatus.Skipped, [])
                   || (compensate(r.nodeId).Some? && r.advance.state == AsCompensated(compensate(r.nodeId).value)));
      SameNode(s.definition, i, j);
      if r.advance.state == Fresh(NodeStatus.Skipped, []) {
        SkippedIsBacked(end, s.definition[i], s.works(r.nodeId));
      } else {
        CompensationIsBacked(start, end, current.nodes, s.definition[i], s, compensate(r.nodeId).value, moments(r.nodeId));
      }
    }
  }

  /** A skipped compensation is not done, so its tasks need only be there. */
  lemma SkippingKeepsBacked(w: World, node: Node, work: Work, state: NodeState)
    requires Backed(w, node, work, state) && node.kind.Compensation?
    ensures Backed(w, node, work, state.(status := NodeStatus.Skipped))
  {
  }

  lemma SettledNodeIsBacked(w: World, s: Setting, nodes: map<NodeId, NodeState>, certified: set<TaskId>, i: nat)
    requires DistinctIds(s.definition) && i < |s.definition| && s.definition[i].id in nodes
    requires Backed(w, s.definition[i], s.works(s.definition[i].id), nodes[s.definition[i].id])
    ensures s.definition[i].id in Settle(s.definition, nodes, certified)
    ensures Backed(w, s.definition[i], s.works(s.definition[i].id), Settle(s.definition, nodes, certified)[s.definition[i].id])
  {
    SkipPendingEffect(s.definition, nodes, |s.definition|);
    if s.definition[i].kind.Compensation? {
      SkippingKeepsBacked(w, s.definition[i], s.works(s.definition[i].id), nodes[s.definition[i].id]);
    }
  }

  /** Nodes that are all nodes of the definition are known if they are backed. */
  lemma BackedAreKnown(w: World, s: Setting, nodes: map<NodeId, NodeState>)
    requires WorldOk(w) && nodes.Keys == Members(Ids(s.definition))
    requires forall i :: 0 <= i < |s.definition| && s.definition[i].id in nodes ==>
        Backed(w, s.definition[i], s.works(s.definition[i].id), nodes[s.definition[i].id])
    ensures AllBacked(w, s.definition, nodes, s.works)
  {
    forall id | id in nodes ensures Known(w, nodes[id].taskIds) {
      assert id in Ids(s.definition);
      var i :| 0 <= i < |s.definition| && Ids(s.definition)[i] == id;
      assert s.definition[i].id == id;
    }
  }

  lemma SettlingKeepsBacked(w: World, s: Setting, nodes: map<NodeId, NodeState>, certified: set<TaskId>)
    requires DistinctIds(s.definition) && nodes.Keys == Members(Ids(s.definition)) && AllBacked(w, s.definition, nodes, s.works)
    ensures AllBacked(w, s.definition, Settle(s.definition, nodes, certified), s.works)
  {
    var after := Settle(s.definition, nodes, certified);
    SettledStatus(s.definition, nodes, certified);
    forall i | 0 <= i < |s.definition| && s.definition[i].id in after
      ensures Backed(w, s.definition[i], s.works(s.definition[i].id), after[s.definition[i].id])
    {
      SettledNodeIsBacked(w, s, nodes, certified, i);
    }
    BackedAreKnown(w, s, after);
  }

  lemma AppliedNodeIsBacked(start: World, end: World, current: Run, s: Setting, outcome: NodeId -> Option<NodeAdvance>,
                            compensate: NodeId -> Option<NodeState>, moments: NodeId -> Moment, results: seq<NodeResult>, i: nat)
    requires DistinctIds(s.definition) && i < |s.definition| && s.definition[i].id in current.nodes
    requires Follows(start, end) && Backed(start, s.definition[i], s.works(s.definition[i].id), current.nodes[s.definition[i].id])
    requires FromSchedulers(start, end, current.nodes, s, outcome, compensate, moments)
    requires forall r :: r in results ==> Sourced(r, current, s.definition, outcome, compensate)
    requires s.definition[i].id in ApplyResults(current.nodes, results)
    ensures Backed(end, s.definition[i], s.works(s.definition[i].id), ApplyResults(current.nodes, results)[s.definition[i].id])
  {
    var id := s.definition[i].id;
    AppliedFrom(current.nodes, results, id);
    if ApplyResults(current.nodes, results)[id] == current.nodes[id] {
      BackedStays(start, end, s.definition[i], s.works(id), current.nodes[id]);
    } else {
      var r :| r in results && r.nodeId == id && r.advance.state == ApplyResults(current.nodes, results)[id];
      ResultIsBacked(start, end, current, s, outcome, compensate, moments, r, i);
    }
  }

  /** An advance whose answers the schedulers gave leaves every node backed by the rows at its end. */
  lemma AdvanceKeepsBacked(start: World, end: World, current: Run, s: Setting, certified: set<TaskId>,
                           outcome: NodeId -> Option<NodeAdvance>, compensate: NodeId -> Option<NodeState>, moments: NodeId -> Moment,
                           results: seq<NodeResult>)
    requires DistinctIds(s.definition) && current.nodes.Keys == Members(Ids(s.definition)) && Follows(start, end)
    requires AllBacked(start, s.definition, current.nodes, s.works)
    requires FromSchedulers(start, end, current.nodes, s, outcome, compensate, moments)
    requires Collected(current, s.definition, outcome, compensate) == Some(results)
    requires forall r :: r in results ==> r.nodeId in current.nodes
    ensures AllBacked(end, s.definition, AdvancedRun(current, s.definition, results, certified).nodes, s.works)
  {
    CollectedAreSourced(current, s.definition, outcome, compensate);
    ResultsKeepKeys(current.nodes, results);
    var nodes := ApplyResults(current.nodes, results);
    forall i | 0 <= i < |s.definition| && s.definition[i].id in nodes
      ensures Backed(end, s.definition[i], s.works(s.definition[i].id), nodes[s.definition[i].id])
    {
      AppliedNodeIsBacked(start, end, current, s, outcome, compensate, moments, results, i);
    }
    BackedAreKnown(end, s, nodes);
    SettlingKeepsBacked(end, s, nodes, certified);
  }

  // ----- the other calls

  /** Loops have something to repeat. */
  ghost predicate WorksFit(definition: Definition, works: Works)
  {
    forall i :: 0 <= i < |definition| && definition[i].kind.BoundedLoop? ==> works(definition[i].id).body != []
  }

  lemma PlanIsBacked(w: World, s: Setting)
    requires WorldOk(w) && WorksFit(s.definition, s.works)
    ensures AllBacked(w, s.definition, PlannedNodes(s.definition), s.works)
  {
  }

  lemma CancelledNodeIsBacked(w: World, node: Node, work: Work, state: NodeState)
    requires Backed(w, node, work, state)
    ensures Backed(w, node, work, CancelNode(state))
  {
  }

  lemma CancelKeepsBacked(w: World, s: Setting, current: Run)
    requires AllBacked(w, s.definition, current.nodes, s.works)
    ensures AllBacked(w, s.definition, CancelledRun(current).nodes, s.works)
  {
    var after := CancelledRun(current).nodes;
    forall i | 0 <= i < |s.definition| && s.definition[i].id in after
      ensures Backed(w, s.definition[i], s.works(s.definition[i].id), after[s.definition[i].id])
    {
      CancelledNodeIsBacked(w, s.definition[i], s.works(s.definition[i].id), current.nodes[s.definition[i].id]);
    }
  }

  /** The rows that recovery finds for a run are rows of the world. */
  ghost predicate RowsAreThere(w: World, nodes: map<NodeId, NodeState>, rows: Rows)
  {
    forall id :: id in nodes ==> RowsIn(w, rows(id))
  }

  /** Recovery makes a node done only from verified rows, and a loop that is not done starts again at zero. */
  lemma RecoveredNodeIsBacked(w: World, node: Node, work: Work, rows: seq<TaskView>, previous: NodeState)
    requires RowsIn(w, rows) && (node.kind.BoundedLoop? ==> work.body != [])
    requires rows == [] ==> Backed(w, node, work, previous)
    ensures Backed(w, node, work, RecoveredNodeState(node.kind, rows, previous))
  {
    var state := RecoveredNodeState(node.kind, rows, previous);
    if rows != [] {
      RecoveredTasks(node.kind, rows, previous);
      FinishedIff(node.kind, rows, previous);
      KnownRows(w, rows);
      if !Done(state.status) {
        UnfinishedHasNoCount(node.kind, rows, previous);
      }
    }
  }

  lemma KnownRows(w: World, rows: seq<TaskView>)
    requires RowsIn(w, rows)
    ensures Known(w, ViewIds(rows))
    ensures AllVerified(rows) ==> EveryTaskVerified(w, ViewIds(rows))
  {
    forall t | t in ViewIds(rows) ensures t in w.tasks && (AllVerified(rows) ==> Verified(w, t)) {
      var k :| 0 <= k < |rows| && ViewIds(rows)[k] == t;
      assert rows[k].id == t;
    }
  }

  lemma UnfinishedHasNoCount(kind: Kind, rows: seq<TaskView>, previous: NodeState)
    requires rows != [] && !Done(RecoveredNodeState(kind, rows, previous).status)
    ensures RecoveredNodeState(kind, rows, previous).iterations.None?
  {
  }

  lemma RecoveryKeepsBacked(w: World, s: Setting, nodes: map<NodeId, NodeState>, rows: Rows, certified: set<TaskId>)
    requires DistinctIds(s.definition) && nodes.Keys == Members(Ids(s.definition)) && WorksFit(s.definition, s.works)
    requires AllBacked(w, s.definition, nodes, s.works) && RowsAreThere(w, nodes, rows)
    ensures AllBacked(w, s.definition, Settle(s.definition, RecoveredNodes(s.definition, nodes, rows), certified), s.works)
  {
    var after := RecoveredNodes(s.definition, nodes, rows);
    forall i | 0 <= i < |s.definition| && s.definition[i].id in after
      ensures Backed(w, s.definition[i], s.works(s.definition[i].id), after[s.definition[i].id])
    {
      var id := s.definition[i].id;
      RecoveredAt(s.definition, nodes, rows, i);
      RecoveredNodeIsBacked(w, s.definition[i], s.works(id), rows(id), nodes[id]);
    }
    BackedAreKnown(w, s, after);
    SettlingKeepsBacked(w, s, after, certified);
  }

  // ----- any list of calls

  /** What each workflow's definition asks of its nodes. */
  type Settings = WorkflowId -> Works

  ghost function SettingOf(t: Tables, id: WorkflowId, g: Settings): Setting
    requires id in t.runs
  {
    Setting(DefinitionOf(t.definitions, t.runs[id]), g(id))
  }

  ghost predicate RunIsBacked(w: World, t: Tables, id: WorkflowId, g: Settings)
    requires id in t.runs
  {
    var s := SettingOf(t, id, g);
    DistinctIds(s.definition) && t.runs[id].nodes.Keys == Members(Ids(s.definition)) && WorksFit(s.definition, s.works)
    && AllBacked(w, s.definition, t.runs[id].nodes, s.works)
    && (t.runs[id].definitionId, t.runs[id].definitionVersion) in t.definitions
  }

  /** Every node of every stored run is backed by the rows. */
  ghost predicate RunsAreBacked(w: World, t: Tables, g: Settings)
  {
    WorldOk(w) && forall id :: id in t.runs ==> RunIsBacked(w, t, id, g)
  }

  /** The answers of a call come from the schedulers, or from rows that are there. */
  ghost predicate CallFits(start: World, end: World, before: Tables, call: Call, g: Settings, moments: NodeId -> Moment)
  {
    match call
    case PlanCall(definition, _, _, id, _, _, _) => WorksFit(definition, g(id)) && DistinctIds(definition)
    case AdvanceCall(id, read, outcome, compensate) =>
      id in before.runs && before.runs[id].stateVersion == read ==>
        FromSchedulers(start, end, before.runs[id].nodes, SettingOf(before, id, g), outcome, compensate, moments)
    case RecoverCall(found) => forall id :: id in before.runs ==> RowsAreThere(end, before.runs[id].nodes, RowsOf(found, id))
    case _ => true
  }

  lemma RunStaysBacked(start: World, end: World, before: Tables, after: Tables, id: WorkflowId, g: Settings)
    requires Follows(start, end) && id in before.runs && id in after.runs && RunIsBacked(start, before, id, g)
    requires after.runs[id].nodes == before.runs[id].nodes
    requires DefinitionOf(after.definitions, after.runs[id]) == DefinitionOf(before.definitions, before.runs[id])
    requires (after.runs[id].definitionId, after.runs[id].definitionVersion) in after.definitions
    ensures RunIsBacked(end, after, id, g)
  {
    var s := SettingOf(before, id, g);
    AllBackedStay(start, end, s.definition, before.runs[id].nodes, s.works);
  }

  lemma UnmovedKeepsBacked(start: World, end: World, before: Tables, after: Tables, g: Settings)
    requires RunsAreBacked(start, before, g) && Follows(start, end) && Unmoved(before, after)
    ensures RunsAreBacked(end, after, g)
  {
    forall id | id in after.runs ensures RunIsBacked(end, after, id, g) {
      RunStaysBacked(start, end, before, after, id, g);
    }
  }

  /** If one run moved and its new nodes are backed, all runs are. */
  lemma OneMovedKeepsBacked(start: World, end: World, before: Tables, after: Tables, id: WorkflowId, g: Settings)
    requires RunsAreBacked(start, before, g) && Follows(start, end) && OneMoved(before, after, id) && after.definitions == before.definitions
    requires AllBacked(end, DefinitionOf(before.definitions, before.runs[id]), after.runs[id].nodes, g(id))
    requires after.runs[id].nodes.Keys == before.runs[id].nodes.Keys
    ensures RunsAreBacked(end, after, g)
  {
    assert RunIsBacked(start, before, id, g);
    forall other | other in after.runs ensures RunIsBacked(end, after, other, g) {
      if other != id {
        RunStaysBacked(start, end, before, after, other, g);
      }
    }
  }

  lemma PlanKeepsBacked(start: World, end: World, before: Tables, call: Call, after: Tables, g: Settings)
    requires RunsAreBacked(start, before, g) && Follows(start, end) && call.PlanCall? && PlannedBy(before, call, after)
    requires WorksFit(call.definition, g(call.id)) && DistinctIds(call.definition)
    ensures RunsAreBacked(end, after, g)
  {
    PlanIsBacked(end, Setting(call.definition, g(call.id)));
    forall id | id in after.runs ensures RunIsBacked(end, after, id, g) {
      if id == call.id {
        assert DefinitionOf(after.definitions, after.runs[id]) == call.definition;
      } else {
        assert RunIsBacked(start, before, id, g);
        RunStaysBacked(start, end, before, after, id, g);
      }
    }
  }

  lemma ResultsAreNodes(current: Run, definition: Definition, outcome: NodeId -> Option<NodeAdvance>, compensate: NodeId -> Option<NodeState>)
    requires Collected(current, definition, outcome, compensate).Some?
    ensures forall r :: r in Collected(current, definition, outcome, compensate).value ==> r.nodeId in current.nodes
  {
    if Select(current, definition) != [] {
      CollectedAreEligible(current, definition, outcome, compensate);
    } else {
      assert Gather([], outcome) == Some([]);
    }
  }

  lemma AdvancedKeepsBacked(start: World, end: World, before: Tables, call: Call, after: Tables, g: Settings, moments: NodeId -> Moment)
    requires RunsAreBacked(start, before, g) && Follows(start, end) && call.AdvanceCall? && AdvancedBy(before, call, after)
    requires after.definitions == before.definitions && CallFits(start, end, before, call, g, moments)
    ensures RunsAreBacked(end, after, g)
  {
    var current, s := before.runs[call.id], SettingOf(before, call.id, g);
    var results := Collected(current, s.definition, call.outcome, call.compensate).value;
    assert RunIsBacked(start, before, call.id, g);
    ResultsAreNodes(current, s.definition, call.outcome, call.compensate);
    AdvanceKeepsBacked(start, end, current, s, before.certified, call.outcome, call.compensate, moments, results);
    AdvanceKeepsKeys(current, s.definition, results, before.certified);
    OneMovedKeepsBacked(start, end, before, after, call.id, g);
  }

  lemma AdvanceKeepsKeys(current: Run, definition: Definition, results: seq<NodeResult>, certified: set<TaskId>)
    requires DistinctIds(definition) && forall r :: r in results ==> r.nodeId in current.nodes
    ensures AdvancedRun(current, definition, results, certified).nodes.Keys == current.nodes.Keys
  {
    ResultsKeepKeys(current.nodes, results);
    SettledStatus(definition, ApplyResults(current.nodes, results), certified);
  }

  lemma RecoveredKeepsBacked(start: World, end: World, before: Tables, call: Call, after: Tables, g: Settings)
    requires RunsAreBacked(start, before, g) && Follows(start, end) && call.RecoverCall? && after.definitions == before.definitions
    requires RecoveredOnly(before.runs, after.runs, Targets(before.definitions, before.certified, before.runs, call.found),
                           RecoverableIds(before.runs))
    requires forall id :: id in before.runs ==> RowsAreThere(end, before.runs[id].nodes, RowsOf(call.found, id))
    ensures RunsAreBacked(end, after, g)
  {
    forall id | id in after.runs ensures RunIsBacked(end, after, id, g) {
      assert RunIsBacked(start, before, id, g);
      if id in RecoverableIds(before.runs) {
        RecoveredRunIsBacked(start, end, before, call.found, id, g);
        assert MovedTo(before.runs[id], after.runs[id], Targets(before.definitions, before.certified, before.runs, call.found)[id]);
      } else {
        RunStaysBacked(start, end, before, after, id, g);
      }
    }
  }

  lemma RecoveredRunIsBacked(start: World, end: World, before: Tables, found: (WorkflowId, NodeId) -> seq<TaskView>, id: WorkflowId,
                             g: Settings)
    requires id in before.runs && RunIsBacked(start, before, id, g) && Follows(start, end)
    requires RowsAreThere(end, before.runs[id].nodes, RowsOf(found, id))
    ensures var s := SettingOf(before, id, g);
            var target := RecoveryTarget(before.definitions, before.certified, before.runs[id], RowsOf(found, id));
            AllBacked(end, s.definition, target.nodes, s.works) && target.nodes.Keys == before.runs[id].nodes.Keys
  {
    var s := SettingOf(before, id, g);
    AllBackedStay(start, end, s.definition, before.runs[id].nodes, s.works);
    RecoveryKeepsBacked(end, s, before.runs[id].nodes, RowsOf(found, id), before.certified);
    SettledStatus(s.definition, RecoveredNodes(s.definition, before.runs[id].nodes, RowsOf(found, id)), before.certified);
  }

  lemma CancelledKeepsBacked(start: World, end: World, before: Tables, id: WorkflowId, after: Tables, g: Settings)
    requires RunsAreBacked(start, before, g) && Follows(start, end) && OneMoved(before, after, id) && after.definitions == before.definitions
    requires after.runs[id].nodes == CancelledRun(before.runs[id]).nodes
    ensures RunsAreBacked(end, after, g)
  {
    var s := SettingOf(before, id, g);
    assert RunIsBacked(start, before, id, g);
    AllBackedStay(start, end, s.definition, before.runs[id].nodes, s.works);
    CancelKeepsBacked(end, s, before.runs[id]);
    OneMovedKeepsBacked(start, end, before, after, id, g);
  }

  lemma RestatusKeepsBacked(start: World, end: World, before: Tables, id: WorkflowId, after: Tables, g: Settings)
    requires RunsAreBacked(start, before, g) && Follows(start, end) && Restatused(before, after, id) && after.definitions == before.definitions
    ensures RunsAreBacked(end, after, g)
  {
    var s := SettingOf(before, id, g);
    assert RunIsBacked(start, before, id, g);
    AllBackedStay(start, end, s.definition, before.runs[id].nodes, s.works);
    OneMovedKeepsBacked(start, end, before, after, id, g);
  }

  /** Every call whose answers fit the rows leaves every node of every run backed by the rows at its end. */
  lemma CallKeepsBacked(start: World, end: World, before: Tables, call: Call, after: Tables, g: Settings, moments: NodeId -> Moment)
    requires RunsAreBacked(start, before, g) && Follows(start, end) && Effect(before, call, after)
    requires CallFits(start, end, before, call, g, moments)
    ensures RunsAreBacked(end, after, g)
  {
    if Unmoved(before, after) {
      UnmovedKeepsBacked(start, end, before, after, g);
    } else {
      match call
      case PlanCall(_, _, _, _, _, _, _) => PlanKeepsBacked(start, end, before, call, after, g);
      case AdvanceCall(_, _, _, _) => AdvancedKeepsBacked(start, end, before, call, after, g, moments);
      case CancelCall(id) => CancelledKeepsBacked(start, end, before, id, after, g);
      case RecoverCall(_) => RecoveredKeepsBacked(start, end, before, call, after, g);
      case _ =>
        var id :| id in before.runs && Restatused(before, after, id);
        RestatusKeepsBacked(start, end, before, id, after, g);
    }
  }

  /** The rows before each call and after the last; what happens to tasks in between only follows. */
  ghost predicate OnRows(states: seq<Tables>, calls: seq<Call>, worlds: seq<World>, g: Settings, moments: seq<NodeId -> Moment>)
  {
    |states| == |calls| + 1 && |worlds| == |calls| + 1 && |moments| == |calls|
    && forall i :: 0 <= i < |calls| ==>
        Follows(worlds[i], worlds[i + 1]) && CallFits(worlds[i], worlds[i + 1], states[i], calls[i], g, moments[i])
  }

  /** Call `i` of such a list. */
  lemma OneCallIsBacked(states: seq<Tables>, calls: seq<Call>, worlds: seq<World>, g: Settings, moments: seq<NodeId -> Moment>, i: nat)
    requires Trace(states, calls) && OnRows(states, calls, worlds, g, moments) && i < |calls|
    requires RunsAreBacked(worlds[i], states[i], g)
    ensures RunsAreBacked(worlds[i + 1], states[i + 1], g)
  {
    assert Step(states[i], calls[i], states[i + 1]);
    CallKeepsBacked(worlds[i], worlds[i + 1], states[i], calls[i], states[i + 1], g, moments[i]);
  }

  /**
    Over any list of calls, as `ServeAll` traces them, whose answers come from the schedulers and the rows:
    every node of every stored run is backed by the rows, after each call.
   */
  lemma {:induction false} EveryRunIsBacked(states: seq<Tables>, calls: seq<Call>, worlds: seq<World>, g: Settings,
                                            moments: seq<NodeId -> Moment>, n: nat)
    requires Trace(states, calls) && OnRows(states, calls, worlds, g, moments) && n <= |calls|
    requires RunsAreBacked(worlds[0], states[0], g)
    ensures RunsAreBacked(worlds[n], states[n], g)
  {
    if n > 0 {
      EveryRunIsBacked(states, calls, worlds, g, moments, n - 1);
      OneCallIsBacked(states, calls, worlds, g, moments, n - 1);
    }
  }

  /**
    What that means for a node that is done, in a run that need not be: an operation, a compensation and a
    parallel node list only verified tasks, and an operation at least one.
   */
  lemma DoneIsVerified(w: World, t: Tables, g: Settings, id: WorkflowId, i: nat)
    requires RunsAreBacked(w, t, g) && id in t.runs && i < |DefinitionOf(t.definitions, t.runs[id])|
    requires var node := DefinitionOf(t.definitions, t.runs[id])[i];
      node.id in t.runs[id].nodes && Done(t.runs[id].nodes[node.id].status)
      && (node.kind.Operation? || node.kind.Compensation? || node.kind.Parallel?)
    ensures var node := DefinitionOf(t.definitions, t.runs[id])[i];
      var ids := t.runs[id].nodes[node.id].taskIds;
      (forall k :: 0 <= k < |ids| ==> Verified(w, ids[k])) && (!node.kind.Parallel? ==> ids != [])
  {
    assert RunIsBacked(w, t, id, g);
    var node := DefinitionOf(t.definitions, t.runs[id])[i];
    assert Backed(w, node, g(id)(node.id), t.runs[id].nodes[node.id]);
  }
}
