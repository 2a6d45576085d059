/**
  packages/runtime-core/src/workflow-events.ts: the reducer that turns one stored event into the next
  run, and the fold that rebuilds a run from its history.
 */
module WorkflowEvents {
  import opened Wrappers
  import opened Protocol

  datatype EventError =
    | SequenceInvalid
    | IdentityInvalid
    | HistoryMissingCreated
    | StateMismatch
    | NodeInvalid
    | DataInvalid
    | HistoryEmpty

  /** The status a change of this kind must lead to, where the kind fixes it. */
  predicate KindAllows(kind: ChangeKind, to: RunStatus)
  {
    match kind
    case WasCancelled => to == RunStatus.Cancelled
    case NeedsRecovery => to == RunStatus.RecoveryRequired
    case WasPaused => to == RunStatus.Paused
    case WasSuspended => to == RunStatus.Suspended
    case _ => true
  }

  /** The `switch` of `applyWorkflowEvent`: what the data of an event does to status, error and nodes. */
  function Reduce(run: Run, data: EventData): Result<Run, EventError>
  {
    match data
    case Created(_) => Err(SequenceInvalid)
    case StatusChange(kind, from, to, error) =>
      if run.status != from || !KindAllows(kind, to) then Err(StateMismatch)
      else Ok(run.(status := to, error := error))
    case NodeChange(nodeId, fromNode, state) =>
      if nodeId !in run.nodes then Err(NodeInvalid)
      else if run.nodes[nodeId].status != fromNode then Err(StateMismatch)
      else Ok(run.(nodes := run.nodes[nodeId := state]))
    case CheckpointSaved(sequence) =>
      if sequence < 1 then Err(DataInvalid) else Ok(run)
  }

  /** `applyWorkflowEvent` */
  function Apply(current: Option<Run>, event: Event): Result<Run, EventError>
  {
    if event.sequence != (if current.None? then 1 else current.value.stateVersion + 1) then Err(SequenceInvalid)
    else if event.data.Created? then
      var run := event.data.run;
      if current.Some? then Err(SequenceInvalid)
      else if run.id != event.aggregateId || run.traceId != event.traceId || run.stateVersion != event.sequence then Err(IdentityInvalid)
      else Ok(run)
    else if current.None? then Err(HistoryMissingCreated)
    else if current.value.id != event.aggregateId || current.value.traceId != event.traceId then Err(IdentityInvalid)
    else
      var next := Reduce(current.value, event.data);
      if next.Err? then next
      else Ok(next.value.(stateVersion := event.sequence, updatedAt := event.occurredAt))
  }

  /** What the data of an event says about the run it was made for. */
  predicate Fits(run: Run, data: EventData)
  {
    match data
    case Created(_) => false
    case StatusChange(kind, from, to, _) =>
      from == run.status
      && (kind.WasCancelled? ==> to.Cancelled?) && (kind.NeedsRecovery? ==> to.RecoveryRequired?)
      && (kind.WasPaused? ==> to.Paused?) && (kind.WasSuspended? ==> to.Suspended?)
    case NodeChange(nodeId, from, _) => nodeId in run.nodes && run.nodes[nodeId].status == from
    case CheckpointSaved(sequence) => sequence > 0
  }

  /** A run takes an event exactly if it is the next one of this run and says of it what is so. */
  lemma AppliesIff(run: Run, event: Event)
    ensures Apply(Some(run), event).Ok?
      <==> (event.sequence == run.stateVersion + 1 && event.aggregateId == run.id && event.traceId == run.traceId
            && Fits(run, event.data))
    ensures Apply(Some(run), event).Ok? ==>
      var next := Apply(Some(run), event).value;
      next.stateVersion == event.sequence && next.updatedAt == event.occurredAt
      && (event.data.StatusChange? ==> next.status == event.data.to && next.error == event.data.error && next.nodes == run.nodes)
      && (event.data.NodeChange? ==>
            next.nodes == run.nodes[event.data.nodeId := event.data.state] && next.status == run.status && next.error == run.error)
      && (event.data.CheckpointSaved? ==> next.nodes == run.nodes && next.status == run.status && next.error == run.error)
  {
  }

  /** Nothing takes an event but the creation of a run of that identity at version one. */
  lemma FirstAppliesIff(event: Event)
    ensures Apply(None, event).Ok?
      <==> (event.sequence == 1 && event.data.Created? && event.data.run.id == event.aggregateId
            && event.data.run.traceId == event.traceId && event.data.run.stateVersion == 1)
    ensures Apply(None, event).Ok? ==> Apply(None, event).value == event.data.run
  {
  }

  /** The run after a list of events, from nothing or from a given run. */
  function Fold(start: Option<Run>, events: seq<Event>): Result<Option<Run>, EventError>
  {
    if events == [] then Ok(start)
    else
      var before := Fold(start, events[..|events| - 1]);
      if before.Err? then before
      else
        var next := Apply(before.value, events[|events| - 1]);
        if next.Err? then Err(next.error) else Ok(Some(next.value))
  }

  /** `rebuildWorkflow` */
  method RebuildWorkflow(snapshot: Option<Run>, events: seq<Event>) returns (r: Result<Run, EventError>)
    ensures r == if snapshot.None? && events == [] then Err(HistoryEmpty)
                 else var f := Fold(snapshot, events); if f.Err? then Err(f.error) else Ok(f.value.value)
  {
    var current := snapshot;
    if current.None? && events == [] {
      return Err(HistoryEmpty);
    }
    for i := 0 to |events|
      invariant Fold(snapshot, events[..i]) == Ok(current) && (i > 0 ==> current.Some?)
    {
      assert events[..i + 1][..i] == events[..i];
      var next := Apply(current, events[i]);
      if next.Err? {
        FoldFails(snapshot, events, i + 1);
        return Err(next.error);
      }
      current := Some(next.value);
    }
    assert events[..|events|] == events;
    return Ok(current.value);
  }

  lemma {:induction false} FoldFails(start: Option<Run>, events: seq<Event>, i: nat)
    requires i <= |events| && Fold(start, events[..i]).Err?
    ensures Fold(start, events) == Fold(start, events[..i])
    decreases |events| - i
  {
    if i < |events| {
      assert events[..i + 1][..i] == events[..i];
      FoldFails(start, events, i + 1);
    } else {
      assert events[..i] == events;
    }
  }

  /** Replaying a history in two parts. */
  lemma {:induction false} FoldInParts(start: Option<Run>, a: seq<Event>, b: seq<Event>)
    ensures Fold(start, a + b) == var f := Fold(start, a); if f.Err? then f else Fold(f.value, b)
  {
    if b == [] {
      assert a + b == a;
    } else {
      FoldInParts(start, a, b[..|b| - 1]);
      assert (a + b)[..|a + b| - 1] == a + b[..|b| - 1];
    }
  }

  /** A history that replays is numbered 1..n, and the run it gives carries version n. */
  lemma {:induction false} ReplayedIsNumbered(events: seq<Event>)
    requires Fold(None, events).Ok?
    ensures events == [] <==> Fold(None, events) == Ok(None)
    ensures events != [] ==> Fold(None, events).value.value.stateVersion == |events|
    ensures forall i :: 0 <= i < |events| ==> events[i].sequence == i + 1
  {
    if events != [] {
      ReplayedIsNumbered(events[..|events| - 1]);
    }
  }

  /** Identity never changes along a history, nor does the set of nodes. */
  lemma {:induction false} ReplayKeepsIdentity(start: Run, events: seq<Event>)
    requires Fold(Some(start), events).Ok?
    ensures var f := Fold(Some(start), events).value;
            f.Some? && f.value.id == start.id && f.value.traceId == start.traceId
            && f.value.definitionId == start.definitionId && f.value.definitionVersion == start.definitionVersion
            && f.value.nodes.Keys == start.nodes.Keys && f.value.stateVersion == start.stateVersion + |events|
  {
    if events != [] {
      ReplayKeepsIdentity(start, events[..|events| - 1]);
    }
  }

  /** A snapshot is a shortcut: from the run at any version, the rest of the history leads to the same run. */
  lemma SnapshotIsShortcut(events: seq<Event>, k: nat)
    requires Fold(None, events).Ok? && k <= |events|
    ensures Fold(None, events[..k]).Ok?
    ensures Fold(Fold(None, events[..k]).value, events[k..]) == Fold(None, events)
  {
    FoldInParts(None, events[..k], events[k..]);
    assert events[..k] + events[k..] == events;
  }

  // ----- histories of event data, before they are stamped

  function FoldData(run: Run, data: seq<EventData>): Result<Run, EventError>
  {
    if data == [] then Ok(run)
    else
      var before := FoldData(run, data[..|data| - 1]);
      if before.Err? then before else Reduce(before.value, data[|data| - 1])
  }

  lemma FoldDataAppend(run: Run, data: seq<EventData>, more: EventData)
    ensures FoldData(run, data + [more]) == var f := FoldData(run, data); if f.Err? then f else Reduce(f.value, more)
  {
    assert (data + [more])[..|data|] == data;
  }

  /** The events `transition` makes for a list of data: numbered on from the run, stamped in order. */
  ghost predicate Stamped(run: Run, data: seq<EventData>, events: seq<Event>)
  {
    |events| == |data|
    && forall i :: 0 <= i < |data| ==>
        events[i].data == data[i] && events[i].sequence == run.stateVersion + i + 1
        && events[i].aggregateId == run.id && events[i].traceId == run.traceId
  }

  function Restamp(r: Result<Run, EventError>, version: nat, at: int): Result<Run, EventError>
  {
    if r.Err? then r else Ok(r.value.(stateVersion := version, updatedAt := at))
  }

  /** Replaying stamped events is reducing their data, whatever the clock said; only version and time differ. */
  lemma {:induction false} StampedReplay(run: Run, data: seq<EventData>, events: seq<Event>)
    requires Stamped(run, data, events) && data != []
    ensures Fold(Some(run), events).Ok? <==> FoldData(run, data).Ok?
    ensures Fold(Some(run), events).Ok? ==>
        Fold(Some(run), events).value.Some?
        && Fold(Some(run), events).value.value
           == FoldData(run, data).value.(stateVersion := run.stateVersion + |data|, updatedAt := events[|events| - 1].occurredAt)
  {
    var init, initEvents := data[..|data| - 1], events[..|events| - 1];
    var last := data[|data| - 1];
    assert Stamped(run, init, initEvents);
    if init == [] {
      assert Fold(Some(run), initEvents) == Ok(Some(run)) && FoldData(run, init) == Ok(run);
    } else {
      StampedReplay(run, init, initEvents);
    }
    if FoldData(run, init).Ok? {
      var core, stored := FoldData(run, init).value, Fold(Some(run), initEvents).value.value;
      DataKeepsIdentity(run, init);
      ReduceIgnoresStamp(core, stored.stateVersion, stored.updatedAt, last);
    }
  }

  lemma ReduceIgnoresStamp(run: Run, version: nat, at: int, data: EventData)
    ensures Reduce(run.(stateVersion := version, updatedAt := at), data) == Restamp(Reduce(run, data), version, at)
  {
  }

  lemma {:induction false} DataKeepsIdentity(run: Run, data: seq<EventData>)
    requires FoldData(run, data).Ok?
    ensures var f := FoldData(run, data).value;
            f == run.(status := f.status, nodes := f.nodes, error := f.error) && f.nodes.Keys == run.nodes.Keys
  {
    if data != [] {
      DataKeepsIdentity(run, data[..|data| - 1]);
    }
  }
}
