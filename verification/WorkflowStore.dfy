/**
  The workflow tables of packages/storage-sqlite/src/index.ts as one object: runs, events, snapshots,
  definitions, and the tasks that hold a VERIFIED_SUCCESS certificate. Every method is one transaction.
 */
module WorkflowStores {
  import opened Wrappers
  import opened Protocol
  import opened WorkflowEvents

  datatype StoreError =
    | NotFound
    | EventIdentityInvalid
    | EventSequenceInvalid
    | DefinitionMismatch
    | ProjectionIdMismatch
    | ProjectionIdentityMismatch
    | StateConflict
    | ConstraintViolated
    | SnapshotInvalid

  /** `assertWorkflowEvents` */
  function AssertEvents(id: WorkflowId, traceId: nat, previous: nat, next: nat, events: seq<Event>): Option<StoreError>
  {
    if exists e :: e in events && (e.aggregateId != id || e.traceId != traceId) then Some(EventIdentityInvalid)
    else if events == [] || next != previous + |events|
         || exists i :: 0 <= i < |events| && events[i].sequence != previous + i + 1 then Some(EventSequenceInvalid)
    else None
  }

  /** Events pass exactly if there are some, all of this workflow and trace, numbered on without a gap up to the new version. */
  lemma AssertPassesIff(id: WorkflowId, traceId: nat, previous: nat, next: nat, events: seq<Event>)
    ensures AssertEvents(id, traceId, previous, next, events).None?
      <==> (0 < |events| == next - previous
            && forall i :: 0 <= i < |events| ==>
                 events[i].aggregateId == id && events[i].traceId == traceId && events[i].sequence == previous + 1 + i)
  {
    assert forall i :: 0 <= i < |events| ==> events[i] in events;
  }

  /** `UNIQUE(aggregate_id, sequence)` would be broken by adding `more` to `rows`. */
  predicate Collides(rows: seq<Event>, more: seq<Event>)
  {
    exists r, e :: r in rows && e in more && r.sequence == e.sequence
  }

  /** `WHERE sequence > ?`, on rows that are kept in the order of their sequence. */
  function After(rows: seq<Event>, sequence: nat): seq<Event>
  {
    if rows == [] then []
    else (if rows[0].sequence > sequence then [rows[0]] else []) + After(rows[1..], sequence)
  }

  ghost predicate IsLatest(rows: map<nat, Run>, k: nat, run: Run)
  {
    k in rows && rows[k] == run && forall j :: j in rows ==> j <= k
  }

  class WorkflowStore {
    var definitions: map<(nat, nat), Definition>
    var runs: map<WorkflowId, Run>
    var events: map<WorkflowId, seq<Event>>
    var snapshots: map<WorkflowId, map<nat, Run>>
    var certified: set<TaskId>

    constructor ()
      ensures definitions == map[] && runs == map[] && events == map[] && snapshots == map[] && certified == {}
    {
      definitions, runs, events, snapshots, certified := map[], map[], map[], map[], {};
    }

    /** `createWorkflow`: all four inserts happen, or none, and the failure is that of the first check that fails. */
    method CreateWorkflow(definitionId: nat, version: nat, definition: Definition, run: Run, created: seq<Event>)
      returns (failure: Option<StoreError>)
      modifies this
      ensures failure.Some? ==> unchanged(this)
      ensures failure == Some(DefinitionMismatch) <==> (definitionId, version) != (run.definitionId, run.definitionVersion)
      ensures failure == Some(EventIdentityInvalid) || failure == Some(EventSequenceInvalid) ==>
          failure == AssertEvents(run.id, run.traceId, 0, run.stateVersion, created)
      ensures failure == Some(ConstraintViolated) <==>
          (definitionId, version) == (run.definitionId, run.definitionVersion)
          && AssertEvents(run.id, run.traceId, 0, run.stateVersion, created).None?
          && ((definitionId, version) in old(definitions) || run.id in old(runs) || run.id in old(events))
      ensures failure.None? <==>
          (definitionId, version) == (run.definitionId, run.definitionVersion)
          && AssertEvents(run.id, run.traceId, 0, run.stateVersion, created).None?
          && (definitionId, version) !in old(definitions) && run.id !in old(runs) && run.id !in old(events)
      ensures failure.None? ==>
          definitions == old(definitions)[(definitionId, version) := definition]
          && runs == old(runs)[run.id := run] && events == old(events)[run.id := created]
          && snapshots == old(snapshots) && certified == old(certified)
    {
      if definitionId != run.definitionId || version != run.definitionVersion {
        return Some(DefinitionMismatch);
      }
      var bad := AssertEvents(run.id, run.traceId, 0, run.stateVersion, created);
      if bad.Some? {
        return bad;
      }
      var key := (definitionId, version);
      if key in definitions || run.id in runs || run.id in events {
        return Some(ConstraintViolated);
      }
      definitions := definitions[key := definition];
      runs := runs[run.id := run];
      events := events[run.id := created];
      return None;
    }

    /** The checks of `transitionWorkflow` that look at the run and its row, apart from the version. */
    predicate SameIdentity(id: WorkflowId, run: Run)
      reads this
    {
      id in runs && run.definitionId == runs[id].definitionId && run.definitionVersion == runs[id].definitionVersion
      && run.traceId == runs[id].traceId
    }

    /**
      `transitionWorkflow`: compare-and-swap on the version, with the events in the same transaction. Each
      failure comes exactly when the checks before its own have passed.
     */
    method TransitionWorkflow(id: WorkflowId, expected: nat, run: Run, more: seq<Event>) returns (failure: Option<StoreError>)
      modifies this
      ensures failure.Some? ==> unchanged(this)
      ensures AssertEvents(id, run.traceId, expected, run.stateVersion, more).Some? ==>
          failure == AssertEvents(id, run.traceId, expected, run.stateVersion, more)
      ensures AssertEvents(id, run.traceId, expected, run.stateVersion, more).None? ==>
          (failure == Some(ProjectionIdMismatch) <==> run.id != id)
          && (failure == Some(NotFound) <==> run.id == id && id !in old(runs))
          && (failure == Some(StateConflict) <==> run.id == id && id in old(runs) && old(runs)[id].stateVersion != expected)
          && (failure == Some(ProjectionIdentityMismatch) <==>
                run.id == id && id in old(runs) && old(runs)[id].stateVersion == expected && !old(SameIdentity(id, run)))
          && (failure == Some(ConstraintViolated) <==>
                run.id == id && id in old(runs) && old(runs)[id].stateVersion == expected && old(SameIdentity(id, run))
                && (id !in old(events) || Collides(old(events)[id], more)))
          && (failure.None? <==>
                run.id == id && id in old(runs) && old(runs)[id].stateVersion == expected && old(SameIdentity(id, run))
                && id in old(events) && !Collides(old(events)[id], more))
      ensures failure.None? ==>
          runs == old(runs)[id := run] && events == old(events)[id := old(events)[id] + more]
          && definitions == old(definitions) && snapshots == old(snapshots) && certified == old(certified)
    {
      var bad := AssertEvents(id, run.traceId, expected, run.stateVersion, more);
      if bad.Some? {
        return bad;
      }
      if run.id != id {
        return Some(ProjectionIdMismatch);
      }
      if id !in runs {
        return Some(NotFound);
      }
      if runs[id].stateVersion != expected {
        return Some(StateConflict);
      }
      var stored := runs[id];
      if run.definitionId != stored.definitionId || run.definitionVersion != stored.definitionVersion || run.traceId != stored.traceId {
        return Some(ProjectionIdentityMismatch);
      }
      if id !in events || Collides(events[id], more) {
        return Some(ConstraintViolated);
      }
      events := events[id := events[id] + more];
      runs := runs[id := run];
      return None;
    }

    /** `saveWorkflowSnapshot`; the schema ties the sequence to the version of the run. */
    method SaveSnapshot(workflowId: WorkflowId, sequence: nat, run: Run) returns (failure: Option<StoreError>)
      modifies this
      ensures failure.Some? ==> unchanged(this)
      ensures failure.None? <==>
          sequence == run.stateVersion && !(workflowId in old(snapshots) && sequence in old(snapshots)[workflowId])
      ensures failure.None? ==>
          snapshots == old(snapshots)[workflowId := (if workflowId in old(snapshots) then old(snapshots)[workflowId] else map[])[sequence := run]]
          && definitions == old(definitions) && runs == old(runs) && events == old(events) && certified == old(certified)
    {
      if sequence != run.stateVersion {
        return Some(SnapshotInvalid);
      }
      var rows := if workflowId in snapshots then snapshots[workflowId] else map[];
      if sequence in rows {
        return Some(ConstraintViolated);
      }
      snapshots := snapshots[workflowId := rows[sequence := run]];
      return None;
    }

    /** `getLatestWorkflowSnapshot`: the row with the highest sequence. */
    method LatestSnapshot(workflowId: WorkflowId) returns (latest: Option<Run>)
      ensures latest.None? <==> workflowId !in snapshots || snapshots[workflowId] == map[]
      ensures latest.Some? ==> exists k :: IsLatest(snapshots[workflowId], k, latest.value)
    {
      if workflowId !in snapshots || snapshots[workflowId] == map[] {
        return None;
      }
      var rows := snapshots[workflowId];
      var best :| best in rows;
      var todo := rows.Keys - {best};
      while todo != {}
        invariant best in rows && todo <= rows.Keys
        invariant forall j :: j in rows ==> j <= best || j in todo
        decreases todo
      {
        var j :| j in todo;
        if j > best {
          best := j;
        }
        todo := todo - {j};
      }
      assert IsLatest(rows, best, rows[best]);
      return Some(rows[best]);
    }

    /** `listWorkflowEvents` */
    function ListEvents(id: WorkflowId, afterSequence: nat): seq<Event>
      reads this
    {
      if id in events then After(events[id], afterSequence) else []
    }

    /** `saveCertificate` with result VERIFIED_SUCCESS; TaskMachine shows that no later write takes one back. */
    method SaveVerifiedCertificate(taskId: TaskId)
      modifies this`certified
      ensures certified == old(certified) + {taskId}
    {
      certified := certified + {taskId};
    }
  }

  lemma {:induction false} AfterNumbered(rows: seq<Event>, base: nat, sequence: nat)
    requires forall i :: 0 <= i < |rows| ==> rows[i].sequence == base + i + 1
    requires base <= sequence <= base + |rows|
    ensures After(rows, sequence) == rows[sequence - base..]
  {
    if rows != [] {
      if sequence == base {
        AfterAll(rows, sequence);
      } else {
        AfterNumbered(rows[1..], base + 1, sequence);
        assert rows[sequence - base..] == rows[1..][sequence - (base + 1)..];
      }
    }
  }

  lemma {:induction false} AfterAll(rows: seq<Event>, sequence: nat)
    requires forall i :: 0 <= i < |rows| ==> rows[i].sequence > sequence
    ensures After(rows, sequence) == rows
  {
    if rows != [] {
      AfterAll(rows[1..], sequence);
      assert rows == [rows[0]] + rows[1..];
    }
  }
}
