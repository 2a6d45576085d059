/**
  The workflow store and the task machine together: what stands behind a run that reports
  `verified_complete`, and behind a node that is done in any run, down to the single adapter call and
  verification.
 */
module Assurance {
  import opened Wrappers
  import opened Protocol
  import opened WorkflowGraph
  import opened WorkflowStores
  import W = WorkflowControllers
  import M = TaskMachine
  import S = TaskSafety
  import T = TaskTheorems
  import N = NodeSchedulers
  import A = NodeAdvances
  import R = WorkflowRuns
  import Rows = WorkflowRows

  /** Every certificate of success the workflow store knows of is one the task controller saved. */
  ghost predicate Agree(store: WorkflowStore, s: M.System)
    reads store
  {
    forall t :: t in store.certified ==> T.CertifiedSuccess(s, t)
  }

  /** No later step of any task, crash or recovery breaks the agreement. */
  lemma AgreementIsKept(store: WorkflowStore, s: M.System, a: M.Action)
    requires M.Reachable(s) && M.Enabled(s, a) && Agree(store, s)
    ensures Agree(store, M.Next(s, a))
  {
    forall t | t in store.certified ensures T.CertifiedSuccess(M.Next(s, a), t) {
      T.EndingsAreFinal(s, a, t);
    }
  }

  /**
    A complete run lists only tasks of which this holds: after a call to the adapter, a verification saw every
    required predicate pass; the call had passed the gate; and if the task is a mutation, it was the only one.
   */
  lemma CompleteRunIsProvenToTheCall(store: WorkflowStore, s: M.System, id: WorkflowId, i: nat, t: TaskId)
    requires W.Valid(store) && M.Reachable(s) && Agree(store, s)
    requires id in store.runs && store.runs[id].status == RunStatus.VerifiedComplete
    requires i < |W.DefinitionOf(store.definitions, store.runs[id])|
    requires !W.DefinitionOf(store.definitions, store.runs[id])[i].kind.Compensation?
    requires W.DefinitionOf(store.definitions, store.runs[id])[i].id in store.runs[id].nodes
    requires t in store.runs[id].nodes[W.DefinitionOf(store.definitions, store.runs[id])[i].id].taskIds
    ensures t in s.jobs && M.Proven(s.jobs[t].request, s.jobs[t].history)
    ensures M.MarksOk(t, s.jobs[t].request, s.jobs[t].row.approval, s.jobs[t].history)
    ensures M.Mutation(s.jobs[t].request) ==> M.Calls(s.jobs[t].history) == 1
  {
    W.CompleteIsProven(store, id, i);
    assert T.CertifiedSuccess(s, t);
    T.SuccessIsProven(s, t);
    S.ReachableInv(s);
    assert S.TaskInv(s, t);
    ProofNeedsACall(s.jobs[t].request, s.jobs[t].history);
  }

  lemma {:induction false} ProofNeedsACall(request: M.Policy.Request, h: M.History)
    requires M.Proven(request, h)
    ensures M.Calls(h) > 0
  {
    if !M.ProofLast(request, h) {
      ProofNeedsACall(request, h.past);
    }
  }

  // ----- nodes of any run

  /** The rows of the task machine, as the schedulers see them. */
  function WorldOf(s: M.System, next: TaskId): N.World
  {
    N.World(map t | t in s.jobs :: s.jobs[t].row.status, next, [])
  }

  /** No step of any task, crash or recovery takes a row away or a verified one back. */
  lemma TaskStepsFollow(s: M.System, a: M.Action, next: TaskId, later: TaskId)
    requires M.Reachable(s) && M.Enabled(s, a)
    requires N.WorldOk(WorldOf(s, next)) && N.WorldOk(WorldOf(M.Next(s, a), later))
    ensures A.Follows(WorldOf(s, next), WorldOf(M.Next(s, a), later))
  {
    forall t | t in WorldOf(s, next).tasks
      ensures t in WorldOf(M.Next(s, a), later).tasks
      ensures N.Verified(WorldOf(s, next), t) ==> N.Verified(WorldOf(M.Next(s, a), later), t)
    {
      T.EndingsAreFinal(s, a, t);
    }
  }

  /**
    So a node that is done in some run, complete or not, lists only tasks of which it holds that after a call
    to the adapter a verification saw every required predicate pass; a mutation was called once.
   */
  lemma DoneNodeIsProvenToTheCall(s: M.System, next: TaskId, t: R.Tables, g: Rows.Settings, id: WorkflowId, i: nat, k: nat)
    requires M.Reachable(s) && Rows.RunsAreBacked(WorldOf(s, next), t, g)
    requires id in t.runs && i < |W.DefinitionOf(t.definitions, t.runs[id])|
    requires var node := W.DefinitionOf(t.definitions, t.runs[id])[i];
      node.id in t.runs[id].nodes && A.Done(t.runs[id].nodes[node.id].status)
      && (node.kind.Operation? || node.kind.Compensation? || node.kind.Parallel?)
      && k < |t.runs[id].nodes[node.id].taskIds|
    ensures var task := t.runs[id].nodes[W.DefinitionOf(t.definitions, t.runs[id])[i].id].taskIds[k];
      task in s.jobs && M.Proven(s.jobs[task].request, s.jobs[task].history)
      && (M.Mutation(s.jobs[task].request) ==> M.Calls(s.jobs[task].history) == 1)
  {
    Rows.DoneIsVerified(WorldOf(s, next), t, g, id, i);
    var task := t.runs[id].nodes[W.DefinitionOf(t.definitions, t.runs[id])[i].id].taskIds[k];
    VerifiedIsProven(s, next, task);
  }

  lemma VerifiedIsProven(s: M.System, next: TaskId, task: TaskId)
    requires M.Reachable(s) && N.Verified(WorldOf(s, next), task)
    ensures task in s.jobs && M.Proven(s.jobs[task].request, s.jobs[task].history)
    ensures M.Mutation(s.jobs[task].request) ==> M.Calls(s.jobs[task].history) == 1
  {
    T.SuccessIsProven(s, task);
    assert M.Proven(s.jobs[task].request, s.jobs[task].history);
    ProofNeedsACall(s.jobs[task].request, s.jobs[task].history);
    if M.Mutation(s.jobs[task].request) {
      T.MutationRunsAtMostOnce(s, task);
    }
  }
}
