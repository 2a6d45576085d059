/**
  What recovery makes of one node, against what running the node again over the same task rows would
  make of it: `recoveredNodeState` and `expectedTaskKeys` of packages/runtime-core/src/workflow-controller.ts
  beside the schedulers of the same file.

  Recovery looks at the rows it finds and not at how many there should be, nor at what a loop's predicate
  says, so the two do not always agree. Each theorem here says exactly when they do.
 */
module NodeRecovery {
  import opened Wrappers
  import opened Protocol
  import opened NodeSchedulers

  ghost predicate AllVerified(rows: seq<TaskView>)
  {
    forall i :: 0 <= i < |rows| ==> rows[i].status == TaskStatus.VerifiedSuccess
  }

  /** The rows are task rows of the world. */
  ghost predicate RowsIn(w: World, rows: seq<TaskView>)
  {
    WorldOk(w) && forall i :: 0 <= i < |rows| ==> rows[i].id in w.tasks && w.tasks[rows[i].id] == rows[i].status
  }

  // ----- which nodes come back finished, and which pending

  /** What a caller can see before recovery of whether a node comes back finished. */
  ghost predicate ComesBackFinished(previous: NodeState, rows: seq<TaskView>)
  {
    if rows == [] then Finished(previous.status) else AllVerified(rows)
  }

  const HOLDING: set<TaskStatus> := {TaskStatus.RecoveryRequired, TaskStatus.AwaitingApproval} + FAILURES

  /** Likewise of whether it comes back pending. */
  ghost predicate ComesBackPending(previous: NodeState, rows: seq<TaskView>)
  {
    if rows == [] then previous.status.Pending?
    else HasStatus(rows, {TaskStatus.Planned}) && !HasStatus(rows, HOLDING)
  }

  lemma VerifiedHasNoOther(rows: seq<TaskView>, statuses: set<TaskStatus>)
    requires AllVerified(rows) && TaskStatus.VerifiedSuccess !in statuses
    ensures !HasStatus(rows, statuses)
  {
  }

  lemma NotVerifiedSomewhere(rows: seq<TaskView>)
    ensures AllVerified(rows) <==> forall t :: t in rows ==> t.status == TaskStatus.VerifiedSuccess
  {
  }

  /** Recovery keeps or makes a node finished exactly when no row was found and it was, or all rows are verified. */
  lemma FinishedIff(kind: Kind, rows: seq<TaskView>, previous: NodeState)
    ensures Finished(RecoveredNodeState(kind, rows, previous).status) <==> ComesBackFinished(previous, rows)
  {
    NotVerifiedSomewhere(rows);
    if rows != [] && AllVerified(rows) {
      VerifiedHasNoOther(rows, {TaskStatus.RecoveryRequired});
      VerifiedHasNoOther(rows, {TaskStatus.AwaitingApproval});
      VerifiedHasNoOther(rows, FAILURES);
      VerifiedHasNoOther(rows, {TaskStatus.Planned});
    }
  }

  lemma HoldingParts(rows: seq<TaskView>)
    ensures HasStatus(rows, HOLDING) <==>
        HasStatus(rows, {TaskStatus.RecoveryRequired}) || HasStatus(rows, {TaskStatus.AwaitingApproval}) || HasStatus(rows, FAILURES)
  {
    if HasStatus(rows, {TaskStatus.RecoveryRequired}) {
      var t :| t in rows && t.status in {TaskStatus.RecoveryRequired};
      assert t.status in HOLDING;
    }
    if HasStatus(rows, {TaskStatus.AwaitingApproval}) {
      var t :| t in rows && t.status in {TaskStatus.AwaitingApproval};
      assert t.status in HOLDING;
    }
    if HasStatus(rows, FAILURES) {
      var t :| t in rows && t.status in FAILURES;
      assert t.status in HOLDING;
    }
    if HasStatus(rows, HOLDING) {
      var t :| t in rows && t.status in HOLDING;
    }
  }

  /** A finished or interrupted node goes back to pending exactly when a row is still only planned and none is worse. */
  lemma PendingIff(kind: Kind, rows: seq<TaskView>, previous: NodeState)
    ensures RecoveredNodeState(kind, rows, previous).status.Pending? <==> ComesBackPending(previous, rows)
  {
    HoldingParts(rows);
  }

  // ----- the other states a node comes back in, by its rows

  ghost predicate SomeRow(rows: seq<TaskView>, status: TaskStatus)
  {
    exists k :: 0 <= k < |rows| && rows[k].status == status
  }

  /** A row of a task that ended without success. */
  ghost predicate SomeRowFailed(rows: seq<TaskView>)
  {
    SomeRow(rows, TaskStatus.Failed) || SomeRow(rows, TaskStatus.Partial)
    || SomeRow(rows, TaskStatus.BudgetExhausted) || SomeRow(rows, TaskStatus.PolicyBlocked)
  }

  ghost predicate ComesBackUnclear(previous: NodeState, rows: seq<TaskView>)
  {
    if rows == [] then previous.status == NodeStatus.RecoveryRequired else SomeRow(rows, TaskStatus.RecoveryRequired)
  }

  ghost predicate ComesBackAwaiting(previous: NodeState, rows: seq<TaskView>)
  {
    if rows == [] then previous.status == NodeStatus.AwaitingApproval
    else !SomeRow(rows, TaskStatus.RecoveryRequired) && SomeRow(rows, TaskStatus.AwaitingApproval)
  }

  ghost predicate ComesBackFailed(previous: NodeState, rows: seq<TaskView>)
  {
    if rows == [] then previous.status == NodeStatus.Failed
    else !SomeRow(rows, TaskStatus.RecoveryRequired) && !SomeRow(rows, TaskStatus.AwaitingApproval) && SomeRowFailed(rows)
  }

  ghost predicate ComesBackCancelled(previous: NodeState, rows: seq<TaskView>)
  {
    if rows == [] then previous.status == NodeStatus.Cancelled
    else !SomeRow(rows, TaskStatus.RecoveryRequired) && !SomeRow(rows, TaskStatus.AwaitingApproval) && !SomeRowFailed(rows)
         && !SomeRow(rows, TaskStatus.Planned) && !AllVerified(rows)
  }

  lemma RowsHave(rows: seq<TaskView>, status: TaskStatus)
    ensures HasStatus(rows, {status}) <==> SomeRow(rows, status)
  {
    if HasStatus(rows, {status}) {
      var t :| t in rows && t.status in {status};
      var k :| 0 <= k < |rows| && rows[k] == t;
      assert rows[k].status == status;
    }
  }

  lemma RowsHaveFailed(rows: seq<TaskView>)
    ensures HasStatus(rows, FAILURES) <==> SomeRowFailed(rows)
  {
    if HasStatus(rows, FAILURES) {
      var t :| t in rows && t.status in FAILURES;
      var k :| 0 <= k < |rows| && rows[k] == t;
      assert SomeRow(rows, rows[k].status);
    }
    if SomeRowFailed(rows) {
      var k :| 0 <= k < |rows| && (rows[k].status == TaskStatus.Failed || rows[k].status == TaskStatus.Partial
                                   || rows[k].status == TaskStatus.BudgetExhausted || rows[k].status == TaskStatus.PolicyBlocked);
      assert rows[k] in rows && rows[k].status in FAILURES;
    }
  }

  lemma RowsInView(rows: seq<TaskView>)
    ensures HasStatus(rows, {TaskStatus.RecoveryRequired}) <==> SomeRow(rows, TaskStatus.RecoveryRequired)
    ensures HasStatus(rows, {TaskStatus.AwaitingApproval}) <==> SomeRow(rows, TaskStatus.AwaitingApproval)
    ensures HasStatus(rows, FAILURES) <==> SomeRowFailed(rows)
    ensures HasStatus(rows, {TaskStatus.Planned}) <==> SomeRow(rows, TaskStatus.Planned)
  {
    RowsHave(rows, TaskStatus.RecoveryRequired);
    RowsHave(rows, TaskStatus.AwaitingApproval);
    RowsHaveFailed(rows);
    RowsHave(rows, TaskStatus.Planned);
  }

  /** Recovery needs a person, awaits approval, fails or cancels a node exactly as its rows say, in this order. */
  lemma OtherStatusesIff(kind: Kind, rows: seq<TaskView>, previous: NodeState)
    ensures var status := RecoveredNodeState(kind, rows, previous).status;
            (status == NodeStatus.RecoveryRequired <==> ComesBackUnclear(previous, rows))
            && (status == NodeStatus.AwaitingApproval <==> ComesBackAwaiting(previous, rows))
            && (status == NodeStatus.Failed <==> ComesBackFailed(previous, rows))
            && (status == NodeStatus.Cancelled <==> ComesBackCancelled(previous, rows))
            && (status == NodeStatus.AwaitingInput <==> rows == [] && previous.status == NodeStatus.AwaitingInput)
            && (status == NodeStatus.Compensated ==> rows == [] || kind.Compensation?)
            && (status == NodeStatus.VerifiedComplete ==> rows == [] || !kind.Compensation?)
  {
    RowsInView(rows);
    NotVerifiedSomewhere(rows);
  }

  /** The first row with one of the statuses. */
  ghost predicate IsFirst(rows: seq<TaskView>, k: int, statuses: set<TaskStatus>)
  {
    0 <= k < |rows| && rows[k].status in statuses && forall j :: 0 <= j < k ==> rows[j].status !in statuses
  }

  lemma {:induction false} FirstOfIsFirst(rows: seq<TaskView>, statuses: set<TaskStatus>) returns (k: nat)
    requires HasStatus(rows, statuses)
    ensures IsFirst(rows, k, statuses) && FirstOf(rows, statuses) == rows[k]
  {
    if rows[0].status in statuses {
      k := 0;
    } else {
      var t :| t in rows && t.status in statuses;
      assert t in rows[1..];
      k := FirstOfIsFirst(rows[1..], statuses);
      assert rows[1..][k] == rows[k + 1];
      forall j | 0 <= j < k + 1 ensures rows[j].status !in statuses {
        if j > 0 { assert rows[j] == rows[1..][j - 1]; }
      }
      k := k + 1;
    }
  }

  /** The reason a node gives is that of the first row that put it there; an approval is that of the first that awaits one. */
  lemma ReasonIsTheFirst(kind: Kind, rows: seq<TaskView>, previous: NodeState)
    requires rows != []
    ensures var state := RecoveredNodeState(kind, rows, previous);
            state.taskIds == ViewIds(rows)
            && (state.status == NodeStatus.RecoveryRequired ==>
                  state.approvalId.None? && exists k :: IsFirst(rows, k, {TaskStatus.RecoveryRequired}) && state.error == rows[k].error)
            && (state.status == NodeStatus.AwaitingApproval ==>
                  state.error.None? && exists k :: IsFirst(rows, k, {TaskStatus.AwaitingApproval}) && state.approvalId == rows[k].approvalId)
            && (state.status == NodeStatus.Failed ==>
                  state.approvalId.None?
                  && exists k :: IsFirst(rows, k, {TaskStatus.Failed, TaskStatus.Partial, TaskStatus.BudgetExhausted, TaskStatus.PolicyBlocked})
                              && state.error == rows[k].error)
  {
    var state := RecoveredNodeState(kind, rows, previous);
    if HasStatus(rows, {TaskStatus.RecoveryRequired}) {
      var k := FirstOfIsFirst(rows, {TaskStatus.RecoveryRequired});
    } else if HasStatus(rows, {TaskStatus.AwaitingApproval}) {
      var k := FirstOfIsFirst(rows, {TaskStatus.AwaitingApproval});
    } else if HasStatus(rows, FAILURES) {
      var k := FirstOfIsFirst(rows, FAILURES);
    }
  }

  /** A node that goes back to pending keeps the first error among its rows; one that is cancelled or done gives none. */
  lemma {:induction false} PendingKeepsTheFirstError(rows: seq<TaskView>)
    ensures FirstError(rows).None? <==> forall k :: 0 <= k < |rows| ==> rows[k].error.None?
    ensures FirstError(rows).Some? ==>
        exists k :: 0 <= k < |rows| && rows[k].error == FirstError(rows) && forall j :: 0 <= j < k ==> rows[j].error.None?
  {
    if rows != [] && rows[0].error.None? {
      PendingKeepsTheFirstError(rows[1..]);
      if FirstError(rows).Some? {
        var k :| 0 <= k < |rows[1..]| && rows[1..][k].error == FirstError(rows) && forall j :: 0 <= j < k ==> rows[1..][j].error.None?;
        assert rows[k + 1] == rows[1..][k];
        forall j | 0 <= j < k + 1 ensures rows[j].error.None? {
          if j > 0 { assert rows[j] == rows[1..][j - 1]; }
        }
      } else {
        forall k | 0 <= k < |rows| ensures rows[k].error.None? {
          if k > 0 { assert rows[k] == rows[1..][k - 1]; }
        }
      }
    }
  }

  lemma PendingErrorIsTheFirst(kind: Kind, rows: seq<TaskView>, previous: NodeState)
    requires rows != []
    ensures var state := RecoveredNodeState(kind, rows, previous);
            (state.status == NodeStatus.Pending ==> state.error == FirstError(rows) && state.approvalId.None?)
            && (state.status == NodeStatus.Cancelled ==> state.error.None? && state.approvalId.None?)
  {
  }

  // ----- running a node again plans a task for every slot without one

  lemma {:induction false} PassGrows(env: Env, w: World, body: seq<Request>, ids: seq<TaskId>, offset: nat, i: nat)
    requires i <= |body| && offset + i <= |ids| && Known(w, ids)
    ensures PassFrom(env, w, body, ids, offset, i).world.next >= w.next
    decreases |body| - i
  {
    if i < |body| {
      var r := RunTask(env, w, body[i], SlotAt(ids, offset + i), true);
      if r.state.status == NodeStatus.VerifiedComplete {
        PassGrows(env, r.world, body, SetAt(ids, offset + i, r.state.taskIds[0]), offset, i + 1);
      }
    }
  }

  /** A pass that finds fewer rows than requests, all of them verified, plans at least one task. */
  lemma {:induction false} ShortPassPlans(env: Env, w: World, body: seq<Request>, ids: seq<TaskId>, offset: nat, i: nat)
    requires i <= |body| && WorldOk(w) && Known(w, ids) && SlotsVerified(w, ids, |ids|)
    requires offset + i <= |ids| < offset + |body|
    ensures PassFrom(env, w, body, ids, offset, i).world.next > w.next
    decreases |body| - i
  {
    var r := RunTask(env, w, body[i], SlotAt(ids, offset + i), true);
    var more := SetAt(ids, offset + i, r.state.taskIds[0]);
    if offset + i < |ids| {
      VerifiedStays(env, w, body[i], Some(ids[offset + i]), true, ids[offset + i]);
      assert more == ids;
      ShortPassPlans(env, w, body, ids, offset, i + 1);
    } else if r.state.status == NodeStatus.VerifiedComplete {
      PassGrows(env, r.world, body, more, offset, i + 1);
    }
  }

  lemma VerifiedRowsFillSlots(w: World, rows: seq<TaskView>)
    requires RowsIn(w, rows) && AllVerified(rows)
    ensures Known(w, ViewIds(rows)) && SlotsVerified(w, ViewIds(rows), |rows|) && |ViewIds(rows)| == |rows|
  {
  }

  /** What recovery gives a node whose rows are all verified. */
  lemma VerifiedRowsComplete(kind: Kind, rows: seq<TaskView>, previous: NodeState)
    requires rows != [] && AllVerified(rows) && !kind.Compensation?
    ensures RecoveredNodeState(kind, rows, previous)
         == Fresh(NodeStatus.VerifiedComplete, ViewIds(rows))
            .(iterations := if kind.BoundedLoop? && kind.bodyLength > 0
                            then Some((|rows| + kind.bodyLength - 1) / kind.bodyLength) else None)
  {
    NotVerifiedSomewhere(rows);
    VerifiedHasNoOther(rows, {TaskStatus.RecoveryRequired});
    VerifiedHasNoOther(rows, {TaskStatus.AwaitingApproval});
    VerifiedHasNoOther(rows, FAILURES);
    VerifiedHasNoOther(rows, {TaskStatus.Planned});
  }

  // ----- the branches of a condition

  /**
    Rows of verified tasks: recovery agrees with running a sequence again over them, with nothing planned and
    nothing executed, if and only if there are as many rows as requests.
   */
  lemma SequenceRecoveryIff(env: Env, w: World, requests: seq<Request>, kind: Kind, rows: seq<TaskView>, previous: NodeState)
    requires RowsIn(w, rows) && AllVerified(rows) && rows != [] && !kind.Compensation? && !kind.BoundedLoop?
    ensures Known(w, ViewIds(rows))
    ensures SequentialEnd(env, w, requests, ViewIds(rows)) == TaskRun(w, RecoveredNodeState(kind, rows, previous))
            <==> |requests| <= |rows|
  {
    VerifiedRowsFillSlots(w, rows);
    VerifiedRowsComplete(kind, rows, previous);
    if |requests| <= |rows| {
      PassOverVerified(env, w, requests, ViewIds(rows), 0, 0);
    } else {
      ShortPassPlans(env, w, requests, ViewIds(rows), 0, 0);
    }
  }

  function One(found: Option<TaskView>): seq<TaskView>
  {
    if found.Some? then [found.value] else []
  }

  lemma {:induction false} PresentAppends(a: seq<Option<TaskView>>, b: seq<Option<TaskView>>)
    ensures Present(a + b) == Present(a) + Present(b)
  {
    if a == [] {
      assert a + b == b;
    } else {
      PresentAppends(a[1..], b);
      PresentHead(a);
      PresentHead(a + b);
      assert (a + b)[1..] == a[1..] + b;
      Associates(One(a[0]), Present(a[1..]), Present(b));
    }
  }

  lemma PresentHead(found: seq<Option<TaskView>>)
    requires found != []
    ensures Present(found) == One(found[0]) + Present(found[1..])
  {
  }

  lemma Associates<T>(a: seq<T>, b: seq<T>, c: seq<T>)
    ensures a + (b + c) == a + b + c
  {
  }

  ghost predicate NoneFound(found: seq<Option<TaskView>>)
  {
    forall i :: 0 <= i < |found| ==> found[i].None?
  }

  ghost predicate EveryFound(found: seq<Option<TaskView>>)
  {
    forall i :: 0 <= i < |found| ==> found[i].Some?
  }

  lemma {:induction false} NonePresent(found: seq<Option<TaskView>>)
    requires NoneFound(found)
    ensures Present(found) == []
  {
    if found != [] {
      NonePresent(found[1..]);
    }
  }

  lemma {:induction false} PresentIsAll(found: seq<Option<TaskView>>)
    ensures |Present(found)| == |found| <==> EveryFound(found)
  {
    if found != [] {
      PresentIsAll(found[1..]);
      if |Present(found)| == |found| {
        assert found[0].Some? && |Present(found[1..])| == |found[1..]|;
        forall i | 0 <= i < |found| ensures found[i].Some? {
          if i > 0 { assert found[i] == found[1..][i - 1]; }
        }
      } else if found[0].Some? {
        assert !EveryFound(found[1..]);
        var i :| 0 <= i < |found[1..]| && !found[1..][i].Some?;
        assert found[i + 1] == found[1..][i];
      }
    }
  }

  /**
    A condition looks for the keys of both branches, and is evaluated again when it is run again, so there may
    be rows in either. If all are verified recovery marks the node complete. Running whichever branch is chosen
    by then agrees, with nothing planned or executed, exactly when the rows of both branches together are as
    many as its requests.
   */
  lemma ConditionRecoveryIff(env: Env, w: World, chosen: seq<Request>, source: NodeId, trues: seq<Option<TaskView>>,
                             falses: seq<Option<TaskView>>, previous: NodeState)
    requires Present(trues + falses) != []
    requires RowsIn(w, Present(trues + falses)) && AllVerified(Present(trues + falses))
    ensures var rows := Present(trues + falses);
            RecoveredNodeState(Condition(source), rows, previous).status == NodeStatus.VerifiedComplete
            && Known(w, ViewIds(rows))
            && (SequentialEnd(env, w, chosen, ViewIds(rows)) == TaskRun(w, RecoveredNodeState(Condition(source), rows, previous))
                <==> |chosen| <= |Present(trues)| + |Present(falses)|)
  {
    PresentAppends(trues, falses);
    VerifiedRowsComplete(Condition(source), Present(trues + falses), previous);
    SequenceRecoveryIff(env, w, chosen, Condition(source), Present(trues + falses), previous);
  }

  /** Slot `i` of a run over the rows holds the row that was found for request `i`. */
  ghost predicate Covers(found: seq<Option<TaskView>>, rows: seq<TaskView>)
  {
    |found| <= |rows| && forall i :: 0 <= i < |found| ==> found[i] == Some(rows[i])
  }

  ghost predicate DistinctRows(rows: seq<TaskView>)
  {
    forall i, j :: 0 <= i < j < |rows| ==> rows[i].id != rows[j].id
  }

  lemma {:induction false} AllPresent(found: seq<Option<TaskView>>)
    requires EveryFound(found)
    ensures |Present(found)| == |found| && Covers(found, Present(found))
  {
    if found != [] {
      AllPresent(found[1..]);
      PresentHead(found);
      forall i | 0 <= i < |found| ensures found[i] == Some(Present(found)[i]) {
        if i > 0 { assert found[i] == found[1..][i - 1]; }
      }
    }
  }

  lemma {:induction false} FoundIsPresent(found: seq<Option<TaskView>>, i: nat)
    requires i < |found| && found[i].Some?
    ensures found[i].value in Present(found)
  {
    PresentHead(found);
    if i > 0 { FoundIsPresent(found[1..], i - 1); }
  }

  /** The rows of the first branch come first, so the slots of that branch are its own exactly when all its rows are there. */
  lemma FirstBranchCoversIff(trues: seq<Option<TaskView>>, falses: seq<Option<TaskView>>)
    ensures Covers(trues, Present(trues + falses)) <==> EveryFound(trues)
  {
    PresentAppends(trues, falses);
    if EveryFound(trues) {
      AllPresent(trues);
    }
  }

  /** The slots of the second branch are its own exactly when it is empty, or has all its rows and the first has none. */
  lemma SecondBranchCoversIff(trues: seq<Option<TaskView>>, falses: seq<Option<TaskView>>)
    requires DistinctRows(Present(trues + falses))
    ensures Covers(falses, Present(trues + falses)) <==> falses == [] || (NoneFound(trues) && EveryFound(falses))
  {
    PresentAppends(trues, falses);
    if NoneFound(trues) && EveryFound(falses) {
      NonePresent(trues);
      AllPresent(falses);
    } else if falses != [] && Covers(falses, Present(trues + falses)) {
      SecondIsNotFirst(trues, falses);
    }
  }

  lemma SecondComesLater(trues: seq<Option<TaskView>>, falses: seq<Option<TaskView>>) returns (k: nat)
    requires !NoneFound(trues) && falses != [] && falses[0].Some?
    ensures 0 < k < |Present(trues + falses)| && Present(trues + falses)[k] == falses[0].value
  {
    PresentAppends(trues, falses);
    var i: nat :| i < |trues| && trues[i].Some?;
    FoundIsPresent(trues, i);
    FoundIsPresent(falses, 0);
    var j :| 0 <= j < |Present(falses)| && Present(falses)[j] == falses[0].value;
    k := |Present(trues)| + j;
  }

  lemma SecondIsNotFirst(trues: seq<Option<TaskView>>, falses: seq<Option<TaskView>>)
    requires falses != [] && DistinctRows(Present(trues + falses)) && Covers(falses, Present(trues + falses))
    ensures NoneFound(trues) && EveryFound(falses)
  {
    if !NoneFound(trues) {
      var k := SecondComesLater(trues, falses);
    }
  }

  /** Rows for the chosen branch only, which is what a condition over one and the same result leaves. */
  lemma OneBranchRecoveryIff(env: Env, w: World, chosen: seq<Request>, source: NodeId, before: seq<Option<TaskView>>,
                             found: seq<Option<TaskView>>, after: seq<Option<TaskView>>, previous: NodeState)
    requires |found| == |chosen| && NoneFound(before) && NoneFound(after) && Present(found) != []
    requires RowsIn(w, Present(found)) && AllVerified(Present(found))
    ensures var rows := Present(before + found + after);
            RowsIn(w, rows) && RecoveredNodeState(Condition(source), rows, previous).status == NodeStatus.VerifiedComplete
            && Known(w, ViewIds(rows))
            && (SequentialEnd(env, w, chosen, ViewIds(rows)) == TaskRun(w, RecoveredNodeState(Condition(source), rows, previous))
                <==> EveryFound(found))
  {
    PresentAppends(before + found, after);
    PresentAppends(before, found);
    NonePresent(before);
    NonePresent(after);
    assert Present(before + found + after) == Present(found);
    PresentIsAll(found);
    VerifiedRowsComplete(Condition(source), Present(found), previous);
    SequenceRecoveryIff(env, w, chosen, Condition(source), Present(found), previous);
  }

  /**
    Rows in both branches, all verified, each row of its own task. Run again, the chosen branch both agrees
    with recovery and has its own requests behind it exactly when all rows of that branch are there and, if it
    is the second and not empty, none of the first.
   */
  lemma ChosenBranchIff(env: Env, w: World, whenTrue: seq<Request>, whenFalse: seq<Request>, holds: bool, source: NodeId,
                        trues: seq<Option<TaskView>>, falses: seq<Option<TaskView>>, previous: NodeState)
    requires |trues| == |whenTrue| && |falses| == |whenFalse| && Present(trues + falses) != []
    requires RowsIn(w, Present(trues + falses)) && AllVerified(Present(trues + falses)) && DistinctRows(Present(trues + falses))
    ensures var rows := Present(trues + falses);
            var chosen := if holds then whenTrue else whenFalse;
            Known(w, ViewIds(rows))
            && (SequentialEnd(env, w, chosen, ViewIds(rows)) == TaskRun(w, RecoveredNodeState(Condition(source), rows, previous))
                && Covers(if holds then trues else falses, rows)
                <==> if holds then EveryFound(trues) else falses == [] || (NoneFound(trues) && EveryFound(falses)))
  {
    ConditionRecoveryIff(env, w, if holds then whenTrue else whenFalse, source, trues, falses, previous);
    PresentAppends(trues, falses);
    FirstBranchCoversIff(trues, falses);
    SecondBranchCoversIff(trues, falses);
  }

  /**
    A condition whose branch has flipped: the row of the old branch is verified, the new branch never ran.
    Recovery writes a complete node, and running the new branch over that row would find nothing to do either.
   */
  lemma FlippedConditionSkipsItsBranch(env: Env, w: World, chosen: seq<Request>, source: NodeId, previous: NodeState)
    requires |chosen| == 1 && w == World(map[7 := TaskStatus.VerifiedSuccess], 8, [7])
    ensures var rows := Present([Some(TaskView(7, TaskStatus.VerifiedSuccess, None, None))] + [None]);
            var complete := Fresh(NodeStatus.VerifiedComplete, [7]);
            RecoveredNodeState(Condition(source), rows, previous) == complete
            && SequentialEnd(env, w, chosen, [7]) == TaskRun(w, complete)
            && !Covers([None], rows)
  {
    var row := TaskView(7, TaskStatus.VerifiedSuccess, None, None);
    PresentAppends([Some(row)], [None]);
    assert [Some(row)][1..] == [];
    assert Present([Some(row)]) == [row];
    NonePresent([None]);
    assert ViewIds([row]) == [7];
    VerifiedRowsComplete(Condition(source), [row], previous);
    SequenceRecoveryIff(env, w, chosen, Condition(source), [row], previous);
  }

  // ----- parallel branches

  lemma {:induction false} ParallelGrows(env: Env, w: World, requests: seq<Request>, ids: seq<TaskId>, i: nat)
    requires i <= |requests| && WorldOk(w) && Known(w, ids)
    ensures ParallelFrom(env, w, requests, ids, i).0.next >= w.next
    ensures |ids| <= i < |requests| ==> ParallelFrom(env, w, requests, ids, i).0.next > w.next
    decreases |requests| - i
  {
    if i < |requests| {
      ParallelGrows(env, RunTask(env, w, requests[i], SlotAt(ids, i), true).world, requests, ids, i + 1);
    }
  }

  lemma {:induction false} ShortParallelPlans(env: Env, w: World, requests: seq<Request>, ids: seq<TaskId>, i: nat)
    requires i <= |ids| < |requests| && WorldOk(w) && Known(w, ids) && SlotsVerified(w, ids, |ids|)
    ensures ParallelFrom(env, w, requests, ids, i).0.next > w.next
    decreases |requests| - i
  {
    if i < |ids| {
      VerifiedStays(env, w, requests[i], Some(ids[i]), true, ids[i]);
      ShortParallelPlans(env, w, requests, ids, i + 1);
    } else {
      ParallelGrows(env, w, requests, ids, i);
    }
  }

  /** Every state is complete, with these ids. */
  ghost predicate AllComplete(states: seq<NodeState>, ids: seq<TaskId>)
  {
    |states| == |ids| && forall i :: 0 <= i < |ids| ==> states[i] == Fresh(NodeStatus.VerifiedComplete, [ids[i]])
  }

  lemma {:induction false} ParallelOverVerified(env: Env, w: World, requests: seq<Request>, ids: seq<TaskId>, i: nat)
    requires i <= |requests| == |ids| && WorldOk(w) && Known(w, ids) && SlotsVerified(w, ids, |ids|)
    ensures ParallelFrom(env, w, requests, ids, i).0 == w
    ensures AllComplete(ParallelFrom(env, w, requests, ids, i).1, ids[i..])
    decreases |requests| - i
  {
    if i < |requests| {
      VerifiedStays(env, w, requests[i], Some(ids[i]), true, ids[i]);
      ParallelOverVerified(env, w, requests, ids, i + 1);
      assert ids[i..] == [ids[i]] + ids[i + 1..];
    }
  }

  lemma {:induction false} CompleteIds(states: seq<NodeState>, ids: seq<TaskId>)
    requires AllComplete(states, ids)
    ensures AllTaskIds(states) == ids
  {
    if states != [] {
      CompleteIds(states[1..], ids[1..]);
      assert ids == [ids[0]] + ids[1..];
    }
  }

  lemma AggregateOfComplete(states: seq<NodeState>, ids: seq<TaskId>)
    requires AllComplete(states, ids)
    ensures Aggregate(states) == Fresh(NodeStatus.VerifiedComplete, ids)
  {
    CompleteIds(states, ids);
    FirstWithFinds(states, NodeStatus.Failed);
    FirstWithFinds(states, NodeStatus.RecoveryRequired);
    FirstWithFinds(states, NodeStatus.AwaitingApproval);
    FirstWithFinds(states, NodeStatus.Cancelled);
  }

  /** A parallel node: recovery's complete is what running again gives exactly when every request has its row. */
  lemma ParallelRecoveryIff(env: Env, w: World, requests: seq<Request>, found: seq<Option<TaskView>>, previous: NodeState)
    requires |found| == |requests| && Present(found) != []
    requires RowsIn(w, Present(found)) && AllVerified(Present(found))
    ensures var rows := Present(found);
            RecoveredNodeState(Parallel, rows, previous).status == NodeStatus.VerifiedComplete
            && Known(w, ViewIds(rows))
            && (ParallelEnd(env, w, requests, ViewIds(rows)) == TaskRun(w, RecoveredNodeState(Parallel, rows, previous))
                <==> EveryFound(found))
  {
    var rows := Present(found);
    PresentIsAll(found);
    VerifiedRowsFillSlots(w, rows);
    VerifiedRowsComplete(Parallel, rows, previous);
    if |rows| == |requests| {
      ParallelOverVerified(env, w, requests, ViewIds(rows), 0);
      assert ViewIds(rows)[0..] == ViewIds(rows);
      AggregateOfComplete(ParallelFrom(env, w, requests, ViewIds(rows), 0).1, ViewIds(rows));
    } else {
      ShortParallelPlans(env, w, requests, ViewIds(rows), 0);
    }
  }

  // ----- bounded loop

  /**
    Task ids as a loop plans them: iteration `m` is the last one begun, and the predicate said no after
    each iteration before it.
   */
  ghost predicate PlannedByLoop(body: seq<Request>, maximum: nat, until: Option<TaskId -> bool>, ids: seq<TaskId>, m: nat)
  {
    body != [] && m < maximum && Offset(m, |body|) < |ids| <= Offset(m + 1, |body|) && NotYet(body, until, ids, m)
  }

  /** Iteration `m` is whole and the loop ends with it. */
  ghost predicate EndsAt(body: seq<Request>, maximum: nat, until: Option<TaskId -> bool>, ids: seq<TaskId>, m: nat)
    requires body != []
  {
    |ids| == Offset(m + 1, |body|) && (m + 1 == maximum || Holds(body, until, ids, m))
  }

  lemma {:induction false} PassLength(env: Env, w: World, body: seq<Request>, ids: seq<TaskId>, offset: nat, i: nat)
    requires i <= |body| && offset + i <= |ids| && Known(w, ids)
    ensures var p := PassFrom(env, w, body, ids, offset, i);
            |ids| <= |p.ids| && (|ids| <= offset + |body| ==> |p.ids| <= offset + |body|)
            && (i < |body| ==> |p.ids| > offset) && (p.stopped.None? ==> |p.ids| >= offset + |body|)
    decreases |body| - i
  {
    if i < |body| {
      var r := RunTask(env, w, body[i], SlotAt(ids, offset + i), true);
      var more := SetAt(ids, offset + i, r.state.taskIds[0]);
      if r.state.status == NodeStatus.VerifiedComplete {
        PassLength(env, r.world, body, more, offset, i + 1);
      }
    }
  }

  /** What the ids of a loop that has stopped look like: complete exactly when they end it. */
  ghost predicate PlannedSoFar(body: seq<Request>, maximum: nat, until: Option<TaskId -> bool>, state: NodeState)
  {
    state.iterations.Some?
    && if state.status == NodeStatus.VerifiedComplete
       then state.iterations.value > 0 && PlannedByLoop(body, maximum, until, state.taskIds, state.iterations.value - 1)
            && EndsAt(body, maximum, until, state.taskIds, state.iterations.value - 1)
       else PlannedByLoop(body, maximum, until, state.taskIds, state.iterations.value)
  }

  /** A loop about to start iteration `k`, with no slot beyond it. */
  ghost predicate Poised(w: World, body: seq<Request>, maximum: nat, until: Option<TaskId -> bool>, ids: seq<TaskId>, k: nat)
  {
    AtIteration(w, body, ids, k) && NotYet(body, until, ids, k) && k < maximum && |ids| <= Offset(k + 1, |body|)
  }

  /** One iteration plans its own slots and no others. */
  lemma TurnPlansSo(env: Env, w: World, body: seq<Request>, maximum: nat, until: Option<TaskId -> bool>, ids: seq<TaskId>, k: nat, p: Pass)
    requires Poised(w, body, maximum, until, ids, k) && p == Turn(env, w, body, ids, k)
    ensures PlannedByLoop(body, maximum, until, p.ids, k)
    ensures p.stopped.None? ==> |p.ids| == Offset(k + 1, |body|)
    ensures p.stopped.None? && !Holds(body, until, p.ids, k) && k + 1 < maximum ==> Poised(p.world, body, maximum, until, p.ids, k + 1)
  {
    PassLength(env, w, body, ids, Offset(k, |body|), 0);
    NotYetStays(body, until, ids, p.ids, k);
  }

  /** However a loop ends or is interrupted, its ids are as a loop plans them, and it is complete exactly when they end it. */
  lemma {:induction false} LoopPlansSo(env: Env, w: World, body: seq<Request>, maximum: nat, until: Option<TaskId -> bool>,
                                       ids: seq<TaskId>, k: nat, end: LoopEnd)
    requires Poised(w, body, maximum, until, ids, k) && end == LoopFrom(env, w, body, maximum, until, ids, k)
    ensures PlannedSoFar(body, maximum, until, end.state)
    decreases maximum - k
  {
    var p := Turn(env, w, body, ids, k);
    TurnPlansSo(env, w, body, maximum, until, ids, k, p);
    LoopContinues(env, w, body, maximum, until, ids, k, p, end);
    if p.stopped.None? && !Holds(body, until, p.ids, k) {
      if k + 1 < maximum {
        LoopPlansSo(env, p.world, body, maximum, until, p.ids, k + 1, end);
      } else {
        LoopExhausted(env, p.world, body, maximum, until, p.ids, k + 1, end);
      }
    }
  }

  lemma Times(a: int, b: int, c: nat)
    ensures a <= b ==> a * c <= b * c
  {
    if a <= b { assert (b - a) * c >= 0; }
  }

  lemma CeilingOf(n: nat, length: nat, m: nat)
    requires length > 0 && m * length < n <= m * length + length
    ensures (n + length - 1) / length == m + 1
  {
    var q := (n + length - 1) / length;
    assert q * length <= n + length - 1 < q * length + length;
    Times(q, m, length);
    Times(m + 2, q, length);
    assert (m + 2) * length == m * length + length + length;
  }

  lemma {:induction false} LoopGrows(env: Env, w: World, body: seq<Request>, maximum: nat, until: Option<TaskId -> bool>, ids: seq<TaskId>, k: nat)
    requires AtIteration(w, body, ids, k)
    ensures LoopFrom(env, w, body, maximum, until, ids, k).world.next >= w.next
    decreases maximum - k
  {
    if k < maximum {
      var p := Turn(env, w, body, ids, k);
      PassGrows(env, w, body, ids, Offset(k, |body|), 0);
      if p.stopped.None? && !Holds(body, until, p.ids, k) {
        LoopGrows(env, p.world, body, maximum, until, p.ids, k + 1);
      }
    }
  }

  lemma TurnThenGrows(env: Env, w: World, body: seq<Request>, maximum: nat, until: Option<TaskId -> bool>, ids: seq<TaskId>, k: nat)
    requires AtIteration(w, body, ids, k) && k < maximum && Turn(env, w, body, ids, k).world.next > w.next
    ensures LoopFrom(env, w, body, maximum, until, ids, k).world.next > w.next
  {
    var p := Turn(env, w, body, ids, k);
    if p.stopped.None? && !Holds(body, until, p.ids, k) {
      LoopGrows(env, p.world, body, maximum, until, p.ids, k + 1);
    }
  }

  lemma LastSlots(w: World, body: seq<Request>, maximum: nat, until: Option<TaskId -> bool>, ids: seq<TaskId>, m: nat)
    requires PlannedByLoop(body, maximum, until, ids, m) && WorldOk(w) && Known(w, ids) && SlotsVerified(w, ids, |ids|)
    ensures AtIteration(w, body, ids, m)
    ensures |ids| == Offset(m + 1, |body|) ==> AtIteration(w, body, ids, m + 1)
  {
  }

  /** An iteration without all its rows plans a task, and so does the loop. */
  lemma ShortTurnPlans(env: Env, w: World, body: seq<Request>, maximum: nat, until: Option<TaskId -> bool>, ids: seq<TaskId>, k: nat)
    requires AtIteration(w, body, ids, k) && SlotsVerified(w, ids, |ids|) && k < maximum && |ids| < Offset(k + 1, |body|)
    ensures LoopFrom(env, w, body, maximum, until, ids, k).world.next > w.next
  {
    ShortPassPlans(env, w, body, ids, Offset(k, |body|), 0);
    TurnThenGrows(env, w, body, maximum, until, ids, k);
  }

  /** A last iteration with all its rows ends the loop, or leads to one without any. */
  lemma WholeTurn(env: Env, w: World, body: seq<Request>, maximum: nat, until: Option<TaskId -> bool>, ids: seq<TaskId>, m: nat)
    requires AtIteration(w, body, ids, m) && AtIteration(w, body, ids, m + 1) && m < maximum && |ids| == Offset(m + 1, |body|)
    ensures EndsAt(body, maximum, until, ids, m) ==> LoopFrom(env, w, body, maximum, until, ids, m) == LoopDone(w, ids, m + 1)
    ensures !EndsAt(body, maximum, until, ids, m) ==>
        m + 1 < maximum && LoopFrom(env, w, body, maximum, until, ids, m) == LoopFrom(env, w, body, maximum, until, ids, m + 1)
  {
    TurnOverVerified(env, w, body, ids, m);
    if !Holds(body, until, ids, m) {
      SkipsVerifiedTurn(env, w, body, maximum, until, ids, m);
    }
  }

  /** A loop re-entered over verified ids at its last iteration: nothing runs exactly when the iteration ends the loop. */
  lemma LastIterationIff(env: Env, w: World, body: seq<Request>, maximum: nat, until: Option<TaskId -> bool>, ids: seq<TaskId>, m: nat)
    requires PlannedByLoop(body, maximum, until, ids, m) && WorldOk(w) && Known(w, ids) && SlotsVerified(w, ids, |ids|)
    ensures AtIteration(w, body, ids, m)
    ensures EndsAt(body, maximum, until, ids, m) ==> LoopFrom(env, w, body, maximum, until, ids, m) == LoopDone(w, ids, m + 1)
    ensures !EndsAt(body, maximum, until, ids, m) ==> LoopFrom(env, w, body, maximum, until, ids, m).world.next > w.next
  {
    LastSlots(w, body, maximum, until, ids, m);
    if |ids| < Offset(m + 1, |body|) {
      ShortTurnPlans(env, w, body, maximum, until, ids, m);
    } else {
      WholeTurn(env, w, body, maximum, until, ids, m);
      if !EndsAt(body, maximum, until, ids, m) {
        ShortTurnPlans(env, w, body, maximum, until, ids, m + 1);
      }
    }
  }

  /** The loop run again from the start over verified ids: it ends at once, or plans a task. */
  lemma AgainFromTheStart(env: Env, w: World, body: seq<Request>, maximum: nat, until: Option<TaskId -> bool>, ids: seq<TaskId>, m: nat)
    requires PlannedByLoop(body, maximum, until, ids, m) && WorldOk(w) && Known(w, ids) && SlotsVerified(w, ids, |ids|)
    ensures AtIteration(w, body, ids, 0)
    ensures EndsAt(body, maximum, until, ids, m) ==> LoopFrom(env, w, body, maximum, until, ids, 0) == LoopDone(w, ids, m + 1)
    ensures !EndsAt(body, maximum, until, ids, m) ==> LoopFrom(env, w, body, maximum, until, ids, 0).world.next > w.next
  {
    LastIterationIff(env, w, body, maximum, until, ids, m);
    LoopRestart(env, w, body, maximum, until, ids, 0, m, LoopFrom(env, w, body, maximum, until, ids, m));
  }

  /** The state recovery gives a loop: complete, with the iterations begun. */
  lemma LoopComesBack(body: seq<Request>, maximum: nat, until: Option<TaskId -> bool>, rows: seq<TaskView>, previous: NodeState, m: nat)
    requires AllVerified(rows) && PlannedByLoop(body, maximum, until, ViewIds(rows), m)
    ensures RecoveredNodeState(BoundedLoop(|body|), rows, previous)
         == AtLoop(Fresh(NodeStatus.VerifiedComplete, []), ViewIds(rows), m + 1)
  {
    OffsetIsProduct(m, |body|);
    CeilingOf(|rows|, |body|, m);
    VerifiedRowsComplete(BoundedLoop(|body|), rows, previous);
  }

  /**
    A loop whose rows are all verified comes back complete. Running it again from the start over those
    rows gives the very state recovery wrote, iterations included, with nothing planned and nothing
    executed, exactly when the rows are whole iterations and the last one ended the loop.
   */
  lemma LoopRecoveryIff(env: Env, w: World, body: seq<Request>, maximum: nat, until: Option<TaskId -> bool>, rows: seq<TaskView>,
                        previous: NodeState, m: nat)
    requires RowsIn(w, rows) && AllVerified(rows) && PlannedByLoop(body, maximum, until, ViewIds(rows), m)
    ensures AtIteration(w, body, ViewIds(rows), 0)
    ensures RecoveredNodeState(BoundedLoop(|body|), rows, previous).status == NodeStatus.VerifiedComplete
    ensures LoopFrom(env, w, body, maximum, until, ViewIds(rows), 0) == LoopEnd(w, RecoveredNodeState(BoundedLoop(|body|), rows, previous))
            <==> EndsAt(body, maximum, until, ViewIds(rows), m)
  {
    VerifiedRowsFillSlots(w, rows);
    AgainFromTheStart(env, w, body, maximum, until, ViewIds(rows), m);
    LoopComesBack(body, maximum, until, rows, previous, m);
  }

  /**
    A concrete failure: two iterations allowed, one row, verified, and a predicate that says no to it.
    Recovery writes a complete loop of one iteration; running the node again would plan the second.
   */
  lemma LoopComesBackTooEarly(env: Env, w: World, body: seq<Request>, until: Option<TaskId -> bool>, previous: NodeState)
    requires |body| == 1 && until.Some? && !until.value(7)
    requires w == World(map[7 := TaskStatus.VerifiedSuccess], 8, [7])
    ensures var rows := Present([Some(TaskView(7, TaskStatus.VerifiedSuccess, None, None)), None]);
            RecoveredNodeState(BoundedLoop(1), rows, previous) == Fresh(NodeStatus.VerifiedComplete, [7]).(iterations := Some(1))
            && AtIteration(w, body, [7], 0) && LoopFrom(env, w, body, 2, until, [7], 0).world.next > 8
  {
    var row := TaskView(7, TaskStatus.VerifiedSuccess, None, None);
    PresentAppends([Some(row)], [None]);
    assert [Some(row)] + [None] == [Some(row), None];
    assert [Some(row)][1..] == [];
    assert Present([Some(row)]) == [row];
    NonePresent([None]);
    assert ViewIds([row]) == [7];
    VerifiedRowsComplete(BoundedLoop(1), [row], previous);
    assert Offset(1, 1) == 1 by { OffsetIsProduct(1, 1); }
    AgainFromTheStart(env, w, body, 2, until, [7], 0);
  }

  /** The same row under a predicate that says yes: recovery is right although the second iteration has no row. */
  lemma LoopComesBackInTime(env: Env, w: World, body: seq<Request>, until: Option<TaskId -> bool>, previous: NodeState)
    requires |body| == 1 && until.Some? && until.value(7)
    requires w == World(map[7 := TaskStatus.VerifiedSuccess], 8, [7])
    ensures var state := RecoveredNodeState(BoundedLoop(1), [TaskView(7, TaskStatus.VerifiedSuccess, None, None)], previous);
            AtIteration(w, body, [7], 0) && LoopFrom(env, w, body, 2, until, [7], 0) == LoopEnd(w, state)
  {
    var row := TaskView(7, TaskStatus.VerifiedSuccess, None, None);
    assert ViewIds([row]) == [7];
    assert Offset(1, 1) == 1 by { OffsetIsProduct(1, 1); }
    LoopRecoveryIff(env, w, body, 2, until, [row], previous, 0);
  }
}
