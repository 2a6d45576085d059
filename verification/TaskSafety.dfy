/**
  What the task machine keeps over every run: crashes at any durable write, restarts under any policy, any
  number of tasks.
 */
module TaskSafety {
  import opened Wrappers
  import opened Text
  import opened Protocol
  import opened Verifier
  import opened Policy
  import opened CanonicalJson
  import opened TaskMachine

  // ----- the invariant of one task

  /** What every step keeps of the history of a task. */
  ghost predicate HistoryInv(t: TaskId, job: Job)
  {
    MarksOk(t, job.request, job.row.approval, job.history)
    && (Mutation(job.request) ==> Calls(job.history) <= 1)
  }

  /** A success through `execute` owns its commit row; one through recovery may find the row taken. */
  ghost predicate KeyCommitted(t: TaskId, job: Job, commits: map<Text, TaskId>)
    requires job.history.After? && job.history.mark.Observed?
  {
    job.row.key.Some?
    ==> job.row.key.value in commits && (!job.history.mark.again ==> commits[job.row.key.value] == t)
  }

  ghost predicate SuccessOk(t: TaskId, job: Job, commits: map<Text, TaskId>)
  {
    ProofLast(job.request, job.history) && KeyCommitted(t, job, commits)
    && (Mutation(job.request) && WasInterrupted(job.history) ==> job.history.mark.again)
    && (job.history.mark.again ==> FileEvidence(job.request))
  }

  /** The receipts a certificate of success names end with one that is stored and says so. */
  predicate NamesReceipt(ids: seq<nat>, receipts: seq<Receipt>)
  {
    ids != [] && ids[|ids| - 1] < |receipts| && receipts[ids[|ids| - 1]].success
  }

  ghost predicate RowInv(t: TaskId, job: Job, commits: map<Text, TaskId>)
  {
    var status := job.row.status;
    && (Executable(status) && Mutation(job.request) ==> Calls(job.history) == 0 && !WasInterrupted(job.history))
    && (Executable(status) ==> job.certificate.None?)
    && (UnderWay(status) ==> job.sealed && (Mutation(job.request) || job.certificate.None?))
    && (status == TaskStatus.Verifying ==> Calls(job.history) > 0)
    && (status == TaskStatus.VerifiedSuccess ==> SuccessOk(t, job, commits))
    && (Mutation(job.request) && WasInterrupted(job.history)
        ==> UnderWay(status) || status == TaskStatus.RecoveryRequired || status == TaskStatus.VerifiedSuccess)
  }

  ghost predicate CertificateInv(job: Job)
  {
    job.certificate.Some? && job.certificate.value.result == Success
    ==> Proven(job.request, job.history) && NamesReceipt(job.certificate.value.receiptIds, job.receipts)
        && (job.row.status == TaskStatus.VerifiedSuccess
            || (Mutation(job.request) && FileEvidence(job.request)
                && job.row.status in {TaskStatus.Verifying, TaskStatus.RecoveryRequired}))
  }

  /** The statuses a task can end in by itself. */
  predicate Ending(status: TaskStatus)
  {
    status in {TaskStatus.VerifiedSuccess, TaskStatus.Partial, TaskStatus.Failed, TaskStatus.Cancelled,
               TaskStatus.PolicyBlocked, TaskStatus.BudgetExhausted}
  }

  /** A task inside `execute`: a mutation there has not been caught by a crash. */
  ghost predicate Executing(job: Job)
  {
    UnderWay(job.row.status) && job.sealed && job.certificate.None?
    && (Mutation(job.request) ==> !WasInterrupted(job.history))
  }

  ghost predicate AttemptInv(t: TaskId, job: Job, n: nat, gate: Gate, policy: LocalPolicy)
  {
    Executing(job) && job.row.status == TaskStatus.Running
    && GateOpen(t, job.request, job.row.approval, gate) && gate.policy == policy
    && (Mutation(job.request) ==> n == 1)
  }

  ghost predicate ClosingInv(t: TaskId, job: Job, final: TaskStatus, commits: map<Text, TaskId>)
  {
    Ending(final)
    && (final == TaskStatus.VerifiedSuccess
        ==> job.row.status == TaskStatus.Verifying && SuccessOk(t, job, commits) && !job.history.mark.again)
  }

  ghost predicate RecoveringInv(job: Job)
  {
    job.row.status == TaskStatus.Verifying && Mutation(job.request) && FileEvidence(job.request) && job.sealed
  }

  ghost predicate CertifyingInv(t: TaskId, job: Job, final: TaskStatus, ids: seq<nat>, commits: map<Text, TaskId>)
  {
    Ending(final)
    && (job.row.status == final
        || (final == TaskStatus.VerifiedSuccess && RecoveringInv(job)))
    && (final == TaskStatus.VerifiedSuccess ==> SuccessOk(t, job, commits) && NamesReceipt(ids, job.receipts))
  }

  ghost predicate ReprovenInv(job: Job)
  {
    RecoveringInv(job) && ProofLast(job.request, job.history) && job.history.mark.again
  }

  ghost predicate PhaseInv(t: TaskId, job: Job, policy: LocalPolicy, commits: map<Text, TaskId>)
  {
    match job.phase
    case Idle => true
    case Sealing => Executable(job.row.status) && !job.sealed
    case Attempting(n, gate) =>
      AttemptInv(t, job, n, gate, policy) && n > 0
      && (n == 1 ==> KeyFree(job.row.key, commits)) && (Mutation(job.request) ==> Calls(job.history) == 0)
    case Calling(n, gate) => AttemptInv(t, job, n, gate, policy) && n > 0 && Calls(job.history) > 0
    case Answered(_) => Executing(job) && job.row.status == TaskStatus.Running && Calls(job.history) > 0
    case Observing(_) => Executing(job) && job.row.status == TaskStatus.Verifying
    case Judged(result, verified) =>
      Executing(job) && job.row.status == TaskStatus.Verifying
      && (verified ==> ProofLast(job.request, job.history) && !job.history.mark.again && Succeeded(result))
    case Receipting(final, success) =>
      Executing(job) && ClosingInv(t, job, final, commits) && (final == TaskStatus.VerifiedSuccess ==> success)
    case Settling(final, ids) =>
      Executing(job) && ClosingInv(t, job, final, commits)
      && (final == TaskStatus.VerifiedSuccess ==> NamesReceipt(ids, job.receipts))
    case Certifying(final, ids) => CertifyingInv(t, job, final, ids, commits)
    case Stamping(final, ids) =>
      CertifyingInv(t, job, final, ids, commits) && job.certificate == Some(Certificate(ResultOf(final), ids))
    case Reobserving => RecoveringInv(job)
    case Recommitting => ReprovenInv(job)
    case Rereceipting => ReprovenInv(job) && KeyCommitted(t, job, commits)
  }

  predicate RecoveryPhase(phase: Phase)
  {
    phase.Idle? || phase.Reobserving? || phase.Recommitting? || phase.Rereceipting?
    || phase.Certifying? || phase.Stamping?
  }

  predicate ModeInv(t: TaskId, job: Job, mode: Mode, cpu: Option<TaskId>)
  {
    (Sync(job.phase) <==> cpu == Some(t))
    && (mode == Down ==> job.phase.Idle?)
    && (mode == Recovering ==> RecoveryPhase(job.phase))
    && (mode == Serving && RecoveryPhase(job.phase) ==> !UnderWay(job.row.status))
  }

  ghost predicate JobInv(t: TaskId, job: Job, policy: LocalPolicy, commits: map<Text, TaskId>)
  {
    HistoryInv(t, job) && RowInv(t, job, commits) && CertificateInv(job) && PhaseInv(t, job, policy, commits)
  }

  ghost predicate TaskInv(s: System, t: TaskId)
    requires t in s.jobs
  {
    JobInv(t, s.jobs[t], s.policy, s.commits) && ModeInv(t, s.jobs[t], s.mode, s.cpu)
  }

  ghost predicate Inv(s: System)
  {
    (forall t :: t in s.jobs ==> TaskInv(s, t)) && (s.cpu.Some? ==> s.cpu.value in s.jobs)
  }

  predicate Extends(commits: map<Text, TaskId>, more: map<Text, TaskId>)
  {
    forall key :: key in commits ==> key in more && more[key] == commits[key]
  }

  // ----- each step, for the task it touches

  ghost predicate GateKnown(t: TaskId, job: Job, e: Evaluation, response: Option<Response>, policy: LocalPolicy, now: int)
  {
    e.decision.outcome != Deny && Approved(job.row.approval, e, response, now)
    ==> GateOpen(t, job.request, job.row.approval, Gate(policy, now, response))
  }

  lemma GateOpens(t: TaskId, job: Job, e: Evaluation, response: Option<Response>, policy: LocalPolicy, now: int)
    requires e == EvaluatePolicy(t, job.request, policy, now, 0)
    ensures GateKnown(t, job, e, response, policy, now)
  {
  }

  lemma FinishKeeps(t: TaskId, job: Job, status: TaskStatus, policy: LocalPolicy, commits: map<Text, TaskId>)
    requires JobInv(t, job, policy, commits) && Executable(job.row.status)
    requires status == TaskStatus.Cancelled || status == TaskStatus.PolicyBlocked
    ensures JobInv(t, Finish(job, status), policy, commits)
  {
  }

  lemma StartKeeps(t: TaskId, job: Job, next: Job, gate: Gate, policy: LocalPolicy, commits: map<Text, TaskId>)
    requires JobInv(t, job, policy, commits) && Executable(job.row.status) && job.sealed && KeyFree(job.row.key, commits)
    requires GateOpen(t, job.request, job.row.approval, gate) && gate.policy == policy
    requires next == job.(row := job.row.(status := TaskStatus.Running), phase := Attempting(1, gate), aborted := false, exhausted := false)
    ensures JobInv(t, next, policy, commits)
  {
  }

  lemma BeginKeeps(t: TaskId, job: Job, next: Job, e: Evaluation, response: Option<Response>, policy: LocalPolicy,
                   now: int, commits: map<Text, TaskId>)
    requires JobInv(t, job, policy, commits) && !Sync(job.phase)
    requires GateKnown(t, job, e, response, policy, now)
    requires next == BeginJob(job, e, response, policy, now, commits)
    ensures JobInv(t, next, policy, commits)
  {
    if Executable(job.row.status) {
      FinishKeeps(t, job, TaskStatus.Cancelled, policy, commits);
      FinishKeeps(t, job, TaskStatus.PolicyBlocked, policy, commits);
      if next.phase.Attempting? && next.phase != job.phase {
        StartKeeps(t, job, next, Gate(policy, now, response), policy, commits);
      }
    }
  }

  lemma CallKeeps(t: TaskId, job: Job, next: Job, policy: LocalPolicy, commits: map<Text, TaskId>)
    requires JobInv(t, job, policy, commits) && job.phase.Attempting? && next == CallJob(job, commits)
    ensures JobInv(t, next, policy, commits)
  {
  }

  lemma ThrowKeeps(t: TaskId, job: Job, next: Job, policy: LocalPolicy, commits: map<Text, TaskId>)
    requires JobInv(t, job, policy, commits) && job.phase.Calling? && next == ThrowJob(job)
    ensures JobInv(t, next, policy, commits)
  {
  }

  lemma ObserveKeeps(t: TaskId, job: Job, next: Job, worlds: seq<World>, policy: LocalPolicy, commits: map<Text, TaskId>)
    requires JobInv(t, job, policy, commits) && job.phase.Observing? && next == ObserveJob(job, worlds)
    ensures JobInv(t, next, policy, commits)
  {
  }

  lemma CommitKeeps(t: TaskId, job: Job, next: Job, policy: LocalPolicy, commits: map<Text, TaskId>,
                    more: map<Text, TaskId>)
    requires JobInv(t, job, policy, commits) && job.phase.Judged? && next == CommitJob(job, commits)
    requires more == MoveCommits(t, job, Commit, commits)
    ensures JobInv(t, next, policy, more)
  {
  }

  lemma ReceiptKeeps(t: TaskId, job: Job, next: Job, policy: LocalPolicy, commits: map<Text, TaskId>)
    requires JobInv(t, job, policy, commits) && (job.phase.Receipting? || job.phase.Rereceipting?)
    requires next == ReceiptJob(job)
    ensures JobInv(t, next, policy, commits)
  {
  }

  lemma WriteKeeps(t: TaskId, job: Job, next: Job, move: Move, mode: Mode, policy: LocalPolicy, now: int,
                   commits: map<Text, TaskId>)
    requires JobInv(t, job, policy, commits) && MoveEnabled(job, move, mode)
    requires move.Seal? || move.Return? || move.SaveResult? || move.Settle? || move.ShortCircuit? || move.Expire?
    requires next == MoveJob(job, move, mode, policy, now, commits)
    ensures JobInv(t, next, policy, commits)
  {
  }

  lemma CertifyKeeps(t: TaskId, job: Job, next: Job, move: Move, mode: Mode, policy: LocalPolicy, now: int,
                     commits: map<Text, TaskId>)
    requires JobInv(t, job, policy, commits) && MoveEnabled(job, move, mode) && (move.Certify? || move.Stamp?)
    requires next == MoveJob(job, move, mode, policy, now, commits)
    ensures JobInv(t, next, policy, commits)
  {
  }

  lemma CancelKeeps(t: TaskId, job: Job, next: Job, policy: LocalPolicy, commits: map<Text, TaskId>)
    requires JobInv(t, job, policy, commits) && !Sync(job.phase) && next == CancelJob(job)
    ensures JobInv(t, next, policy, commits)
  {
  }

  lemma RecoverKeeps(t: TaskId, job: Job, next: Job, policy: LocalPolicy, commits: map<Text, TaskId>)
    requires JobInv(t, job, policy, commits) && job.phase.Idle? && UnderWay(job.row.status) && next == RecoverJob(job)
    ensures JobInv(t, next, policy, commits)
  {
  }

  lemma ReobserveKeeps(t: TaskId, job: Job, next: Job, worlds: seq<World>, policy: LocalPolicy, commits: map<Text, TaskId>)
    requires JobInv(t, job, policy, commits) && job.phase.Reobserving? && next == ReobserveJob(job, worlds)
    ensures JobInv(t, next, policy, commits)
  {
    var seen := After(job.history, Observed(true, EMPTY, worlds));
    if Satisfied(job.request, EMPTY, worlds) {
      assert next == job.(history := seen, phase := Recommitting);
    } else {
      assert next == job.(history := seen, phase := Idle, row := job.row.(status := TaskStatus.RecoveryRequired));
    }
  }

  lemma RecommitKeeps(t: TaskId, job: Job, next: Job, policy: LocalPolicy, commits: map<Text, TaskId>,
                      more: map<Text, TaskId>)
    requires JobInv(t, job, policy, commits) && job.phase.Recommitting? && next == job.(phase := Rereceipting)
    requires more == MoveCommits(t, job, Recommit, commits)
    ensures JobInv(t, next, policy, more)
  {
  }

  predicate Recovers(move: Move)
  {
    move.Recover? || move.Reobserve? || move.Recommit?
  }

  lemma RecoveryMoveKeeps(t: TaskId, job: Job, next: Job, move: Move, mode: Mode, policy: LocalPolicy, now: int,
                          commits: map<Text, TaskId>, more: map<Text, TaskId>)
    requires JobInv(t, job, policy, commits) && MoveEnabled(job, move, mode) && Recovers(move)
    requires next == MoveJob(job, move, mode, policy, now, commits) && more == MoveCommits(t, job, move, commits)
    ensures JobInv(t, next, policy, more)
  {
    match move
    case Recover => RecoverKeeps(t, job, next, policy, commits);
    case Reobserve(worlds) => ReobserveKeeps(t, job, next, worlds, policy, commits);
    case Recommit => RecommitKeeps(t, job, next, policy, commits, more);
  }

  predicate Attempts(move: Move)
  {
    move.Begin? || move.Call? || move.Throw? || move.Observe? || move.Commit?
  }

  lemma AttemptMoveKeeps(t: TaskId, job: Job, next: Job, move: Move, mode: Mode, policy: LocalPolicy, now: int,
                         commits: map<Text, TaskId>, more: map<Text, TaskId>)
    requires JobInv(t, job, policy, commits) && MoveEnabled(job, move, mode) && Attempts(move)
    requires move.Begin? ==> !Sync(job.phase) && GateKnown(t, job, move.verdict, move.response, policy, now)
    requires next == MoveJob(job, move, mode, policy, now, commits) && more == MoveCommits(t, job, move, commits)
    ensures JobInv(t, next, policy, more)
  {
    match move
    case Begin(verdict, response) => BeginKeeps(t, job, next, verdict, response, policy, now, commits);
    case Call => CallKeeps(t, job, next, policy, commits);
    case Throw => ThrowKeeps(t, job, next, policy, commits);
    case Observe(worlds) => ObserveKeeps(t, job, next, worlds, policy, commits);
    case Commit => CommitKeeps(t, job, next, policy, commits, more);
  }

  lemma MoveKeeps(t: TaskId, job: Job, next: Job, move: Move, mode: Mode, policy: LocalPolicy, now: int,
                  commits: map<Text, TaskId>, more: map<Text, TaskId>)
    requires JobInv(t, job, policy, commits) && MoveEnabled(job, move, mode)
    requires (move.Begin? || move.Cancel?) ==> !Sync(job.phase)
    requires move.Begin? ==> GateKnown(t, job, move.verdict, move.response, policy, now)
    requires next == MoveJob(job, move, mode, policy, now, commits) && more == MoveCommits(t, job, move, commits)
    ensures JobInv(t, next, policy, more)
  {
    if Attempts(move) {
      AttemptMoveKeeps(t, job, next, move, mode, policy, now, commits, more);
    } else if Recovers(move) {
      RecoveryMoveKeeps(t, job, next, move, mode, policy, now, commits, more);
    } else if move.SaveReceipt? {
      ReceiptKeeps(t, job, next, policy, commits);
    } else if move.Certify? || move.Stamp? {
      CertifyKeeps(t, job, next, move, mode, policy, now, commits);
    } else if move.Cancel? {
      CancelKeeps(t, job, next, policy, commits);
    } else {
      WriteKeeps(t, job, next, move, mode, policy, now, commits);
    }
  }

  lemma MoveInRecovery(t: TaskId, job: Job, next: Job, move: Move, policy: LocalPolicy, now: int,
                       commits: map<Text, TaskId>)
    requires RecoveryPhase(job.phase) && MoveEnabled(job, move, Recovering)
    requires next == MoveJob(job, move, Recovering, policy, now, commits)
    ensures RecoveryPhase(next.phase)
  {
  }

  lemma AttemptInService(t: TaskId, job: Job, next: Job, move: Move, policy: LocalPolicy, now: int,
                         commits: map<Text, TaskId>)
    requires PhaseInv(t, job, policy, commits) && MoveEnabled(job, move, Serving) && Attempts(move)
    requires RecoveryPhase(job.phase) ==> !UnderWay(job.row.status)
    requires next == MoveJob(job, move, Serving, policy, now, commits)
    ensures RecoveryPhase(next.phase) ==> !UnderWay(next.row.status)
  {
  }

  lemma OtherMoveInService(t: TaskId, job: Job, next: Job, move: Move, policy: LocalPolicy, now: int,
                           commits: map<Text, TaskId>)
    requires PhaseInv(t, job, policy, commits) && MoveEnabled(job, move, Serving) && !Attempts(move)
    requires RecoveryPhase(job.phase) ==> !UnderWay(job.row.status)
    requires next == MoveJob(job, move, Serving, policy, now, commits)
    ensures RecoveryPhase(next.phase) ==> !UnderWay(next.row.status)
  {
  }

  lemma MoveKeepsMode(t: TaskId, job: Job, next: Job, move: Move, mode: Mode, policy: LocalPolicy, now: int,
                      commits: map<Text, TaskId>, cpu: Option<TaskId>)
    requires PhaseInv(t, job, policy, commits) && ModeInv(t, job, mode, cpu) && MoveEnabled(job, move, mode)
    requires next == MoveJob(job, move, mode, policy, now, commits)
    ensures ModeInv(t, next, mode, if Sync(next.phase) then Some(t) else None)
  {
    match mode
    case Recovering => MoveInRecovery(t, job, next, move, policy, now, commits);
    case Serving =>
      if Attempts(move) {
        AttemptInService(t, job, next, move, policy, now, commits);
      } else {
        OtherMoveInService(t, job, next, move, policy, now, commits);
      }
    case Down =>
  }

  // ----- each step, for the other tasks

  /** More commits never hurt a task that is not inside its own stretch. */
  lemma OthersKeep(u: TaskId, job: Job, policy: LocalPolicy, commits: map<Text, TaskId>, more: map<Text, TaskId>)
    requires JobInv(u, job, policy, commits) && !Sync(job.phase) && Extends(commits, more)
    ensures JobInv(u, job, policy, more)
  {
  }

  lemma CommitsGrow(t: TaskId, job: Job, move: Move, commits: map<Text, TaskId>)
    ensures Extends(commits, MoveCommits(t, job, move, commits))
  {
  }

  lemma OtherTaskKept(s: System, n: System, t: TaskId, u: TaskId)
    requires Inv(s) && u in s.jobs && u != t && u in n.jobs && n.jobs[u] == s.jobs[u]
    requires s.cpu.None? || s.cpu == Some(t)
    requires n.cpu.None? || n.cpu == Some(t)
    requires Extends(s.commits, n.commits) && n.mode == s.mode && n.policy == s.policy
    ensures TaskInv(n, u)
  {
    assert TaskInv(s, u);
    OthersKeep(u, s.jobs[u], s.policy, s.commits, n.commits);
  }

  lemma MovedTaskKept(s: System, t: TaskId, move: Move)
    requires Inv(s) && Enabled(s, Do(t, move)) && Truthful(s, Do(t, move))
    ensures TaskInv(Next(s, Do(t, move)), t)
  {
    var n := Next(s, Do(t, move));
    assert TaskInv(s, t);
    var job, next := s.jobs[t], n.jobs[t];
    if move.Begin? { GateOpens(t, job, move.verdict, move.response, s.policy, s.clock); }
    MoveKeeps(t, job, next, move, s.mode, s.policy, s.clock, s.commits, n.commits);
    MoveKeepsMode(t, job, next, move, s.mode, s.policy, s.clock, s.commits, s.cpu);
  }

  lemma DoKeepsInv(s: System, t: TaskId, move: Move)
    requires Inv(s) && Enabled(s, Do(t, move)) && Truthful(s, Do(t, move))
    ensures Inv(Next(s, Do(t, move)))
  {
    var n := Next(s, Do(t, move));
    MovedTaskKept(s, t, move);
    CommitsGrow(t, s.jobs[t], move, s.commits);
    forall u | u in n.jobs && u != t ensures TaskInv(n, u) {
      OtherTaskKept(s, n, t, u);
    }
  }

  lemma PlannedIsSound(t: TaskId, job: Job, parsed: Request, key: Option<Text>, e: Evaluation, policy: LocalPolicy,
                       commits: map<Text, TaskId>)
    requires job == PlanJob(parsed, key, e)
    ensures JobInv(t, job, policy, commits)
    ensures ModeInv(t, job, Serving, if Sync(job.phase) then Some(t) else None)
  {
  }

  lemma PlanKeepsInv(s: System, n: System, t: TaskId, job: Job)
    requires Inv(s) && s.cpu.None? && t !in s.jobs && n == Put(s, t, job)
    requires JobInv(t, job, s.policy, s.commits) && ModeInv(t, job, s.mode, if Sync(job.phase) then Some(t) else None)
    ensures Inv(n)
  {
    forall u | u in n.jobs && u != t ensures TaskInv(n, u) {
      assert TaskInv(s, u) && n.jobs[u] == s.jobs[u];
    }
  }

  lemma SurvivorKeeps(t: TaskId, job: Job, policy: LocalPolicy, commits: map<Text, TaskId>)
    requires JobInv(t, job, policy, commits)
    ensures JobInv(t, Survivor(job), policy, commits)
  {
  }

  /** A task at rest is judged again from its row, whatever the new policy. */
  lemma RestKeeps(t: TaskId, job: Job, policy: LocalPolicy, other: LocalPolicy, commits: map<Text, TaskId>)
    requires JobInv(t, job, policy, commits) && job.phase.Idle?
    ensures JobInv(t, job, other, commits)
  {
  }

  lemma ProcessKeepsInv(s: System, a: Action)
    requires Inv(s) && Enabled(s, a) && !a.Do? && !a.Plan?
    ensures Inv(Next(s, a))
  {
    var n := Next(s, a);
    forall t | t in n.jobs ensures TaskInv(n, t) {
      assert TaskInv(s, t);
      match a
      case Crash => SurvivorKeeps(t, s.jobs[t], s.policy, s.commits);
      case Restart(policy) => RestKeeps(t, s.jobs[t], s.policy, policy, s.commits);
      case _ =>
    }
  }

  lemma StepKeepsInv(s: System, a: Action)
    requires Inv(s) && Enabled(s, a) && Truthful(s, a)
    ensures Inv(Next(s, a))
  {
    match a
    case Do(t, move) => DoKeepsInv(s, t, move);
    case Plan(t, request, key, _, verdict) =>
      var parsed := WithDefaultEvidence(request);
      var job := PlanJob(parsed, key, verdict);
      PlannedIsSound(t, job, parsed, key, verdict, s.policy, s.commits);
      PlanKeepsInv(s, Next(s, a), t, job);
    case _ => ProcessKeepsInv(s, a);
  }

  lemma {:induction false} RunKeepsInv(first: System, actions: seq<Action>)
    requires Initial(first) && StateAfter(first, actions).Some?
    ensures Inv(StateAfter(first, actions).value)
  {
    if actions != [] {
      RunKeepsInv(first, actions[..|actions| - 1]);
      StepKeepsInv(StateAfter(first, actions[..|actions| - 1]).value, actions[|actions| - 1]);
    }
  }

  lemma ReachableInv(s: System)
    requires Reachable(s)
    ensures Inv(s)
  {
    var first, actions :| Initial(first) && StateAfter(first, actions) == Some(s);
    RunKeepsInv(first, actions);
  }
}
