/**
  Where one step of a task leads, said without the functions that compute it: which tasks the prefix of
  `execute` lets in, what an approval given in time does, and how a call that was cut short ends.
 */
module TaskGates {
  import opened Wrappers
  import opened Text
  import opened Protocol
  import opened Verifier
  import opened Policy
  import opened PolicyTheorems
  import opened CanonicalJson
  import opened TaskMachine
  import opened TaskSafety
  import opened TaskTheorems

  /** The result does not say that it failed. */
  predicate Unfailed(result: Json)
  {
    HasKey(result, Ascii("success")) ==> Get(result, Ascii("success")) in {Bool(true), Absent}
  }

  /** The policy in force lets the operation run, outright or with consent. */
  ghost predicate Admitted(t: TaskId, job: Job, response: Option<Response>, policy: LocalPolicy, now: int)
  {
    ShouldAllow(job.request, policy, now)
    || (ShouldConfirm(job.request, policy, now) && Consented(t, job, response, now))
  }

  predicate KeyTaken(job: Job, commits: map<Text, TaskId>)
  {
    job.row.key.Some? && job.row.key.value in commits
  }

  /** A task that has not begun and lies sealed. */
  predicate Waiting(job: Job)
  {
    job.phase.Idle? && job.sealed && (job.row.status == TaskStatus.Planned || job.row.status == TaskStatus.AwaitingApproval)
  }

  function Entered(job: Job, gate: Gate): Job
  {
    job.(row := job.row.(status := TaskStatus.Running), phase := Attempting(1, gate), aborted := false, exhausted := false)
  }

  /**
    A waiting task enters its first attempt exactly if its key is free and the operation is admitted; it is
    cancelled exactly if its key is taken, blocked exactly if the policy lets it through in no way, and left
    as it was exactly if consent is all that is missing.
   */
  lemma BeginIsExact(t: TaskId, job: Job, response: Option<Response>, policy: LocalPolicy, now: int,
                     commits: map<Text, TaskId>, next: Job)
    requires Waiting(job)
    requires next == BeginJob(job, EvaluatePolicy(t, job.request, policy, now, 0), response, policy, now, commits)
    ensures next.phase.Attempting? <==> !KeyTaken(job, commits) && Admitted(t, job, response, policy, now)
    ensures next.phase.Attempting? ==> next == Entered(job, Gate(policy, now, response))
    ensures next.row.status == TaskStatus.Cancelled <==> KeyTaken(job, commits)
    ensures next.row.status == TaskStatus.PolicyBlocked
      <==> !KeyTaken(job, commits) && !ShouldAllow(job.request, policy, now) && !ShouldConfirm(job.request, policy, now)
    ensures next == job
      <==> (!KeyTaken(job, commits) && ShouldConfirm(job.request, policy, now) && !Consented(t, job, response, now))
  {
    var e := EvaluatePolicy(t, job.request, policy, now, 0);
    OutcomesAreExact(t, job.request, policy, now, 0, e.decision.outcome);
    if ShouldConfirm(job.request, policy, now) {
      ChallengeIsForThisOperation(t, job.request, policy, now, 0);
      ValidExactlyIfAnswered(job.row.approval, response, now);
    }
  }

  /** What `plan` leaves of a task that needs approval. */
  ghost predicate PlannedAt(t: TaskId, job: Job, approvalId: nat, policy: LocalPolicy, now: int)
  {
    ShouldConfirm(job.request, policy, now)
    && job.row.approval == EvaluatePolicy(t, job.request, policy, now, approvalId).challenge
  }

  /** From plan to execution: consent is to echo what the plan said, before the time the policy gave is over. */
  lemma ConsentIsEchoInTime(t: TaskId, job: Job, approvalId: nat, policy: LocalPolicy, at: int, response: Response, now: int)
    requires PlannedAt(t, job, approvalId, policy, at)
    ensures Consented(t, job, Some(response), now)
      <==> (response == Response(approvalId, Approve(DigestOperation(t, job.request.operation)))
            && now - at < policy.approvalTtlMs)
    ensures !Consented(t, job, None, now)
  {
    ChallengeIsForThisOperation(t, job.request, policy, at, approvalId);
    assert Consented(t, job, Some(response), now) <==> Answers(job.row.approval.value, response, now);
  }

  /** A mutation planned without evidence succeeds only if its effect was the last thing seen. */
  lemma SuccessShowsTheEffect(s: System, t: TaskId, asked: Request)
    requires Reachable(s) && t in s.jobs && s.jobs[t].row.status == TaskStatus.VerifiedSuccess
    requires asked.operation.effect != Effect.Read && asked.requiredEvidence == []
    requires s.jobs[t].request == WithDefaultEvidence(asked) && !EffectsOf(asked.operation.kind).Unknown?
    ensures var h := s.jobs[t].history;
      h.After? && h.mark.Observed? && Shown(EffectsOf(asked.operation.kind), h.mark.result, h.mark.worlds)
  {
    SuccessIsProven(s, t);
    var mark := s.jobs[t].history.mark;
    if |mark.worlds| == |WithDefaultEvidence(asked).requiredEvidence| {
      DerivedEvidenceShowsTheEffect(asked, mark.result, mark.worlds);
    } else {
      DerivedEvidenceShowsTheEffect(asked, mark.result, seq(|WithDefaultEvidence(asked).requiredEvidence|, _ => map[]));
    }
  }

  predicate MayRun(command: string, policy: LocalPolicy)
  {
    command in policy.allowedCommands
    && command !in {"sh", "bash", "zsh", "fish", "cmd", "powershell", "pwsh", "osascript", "sudo", "su"}
  }

  ghost predicate MayVisit(url: Url, policy: LocalPolicy)
  {
    url.isHttp
    && (if Within(url.host, "localhost") then policy.allowLocalhost
        else exists d :: d in policy.allowedDomains && (d == "*" || Within(url.host, d)))
  }

  /** With the guardrails on, whatever an adapter was ever asked to run or to visit was listed. */
  lemma EveryCallStaysInBounds(s: System, t: TaskId, m: Mark)
    requires Reachable(s) && t in s.jobs && InHistory(m, s.jobs[t].history) && m.Called? && !m.gate.policy.unhinged
    ensures match s.jobs[t].request.operation.kind
      case TerminalKind(RunCommand, Some(command), _) => MayRun(command, m.gate.policy)
      case TerminalKind(StartCommand, Some(command), _) => MayRun(command, m.gate.policy)
      case TerminalKind(RunCommand, None, _) => false
      case TerminalKind(StartCommand, None, _) => false
      case TerminalKind(_, _, hasJob) => hasJob
      case BrowserKind(Some(url)) => MayVisit(url, m.gate.policy)
      case _ => true
  {
    EveryCallPassedTheGate(s, t, m);
    match s.jobs[t].request.operation.kind
    case TerminalKind(action, command, hasJob) => CommandsAreListed(action, command, hasJob, m.gate.policy);
    case BrowserKind(Some(url)) => HostsAreWithinDomains(url, m.gate.policy);
    case _ =>
  }

  // ----- how a call ends that did not answer

  /** The only attempt of a mutation, or the last of a read. */
  predicate LastAttempt(job: Job)
    requires job.phase.Calling?
  {
    if job.request.operation.effect == Effect.Read then job.phase.attempt > job.request.maxRetries else job.phase.attempt >= 1
  }

  /** A call that throws ends by what happened during it: its time ran out, it was cancelled, or it was the last one allowed. */
  lemma ThrowIsExact(job: Job, next: Job)
    requires job.phase.Calling? && job.phase.attempt >= 1 && next == ThrowJob(job)
    ensures job.aborted && job.exhausted ==> next == job.(phase := Receipting(TaskStatus.BudgetExhausted, false))
    ensures job.aborted && !job.exhausted ==> next == job.(phase := Receipting(TaskStatus.Cancelled, false))
    ensures !job.aborted && LastAttempt(job) ==> next == job.(phase := Receipting(TaskStatus.Failed, false))
    ensures !job.aborted && !LastAttempt(job) ==> next == job.(phase := Attempting(job.phase.attempt + 1, job.phase.gate))
  {
  }

  /** The call is made under its number, which the row keeps; a call that was aborted before is not made. */
  lemma CallIsExact(job: Job, commits: map<Text, TaskId>, next: Job)
    requires job.phase.Attempting? && next == CallJob(job, commits)
    ensures Calls(next.history) == Calls(job.history) + (if job.aborted then 0 else 1)
    ensures !job.aborted ==>
      next.phase == Calling(job.phase.attempt, job.phase.gate) && next.row == job.row.(attempts := job.phase.attempt)
    ensures job.aborted && job.exhausted ==> next == job.(phase := Receipting(TaskStatus.BudgetExhausted, false))
    ensures job.aborted && !job.exhausted ==> next == job.(phase := Receipting(TaskStatus.Cancelled, false))
  {
  }

  /** A call during which time runs out ends exhausted, one during which it is cancelled ends cancelled, if it throws then. */
  lemma AbortedCallEnds(job: Job, cause: Move, mode: Mode, policy: LocalPolicy, now: int, commits: map<Text, TaskId>, next: Job)
    requires job.phase.Calling? && job.phase.attempt >= 1 && !job.aborted && !job.exhausted
    requires cause == Expire || (cause == Cancel && mode == Serving)
    requires next == ThrowJob(MoveJob(job, cause, mode, policy, now, commits))
    ensures next.phase == Receipting(if cause == Expire then TaskStatus.BudgetExhausted else TaskStatus.Cancelled, false)
    ensures next.row == job.row
  {
  }

  /**
    A verified result is a success exactly if its key is still free, and then the key is claimed; if it was
    taken meanwhile, the end is a cancellation.
   */
  lemma CommitIsExact(t: TaskId, job: Job, commits: map<Text, TaskId>, next: Job)
    requires job.phase.Judged? && next == CommitJob(job, commits)
    ensures next.phase.Receipting? && next.phase.final ==
      if !job.phase.verified then (if Unfailed(job.phase.result) then TaskStatus.Partial else TaskStatus.Failed)
      else if KeyTaken(job, commits) then TaskStatus.Cancelled
      else TaskStatus.VerifiedSuccess
    ensures job.row.key.Some? && next.phase.final == TaskStatus.VerifiedSuccess
      ==> MoveCommits(t, job, Commit, commits) == commits[job.row.key.value := t]
    ensures next.phase.final != TaskStatus.VerifiedSuccess ==> MoveCommits(t, job, Commit, commits) == commits
  {
    NamesAreSpelled();
  }

  /** The receipt of an execution that was verified says whether its result does not say that it failed. */
  lemma ReceiptRepeatsTheResult(job: Job, commits: map<Text, TaskId>, next: Job)
    requires job.phase.Judged? && next == ReceiptJob(CommitJob(job, commits))
    ensures next.receipts == job.receipts + [Receipt(Unfailed(job.phase.result))]
    ensures next.phase.Settling? && next.phase.ids == job.row.receiptIds + [|job.receipts|]
  {
    NamesAreSpelled();
  }

  /** That of one that threw says that it failed. */
  lemma ReceiptOfAThrow(job: Job, next: Job)
    requires job.phase.Calling? && ThrowJob(job).phase.Receipting? && next == ReceiptJob(ThrowJob(job))
    ensures next.receipts == job.receipts + [Receipt(false)] && next.phase.Settling?
  {
  }

  /** The result on the certificate of a task that ended in this status. */
  predicate CertifiedAs(status: TaskStatus, result: CertificateResult)
  {
    match status
    case VerifiedSuccess => result == Success
    case Partial => result == PartialResult
    case Failed => result == Failure
    case Cancelled => result == CancelledResult
    case PolicyBlocked => result == Blocked
    case BudgetExhausted => result == Exhausted
    case _ => false
  }
}
