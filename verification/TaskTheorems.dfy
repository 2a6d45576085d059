/**
  What a maintainer may rely on, in every state that any run reaches: any interleaving of tasks, crashes at
  any durable write, restarts under any policy.
 */
module TaskTheorems {
  import opened Wrappers
  import opened Text
  import opened Protocol
  import opened Verifier
  import opened Policy
  import opened CanonicalJson
  import opened TaskMachine
  import opened TaskSafety

  /** A task whose effect is not a read calls the adapter at most once, and is never executable again. */
  lemma MutationRunsAtMostOnce(s: System, t: TaskId)
    requires Reachable(s) && t in s.jobs && Mutation(s.jobs[t].request)
    ensures Calls(s.jobs[t].history) <= 1
    ensures Calls(s.jobs[t].history) == 1 ==> !Executable(s.jobs[t].row.status)
  {
    ReachableInv(s);
    assert TaskInv(s, t);
  }

  /** Whatever a crash caught, the process that serves next reports it proven anew or in need of a person. */
  lemma InterruptedMutationIsSettled(s: System, t: TaskId)
    requires Reachable(s) && s.mode == Serving
    requires t in s.jobs && Mutation(s.jobs[t].request) && WasInterrupted(s.jobs[t].history)
    ensures var job := s.jobs[t];
      job.row.status == TaskStatus.RecoveryRequired
      || (job.row.status == TaskStatus.VerifiedSuccess && FileEvidence(job.request)
          && ProofLast(job.request, job.history) && job.history.mark.again)
  {
    ReachableInv(s);
    assert TaskInv(s, t);
  }

  /** No false success: every required predicate passed in a verification made after the adapter call. */
  lemma SuccessIsProven(s: System, t: TaskId)
    requires Reachable(s) && t in s.jobs
    ensures s.jobs[t].row.status == TaskStatus.VerifiedSuccess ==> ProofLast(s.jobs[t].request, s.jobs[t].history)
    ensures s.jobs[t].certificate.Some? && s.jobs[t].certificate.value.result == Success
        ==> Proven(s.jobs[t].request, s.jobs[t].history)
            && NamesReceipt(s.jobs[t].certificate.value.receiptIds, s.jobs[t].receipts)
  {
    ReachableInv(s);
    assert TaskInv(s, t);
  }

  // ----- idempotency

  lemma CommitRowsNeverChange(s: System, a: Action)
    requires Enabled(s, a)
    ensures Extends(s.commits, Next(s, a).commits)
  {
  }

  /** Every keyed success has a row for its key, and one that succeeded through `execute` owns it. */
  lemma KeyedSuccessHasARow(s: System, t: TaskId)
    requires Reachable(s) && t in s.jobs
    requires s.jobs[t].row.status == TaskStatus.VerifiedSuccess && s.jobs[t].row.key.Some?
    ensures s.jobs[t].row.key.value in s.commits
    ensures ProofLast(s.jobs[t].request, s.jobs[t].history)
    ensures !s.jobs[t].history.mark.again ==> s.commits[s.jobs[t].row.key.value] == t
  {
    ReachableInv(s);
    assert TaskInv(s, t);
  }

  /** Two successes through `execute` never share a key. */
  lemma ExecutedKeysAreDistinct(s: System, t: TaskId, u: TaskId)
    requires Reachable(s) && t in s.jobs && u in s.jobs
    requires s.jobs[t].row.status == TaskStatus.VerifiedSuccess && s.jobs[u].row.status == TaskStatus.VerifiedSuccess
    requires ProofLast(s.jobs[t].request, s.jobs[t].history) && !s.jobs[t].history.mark.again
    requires ProofLast(s.jobs[u].request, s.jobs[u].history) && !s.jobs[u].history.mark.again
    requires s.jobs[t].row.key.Some? && s.jobs[t].row.key == s.jobs[u].row.key
    ensures t == u
  {
    KeyedSuccessHasARow(s, t);
    KeyedSuccessHasARow(s, u);
  }

  /** Once a key is committed, a call under it can only be another attempt of a read that had begun before. */
  lemma NoCallAfterCommit(s: System, t: TaskId)
    requires Reachable(s) && Enabled(s, Do(t, Call)) && !KeyFree(s.jobs[t].row.key, s.commits)
    ensures !Mutation(s.jobs[t].request) && s.jobs[t].phase.attempt > 1
  {
    ReachableInv(s);
    assert TaskInv(s, t);
  }

  // ----- the gate

  predicate InHistory(m: Mark, h: History)
  {
    h.After? && (h.mark == m || InHistory(m, h.past))
  }

  lemma {:induction false} EveryMarkIsOk(t: TaskId, request: Request, approval: Option<Challenge>, h: History, m: Mark)
    requires MarksOk(t, request, approval, h) && InHistory(m, h)
    ensures MarkOk(t, request, approval, m)
  {
    if h.mark != m {
      EveryMarkIsOk(t, request, approval, h.past, m);
    }
  }

  /** The stored challenge is about this task and this very operation, and the response answers it in time. */
  predicate Consented(t: TaskId, job: Job, response: Option<Response>, now: int)
  {
    job.row.approval.Some? && response.Some?
    && job.row.approval.value.actionDigest == DigestOperation(t, job.request.operation)
    && response.value.approvalId == job.row.approval.value.approvalId
    && response.value.phrase == job.row.approval.value.phrase
    && now < job.row.approval.value.expiresAt
  }

  /**
    With the guardrails on, no adapter call of a mutation happened without evidence to check, every
    configured limit respected, and an approval of exactly this operation; in every mode the limits the
    request put on itself hold.
   */
  lemma EveryCallPassedTheGate(s: System, t: TaskId, m: Mark)
    requires Reachable(s) && t in s.jobs && InHistory(m, s.jobs[t].history) && m.Called?
    ensures !SelfForbidden(s.jobs[t].request)
    ensures !m.gate.policy.unhinged ==> WithinLimits(s.jobs[t].request, m.gate.policy, m.gate.at)
    ensures Mutation(s.jobs[t].request) && !m.gate.policy.unhinged
        ==> s.jobs[t].request.requiredEvidence != [] && Consented(t, s.jobs[t], m.gate.response, m.gate.at)
    ensures m.attempt == 1 ==> m.keyFree
  {
    ReachableInv(s);
    assert TaskInv(s, t);
    var job := s.jobs[t];
    EveryMarkIsOk(t, job.request, job.row.approval, job.history, m);
    var e := EvaluatePolicy(t, job.request, m.gate.policy, m.gate.at, 0);
    OutcomesAreExact(t, job.request, m.gate.policy, m.gate.at, 0, e.decision.outcome);
  }

  /** The policy a call was judged under is the one in force when the call is made. */
  lemma GateIsCurrent(s: System, t: TaskId)
    requires Reachable(s) && Enabled(s, Do(t, Call))
    ensures s.jobs[t].phase.gate.policy == s.policy
  {
    ReachableInv(s);
    assert TaskInv(s, t);
  }

  // ----- what stays

  predicate Terminal(status: TaskStatus)
  {
    Ending(status) || status == TaskStatus.RecoveryRequired
  }

  lemma MoveKeepsTerminal(t: TaskId, job: Job, move: Move, mode: Mode, policy: LocalPolicy, now: int,
                          commits: map<Text, TaskId>)
    requires PhaseInv(t, job, policy, commits) && MoveEnabled(job, move, mode) && Terminal(job.row.status)
    ensures MoveJob(job, move, mode, policy, now, commits).row.status == job.row.status
  {
  }

  lemma MoveKeepsSuccessCertificate(t: TaskId, job: Job, move: Move, mode: Mode, policy: LocalPolicy, now: int,
                                    commits: map<Text, TaskId>)
    requires JobInv(t, job, policy, commits) && MoveEnabled(job, move, mode)
    requires job.certificate.Some? && job.certificate.value.result == Success
    ensures var next := MoveJob(job, move, mode, policy, now, commits);
      next.certificate.Some? && next.certificate.value.result == Success
  {
  }

  predicate CertifiedSuccess(s: System, t: TaskId)
  {
    t in s.jobs && s.jobs[t].certificate.Some? && s.jobs[t].certificate.value.result == Success
  }

  lemma MoveKeepsEndings(s: System, t: TaskId, move: Move)
    requires Inv(s) && Enabled(s, Do(t, move))
    ensures var next := Next(s, Do(t, move));
      t in next.jobs
      && (Terminal(s.jobs[t].row.status) ==> next.jobs[t].row.status == s.jobs[t].row.status)
      && (CertifiedSuccess(s, t) ==> CertifiedSuccess(next, t))
  {
    assert TaskInv(s, t);
    var job := s.jobs[t];
    if Terminal(job.row.status) {
      MoveKeepsTerminal(t, job, move, s.mode, s.policy, s.clock, s.commits);
    }
    if CertifiedSuccess(s, t) {
      MoveKeepsSuccessCertificate(t, job, move, s.mode, s.policy, s.clock, s.commits);
    }
  }

  lemma OthersKeepEndings(s: System, a: Action, t: TaskId)
    requires Enabled(s, a) && t in s.jobs && !(a.Do? && a.t == t)
    ensures t in Next(s, a).jobs
    ensures Next(s, a).jobs[t].row == s.jobs[t].row && Next(s, a).jobs[t].certificate == s.jobs[t].certificate
  {
  }

  /** No step, crash or recovery changes a status that a task ended in, or takes a certificate of success back. */
  lemma EndingsAreFinal(s: System, a: Action, t: TaskId)
    requires Reachable(s) && Enabled(s, a) && t in s.jobs
    ensures t in Next(s, a).jobs
    ensures Terminal(s.jobs[t].row.status) ==> Next(s, a).jobs[t].row.status == s.jobs[t].row.status
    ensures CertifiedSuccess(s, t) ==> CertifiedSuccess(Next(s, a), t)
  {
    ReachableInv(s);
    if a.Do? && a.t == t {
      MoveKeepsEndings(s, t, a.move);
    } else {
      OthersKeepEndings(s, a, t);
    }
  }

  // ----- an ended task without a certificate

  predicate Uncertified(s: System, t: TaskId)
  {
    t in s.jobs && s.jobs[t].phase.Idle? && Terminal(s.jobs[t].row.status) && s.jobs[t].certificate.None?
  }

  lemma MoveKeepsUncertified(job: Job, move: Move, mode: Mode, policy: LocalPolicy, now: int, commits: map<Text, TaskId>)
    requires MoveEnabled(job, move, mode) && job.phase.Idle? && Terminal(job.row.status)
    ensures MoveJob(job, move, mode, policy, now, commits) == job
  {
  }

  /** A certificate that an idle ended task lacks is written by no later step. */
  lemma LostCertificateStaysLost(s: System, a: Action, t: TaskId)
    requires Enabled(s, a) && Uncertified(s, t)
    ensures Uncertified(Next(s, a), t)
  {
    if a.Do? && a.t == t {
      MoveKeepsUncertified(s.jobs[t], a.move, s.mode, s.policy, s.clock, s.commits);
    }
  }
}
