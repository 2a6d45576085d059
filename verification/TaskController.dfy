/**
  `TaskController` of packages/runtime-core/src/task-controller.ts as code: `execute`, `cancel` and
  `recoverInterrupted` make the steps of the task machine one after the other. What happens at an await is
  given by the caller: what the adapter answers, what the verifier sees, and which steps of other activities
  run in the meantime.
 */
module TaskControllers {
  import opened Wrappers
  import opened Text
  import opened Protocol
  import opened Verifier
  import opened Policy
  import opened CanonicalJson
  import opened TaskMachine
  import opened TaskSafety
  import opened TaskTheorems
  import opened TaskGates
  import opened PolicyTheorems

  /** What an activity other than the execution of `t` may do while that execution awaits. */
  predicate Foreign(a: Action, t: TaskId)
  {
    match a
    case Tick(_) => true
    case Plan(_, _, _, _, _) => true
    case Do(u, move) => u != t || move.Cancel? || move.Expire?
    case _ => false
  }

  /** The same task, except perhaps for its abort flags. */
  predicate SameButFlags(job: Job, other: Job)
  {
    other == job.(aborted := other.aborted, exhausted := other.exhausted)
  }

  /** Every awaited answer of one execution. */
  datatype Script = Script(
    circuitOpen: bool,
    answers: seq<Option<Json>>,
    sights: seq<World>,
    meanwhile: seq<Action>)

  /** Ended, and certified with the result that its status stands for. */
  predicate Closed(job: Job)
  {
    job.phase.Idle? && Ending(job.row.status) && job.row.certified
    && job.certificate.Some? && CertifiedAs(job.row.status, job.certificate.value.result)
  }

  /** The catch branch was taken. */
  predicate Thrown(phase: Phase)
  {
    phase.Receipting? && phase.final != TaskStatus.VerifiedSuccess
  }

  lemma StampedIsClosed(job: Job, certified: Job, next: Job)
    requires job.phase.Certifying? && Ending(job.phase.final)
    requires certified == job.(certificate := Some(Certificate(ResultOf(job.phase.final), job.phase.ids)),
                               phase := Stamping(job.phase.final, job.phase.ids))
    requires next == StampJob(certified)
    ensures Closed(next) && next.row.status == job.phase.final && next.history == job.history
  {
  }

  function AttemptsLeft(job: Job): nat
  {
    if job.phase.Attempting? && job.phase.attempt <= MaximumAttempts(job.request)
    then MaximumAttempts(job.request) + 1 - job.phase.attempt
    else 0
  }

  /** What one attempt leads to. */
  predicate AfterAttempt(job: Job, attempt: nat)
  {
    Thrown(job.phase) || job.phase.Answered?
    || (job.phase.Attempting? && job.phase.attempt == attempt + 1 <= MaximumAttempts(job.request))
  }

  /** The answer to attempt `n`, counted from one; the adapter throws where there is none. */
  function AnswerAt(answers: seq<Option<Json>>, n: nat): Option<Json>
  {
    if 0 < n <= |answers| then answers[n - 1] else None
  }

  /** The first result among the attempts from `n` on, up to the last one allowed. */
  function FirstAnswer(answers: seq<Option<Json>>, n: nat, most: nat): Option<Json>
    decreases most + 1 - n
  {
    if n > most then None
    else if AnswerAt(answers, n).Some? then AnswerAt(answers, n)
    else FirstAnswer(answers, n + 1, most)
  }

  /** Where an answer leads that no cancellation or timeout precedes. */
  function Answering(phase: Phase, request: Request, answer: Option<Json>): Phase
    requires phase.Attempting? || phase.Calling?
  {
    match answer
    case Some(result) => Answered(result)
    case None =>
      if phase.attempt >= MaximumAttempts(request) then Receipting(TaskStatus.Failed, false)
      else Attempting(phase.attempt + 1, phase.gate)
  }

  function AfterRetries(answer: Option<Json>): Phase
  {
    match answer
    case Some(result) => Answered(result)
    case None => Receipting(TaskStatus.Failed, false)
  }

  /** Nothing came in between: no abort, no commit, the same task. */
  predicate Undisturbed(before: System, after: System, t: TaskId)
    requires t in before.jobs && t in after.jobs
  {
    !after.jobs[t].aborted && after.commits == before.commits
    && after.jobs[t].request == before.jobs[t].request && after.jobs[t].row.key == before.jobs[t].row.key
  }

  /** The retries still lead to the given answer. */
  predicate Promises(job: Job, answers: seq<Option<Json>>, answer: Option<Json>)
  {
    if job.phase.Attempting?
    then job.phase.attempt > 0 && FirstAnswer(answers, job.phase.attempt, MaximumAttempts(job.request)) == answer
    else job.phase == AfterRetries(answer)
  }

  lemma RetryKeepsPromise(job: Job, next: Job, answers: seq<Option<Json>>, answer: Option<Json>)
    requires job.phase.Attempting? && AttemptsLeft(job) > 0 && Promises(job, answers, answer)
    requires next.request == job.request
    requires next.phase == Answering(job.phase, job.request, AnswerAt(answers, job.phase.attempt))
    ensures Promises(next, answers, answer)
  {
    var n, most := job.phase.attempt, MaximumAttempts(job.request);
    assert n + 1 > most ==> FirstAnswer(answers, n + 1, most) == None;
  }

  function Verdict(request: Request, result: Json, sights: seq<World>, keyFree: bool): TaskStatus
  {
    if Satisfied(request, result, sights) then
      (if keyFree then TaskStatus.VerifiedSuccess else TaskStatus.Cancelled)
    else if Succeeded(result) then TaskStatus.Partial
    else TaskStatus.Failed
  }

  /** What an undisturbed execution makes of its script once it has begun. */
  function Performed(request: Request, script: Script, keyFree: bool): TaskStatus
  {
    if script.circuitOpen then TaskStatus.Failed
    else match FirstAnswer(script.answers, 1, MaximumAttempts(request))
      case None => TaskStatus.Failed
      case Some(result) => Verdict(request, result, script.sights, keyFree)
  }

  /** The status an undisturbed execution ends in. */
  function Expected(job: Job, verdict: Evaluation, response: Option<Response>, script: Script, now: int,
                    commits: map<Text, TaskId>): TaskStatus
  {
    if !Executable(job.row.status) then job.row.status
    else if !KeyFree(job.row.key, commits) then TaskStatus.Cancelled
    else if !job.sealed then job.row.status
    else if verdict.decision.outcome == Deny then TaskStatus.PolicyBlocked
    else if !Approved(job.row.approval, verdict, response, now) then job.row.status
    else Performed(job.request, script, true)
  }

  // ----- what an undisturbed execution comes to

  function AttemptsAllowed(request: Request): nat
  {
    if request.operation.effect == Effect.Read then 1 + request.maxRetries else 1
  }

  /** Call `n` was the first that did not throw. */
  ghost predicate AnsweredFirst(answers: seq<Option<Json>>, n: nat)
  {
    1 <= n <= |answers| && answers[n - 1].Some? && forall m :: 0 <= m < n - 1 ==> answers[m].None?
  }

  /** The adapter answered within the attempts allowed, and this is what it answered. */
  ghost predicate Yields(request: Request, script: Script, result: Json)
  {
    !script.circuitOpen
    && exists n: nat :: n <= AttemptsAllowed(request) && AnsweredFirst(script.answers, n) && script.answers[n - 1] == Some(result)
  }

  ghost predicate Evident(request: Request, result: Json, sights: seq<World>)
    requires |sights| == |request.requiredEvidence|
  {
    forall i :: 0 <= i < |sights| ==> Passes(request.requiredEvidence[i], result, sights[i])
  }

  lemma {:induction false} FirstAnswerFrom(answers: seq<Option<Json>>, n: nat, most: nat, result: Json)
    requires n >= 1 && forall m :: 0 <= m < n - 1 && m < |answers| ==> answers[m].None?
    ensures FirstAnswer(answers, n, most) == Some(result)
      <==> exists k: nat :: k <= most && AnsweredFirst(answers, k) && answers[k - 1] == Some(result)
    decreases most + 1 - n
  {
    if n <= most && AnswerAt(answers, n).None? {
      FirstAnswerFrom(answers, n + 1, most, result);
    } else if n <= most {
      assert AnsweredFirst(answers, n);
    }
  }

  /** An answer that does not say it failed, with every required predicate passed at its own look. */
  ghost predicate Achieves(request: Request, script: Script)
    requires |script.sights| == |request.requiredEvidence|
  {
    exists result :: Yields(request, script, result) && Unfailed(result) && Evident(request, result, script.sights)
  }

  /** Such an answer, but some predicate did not pass. */
  ghost predicate FallsShort(request: Request, script: Script)
    requires |script.sights| == |request.requiredEvidence|
  {
    exists result :: Yields(request, script, result) && Unfailed(result) && !Evident(request, result, script.sights)
  }

  lemma SatisfiedIsEvident(request: Request, result: Json, sights: seq<World>)
    requires |sights| == |request.requiredEvidence|
    ensures Succeeded(result) <==> Unfailed(result)
    ensures Satisfied(request, result, sights) <==> Unfailed(result) && Evident(request, result, sights)
  {
    NamesAreSpelled();
  }

  lemma YieldsOne(request: Request, script: Script, result: Json, other: Json)
    requires Yields(request, script, result) && Yields(request, script, other)
    ensures result == other
  {
  }

  lemma PerformedIsExact(request: Request, script: Script)
    requires |script.sights| == |request.requiredEvidence|
    ensures Performed(request, script, true) == TaskStatus.VerifiedSuccess <==> Achieves(request, script)
    ensures Performed(request, script, true) == TaskStatus.Partial <==> FallsShort(request, script)
    ensures Performed(request, script, true) in {TaskStatus.VerifiedSuccess, TaskStatus.Partial, TaskStatus.Failed}
  {
    var answer := FirstAnswer(script.answers, 1, MaximumAttempts(request));
    forall result ensures Yields(request, script, result) <==> !script.circuitOpen && answer == Some(result) {
      FirstAnswerFrom(script.answers, 1, MaximumAttempts(request), result);
    }
    if answer.Some? {
      SatisfiedIsEvident(request, answer.value, script.sights);
    }
  }

  /**
    A waiting task that is executed without disturbance: it runs exactly if its key is free and it is
    admitted, and what it then ends in says exactly what the adapter answered and the verifier saw.
   */
  lemma ExpectedIsExact(t: TaskId, job: Job, response: Option<Response>, script: Script, policy: LocalPolicy, now: int,
                        commits: map<Text, TaskId>, final: TaskStatus)
    requires Waiting(job) && |script.sights| == |job.request.requiredEvidence|
    requires final == Expected(job, EvaluatePolicy(t, job.request, policy, now, 0), response, script, now, commits)
    ensures Settles(t, job, response, script, policy, now, commits, final)
  {
    var next := BeginJob(job, EvaluatePolicy(t, job.request, policy, now, 0), response, policy, now, commits);
    BeginIsExact(t, job, response, policy, now, commits, next);
    BeginEnters(job, next, EvaluatePolicy(t, job.request, policy, now, 0), response, policy, now, commits, script);
    PerformedIsExact(job.request, script);
  }

  ghost predicate Settles(t: TaskId, job: Job, response: Option<Response>, script: Script, policy: LocalPolicy, now: int,
                          commits: map<Text, TaskId>, final: TaskStatus)
    requires |script.sights| == |job.request.requiredEvidence|
  {
    var runs := !KeyTaken(job, commits) && Admitted(t, job, response, policy, now);
    && (final == TaskStatus.VerifiedSuccess <==> runs && Achieves(job.request, script))
    && (final == TaskStatus.Partial <==> runs && FallsShort(job.request, script))
    && (final == TaskStatus.Failed <==> runs && !Achieves(job.request, script) && !FallsShort(job.request, script))
    && (final == TaskStatus.Cancelled <==> KeyTaken(job, commits))
    && (final == TaskStatus.PolicyBlocked
        <==> !KeyTaken(job, commits) && !ShouldAllow(job.request, policy, now) && !ShouldConfirm(job.request, policy, now))
    && (final == job.row.status
        <==> !KeyTaken(job, commits) && ShouldConfirm(job.request, policy, now) && !Consented(t, job, response, now))
  }

  predicate AtFirstAttempt(phase: Phase)
  {
    phase.Attempting? && phase.attempt == 1
  }

  predicate TurnedAway(phase: Phase)
  {
    phase.Certifying? && phase.final != TaskStatus.VerifiedSuccess
  }

  predicate SeenThrough(job: Job, sights: seq<World>)
  {
    job.history.After? && job.history.mark.Observed? && job.history.mark.worlds == sights
  }

  /** The prefix refuses, turns away, or lets in. */
  lemma BeginEnters(job: Job, next: Job, verdict: Evaluation, response: Option<Response>, policy: LocalPolicy, now: int,
                    commits: map<Text, TaskId>, script: Script)
    requires job.phase.Idle? && next == BeginJob(job, verdict, response, policy, now, commits)
    ensures next.request == job.request && next.row.key == job.row.key
    ensures !Sync(next.phase) ==> next == job && Expected(job, verdict, response, script, now, commits) == job.row.status
    ensures Sync(next.phase) ==> (AtFirstAttempt(next.phase) && !next.aborted) || TurnedAway(next.phase)
    ensures TurnedAway(next.phase) ==> Expected(job, verdict, response, script, now, commits) == next.phase.final
    ensures AtFirstAttempt(next.phase) ==> KeyFree(job.row.key, commits)
    ensures AtFirstAttempt(next.phase) ==>
      Expected(job, verdict, response, script, now, commits) == Performed(job.request, script, true)
  {
  }

  ghost predicate OnlyTouches(before: map<TaskId, Job>, after: map<TaskId, Job>, t: TaskId)
  {
    t in before && after.Keys == before.Keys && forall u :: u in before && u != t ==> after[u] == before[u]
  }

  /** Where `recoverInterrupted` takes a task, given what the verifier sees for it. */
  function Reconciled(job: Job, sights: seq<World>): TaskStatus
  {
    if !UnderWay(job.row.status) then job.row.status
    else if !Mutation(job.request) then TaskStatus.Planned
    else if job.row.status == TaskStatus.Verifying && FileEvidence(job.request) && Satisfied(job.request, EMPTY, sights)
    then TaskStatus.VerifiedSuccess
    else TaskStatus.RecoveryRequired
  }

  /** `listInterruptedTasks` */
  function InterruptedTasks(jobs: map<TaskId, Job>): set<TaskId>
  {
    set t | t in jobs && UnderWay(jobs[t].row.status)
  }

  ghost predicate AllLooked(jobs: map<TaskId, Job>, looks: map<TaskId, seq<World>>)
  {
    forall t :: t in jobs ==> t in looks && |looks[t]| == |jobs[t].request.requiredEvidence|
  }

  /** Tasks that are still left are as they were; the others are reconciled, or were not interrupted at all. */
  ghost predicate AllReconciled(before: map<TaskId, Job>, after: map<TaskId, Job>, looks: map<TaskId, seq<World>>,
                                left: set<TaskId>)
    requires AllLooked(before, looks)
  {
    after.Keys == before.Keys
    && forall t :: t in before ==>
        (t in left || !UnderWay(before[t].row.status) ==> after[t] == before[t])
        && (t !in left ==> after[t].row.status == Reconciled(before[t], looks[t]))
  }

  lemma OneLessInterrupted(mid: map<TaskId, Job>, after: map<TaskId, Job>, t: TaskId)
    requires OnlyTouches(mid, after, t) && !UnderWay(after[t].row.status)
    ensures InterruptedTasks(mid) - {t} == InterruptedTasks(after)
  {
  }

  lemma OneMoreReconciled(before: map<TaskId, Job>, mid: map<TaskId, Job>, after: map<TaskId, Job>,
                          looks: map<TaskId, seq<World>>, left: set<TaskId>, t: TaskId)
    requires AllLooked(before, looks) && AllReconciled(before, mid, looks, left) && t in left && t in before
    requires OnlyTouches(mid, after, t) && after[t].row.status == Reconciled(mid[t], looks[t])
    requires UnderWay(mid[t].row.status)
    ensures AllReconciled(before, after, looks, left - {t})
  {
    assert mid[t] == before[t];
  }

  class TaskController {
    var s: System
    ghost const first: System
    ghost var trace: seq<Action>

    /** The controller is where the machine is after the steps it took. */
    ghost predicate Valid()
      reads this
    {
      Initial(first) && StateAfter(first, trace) == Some(s)
    }

    ghost predicate Ready(t: TaskId)
      reads this
    {
      Valid() && s.mode == Serving && t in s.jobs
    }

    constructor (policy: LocalPolicy, now: int)
      ensures Valid() && s.mode == Down && s.jobs == map[] && s.policy == policy
    {
      var start := System(Down, policy, now, map[], map[], None);
      s, first, trace := start, start, [];
    }

    /** One step of the machine. */
    method Step(a: Action)
      requires Valid() && Enabled(s, a) && Truthful(s, a)
      modifies this
      ensures Valid() && s == Next(old(s), a) && trace == old(trace) + [a]
    {
      trace := trace + [a];
      assert trace[..|trace| - 1] == old(trace);
      s := Next(s, a);
    }

    /** One step of one task: the row it changes, and nothing else of any task. */
    method Turn(t: TaskId, move: Move)
      requires Valid() && t in s.jobs && !move.Begin? && MoveEnabled(s.jobs[t], move, s.mode)
      requires s.cpu.None? || (s.cpu == Some(t) && !move.Cancel?)
      modifies this
      ensures Valid() && s.mode == old(s.mode) && s.policy == old(s.policy)
      ensures OnlyTouches(old(s).jobs, s.jobs, t)
      ensures s.jobs[t] == MoveJob(old(s.jobs[t]), move, old(s.mode), old(s.policy), old(s.clock), old(s.commits))
      ensures s.cpu == if Sync(s.jobs[t].phase) then Some(t) else None
      ensures s.commits == MoveCommits(t, old(s.jobs[t]), move, old(s.commits))
    {
      Step(Do(t, move));
    }

    /** `plan`: the row, then the sealed payload, unless the policy blocked the task. */
    method PlanTask(t: TaskId, request: Request, key: Option<Text>, approvalId: nat)
      requires Valid() && s.mode == Serving && s.cpu.None? && t !in s.jobs
      modifies this
      ensures Ready(t) && s.cpu.None? && s.jobs[t].phase.Idle? && s.jobs[t].request == WithDefaultEvidence(request)
      ensures s.jobs[t].sealed <==> Executable(s.jobs[t].row.status)
      ensures !s.jobs[t].sealed ==> s.jobs[t].row.status == TaskStatus.PolicyBlocked
      ensures s.jobs[t].history == Start && s.jobs[t].row.key == key
      ensures s.jobs[t].row.status == TaskStatus.Planned
              <==> ShouldAllow(WithDefaultEvidence(request), old(s.policy), old(s.clock))
      ensures s.jobs[t].row.status == TaskStatus.AwaitingApproval
              <==> ShouldConfirm(WithDefaultEvidence(request), old(s.policy), old(s.clock))
      ensures s.jobs[t].row.status == TaskStatus.AwaitingApproval ==>
          PlannedAt(t, s.jobs[t], approvalId, old(s.policy), old(s.clock))
    {
      var verdict := EvaluatePolicy(t, WithDefaultEvidence(request), s.policy, s.clock, approvalId);
      OutcomesAreExact(t, WithDefaultEvidence(request), s.policy, s.clock, approvalId, verdict.decision.outcome);
      Step(Plan(t, request, key, approvalId, verdict));
      if s.jobs[t].phase.Sealing? {
        Turn(t, Seal);
      }
    }

    /** The execution of `t` awaits; it goes on once no other stretch is under way. */
    method Await(t: TaskId, meanwhile: seq<Action>) returns (resumed: bool)
      requires Ready(t) && s.cpu.None? && (s.jobs[t].phase.Calling? || s.jobs[t].phase.Observing?)
      modifies this
      ensures Ready(t) && s.policy == old(s.policy) && SameButFlags(old(s.jobs[t]), s.jobs[t])
      ensures resumed <==> s.cpu.None?
      ensures meanwhile == [] ==> s == old(s)
    {
      for i := 0 to |meanwhile|
        invariant Ready(t) && s.policy == old(s.policy) && SameButFlags(old(s.jobs[t]), s.jobs[t])
        invariant s.cpu != Some(t) && (meanwhile == [] ==> s == old(s))
      {
        if Foreign(meanwhile[i], t) && Enabled(s, meanwhile[i]) && Truthful(s, meanwhile[i]) {
          Step(meanwhile[i]);
        }
      }
      resumed := s.cpu.None?;
    }

    lemma Known(t: TaskId)
      requires Valid() && t in s.jobs
      ensures TaskInv(s, t)
    {
      RunKeepsInv(first, trace);
    }

    /** `createAndSaveCertificate`: the certificate, then the row that names it. */
    method SaveCertificate(t: TaskId)
      requires Ready(t) && s.jobs[t].phase.Certifying? && s.cpu == Some(t)
      modifies this
      ensures Ready(t) && s.cpu.None? && Closed(s.jobs[t])
      ensures s.jobs[t].row.status == old(s.jobs[t].phase.final) && s.jobs[t].history == old(s.jobs[t].history)
    {
      Known(t);
      Turn(t, Certify);
      ghost var certified := s.jobs[t];
      Turn(t, Stamp);
      StampedIsClosed(old(s.jobs[t]), certified, s.jobs[t]);
    }

    /** The common end of both branches of `execute`: receipt, row, certificate, row. */
    method Close(t: TaskId)
      requires Ready(t) && s.jobs[t].phase.Receipting? && s.cpu == Some(t)
      modifies this
      ensures Ready(t) && s.cpu.None? && Closed(s.jobs[t])
      ensures s.jobs[t].row.status == old(s.jobs[t].phase.final) && s.jobs[t].history == old(s.jobs[t].history)
    {
      Turn(t, SaveReceipt);
      Turn(t, Settle);
      SaveCertificate(t);
    }

    /** One attempt: save its number, call, and at the answer go on, try again or give up. */
    method Attempt(t: TaskId, answers: seq<Option<Json>>, meanwhile: seq<Action>) returns (resumed: bool)
      requires Ready(t) && s.jobs[t].phase.Attempting? && s.cpu == Some(t)
      modifies this
      ensures Ready(t) && s.jobs[t].request == old(s.jobs[t].request)
      ensures resumed ==> s.cpu == Some(t) && AfterAttempt(s.jobs[t], old(s.jobs[t].phase.attempt))
      ensures meanwhile == [] && !old(s.jobs[t].aborted) ==>
        resumed && Undisturbed(old(s), s, t)
        && s.jobs[t].phase == Answering(old(s.jobs[t].phase), s.jobs[t].request, AnswerAt(answers, old(s.jobs[t].phase.attempt)))
    {
      var n := s.jobs[t].phase.attempt;
      Turn(t, Call);
      if s.jobs[t].phase.Calling? {
        var back := Await(t, meanwhile);
        if !back {
          return false;
        }
        Answer(t, AnswerAt(answers, n));
      }
      resumed := true;
    }

    /** The adapter returns a result, or throws. */
    method Answer(t: TaskId, answer: Option<Json>)
      requires Ready(t) && s.jobs[t].phase.Calling? && s.cpu.None?
      modifies this
      ensures Ready(t) && s.jobs[t].request == old(s.jobs[t].request) && s.cpu == Some(t)
      ensures AfterAttempt(s.jobs[t], old(s.jobs[t].phase.attempt))
      ensures !old(s.jobs[t].aborted) ==>
        Undisturbed(old(s), s, t) && s.jobs[t].phase == Answering(old(s.jobs[t].phase), s.jobs[t].request, answer)
    {
      match answer {
        case Some(result) => Turn(t, Return(result));
        case None => Turn(t, Throw);
      }
    }

    /** `executeWithRetries`: one attempt for a mutation, a bounded number for a read. */
    method ExecuteWithRetries(t: TaskId, answers: seq<Option<Json>>, meanwhile: seq<Action>) returns (resumed: bool)
      requires Ready(t) && AtFirstAttempt(s.jobs[t].phase) && s.cpu == Some(t)
      modifies this
      ensures Ready(t) && s.jobs[t].request == old(s.jobs[t].request)
      ensures resumed ==> s.cpu == Some(t) && (s.jobs[t].phase.Answered? || Thrown(s.jobs[t].phase))
      ensures meanwhile == [] && !old(s.jobs[t].aborted) ==>
        resumed && Undisturbed(old(s), s, t)
        && s.jobs[t].phase == AfterRetries(FirstAnswer(answers, 1, MaximumAttempts(s.jobs[t].request)))
    {
      resumed := true;
      ghost var calm := meanwhile == [] && !s.jobs[t].aborted;
      ghost var answer := FirstAnswer(answers, 1, MaximumAttempts(s.jobs[t].request));
      while s.jobs[t].phase.Attempting?
        invariant resumed && Ready(t) && s.cpu == Some(t) && s.jobs[t].request == old(s.jobs[t].request)
        invariant Thrown(s.jobs[t].phase) || s.jobs[t].phase.Answered? || AttemptsLeft(s.jobs[t]) > 0
        invariant calm ==> Undisturbed(old(s), s, t) && Promises(s.jobs[t], answers, answer)
        decreases AttemptsLeft(s.jobs[t])
      {
        ghost var before := s.jobs[t];
        resumed := Attempt(t, answers, meanwhile);
        if !resumed {
          return;
        }
        if calm {
          RetryKeepsPromise(before, s.jobs[t], answers, answer);
        }
      }
    }

    /** Save the result, verify it, claim the key. */
    method VerifyResult(t: TaskId, sights: seq<World>, meanwhile: seq<Action>) returns (resumed: bool)
      requires Ready(t) && s.jobs[t].phase.Answered? && s.cpu == Some(t)
      requires |sights| == |s.jobs[t].request.requiredEvidence|
      modifies this
      ensures Ready(t)
      ensures resumed ==> s.cpu == Some(t) && s.jobs[t].phase.Receipting? && SeenThrough(s.jobs[t], sights)
      ensures meanwhile == [] ==>
        resumed && s.jobs[t].phase.final ==
          Verdict(old(s.jobs[t].request), old(s.jobs[t].phase.result), sights, KeyFree(old(s.jobs[t].row.key), old(s.commits)))
    {
      Turn(t, SaveResult);
      resumed := Await(t, meanwhile);
      if resumed {
        Turn(t, Observe(sights));
        Turn(t, Commit);
      }
    }

    /** The prefix of `execute`: no await, and where it throws, nothing has changed. */
    method Enter(t: TaskId, response: Option<Response>, verdict: Evaluation)
      requires Ready(t) && s.cpu.None? && s.jobs[t].phase.Idle? && Rechecked(s, t, verdict)
      modifies this
      ensures Ready(t) && s.commits == old(s.commits)
      ensures s.jobs[t] == BeginJob(old(s.jobs[t]), verdict, response, old(s.policy), old(s.clock), old(s.commits))
      ensures s.cpu == if Sync(s.jobs[t].phase) then Some(t) else None
    {
      Step(Do(t, Begin(verdict, response)));
    }

    /** What `execute` does between its prefix and its end: short circuit, or attempts and verification. */
    method Perform(t: TaskId, script: Script) returns (resumed: bool)
      requires Ready(t) && AtFirstAttempt(s.jobs[t].phase) && s.cpu == Some(t)
      requires |script.sights| == |s.jobs[t].request.requiredEvidence|
      modifies this
      ensures Ready(t)
      ensures resumed ==> s.cpu == Some(t) && s.jobs[t].phase.Receipting?
      ensures resumed && s.jobs[t].phase.final == TaskStatus.VerifiedSuccess ==> SeenThrough(s.jobs[t], script.sights)
      ensures script.meanwhile == [] && !old(s.jobs[t].aborted) ==> resumed
      ensures script.meanwhile == [] && !old(s.jobs[t].aborted) ==>
        s.jobs[t].phase.final == Performed(old(s.jobs[t].request), script, KeyFree(old(s.jobs[t].row.key), old(s.commits)))
    {
      if script.circuitOpen {
        Turn(t, ShortCircuit);
        return true;
      }
      resumed := ExecuteWithRetries(t, script.answers, script.meanwhile);
      if resumed && s.jobs[t].phase.Answered? {
        resumed := VerifyResult(t, script.sights, script.meanwhile);
      }
    }

    /**
      `execute`. Unless the schedule leaves it awaiting, it either refuses the task without a trace or ends
      and certifies it; as a success only with the sights it was given as the last thing seen. If nothing
      else happens at its awaits, the status it ends in is the expected one.
     */
    method Execute(t: TaskId, response: Option<Response>, script: Script) returns (finished: bool)
      requires Ready(t) && s.cpu.None? && s.jobs[t].phase.Idle?
      requires |script.sights| == |s.jobs[t].request.requiredEvidence|
      modifies this
      ensures Ready(t)
      ensures finished ==> s.cpu.None? && (s.jobs[t] == old(s.jobs[t]) || Closed(s.jobs[t]))
      ensures finished && s.jobs[t].row.status == TaskStatus.VerifiedSuccess && s.jobs[t] != old(s.jobs[t])
        ==> SeenThrough(s.jobs[t], script.sights)
      ensures script.meanwhile == [] ==> finished
      ensures script.meanwhile == [] ==>
        s.jobs[t].row.status == Expected(old(s.jobs[t]), EvaluatePolicy(t, old(s.jobs[t].request), old(s.policy), old(s.clock), 0),
                                            response, script, old(s.clock), old(s.commits))
      ensures script.meanwhile == [] && Waiting(old(s.jobs[t])) ==>
        Settles(t, old(s.jobs[t]), response, script, old(s.policy), old(s.clock), old(s.commits), s.jobs[t].row.status)
    {
      finished := ExecuteJudged(t, response, script, EvaluatePolicy(t, s.jobs[t].request, s.policy, s.clock, 0));
      if script.meanwhile == [] && Waiting(old(s.jobs[t])) {
        ExpectedIsExact(t, old(s.jobs[t]), response, script, old(s.policy), old(s.clock), old(s.commits), s.jobs[t].row.status);
      }
    }

    method ExecuteJudged(t: TaskId, response: Option<Response>, script: Script, verdict: Evaluation) returns (finished: bool)
      requires Ready(t) && s.cpu.None? && s.jobs[t].phase.Idle? && Rechecked(s, t, verdict)
      requires |script.sights| == |s.jobs[t].request.requiredEvidence|
      modifies this
      ensures Ready(t)
      ensures finished ==> s.cpu.None? && (s.jobs[t] == old(s.jobs[t]) || Closed(s.jobs[t]))
      ensures finished && s.jobs[t].row.status == TaskStatus.VerifiedSuccess && s.jobs[t] != old(s.jobs[t])
        ==> SeenThrough(s.jobs[t], script.sights)
      ensures script.meanwhile == [] ==> finished
      ensures script.meanwhile == [] ==>
        s.jobs[t].row.status == Expected(old(s.jobs[t]), verdict, response, script, old(s.clock), old(s.commits))
    {
      Enter(t, response, verdict);
      BeginEnters(old(s.jobs[t]), s.jobs[t], verdict, response, old(s.policy), old(s.clock), old(s.commits), script);
      if s.cpu.None? {
        return true;
      }
      if s.jobs[t].phase.Certifying? {
        SaveCertificate(t);
        return true;
      }
      finished := Perform(t, script);
      if finished {
        Close(t);
      }
    }

    /** `cancel`: an execution under way is asked to stop, a task that has not begun is cancelled, any other is left alone. */
    method CancelTask(t: TaskId)
      requires Ready(t) && s.cpu.None?
      modifies this
      ensures Ready(t) && s.cpu.None?
      ensures OnlyTouches(old(s).jobs, s.jobs, t)
      ensures old(s.jobs[t].phase).Calling? || old(s.jobs[t].phase).Observing? ==> s.jobs[t] == old(s.jobs[t]).(aborted := true)
      ensures Executable(old(s.jobs[t].row.status)) ==>
          s.jobs[t] == old(s.jobs[t]).(row := old(s.jobs[t]).row.(status := TaskStatus.Cancelled))
      ensures !Executable(old(s.jobs[t].row.status)) && !old(s.jobs[t].phase).Calling? && !old(s.jobs[t].phase).Observing? ==>
          s.jobs[t] == old(s.jobs[t])
    {
      Known(t);
      Turn(t, Cancel);
    }
  
    /** One turn of `recoverInterrupted`. */
    method RecoverOne(t: TaskId, sights: seq<World>)
      requires Valid() && s.mode == Recovering && s.cpu.None? && t in s.jobs && UnderWay(s.jobs[t].row.status)
      requires |sights| == |s.jobs[t].request.requiredEvidence|
      modifies this
      ensures Valid() && s.mode == Recovering && s.cpu.None?
      ensures OnlyTouches(old(s).jobs, s.jobs, t)
      ensures s.jobs[t].row.status == Reconciled(old(s.jobs[t]), sights) && s.jobs[t].request == old(s.jobs[t].request)
    {
      Known(t);
      Turn(t, Recover);
      if s.jobs[t].phase.Reobserving? {
        LookAgain(t, sights);
      }
    }

    /** The evidence of an interrupted verification is looked at again, with no result to look at. */
    method LookAgain(t: TaskId, sights: seq<World>)
      requires Valid() && s.mode == Recovering && t in s.jobs && s.jobs[t].phase.Reobserving? && s.cpu == Some(t)
      requires |sights| == |s.jobs[t].request.requiredEvidence| && Mutation(s.jobs[t].request)
      modifies this
      ensures Valid() && s.mode == Recovering && s.cpu.None?
      ensures OnlyTouches(old(s).jobs, s.jobs, t) && s.jobs[t].request == old(s.jobs[t].request)
      ensures s.jobs[t].row.status ==
        if Satisfied(s.jobs[t].request, EMPTY, sights) then TaskStatus.VerifiedSuccess else TaskStatus.RecoveryRequired
    {
      Turn(t, Reobserve(sights));
      if s.jobs[t].phase.Recommitting? {
        SaveRecovery(t);
      }
    }

    /** The evidence holds: key if it is free, receipt, certificate, row. */
    method SaveRecovery(t: TaskId)
      requires Valid() && s.mode == Recovering && t in s.jobs && s.jobs[t].phase.Recommitting? && s.cpu == Some(t)
      modifies this
      ensures Valid() && s.mode == Recovering && s.cpu.None?
      ensures OnlyTouches(old(s).jobs, s.jobs, t) && s.jobs[t].request == old(s.jobs[t].request)
      ensures s.jobs[t].row.status == TaskStatus.VerifiedSuccess
    {
      Turn(t, Recommit);
      Turn(t, SaveReceipt);
      Turn(t, Certify);
      Turn(t, Stamp);
    }

    /** One round of the loop of `recoverInterrupted`. */
    method RecoverNext(t: TaskId, looks: map<TaskId, seq<World>>, ghost before: map<TaskId, Job>, ghost left: set<TaskId>)
      requires Valid() && s.mode == Recovering && s.cpu.None? && AllLooked(before, looks)
      requires AllReconciled(before, s.jobs, looks, left) && left == InterruptedTasks(s.jobs) && t in left
      modifies this
      ensures Valid() && s.mode == Recovering && s.cpu.None?
      ensures AllReconciled(before, s.jobs, looks, left - {t}) && left - {t} == InterruptedTasks(s.jobs)
    {
      ghost var mid := s.jobs;
      RecoverOne(t, looks[t]);
      OneMoreReconciled(before, mid, s.jobs, looks, left, t);
      OneLessInterrupted(mid, s.jobs, t);
    }

    /**
      `recoverInterrupted`, then service: every interrupted task is reconciled by its own sights, the rest is
      untouched, and nothing is left under way.
     */
    method RecoverInterrupted(looks: map<TaskId, seq<World>>)
      requires Valid() && s.mode == Recovering && s.cpu.None? && AllLooked(s.jobs, looks)
      modifies this
      ensures Valid() && s.mode == Serving && s.cpu.None? && Quiet(s)
      ensures AllReconciled(old(s).jobs, s.jobs, looks, {})
    {
      ghost var before := s.jobs;
      var left := InterruptedTasks(s.jobs);
      while left != {}
        invariant Valid() && s.mode == Recovering && s.cpu.None?
        invariant left == InterruptedTasks(s.jobs)
        invariant AllReconciled(before, s.jobs, looks, left)
        decreases left
      {
        var t :| t in left;
        RecoverNext(t, looks, before, left);
        left := left - {t};
      }
      StartServing();
    }

    method StartServing()
      requires Valid() && s.mode == Recovering && s.cpu.None? && Quiet(s)
      modifies this
      ensures Valid() && s == old(s).(mode := Serving)
    {
      Step(Serve);
    }
  }
}
