/**
  The life of tasks under crashes: packages/runtime-core/src/task-controller.ts over the task, payload,
  commit, receipt and certificate tables of packages/storage-sqlite/src/index.ts.

  Every durable write is a step of its own, and a crash may fall between any two. What one process does
  without awaiting is a stretch of steps that no other activity of the process interrupts: `cpu` names the
  task whose stretch is under way. The adapter, the sights of the verifier, the answers of the circuit
  breaker, the clock and the timers are the environment. One controller lives at a time; it recovers
  before it serves. Error texts and timestamps of the rows are left out.
 */
module TaskMachine {
  import opened Wrappers
  import opened Text
  import opened Protocol
  import opened Verifier
  import opened Policy
  import opened CanonicalJson

  datatype CertificateResult =
    | Success | PartialResult | CancelledResult | WaitingApproval | WaitingUserResult | Blocked | Exhausted | Failure

  /** `certificateResult` */
  function ResultOf(status: TaskStatus): CertificateResult
  {
    match status
    case VerifiedSuccess => Success
    case Partial => PartialResult
    case Cancelled => CancelledResult
    case AwaitingApproval => WaitingApproval
    case WaitingUser => WaitingUserResult
    case PolicyBlocked => Blocked
    case BudgetExhausted => Exhausted
    case _ => Failure
  }

  datatype Certificate = Certificate(result: CertificateResult, receiptIds: seq<nat>)

  datatype Receipt = Receipt(success: bool)

  /** What let an execution past its prefix: the policy and the clock it was judged under, and the response given. */
  datatype Gate = Gate(policy: LocalPolicy, at: int, response: Option<Response>)

  /** What an onlooker of one task saw: adapter calls, verifications, and crashes that caught it under way. */
  datatype Mark =
    | Called(attempt: nat, gate: Gate, keyFree: bool)
    | Observed(again: bool, result: Json, worlds: seq<World>)
    | Interrupted

  datatype History = Start | After(past: History, mark: Mark)

  datatype Row = Row(
    status: TaskStatus,
    approval: Option<Challenge>,
    key: Option<Text>,
    attempts: nat,
    receiptIds: seq<nat>,
    certified: bool)

  /** Where `execute`, `plan` or `recoverInterrupted` stands with a task; lost in a crash. */
  datatype Phase =
    | Idle
    | Sealing
    | Attempting(attempt: nat, gate: Gate)
    | Calling(attempt: nat, gate: Gate)
    | Answered(result: Json)
    | Observing(result: Json)
    | Judged(result: Json, verified: bool)
    | Receipting(final: TaskStatus, success: bool)
    | Settling(final: TaskStatus, ids: seq<nat>)
    | Certifying(final: TaskStatus, ids: seq<nat>)
    | Stamping(final: TaskStatus, ids: seq<nat>)
    | Reobserving
    | Recommitting
    | Rereceipting

  /**
    One task: the durable row, payload, receipts and certificate; the volatile phase and abort flags; what
    was planned and what happened, for specification.
   */
  datatype Job = Job(
    row: Row,
    sealed: bool,
    result: Option<Json>,
    receipts: seq<Receipt>,
    certificate: Option<Certificate>,
    phase: Phase,
    aborted: bool,
    exhausted: bool,
    request: Request,
    history: History)

  datatype Mode = Down | Recovering | Serving

  datatype System = System(
    mode: Mode,
    policy: LocalPolicy,
    clock: int,
    jobs: map<TaskId, Job>,
    commits: map<Text, TaskId>,
    cpu: Option<TaskId>)

  datatype Move =
    | Seal
    | Begin(verdict: Evaluation, response: Option<Response>)
    | ShortCircuit
    | Call
    | Return(result: Json)
    | Throw
    | SaveResult
    | Observe(worlds: seq<World>)
    | Commit
    | SaveReceipt
    | Settle
    | Certify
    | Stamp
    | Cancel
    | Expire
    | Recover
    | Reobserve(worlds: seq<World>)
    | Recommit

  datatype Action =
    | Tick(elapsed: nat)
    | Crash
    | Restart(policy: LocalPolicy)
    | Serve
    | Plan(t: TaskId, request: Request, key: Option<Text>, approvalId: nat, verdict: Evaluation)
    | Do(t: TaskId, move: Move)

  // ----- reading a task

  predicate Mutation(request: Request)
  {
    request.operation.effect != Effect.Read
  }

  predicate Executable(status: TaskStatus)
  {
    status == TaskStatus.Planned || status == TaskStatus.AwaitingApproval
  }

  predicate UnderWay(status: TaskStatus)
  {
    status == TaskStatus.Running || status == TaskStatus.Verifying
  }

  /** `result.success === undefined || result.success === true` */
  predicate Succeeded(result: Json)
  {
    var success := Property(result, SUCCESS);
    success == Absent || success == Bool(true)
  }

  /** The verdict over one result and the sights of one verification. */
  predicate Satisfied(request: Request, result: Json, worlds: seq<World>)
  {
    Succeeded(result)
    && (request.requiredEvidence == []
        || (|worlds| == |request.requiredEvidence| && Verified(request.requiredEvidence, result, worlds)))
  }

  predicate FileEvidence(request: Request)
  {
    request.requiredEvidence != [] && forall p :: p in request.requiredEvidence ==> AboutFiles(p)
  }

  /** The phases in which the process is inside a stretch without an await. */
  predicate Sync(phase: Phase)
  {
    !phase.Idle? && !phase.Calling? && !phase.Observing?
  }

  predicate KeyFree(key: Option<Text>, commits: map<Text, TaskId>)
  {
    key.None? || key.value !in commits
  }

  // ----- one step of one task

  /** The prefix of `execute`, up to saving `running`; where the source throws, nothing has changed. */
  function BeginJob(job: Job, e: Evaluation, response: Option<Response>, policy: LocalPolicy, now: int,
                    commits: map<Text, TaskId>): Job
  {
    if !Executable(job.row.status) then job
    else if !KeyFree(job.row.key, commits) then Finish(job, TaskStatus.Cancelled)
    else if !job.sealed then job
    else if e.decision.outcome == Deny then Finish(job, TaskStatus.PolicyBlocked)
    else if !Approved(job.row.approval, e, response, now) then job
    else
      job.(row := job.row.(status := TaskStatus.Running), phase := Attempting(1, Gate(policy, now, response)),
           aborted := false, exhausted := false)
  }

  /** Save the row, then `finishWithoutReceipt`. */
  function Finish(job: Job, status: TaskStatus): Job
  {
    job.(row := job.row.(status := status), phase := Certifying(status, job.row.receiptIds))
  }

  /** A fresh decision to confirm needs the stored challenge to be about the same operation, and a valid response. */
  predicate Approved(approval: Option<Challenge>, e: Evaluation, response: Option<Response>, now: int)
  {
    e.decision.outcome == Confirm
    ==> e.challenge.Some? && approval.Some? && approval.value.actionDigest == e.challenge.value.actionDigest
        && ValidateApproval(approval, response, now).Ok?
  }

  /** The catch branch: which status the thrown error leads to. */
  function Failed(job: Job): Job
  {
    var final :=
      if job.aborted then (if job.exhausted then TaskStatus.BudgetExhausted else TaskStatus.Cancelled)
      else TaskStatus.Failed;
    job.(phase := Receipting(final, false))
  }

  function MaximumAttempts(request: Request): nat
  {
    if Mutation(request) then 1 else request.maxRetries + 1
  }

  function CallJob(job: Job, commits: map<Text, TaskId>): Job
    requires job.phase.Attempting?
  {
    if job.aborted then Failed(job)
    else
      var n, gate := job.phase.attempt, job.phase.gate;
      job.(row := job.row.(attempts := n), phase := Calling(n, gate),
           history := After(job.history, Called(n, gate, KeyFree(job.row.key, commits))))
  }

  function ThrowJob(job: Job): Job
    requires job.phase.Calling?
  {
    if job.phase.attempt >= MaximumAttempts(job.request) || job.aborted then Failed(job)
    else job.(phase := Attempting(job.phase.attempt + 1, job.phase.gate))
  }

  function ObserveJob(job: Job, worlds: seq<World>): Job
    requires job.phase.Observing?
  {
    var result := job.phase.result;
    job.(phase := Judged(result, Satisfied(job.request, result, worlds)),
         history := After(job.history, Observed(false, result, worlds)))
  }

  /** `commitIdempotency`: the first task to insert the key keeps it. */
  function Claimed(t: TaskId, key: Option<Text>, commits: map<Text, TaskId>): map<Text, TaskId>
  {
    if key.None? || key.value in commits then commits else commits[key.value := t]
  }

  function CommitJob(job: Job, commits: map<Text, TaskId>): Job
    requires job.phase.Judged?
  {
    var succeeded := Succeeded(job.phase.result);
    var final :=
      if job.phase.verified then
        (if KeyFree(job.row.key, commits) then TaskStatus.VerifiedSuccess else TaskStatus.Cancelled)
      else if succeeded then TaskStatus.Partial
      else TaskStatus.Failed;
    job.(phase := Receipting(final, succeeded))
  }

  function ReceiptJob(job: Job): Job
    requires job.phase.Receipting? || job.phase.Rereceipting?
  {
    var ids := job.row.receiptIds + [|job.receipts|];
    if job.phase.Receipting?
    then job.(receipts := job.receipts + [Receipt(job.phase.success)], phase := Settling(job.phase.final, ids))
    else job.(receipts := job.receipts + [Receipt(true)], phase := Certifying(TaskStatus.VerifiedSuccess, ids))
  }

  function StampJob(job: Job): Job
    requires job.phase.Stamping?
  {
    job.(row := job.row.(status := job.phase.final, receiptIds := job.phase.ids, certified := true),
         phase := Idle, aborted := false, exhausted := false)
  }

  /** `cancel`: abort what is active, end what has not begun, leave the rest alone. */
  function CancelJob(job: Job): Job
  {
    if job.phase.Calling? || job.phase.Observing? then job.(aborted := true)
    else if Executable(job.row.status) then job.(row := job.row.(status := TaskStatus.Cancelled))
    else job
  }

  function Unreconciled(job: Job): Job
  {
    var status := if Mutation(job.request) then TaskStatus.RecoveryRequired else TaskStatus.Planned;
    job.(row := job.row.(status := status), phase := Idle)
  }

  function RecoverJob(job: Job): Job
  {
    if job.row.status == TaskStatus.Verifying && Mutation(job.request) && FileEvidence(job.request)
    then job.(phase := Reobserving)
    else Unreconciled(job)
  }

  function ReobserveJob(job: Job, worlds: seq<World>): Job
  {
    var seen := job.(history := After(job.history, Observed(true, EMPTY, worlds)));
    if Satisfied(job.request, EMPTY, worlds) then seen.(phase := Recommitting) else Unreconciled(seen)
  }

  predicate MoveEnabled(job: Job, move: Move, mode: Mode)
  {
    match move
    case Seal => job.phase.Sealing?
    case Begin(_, _) => mode == Serving
    case ShortCircuit => job.phase.Attempting? && job.phase.attempt == 1
    case Call => job.phase.Attempting?
    case Return(_) => job.phase.Calling?
    case Throw => job.phase.Calling?
    case SaveResult => job.phase.Answered?
    case Observe(worlds) => job.phase.Observing? && |worlds| == |job.request.requiredEvidence|
    case Commit => job.phase.Judged?
    case SaveReceipt => job.phase.Receipting? || job.phase.Rereceipting?
    case Settle => job.phase.Settling?
    case Certify => job.phase.Certifying?
    case Stamp => job.phase.Stamping?
    case Cancel => mode == Serving
    case Expire => job.phase.Calling? || job.phase.Observing?
    case Recover => mode == Recovering && job.phase.Idle? && UnderWay(job.row.status)
    case Reobserve(worlds) => job.phase.Reobserving? && |worlds| == |job.request.requiredEvidence|
    case Recommit => job.phase.Recommitting?
  }

  function MoveJob(job: Job, move: Move, mode: Mode, policy: LocalPolicy, now: int, commits: map<Text, TaskId>): Job
    requires MoveEnabled(job, move, mode)
  {
    match move
    case Seal => job.(sealed := true, phase := Idle)
    case Begin(verdict, response) => BeginJob(job, verdict, response, policy, now, commits)
    case ShortCircuit => job.(phase := Receipting(TaskStatus.Failed, false))
    case Call => CallJob(job, commits)
    case Return(result) => job.(phase := Answered(result))
    case Throw => ThrowJob(job)
    case SaveResult =>
      job.(row := job.row.(status := TaskStatus.Verifying), result := Some(job.phase.result),
           phase := Observing(job.phase.result))
    case Observe(worlds) => ObserveJob(job, worlds)
    case Commit => CommitJob(job, commits)
    case SaveReceipt => ReceiptJob(job)
    case Settle =>
      job.(row := job.row.(status := job.phase.final, receiptIds := job.phase.ids),
           phase := Certifying(job.phase.final, job.phase.ids))
    case Certify =>
      job.(certificate := Some(Certificate(ResultOf(job.phase.final), job.phase.ids)),
           phase := Stamping(job.phase.final, job.phase.ids))
    case Stamp => StampJob(job)
    case Cancel => CancelJob(job)
    case Expire => job.(aborted := true, exhausted := true)
    case Recover => RecoverJob(job)
    case Reobserve(worlds) => ReobserveJob(job, worlds)
    case Recommit => job.(phase := Rereceipting)
  }

  /** Only two steps write a commit row. */
  function MoveCommits(t: TaskId, job: Job, move: Move, commits: map<Text, TaskId>): map<Text, TaskId>
  {
    if (move.Commit? && job.phase.Judged? && job.phase.verified) || move.Recommit?
    then Claimed(t, job.row.key, commits)
    else commits
  }

  // ----- one step of the system

  function PlanJob(parsed: Request, key: Option<Text>, e: Evaluation): Job
  {
    var status :=
      match e.decision.outcome
      case Deny => TaskStatus.PolicyBlocked
      case Confirm => TaskStatus.AwaitingApproval
      case Allow => TaskStatus.Planned;
    Job(Row(status, e.challenge, key, 0, [], false), false, None, [], None,
        if status == TaskStatus.PolicyBlocked then Idle else Sealing, false, false, parsed, Start)
  }

  /** What a crash leaves of a task: the rows. */
  function Survivor(job: Job): Job
  {
    job.(phase := Idle, aborted := false, exhausted := false,
         history := if UnderWay(job.row.status) then After(job.history, Interrupted) else job.history)
  }

  function Survivors(jobs: map<TaskId, Job>): map<TaskId, Job>
  {
    map t | t in jobs :: Survivor(jobs[t])
  }

  function Put(s: System, t: TaskId, job: Job): System
  {
    s.(jobs := s.jobs[t := job], cpu := if Sync(job.phase) then Some(t) else None)
  }

  predicate Quiet(s: System)
  {
    forall t :: t in s.jobs ==> !UnderWay(s.jobs[t].row.status)
  }

  predicate Enabled(s: System, a: Action)
  {
    match a
    case Tick(_) => true
    case Crash => s.mode != Down
    case Restart(_) => s.mode == Down
    case Serve => s.mode == Recovering && s.cpu.None? && Quiet(s)
    case Plan(t, _, _, _, _) => s.mode == Serving && s.cpu.None? && t !in s.jobs
    case Do(t, move) =>
      t in s.jobs && (s.cpu.None? || (s.cpu == Some(t) && !move.Begin? && !move.Cancel?))
      && MoveEnabled(s.jobs[t], move, s.mode)
  }

  /** The evaluation `execute` makes itself; the identifier of its challenge is never shown. */
  predicate Rechecked(s: System, t: TaskId, verdict: Evaluation)
    requires t in s.jobs
  {
    verdict == EvaluatePolicy(t, s.jobs[t].request, s.policy, s.clock, 0)
  }

  /** A verdict that a step carries is the one the policy in force gives at this moment. */
  predicate Truthful(s: System, a: Action)
    requires Enabled(s, a)
  {
    match a
    case Plan(t, request, _, approvalId, verdict) =>
      verdict == EvaluatePolicy(t, WithDefaultEvidence(request), s.policy, s.clock, approvalId)
    case Do(t, Begin(verdict, _)) => Rechecked(s, t, verdict)
    case _ => true
  }

  function Next(s: System, a: Action): System
    requires Enabled(s, a)
  {
    match a
    case Tick(elapsed) => s.(clock := s.clock + elapsed)
    case Crash => s.(mode := Down, jobs := Survivors(s.jobs), cpu := None)
    case Restart(policy) => s.(mode := Recovering, policy := policy)
    case Serve => s.(mode := Serving)
    case Plan(t, request, key, _, verdict) => Put(s, t, PlanJob(WithDefaultEvidence(request), key, verdict))
    case Do(t, move) =>
      var job := s.jobs[t];
      Put(s, t, MoveJob(job, move, s.mode, s.policy, s.clock, s.commits))
      .(commits := MoveCommits(t, job, move, s.commits))
  }

  ghost predicate Initial(s: System)
  {
    s.mode == Down && s.jobs == map[] && s.commits == map[] && s.cpu.None?
  }

  /** The state after a list of actions from a fresh installation, if each was enabled in its turn, with a true verdict. */
  ghost function StateAfter(first: System, actions: seq<Action>): Option<System>
  {
    if actions == [] then Some(first)
    else
      var before := StateAfter(first, actions[..|actions| - 1]);
      var a := actions[|actions| - 1];
      if before.None? || !Enabled(before.value, a) || !Truthful(before.value, a) then None else Some(Next(before.value, a))
  }

  ghost predicate Reachable(s: System)
  {
    exists first, actions :: Initial(first) && StateAfter(first, actions) == Some(s)
  }

  // ----- what a history shows

  function Calls(h: History): nat
  {
    if h.Start? then 0 else Calls(h.past) + (if h.mark.Called? then 1 else 0)
  }

  predicate WasInterrupted(h: History)
  {
    h.After? && (h.mark.Interrupted? || WasInterrupted(h.past))
  }

  ghost predicate GoodSight(request: Request, mark: Mark)
  {
    mark.Observed? && Satisfied(request, mark.result, mark.worlds)
  }

  /** The last thing that happened is a verification, after a call, in which every required predicate passed. */
  ghost predicate ProofLast(request: Request, h: History)
  {
    h.After? && GoodSight(request, h.mark) && Calls(h.past) > 0
  }

  /** There was such a verification. */
  ghost predicate Proven(request: Request, h: History)
  {
    h.After? && (ProofLast(request, h) || Proven(request, h.past))
  }

  /** The gate was open: the policy let the operation through, and if it asked for approval, it got this one's. */
  ghost predicate GateOpen(t: TaskId, request: Request, approval: Option<Challenge>, gate: Gate)
  {
    var e := EvaluatePolicy(t, request, gate.policy, gate.at, 0);
    e.decision.outcome != Deny
    && (e.decision.outcome == Confirm
        ==> approval.Some? && approval.value.actionDigest == DigestOperation(t, request.operation)
            && ValidateApproval(approval, gate.response, gate.at).Ok?)
  }

  ghost predicate MarkOk(t: TaskId, request: Request, approval: Option<Challenge>, mark: Mark)
  {
    mark.Called?
    ==> GateOpen(t, request, approval, mark.gate)
        && (mark.attempt == 1 ==> mark.keyFree)
        && (Mutation(request) ==> mark.attempt == 1)
  }

  ghost predicate MarksOk(t: TaskId, request: Request, approval: Option<Challenge>, h: History)
  {
    h.After? ==> MarkOk(t, request, approval, h.mark) && MarksOk(t, request, approval, h.past)
  }
}
