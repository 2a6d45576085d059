/**
  The gate of packages/policy-core/src/index.ts. An operation carries its classification: which effect,
  capability, target and traits `classifyOperation` reports for it is not part of this model, only that it
  is a function of the operation.
 */
module Policy {
  import opened Wrappers
  import opened Text
  import opened Protocol
  import CanonicalJson
  import Glob
  import opened Verifier

  datatype Effect = Read | Mutate | Destructive

  datatype CapabilityTrait = PackageInstall | Network

  datatype FileAction = WriteFile | MakeDirectory | DeleteFile | MoveFile | OtherFileAction

  datatype MemoryAction = PutMemory | DeleteMemory | OtherMemoryAction

  datatype TerminalAction = RunCommand | StartCommand | JobStatus | JobOutput | StopJob | SendInput

  /** A parsed URL: its protocol is http or https or something else, its host in lower case. */
  datatype Url = Url(isHttp: bool, host: string)

  datatype OperationKind =
    | FileKind(fileAction: FileAction, path: string, destination: Option<string>)
    | MemoryKind(memoryAction: MemoryAction)
    | TerminalKind(terminalAction: TerminalAction, command: Option<string>, hasJob: bool)
    | BrowserKind(url: Option<Url>)
    | ComputerKind
    | SystemKind

  /** `body` is the whole operation as the digest sees it. */
  datatype Operation = Operation(
    kind: OperationKind,
    body: CanonicalJson.Json,
    effect: Effect,
    capability: string,
    target: string,
    traits: seq<CapabilityTrait>)

  datatype Request = Request(
    operation: Operation,
    constraints: seq<string>,
    forbiddenEffects: seq<Effect>,
    requiredEvidence: seq<Predicate>,
    maxRetries: nat,
    principal: string)

  datatype Grant = Grant(
    id: string,
    capability: string,
    effects: seq<Effect>,
    target: string,
    principal: string,
    validUntil: Option<int>,
    policyVersion: Option<string>)

  /** Command names are already normalized and domains in lower case. */
  datatype LocalPolicy = LocalPolicy(
    version: string,
    allowedCommands: seq<string>,
    allowedDomains: seq<string>,
    allowLocalhost: bool,
    confirmMutations: bool,
    approvalTtlMs: int,
    deniedTraits: seq<CapabilityTrait>,
    capabilities: seq<Grant>,
    unhinged: bool)

  datatype Outcome = Allow | Deny | Confirm

  /** The reasons of the source, by name. */
  datatype Reason =
    | FreeformConstraintsNotEnforceable
    | EffectForbiddenByRequest
    | UnhingedModeNoGuardrails
    | CapabilityNotGranted(capability: string)
    | CapabilityPolicyVersionMismatch(grantId: string)
    | CapabilityExpired(grantId: string)
    | TraitDenied(denied: CapabilityTrait)
    | CommandNotAllowlisted
    | BrowserDomainNotAllowed
    | MutationRequiresEvidence
    | ReadOnlyOperation
    | MutationsDisabled
    | ExplicitApprovalRequired

  datatype ApprovalFailure = ApprovalRequired | ApprovalIdMismatch | ApprovalPhraseMismatch | ApprovalExpired

  datatype Decision = Decision(outcome: Outcome, reason: Reason, effect: Effect, policyVersion: string)

  /** SHA-256 over the canonical text of the task id and the operation, taken to be injective. */
  datatype Digest = Digest(taskId: TaskId, operation: Text)

  datatype Phrase = Approve(digest: Digest) | Words(words: string)

  datatype Challenge = Challenge(approvalId: nat, taskId: TaskId, actionDigest: Digest, phrase: Phrase, expiresAt: int)

  datatype Response = Response(approvalId: nat, phrase: Phrase)

  datatype Evaluation = Evaluation(decision: Decision, challenge: Option<Challenge>)

  // ----- capabilities

  predicate Covers(grant: Grant, operation: Operation, principal: string)
  {
    Glob.PatternMatches(grant.capability, operation.capability)
    && operation.effect in grant.effects
    && Glob.PatternMatches(grant.target, operation.target)
    && Glob.PatternMatches(grant.principal, principal)
  }

  predicate Usable(grant: Grant, version: string, now: int)
  {
    (grant.validUntil.Some? ==> grant.validUntil.value > now)
    && (grant.policyVersion.Some? ==> grant.policyVersion.value == version)
  }

  function Matching(grants: seq<Grant>, operation: Operation, principal: string): (matching: seq<Grant>)
    ensures forall g :: g in matching <==> g in grants && Covers(g, operation, principal)
  {
    if grants == [] then []
    else
      var rest := Matching(grants[1..], operation, principal);
      if Covers(grants[0], operation, principal) then [grants[0]] + rest else rest
  }

  /** `matching.find((grant) => grant.policyVersion !== policy.version)` */
  function FirstStale(grants: seq<Grant>, version: string): (stale: Option<Grant>)
    ensures stale.Some? ==> stale.value in grants && stale.value.policyVersion != Some(version)
    ensures stale.None? ==> forall g :: g in grants ==> g.policyVersion == Some(version)
  {
    if grants == [] then None
    else if grants[0].policyVersion != Some(version) then Some(grants[0])
    else FirstStale(grants[1..], version)
  }

  predicate SomeUsable(grants: seq<Grant>, version: string, now: int)
  {
    exists g :: g in grants && Usable(g, version, now)
  }

  function CapabilityRefusal(operation: Operation, principal: string, policy: LocalPolicy, now: int): Option<Reason>
  {
    if policy.capabilities == [] then None
    else
      var matching := Matching(policy.capabilities, operation, principal);
      if matching == [] then Some(CapabilityNotGranted(operation.capability))
      else if SomeUsable(matching, policy.version, now) then None
      else
        var stale := FirstStale(matching, policy.version);
        if stale.Some? && stale.value.policyVersion.Some?
        then Some(CapabilityPolicyVersionMismatch(stale.value.id))
        else Some(CapabilityExpired(matching[0].id))
  }

  // ----- allowlists

  const ALWAYS_DENIED_COMMANDS: set<string> :=
    {"bash", "cmd", "fish", "osascript", "powershell", "pwsh", "sh", "sudo", "su", "zsh"}

  predicate IsCommandAllowed(kind: OperationKind, policy: LocalPolicy)
  {
    match kind
    case TerminalKind(action, command, hasJob) =>
      if action in {JobStatus, JobOutput, StopJob, SendInput} then hasJob
      else command.Some? && command.value !in ALWAYS_DENIED_COMMANDS && command.value in policy.allowedCommands
    case _ => true
  }

  predicate EndsWith(s: string, suffix: string)
  {
    |suffix| <= |s| && s[|s| - |suffix|..] == suffix
  }

  predicate DomainAllowed(kind: OperationKind, policy: LocalPolicy)
  {
    if !kind.BrowserKind? || kind.url.None? then true
    else
      var url := kind.url.value;
      if !url.isHttp then false
      else if url.host == "localhost" || EndsWith(url.host, ".localhost") then policy.allowLocalhost
      else exists d :: d in policy.allowedDomains && (d == "*" || url.host == d || EndsWith(url.host, "." + d))
  }

  // ----- the decision

  function FirstDenied(traits: seq<CapabilityTrait>, denied: seq<CapabilityTrait>): (r: Option<CapabilityTrait>)
    ensures r.None? <==> forall t :: t in traits ==> t !in denied
  {
    if traits == [] then None
    else if traits[0] in denied then Some(traits[0])
    else FirstDenied(traits[1..], denied)
  }

  function DigestOperation(taskId: TaskId, operation: Operation): Digest
  {
    Digest(taskId, CanonicalJson.Canonical(operation.body))
  }

  function Decide(outcome: Outcome, reason: Reason, operation: Operation, policy: LocalPolicy): Evaluation
  {
    Evaluation(Decision(outcome, reason, operation.effect, policy.version), None)
  }

  function EvaluatePolicy(taskId: TaskId, request: Request, policy: LocalPolicy, now: int, approvalId: nat): Evaluation
  {
    var operation := request.operation;
    var ungranted := CapabilityRefusal(operation, request.principal, policy, now);
    var deniedTrait := FirstDenied(operation.traits, policy.deniedTraits);
    if request.constraints != [] then Decide(Deny, FreeformConstraintsNotEnforceable, operation, policy)
    else if operation.effect in request.forbiddenEffects then Decide(Deny, EffectForbiddenByRequest, operation, policy)
    else if policy.unhinged then Decide(Allow, UnhingedModeNoGuardrails, operation, policy)
    else if ungranted.Some? then Decide(Deny, ungranted.value, operation, policy)
    else if deniedTrait.Some? then Decide(Deny, TraitDenied(deniedTrait.value), operation, policy)
    else if !IsCommandAllowed(operation.kind, policy) then Decide(Deny, CommandNotAllowlisted, operation, policy)
    else if !DomainAllowed(operation.kind, policy) then Decide(Deny, BrowserDomainNotAllowed, operation, policy)
    else if operation.effect != Read && request.requiredEvidence == [] then
      Decide(Deny, MutationRequiresEvidence, operation, policy)
    else if operation.effect == Read then Decide(Allow, ReadOnlyOperation, operation, policy)
    else if !policy.confirmMutations then Decide(Deny, MutationsDisabled, operation, policy)
    else
      var digest := DigestOperation(taskId, operation);
      Decide(Confirm, ExplicitApprovalRequired, operation, policy)
      .(challenge := Some(Challenge(approvalId, taskId, digest, Approve(digest), now + policy.approvalTtlMs)))
  }

  function ValidateApproval(challenge: Option<Challenge>, response: Option<Response>, now: int)
    : (r: Result<(), ApprovalFailure>)
  {
    if challenge.None? || response.None? then Err(ApprovalRequired)
    else if challenge.value.approvalId != response.value.approvalId then Err(ApprovalIdMismatch)
    else if challenge.value.phrase != response.value.phrase then Err(ApprovalPhraseMismatch)
    else if challenge.value.expiresAt <= now then Err(ApprovalExpired)
    else Ok(())
  }

  // ----- evidence a caller did not write

  function DefaultEvidenceFor(operation: Operation): seq<Predicate>
  {
    if operation.effect == Read then []
    else match operation.kind
      case FileKind(action, path, destination) =>
        if action == WriteFile || action == MakeDirectory then [FileExists(path)]
        else if action == DeleteFile then [FileAbsent(path)]
        else if action == MoveFile && destination.Some? then [FileAbsent(path), FileExists(destination.value)]
        else []
      case MemoryKind(action) =>
        if action == PutMemory then [ResultEquals(STORED, CanonicalJson.Bool(true))]
        else if action == DeleteMemory then [ResultEquals(DELETED, CanonicalJson.Bool(true))]
        else []
      case BrowserKind(_) => [ResultEquals(SUCCESS, CanonicalJson.Bool(true))]
      case ComputerKind => [ResultEquals(SUCCESS, CanonicalJson.Bool(true))]
      case TerminalKind(action, _, _) =>
        if action == SendInput then [ResultEquals(SENT, CanonicalJson.Bool(true))] else []
      case SystemKind => []
  }

  function WithDefaultEvidence(request: Request): Request
  {
    if request.requiredEvidence != [] then request
    else request.(requiredEvidence := DefaultEvidenceFor(request.operation))
  }

  // ----- what the gate promises

  /** Some grant covers the effect and is neither expired nor issued under another policy version. */
  ghost predicate Granted(operation: Operation, principal: string, policy: LocalPolicy, now: int)
  {
    policy.capabilities == []
    || exists g :: g in policy.capabilities && Covers(g, operation, principal) && Usable(g, policy.version, now)
  }

  lemma RefusedUnlessGranted(operation: Operation, principal: string, policy: LocalPolicy, now: int)
    ensures CapabilityRefusal(operation, principal, policy, now).None? <==> Granted(operation, principal, policy, now)
  {
    var matching := Matching(policy.capabilities, operation, principal);
    if Granted(operation, principal, policy, now) && policy.capabilities != [] {
      var g :| g in policy.capabilities && Covers(g, operation, principal) && Usable(g, policy.version, now);
      assert g in matching;
    }
  }

  ghost predicate Globs(pattern: string, value: string)
  {
    pattern == "*" || Glob.GlobMatches(pattern, value)
  }

  /** What a grant covers, in the author's terms: three globs and a list of effects. */
  ghost predicate CoversAsGlobs(grant: Grant, operation: Operation, principal: string)
  {
    operation.effect in grant.effects
    && Globs(grant.capability, operation.capability)
    && Globs(grant.target, operation.target)
    && Globs(grant.principal, principal)
  }

  lemma CoverageIsGlobbing(grant: Grant, operation: Operation, principal: string)
    ensures Covers(grant, operation, principal) <==> CoversAsGlobs(grant, operation, principal)
  {
    Glob.TranslationIsExact(grant.capability, operation.capability);
    Glob.TranslationIsExact(grant.target, operation.target);
    Glob.TranslationIsExact(grant.principal, principal);
  }

  /** The request stays inside every configured limit, whatever its effect. */
  ghost predicate WithinLimits(request: Request, policy: LocalPolicy, now: int)
  {
    Granted(request.operation, request.principal, policy, now)
    && (forall t :: t in request.operation.traits ==> t !in policy.deniedTraits)
    && IsCommandAllowed(request.operation.kind, policy)
    && DomainAllowed(request.operation.kind, policy)
  }

  /** The limits the caller put on its own task. */
  predicate SelfForbidden(request: Request)
  {
    request.constraints != [] || request.operation.effect in request.forbiddenEffects
  }

  ghost predicate ShouldAllow(request: Request, policy: LocalPolicy, now: int)
  {
    !SelfForbidden(request)
    && (policy.unhinged || (WithinLimits(request, policy, now) && request.operation.effect == Read))
  }

  ghost predicate ShouldConfirm(request: Request, policy: LocalPolicy, now: int)
  {
    !SelfForbidden(request) && !policy.unhinged && WithinLimits(request, policy, now)
    && request.operation.effect != Read && request.requiredEvidence != [] && policy.confirmMutations
  }

  /** Each outcome happens exactly when it should, whatever the order of the checks. */
  lemma OutcomesAreExact(taskId: TaskId, request: Request, policy: LocalPolicy, now: int, approvalId: nat,
                         outcome: Outcome)
    requires outcome == EvaluatePolicy(taskId, request, policy, now, approvalId).decision.outcome
    ensures outcome == Allow <==> ShouldAllow(request, policy, now)
    ensures outcome == Confirm <==> ShouldConfirm(request, policy, now)
  {
    RefusedUnlessGranted(request.operation, request.principal, policy, now);
  }

  /** With the guardrails on, no mutation is waved through, and one sent to approval can be checked afterwards. */
  lemma MutationsNeedApprovalAndEvidence(taskId: TaskId, request: Request, policy: LocalPolicy, now: int, approvalId: nat)
    requires !policy.unhinged && request.operation.effect != Read
    ensures var e := EvaluatePolicy(taskId, request, policy, now, approvalId);
      e.decision.outcome == Deny
      || (e.decision.outcome == Confirm && request.requiredEvidence != []
          && e.challenge.Some? && e.challenge.value.actionDigest == DigestOperation(taskId, request.operation))
  {
  }

  /** One digest, one task and one operation, up to the order of its keys. */
  lemma DigestIdentifies(a: TaskId, b: TaskId, x: Operation, y: Operation)
    requires CanonicalJson.WellFormed(x.body) && CanonicalJson.WellFormed(y.body)
    ensures DigestOperation(a, x) == DigestOperation(b, y) <==> a == b && CanonicalJson.Same(x.body, y.body)
  {
    CanonicalJson.CanonicalIdentifies(x.body, y.body);
  }

  /** Derived evidence only fills a gap, and for files it is evidence that recovery can look at again. */
  lemma DerivedEvidence(request: Request)
    ensures request.requiredEvidence != [] ==> WithDefaultEvidence(request) == request
    ensures request.operation.effect == Read
      ==> WithDefaultEvidence(request).requiredEvidence == request.requiredEvidence
    ensures request.operation.kind.FileKind? && request.requiredEvidence == []
      ==> forall p :: p in WithDefaultEvidence(request).requiredEvidence ==> AboutFiles(p)
  {
  }
}
