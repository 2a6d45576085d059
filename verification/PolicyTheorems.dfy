/**
  What the parts of the gate come to for someone who has read neither: which sights and results meet the
  evidence it derives, which commands and hosts it lets through, and what makes a response acceptable.
 */
module PolicyTheorems {
  import opened Wrappers
  import opened Text
  import opened Protocol
  import opened CanonicalJson
  import opened Verifier
  import opened Policy

  // ----- evidence that was derived

  /** What the caller of a mutation would have to see to believe that it happened; nothing where it cannot be told. */
  datatype Effects =
    | Appears(at: string)
    | Vanishes(from: string)
    | Moves(from: string, to: string)
    | Flagged(flag: Text)
    | Unknown

  function EffectsOf(kind: OperationKind): Effects
  {
    match kind
    case FileKind(WriteFile, path, _) => Appears(path)
    case FileKind(MakeDirectory, path, _) => Appears(path)
    case FileKind(DeleteFile, path, _) => Vanishes(path)
    case FileKind(MoveFile, path, Some(to)) => Moves(path, to)
    case MemoryKind(PutMemory) => Flagged(Ascii("stored"))
    case MemoryKind(DeleteMemory) => Flagged(Ascii("deleted"))
    case BrowserKind(_) => Flagged(Ascii("success"))
    case ComputerKind => Flagged(Ascii("success"))
    case TerminalKind(SendInput, _, _) => Flagged(Ascii("sent"))
    case _ => Unknown
  }

  /** The sights taken, one for each look, and the result show the effects. */
  predicate Shown(effects: Effects, result: Json, worlds: seq<World>)
  {
    match effects
    case Appears(at) => |worlds| == 1 && IsThere(worlds[0], at)
    case Vanishes(from) => |worlds| == 1 && IsGone(worlds[0], from)
    case Moves(from, to) => |worlds| == 2 && IsGone(worlds[0], from) && IsThere(worlds[1], to)
    case Flagged(flag) => Reports(result, flag)
    case Unknown => false
  }

  lemma FlagPasses(name: Text, result: Json, world: World)
    requires DOT !in name
    ensures Passes(ResultEquals(name, Bool(true)), result, world) <==> Reports(result, name)
  {
    ReadsOwnProperty(result, name);
  }

  lemma FilesShowTheEffect(predicates: seq<Predicate>, kind: OperationKind, result: Json, worlds: seq<World>)
    requires kind.FileKind? && |worlds| == |predicates| && predicates != []
    requires match EffectsOf(kind)
      case Appears(at) => predicates == [FileExists(at)]
      case Vanishes(from) => predicates == [FileAbsent(from)]
      case Moves(from, to) => predicates == [FileAbsent(from), FileExists(to)]
      case _ => false
    ensures Verified(predicates, result, worlds) <==> Shown(EffectsOf(kind), result, worlds)
  {
    if Verified(predicates, result, worlds) {
      assert Passes(predicates[0], result, worlds[0]);
      assert |predicates| == 2 ==> Passes(predicates[1], result, worlds[1]);
    }
  }

  lemma FlagShowsTheEffect(flag: Text, result: Json, worlds: seq<World>)
    requires DOT !in flag && |worlds| == 1
    ensures Verified([ResultEquals(flag, Bool(true))], result, worlds) <==> Shown(Flagged(flag), result, worlds)
  {
    FlagPasses(flag, result, worlds[0]);
  }

  predicate FlagKind(kind: OperationKind)
  {
    EffectsOf(kind).Flagged?
  }

  lemma FlagEvidence(operation: Operation)
    requires operation.effect != Effect.Read && !operation.kind.FileKind?
    ensures FlagKind(operation.kind)
      ==> DefaultEvidenceFor(operation) == [ResultEquals(EffectsOf(operation.kind).flag, Bool(true))]
          && DOT !in EffectsOf(operation.kind).flag
    ensures !FlagKind(operation.kind) ==> DefaultEvidenceFor(operation) == [] && EffectsOf(operation.kind).Unknown?
  {
    NamesAreSpelled();
  }

  /**
    The evidence a mutation without any is given holds exactly if the sights and the result show what it was
    to do; there is none exactly if that cannot be told from the request.
   */
  lemma DerivedEvidenceShowsTheEffect(request: Request, result: Json, worlds: seq<World>)
    requires request.operation.effect != Effect.Read && request.requiredEvidence == []
    requires |worlds| == |WithDefaultEvidence(request).requiredEvidence|
    ensures WithDefaultEvidence(request).requiredEvidence == [] <==> EffectsOf(request.operation.kind).Unknown?
    ensures WithDefaultEvidence(request).requiredEvidence != [] ==>
      (Verified(WithDefaultEvidence(request).requiredEvidence, result, worlds)
       <==> Shown(EffectsOf(request.operation.kind), result, worlds))
  {
    var operation := request.operation;
    if operation.kind.FileKind? {
      if !EffectsOf(operation.kind).Unknown? {
        FilesShowTheEffect(DefaultEvidenceFor(operation), operation.kind, result, worlds);
      }
    } else {
      FlagEvidence(operation);
      if FlagKind(operation.kind) {
        FlagShowsTheEffect(EffectsOf(operation.kind).flag, result, worlds);
      }
    }
  }

  // ----- grants

  predicate InTime(grant: Grant, now: int)
  {
    match grant.validUntil
    case None => true
    case Some(end) => now < end
  }

  predicate OfVersion(grant: Grant, version: string)
  {
    match grant.policyVersion
    case None => true
    case Some(pinned) => pinned == version
  }

  /** Authority exactly if no grants are issued, or one covers the effect by its globs, in time, under this policy. */
  lemma AuthorityIsAGrant(operation: Operation, principal: string, policy: LocalPolicy, now: int)
    ensures CapabilityRefusal(operation, principal, policy, now).None?
      <==> (policy.capabilities == []
            || exists g :: g in policy.capabilities && CoversAsGlobs(g, operation, principal)
                           && InTime(g, now) && OfVersion(g, policy.version))
  {
    RefusedUnlessGranted(operation, principal, policy, now);
    forall g ensures Covers(g, operation, principal) <==> CoversAsGlobs(g, operation, principal) {
      CoverageIsGlobbing(g, operation, principal);
    }
    assert forall g :: Usable(g, policy.version, now) <==> InTime(g, now) && OfVersion(g, policy.version);
  }

  /** A refusal tells the truth: nothing covers, or the grant it names covers and has the fault it is refused for. */
  lemma RefusalNamesTheFault(operation: Operation, principal: string, policy: LocalPolicy, now: int)
    ensures var refusal := CapabilityRefusal(operation, principal, policy, now);
      refusal.Some? ==>
        match refusal.value {
          case CapabilityNotGranted(capability) =>
            capability == operation.capability && forall g :: g in policy.capabilities ==> !Covers(g, operation, principal)
          case CapabilityPolicyVersionMismatch(id) =>
            exists g :: g in policy.capabilities && Covers(g, operation, principal) && g.id == id && !OfVersion(g, policy.version)
          case CapabilityExpired(id) =>
            exists g :: g in policy.capabilities && Covers(g, operation, principal) && g.id == id && !InTime(g, now)
          case _ => false
        }
  {
    var refusal := CapabilityRefusal(operation, principal, policy, now);
    var matching := Matching(policy.capabilities, operation, principal);
    if refusal.Some? && matching != [] {
      var g := if refusal.value.CapabilityExpired? then matching[0] else FirstStale(matching, policy.version).value;
      assert g in policy.capabilities && Covers(g, operation, principal) && !Usable(g, policy.version, now);
    }
  }

  // ----- hosts and commands

  /** The host is the domain, or has more labels in front of it. */
  ghost predicate Within(host: string, domain: string)
  {
    host == domain || exists labels :: host == labels + "." + domain
  }

  lemma EndsWithADot(host: string, domain: string)
    ensures EndsWith(host, "." + domain) <==> exists labels :: host == labels + "." + domain
  {
    var suffix := "." + domain;
    if EndsWith(host, suffix) {
      var labels := host[..|host| - |suffix|];
      assert host == labels + suffix == labels + "." + domain;
    }
    if labels :| host == labels + "." + domain {
      assert host == labels + suffix;
    }
  }

  /** A page is let through exactly if it is not local and its host is within a listed domain, or local and that is allowed. */
  lemma HostsAreWithinDomains(url: Url, policy: LocalPolicy)
    ensures DomainAllowed(BrowserKind(Some(url)), policy)
      <==> (url.isHttp
            && (if Within(url.host, "localhost") then policy.allowLocalhost
                else exists d :: d in policy.allowedDomains && (d == "*" || Within(url.host, d))))
  {
    EndsWithADot(url.host, "localhost");
    assert "." + "localhost" == ".localhost";
    forall d ensures Within(url.host, d) <==> url.host == d || EndsWith(url.host, "." + d) {
      EndsWithADot(url.host, d);
    }
  }

  /** A command runs exactly if it is listed and could not run any other; what is done to a running job needs just the job. */
  lemma CommandsAreListed(action: TerminalAction, command: Option<string>, hasJob: bool, policy: LocalPolicy)
    ensures action == RunCommand || action == StartCommand ==>
      (IsCommandAllowed(TerminalKind(action, command, hasJob), policy)
       <==> command.Some? && command.value in policy.allowedCommands
            && command.value !in {"sh", "bash", "zsh", "fish", "cmd", "powershell", "pwsh", "osascript", "sudo", "su"})
    ensures action != RunCommand && action != StartCommand ==>
      (IsCommandAllowed(TerminalKind(action, command, hasJob), policy) <==> hasJob)
  {
  }

  // ----- approval

  /** The response repeats what the challenge asks for, in time. */
  predicate Answers(challenge: Challenge, response: Response, now: int)
  {
    response.approvalId == challenge.approvalId && response.phrase == challenge.phrase && now < challenge.expiresAt
  }

  lemma ValidExactlyIfAnswered(challenge: Option<Challenge>, response: Option<Response>, now: int)
    ensures ValidateApproval(challenge, response, now).Ok?
      <==> challenge.Some? && response.Some? && Answers(challenge.value, response.value, now)
    ensures ValidateApproval(challenge, response, now) == Err(ApprovalRequired) <==> challenge.None? || response.None?
    ensures challenge.Some? && response.Some? ==>
      (ValidateApproval(challenge, response, now) == Err(ApprovalExpired)
       <==> !Answers(challenge.value, response.value, now)
            && Answers(challenge.value.(expiresAt := now + 1), response.value, now))
    ensures challenge.Some? && response.Some? ==>
      (ValidateApproval(challenge, response, now) == Err(ApprovalIdMismatch)
       <==> response.value.approvalId != challenge.value.approvalId)
  {
  }

  /** What the gate asks a person to echo: made for this task and this operation, and good for the configured time. */
  lemma ChallengeIsForThisOperation(taskId: TaskId, request: Request, policy: LocalPolicy, now: int, approvalId: nat)
    requires ShouldConfirm(request, policy, now)
    ensures var e := EvaluatePolicy(taskId, request, policy, now, approvalId);
      e.challenge.Some? && e.challenge.value.approvalId == approvalId && e.challenge.value.taskId == taskId
      && e.challenge.value.actionDigest == DigestOperation(taskId, request.operation)
      && e.challenge.value.phrase == Approve(DigestOperation(taskId, request.operation))
      && forall response, later :: (Answers(e.challenge.value, response, later)
        <==> (response == Response(approvalId, Approve(DigestOperation(taskId, request.operation)))
              && later - now < policy.approvalTtlMs))
  {
    OutcomesAreExact(taskId, request, policy, now, approvalId,
                     EvaluatePolicy(taskId, request, policy, now, approvalId).decision.outcome);
  }

  // ----- the reason of a decision

  /** What a reason says is so. */
  ghost predicate IsSo(reason: Reason, request: Request, policy: LocalPolicy, now: int)
  {
    var operation := request.operation;
    match reason
    case FreeformConstraintsNotEnforceable => request.constraints != []
    case EffectForbiddenByRequest => operation.effect in request.forbiddenEffects
    case UnhingedModeNoGuardrails => policy.unhinged
    case CapabilityNotGranted(_) => CapabilityRefusal(operation, request.principal, policy, now) == Some(reason)
    case CapabilityPolicyVersionMismatch(_) => CapabilityRefusal(operation, request.principal, policy, now) == Some(reason)
    case CapabilityExpired(_) => CapabilityRefusal(operation, request.principal, policy, now) == Some(reason)
    case TraitDenied(denied) => denied in operation.traits && denied in policy.deniedTraits
    case CommandNotAllowlisted => !IsCommandAllowed(operation.kind, policy)
    case BrowserDomainNotAllowed => !DomainAllowed(operation.kind, policy)
    case MutationRequiresEvidence => operation.effect != Effect.Read && request.requiredEvidence == []
    case ReadOnlyOperation => operation.effect == Effect.Read
    case MutationsDisabled => operation.effect != Effect.Read && !policy.confirmMutations
    case ExplicitApprovalRequired => operation.effect != Effect.Read && policy.confirmMutations
  }

  lemma {:induction false} DeniedTraitIsHeld(traits: seq<CapabilityTrait>, denied: seq<CapabilityTrait>)
    ensures FirstDenied(traits, denied).Some?
      ==> FirstDenied(traits, denied).value in traits && FirstDenied(traits, denied).value in denied
  {
    if traits != [] {
      DeniedTraitIsHeld(traits[1..], denied);
    }
  }

  /** Whatever reason a decision gives is so, and it is given under the policy's version for the operation's effect. */
  lemma EveryReasonIsSo(taskId: TaskId, request: Request, policy: LocalPolicy, now: int, approvalId: nat)
    ensures var decision := EvaluatePolicy(taskId, request, policy, now, approvalId).decision;
      IsSo(decision.reason, request, policy, now)
      && decision.policyVersion == policy.version && decision.effect == request.operation.effect
  {
    DeniedTraitIsHeld(request.operation.traits, policy.deniedTraits);
    RefusalNamesTheFault(request.operation, request.principal, policy, now);
  }
}
