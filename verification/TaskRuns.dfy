/**
  Where the task controller keeps less than a caller may hope for: for each such hope the exact steps that
  defeat it, over all runs, and one run from a fresh installation in which it is defeated.
 */
module TaskRuns {
  import opened Wrappers
  import opened Text
  import opened Protocol
  import opened Verifier
  import opened Policy
  import opened CanonicalJson
  import opened TaskMachine
  import opened TaskSafety
  import opened TaskTheorems

  // ----- runs, read from the front

  ghost function Run(s: System, actions: seq<Action>): Option<System>
    decreases |actions|
  {
    if actions == [] then Some(s)
    else if Enabled(s, actions[0]) && Truthful(s, actions[0]) then Run(Next(s, actions[0]), actions[1..])
    else None
  }

  lemma {:induction false} RunSnoc(s: System, actions: seq<Action>, a: Action)
    ensures Run(s, actions + [a]) ==
      var before := Run(s, actions);
      if before.None? || !Enabled(before.value, a) || !Truthful(before.value, a) then None else Some(Next(before.value, a))
    decreases |actions|
  {
    if actions == [] {
      assert ([] + [a])[1..] == [];
    } else {
      assert (actions + [a])[1..] == actions[1..] + [a];
      if Enabled(s, actions[0]) && Truthful(s, actions[0]) {
        RunSnoc(Next(s, actions[0]), actions[1..], a);
      }
    }
  }

  lemma {:induction false} RunIsStateAfter(s: System, actions: seq<Action>)
    ensures StateAfter(s, actions) == Run(s, actions)
    decreases |actions|
  {
    if actions != [] {
      var init, last := actions[..|actions| - 1], actions[|actions| - 1];
      RunIsStateAfter(s, init);
      RunSnoc(s, init, last);
      assert actions == init + [last];
    }
  }

  /** One run after another. */
  lemma {:induction false} Chain(s: System, a: seq<Action>, mid: System, b: seq<Action>, end: System)
    requires Run(s, a) == Some(mid) && Run(mid, b) == Some(end)
    ensures Run(s, a + b) == Some(end)
    decreases |a|
  {
    if a == [] {
      assert a + b == b;
    } else {
      assert (a + b)[1..] == a[1..] + b;
      Chain(Next(s, a[0]), a[1..], mid, b, end);
    }
  }

  lemma One(s: System, a: Action, next: System)
    requires Enabled(s, a) && Truthful(s, a) && next == Next(s, a)
    ensures Run(s, [a]) == Some(next)
  {
    assert [a][1..] == [];
  }

  // ----- an ended task without a certificate

  /**
    The steps that leave `t` ended and uncertified: a plan that the policy denies, the cancellation of a task
    that has not begun, a crash between the row of an ended task and its certificate, and a recovery that
    gives a mutation up, unless an earlier recovery had certified it.
   */
  predicate Loses(s: System, a: Action, t: TaskId)
  {
    match a
    case Plan(u, _, _, _, verdict) => u == t && verdict.decision.outcome == Deny
    case Crash =>
      t in s.jobs && s.jobs[t].certificate.None? && s.jobs[t].phase.Certifying? && Terminal(s.jobs[t].row.status)
    case Do(u, move) => u == t && t in s.jobs && s.jobs[t].certificate.None? && GivesUp(s.jobs[t], move)
    case _ => false
  }

  predicate GivesUp(job: Job, move: Move)
  {
    match move
    case Cancel => Executable(job.row.status)
    case Recover => Mutation(job.request) && !(job.row.status == TaskStatus.Verifying && FileEvidence(job.request))
    case Reobserve(worlds) => !Satisfied(job.request, EMPTY, worlds)
    case _ => false
  }

  predicate JobUncertified(job: Job)
  {
    job.phase.Idle? && Terminal(job.row.status) && job.certificate.None?
  }

  lemma MoveLosesIff(t: TaskId, job: Job, move: Move, mode: Mode, policy: LocalPolicy, now: int, commits: map<Text, TaskId>,
                     next: Job)
    requires JobInv(t, job, policy, commits) && MoveEnabled(job, move, mode) && !JobUncertified(job)
    requires move.Begin? || move.Cancel? ==> !Sync(job.phase)
    requires next == MoveJob(job, move, mode, policy, now, commits)
    ensures JobUncertified(next) <==> job.certificate.None? && GivesUp(job, move)
  {
  }

  lemma DoLosesIff(s: System, t: TaskId, move: Move)
    requires Inv(s) && Enabled(s, Do(t, move)) && !Uncertified(s, t)
    ensures Uncertified(Next(s, Do(t, move)), t) <==> Loses(s, Do(t, move), t)
  {
    assert TaskInv(s, t);
    var next := MoveJob(s.jobs[t], move, s.mode, s.policy, s.clock, s.commits);
    MoveLosesIff(t, s.jobs[t], move, s.mode, s.policy, s.clock, s.commits, next);
  }

  lemma SurvivorLosesIff(t: TaskId, job: Job, policy: LocalPolicy, commits: map<Text, TaskId>)
    requires PhaseInv(t, job, policy, commits) && !JobUncertified(job)
    ensures JobUncertified(Survivor(job)) <==>
        job.certificate.None? && job.phase.Certifying? && Terminal(job.row.status)
  {
  }

  lemma CrashLosesIff(s: System, t: TaskId)
    requires Inv(s) && Enabled(s, Crash) && !Uncertified(s, t)
    ensures Uncertified(Next(s, Crash), t) <==> Loses(s, Crash, t)
  {
    if t in s.jobs {
      assert TaskInv(s, t);
      SurvivorLosesIff(t, s.jobs[t], s.policy, s.commits);
      assert Next(s, Crash).jobs[t] == Survivor(s.jobs[t]);
    }
  }

  lemma PlanLosesIff(s: System, a: Action, t: TaskId)
    requires Enabled(s, a) && a.Plan? && !Uncertified(s, t)
    ensures Uncertified(Next(s, a), t) <==> Loses(s, a, t)
  {
  }

  lemma StepLosesIff(s: System, a: Action, t: TaskId)
    requires Inv(s) && Enabled(s, a) && !Uncertified(s, t)
    ensures Uncertified(Next(s, a), t) <==> Loses(s, a, t)
  {
    if a.Do? && a.t == t {
      DoLosesIff(s, t, a.move);
    } else if a.Crash? {
      CrashLosesIff(s, t);
    } else if a.Plan? {
      PlanLosesIff(s, a, t);
    }
  }

  /** Some step of the run was one of those. */
  ghost predicate LostIn(first: System, actions: seq<Action>, t: TaskId)
    requires StateAfter(first, actions).Some?
    decreases |actions|
  {
    actions != []
    && (LostIn(first, actions[..|actions| - 1], t)
        || Loses(StateAfter(first, actions[..|actions| - 1]).value, actions[|actions| - 1], t))
  }

  /** In every run: an idle ended task has no certificate if and only if one of those steps happened to it. */
  lemma {:induction false} UncertifiedIff(first: System, actions: seq<Action>, t: TaskId)
    requires Initial(first) && StateAfter(first, actions).Some?
    ensures Uncertified(StateAfter(first, actions).value, t) <==> LostIn(first, actions, t)
    decreases |actions|
  {
    if actions != [] {
      var init, last := actions[..|actions| - 1], actions[|actions| - 1];
      var s := StateAfter(first, init).value;
      UncertifiedIff(first, init, t);
      RunKeepsInv(first, init);
      if Uncertified(s, t) {
        LostCertificateStaysLost(s, last, t);
      } else {
        StepLosesIff(s, last, t);
      }
    }
  }

  // ----- a certificate of success beside `recovery_required`

  predicate Outlived(s: System, t: TaskId)
  {
    CertifiedSuccess(s, t) && s.jobs[t].row.status == TaskStatus.RecoveryRequired
  }

  /** A crash between the certificate of a recovery and its row. */
  predicate CutsOff(s: System, a: Action, t: TaskId)
  {
    a.Crash? && t in s.jobs && s.jobs[t].phase.Stamping? && s.jobs[t].row.status == TaskStatus.Verifying
  }

  predicate FailedLookAt(s: System, a: Action, t: TaskId)
  {
    a.Do? && a.t == t && a.move.Reobserve? && t in s.jobs && !Satisfied(s.jobs[t].request, EMPTY, a.move.worlds)
  }

  ghost predicate CutOffIn(first: System, actions: seq<Action>, t: TaskId)
    requires StateAfter(first, actions).Some?
    decreases |actions|
  {
    actions != []
    && (CutOffIn(first, actions[..|actions| - 1], t)
        || CutsOff(StateAfter(first, actions[..|actions| - 1]).value, actions[|actions| - 1], t))
  }

  /** Such a crash, and later a second look that failed. */
  ghost predicate OutlivedIn(first: System, actions: seq<Action>, t: TaskId)
    requires StateAfter(first, actions).Some?
    decreases |actions|
  {
    actions != []
    && var init, last := actions[..|actions| - 1], actions[|actions| - 1];
       OutlivedIn(first, init, t)
       || (CutOffIn(first, init, t) && FailedLookAt(StateAfter(first, init).value, last, t))
  }

  /** Certified by a recovery that has not saved the row, and no longer about to. */
  predicate Hanging(s: System, t: TaskId)
  {
    CertifiedSuccess(s, t) && s.jobs[t].row.status == TaskStatus.Verifying && !s.jobs[t].phase.Stamping?
  }

  predicate JobCertified(job: Job)
  {
    job.certificate.Some? && job.certificate.value.result == Success
  }

  predicate JobHanging(job: Job)
  {
    JobCertified(job) && job.row.status == TaskStatus.Verifying && !job.phase.Stamping?
  }

  predicate JobOutlived(job: Job)
  {
    JobCertified(job) && job.row.status == TaskStatus.RecoveryRequired
  }

  lemma MoveHangs(t: TaskId, job: Job, move: Move, mode: Mode, policy: LocalPolicy, now: int, commits: map<Text, TaskId>,
                  next: Job)
    requires JobInv(t, job, policy, commits) && MoveEnabled(job, move, mode)
    requires next == MoveJob(job, move, mode, policy, now, commits) && JobHanging(next)
    ensures JobHanging(job)
  {
  }

  lemma MoveOutlives(t: TaskId, job: Job, move: Move, mode: Mode, policy: LocalPolicy, now: int, commits: map<Text, TaskId>,
                     next: Job)
    requires JobInv(t, job, policy, commits) && MoveEnabled(job, move, mode) && !JobOutlived(job)
    requires next == MoveJob(job, move, mode, policy, now, commits)
    ensures JobOutlived(next)
      <==> JobHanging(job) && move.Reobserve? && !Satisfied(job.request, EMPTY, move.worlds)
  {
  }

  lemma HangingStep(s: System, a: Action, t: TaskId)
    requires Inv(s) && Enabled(s, a) && Hanging(Next(s, a), t)
    ensures Hanging(s, t) || CutsOff(s, a, t)
  {
    if a.Do? && a.t == t {
      assert TaskInv(s, t);
      var next := MoveJob(s.jobs[t], a.move, s.mode, s.policy, s.clock, s.commits);
      MoveHangs(t, s.jobs[t], a.move, s.mode, s.policy, s.clock, s.commits, next);
    } else {
      OtherHanging(s, a, t);
    }
  }

  lemma OtherHanging(s: System, a: Action, t: TaskId)
    requires Enabled(s, a) && !(a.Do? && a.t == t) && Hanging(Next(s, a), t)
    ensures Hanging(s, t) || CutsOff(s, a, t)
  {
  }

  lemma OtherOutlived(s: System, a: Action, t: TaskId)
    requires Enabled(s, a) && !(a.Do? && a.t == t)
    ensures Outlived(Next(s, a), t) <==> Outlived(s, t)
  {
  }

  lemma MoveOutlivedStep(s: System, t: TaskId, move: Move)
    requires Inv(s) && Enabled(s, Do(t, move)) && !Outlived(s, t)
    ensures Outlived(Next(s, Do(t, move)), t) <==> Hanging(s, t) && FailedLookAt(s, Do(t, move), t)
  {
    assert TaskInv(s, t);
    var next := MoveJob(s.jobs[t], move, s.mode, s.policy, s.clock, s.commits);
    assert Next(s, Do(t, move)).jobs[t] == next;
    MoveOutlives(t, s.jobs[t], move, s.mode, s.policy, s.clock, s.commits, next);
  }

  lemma OutlivedStep(s: System, a: Action, t: TaskId)
    requires Inv(s) && Enabled(s, a) && !Outlived(s, t)
    ensures Outlived(Next(s, a), t) <==> Hanging(s, t) && FailedLookAt(s, a, t)
  {
    if a.Do? && a.t == t {
      MoveOutlivedStep(s, t, a.move);
    } else {
      OtherOutlived(s, a, t);
    }
  }

  lemma CertifiedStays(s: System, a: Action, t: TaskId)
    requires Inv(s) && Enabled(s, a) && CertifiedSuccess(s, t)
    ensures CertifiedSuccess(Next(s, a), t)
    ensures Outlived(s, t) ==> Outlived(Next(s, a), t)
  {
    if a.Do? && a.t == t {
      assert TaskInv(s, t);
      MoveKeepsEndings(s, t, a.move);
    } else {
      OthersKeepEndings(s, a, t);
    }
  }

  lemma CutOffIsCertified(s: System, a: Action, t: TaskId)
    requires Inv(s) && Enabled(s, a) && CutsOff(s, a, t)
    ensures CertifiedSuccess(Next(s, a), t)
  {
    assert TaskInv(s, t);
  }

  lemma FailedLookHangs(s: System, a: Action, t: TaskId)
    requires Inv(s) && Enabled(s, a) && CertifiedSuccess(s, t) && FailedLookAt(s, a, t)
    ensures Hanging(s, t)
  {
    assert TaskInv(s, t);
  }

  lemma {:induction false} HangingMeansCutOff(first: System, actions: seq<Action>, t: TaskId)
    requires Initial(first) && StateAfter(first, actions).Some?
    ensures Hanging(StateAfter(first, actions).value, t) ==> CutOffIn(first, actions, t)
    ensures CutOffIn(first, actions, t) ==> CertifiedSuccess(StateAfter(first, actions).value, t)
    decreases |actions|
  {
    if actions != [] {
      var init, last := actions[..|actions| - 1], actions[|actions| - 1];
      var s := StateAfter(first, init).value;
      HangingMeansCutOff(first, init, t);
      RunKeepsInv(first, init);
      if CertifiedSuccess(s, t) { CertifiedStays(s, last, t); }
      if CutsOff(s, last, t) { CutOffIsCertified(s, last, t); }
      if Hanging(Next(s, last), t) { HangingStep(s, last, t); }
    }
  }

  /**
    In every run: a certificate of success stands beside `recovery_required` if and only if a crash fell
    between the certificate and the row of a recovery, and a later look at the evidence failed.
   */
  lemma {:induction false} OutlivedIff(first: System, actions: seq<Action>, t: TaskId)
    requires Initial(first) && StateAfter(first, actions).Some?
    ensures Outlived(StateAfter(first, actions).value, t) <==> OutlivedIn(first, actions, t)
    decreases |actions|
  {
    if actions != [] {
      var init, last := actions[..|actions| - 1], actions[|actions| - 1];
      var s := StateAfter(first, init).value;
      OutlivedIff(first, init, t);
      HangingMeansCutOff(first, init, t);
      RunKeepsInv(first, init);
      if Outlived(s, t) { CertifiedStays(s, last, t); }
      if CertifiedSuccess(s, t) && FailedLookAt(s, last, t) { FailedLookHangs(s, last, t); }
      if !Outlived(s, t) { OutlivedStep(s, last, t); }
    }
  }

  // ----- who owns a key

  lemma {:induction false} CommitsOnlyGrow(s: System, actions: seq<Action>)
    requires StateAfter(s, actions).Some?
    ensures Extends(s.commits, StateAfter(s, actions).value.commits)
    decreases |actions|
  {
    if actions != [] {
      var init, last := actions[..|actions| - 1], actions[|actions| - 1];
      CommitsOnlyGrow(s, init);
      CommitRowsNeverChange(StateAfter(s, init).value, last);
    }
  }

  /**
    A task that recovery commits again owns the row of its key, then and in every later state, if and only if
    the key was free at that step, or its own already.
   */
  lemma RecoveryOwnsIff(s: System, t: TaskId, actions: seq<Action>)
    requires Enabled(s, Do(t, Recommit)) && s.jobs[t].row.key.Some?
    requires StateAfter(Next(s, Do(t, Recommit)), actions).Some?
    ensures var key := s.jobs[t].row.key.value;
      var commits := StateAfter(Next(s, Do(t, Recommit)), actions).value.commits;
      key in commits && (commits[key] == t <==> key !in s.commits || s.commits[key] == t)
  {
    CommitsOnlyGrow(Next(s, Do(t, Recommit)), actions);
  }

  /** A recovery that finds the key of its task with another task. */
  predicate FindsTaken(s: System, a: Action, t: TaskId)
  {
    a.Do? && a.t == t && a.move.Recommit? && t in s.jobs && TakenFrom(t, s.jobs[t], s.commits)
  }

  predicate TakenFrom(t: TaskId, job: Job, commits: map<Text, TaskId>)
  {
    job.row.key.Some? && job.row.key.value in commits && commits[job.row.key.value] != t
  }

  ghost predicate FoundTakenIn(first: System, actions: seq<Action>, t: TaskId)
    requires StateAfter(first, actions).Some?
    decreases |actions|
  {
    actions != []
    && (FoundTakenIn(first, actions[..|actions| - 1], t)
        || FindsTaken(StateAfter(first, actions[..|actions| - 1]).value, actions[|actions| - 1], t))
  }

  /** Past its claim on the key: succeeded, or on the way there. */
  predicate Claimant(job: Job)
  {
    job.row.status == TaskStatus.VerifiedSuccess || job.phase.Rereceipting?
    || ((job.phase.Receipting? || job.phase.Settling? || job.phase.Certifying? || job.phase.Stamping?)
        && job.phase.final == TaskStatus.VerifiedSuccess)
  }

  predicate Owns(t: TaskId, job: Job, commits: map<Text, TaskId>)
  {
    job.row.key.Some? ==> job.row.key.value in commits && commits[job.row.key.value] == t
  }

  /** The moves that have nothing to do with a claim. */
  predicate BeforeClaim(move: Move)
  {
    move.Seal? || move.Begin? || move.ShortCircuit? || move.Call? || move.Return? || move.Throw? || move.SaveResult? || move.Observe?
  }

  lemma EarlyMoveClaims(job: Job, move: Move, mode: Mode, policy: LocalPolicy, now: int, commits: map<Text, TaskId>, next: Job)
    requires BeforeClaim(move) && MoveEnabled(job, move, mode) && next == MoveJob(job, move, mode, policy, now, commits)
    ensures next.row.key == job.row.key && (Claimant(next) ==> Claimant(job))
  {
  }

  predicate Stops(move: Move)
  {
    move.Cancel? || move.Expire?
  }

  lemma StopClaims(job: Job, move: Move, mode: Mode, policy: LocalPolicy, now: int, commits: map<Text, TaskId>, next: Job)
    requires Stops(move) && MoveEnabled(job, move, mode) && next == MoveJob(job, move, mode, policy, now, commits)
    ensures next.row.key == job.row.key && (Claimant(next) ==> Claimant(job))
  {
  }

  predicate Recovers(move: Move)
  {
    move.Recover? || move.Reobserve?
  }

  lemma RecoverClaims(job: Job, move: Move, mode: Mode, policy: LocalPolicy, now: int, commits: map<Text, TaskId>, next: Job)
    requires Recovers(move) && MoveEnabled(job, move, mode) && next == MoveJob(job, move, mode, policy, now, commits)
    ensures next.row.key == job.row.key && (Claimant(next) ==> Claimant(job))
  {
  }

  lemma ClosingMoveClaims(job: Job, move: Move, mode: Mode, policy: LocalPolicy, now: int, commits: map<Text, TaskId>, next: Job)
    requires move.SaveReceipt? || move.Settle? || move.Certify? || move.Stamp?
    requires MoveEnabled(job, move, mode) && next == MoveJob(job, move, mode, policy, now, commits)
    ensures next.row.key == job.row.key && (Claimant(next) ==> Claimant(job))
  {
  }

  lemma ClaimingMoveClaims(t: TaskId, job: Job, move: Move, mode: Mode, policy: LocalPolicy, now: int, commits: map<Text, TaskId>,
                           next: Job)
    requires (move.Commit? || move.Recommit?) && MoveEnabled(job, move, mode)
    requires next == MoveJob(job, move, mode, policy, now, commits)
    ensures next.row.key == job.row.key
    ensures Claimant(next) ==>
        Claimant(job) || Owns(t, next, MoveCommits(t, job, move, commits)) || (move.Recommit? && TakenFrom(t, job, commits))
  {
  }

  lemma MoveClaims(t: TaskId, job: Job, move: Move, mode: Mode, policy: LocalPolicy, now: int, commits: map<Text, TaskId>, next: Job)
    requires MoveEnabled(job, move, mode) && next == MoveJob(job, move, mode, policy, now, commits)
    ensures next.row.key == job.row.key
    ensures Claimant(next) ==>
        Claimant(job) || Owns(t, next, MoveCommits(t, job, move, commits)) || (move.Recommit? && TakenFrom(t, job, commits))
  {
    if BeforeClaim(move) {
      EarlyMoveClaims(job, move, mode, policy, now, commits, next);
    } else if move.Commit? || move.Recommit? {
      ClaimingMoveClaims(t, job, move, mode, policy, now, commits, next);
    } else if Stops(move) {
      StopClaims(job, move, mode, policy, now, commits, next);
    } else if Recovers(move) {
      RecoverClaims(job, move, mode, policy, now, commits, next);
    } else {
      ClosingMoveClaims(job, move, mode, policy, now, commits, next);
    }
  }

  /** An owner stays one, and so does a task whose key is with another. */
  lemma OthersKeepOwners(s: System, a: Action, t: TaskId)
    requires Enabled(s, a) && t in s.jobs
    ensures t in Next(s, a).jobs && Next(s, a).jobs[t].row.key == s.jobs[t].row.key
    ensures Owns(t, s.jobs[t], s.commits) ==> Owns(t, Next(s, a).jobs[t], Next(s, a).commits)
    ensures TakenFrom(t, s.jobs[t], s.commits) ==> TakenFrom(t, Next(s, a).jobs[t], Next(s, a).commits)
    ensures !(a.Do? && a.t == t) && Claimant(Next(s, a).jobs[t]) ==> Claimant(s.jobs[t])
  {
    CommitRowsNeverChange(s, a);
    if a.Do? && a.t == t {
      MoveClaims(t, s.jobs[t], a.move, s.mode, s.policy, s.clock, s.commits,
                 MoveJob(s.jobs[t], a.move, s.mode, s.policy, s.clock, s.commits));
    }
  }

  /** What every run keeps: a claimant owns its key, or found it taken; and a key found taken is never its own. */
  predicate OwnersOk(s: System, t: TaskId, found: bool)
  {
    (t in s.jobs && Claimant(s.jobs[t]) ==> Owns(t, s.jobs[t], s.commits) || found)
    && (found ==> t in s.jobs && TakenFrom(t, s.jobs[t], s.commits))
  }

  lemma OwnersStep(s: System, a: Action, t: TaskId, found: bool)
    requires Enabled(s, a) && OwnersOk(s, t, found)
    ensures OwnersOk(Next(s, a), t, found || FindsTaken(s, a, t))
  {
    if t in s.jobs {
      OthersKeepOwners(s, a, t);
      if a.Do? && a.t == t {
        MoveClaims(t, s.jobs[t], a.move, s.mode, s.policy, s.clock, s.commits,
                   MoveJob(s.jobs[t], a.move, s.mode, s.policy, s.clock, s.commits));
      }
    }
  }

  lemma {:induction false} OwnersKept(first: System, actions: seq<Action>, t: TaskId)
    requires Initial(first) && StateAfter(first, actions).Some?
    ensures OwnersOk(StateAfter(first, actions).value, t, FoundTakenIn(first, actions, t))
    decreases |actions|
  {
    if actions != [] {
      var init, last := actions[..|actions| - 1], actions[|actions| - 1];
      OwnersKept(first, init, t);
      OwnersStep(StateAfter(first, init).value, last, t, FoundTakenIn(first, init, t));
    }
  }

  /**
    In every run: a keyed success leaves the row of its key to another task if and only if it came through
    a recovery that found the key with another task.
   */
  lemma SharedKeyIff(first: System, actions: seq<Action>, t: TaskId)
    requires Initial(first) && StateAfter(first, actions).Some?
    requires t in StateAfter(first, actions).value.jobs
    requires StateAfter(first, actions).value.jobs[t].row.status == TaskStatus.VerifiedSuccess
    ensures var s := StateAfter(first, actions).value;
      TakenFrom(t, s.jobs[t], s.commits) <==> FoundTakenIn(first, actions, t)
  {
    OwnersKept(first, actions, t);
  }

  /** Two successes under one key: one of them came through such a recovery. */
  lemma SecondSuccessIsRecovered(first: System, actions: seq<Action>, t: TaskId, u: TaskId)
    requires Initial(first) && StateAfter(first, actions).Some? && t != u
    requires var s := StateAfter(first, actions).value;
      t in s.jobs && u in s.jobs && s.jobs[t].row.key.Some? && s.jobs[t].row.key == s.jobs[u].row.key
      && s.jobs[t].row.status == s.jobs[u].row.status == TaskStatus.VerifiedSuccess
    ensures FoundTakenIn(first, actions, t) || FoundTakenIn(first, actions, u)
  {
    OwnersKept(first, actions, t);
    OwnersKept(first, actions, u);
  }

  /** A step that gives a key its row. */
  predicate Claims(s: System, a: Action, key: Text)
    requires Enabled(s, a)
  {
    key !in s.commits && a.Do? && s.jobs[a.t].row.key == Some(key)
    && (a.move.Recommit? || (a.move.Commit? && s.jobs[a.t].phase.verified))
  }

  ghost predicate ClaimedIn(s: System, actions: seq<Action>, key: Text)
    requires StateAfter(s, actions).Some?
    decreases |actions|
  {
    actions != []
    && (ClaimedIn(s, actions[..|actions| - 1], key)
        || Claims(StateAfter(s, actions[..|actions| - 1]).value, actions[|actions| - 1], key))
  }

  lemma {:induction false} CommittedIffClaimed(s: System, actions: seq<Action>, key: Text)
    requires StateAfter(s, actions).Some? && key !in s.commits
    ensures key in StateAfter(s, actions).value.commits <==> ClaimedIn(s, actions, key)
    decreases |actions|
  {
    if actions != [] {
      CommittedIffClaimed(s, actions[..|actions| - 1], key);
    }
  }

  /**
    From the first attempt of an execution on, its key is taken if and only if some step has claimed it since;
    a call that is made then is another attempt of a read (`NoCallAfterCommit`).
   */
  lemma KeyTakenIff(s: System, t: TaskId, actions: seq<Action>)
    requires Reachable(s) && t in s.jobs && s.jobs[t].phase.Attempting? && s.jobs[t].phase.attempt == 1
    requires s.jobs[t].row.key.Some? && StateAfter(s, actions).Some?
    ensures s.jobs[t].row.key.value in StateAfter(s, actions).value.commits
      <==> ClaimedIn(s, actions, s.jobs[t].row.key.value)
  {
    ReachableInv(s);
    assert TaskInv(s, t);
    CommittedIffClaimed(s, actions, s.jobs[t].row.key.value);
  }

  // ----- one run for each

  const KEY: Text := [1]

  /** A file write held to its file, and a read that may be tried twice. */
  const WRITE: Request :=
    Request(Operation.Operation(FileKind(WriteFile, "f", None), Null, Mutate, "file.write", "f", []), [], [], [FileExists("f")], 0, "agent:local")

  const READ: Request :=
    Request(Operation.Operation(SystemKind, Null, Effect.Read, "system.info", "local", []), [], [], [], 1, "agent:local")

  const THERE: seq<World> := [map["f" := Directory]]

  const GONE: seq<World> := [map[]]

  /** The operator has switched the guardrails off, so that no approval has to be spelled out. */
  const POLICY: LocalPolicy := LocalPolicy("1", [], [], false, true, 0, [], [], true)

  function VerdictOn(request: Request): Evaluation
  {
    Evaluation(Decision(Allow, UnhingedModeNoGuardrails, request.operation.effect, "1"), None)
  }

  lemma VerdictIsTrue(t: TaskId, request: Request, id: nat)
    requires request == WRITE || request == READ
    ensures EvaluatePolicy(t, request, POLICY, 0, id) == VerdictOn(request) && WithDefaultEvidence(request) == request
  {
  }

  const FRESH: System := System(Down, POLICY, 0, map[], map[], None)

  function InService(jobs: map<TaskId, Job>, commits: map<Text, TaskId>): System
  {
    System(Serving, POLICY, 0, jobs, commits, None)
  }

  /** The system with task `t` as given, in its stretch if it is in one. */
  function With(mode: Mode, jobs: map<TaskId, Job>, commits: map<Text, TaskId>, t: TaskId, job: Job): System
  {
    System(mode, POLICY, 0, jobs[t := job], commits, if Sync(job.phase) then Some(t) else None)
  }

  lemma Go(mode: Mode, jobs: map<TaskId, Job>, commits: map<Text, TaskId>, t: TaskId, job: Job, move: Move, next: Job,
           more: map<Text, TaskId>)
    requires MoveEnabled(job, move, mode) && !move.Begin? && !move.Cancel?
    requires next == MoveJob(job, move, mode, POLICY, 0, commits) && more == MoveCommits(t, job, move, commits)
    ensures Run(With(mode, jobs, commits, t, job), [Do(t, move)]) == Some(With(mode, jobs, more, t, next))
  {
    var s := With(mode, jobs, commits, t, job);
    assert jobs[t := job][t := next] == jobs[t := next];
    One(s, Do(t, move), With(mode, jobs, more, t, next));
  }

  function Moves(t: TaskId, moves: seq<Move>): seq<Action>
  {
    if moves == [] then [] else [Do(t, moves[0])] + Moves(t, moves[1..])
  }

  lemma GoOn(mode: Mode, jobs: map<TaskId, Job>, commits: map<Text, TaskId>, t: TaskId, job: Job, moves: seq<Move>, next: Job,
             more: map<Text, TaskId>, rest: seq<Move>, end: System)
    requires moves != [] && rest == moves[1..] && MoveEnabled(job, moves[0], mode) && !moves[0].Begin? && !moves[0].Cancel?
    requires next == MoveJob(job, moves[0], mode, POLICY, 0, commits) && more == MoveCommits(t, job, moves[0], commits)
    requires Run(With(mode, jobs, more, t, next), Moves(t, rest)) == Some(end)
    ensures Run(With(mode, jobs, commits, t, job), Moves(t, moves)) == Some(end)
  {
    Go(mode, jobs, commits, t, job, moves[0], next, more);
    Chain(With(mode, jobs, commits, t, job), [Do(t, moves[0])], With(mode, jobs, more, t, next), Moves(t, rest), end);
  }

  // the task as it stands between two awaits

  function PlannedTask(request: Request): Job
  {
    Job(Row(TaskStatus.Planned, None, Some(KEY), 0, [], false), true, None, [], None, Idle, false, false, request, Start)
  }

  const GATE: Gate := Gate(POLICY, 0, None)

  function CalledTask(request: Request): Job
  {
    PlannedTask(request).(row := Row(TaskStatus.Running, None, Some(KEY), 1, [], false), phase := Calling(1, GATE),
      history := After(Start, Called(1, GATE, true)))
  }

  function AnsweredTask(request: Request): Job
  {
    CalledTask(request).(row := Row(TaskStatus.Verifying, None, Some(KEY), 1, [], false), result := Some(EMPTY),
      phase := Observing(EMPTY))
  }

  /** The row of a success is saved, its certificate is not. */
  function SettledTask(): Job
  {
    AnsweredTask(WRITE).(row := Row(TaskStatus.VerifiedSuccess, None, Some(KEY), 1, [0], false), receipts := [Receipt(true)],
      phase := Certifying(TaskStatus.VerifiedSuccess, [0]),
      history := After(After(Start, Called(1, GATE, true)), Observed(false, EMPTY, THERE)))
  }

  /** What a crash leaves of a task that was being verified. */
  function InterruptedTask(): Job
  {
    AnsweredTask(WRITE).(phase := Idle, history := After(After(Start, Called(1, GATE, true)), Interrupted))
  }

  /** Recovery has seen the evidence and saved a receipt. */
  function ReprovenTask(): Job
  {
    InterruptedTask().(receipts := [Receipt(true)], phase := Certifying(TaskStatus.VerifiedSuccess, [0]),
      history := After(InterruptedTask().history, Observed(true, EMPTY, THERE)))
  }

  function SeenTask(): Job
  {
    InterruptedTask().(phase := Recommitting, history := ReprovenTask().history)
  }

  function CertifiedTask(job: Job): Job
  {
    job.(certificate := Some(Certificate(Success, [0])), phase := Stamping(TaskStatus.VerifiedSuccess, [0]))
  }

  function StampedTask(job: Job): Job
  {
    CertifiedTask(job).(row := Row(TaskStatus.VerifiedSuccess, None, Some(KEY), 1, [0], true), phase := Idle)
  }

  const BOOT: seq<Action> := [Restart(POLICY)] + [Serve]

  const FALL: seq<Action> := [Crash] + [Restart(POLICY)]

  function PlanActions(t: TaskId, request: Request): seq<Action>
  {
    [Plan(t, request, Some(KEY), 0, VerdictOn(request))] + [Do(t, Seal)]
  }

  function BeginActions(t: TaskId, request: Request): seq<Action>
  {
    [Do(t, Begin(VerdictOn(request), None))] + [Do(t, Call)]
  }

  const ANSWER: seq<Move> := [Return(EMPTY), SaveResult]
  const SETTLE: seq<Move> := [Observe(THERE), Commit, SaveReceipt, Settle]
  const LOOK: seq<Move> := [Recover, Reobserve(THERE)]
  const RECLAIM: seq<Move> := [Recommit, SaveReceipt]
  const LOOK_IN_VAIN: seq<Move> := [Recover, Reobserve(GONE)]

  lemma BootRuns()
    ensures Run(FRESH, BOOT) == Some(InService(map[], map[]))
  {
    var up := FRESH.(mode := Recovering);
    One(FRESH, Restart(POLICY), up);
    One(up, Serve, InService(map[], map[]));
    Chain(FRESH, [Restart(POLICY)], up, [Serve], InService(map[], map[]));
  }

  lemma PlanRuns(jobs: map<TaskId, Job>, commits: map<Text, TaskId>, t: TaskId, request: Request)
    requires t !in jobs && (request == WRITE || request == READ)
    ensures Run(InService(jobs, commits), PlanActions(t, request)) == Some(With(Serving, jobs, commits, t, PlannedTask(request)))
  {
    var s, verdict := InService(jobs, commits), VerdictOn(request);
    VerdictIsTrue(t, request, 0);
    var job := PlanJob(request, Some(KEY), verdict);
    var plan := Plan(t, request, Some(KEY), 0, verdict);
    One(s, plan, With(Serving, jobs, commits, t, job));
    Go(Serving, jobs, commits, t, job, Seal, PlannedTask(request), commits);
    Chain(s, [plan], With(Serving, jobs, commits, t, job), [Do(t, Seal)], With(Serving, jobs, commits, t, PlannedTask(request)));
  }

  lemma BeginRuns(jobs: map<TaskId, Job>, commits: map<Text, TaskId>, t: TaskId, request: Request)
    requires (request == WRITE || request == READ) && KEY !in commits
    ensures Run(With(Serving, jobs, commits, t, PlannedTask(request)), BeginActions(t, request))
      == Some(With(Serving, jobs, commits, t, CalledTask(request)))
  {
    var s, verdict := With(Serving, jobs, commits, t, PlannedTask(request)), VerdictOn(request);
    VerdictIsTrue(t, request, 0);
    var job := PlannedTask(request).(row := CalledTask(request).row.(attempts := 0), phase := Attempting(1, GATE));
    var mid := With(Serving, jobs, commits, t, job);
    assert jobs[t := PlannedTask(request)][t := job] == jobs[t := job];
    One(s, Do(t, Begin(verdict, None)), mid);
    Go(Serving, jobs, commits, t, job, Call, CalledTask(request), commits);
    Chain(s, [Do(t, Begin(verdict, None))], mid, [Do(t, Call)], With(Serving, jobs, commits, t, CalledTask(request)));
  }

  lemma AnswerRuns(jobs: map<TaskId, Job>, commits: map<Text, TaskId>, t: TaskId, request: Request)
    ensures Run(With(Serving, jobs, commits, t, CalledTask(request)), Moves(t, ANSWER))
      == Some(With(Serving, jobs, commits, t, AnsweredTask(request)))
  {
    var end := With(Serving, jobs, commits, t, AnsweredTask(request));
    var answered := CalledTask(request).(phase := Answered(EMPTY));
    GoOn(Serving, jobs, commits, t, answered, ANSWER[1..], AnsweredTask(request), commits, [], end);
    GoOn(Serving, jobs, commits, t, CalledTask(request), ANSWER, answered, commits, ANSWER[1..], end);
  }

  lemma EvidenceIsThere()
    ensures Satisfied(WRITE, EMPTY, THERE) && !Satisfied(WRITE, EMPTY, GONE)
  {
    assert Passes(WRITE.requiredEvidence[0], EMPTY, THERE[0]);
    assert !Passes(WRITE.requiredEvidence[0], EMPTY, GONE[0]);
  }

  /** The state after a look that found the evidence. */
  function JudgedTask(): Job
  {
    AnsweredTask(WRITE).(phase := Judged(EMPTY, true), history := SettledTask().history)
  }

  lemma JudgeRuns(jobs: map<TaskId, Job>, commits: map<Text, TaskId>, t: TaskId)
    ensures Run(With(Serving, jobs, commits, t, AnsweredTask(WRITE)), [Do(t, SETTLE[0])])
      == Some(With(Serving, jobs, commits, t, JudgedTask()))
  {
    EvidenceIsThere();
    Go(Serving, jobs, commits, t, AnsweredTask(WRITE), SETTLE[0], JudgedTask(), commits);
  }

  lemma SettleRuns(jobs: map<TaskId, Job>, commits: map<Text, TaskId>, t: TaskId)
    requires KEY !in commits
    ensures Run(With(Serving, jobs, commits, t, AnsweredTask(WRITE)), Moves(t, SETTLE))
      == Some(With(Serving, jobs, commits[KEY := t], t, SettledTask()))
  {
    JudgeRuns(jobs, commits, t);
    CloseRuns(jobs, commits, t);
    assert SETTLE == [SETTLE[0]] + SETTLE[1..];
    assert Moves(t, SETTLE) == [Do(t, SETTLE[0])] + Moves(t, SETTLE[1..]);
    Chain(With(Serving, jobs, commits, t, AnsweredTask(WRITE)), [Do(t, SETTLE[0])], With(Serving, jobs, commits, t, JudgedTask()),
          Moves(t, SETTLE[1..]), With(Serving, jobs, commits[KEY := t], t, SettledTask()));
  }

  function ReceiptingTask(): Job
  {
    JudgedTask().(phase := Receipting(TaskStatus.VerifiedSuccess, true))
  }

  function SettlingTask(): Job
  {
    JudgedTask().(phase := Settling(TaskStatus.VerifiedSuccess, [0]), receipts := [Receipt(true)])
  }

  lemma SaveRuns(jobs: map<TaskId, Job>, commits: map<Text, TaskId>, t: TaskId)
    ensures Run(With(Serving, jobs, commits, t, SettlingTask()), Moves(t, SETTLE[3..])) == Some(With(Serving, jobs, commits, t, SettledTask()))
  {
    GoOn(Serving, jobs, commits, t, SettlingTask(), SETTLE[3..], SettledTask(), commits, [], With(Serving, jobs, commits, t, SettledTask()));
  }

  lemma ReceiptRuns(jobs: map<TaskId, Job>, commits: map<Text, TaskId>, t: TaskId)
    ensures Run(With(Serving, jobs, commits, t, ReceiptingTask()), Moves(t, SETTLE[2..])) == Some(With(Serving, jobs, commits, t, SettledTask()))
  {
    SaveRuns(jobs, commits, t);
    GoOn(Serving, jobs, commits, t, ReceiptingTask(), SETTLE[2..], SettlingTask(), commits, SETTLE[3..],
         With(Serving, jobs, commits, t, SettledTask()));
  }

  lemma CloseRuns(jobs: map<TaskId, Job>, commits: map<Text, TaskId>, t: TaskId)
    requires KEY !in commits
    ensures Run(With(Serving, jobs, commits, t, JudgedTask()), Moves(t, SETTLE[1..]))
      == Some(With(Serving, jobs, commits[KEY := t], t, SettledTask()))
  {
    ReceiptRuns(jobs, commits[KEY := t], t);
    GoOn(Serving, jobs, commits, t, JudgedTask(), SETTLE[1..], ReceiptingTask(), commits[KEY := t], SETTLE[2..],
         With(Serving, jobs, commits[KEY := t], t, SettledTask()));
  }

  lemma CertifyRuns(mode: Mode, jobs: map<TaskId, Job>, commits: map<Text, TaskId>, t: TaskId, job: Job)
    requires job == SettledTask() || job == ReprovenTask()
    ensures Run(With(mode, jobs, commits, t, job), [Do(t, Certify)]) == Some(With(mode, jobs, commits, t, CertifiedTask(job)))
  {
    Go(mode, jobs, commits, t, job, Certify, CertifiedTask(job), commits);
  }

  lemma StampRuns(mode: Mode, jobs: map<TaskId, Job>, commits: map<Text, TaskId>, t: TaskId, job: Job)
    requires job == SettledTask() || job == ReprovenTask()
    ensures Run(With(mode, jobs, commits, t, CertifiedTask(job)), [Do(t, Stamp)])
      == Some(With(mode, jobs, commits, t, StampedTask(job)))
  {
    Go(mode, jobs, commits, t, CertifiedTask(job), Stamp, StampedTask(job), commits);
  }

  lemma FallRuns(s: System, up: System)
    requires s.mode != Down && up == System(Recovering, POLICY, s.clock, Survivors(s.jobs), s.commits, None)
    ensures Run(s, FALL) == Some(up)
  {
    var down := Next(s, Crash);
    One(s, Crash, down);
    One(down, Restart(POLICY), up);
    Chain(s, [Crash], down, [Restart(POLICY)], up);
  }

  /** Both looks of recovery, from what a crash left. */
  lemma LookRuns(jobs: map<TaskId, Job>, commits: map<Text, TaskId>, t: TaskId, job: Job, sights: seq<World>, next: Job)
    requires job.phase.Idle? && job.row.status == TaskStatus.Verifying && job.request == WRITE
    requires sights == THERE || sights == GONE
    requires next == ReobserveJob(job.(phase := Reobserving), sights)
    ensures Run(With(Recovering, jobs, commits, t, job), Moves(t, [Recover, Reobserve(sights)]))
      == Some(With(Recovering, jobs, commits, t, next))
  {
    var looking := job.(phase := Reobserving);
    var look := [Recover, Reobserve(sights)];
    var end := With(Recovering, jobs, commits, t, next);
    assert AboutFiles(WRITE.requiredEvidence[0]);
    GoOn(Recovering, jobs, commits, t, looking, look[1..], next, commits, [], end);
    GoOn(Recovering, jobs, commits, t, job, look, looking, commits, look[1..], end);
  }

  lemma ReclaimRuns(jobs: map<TaskId, Job>, commits: map<Text, TaskId>, t: TaskId, more: map<Text, TaskId>)
    requires more == if KEY in commits then commits else commits[KEY := t]
    ensures Run(With(Recovering, jobs, commits, t, SeenTask()), Moves(t, RECLAIM))
      == Some(With(Recovering, jobs, more, t, ReprovenTask()))
  {
    var end := With(Recovering, jobs, more, t, ReprovenTask());
    var claimed := SeenTask().(phase := Rereceipting);
    GoOn(Recovering, jobs, more, t, claimed, RECLAIM[1..], ReprovenTask(), more, [], end);
    GoOn(Recovering, jobs, commits, t, SeenTask(), RECLAIM, claimed, more, RECLAIM[1..], end);
  }

  lemma ReproveRuns(jobs: map<TaskId, Job>, commits: map<Text, TaskId>, t: TaskId, more: map<Text, TaskId>)
    requires more == if KEY in commits then commits else commits[KEY := t]
    ensures Run(With(Recovering, jobs, commits, t, InterruptedTask()), Moves(t, LOOK) + Moves(t, RECLAIM))
      == Some(With(Recovering, jobs, more, t, ReprovenTask()))
  {
    EvidenceIsThere();
    LookRuns(jobs, commits, t, InterruptedTask(), THERE, SeenTask());
    ReclaimRuns(jobs, commits, t, more);
    Chain(With(Recovering, jobs, commits, t, InterruptedTask()), Moves(t, LOOK), With(Recovering, jobs, commits, t, SeenTask()),
          Moves(t, RECLAIM), With(Recovering, jobs, more, t, ReprovenTask()));
  }

  /** One write, called and answered. */
  const ONE_ANSWERED: seq<Action> := BOOT + (PlanActions(1, WRITE) + (BeginActions(1, WRITE) + Moves(1, ANSWER)))

  lemma OneAnsweredRuns()
    ensures Run(FRESH, ONE_ANSWERED) == Some(With(Serving, map[], map[], 1, AnsweredTask(WRITE)))
  {
    var none: map<TaskId, Job> := map[];
    var s0, s1 := InService(none, map[]), With(Serving, none, map[], 1, PlannedTask(WRITE));
    var s2, s3 := With(Serving, none, map[], 1, CalledTask(WRITE)), With(Serving, none, map[], 1, AnsweredTask(WRITE));
    BootRuns();
    PlanRuns(none, map[], 1, WRITE);
    BeginRuns(none, map[], 1, WRITE);
    AnswerRuns(none, map[], 1, WRITE);
    Chain(s1, BeginActions(1, WRITE), s2, Moves(1, ANSWER), s3);
    Chain(s0, PlanActions(1, WRITE), s1, BeginActions(1, WRITE) + Moves(1, ANSWER), s3);
    Chain(FRESH, BOOT, s0, PlanActions(1, WRITE) + (BeginActions(1, WRITE) + Moves(1, ANSWER)), s3);
  }

  /** A success whose row is saved, and a crash before its certificate is. */
  const LOST_CERTIFICATE: seq<Action> := ONE_ANSWERED + (Moves(1, SETTLE) + [Crash])

  lemma CertificateIsLost()
    ensures Initial(FRESH) && StateAfter(FRESH, LOST_CERTIFICATE).Some?
    ensures var s := StateAfter(FRESH, LOST_CERTIFICATE).value;
      Uncertified(s, 1) && s.jobs[1].row.status == TaskStatus.VerifiedSuccess
  {
    OneAnsweredRuns();
    SettleRuns(map[], map[], 1);
    var answered, settled := With(Serving, map[], map[], 1, AnsweredTask(WRITE)), With(Serving, map[], map[KEY := 1], 1, SettledTask());
    One(settled, Crash, Next(settled, Crash));
    Chain(answered, Moves(1, SETTLE), settled, [Crash], Next(settled, Crash));
    Chain(FRESH, ONE_ANSWERED, answered, Moves(1, SETTLE) + [Crash], Next(settled, Crash));
    RunIsStateAfter(FRESH, LOST_CERTIFICATE);
  }

  /** What the second crash leaves: certified, and still to be verified. */
  function HangingTask(): Job
  {
    CertifiedTask(ReprovenTask()).(phase := Idle, history := After(ReprovenTask().history, Interrupted))
  }

  const SECOND_FALL: seq<Action> := Moves(1, LOOK) + Moves(1, RECLAIM) + ([Do(1, Certify)] + FALL)

  lemma CertifiedFalls()
    ensures Run(With(Recovering, map[], map[KEY := 1], 1, ReprovenTask()), [Do(1, Certify)] + FALL)
      == Some(With(Recovering, map[], map[KEY := 1], 1, HangingTask()))
  {
    var none: map<TaskId, Job> := map[];
    var certified := With(Recovering, none, map[KEY := 1], 1, CertifiedTask(ReprovenTask()));
    var up := With(Recovering, none, map[KEY := 1], 1, HangingTask());
    CertifyRuns(Recovering, none, map[KEY := 1], 1, ReprovenTask());
    assert Survivors(certified.jobs) == up.jobs;
    FallRuns(certified, up);
    Chain(With(Recovering, none, map[KEY := 1], 1, ReprovenTask()), [Do(1, Certify)], certified, FALL, up);
  }

  lemma SecondFallRuns()
    ensures Run(With(Recovering, map[], map[], 1, InterruptedTask()), SECOND_FALL)
      == Some(With(Recovering, map[], map[KEY := 1], 1, HangingTask()))
  {
    var none: map<TaskId, Job> := map[];
    ReproveRuns(none, map[], 1, map[KEY := 1]);
    CertifiedFalls();
    Chain(With(Recovering, none, map[], 1, InterruptedTask()), Moves(1, LOOK) + Moves(1, RECLAIM),
          With(Recovering, none, map[KEY := 1], 1, ReprovenTask()), [Do(1, Certify)] + FALL,
          With(Recovering, none, map[KEY := 1], 1, HangingTask()));
  }

  /** Interrupted, seen again, certified, interrupted again, and this time the evidence is gone. */
  const OUTLIVED: seq<Action> := ONE_ANSWERED + (FALL + (SECOND_FALL + Moves(1, LOOK_IN_VAIN)))

  /** The second look failed. */
  function GivenUp(): Job
  {
    ReobserveJob(HangingTask().(phase := Reobserving), GONE)
  }

  lemma SecondLookFails()
    ensures Run(With(Recovering, map[], map[], 1, InterruptedTask()), SECOND_FALL + Moves(1, LOOK_IN_VAIN))
      == Some(With(Recovering, map[], map[KEY := 1], 1, GivenUp()))
    ensures GivenUp().row.status == TaskStatus.RecoveryRequired && JobCertified(GivenUp())
  {
    var none: map<TaskId, Job> := map[];
    SecondFallRuns();
    LookRuns(none, map[KEY := 1], 1, HangingTask(), GONE, GivenUp());
    EvidenceIsThere();
    Chain(With(Recovering, none, map[], 1, InterruptedTask()), SECOND_FALL, With(Recovering, none, map[KEY := 1], 1, HangingTask()),
          Moves(1, LOOK_IN_VAIN), With(Recovering, none, map[KEY := 1], 1, GivenUp()));
  }

  lemma CertificateOutlives()
    ensures Initial(FRESH) && StateAfter(FRESH, OUTLIVED).Some? && Outlived(StateAfter(FRESH, OUTLIVED).value, 1)
  {
    var none: map<TaskId, Job> := map[];
    var answered, up := With(Serving, none, map[], 1, AnsweredTask(WRITE)), With(Recovering, none, map[], 1, InterruptedTask());
    var end := With(Recovering, none, map[KEY := 1], 1, GivenUp());
    OneAnsweredRuns();
    assert Survivors(answered.jobs) == up.jobs;
    FallRuns(answered, up);
    SecondLookFails();
    Chain(answered, FALL, up, SECOND_FALL + Moves(1, LOOK_IN_VAIN), end);
    Chain(FRESH, ONE_ANSWERED, answered, FALL + (SECOND_FALL + Moves(1, LOOK_IN_VAIN)), end);
    RunIsStateAfter(FRESH, OUTLIVED);
  }

  // two tasks, both begun while the key is free

  function Both(first: Request): seq<Action>
  {
    BOOT + (PlanActions(1, first) + (PlanActions(2, WRITE) + (BeginActions(1, first) + BeginActions(2, WRITE))))
  }

  function BothBegun(first: Request): System
  {
    With(Serving, map[1 := CalledTask(first)], map[], 2, CalledTask(WRITE))
  }

  function BothPlanned(first: Request): System
  {
    With(Serving, map[1 := PlannedTask(first)], map[], 2, PlannedTask(WRITE))
  }

  lemma BothBegin(first: Request)
    requires first == WRITE || first == READ
    ensures Run(BothPlanned(first), BeginActions(1, first) + BeginActions(2, WRITE)) == Some(BothBegun(first))
  {
    var p1, p2, c1 := map[1 := PlannedTask(first)], map[2 := PlannedTask(WRITE)], map[1 := CalledTask(first)];
    assert p1[2 := PlannedTask(WRITE)] == p2[1 := PlannedTask(first)];
    BeginRuns(p2, map[], 1, first);
    assert p2[1 := CalledTask(first)] == c1[2 := PlannedTask(WRITE)];
    BeginRuns(c1, map[], 2, WRITE);
    Chain(BothPlanned(first), BeginActions(1, first), With(Serving, p2, map[], 1, CalledTask(first)),
          BeginActions(2, WRITE), BothBegun(first));
  }

  lemma BothRun(first: Request)
    requires first == WRITE || first == READ
    ensures Run(FRESH, Both(first)) == Some(BothBegun(first))
  {
    var none: map<TaskId, Job> := map[];
    var p1 := map[1 := PlannedTask(first)];
    var s0, s1, s2, end := InService(none, map[]), InService(p1, map[]), BothPlanned(first), BothBegun(first);
    var begun := BeginActions(1, first) + BeginActions(2, WRITE);
    BootRuns();
    PlanRuns(none, map[], 1, first);
    assert none[1 := PlannedTask(first)] == p1;
    PlanRuns(p1, map[], 2, WRITE);
    BothBegin(first);
    Chain(s1, PlanActions(2, WRITE), s2, begun, end);
    Chain(s0, PlanActions(1, first), s1, PlanActions(2, WRITE) + begun, end);
    Chain(FRESH, BOOT, s0, PlanActions(1, first) + (PlanActions(2, WRITE) + begun), end);
  }

  /** The second task succeeds and takes the key. */
  const SUCCEED: seq<Action> := Moves(2, ANSWER) + (Moves(2, SETTLE) + ([Do(2, Certify)] + [Do(2, Stamp)]))

  lemma SucceedRuns(jobs: map<TaskId, Job>)
    ensures Run(With(Serving, jobs, map[], 2, CalledTask(WRITE)), SUCCEED)
      == Some(With(Serving, jobs, map[KEY := 2], 2, StampedTask(SettledTask())))
  {
    var called, answered := With(Serving, jobs, map[], 2, CalledTask(WRITE)), With(Serving, jobs, map[], 2, AnsweredTask(WRITE));
    var settled := With(Serving, jobs, map[KEY := 2], 2, SettledTask());
    var certified := With(Serving, jobs, map[KEY := 2], 2, CertifiedTask(SettledTask()));
    var end := With(Serving, jobs, map[KEY := 2], 2, StampedTask(SettledTask()));
    AnswerRuns(jobs, map[], 2, WRITE);
    SettleRuns(jobs, map[], 2);
    CertifyRuns(Serving, jobs, map[KEY := 2], 2, SettledTask());
    StampRuns(Serving, jobs, map[KEY := 2], 2, SettledTask());
    Chain(settled, [Do(2, Certify)], certified, [Do(2, Stamp)], end);
    Chain(answered, Moves(2, SETTLE), settled, [Do(2, Certify)] + [Do(2, Stamp)], end);
    Chain(called, Moves(2, ANSWER), answered, Moves(2, SETTLE) + ([Do(2, Certify)] + [Do(2, Stamp)]), end);
  }

  /** A read and a write under one key, both begun; the write succeeds; the first attempt of the read fails. */
  const LATE_ATTEMPT: seq<Action> := Both(READ) + (SUCCEED + [Do(1, Throw)])

  lemma ReadIsAttemptedAfterTheCommit()
    ensures Initial(FRESH) && StateAfter(FRESH, LATE_ATTEMPT).Some?
    ensures var s := StateAfter(FRESH, LATE_ATTEMPT).value;
      Enabled(s, Do(1, Call)) && s.jobs[1].phase.attempt == 2 && !KeyFree(s.jobs[1].row.key, s.commits)
  {
    var c1 := map[1 := CalledTask(READ)];
    var d2 := map[2 := StampedTask(SettledTask())];
    var again := CalledTask(READ).(phase := Attempting(2, GATE));
    var s1, s2 := With(Serving, c1, map[], 2, CalledTask(WRITE)), With(Serving, c1, map[KEY := 2], 2, StampedTask(SettledTask()));
    var end := With(Serving, d2, map[KEY := 2], 1, again);
    BothRun(READ);
    SucceedRuns(c1);
    assert c1[2 := StampedTask(SettledTask())] == d2[1 := CalledTask(READ)];
    Go(Serving, d2, map[KEY := 2], 1, CalledTask(READ), Throw, again, map[KEY := 2]);
    Chain(s1, SUCCEED, s2, [Do(1, Throw)], end);
    Chain(FRESH, Both(READ), s1, SUCCEED + [Do(1, Throw)], end);
    RunIsStateAfter(FRESH, LATE_ATTEMPT);
  }

  /** What is left of the first task after the crash: recovery sees its evidence and certifies it too. */
  const RECOVER_FIRST: seq<Action> := Moves(1, LOOK) + Moves(1, RECLAIM) + ([Do(1, Certify)] + [Do(1, Stamp)])

  lemma RecoverFirstRuns(jobs: map<TaskId, Job>, commits: map<Text, TaskId>)
    requires KEY in commits
    ensures Run(With(Recovering, jobs, commits, 1, InterruptedTask()), RECOVER_FIRST)
      == Some(With(Recovering, jobs, commits, 1, StampedTask(ReprovenTask())))
  {
    var s, reproven := With(Recovering, jobs, commits, 1, InterruptedTask()), With(Recovering, jobs, commits, 1, ReprovenTask());
    var certified := With(Recovering, jobs, commits, 1, CertifiedTask(ReprovenTask()));
    var end := With(Recovering, jobs, commits, 1, StampedTask(ReprovenTask()));
    ReproveRuns(jobs, commits, 1, commits);
    CertifyRuns(Recovering, jobs, commits, 1, ReprovenTask());
    StampRuns(Recovering, jobs, commits, 1, ReprovenTask());
    Chain(reproven, [Do(1, Certify)], certified, [Do(1, Stamp)], end);
    Chain(s, Moves(1, LOOK) + Moves(1, RECLAIM), reproven, [Do(1, Certify)] + [Do(1, Stamp)], end);
  }

  /** Two writes under one key, both called and answered; one succeeds, a crash catches the other. */
  const TWO_SUCCESSES: seq<Action> := Both(WRITE) + (SUCCEED + SUCCEED_AFTER_A_CRASH)

  const SUCCEED_AFTER_A_CRASH: seq<Action> := Moves(1, ANSWER) + (FALL + RECOVER_FIRST)

  /** The state of the second task once it has succeeded. */
  function Winner(): Job
  {
    StampedTask(SettledTask())
  }

  function Shared(): System
  {
    With(Recovering, map[2 := Winner()], map[KEY := 2], 1, StampedTask(ReprovenTask()))
  }

  lemma SecondSuccessRuns()
    ensures Run(With(Serving, map[2 := Winner()], map[KEY := 2], 1, CalledTask(WRITE)), SUCCEED_AFTER_A_CRASH) == Some(Shared())
  {
    var d2, commits := map[2 := Winner()], map[KEY := 2];
    var called, answered := With(Serving, d2, commits, 1, CalledTask(WRITE)), With(Serving, d2, commits, 1, AnsweredTask(WRITE));
    var up := With(Recovering, d2, commits, 1, InterruptedTask());
    AnswerRuns(d2, commits, 1, WRITE);
    assert Survivors(answered.jobs) == up.jobs;
    FallRuns(answered, up);
    RecoverFirstRuns(d2, commits);
    Chain(answered, FALL, up, RECOVER_FIRST, Shared());
    Chain(called, Moves(1, ANSWER), answered, FALL + RECOVER_FIRST, Shared());
  }

  lemma TwoSuccessesUnderOneKey()
    ensures Initial(FRESH) && StateAfter(FRESH, TWO_SUCCESSES).Some?
    ensures var s := StateAfter(FRESH, TWO_SUCCESSES).value;
      1 in s.jobs && 2 in s.jobs && s.jobs[1].row.key == s.jobs[2].row.key == Some(KEY)
      && s.jobs[1].row.status == s.jobs[2].row.status == TaskStatus.VerifiedSuccess && s.commits == map[KEY := 2]
  {
    var c1 := map[1 := CalledTask(WRITE)];
    var s2 := With(Serving, c1, map[KEY := 2], 2, Winner());
    BothRun(WRITE);
    SucceedRuns(c1);
    assert c1[2 := Winner()] == map[2 := Winner()][1 := CalledTask(WRITE)];
    SecondSuccessRuns();
    Chain(BothBegun(WRITE), SUCCEED, s2, SUCCEED_AFTER_A_CRASH, Shared());
    Chain(FRESH, Both(WRITE), BothBegun(WRITE), SUCCEED + SUCCEED_AFTER_A_CRASH, Shared());
    RunIsStateAfter(FRESH, TWO_SUCCESSES);
  }
}
