/**
  Who may advance a workflow, packages/runtime-core/src/workflow-controller.ts and the lease table of
  packages/storage-sqlite/src/index.ts: inside a process, a chain of promises per workflow; between
  processes, an expiring lease; at commit, a compare-and-swap on the version.

  One workflow, any number of processes, one shared clock. Every step below is one turn of an event loop
  or one SQLite transaction; they interleave in any order, and a process may crash between any two.
 */
module AdvanceProtocol {
  import opened Wrappers
  import opened Protocol

  type Owner = nat

  // ----- the lease row

  datatype Lease = Lease(owner: Owner, expiresAt: int)

  /** `acquireWorkflowLease`: refused while another owner's lease is unexpired. */
  predicate Grants(row: Option<Lease>, owner: Owner, now: int)
  {
    row.None? || row.value.owner == owner || row.value.expiresAt <= now
  }

  /** `renewWorkflowLease`: only the owner of the row, whether or not it has expired. */
  function Renewed(row: Option<Lease>, owner: Owner, expiresAt: int): Option<Lease>
  {
    if row.Some? && row.value.owner == owner then Some(Lease(owner, expiresAt)) else row
  }

  /** `releaseWorkflowLease` */
  function Released(row: Option<Lease>, owner: Owner): Option<Lease>
  {
    if row.Some? && row.value.owner == owner then None else row
  }

  class LeaseTable {
    var rows: map<WorkflowId, Lease>

    constructor ()
      ensures rows == map[]
    {
      rows := map[];
    }

    function Row(id: WorkflowId): Option<Lease>
      reads this
    {
      if id in rows then Some(rows[id]) else None
    }

    method Acquire(id: WorkflowId, owner: Owner, now: int, expiresAt: int) returns (granted: bool)
      modifies this
      ensures granted <==> Grants(old(Row(id)), owner, now)
      ensures rows == if granted then old(rows)[id := Lease(owner, expiresAt)] else old(rows)
    {
      if id in rows && rows[id].owner != owner && rows[id].expiresAt > now {
        return false;
      }
      rows := rows[id := Lease(owner, expiresAt)];
      return true;
    }

    method Renew(id: WorkflowId, owner: Owner, expiresAt: int) returns (renewed: bool)
      modifies this
      ensures Row(id) == Renewed(old(Row(id)), owner, expiresAt)
      ensures renewed <==> old(Row(id)).Some? && old(Row(id)).value.owner == owner
      ensures rows - {id} == old(rows) - {id}
    {
      renewed := id in rows && rows[id].owner == owner;
      if renewed {
        rows := rows[id := Lease(owner, expiresAt)];
      }
    }

    method Release(id: WorkflowId, owner: Owner)
      modifies this
      ensures Row(id) == Released(old(Row(id)), owner)
      ensures rows - {id} == old(rows) - {id}
    {
      if id in rows && rows[id].owner == owner {
        rows := rows - {id};
      }
    }
  }

  // ----- the system

  /** An advance call: waiting for its predecessor, inside the body, or settled. */
  datatype Phase =
    | Waiting
    | InBody(until: int, read: Option<nat>)
    | Settled

  datatype Call = Call(predecessor: Option<nat>, phase: Phase)

  /** The calls of one process for this workflow, in call order, and the entry of the `advances` map. */
  datatype Process = Process(calls: seq<Call>, tail: Option<nat>)

  datatype Commit = Commit(owner: Owner, from: nat, to: nat)

  datatype System = System(
    clock: int,
    lease: Option<Lease>,
    processes: map<Owner, Process>,
    used: set<Owner>,
    version: nat,
    commits: seq<Commit>)

  datatype Action =
    | Tick(elapsed: nat)
    | Boot(p: Owner)
    | Crash(p: Owner)
    | Invoke(p: Owner)
    | Begin(p: Owner, c: nat, duration: nat)
    | Renew(p: Owner, c: nat, duration: nat)
    | ReadRun(p: Owner, c: nat)
    | CommitRun(p: Owner, c: nat, events: nat)
    | Transition(p: Owner, events: nat)
    | Finish(p: Owner, c: nat)
    | Cleanup(p: Owner, c: nat)

  function Initial(): System
  {
    System(0, None, map[], {}, 1, [])
  }

  predicate HasCall(s: System, p: Owner, c: nat)
  {
    p in s.processes && c < |s.processes[p].calls|
  }

  function PhaseOf(s: System, p: Owner, c: nat): Phase
    requires HasCall(s, p, c)
  {
    s.processes[p].calls[c].phase
  }

  function SetPhase(s: System, p: Owner, c: nat, phase: Phase): System
    requires HasCall(s, p, c)
  {
    var process := s.processes[p];
    s.(processes := s.processes[p := process.(calls := process.calls[c := process.calls[c].(phase := phase)])])
  }

  /** The predecessor promise, if there is one, has settled. */
  predicate Unblocked(process: Process, c: nat)
    requires c < |process.calls|
  {
    var predecessor := process.calls[c].predecessor;
    predecessor.None? || (predecessor.value < |process.calls| && process.calls[predecessor.value].phase.Settled?)
  }

  predicate InsideBody(s: System, p: Owner, c: nat)
  {
    HasCall(s, p, c) && PhaseOf(s, p, c).InBody?
  }

  predicate Enabled(s: System, a: Action)
  {
    match a
    case Tick(_) => true
    case Boot(p) => p !in s.used
    case Crash(p) => p in s.processes
    case Invoke(p) => p in s.processes
    case Begin(p, c, _) => HasCall(s, p, c) && PhaseOf(s, p, c).Waiting? && Unblocked(s.processes[p], c)
    case Renew(p, c, _) => InsideBody(s, p, c)
    case ReadRun(p, c) => InsideBody(s, p, c)
    case CommitRun(p, c, events) => InsideBody(s, p, c) && PhaseOf(s, p, c).read.Some? && events > 0
    case Transition(p, events) => p in s.processes && events > 0
    case Finish(p, c) => InsideBody(s, p, c)
    case Cleanup(p, c) => HasCall(s, p, c) && PhaseOf(s, p, c).Settled?
  }

  function Next(s: System, a: Action): System
    requires Enabled(s, a)
  {
    match a
    case Tick(elapsed) => s.(clock := s.clock + elapsed)
    // an owner is a fresh UUID per controller, so a restarted process is a new one
    case Boot(p) => s.(processes := s.processes[p := Process([], None)], used := s.used + {p})
    case Crash(p) => s.(processes := s.processes - {p})
    case Invoke(p) =>
      var process := s.processes[p];
      s.(processes := s.processes[p := Process(process.calls + [Call(process.tail, Waiting)], Some(|process.calls|))])
    case Begin(p, c, duration) =>
      if Grants(s.lease, p, s.clock)
      then SetPhase(s, p, c, InBody(s.clock + duration, None)).(lease := Some(Lease(p, s.clock + duration)))
      else SetPhase(s, p, c, Settled)
    case Renew(p, c, duration) =>
      var row := Renewed(s.lease, p, s.clock + duration);
      if s.lease.Some? && s.lease.value.owner == p
      then SetPhase(s, p, c, PhaseOf(s, p, c).(until := s.clock + duration)).(lease := row)
      else s.(lease := row)
    case ReadRun(p, c) => SetPhase(s, p, c, PhaseOf(s, p, c).(read := Some(s.version)))
    case CommitRun(p, c, events) =>
      var from := PhaseOf(s, p, c).read.value;
      if s.version == from
      then SetPhase(s, p, c, PhaseOf(s, p, c).(read := Some(from + events)))
           .(version := from + events, commits := s.commits + [Commit(p, from, from + events)])
      else s
    // pause, resume, cancel and recovery read the run and commit in one turn, without the lease
    case Transition(p, events) =>
      s.(version := s.version + events, commits := s.commits + [Commit(p, s.version, s.version + events)])
    case Finish(p, c) => SetPhase(s, p, c, Settled).(lease := Released(s.lease, p))
    case Cleanup(p, c) =>
      if s.processes[p].tail == Some(c)
      then s.(processes := s.processes[p := s.processes[p].(tail := None)])
      else s
  }

  /** The system after a list of actions, if each was enabled in its turn. */
  function Run(actions: seq<Action>): Option<System>
  {
    if actions == [] then Some(Initial())
    else
      var before := Run(actions[..|actions| - 1]);
      var a := actions[|actions| - 1];
      if before.None? || !Enabled(before.value, a) then None else Some(Next(before.value, a))
  }

  ghost predicate Reachable(s: System)
  {
    exists actions :: Run(actions) == Some(s)
  }

  // ----- what every step keeps

  ghost predicate AllSettled(calls: seq<Call>, n: nat)
    requires n <= |calls|
  {
    forall b :: 0 <= b < n ==> calls[b].phase.Settled?
  }

  /** A call that has left the waiting line leaves nobody unsettled before it. */
  ghost predicate InOrder(process: Process)
  {
    (forall c :: 0 <= c < |process.calls| ==>
        (process.calls[c].predecessor == if c > 0 then Some(c - 1) else None)
        || (process.calls[c].predecessor.None? && AllSettled(process.calls, c)))
    && (forall c :: 0 <= c < |process.calls| && !process.calls[c].phase.Waiting? ==> AllSettled(process.calls, c))
    && (process.tail.Some? ==> process.tail.value == |process.calls| - 1)
    && (process.tail.None? ==> AllSettled(process.calls, |process.calls|))
  }

  ghost predicate Ordered(s: System)
  {
    forall p :: p in s.processes ==> InOrder(s.processes[p])
  }

  /** The lease as the holder reckons it: it knows the expiry it last wrote. */
  predicate Holds(s: System, p: Owner, c: nat)
  {
    InsideBody(s, p, c) && PhaseOf(s, p, c).until > s.clock
  }

  /** Whoever still reckons to hold the lease owns the row, with exactly that expiry. */
  ghost predicate Fenced(s: System)
  {
    forall p, c :: Holds(s, p, c) ==> s.lease == Some(Lease(p, PhaseOf(s, p, c).until))
  }

  /** Versions only rise, one commit from each. */
  ghost predicate OneCommitPerVersion(s: System)
  {
    (forall i :: 0 <= i < |s.commits| ==> s.commits[i].from < s.commits[i].to <= s.version)
    && forall i, j :: 0 <= i < j < |s.commits| ==> s.commits[i].to <= s.commits[j].from
  }

  ghost predicate Inv(s: System)
  {
    Ordered(s) && Fenced(s) && OneCommitPerVersion(s) && s.processes.Keys <= s.used
  }

  lemma PhaseKeepsOrder(process: Process, c: nat, phase: Phase)
    requires InOrder(process) && c < |process.calls| && AllSettled(process.calls, c) && !phase.Waiting?
    requires !process.calls[c].phase.Settled?
    ensures InOrder(process.(calls := process.calls[c := process.calls[c].(phase := phase)]))
  {
    var calls := process.calls[c := process.calls[c].(phase := phase)];
    forall n | 0 <= n <= |calls| && AllSettled(process.calls, n) ensures AllSettled(calls, n) {
      assert n <= c;
    }
  }

  lemma UnblockedIsNext(process: Process, c: nat)
    requires InOrder(process) && c < |process.calls| && Unblocked(process, c)
    ensures AllSettled(process.calls, c)
  {
  }

  lemma Replaced(s: System, t: System, p: Owner, process: Process)
    requires Ordered(s) && InOrder(process) && t.processes == s.processes[p := process]
    ensures Ordered(t)
  {
  }

  lemma PhaseStep(s: System, t: System, p: Owner, c: nat, phase: Phase)
    requires Ordered(s) && HasCall(s, p, c) && AllSettled(s.processes[p].calls, c)
    requires !PhaseOf(s, p, c).Settled? && !phase.Waiting? && t.processes == SetPhase(s, p, c, phase).processes
    ensures Ordered(t)
  {
    PhaseKeepsOrder(s.processes[p], c, phase);
    var process := s.processes[p];
    Replaced(s, t, p, process.(calls := process.calls[c := process.calls[c].(phase := phase)]));
  }

  lemma BodyStep(s: System, t: System, p: Owner, c: nat, phase: Phase)
    requires Ordered(s) && InsideBody(s, p, c) && !phase.Waiting?
    requires t.processes == s.processes || t.processes == SetPhase(s, p, c, phase).processes
    ensures Ordered(t)
  {
    assert InOrder(s.processes[p]);
    if t.processes != s.processes { PhaseStep(s, t, p, c, phase); }
  }

  lemma InvokeKeepsOrder(process: Process)
    requires InOrder(process)
    ensures InOrder(Process(process.calls + [Call(process.tail, Waiting)], Some(|process.calls|)))
  {
    var more := process.calls + [Call(process.tail, Waiting)];
    forall n: nat | n <= |process.calls| && AllSettled(process.calls, n) ensures AllSettled(more, n) {}
    forall c: nat | c < |more| && !more[c].phase.Waiting? ensures AllSettled(more, c) {
      assert more[c] == process.calls[c] && AllSettled(process.calls, c);
    }
  }

  lemma BeginKeepsOrder(s: System, p: Owner, c: nat, duration: nat)
    requires Ordered(s) && Enabled(s, Begin(p, c, duration))
    ensures Ordered(Next(s, Begin(p, c, duration)))
  {
    var t := Next(s, Begin(p, c, duration));
    UnblockedIsNext(s.processes[p], c);
    PhaseStep(s, t, p, c, PhaseOf(t, p, c));
  }

  lemma OrderedStep(s: System, a: Action)
    requires Ordered(s) && Enabled(s, a)
    ensures Ordered(Next(s, a))
  {
    var t := Next(s, a);
    match a
    case Invoke(p) =>
      InvokeKeepsOrder(s.processes[p]);
      Replaced(s, t, p, t.processes[p]);
    case Begin(p, c, duration) => BeginKeepsOrder(s, p, c, duration);
    case Renew(p, c, _) => BodyStep(s, t, p, c, PhaseOf(t, p, c));
    case ReadRun(p, c) => BodyStep(s, t, p, c, PhaseOf(t, p, c));
    case CommitRun(p, c, _) => BodyStep(s, t, p, c, PhaseOf(t, p, c));
    case Finish(p, c) => BodyStep(s, t, p, c, Settled);
    case Cleanup(p, c) =>
      if s.processes[p].tail == Some(c) {
        CleanupKeepsOrder(s.processes[p], c);
        Replaced(s, t, p, t.processes[p]);
      }
    case _ =>
  }

  /** The map entry is removed only when the last call has settled, and then all have. */
  lemma CleanupKeepsOrder(process: Process, c: nat)
    requires InOrder(process) && process.tail == Some(c) && c < |process.calls| && process.calls[c].phase.Settled?
    ensures InOrder(process.(tail := None))
  {
    assert AllSettled(process.calls, c);
  }

  /** Inside one process at most one advance of the workflow is past its waiting line and unsettled. */
  lemma OneBodyPerProcess(s: System, p: Owner, b: nat, c: nat)
    requires Ordered(s) && InsideBody(s, p, b) && InsideBody(s, p, c)
    ensures b == c
  {
    assert AllSettled(s.processes[p].calls, b) && AllSettled(s.processes[p].calls, c);
  }

  /** While a call may begin, no call of that process is inside the body. */
  lemma NobodyInside(s: System, p: Owner, c: nat, d: nat)
    requires Ordered(s) && HasCall(s, p, c) && PhaseOf(s, p, c).Waiting? && Unblocked(s.processes[p], c)
    ensures !InsideBody(s, p, d)
  {
    UnblockedIsNext(s.processes[p], c);
    if HasCall(s, p, d) && d > c {
      assert !AllSettled(s.processes[p].calls, d);
    }
  }

  lemma BeginKeepsFence(s: System, p: Owner, c: nat, duration: nat)
    requires Ordered(s) && Fenced(s) && Enabled(s, Begin(p, c, duration))
    ensures Fenced(Next(s, Begin(p, c, duration)))
  {
    var t := Next(s, Begin(p, c, duration));
    forall d: nat ensures !InsideBody(s, p, d) { NobodyInside(s, p, c, d); }
    forall q, d | Holds(t, q, d) ensures t.lease == Some(Lease(q, PhaseOf(t, q, d).until)) {
      assert (q == p && d == c) || (q != p && Holds(s, q, d) && PhaseOf(s, q, d) == PhaseOf(t, q, d));
    }
  }

  lemma RenewKeepsFence(s: System, p: Owner, c: nat, duration: nat)
    requires Ordered(s) && Fenced(s) && Enabled(s, Renew(p, c, duration))
    ensures Fenced(Next(s, Renew(p, c, duration)))
  {
    var t := Next(s, Renew(p, c, duration));
    forall q, d | Holds(t, q, d) ensures t.lease == Some(Lease(q, PhaseOf(t, q, d).until)) {
      if q == p && d == c {
        if !(s.lease.Some? && s.lease.value.owner == p) { assert Holds(s, p, c); }
      } else {
        assert Holds(s, q, d);
        if q == p { OneBodyPerProcess(s, p, c, d); }
      }
    }
  }

  lemma FinishKeepsFence(s: System, p: Owner, c: nat)
    requires Ordered(s) && Fenced(s) && Enabled(s, Finish(p, c))
    ensures Fenced(Next(s, Finish(p, c)))
  {
    var t := Next(s, Finish(p, c));
    forall q, d | Holds(t, q, d) ensures t.lease == Some(Lease(q, PhaseOf(t, q, d).until)) {
      assert !(q == p && d == c);
      assert Holds(s, q, d);
      if q == p { OneBodyPerProcess(s, p, c, d); }
    }
  }

  lemma FencedStep(s: System, a: Action)
    requires Ordered(s) && Fenced(s) && Enabled(s, a)
    ensures Fenced(Next(s, a))
  {
    var t := Next(s, a);
    match a
    case Begin(p, c, duration) => BeginKeepsFence(s, p, c, duration);
    case Renew(p, c, duration) => RenewKeepsFence(s, p, c, duration);
    case Finish(p, c) => FinishKeepsFence(s, p, c);
    case _ =>
      forall q, d | Holds(t, q, d) ensures t.lease == Some(Lease(q, PhaseOf(t, q, d).until)) {
        assert Holds(s, q, d) && PhaseOf(s, q, d).until == PhaseOf(t, q, d).until;
      }
  }

  lemma StepKeepsInv(s: System, a: Action)
    requires Inv(s) && Enabled(s, a)
    ensures Inv(Next(s, a))
  {
    OrderedStep(s, a);
    FencedStep(s, a);
  }

  lemma {:induction false} EveryRunKeepsInv(actions: seq<Action>)
    requires Run(actions).Some?
    ensures Inv(Run(actions).value)
  {
    if actions != [] {
      EveryRunKeepsInv(actions[..|actions| - 1]);
      StepKeepsInv(Run(actions[..|actions| - 1]).value, actions[|actions| - 1]);
    }
  }

  lemma ReachableInv(s: System)
    requires Reachable(s)
    ensures Inv(s)
  {
    var actions :| Run(actions) == Some(s);
    EveryRunKeepsInv(actions);
  }

  // ----- what that means

  /** In every run, at most one process is inside an advance body under an unexpired lease, with one call. */
  lemma MutualExclusion(s: System, p: Owner, b: nat, q: Owner, c: nat)
    requires Reachable(s) && Holds(s, p, b) && Holds(s, q, c)
    ensures p == q && b == c
  {
    ReachableInv(s);
    OneBodyPerProcess(s, p, b, if p == q then c else b);
  }

  /** In every run each process takes its calls one at a time, in call order. */
  lemma CallOrder(s: System, p: Owner, b: nat, c: nat)
    requires Reachable(s) && HasCall(s, p, c) && b < c
    requires !PhaseOf(s, p, c).Waiting?
    ensures PhaseOf(s, p, b).Settled?
  {
    ReachableInv(s);
    assert AllSettled(s.processes[p].calls, c);
  }

  predicate By(a: Action, p: Owner)
  {
    !a.Tick? && a.p == p
  }

  /**
    An unexpired row changes only at its owner's hands: a process whose lease was taken over can neither
    renew nor release the new row, nor begin again.
   */
  lemma RowIsTheOwnersUntilItExpires(s: System, a: Action, q: Owner)
    requires Enabled(s, a) && s.lease.Some? && s.lease.value.owner == q && s.lease.value.expiresAt > s.clock
    requires !By(a, q)
    ensures Next(s, a).lease == s.lease
  {
  }

  /** A holder that was taken over reckons its own lease expired, in every run. */
  lemma TakenOverKnowsIt(s: System, p: Owner, c: nat)
    requires Reachable(s) && InsideBody(s, p, c)
    requires s.lease.None? || s.lease.value.owner != p
    ensures PhaseOf(s, p, c).until <= s.clock
  {
    ReachableInv(s);
    assert Holds(s, p, c) || PhaseOf(s, p, c).until <= s.clock;
  }

  /** In every run at most one commit starts from any version, whoever holds the lease by then. */
  lemma AtMostOneCommitPerVersion(s: System, i: nat, j: nat)
    requires Reachable(s) && i < |s.commits| && j < |s.commits|
    requires s.commits[i].from == s.commits[j].from
    ensures i == j
  {
    ReachableInv(s);
  }

  /** A killed process strands nobody: once its lease has run out, any other process is let in. */
  lemma ExpiredLeaseIsTakenOver(s: System, q: Owner, c: nat, duration: nat)
    requires Enabled(s, Begin(q, c, duration)) && s.lease.Some? && s.lease.value.expiresAt <= s.clock
    ensures InsideBody(Next(s, Begin(q, c, duration)), q, c)
    ensures Next(s, Begin(q, c, duration)).lease == Some(Lease(q, s.clock + duration))
  {
  }

  /** Who begins: a call whose turn it is gets in unless the row is another's and unexpired; else it is over at once. */
  lemma BeginIsExact(s: System, p: Owner, c: nat, duration: nat)
    requires Enabled(s, Begin(p, c, duration))
    ensures var next := Next(s, Begin(p, c, duration));
      && (InsideBody(next, p, c) <==> s.lease.None? || s.lease.value.owner == p || s.lease.value.expiresAt <= s.clock)
      && (InsideBody(next, p, c) ==> next.lease == Some(Lease(p, s.clock + duration)))
      && (!InsideBody(next, p, c) ==> PhaseOf(next, p, c).Settled? && next.lease == s.lease)
  {
  }

  /** A call that ends gives its row back, so that any waiting call whose turn it is gets in next. */
  lemma FinishLetsTheNextIn(s: System, p: Owner, c: nat, q: Owner, d: nat, duration: nat)
    requires Enabled(s, Finish(p, c)) && s.lease.Some? && s.lease.value.owner == p
    requires Enabled(Next(s, Finish(p, c)), Begin(q, d, duration))
    ensures PhaseOf(Next(s, Finish(p, c)), p, c).Settled?
    ensures InsideBody(Next(Next(s, Finish(p, c)), Begin(q, d, duration)), q, d)
  {
  }

  /** A call commits exactly if nobody has since it read the run. */
  lemma CommitsIffUnmoved(s: System, p: Owner, c: nat, events: nat)
    requires Enabled(s, CommitRun(p, c, events))
    ensures var next := Next(s, CommitRun(p, c, events));
      if PhaseOf(s, p, c).read == Some(s.version)
      then next.version == s.version + events && next.commits == s.commits + [Commit(p, s.version, next.version)]
      else next == s
  {
  }

  /** A call that reads and commits with nobody in between does commit. */
  lemma ReadThenCommit(s: System, p: Owner, c: nat, events: nat)
    requires InsideBody(s, p, c) && events > 0
    ensures var read := Next(s, ReadRun(p, c));
      Enabled(read, CommitRun(p, c, events)) && Next(read, CommitRun(p, c, events)).version == s.version + events
  {
  }

  /** A renewal by the owner of the row moves its expiry, in the row and in what the call reckons. */
  lemma RenewalExtends(s: System, p: Owner, c: nat, duration: nat)
    requires Enabled(s, Renew(p, c, duration)) && s.lease.Some? && s.lease.value.owner == p
    ensures Next(s, Renew(p, c, duration)).lease == Some(Lease(p, s.clock + duration))
    ensures duration > 0 ==> Holds(Next(s, Renew(p, c, duration)), p, c)
  {
  }

  /** Only beginning, renewing and ending touch the row, so a crash leaves it to expire; only commits move the version. */
  lemma WhoChangesWhat(s: System, a: Action)
    requires Enabled(s, a)
    ensures Next(s, a).lease != s.lease ==> a.Begin? || a.Renew? || a.Finish?
    ensures Next(s, a).version != s.version ==> a.CommitRun? || a.Transition?
    ensures Next(s, a).version != s.version <==> Next(s, a).commits != s.commits
  {
  }
}
