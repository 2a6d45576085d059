/**
  The consecutive-failure breaker of packages/runtime-core/src/circuit-breaker.ts.

  The object keeps one count and one time per target. The specification is the full history of what
  was recorded, read without counters: the breaker is open when the latest `threshold` outcomes of
  the target are all failures and the newest is younger than the cooldown.
 */
module CircuitBreakers {
  import opened Wrappers

  datatype Outcome = Failed(target: string, at: int) | Succeeded(target: string)

  datatype Streak = Streak(count: nat, openedAt: int)

  /** What was recorded for one target, oldest first. */
  ghost function Own(history: seq<Outcome>, target: string): (own: seq<Outcome>)
    ensures forall e :: e in own ==> e.target == target
  {
    if history == [] then []
    else
      var before := Own(history[..|history| - 1], target);
      var last := history[|history| - 1];
      if last.target == target then before + [last] else before
  }

  ghost predicate Tripped(own: seq<Outcome>, threshold: int)
  {
    0 < threshold <= |own| && forall i :: |own| - threshold <= i < |own| ==> own[i].Failed?
  }

  /** The specification of `check`. */
  ghost predicate Refuses(history: seq<Outcome>, target: string, threshold: int, cooldownMs: int, now: int)
  {
    var own := Own(history, target);
    Tripped(own, threshold) && now - own[|own| - 1].at < cooldownMs
  }

  /** What the map must hold for a target: the run of failures that ends its history, if there is one. */
  ghost function Trailing(own: seq<Outcome>): (s: Option<Streak>)
  {
    if own == [] || own[|own| - 1].Succeeded? then None
    else
      var before := Trailing(own[..|own| - 1]);
      Some(Streak(1 + (if before.Some? then before.value.count else 0), own[|own| - 1].at))
  }

  lemma {:induction false} TrailingCounts(own: seq<Outcome>, threshold: int)
    requires threshold > 0
    ensures Tripped(own, threshold) <==> Trailing(own).Some? && Trailing(own).value.count >= threshold
    ensures Trailing(own).Some? ==> own != [] && own[|own| - 1].Failed? && Trailing(own).value.openedAt == own[|own| - 1].at
  {
    if own != [] && own[|own| - 1].Failed? {
      var rest := own[..|own| - 1];
      if threshold > 1 {
        TrailingCounts(rest, threshold - 1);
        assert Tripped(own, threshold) ==> Tripped(rest, threshold - 1);
        if Tripped(rest, threshold - 1) {
          forall i | |own| - threshold <= i < |own| ensures own[i].Failed? {
            assert i < |rest| ==> own[i] == rest[i];
          }
        }
      }
    }
  }

  class CircuitBreaker {
    const threshold: int
    const cooldownMs: int
    var failures: map<string, Streak>
    ghost var history: seq<Outcome>

    /** The two-field map agrees with the full history, for every target at once. */
    ghost predicate Valid()
      reads this
    {
      if threshold <= 0 then failures == map[]
      else forall t ::
          (t in failures <==> Trailing(Own(history, t)).Some?)
          && (t in failures ==> Trailing(Own(history, t)) == Some(failures[t]))
    }

    constructor (threshold: int, cooldownMs: int)
      ensures Valid() && history == []
      ensures this.threshold == threshold && this.cooldownMs == cooldownMs
    {
      this.threshold, this.cooldownMs := threshold, cooldownMs;
      failures, history := map[], [];
    }

    method Check(target: string, now: int) returns (reason: Option<string>)
      requires Valid()
      ensures reason.Some? <==> Refuses(history, target, threshold, cooldownMs, now)
      ensures reason.Some? ==> reason.value == "circuit_open:" + target
    {
      if threshold <= 0 {
        return None;
      }
      TrailingCounts(Own(history, target), threshold);
      if target !in failures || failures[target].count < threshold {
        return None;
      }
      if now - failures[target].openedAt >= cooldownMs {
        return None;
      }
      return Some("circuit_open:" + target);
    }

    method RecordFailure(target: string, now: int)
      requires Valid()
      modifies this
      ensures Valid() && history == old(history) + [Failed(target, now)]
    {
      history := history + [Failed(target, now)];
      assert history[..|history| - 1] == old(history);
      if threshold <= 0 {
        return;
      }
      ghost var own := Own(history, target);
      assert own[..|own| - 1] == Own(old(history), target);
      var count := (if target in failures then failures[target].count else 0) + 1;
      failures := failures[target := Streak(count, now)];
    }

    method RecordSuccess(target: string)
      requires Valid()
      modifies this
      ensures Valid() && history == old(history) + [Succeeded(target)]
    {
      history := history + [Succeeded(target)];
      assert history[..|history| - 1] == old(history);
      failures := failures - {target};
    }
  }

  /** Past the cooldown one attempt goes through; a single failed trial then closes the gate again. */
  lemma FailedTrialReopens(history: seq<Outcome>, target: string, threshold: int, cooldownMs: int, at: int, now: int)
    requires Tripped(Own(history, target), threshold)
    ensures Refuses(history + [Failed(target, at)], target, threshold, cooldownMs, now) <==> now - at < cooldownMs
  {
    var after := history + [Failed(target, at)];
    assert after[..|history|] == history;
    var own, before := Own(after, target), Own(history, target);
    assert own == before + [Failed(target, at)];
    forall i | |own| - threshold <= i < |own| ensures own[i].Failed? {
      assert i < |before| ==> own[i] == before[i];
    }
  }

  lemma SuccessCloses(history: seq<Outcome>, target: string, threshold: int, cooldownMs: int, now: int)
    ensures !Refuses(history + [Succeeded(target)], target, threshold, cooldownMs, now)
  {
    assert (history + [Succeeded(target)])[..|history|] == history;
  }

  /** Whatever is recorded for other targets, in any number, never changes the answer for this one. */
  lemma {:induction false} TargetsAreIndependent(history: seq<Outcome>, others: seq<Outcome>, target: string,
                                                 threshold: int, cooldownMs: int, now: int)
    requires forall e :: e in others ==> e.target != target
    ensures Refuses(history + others, target, threshold, cooldownMs, now)
       <==> Refuses(history, target, threshold, cooldownMs, now)
  {
    if others == [] {
      assert history + others == history;
    } else {
      var last := others[|others| - 1];
      var init := others[..|others| - 1];
      assert last in others && forall e :: e in init ==> e in others;
      TargetsAreIndependent(history, init, target, threshold, cooldownMs, now);
      assert (history + others)[..|history + others| - 1] == history + init;
      assert Own(history + others, target) == Own(history + init, target);
    }
  }
}
