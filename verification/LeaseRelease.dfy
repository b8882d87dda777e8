/** A released lock stays released until somebody asks for it, whatever renewals are in flight. */
module LeaseRelease {
  import opened Wrappers
  import opened LeaseProtocol

  /** The write of an attempt made by Lock or TryLock, whose Get found no Lease. */
  predicate CreatedByAcquire(s: State, step: Step) {
    && step.Write? && step.slot in s.attempts
    && s.attempts[step.slot].phase == Fetched(None)
    && !s.attempts[step.slot].shouldExist
  }

  /** If a Lease exists after a deletion, some later step of Lock or TryLock created it: no
      interleaving of renewals, late or not, brings it back. */
  lemma {:induction false} NoResurrection(s: State, steps: seq<Step>) returns (at: nat)
    requires s.lease.None? && Run(s, steps).lease.Some?
    ensures at < |steps| && Run(s, steps[..at]).lease.None?
    ensures CreatedByAcquire(Run(s, steps[..at]), steps[at])
    decreases |steps|
  {
    var t := Apply(s, steps[0]);
    if t.lease.Some? {
      at := 0;
    } else {
      var later := NoResurrection(t, steps[1..]);
      at := later + 1;
      assert steps[..at][1..] == steps[1..][..later];
    }
  }

  /** The step does not concern the attempt in `slot`. */
  predicate Avoids(step: Step, slot: nat) {
    match step
    case Tick(_) => true
    case Unlock(_) => true
    case _ => step.slot != slot
  }

  predicate AllAvoid(steps: seq<Step>, slot: nat) {
    forall i :: 0 <= i < |steps| ==> Avoids(steps[i], slot)
  }

  /** The attempt read a Lease that has since been overwritten or deleted. */
  predicate Stale(s: State, slot: nat) {
    && slot in s.attempts && s.attempts[slot].phase.Fetched? && s.attempts[slot].phase.got.Some?
    && s.attempts[slot].phase.got.value.version < s.nextVersion
    && (s.lease.Some? ==> s.lease.value.version != s.attempts[slot].phase.got.value.version)
  }

  /** Once its cached version is gone, an attempt can never write again, not even over a Lease
      that was deleted and created anew. */
  lemma {:induction false} StaleForever(s: State, slot: nat, steps: seq<Step>)
    requires Stale(s, slot) && AllAvoid(steps, slot)
    ensures Stale(Run(s, steps), slot)
    ensures !Accepted(Run(s, steps), DecisionOf(Run(s, steps), slot))
    decreases |steps|
  {
    if steps != [] {
      assert Avoids(steps[0], slot);
      assert forall i :: 0 <= i < |steps[1..]| ==> steps[1..][i] == steps[i + 1];
      StaleForever(Apply(s, steps[0]), slot, steps[1..]);
    }
  }

  /** A refresh that was in flight when Unlock landed is stale from then on. */
  lemma RefreshAfterUnlock(s: State, slot: nat, id: LeaseId, steps: seq<Step>)
    requires Consistent(s) && slot in s.attempts && s.attempts[slot].shouldExist && s.attempts[slot].phase.Fetched?
    requires AllAvoid(steps, slot)
    ensures var t := Run(Apply(s, Unlock(id)), steps);
            && slot in t.attempts && t.attempts[slot].phase.Fetched?
            && !Accepted(t, DecisionOf(t, slot))
  {
    assert AttemptConsistent(s, s.attempts[slot]);
    var after := Apply(s, Unlock(id));
    if s.attempts[slot].phase.got.Some? {
      StaleForever(after, slot, steps);
    } else {
      Undisturbed(after, slot, steps);
    }
  }

  lemma {:induction false} Undisturbed(s: State, slot: nat, steps: seq<Step>)
    requires slot in s.attempts && AllAvoid(steps, slot)
    ensures slot in Run(s, steps).attempts && Run(s, steps).attempts[slot] == s.attempts[slot]
    ensures Run(s, steps).leaseDuration == s.leaseDuration
    decreases |steps|
  {
    if steps != [] {
      assert Avoids(steps[0], slot);
      assert forall i :: 0 <= i < |steps[1..]| ==> steps[1..][i] == steps[i + 1];
      Undisturbed(Apply(s, steps[0]), slot, steps[1..]);
    }
  }
}
