/** Mutual exclusion between instances, and exactly what it needs of Unlock. */
module LeaseExclusion {
  import opened Wrappers
  import opened LeaseProtocol

  // ---------- Windows of the writes that reached the server ----------

  /** An open window means the Lease on the server is that very write. */
  ghost predicate WindowsBacked(s: State) {
    && Consistent(s)
    && (forall id: LeaseId :: id in s.written ==> s.written[id] <= s.clock)
    && (forall id: LeaseId :: Open(s, s.written, id) ==>
      s.lease.Some? && s.lease.value.record.holder == id && s.lease.value.record.renewTime == s.written[id])
  }

  lemma {:induction false} StepKeepsWindowsBacked(s: State, step: Step)
    requires WindowsBacked(s) && UnlockSafe(s, step, Written)
    ensures WindowsBacked(Apply(s, step))
  {
    StepConsistent(s, step);
    assert Windows(s, Written) == s.written;
    var t := Apply(s, step);
    forall id: LeaseId | Open(t, t.written, id)
      ensures t.lease.Some? && t.lease.value.record.holder == id && t.lease.value.record.renewTime == t.written[id]
    {
      if step.Write? && Enabled(s, step) {
        var a := s.attempts[step.slot];
        assert AttemptConsistent(s, a);
        if id != a.id { assert Open(s, s.written, id); }
      } else {
        assert Open(s, s.written, id);
      }
    }
  }

  lemma {:induction false} RunKeepsWindowsBacked(s: State, steps: seq<Step>)
    requires WindowsBacked(s) && Disciplined(s, steps, Written)
    ensures WindowsBacked(Run(s, steps))
    decreases |steps|
  {
    if steps != [] {
      StepKeepsWindowsBacked(s, steps[0]);
      RunKeepsWindowsBacked(Apply(s, steps[0]), steps[1..]);
    }
  }

  /** Over every interleaving of any number of instances and goroutines, with lagging clocks, lost
      replies and late requests, no two instances ever have an open window. */
  lemma {:induction false} MutualExclusion(s: State, steps: seq<Step>)
    requires (Fresh(s) || WindowsBacked(s)) && Disciplined(s, steps, Written)
    ensures Exclusive(Run(s, steps), Run(s, steps).written)
  {
    RunKeepsWindowsBacked(s, steps);
  }

  /** A caller that unlocks within its own window is always safe. */
  lemma OwnWindowSuffices(s: State, id: LeaseId)
    requires WindowsBacked(s) && Open(s, s.written, id)
    ensures UnlockSafe(s, Unlock(id), Written)
  {
  }

  lemma {:induction false} OwnUnlocksDisciplined(s: State, steps: seq<Step>)
    requires WindowsBacked(s) && OwnUnlocks(s, steps, Written)
    ensures Disciplined(s, steps, Written)
    decreases |steps|
  {
    if steps != [] {
      if steps[0].Unlock? { OwnWindowSuffices(s, steps[0].holder); }
      StepKeepsWindowsBacked(s, steps[0]);
      OwnUnlocksDisciplined(Apply(s, steps[0]), steps[1..]);
    }
  }

  /** So runs in which every Unlock lands in its caller's own window are exclusive. */
  lemma OwnUnlocksExclude(s: State, steps: seq<Step>)
    requires (Fresh(s) || WindowsBacked(s)) && OwnUnlocks(s, steps, Written)
    ensures Exclusive(Run(s, steps), Run(s, steps).written)
  {
    OwnUnlocksDisciplined(s, steps);
    MutualExclusion(s, steps);
  }

  /** An Unlock under another instance's open window hands the lock to a second holder at once. */
  lemma LateUnlockBreaks(s: State, id: LeaseId, victim: LeaseId, slot: nat)
    requires WindowsBacked(s) && Open(s, s.written, victim) && id != victim && slot !in s.attempts
    ensures var after := Apply(s, Unlock(id));
            var end := Run(after, Acquire(id, slot));
            && Disciplined(after, Acquire(id, slot), Written)
            && Open(end, end.written, id) && Open(end, end.written, victim)
  {
    AcquireRuns(Apply(s, Unlock(id)), id, slot);
    NoUnlockDisciplined(Apply(s, Unlock(id)), Acquire(id, slot), Written);
  }

  /** The exact condition: an Unlock leaves every later run exclusive if and only if it does not
      land under another instance's open window. */
  lemma UnlockExactly(s: State, id: LeaseId)
    requires WindowsBacked(s)
    ensures UnlockSafe(s, Unlock(id), Written) <==>
            forall steps :: Disciplined(Apply(s, Unlock(id)), steps, Written) ==>
              Exclusive(Run(Apply(s, Unlock(id)), steps), Run(Apply(s, Unlock(id)), steps).written)
  {
    var after := Apply(s, Unlock(id));
    if UnlockSafe(s, Unlock(id), Written) {
      StepKeepsWindowsBacked(s, Unlock(id));
      forall steps | Disciplined(after, steps, Written)
        ensures Exclusive(Run(after, steps), Run(after, steps).written)
      {
        MutualExclusion(after, steps);
      }
    } else {
      var victim: LeaseId :| victim != id && Open(s, s.written, victim);
      var slot := FreshSlot(s.attempts.Keys);
      LateUnlockBreaks(s, id, victim, slot);
      assert Disciplined(after, Acquire(id, slot), Written);
      assert !Exclusive(Run(after, Acquire(id, slot)), Run(after, Acquire(id, slot)).written);
    }
  }
}
