/** Windows the instances were told of, and exactly what they need of a write to be exclusive. */
module LeaseBelief {
  import opened Wrappers
  import opened LeaseProtocol

  /** A window an instance believes open is backed by a Lease that outlasts it. */
  ghost predicate BeliefsBacked(s: State) {
    && Consistent(s)
    && (forall id: LeaseId :: id in s.believed ==> s.believed[id] <= s.clock)
    && (forall id: LeaseId :: Open(s, s.believed, id) ==>
      s.lease.Some? && s.lease.value.record.holder == id && s.lease.value.record.renewTime >= s.believed[id])
  }

  /** A write that lands carries a reading no earlier than the renew time its instance was last told
      of, unless that window has closed. */
  ghost predicate Forward(s: State, step: Step) {
    step.Write? && Enabled(s, step) && Accepted(s, DecisionOf(s, step.slot)) ==>
      var a := s.attempts[step.slot];
      Open(s, s.believed, a.id) ==> s.believed[a.id] <= a.now
  }

  ghost predicate ForwardRun(s: State, steps: seq<Step>)
    decreases |steps|
  {
    steps != [] ==> Forward(s, steps[0]) && ForwardRun(Apply(s, steps[0]), steps[1..])
  }

  /** A write by another instance never lands under an open window. */
  lemma WriteKeepsBeliefsBacked(s: State, slot: nat, acked: bool)
    requires BeliefsBacked(s) && Enabled(s, Write(slot, acked)) && Forward(s, Write(slot, acked))
    ensures BeliefsBacked(Land(s, slot, acked))
  {
    StepConsistent(s, Write(slot, acked));
    var t, a := Land(s, slot, acked), s.attempts[slot];
    assert AttemptConsistent(s, a);
    forall id: LeaseId | Open(t, t.believed, id)
      ensures t.lease.Some? && t.lease.value.record.holder == id && t.lease.value.record.renewTime >= t.believed[id]
    {
      if id != a.id { assert Open(s, s.believed, id); }
    }
  }

  lemma StepKeepsBeliefsBacked(s: State, step: Step)
    requires BeliefsBacked(s) && UnlockSafe(s, step, Believed) && Forward(s, step)
    ensures BeliefsBacked(Apply(s, step))
  {
    StepConsistent(s, step);
    assert Windows(s, Believed) == s.believed;
    if step.Write? && Enabled(s, step) {
      WriteKeepsBeliefsBacked(s, step.slot, step.acked);
    } else {
      var t := Apply(s, step);
      forall id: LeaseId | Open(t, t.believed, id)
        ensures t.lease.Some? && t.lease.value.record.holder == id && t.lease.value.record.renewTime >= t.believed[id]
      {
        assert Open(s, s.believed, id);
      }
    }
  }

  lemma {:induction false} RunKeepsBeliefsBacked(s: State, steps: seq<Step>)
    requires BeliefsBacked(s) && ForwardRun(s, steps) && Disciplined(s, steps, Believed)
    ensures BeliefsBacked(Run(s, steps))
    decreases |steps|
  {
    if steps != [] {
      StepKeepsBeliefsBacked(s, steps[0]);
      RunKeepsBeliefsBacked(Apply(s, steps[0]), steps[1..]);
    }
  }

  /** Over every run whose writes go forward, however the attempts of one instance overlap, no two
      instances ever believe they hold the lock. */
  lemma ForwardExclusion(s: State, steps: seq<Step>)
    requires (Fresh(s) || BeliefsBacked(s)) && ForwardRun(s, steps) && Disciplined(s, steps, Believed)
    ensures Exclusive(Run(s, steps), Run(s, steps).believed)
  {
    RunKeepsBeliefsBacked(s, steps);
  }

  // ---------- What a write that goes back leads to ----------

  /** Another instance waits until the earlier renew time has run out, and takes over. */
  function Takeover(id: LeaseId, slot: nat, wait: nat): seq<Step> {
    [Tick(wait)] + Acquire(id, slot)
  }

  lemma AcquireForward(s: State, id: LeaseId, slot: nat)
    requires slot !in s.attempts && (id in s.believed ==> s.believed[id] <= s.clock)
    ensures ForwardRun(s, Acquire(id, slot))
  {
    var steps := Acquire(id, slot);
    var begun := Apply(s, steps[0]);
    var fetched := Apply(begun, steps[1]);
    assert steps[1..][1..] == [Write(slot, true)] && steps[1..][1..][1..] == [];
    assert Forward(fetched, steps[1..][1..][0]);
    assert ForwardRun(fetched, steps[1..][1..]) && ForwardRun(begun, steps[1..]);
  }

  lemma TakeoverAllowed(s: State, id: LeaseId, slot: nat, wait: nat)
    requires slot !in s.attempts && (id in s.believed ==> s.believed[id] <= s.clock)
    ensures ForwardRun(s, Takeover(id, slot, wait)) && Disciplined(s, Takeover(id, slot, wait), Believed)
  {
    AcquireForward(Apply(s, Tick(wait)), id, slot);
    assert Takeover(id, slot, wait)[1..] == Acquire(id, slot);
    NoUnlockDisciplined(s, Takeover(id, slot, wait), Believed);
  }

  lemma {:induction false} TakeoverRuns(s: State, id: LeaseId, slot: nat, wait: nat)
    requires slot !in s.attempts && Available(s.(clock := s.clock + wait), id)
    ensures var end := Run(s, Takeover(id, slot, wait));
            && end.believed == Latest(s.believed, id, s.clock + wait)
            && end.clock == s.clock + wait && end.leaseDuration == s.leaseDuration && end.attempts == s.attempts
            && end.lease.Some? && end.lease.value.record.holder == id
            && end.lease.value.record.renewTime == s.clock + wait
  {
    var later := s.(clock := s.clock + wait);
    assert Run(s, Takeover(id, slot, wait)) == Run(later, Acquire(id, slot)) by {
      RunOne(s, Tick(wait), Acquire(id, slot));
    }
    AcquireRuns(later, id, slot);
  }

  /** How long the earlier renew time still lasts. */
  function Remaining(s: State, renewTime: int): nat {
    if renewTime + s.leaseDuration > s.clock then renewTime + s.leaseDuration - s.clock else 0
  }

  /** A write that goes back under its own instance's open window lets any other instance in while
      the writer still trusts the later time it was told of. */
  lemma BackwardWriteBreaks(s: State, slot: nat, acked: bool, rival: LeaseId, free: nat)
    requires BeliefsBacked(s) && Enabled(s, Write(slot, acked)) && !Forward(s, Write(slot, acked))
    requires rival != s.attempts[slot].id && free !in s.attempts
    ensures var after := Land(s, slot, acked);
            var steps := Takeover(rival, free, Remaining(s, s.attempts[slot].now));
            && ForwardRun(after, steps) && Disciplined(after, steps, Believed)
            && !Exclusive(Run(after, steps), Run(after, steps).believed)
  {
    var after, a := Land(s, slot, acked), s.attempts[slot];
    var wait := Remaining(s, a.now);
    TakeoverAllowed(after, rival, free, wait);
    TakeoverRuns(after, rival, free, wait);
    var end := Run(after, Takeover(rival, free, wait));
    assert Open(end, end.believed, rival) && Open(end, end.believed, a.id);
  }

  /** The exact condition: a write leaves every later run exclusive if and only if it does not go
      back behind the renew time its instance was last told of while that window is open. */
  lemma WriteExactly(s: State, slot: nat, acked: bool)
    requires BeliefsBacked(s) && Enabled(s, Write(slot, acked))
    ensures Forward(s, Write(slot, acked)) <==>
            forall steps ::
              ForwardRun(Land(s, slot, acked), steps) && Disciplined(Land(s, slot, acked), steps, Believed) ==>
                Exclusive(Run(Land(s, slot, acked), steps), Run(Land(s, slot, acked), steps).believed)
  {
    var after := Land(s, slot, acked);
    if Forward(s, Write(slot, acked)) {
      WriteKeepsBeliefsBacked(s, slot, acked);
      forall steps | ForwardRun(after, steps) && Disciplined(after, steps, Believed)
        ensures Exclusive(Run(after, steps), Run(after, steps).believed)
      {
        ForwardExclusion(after, steps);
      }
    } else {
      var rival: LeaseId := s.attempts[slot].id + "'";
      var free := FreshSlot(s.attempts.Keys);
      BackwardWriteBreaks(s, slot, acked, rival, free);
    }
  }

  // ---------- What an Unlock under another's window leads to ----------

  /** The exact condition of Unlock on this side: it leaves every later run exclusive if and only if no
      other instance believes its window open when it lands. */
  lemma {:induction false} UnlockExactly(s: State, id: LeaseId)
    requires BeliefsBacked(s)
    ensures UnlockSafe(s, Unlock(id), Believed) <==>
            forall steps ::
              ForwardRun(Apply(s, Unlock(id)), steps) && Disciplined(Apply(s, Unlock(id)), steps, Believed) ==>
                Exclusive(Run(Apply(s, Unlock(id)), steps), Run(Apply(s, Unlock(id)), steps).believed)
  {
    var after := Apply(s, Unlock(id));
    assert Windows(s, Believed) == s.believed;
    if UnlockSafe(s, Unlock(id), Believed) {
      StepKeepsBeliefsBacked(s, Unlock(id));
      forall steps | ForwardRun(after, steps) && Disciplined(after, steps, Believed)
        ensures Exclusive(Run(after, steps), Run(after, steps).believed)
      {
        ForwardExclusion(after, steps);
      }
    } else {
      var victim: LeaseId :| victim != id && Open(s, s.believed, victim);
      var slot := FreshSlot(s.attempts.Keys);
      LateUnlockBreaks(s, id, victim, slot);
    }
  }

  lemma {:induction false} LateUnlockBreaks(s: State, id: LeaseId, victim: LeaseId, slot: nat)
    requires BeliefsBacked(s) && Open(s, s.believed, victim) && id != victim && slot !in s.attempts
    ensures var after := Apply(s, Unlock(id));
            var end := Run(after, Acquire(id, slot));
            && ForwardRun(after, Acquire(id, slot)) && Disciplined(after, Acquire(id, slot), Believed)
            && !Exclusive(end, end.believed)
  {
    var after := Apply(s, Unlock(id));
    AcquireRuns(after, id, slot);
    AcquireForward(after, id, slot);
    NoUnlockDisciplined(after, Acquire(id, slot), Believed);
    var end := Run(after, Acquire(id, slot));
    assert Open(end, end.believed, id) && Open(end, end.believed, victim);
  }

  lemma {:induction false} OwnUnlocksDisciplined(s: State, steps: seq<Step>)
    requires BeliefsBacked(s) && ForwardRun(s, steps) && OwnUnlocks(s, steps, Believed)
    ensures Disciplined(s, steps, Believed)
    decreases |steps|
  {
    if steps != [] {
      assert Windows(s, Believed) == s.believed;
      StepKeepsBeliefsBacked(s, steps[0]);
      OwnUnlocksDisciplined(Apply(s, steps[0]), steps[1..]);
    }
  }

  /** An instance that unlocks while it believes its own window open keeps the others exclusive. */
  lemma OwnUnlocksExclude(s: State, steps: seq<Step>)
    requires (Fresh(s) || BeliefsBacked(s)) && ForwardRun(s, steps) && OwnUnlocks(s, steps, Believed)
    ensures Exclusive(Run(s, steps), Run(s, steps).believed)
  {
    OwnUnlocksDisciplined(s, steps);
    ForwardExclusion(s, steps);
  }
}
