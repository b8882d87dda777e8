/** What holds when each instance waits for one attempt at a time and its clock never runs
    backwards: the windows an instance was told of are exclusive too, and the Lease's renew time
    never goes back within a tenure. */
module LeaseSerial {
  import opened Wrappers
  import opened LeaseProtocol
  import opened LeaseBelief

  /** A new attempt of an instance starts only when it waits for no other, with a clock reading
      no earlier than its last. Requests it gave up on may still be under way. */
  ghost predicate SerialBegin(s: State, step: Step) {
    step.Begin? && Enabled(s, step) ==>
      && (forall slot :: slot in s.attempts && s.attempts[slot].id == step.id ==> !s.attempts[slot].awaited)
      && (step.id in s.sampled ==> s.sampled[step.id] <= s.clock - step.lag)
  }

  ghost predicate SerialRun(s: State, steps: seq<Step>)
    decreases |steps|
  {
    steps != [] ==> SerialBegin(s, steps[0]) && SerialRun(Apply(s, steps[0]), steps[1..])
  }

  // ---------- Clock readings ----------

  /** The awaited attempt of an instance carries its latest reading, and an attempt that found its
      own record carries a reading no earlier than that record's. */
  predicate InOrder(s: State, a: Attempt) {
    && a.id in s.sampled
    && a.now <= s.sampled[a.id]
    && (a.awaited ==> a.now == s.sampled[a.id])
    && (a.phase.Fetched? && a.phase.got.Some? && a.phase.got.value.record.holder == a.id ==>
      a.phase.got.value.record.renewTime <= a.now)
  }

  /** Every renewal on record is at least as late as the one before it in the same tenure. */
  predicate RenewalsForward(log: seq<Record>) {
    forall i :: 0 <= i < |log| - 1 && log[i].holder == log[i + 1].holder ==>
      log[i].renewTime <= log[i + 1].renewTime
  }

  ghost predicate Serial(s: State) {
    && Consistent(s)
    && (forall slot :: slot in s.attempts ==> InOrder(s, s.attempts[slot]))
    && (s.lease.Some? ==>
      && s.lease.value.record.holder != "" && s.lease.value.record.holder in s.sampled
      && s.lease.value.record.renewTime <= s.sampled[s.lease.value.record.holder]
      && s.log != [] && s.log[|s.log| - 1] == s.lease.value.record)
    && RenewalsForward(s.log)
  }

  lemma RenewalsSnoc(log: seq<Record>, r: Record)
    requires RenewalsForward(log)
    requires log != [] && log[|log| - 1].holder == r.holder ==> log[|log| - 1].renewTime <= r.renewTime
    ensures RenewalsForward(log + [r])
  {
    var all := log + [r];
    forall i | 0 <= i < |all| - 1 && all[i].holder == all[i + 1].holder
      ensures all[i].renewTime <= all[i + 1].renewTime
    {
      if i < |log| - 1 { assert all[i] == log[i] && all[i + 1] == log[i + 1]; }
    }
  }

  lemma WriteKeepsOrder(s: State, slot: nat, acked: bool)
    requires Serial(s) && Enabled(s, Write(slot, acked))
    ensures forall other :: other in Land(s, slot, acked).attempts ==>
              InOrder(Land(s, slot, acked), Land(s, slot, acked).attempts[other])
  {
    var t := Land(s, slot, acked);
    forall other | other in t.attempts ensures InOrder(t, t.attempts[other]) {
      assert InOrder(s, s.attempts[other]);
    }
  }

  lemma WriteKeepsSerial(s: State, slot: nat, acked: bool)
    requires Serial(s) && Enabled(s, Write(slot, acked))
    ensures Serial(Land(s, slot, acked))
  {
    StepConsistent(s, Write(slot, acked));
    var a, decision := s.attempts[slot], DecisionOf(s, slot);
    assert InOrder(s, a) && AttemptConsistent(s, a);
    WriteKeepsOrder(s, slot, acked);
    if Accepted(s, decision) && decision.UpdateLease? {
      RenewalsSnoc(s.log, decision.record);
    }
  }

  lemma StepKeepsSerial(s: State, step: Step)
    requires Serial(s) && SerialBegin(s, step)
    ensures Serial(Apply(s, step))
  {
    StepConsistent(s, step);
    var t := Apply(s, step);
    if step.Write? && Enabled(s, step) {
      WriteKeepsSerial(s, step.slot, step.acked);
    } else {
      forall slot | slot in t.attempts ensures InOrder(t, t.attempts[slot]) {
        if slot in s.attempts { assert InOrder(s, s.attempts[slot]); }
      }
    }
  }

  lemma {:induction false} RunKeepsSerial(s: State, steps: seq<Step>)
    requires Serial(s) && SerialRun(s, steps)
    ensures Serial(Run(s, steps))
    decreases |steps|
  {
    if steps != [] {
      StepKeepsSerial(s, steps[0]);
      RunKeepsSerial(Apply(s, steps[0]), steps[1..]);
    }
  }

  // ---------- Windows the instances were told of ----------

  /** An attempt that lands under its own instance's open window found the very record that backs
      it, so its reading is no earlier. */
  lemma SerialStepForward(s: State, step: Step)
    requires Serial(s) && BeliefsBacked(s)
    ensures Forward(s, step)
  {
    if step.Write? && Enabled(s, step) {
      var a := s.attempts[step.slot];
      assert AttemptConsistent(s, a) && InOrder(s, a);
    }
  }

  lemma {:induction false} SerialRunForward(s: State, steps: seq<Step>)
    requires Serial(s) && BeliefsBacked(s) && SerialRun(s, steps) && Disciplined(s, steps, Believed)
    ensures ForwardRun(s, steps)
    decreases |steps|
  {
    if steps != [] {
      SerialStepForward(s, steps[0]);
      StepKeepsSerial(s, steps[0]);
      StepKeepsBeliefsBacked(s, steps[0]);
      SerialRunForward(Apply(s, steps[0]), steps[1..]);
    }
  }

  /** At no moment of any serial run do two instances believe they hold the lock, although
      replies get lost and requests given up on may still arrive. */
  lemma BelievedExclusion(s: State, steps: seq<Step>)
    requires Fresh(s) && SerialRun(s, steps) && Disciplined(s, steps, Believed)
    ensures Exclusive(Run(s, steps), Run(s, steps).believed)
  {
    SerialRunForward(s, steps);
    ForwardExclusion(s, steps);
  }

  // ---------- Why attempts must not overlap ----------

  function Start(d: nat): State {
    State(d, 0, None, 0, map[], map[], map[], map[], [])
  }

  /** Two overlapping attempts of one instance: the one sampled first writes last. */
  function Overlap(d: nat, a: LeaseId): seq<Step>
    requires d > 0
  {
    [Begin(0, a, false, 0), Tick(d - 1), Begin(1, a, false, 0), Get(1), Write(1, true), Get(0), Write(0, true)]
  }

  lemma RunThree(s: State, a: Step, b: Step, c: Step, rest: seq<Step>)
    ensures Run(s, [a, b, c] + rest) == Run(Apply(Apply(Apply(s, a), b), c), rest)
  {
    assert [a, b, c] + rest == [a] + ([b] + ([c] + rest));
    RunOne(s, a, [b] + ([c] + rest));
    RunOne(Apply(s, a), b, [c] + rest);
    RunOne(Apply(Apply(s, a), b), c, rest);
  }

  lemma OverlapBegins(d: nat, a: LeaseId) returns (s: State)
    requires d > 1
    ensures s == Apply(Apply(Apply(Start(d), Begin(0, a, false, 0)), Tick(d - 1)), Begin(1, a, false, 0))
    ensures s.leaseDuration == d && s.clock == d - 1 && s.lease.None? && s.believed == map[]
    ensures s.attempts == map[0 := Attempt(a, false, 0, Sampled, true), 1 := Attempt(a, false, d - 1, Sampled, true)]
  {
    var s1 := Apply(Start(d), Begin(0, a, false, 0));
    var s2 := Apply(s1, Tick(d - 1));
    s := Apply(s2, Begin(1, a, false, 0));
  }

  lemma OverlapWrites(d: nat, a: LeaseId, s: State) returns (t: State)
    requires d > 1 && s.leaseDuration == d && s.clock == d - 1 && s.lease.None? && s.believed == map[]
    requires s.attempts == map[0 := Attempt(a, false, 0, Sampled, true), 1 := Attempt(a, false, d - 1, Sampled, true)]
    ensures t == Apply(Apply(Apply(s, Get(1)), Write(1, true)), Get(0))
    ensures t.leaseDuration == d && t.clock == d - 1 && t.believed == map[a := d - 1]
    ensures t.lease.Some? && t.lease.value.record.holder == a
    ensures t.attempts == map[0 := Attempt(a, false, 0, Fetched(t.lease), true)]
  {
    var s1 := Apply(s, Get(1));
    assert DecisionOf(s1, 1) == CreateLease(Record(a, d - 1, d - 1, 0));
    var s2 := Apply(s1, Write(1, true));
    assert s2.attempts == map[0 := Attempt(a, false, 0, Sampled, true)];
    t := Apply(s2, Get(0));
  }

  lemma OverlapOverwrites(d: nat, a: LeaseId, s: State) returns (t: State)
    requires s.leaseDuration == d && s.lease.Some? && s.lease.value.record.holder == a
    requires s.attempts == map[0 := Attempt(a, false, 0, Fetched(s.lease), true)]
    requires d > 1 && s.clock == d - 1 && s.believed == map[a := d - 1]
    ensures t == Run(s, [Write(0, true)])
    ensures t.leaseDuration == d && t.clock == d - 1 && t.believed == map[a := d - 1] && t.attempts == map[]
    ensures t.lease.Some? && t.lease.value.record.holder == a && t.lease.value.record.renewTime == 0
  {
    t := Apply(s, Write(0, true));
    RunOne(s, Write(0, true), []);
    assert [Write(0, true)] + [] == [Write(0, true)];
  }

  lemma OverlapSplit(d: nat, a: LeaseId)
    requires d > 1
    ensures Run(Start(d), Overlap(d, a)) ==
            Run(Apply(Apply(Apply(Start(d), Begin(0, a, false, 0)), Tick(d - 1)), Begin(1, a, false, 0)),
                [Get(1), Write(1, true), Get(0)] + [Write(0, true)])
  {
    var rest: seq<Step> := [Get(1), Write(1, true), Get(0)] + [Write(0, true)];
    assert Overlap(d, a) == [Begin(0, a, false, 0), Tick(d - 1), Begin(1, a, false, 0)] + rest;
    RunThree(Start(d), Begin(0, a, false, 0), Tick(d - 1), Begin(1, a, false, 0), rest);
  }

  lemma OverlapLeavesEarlierTime(d: nat, a: LeaseId) returns (s: State)
    requires d > 1
    ensures s == Run(Start(d), Overlap(d, a))
    ensures s.leaseDuration == d && s.clock == d - 1 && s.believed == map[a := d - 1] && s.attempts == map[]
    ensures s.lease.Some? && s.lease.value.record.holder == a && s.lease.value.record.renewTime == 0
  {
    OverlapSplit(d, a);
    var begun := OverlapBegins(d, a);
    RunThree(begun, Get(1), Write(1, true), Get(0), [Write(0, true)]);
    var mid := OverlapWrites(d, a, begun);
    s := OverlapOverwrites(d, a, mid);
  }

  /** The earlier renew time it leaves lets b in while a still trusts its later one. */
  lemma OverlapBreaksBelief(d: nat, a: LeaseId, b: LeaseId)
    requires d > 1 && a != b
    ensures Fresh(Start(d))
    ensures var steps := Overlap(d, a) + Takeover(b, 0, 1);
            !Exclusive(Run(Start(d), steps), Run(Start(d), steps).believed)
  {
    RunAppend(Start(d), Overlap(d, a), Takeover(b, 0, 1));
    var s := OverlapLeavesEarlierTime(d, a);
    TakeoverRuns(s, b, 0, 1);
    var end := Run(s, Takeover(b, 0, 1));
    assert Open(end, end.believed, a) && Open(end, end.believed, b);
  }

  // ---------- Why readings must not go back ----------

  function Renewal(d: nat, a: LeaseId): seq<Step>
    requires d > 0
  {
    [Tick(d - 1)] + Acquire(a, 0)
  }

  /** A refresh whose clock has stepped back by almost a lease. */
  function Setback(d: nat, a: LeaseId): seq<Step>
    requires d > 0
  {
    [Begin(0, a, true, d - 1), Get(0), Write(0, true)]
  }

  lemma {:induction false} RenewalRuns(d: nat, a: LeaseId) returns (s: State)
    requires d > 1
    ensures s == Run(Start(d), Renewal(d, a))
    ensures s.leaseDuration == d && s.clock == d - 1 && s.believed == map[a := d - 1] && s.attempts == map[]
    ensures s.lease.Some? && s.lease.value.record.holder == a
  {
    var later := Apply(Start(d), Tick(d - 1));
    RunOne(Start(d), Tick(d - 1), Acquire(a, 0));
    AcquireRuns(later, a, 0);
    s := Run(Start(d), Renewal(d, a));
  }

  lemma {:induction false} SetbackRuns(d: nat, a: LeaseId, s: State) returns (t: State)
    requires d > 1 && s.leaseDuration == d && s.clock == d - 1 && s.believed == map[a := d - 1] && s.attempts == map[]
    requires s.lease.Some? && s.lease.value.record.holder == a
    ensures t == Run(s, Setback(d, a))
    ensures t.leaseDuration == d && t.clock == d - 1 && t.believed == map[a := d - 1] && t.attempts == map[]
    ensures t.lease.Some? && t.lease.value.record.holder == a && t.lease.value.record.renewTime == 0
  {
    var none: seq<Step> := [];
    var fetched := Apply(Apply(s, Begin(0, a, true, d - 1)), Get(0));
    assert fetched.attempts == map[0 := Attempt(a, true, 0, Fetched(s.lease), true)];
    t := Land(fetched, 0, true);
    assert Setback(d, a) == [Begin(0, a, true, d - 1), Get(0), Write(0, true)] + none;
    RunThree(s, Begin(0, a, true, d - 1), Get(0), Write(0, true), none);
  }

  /** One attempt at a time is not enough: a refresh whose clock reading goes back leaves an earlier
      renew time too, and lets b in while a still trusts its later one. */
  lemma {:induction false} SetbackBreaksBelief(d: nat, a: LeaseId, b: LeaseId)
    requires d > 1 && a != b
    ensures Fresh(Start(d))
    ensures var steps := Renewal(d, a) + Setback(d, a) + Takeover(b, 0, 1);
            !Exclusive(Run(Start(d), steps), Run(Start(d), steps).believed)
  {
    RunAppend(Start(d), Renewal(d, a) + Setback(d, a), Takeover(b, 0, 1));
    RunAppend(Start(d), Renewal(d, a), Setback(d, a));
    var renewed := RenewalRuns(d, a);
    var s := SetbackRuns(d, a, renewed);
    TakeoverRuns(s, b, 0, 1);
    var end := Run(s, Takeover(b, 0, 1));
    assert Open(end, end.believed, a) && Open(end, end.believed, b);
  }
}
