/** What the fields of the Lease record mean over its whole life, from creation to deletion. */
module LeaseHistory {
  import opened Wrappers
  import opened LeaseProtocol
  import LeaseSerial

  /** A record and the one that overwrote it. */
  predicate Follows(leaseDuration: nat, p: Record, q: Record) {
    if p.holder == q.holder then
      q.acquireTime == p.acquireTime && q.transitions == p.transitions
    else
      q.transitions == p.transitions + 1 && q.acquireTime == q.renewTime && p.renewTime + leaseDuration <= q.renewTime
  }

  ghost predicate Chain(leaseDuration: nat, log: seq<Record>) {
    && (log != [] ==> log[0].transitions == 0 && log[0].acquireTime == log[0].renewTime)
    && (forall i :: 0 <= i < |log| ==> log[i].holder != "")
    && (forall i :: 0 <= i < |log| - 1 ==> Follows(leaseDuration, log[i], log[i + 1]))
  }

  ghost predicate Logged(s: State) {
    && Consistent(s)
    && Chain(s.leaseDuration, s.log)
    && (s.lease.None? ==> s.log == [])
    && (s.lease.Some? ==> s.log != [] && s.log[|s.log| - 1] == s.lease.value.record)
  }

  lemma StepKeepsLogged(s: State, step: Step)
    requires Logged(s)
    ensures Logged(Apply(s, step))
  {
    StepConsistent(s, step);
    if step.Write? && Enabled(s, step) {
      assert AttemptConsistent(s, s.attempts[step.slot]);
    }
  }

  lemma {:induction false} RunKeepsLogged(s: State, steps: seq<Step>)
    requires Logged(s)
    ensures Logged(Run(s, steps)) && Run(s, steps).leaseDuration == s.leaseDuration
    decreases |steps|
  {
    if steps != [] {
      StepKeepsLogged(s, steps[0]);
      RunKeepsLogged(Apply(s, steps[0]), steps[1..]);
    }
  }

  function HolderChanges(log: seq<Record>): nat {
    if |log| <= 1 then 0
    else HolderChanges(log[..|log| - 1]) + (if log[|log| - 2].holder == log[|log| - 1].holder then 0 else 1)
  }

  /** The write that began the current tenure. */
  ghost predicate BeginsTenure(log: seq<Record>, start: nat) {
    && start < |log|
    && (forall i :: start <= i < |log| ==> log[i].holder == log[start].holder)
    && (start > 0 ==> log[start - 1].holder != log[start].holder)
  }

  lemma {:induction false} ChainMeaning(leaseDuration: nat, log: seq<Record>) returns (start: nat)
    requires log != [] && Chain(leaseDuration, log)
    ensures log[|log| - 1].transitions == HolderChanges(log)
    ensures BeginsTenure(log, start) && log[|log| - 1].acquireTime == log[start].renewTime
  {
    if |log| == 1 {
      start := 0;
    } else {
      var front := log[..|log| - 1];
      var earlier := ChainMeaning(leaseDuration, front);
      assert Follows(leaseDuration, log[|log| - 2], log[|log| - 1]);
      start := if log[|log| - 2].holder == log[|log| - 1].holder then earlier else |log| - 1;
    }
  }

  lemma {:induction false} TransitionsTakeTime(leaseDuration: nat, log: seq<Record>)
    requires log != [] && Chain(leaseDuration, log) && LeaseSerial.RenewalsForward(log)
    ensures HolderChanges(log) * leaseDuration <= log[|log| - 1].renewTime - log[0].renewTime
  {
    if |log| > 1 {
      var front := log[..|log| - 1];
      TransitionsTakeTime(leaseDuration, front);
      assert Follows(leaseDuration, log[|log| - 2], log[|log| - 1]);
      assert (HolderChanges(front) + 1) * leaseDuration == HolderChanges(front) * leaseDuration + leaseDuration;
    }
  }

  /** Over every run: the transition count is the number of holder changes since creation, and the
      acquire time is the renew time of the write that began the current tenure. */
  lemma RecordTellsHistory(s: State, steps: seq<Step>) returns (start: nat)
    requires Fresh(s) && Run(s, steps).lease.Some?
    ensures var t := Run(s, steps);
            && t.lease.value.record.transitions == HolderChanges(t.log)
            && BeginsTenure(t.log, start)
            && t.lease.value.record.holder == t.log[start].holder
            && t.lease.value.record.acquireTime == t.log[start].renewTime
  {
    RunKeepsLogged(s, steps);
    start := ChainMeaning(s.leaseDuration, Run(s, steps).log);
  }

  /** When no holder renews with an earlier time, each transition costs a full lease duration. */
  lemma TransitionsBounded(s: State, steps: seq<Step>)
    requires Fresh(s) && Run(s, steps).lease.Some?
    requires LeaseSerial.RenewalsForward(Run(s, steps).log)
    ensures var t := Run(s, steps);
            t.log != [] &&
            t.lease.value.record.transitions * s.leaseDuration <= t.lease.value.record.renewTime - t.log[0].renewTime
  {
    RunKeepsLogged(s, steps);
    var start := ChainMeaning(s.leaseDuration, Run(s, steps).log);
    TransitionsTakeTime(s.leaseDuration, Run(s, steps).log);
  }

  /** Serial instances never renew with an earlier time, so for them the bound is unconditional. */
  lemma SerialTransitionsBounded(s: State, steps: seq<Step>)
    requires Fresh(s) && LeaseSerial.SerialRun(s, steps) && Run(s, steps).lease.Some?
    ensures var t := Run(s, steps);
            t.log != [] &&
            t.lease.value.record.transitions * s.leaseDuration <= t.lease.value.record.renewTime - t.log[0].renewTime
  {
    LeaseSerial.RunKeepsSerial(s, steps);
    TransitionsBounded(s, steps);
  }
}
