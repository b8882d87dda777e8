/** The lock protocol of SecretStorage as a step system. Any number of goroutines, of any number
    of instances, share one Lease object. One attempt reads its clock, Gets the Lease, decides,
    and sends a Create or a versioned Update; the steps of different attempts interleave freely,
    replies may be lost, and a request whose caller gave up may still arrive. */
module LeaseProtocol {
  import opened Wrappers

  /** Provision never leaves the identity empty. */
  type LeaseId = id: string | id != "" witness "instance"

  datatype Record = Record(holder: string, acquireTime: int, renewTime: int, transitions: nat)

  datatype Lease = Lease(record: Record, version: nat)

  datatype Phase = Sampled | Fetched(got: Option<Lease>)

  /** A call of tryAcquireOrRenew in flight; `awaited` until its caller gives up on it. */
  datatype Attempt = Attempt(id: LeaseId, shouldExist: bool, now: int, phase: Phase, awaited: bool)

  datatype Decision =
    | Released
    | HeldBy(holder: string)
    | CreateLease(record: Record)
    | UpdateLease(record: Record, version: nat)

  /** What an attempt does with the answer of its Get. */
  function Decide(leaseDuration: nat, id: LeaseId, shouldExist: bool, now: int, got: Option<Lease>): Decision {
    match got
    case None =>
      if shouldExist then Released else CreateLease(Record(id, now, now, 0))
    case Some(Lease(record, version)) =>
      if record.holder != "" && record.renewTime + leaseDuration > now && record.holder != id then
        HeldBy(record.holder)
      else if record.holder == id then
        UpdateLease(Record(id, record.acquireTime, now, record.transitions), version)
      else
        UpdateLease(Record(id, now, now, record.transitions + 1), version)
  }

  /** The API server's Lease and clock, the attempts in flight, and three views of each instance:
      the renew time of its last write that reached the server, the latest renew time whose write
      it was told succeeded (both since its last Unlock), and its latest clock reading. `log`
      lists the records written since the Lease was created. */
  datatype State = State(
    leaseDuration: nat,
    clock: int,
    lease: Option<Lease>,
    nextVersion: nat,
    attempts: map<nat, Attempt>,
    written: map<LeaseId, int>,
    believed: map<LeaseId, int>,
    sampled: map<LeaseId, int>,
    log: seq<Record>)

  /** Attempts live in slots, one per goroutine or request. A clock may lag true time. */
  datatype Step =
    | Tick(elapsed: nat)
    | Begin(slot: nat, id: LeaseId, shouldExist: bool, lag: nat)
    | Get(slot: nat)
    | Drop(slot: nat)
    | Abandon(slot: nat)
    | Write(slot: nat, acked: bool)
    | Unlock(holder: LeaseId)

  function DecisionOf(s: State, slot: nat): Decision
    requires slot in s.attempts && s.attempts[slot].phase.Fetched?
  {
    var a := s.attempts[slot];
    Decide(s.leaseDuration, a.id, a.shouldExist, a.now, a.phase.got)
  }

  /** Create needs the name free; Update needs the object at the version it was read at. */
  predicate Accepted(s: State, decision: Decision) {
    match decision
    case CreateLease(_) => s.lease.None?
    case UpdateLease(_, version) => s.lease.Some? && s.lease.value.version == version
    case _ => false
  }

  predicate Enabled(s: State, step: Step) {
    match step
    case Tick(_) => true
    case Begin(slot, _, _, _) => slot !in s.attempts
    case Get(slot) => slot in s.attempts && s.attempts[slot].phase.Sampled? && s.attempts[slot].awaited
    case Drop(slot) => slot in s.attempts
    case Abandon(slot) => slot in s.attempts && s.attempts[slot].phase.Fetched?
    case Write(slot, _) => slot in s.attempts && s.attempts[slot].phase.Fetched?
    case Unlock(_) => true
  }

  function Latest(m: map<LeaseId, int>, id: LeaseId, t: int): map<LeaseId, int> {
    m[id := if id in m && m[id] > t then m[id] else t]
  }

  /** The write of `slot` reaches the server; `acked` if its caller hears of the success. */
  function Land(s: State, slot: nat, acked: bool): State
    requires slot in s.attempts && s.attempts[slot].phase.Fetched?
  {
    var a := s.attempts[slot];
    var decision := DecisionOf(s, slot);
    if Accepted(s, decision) then
      s.(lease := Some(Lease(decision.record, s.nextVersion)),
         nextVersion := s.nextVersion + 1,
         attempts := s.attempts - {slot},
         written := s.written[a.id := a.now],
         believed := if acked && a.awaited then Latest(s.believed, a.id, a.now) else s.believed,
         log := if decision.CreateLease? then [decision.record] else s.log + [decision.record])
    else
      s.(attempts := s.attempts - {slot})
  }

  /** One step; a step that is not enabled changes nothing. */
  function Apply(s: State, step: Step): State {
    if !Enabled(s, step) then s else
    match step
    case Tick(elapsed) => s.(clock := s.clock + elapsed)
    case Begin(slot, id, shouldExist, lag) =>
      var now := s.clock - lag;
      s.(attempts := s.attempts[slot := Attempt(id, shouldExist, now, Sampled, true)],
         sampled := s.sampled[id := now])
    case Get(slot) => s.(attempts := s.attempts[slot := s.attempts[slot].(phase := Fetched(s.lease))])
    case Drop(slot) => s.(attempts := s.attempts - {slot})
    case Abandon(slot) => s.(attempts := s.attempts[slot := s.attempts[slot].(awaited := false)])
    case Write(slot, acked) => Land(s, slot, acked)
    case Unlock(id) => s.(lease := None, log := [], written := s.written - {id}, believed := s.believed - {id})
  }

  function Run(s: State, steps: seq<Step>): State
    decreases |steps|
  {
    if steps == [] then s else Run(Apply(s, steps[0]), steps[1..])
  }

  lemma {:induction false} RunAppend(s: State, first: seq<Step>, second: seq<Step>)
    ensures Run(s, first + second) == Run(Run(s, first), second)
    decreases |first|
  {
    if first == [] {
      assert first + second == second;
    } else {
      assert (first + second)[1..] == first[1..] + second;
      RunAppend(Apply(s, first[0]), first[1..], second);
    }
  }

  /** Nobody has touched the lock yet. */
  predicate Fresh(s: State) {
    && s.lease.None? && s.log == [] && s.attempts == map[]
    && s.written == map[] && s.believed == map[] && s.sampled == map[]
  }

  // ---------- Windows ----------

  predicate Open(s: State, windows: map<LeaseId, int>, id: LeaseId) {
    id in windows && windows[id] + s.leaseDuration > s.clock
  }

  /** No two instances have an open window. */
  ghost predicate Exclusive(s: State, windows: map<LeaseId, int>) {
    forall i: LeaseId, j: LeaseId :: Open(s, windows, i) && Open(s, windows, j) ==> i == j
  }

  /** Two views of who holds the lock: by the writes that reached the server, and by the writes
      the instances were told of. */
  datatype Side = Written | Believed

  function Windows(s: State, side: Side): map<LeaseId, int> {
    if side.Written? then s.written else s.believed
  }

  /** Unlock deletes by name, whoever holds the Lease: it is safe while no other window is open. */
  ghost predicate UnlockSafe(s: State, step: Step, side: Side) {
    step.Unlock? ==> forall other: LeaseId :: other != step.holder ==> !Open(s, Windows(s, side), other)
  }

  ghost predicate Disciplined(s: State, steps: seq<Step>, side: Side)
    decreases |steps|
  {
    steps != [] ==> UnlockSafe(s, steps[0], side) && Disciplined(Apply(s, steps[0]), steps[1..], side)
  }

  /** Every Unlock lands while its own caller's window is open. */
  ghost predicate OwnUnlocks(s: State, steps: seq<Step>, side: Side)
    decreases |steps|
  {
    steps != [] ==>
      && (steps[0].Unlock? ==> Open(s, Windows(s, side), steps[0].holder))
      && OwnUnlocks(Apply(s, steps[0]), steps[1..], side)
  }

  lemma {:induction false} NoUnlockDisciplined(s: State, steps: seq<Step>, side: Side)
    requires forall i :: 0 <= i < |steps| ==> !steps[i].Unlock?
    ensures Disciplined(s, steps, side)
    decreases |steps|
  {
    if steps != [] {
      assert forall i :: 0 <= i < |steps[1..]| ==> steps[1..][i] == steps[i + 1];
      NoUnlockDisciplined(Apply(s, steps[0]), steps[1..], side);
    }
  }

  // ---------- An attempt that nobody interferes with ----------

  function Acquire(id: LeaseId, slot: nat): seq<Step> {
    [Begin(slot, id, false, 0), Get(slot), Write(slot, true)]
  }

  predicate Available(s: State, id: LeaseId) {
    s.lease.Some? ==>
      var r := s.lease.value.record;
      r.holder == "" || r.holder == id || r.renewTime + s.leaseDuration <= s.clock
  }

  lemma RunOne(s: State, step: Step, rest: seq<Step>)
    ensures Run(s, [step] + rest) == Run(Apply(s, step), rest)
  {
    assert ([step] + rest)[1..] == rest;
  }

  lemma AcquireSteps(s: State, id: LeaseId, slot: nat)
    ensures Run(s, Acquire(id, slot)) ==
            Apply(Apply(Apply(s, Begin(slot, id, false, 0)), Get(slot)), Write(slot, true))
  {
    var begun := Apply(s, Begin(slot, id, false, 0));
    assert Acquire(id, slot) == [Begin(slot, id, false, 0)] + ([Get(slot)] + ([Write(slot, true)] + []));
    RunOne(s, Begin(slot, id, false, 0), [Get(slot)] + ([Write(slot, true)] + []));
    RunOne(begun, Get(slot), [Write(slot, true)] + []);
    RunOne(Apply(begun, Get(slot)), Write(slot, true), []);
  }

  /** It takes a Lease that is absent, its own or expired, and is told so. */
  lemma AcquireRuns(s: State, id: LeaseId, slot: nat)
    requires slot !in s.attempts && Available(s, id)
    ensures var end := Run(s, Acquire(id, slot));
            && end.lease.Some? && end.lease.value.record.holder == id && end.lease.value.record.renewTime == s.clock
            && end.written == s.written[id := s.clock] && end.believed == Latest(s.believed, id, s.clock)
            && end.clock == s.clock && end.leaseDuration == s.leaseDuration && end.attempts == s.attempts
  {
    var fetched := Apply(Apply(s, Begin(slot, id, false, 0)), Get(slot));
    assert fetched.attempts[slot] == Attempt(id, false, s.clock, Fetched(s.lease), true);
    assert Accepted(fetched, DecisionOf(fetched, slot));
    var end := Land(fetched, slot, true);
    assert end.attempts == s.attempts;
    AcquireSteps(s, id, slot);
  }

  lemma {:induction false} FreshSlot(slots: set<nat>) returns (slot: nat)
    ensures slot !in slots && forall other :: other in slots ==> other < slot
    decreases slots
  {
    if slots == {} {
      slot := 0;
    } else {
      var one :| one in slots;
      var rest := FreshSlot(slots - {one});
      slot := if one < rest then rest else one + 1;
      assert forall other :: other in slots ==> other == one || other in slots - {one};
    }
  }

  // ---------- What every step keeps ----------

  predicate AttemptConsistent(s: State, a: Attempt) {
    && a.now <= s.clock
    && (a.phase.Fetched? && a.phase.got.Some? ==>
      var seen := a.phase.got.value;
      && seen.version < s.nextVersion
      && (s.lease.Some? && s.lease.value.version == seen.version ==> s.lease.value == seen))
  }

  /** Versions name one record each: a cached version that is still current caches the current record. */
  ghost predicate Consistent(s: State) {
    && (s.lease.Some? ==> s.lease.value.version < s.nextVersion)
    && (forall slot :: slot in s.attempts ==> AttemptConsistent(s, s.attempts[slot]))
  }

  lemma StepConsistent(s: State, step: Step)
    requires Consistent(s)
    ensures Consistent(Apply(s, step))
  {
    var t := Apply(s, step);
    forall slot | slot in t.attempts ensures AttemptConsistent(t, t.attempts[slot]) {
      if slot in s.attempts { assert AttemptConsistent(s, s.attempts[slot]); }
    }
  }

  lemma {:induction false} RunConsistent(s: State, steps: seq<Step>)
    requires Consistent(s)
    ensures Consistent(Run(s, steps))
    decreases |steps|
  {
    if steps != [] {
      StepConsistent(s, steps[0]);
      RunConsistent(Apply(s, steps[0]), steps[1..]);
    }
  }
}
