/** What the lock operations answer and do, read off the server's state: what the Get finds, what the
    write finds, and which faults come in between. */
module LeaseAnswers {
  import opened Wrappers
  import opened LeaseProtocol
  import opened LeaseRelease
  import opened LeaseClient
  import opened LeaseRefresh

  // ---------- One attempt ----------

  /** The record may be renewed or taken over: it names nobody, or this instance, or has run out. */
  predicate Takeable(r: Record, id: LeaseId, leaseDuration: nat, now: int) {
    r.holder == "" || r.holder == id || r.renewTime + leaseDuration <= now
  }

  /** What the Get of an attempt finds makes it send a Create or an Update. */
  predicate Writes(found: State, id: LeaseId, shouldExist: bool, now: int) {
    match found.lease
    case None => !shouldExist
    case Some(lease) => Takeable(lease.record, id, found.leaseDuration, now)
  }

  /** The server just before the write of an attempt arrives. */
  function AtWrite(s: State, slot: nat, id: LeaseId, shouldExist: bool, t: Trial): State {
    Run(Apply(AtGet(s, slot, id, shouldExist, t), Get(slot)), t.beforeWrite)
  }

  /** The write finds what the Get found: no Lease, or the same version of it. */
  predicate Unchanged(found: State, atWrite: State) {
    match found.lease
    case None => atWrite.lease.None?
    case Some(lease) => atWrite.lease.Some? && atWrite.lease.value.version == lease.version
  }

  /** The record an attempt puts there. */
  function NewRecord(found: State, id: LeaseId, now: int): Record {
    match found.lease
    case None => Record(id, now, now, 0)
    case Some(lease) =>
      if lease.record.holder == id then Record(id, lease.record.acquireTime, now, lease.record.transitions)
      else Record(id, now, now, lease.record.transitions + 1)
  }

  /** The error of a write that was rejected. */
  function Rejection(found: State, atWrite: State): ApiError {
    if found.lease.None? then AlreadyExists else if atWrite.lease.None? then NotFound else Conflict
  }

  /** The answer of an attempt, case by case, whatever interferes. */
  lemma {:induction false} TryAnswersExactly(s: State, slot: nat, id: LeaseId, shouldExist: bool, t: Trial)
    requires slot !in s.attempts && TrialAvoids(t, slot)
    ensures var found, atWrite := AtGet(s, slot, id, shouldExist, t), AtWrite(s, slot, id, shouldExist, t);
            var answer, now := Try(s, slot, id, shouldExist, t).1, s.clock - t.lag;
            && (t.getFault.Some? ==> answer == Answer(true, Some(Api(Failed(t.getFault.value)))))
            && (t.getFault.None? && !Writes(found, id, shouldExist, now) ==>
              answer == if found.lease.None? then Answer(true, None)
                        else Answer(true, Some(LockHeld(found.lease.value.record.holder))))
            && (t.getFault.None? && Writes(found, id, shouldExist, now) ==>
              answer == if t.writeFault.Some? then Answer(true, Some(Api(Failed(t.writeFault.value.fault))))
                        else if Unchanged(found, atWrite) then Answer(false, None)
                        else Answer(true, Some(Api(Rejection(found, atWrite)))))
  {
    AttemptReady(s, slot, id, shouldExist, t);
  }

  lemma {:induction false} OpeningEffects(s: State, slot: nat, id: LeaseId, shouldExist: bool, t: Trial)
    requires slot !in s.attempts && TrialAvoids(t, slot)
    ensures var found := AtGet(s, slot, id, shouldExist, t);
            var end := Run(s, Try(s, slot, id, shouldExist, t).0);
            && (t.getFault.Some? ==> end == Apply(found, Drop(slot)))
            && (t.getFault.None? ==>
              var got := Apply(found, Get(slot));
              && slot in got.attempts
              && got.attempts[slot] == Attempt(id, shouldExist, s.clock - t.lag, Fetched(found.lease), true)
              && got.leaseDuration == found.leaseDuration == s.leaseDuration
              && end == Run(got, AfterGet(got, slot, t).0))
  {
    AttemptReady(s, slot, id, shouldExist, t);
    OpeningRuns(s, slot, id, shouldExist, t);
    if t.getFault.None? {
      var opening := [Begin(slot, id, shouldExist, t.lag)] + t.beforeGet;
      var got := Apply(AtGet(s, slot, id, shouldExist, t), Get(slot));
      RunAppend(s, opening + [Get(slot)], AfterGet(got, slot, t).0);
    }
  }

  /** Where the write of an attempt is sent: what each fault makes of it. */
  lemma {:induction false} AfterGetEffects(got: State, slot: nat, t: Trial)
    requires slot in got.attempts && got.attempts[slot].phase.Fetched? && TrialAvoids(t, slot)
    requires DecisionOf(got, slot).CreateLease? || DecisionOf(got, slot).UpdateLease?
    ensures var w, end := Run(got, t.beforeWrite), Run(got, AfterGet(got, slot, t).0);
            match t.writeFault
            case Some(Refused(_)) => end == Apply(w, Drop(slot))
            case Some(Late(_)) => end == Apply(w, Abandon(slot))
            case _ => end == Run(Apply(w, Write(slot, t.writeFault.None?)), t.beforeReply)
  {
    var write := Write(slot, t.writeFault.None?);
    RunSnoc(got, t.beforeWrite, Drop(slot));
    RunSnoc(got, t.beforeWrite, Abandon(slot));
    RunSnoc(got, t.beforeWrite, write);
    RunAppend(got, t.beforeWrite + [write], t.beforeReply);
  }

  /** The write as it lands or bounces. */
  lemma LandsExactly(found: State, got: State, slot: nat, w: State, acked: bool)
    requires slot in got.attempts && slot in w.attempts && w.attempts[slot] == got.attempts[slot]
    requires got.attempts[slot].phase == Fetched(found.lease) && w.leaseDuration == found.leaseDuration
    requires Writes(found, got.attempts[slot].id, got.attempts[slot].shouldExist, got.attempts[slot].now)
    ensures var landed := Apply(w, Write(slot, acked));
            var record := NewRecord(found, got.attempts[slot].id, got.attempts[slot].now);
            landed.lease == if Unchanged(found, w) then Some(Lease(record, w.nextVersion)) else w.lease
  {
  }

  /** An attempt that has nothing to write, or never got that far, leaves the Lease alone. */
  lemma {:induction false} TryLeavesLease(s: State, slot: nat, id: LeaseId, shouldExist: bool, t: Trial)
    requires slot !in s.attempts && TrialAvoids(t, slot)
    requires t.getFault.Some? || !Writes(AtGet(s, slot, id, shouldExist, t), id, shouldExist, s.clock - t.lag)
    ensures var end := Run(s, Try(s, slot, id, shouldExist, t).0);
            end.lease == AtGet(s, slot, id, shouldExist, t).lease && slot !in end.attempts
  {
    OpeningEffects(s, slot, id, shouldExist, t);
    if t.getFault.None? {
      var got := Apply(AtGet(s, slot, id, shouldExist, t), Get(slot));
      RunSnoc(got, [], Drop(slot));
      assert [] + [Drop(slot)] == [Drop(slot)];
    }
  }

  /** What becomes of a write, fault by fault: it lands exactly on what the Get found, also when its reply
      is lost, and one that was given up on stays under way. */
  ghost predicate Outcome(found: State, atWrite: State, end: State, slot: nat, a: Attempt, t: Trial) {
    match t.writeFault
    case Some(Refused(_)) => end.lease == atWrite.lease && slot !in end.attempts
    case Some(Late(_)) =>
      end.lease == atWrite.lease && slot in end.attempts && end.attempts[slot] == a.(awaited := false)
    case _ =>
      var landed := Apply(atWrite, Write(slot, t.writeFault.None?));
      && end == Run(landed, t.beforeReply)
      && landed.lease == if Unchanged(found, atWrite)
                         then Some(Lease(NewRecord(found, a.id, a.now), atWrite.nextVersion))
                         else atWrite.lease
  }

  lemma {:induction false} GotWrites(found: State, got: State, slot: nat, t: Trial)
    requires slot in got.attempts && got.attempts[slot].phase == Fetched(found.lease) && TrialAvoids(t, slot)
    requires got.leaseDuration == found.leaseDuration
    requires Writes(found, got.attempts[slot].id, got.attempts[slot].shouldExist, got.attempts[slot].now)
    ensures Outcome(found, Run(got, t.beforeWrite), Run(got, AfterGet(got, slot, t).0), slot, got.attempts[slot], t)
  {
    Undisturbed(got, slot, t.beforeWrite);
    AfterGetEffects(got, slot, t);
    LandsExactly(found, got, slot, Run(got, t.beforeWrite), t.writeFault.None?);
  }

  /** The write of an attempt that has something to write. */
  lemma {:induction false} TryWritesExactly(s: State, slot: nat, id: LeaseId, shouldExist: bool, t: Trial)
    requires slot !in s.attempts && TrialAvoids(t, slot) && t.getFault.None?
    requires Writes(AtGet(s, slot, id, shouldExist, t), id, shouldExist, s.clock - t.lag)
    ensures var found, atWrite := AtGet(s, slot, id, shouldExist, t), AtWrite(s, slot, id, shouldExist, t);
            var attempt := Attempt(id, shouldExist, s.clock - t.lag, Fetched(found.lease), true);
            Outcome(found, atWrite, Run(s, Try(s, slot, id, shouldExist, t).0), slot, attempt, t)
  {
    OpeningEffects(s, slot, id, shouldExist, t);
    var found := AtGet(s, slot, id, shouldExist, t);
    GotWrites(found, Apply(found, Get(slot)), slot, t);
  }

  /** An instance believes in a window exactly if it waited for the write and was told of its success. */
  lemma BelievesExactly(s: State, slot: nat, acked: bool)
    requires Enabled(s, Write(slot, acked))
    ensures var a := s.attempts[slot];
            Apply(s, Write(slot, acked)).believed ==
              if acked && a.awaited && Accepted(s, DecisionOf(s, slot)) then Latest(s.believed, a.id, a.now)
              else s.believed
  {
  }

  // ---------- Lock ----------

  /** A rejection that the API server would repeat. */
  predicate Deterministic(f: Fault) {
    f == Invalid || f == BadRequest
  }

  /** The fault the attempt of a turn ran into, if any. */
  function FaultOf(u: Turn, id: LeaseId): Option<Fault> {
    var t := u.poll.trial;
    if t.getFault.Some? then t.getFault
    else if Writes(AtGet(u.before, u.poll.slot, id, false, t), id, false, u.before.clock - t.lag) && t.writeFault.Some?
    then Some(t.writeFault.value.fault)
    else None
  }

  /** The attempt ran into a fault that would repeat. */
  predicate Repeats(u: Turn, id: LeaseId) {
    FaultOf(u, id).Some? && Deterministic(FaultOf(u, id).value)
  }

  /** When Lock gives up at once: exactly at a fault that would repeat. */
  lemma {:induction false} RejectedExactly(u: Turn, id: LeaseId, start: int, timing: Timing)
    requires IsTurn(u, id)
    ensures var verdict := Verdict(u, start, timing);
            && (verdict.Some? && verdict.value.Rejected? <==> Repeats(u, id))
            && (verdict.Some? && verdict.value.Rejected? ==> verdict.value.err == Api(Failed(FaultOf(u, id).value)))
  {
    TryAnswersExactly(u.before, u.poll.slot, id, false, u.poll.trial);
  }

  /** When Lock tries again: exactly after an attempt that failed otherwise, before the timeout, and
      unless the context ends first. */
  lemma {:induction false} RetriesExactly(u: Turn, id: LeaseId, start: int, timing: Timing)
    requires IsTurn(u, id)
    ensures var verdict, err := Verdict(u, start, timing), u.answer.err;
            var repeats := Repeats(u, id);
            var late := u.after.clock - start >= timing.acquireTimeout;
            && (verdict == Some(Acquired) <==> err.None?)
            && (verdict.None? <==> err.Some? && !repeats && !late && !u.poll.cancelled)
            && (verdict == Some(Cancelled) <==> err.Some? && !repeats && !late && u.poll.cancelled)
            && (verdict.Some? && verdict.value.TimedOut? <==> err.Some? && !repeats && late)
            && (verdict.Some? && verdict.value.TimedOut? ==> err == Some(verdict.value.err))
  {
    TryAnswersExactly(u.before, u.poll.slot, id, false, u.poll.trial);
  }

  /** A Lock call is rejected if and only if its last attempt ran into a fault that would repeat, and no
      attempt before it did. */
  lemma {:induction false} LockRejectedExactly(s: State, id: LeaseId, timing: Timing, turns: seq<Turn>,
                                               result: LockResult)
    requires LockRun(s, id, timing, turns, result)
    ensures var last := turns[|turns| - 1];
            && (result.Rejected? <==> Repeats(last, id))
            && (result.Rejected? ==> result.err == Api(Failed(FaultOf(last, id).value)))
    ensures forall i :: 0 <= i < |turns| - 1 ==> !Repeats(turns[i], id)
  {
    var n := |turns| - 1;
    assert IsTurn(turns[n], id);
    RejectedExactly(turns[n], id, s.clock, timing);
    forall i | 0 <= i < n ensures !Repeats(turns[i], id) {
      assert IsTurn(turns[i], id);
      RetriesExactly(turns[i], id, s.clock, timing);
    }
  }

  // ---------- The refresh loop ----------

  /** What every refresh makes of the loop, whatever faults it meets: it goes on after a renewal and after
      every failure but the loss of the lock, as long as the context lives; it ends as released exactly
      where no Lease is found, and as lost exactly at a live record of another instance. */
  lemma {:induction false} RefreshVerdictExactly(s: State, slot: nat, id: LeaseId, t: Trial, contextDone: bool)
    requires slot !in s.attempts && TrialAvoids(t, slot)
    ensures var found, answer := AtGet(s, slot, id, true, t), Try(s, slot, id, true, t).1;
            var verdict := RefreshVerdict(answer, contextDone);
            var read := t.getFault.None?;
            var taken := found.lease.Some? && !Takeable(found.lease.value.record, id, s.leaseDuration, s.clock - t.lag);
            && (verdict == Some(LockReleased) <==> read && found.lease.None?)
            && (verdict == Some(LockLost) <==> read && taken && !contextDone)
            && (!contextDone ==> (verdict.None? <==> !read || (found.lease.Some? && !taken)))
            && (contextDone ==> (verdict.None? <==> Renewed(answer)))
            && (verdict == Some(ContextDone) <==> contextDone && !Renewed(answer) && !(read && found.lease.None?))
  {
    AttemptReady(s, slot, id, true, t);
    TryAnswersExactly(s, slot, id, true, t);
  }

  /** So a failed request never ends a loop whose context lives. */
  lemma TransientFailureGoesOn(b: Beat, id: LeaseId)
    requires BeatOf(b, id) && !b.round.contextDone
    requires b.answer.err.Some? && b.answer.err.value.Api?
    ensures RefreshVerdict(b.answer, b.round.contextDone) == None
  {
    var s := Run(b.before, b.round.wait);
    RefreshVerdictExactly(s, b.round.slot, id, b.round.trial, false);
    TryAnswersExactly(s, b.round.slot, id, true, b.round.trial);
  }

  // ---------- The shipped values ----------

  /** The shipped values allow one failed refresh in a row and no more, poll no faster than a lease runs
      out, and give a Lock call 61 attempts. */
  lemma ShippedValues(failures: nat)
    ensures (failures + 1) * RENEW_INTERVAL < LEASE_DURATION <==> failures <= 1
    ensures SHIPPED.pollInterval == LEASE_DURATION == 5_000 && RENEW_INTERVAL == 2_000
    ensures CeilDiv(SHIPPED.acquireTimeout, SHIPPED.pollInterval) + 1 == 61
  {
  }

  lemma CeilDivMeans(a: nat, b: nat)
    requires b > 0
    ensures CeilDiv(a, b) * b >= a && (a > 0 ==> (CeilDiv(a, b) - 1) * b < a)
  {
    var q, r := (a + b - 1) / b, (a + b - 1) % b;
    assert a + b - 1 == q * b + r;
    assert (q - 1) * b == q * b - b;
  }
}
