/** The lock operations of SecretStorage, written over the shared step system: each call is a run
    of steps, with the steps of everybody else in between. */
module LeaseClient {
  import opened Wrappers
  import opened LeaseProtocol
  import opened LeaseRelease

  // ---------- What the environment does during one attempt ----------

  datatype Fault = Invalid | BadRequest | Unavailable

  datatype ApiError = NotFound | AlreadyExists | Conflict | Failed(fault: Fault)

  datatype LockError = LockHeld(holder: string) | Api(error: ApiError)

  /** A write request is refused; or it takes effect and its reply is lost; or its caller gives up
      on it while it is still under way, and it may arrive at any later time. */
  datatype WriteFault = Refused(fault: Fault) | ReplyLost(fault: Fault) | Late(fault: Fault)

  /** One attempt's clock lag and API outcomes, and what others do before each of its calls. */
  datatype Trial = Trial(
    lag: nat,
    beforeGet: seq<Step>,
    getFault: Option<Fault>,
    beforeWrite: seq<Step>,
    writeFault: Option<WriteFault>,
    beforeReply: seq<Step>)

  predicate TrialAvoids(t: Trial, slot: nat) {
    AllAvoid(t.beforeGet, slot) && AllAvoid(t.beforeWrite, slot) && AllAvoid(t.beforeReply, slot)
  }

  /** No step starts an attempt of this instance. */
  predicate NoBegin(steps: seq<Step>, id: LeaseId) {
    forall i :: 0 <= i < |steps| && steps[i].Begin? ==> steps[i].id != id
  }

  predicate TrialNoBegin(t: Trial, id: LeaseId) {
    NoBegin(t.beforeGet, id) && NoBegin(t.beforeWrite, id) && NoBegin(t.beforeReply, id)
  }

  /** The answer of tryAcquireOrRenew. */
  datatype Answer = Answer(done: bool, err: Option<LockError>)

  predicate Renewed(a: Answer) {
    a == Answer(false, None)
  }

  function WriteError(s: State, decision: Decision): ApiError {
    if decision.CreateLease? then AlreadyExists else if s.lease.None? then NotFound else Conflict
  }

  /** The steps of an attempt whose Get was answered with `s.lease`, and what it returns. */
  function AfterGet(s: State, slot: nat, t: Trial): (seq<Step>, Answer)
    requires slot in s.attempts && s.attempts[slot].phase.Fetched?
  {
    var decision := DecisionOf(s, slot);
    match decision
    case Released => ([Drop(slot)], Answer(true, None))
    case HeldBy(holder) => ([Drop(slot)], Answer(true, Some(LockHeld(holder))))
    case _ =>
      var atWrite := Run(s, t.beforeWrite);
      match t.writeFault
      case Some(Refused(fault)) =>
        (t.beforeWrite + [Drop(slot)], Answer(true, Some(Api(Failed(fault)))))
      case Some(Late(fault)) =>
        (t.beforeWrite + [Abandon(slot)], Answer(true, Some(Api(Failed(fault)))))
      case _ =>
        var steps := t.beforeWrite + [Write(slot, t.writeFault.None?)] + t.beforeReply;
        if t.writeFault.Some? then
          (steps, Answer(true, Some(Api(Failed(t.writeFault.value.fault)))))
        else if !Accepted(atWrite, decision) then
          (steps, Answer(true, Some(Api(WriteError(atWrite, decision)))))
        else
          (steps, Answer(false, None))
  }

  function AtGet(s: State, slot: nat, id: LeaseId, shouldExist: bool, t: Trial): State {
    Run(Apply(s, Begin(slot, id, shouldExist, t.lag)), t.beforeGet)
  }

  lemma AttemptReady(s: State, slot: nat, id: LeaseId, shouldExist: bool, t: Trial)
    requires slot !in s.attempts && TrialAvoids(t, slot)
    ensures var g := AtGet(s, slot, id, shouldExist, t);
            && slot in g.attempts && g.attempts[slot] == Attempt(id, shouldExist, s.clock - t.lag, Sampled, true)
            && g.leaseDuration == s.leaseDuration
  {
    Undisturbed(Apply(s, Begin(slot, id, shouldExist, t.lag)), slot, t.beforeGet);
  }

  /** The whole call, as the steps it contributes to the run together with everybody else's. */
  function Try(s: State, slot: nat, id: LeaseId, shouldExist: bool, t: Trial): (seq<Step>, Answer)
    requires slot !in s.attempts && TrialAvoids(t, slot)
  {
    AttemptReady(s, slot, id, shouldExist, t);
    var opening := [Begin(slot, id, shouldExist, t.lag)] + t.beforeGet;
    if t.getFault.Some? then
      (opening + [Drop(slot)], Answer(true, Some(Api(Failed(t.getFault.value)))))
    else
      var (rest, answer) := AfterGet(Apply(AtGet(s, slot, id, shouldExist, t), Get(slot)), slot, t);
      (opening + [Get(slot)] + rest, answer)
  }

  /** An attempt starts itself and, unless others do, no other of its instance. */
  lemma {:induction false} TryBeginsOnce(s: State, slot: nat, id: LeaseId, shouldExist: bool, t: Trial)
    requires slot !in s.attempts && TrialAvoids(t, slot) && TrialNoBegin(t, id)
    ensures var steps := Try(s, slot, id, shouldExist, t).0;
            steps != [] && steps[0] == Begin(slot, id, shouldExist, t.lag) && NoBegin(steps[1..], id)
  {
    AttemptReady(s, slot, id, shouldExist, t);
    var steps := Try(s, slot, id, shouldExist, t).0;
    if t.getFault.Some? {
      assert steps[1..] == t.beforeGet + [Drop(slot)];
    } else {
      var rest := AfterGet(Apply(AtGet(s, slot, id, shouldExist, t), Get(slot)), slot, t).0;
      assert NoBegin(rest, id);
      assert steps[1..] == t.beforeGet + [Get(slot)] + rest;
    }
  }

  // ---------- Time ----------

  function Elapsed(steps: seq<Step>): nat {
    if steps == [] then 0
    else (if steps[0].Tick? then steps[0].elapsed else 0) + Elapsed(steps[1..])
  }

  lemma {:induction false} ElapsedAppend(first: seq<Step>, second: seq<Step>)
    ensures Elapsed(first + second) == Elapsed(first) + Elapsed(second)
  {
    if first == [] {
      assert first + second == second;
    } else {
      assert (first + second)[1..] == first[1..] + second;
      ElapsedAppend(first[1..], second);
    }
  }

  lemma StepClock(s: State, step: Step)
    ensures Apply(s, step).clock == s.clock + (if step.Tick? then step.elapsed else 0)
    ensures Apply(s, step).leaseDuration == s.leaseDuration
  {
  }

  lemma {:induction false} RunClock(s: State, steps: seq<Step>)
    ensures Run(s, steps).clock == s.clock + Elapsed(steps)
    ensures Run(s, steps).leaseDuration == s.leaseDuration
    decreases |steps|
  {
    if steps != [] {
      StepClock(s, steps[0]);
      RunClock(Apply(s, steps[0]), steps[1..]);
    }
  }

  function Cost(t: Trial): nat {
    Elapsed(t.beforeGet) + Elapsed(t.beforeWrite) + Elapsed(t.beforeReply)
  }

  lemma TryCost(s: State, slot: nat, id: LeaseId, shouldExist: bool, t: Trial)
    requires slot !in s.attempts && TrialAvoids(t, slot)
    ensures Elapsed(Try(s, slot, id, shouldExist, t).0) <= Cost(t)
  {
    AttemptReady(s, slot, id, shouldExist, t);
    var opening := [Begin(slot, id, shouldExist, t.lag)] + t.beforeGet;
    ElapsedAppend([Begin(slot, id, shouldExist, t.lag)], t.beforeGet);
    if t.getFault.Some? {
      ElapsedAppend(opening, [Drop(slot)]);
    } else {
      var g := Apply(AtGet(s, slot, id, shouldExist, t), Get(slot));
      ElapsedAppend(opening, [Get(slot)]);
      ElapsedAppend(opening + [Get(slot)], AfterGet(g, slot, t).0);
      AfterGetCost(g, slot, t);
    }
  }

  lemma AfterGetCost(s: State, slot: nat, t: Trial)
    requires slot in s.attempts && s.attempts[slot].phase.Fetched?
    ensures Elapsed(AfterGet(s, slot, t).0) <= Elapsed(t.beforeWrite) + Elapsed(t.beforeReply)
  {
    var write := Write(slot, t.writeFault.None?);
    ElapsedAppend(t.beforeWrite, [Drop(slot)]);
    ElapsedAppend(t.beforeWrite, [Abandon(slot)]);
    ElapsedAppend(t.beforeWrite, [write]);
    ElapsedAppend(t.beforeWrite + [write], t.beforeReply);
  }

  // ---------- The attempt's own effect ----------

  lemma {:induction false} StaysFree(s: State, slot: nat, steps: seq<Step>)
    requires slot !in s.attempts && AllAvoid(steps, slot)
    ensures slot !in Run(s, steps).attempts
    decreases |steps|
  {
    if steps != [] {
      assert Avoids(steps[0], slot);
      assert forall i :: 0 <= i < |steps[1..]| ==> steps[1..][i] == steps[i + 1];
      StaysFree(Apply(s, steps[0]), slot, steps[1..]);
    }
  }

  lemma RunSnoc(s: State, steps: seq<Step>, step: Step)
    ensures Run(s, steps + [step]) == Apply(Run(s, steps), step)
  {
    RunAppend(s, steps, [step]);
    assert Run(Run(s, steps), [step]) == Run(Apply(Run(s, steps), step), [step][1..]);
  }

  /** The attempt just before it is written: still as it was after the Get. */
  lemma AtWriteReady(s: State, slot: nat, t: Trial)
    requires slot in s.attempts && s.attempts[slot].phase.Fetched? && TrialAvoids(t, slot)
    ensures var w := Run(s, t.beforeWrite);
            && slot in w.attempts && w.attempts[slot] == s.attempts[slot]
            && DecisionOf(w, slot) == DecisionOf(s, slot)
  {
    Undisturbed(s, slot, t.beforeWrite);
  }

  /** The slot is free again, unless the request is still under way. */
  ghost predicate Left(s: State, slot: nat, t: Trial) {
    slot in s.attempts ==>
      t.writeFault.Some? && t.writeFault.value.Late? && !s.attempts[slot].awaited && s.attempts[slot].phase.Fetched?
  }

  lemma RequestEnds(s: State, slot: nat, acked: bool)
    requires slot in s.attempts && s.attempts[slot].phase.Fetched?
    ensures slot !in Apply(s, Drop(slot)).attempts && slot !in Apply(s, Write(slot, acked)).attempts
    ensures Apply(s, Abandon(slot)).attempts == s.attempts[slot := s.attempts[slot].(awaited := false)]
  {
  }

  lemma AfterGetLeaves(s: State, slot: nat, t: Trial)
    requires slot in s.attempts && s.attempts[slot].phase.Fetched? && TrialAvoids(t, slot)
    ensures Left(Run(s, AfterGet(s, slot, t).0), slot, t)
  {
    var write := Write(slot, t.writeFault.None?);
    AtWriteReady(s, slot, t);
    RunSnoc(s, [], Drop(slot));
    assert [] + [Drop(slot)] == [Drop(slot)];
    RunSnoc(s, t.beforeWrite, Drop(slot));
    RunSnoc(s, t.beforeWrite, Abandon(slot));
    RunSnoc(s, t.beforeWrite, write);
    RunAppend(s, t.beforeWrite + [write], t.beforeReply);
    RequestEnds(s, slot, true);
    RequestEnds(Run(s, t.beforeWrite), slot, t.writeFault.None?);
    StaysFree(Apply(Run(s, t.beforeWrite), write), slot, t.beforeReply);
  }

  lemma AfterGetLands(s: State, slot: nat, t: Trial)
    requires slot in s.attempts && s.attempts[slot].phase.Fetched? && TrialAvoids(t, slot)
    requires Renewed(AfterGet(s, slot, t).1)
    ensures var landed := Apply(Run(s, t.beforeWrite), Write(slot, true));
            && Accepted(Run(s, t.beforeWrite), DecisionOf(s, slot))
            && Run(s, AfterGet(s, slot, t).0) == Run(landed, t.beforeReply)
            && landed.lease.Some?
            && landed.lease.value.record.holder == s.attempts[slot].id
            && landed.lease.value.record.renewTime == s.attempts[slot].now
  {
    AtWriteReady(s, slot, t);
    RunSnoc(s, t.beforeWrite, Write(slot, true));
    RunAppend(s, t.beforeWrite + [Write(slot, true)], t.beforeReply);
  }

  lemma AfterGetAvoids(s: State, slot: nat, t: Trial, other: nat)
    requires slot in s.attempts && s.attempts[slot].phase.Fetched? && other != slot && TrialAvoids(t, other)
    ensures AllAvoid(AfterGet(s, slot, t).0, other)
  {
  }

  /** Slots that neither the attempt nor anybody meanwhile uses stay free. */
  lemma TryKeepsFree(s: State, slot: nat, id: LeaseId, shouldExist: bool, t: Trial, other: nat)
    requires slot !in s.attempts && TrialAvoids(t, slot)
    requires other !in s.attempts && other != slot && TrialAvoids(t, other)
    ensures other !in Run(s, Try(s, slot, id, shouldExist, t).0).attempts
  {
    AttemptReady(s, slot, id, shouldExist, t);
    AfterGetAvoids(Apply(AtGet(s, slot, id, shouldExist, t), Get(slot)), slot, t, other);
    StaysFree(s, other, Try(s, slot, id, shouldExist, t).0);
  }

  lemma OpeningRuns(s: State, slot: nat, id: LeaseId, shouldExist: bool, t: Trial)
    ensures var opening := [Begin(slot, id, shouldExist, t.lag)] + t.beforeGet;
            var ready := AtGet(s, slot, id, shouldExist, t);
            && Run(s, opening) == ready
            && Run(s, opening + [Drop(slot)]) == Apply(ready, Drop(slot))
            && Run(s, opening + [Get(slot)]) == Apply(ready, Get(slot))
  {
    var begin := Begin(slot, id, shouldExist, t.lag);
    RunAppend(s, [begin], t.beforeGet);
    RunSnoc(s, [], begin);
    assert [] + [begin] == [begin];
    RunSnoc(s, [begin] + t.beforeGet, Drop(slot));
    RunSnoc(s, [begin] + t.beforeGet, Get(slot));
  }

  /** An attempt leaves its slot free unless its request is late, and reports success only if its write
      put a record that names its own instance, stamped with its own clock reading, on the server. */
  lemma {:induction false} TryRuns(s: State, slot: nat, id: LeaseId, shouldExist: bool, t: Trial)
    returns (landed: State)
    requires slot !in s.attempts && TrialAvoids(t, slot)
    ensures Left(Run(s, Try(s, slot, id, shouldExist, t).0), slot, t)
    ensures Renewed(Try(s, slot, id, shouldExist, t).1) ==>
              && Run(s, Try(s, slot, id, shouldExist, t).0) == Run(landed, t.beforeReply)
              && landed.lease.Some?
              && landed.lease.value.record.holder == id
              && landed.lease.value.record.renewTime == s.clock - t.lag
  {
    AttemptReady(s, slot, id, shouldExist, t);
    var opening := [Begin(slot, id, shouldExist, t.lag)] + t.beforeGet;
    OpeningRuns(s, slot, id, shouldExist, t);
    var g := Apply(AtGet(s, slot, id, shouldExist, t), Get(slot));
    landed := Apply(Run(g, t.beforeWrite), Write(slot, true));
    AfterGetLeaves(g, slot, t);
    if Renewed(AfterGet(g, slot, t).1) { AfterGetLands(g, slot, t); }
    RunAppend(s, opening + [Get(slot)], AfterGet(g, slot, t).0);
  }

  // ---------- Lock as a sequence of attempts ----------

  /** One turn of Lock's loop: an attempt in a slot of its own, then a wait that the context may cut
      short. */
  datatype Poll = Poll(slot: nat, trial: Trial, cancelled: bool, wait: seq<Step>)

  /** Nobody uses the slot during the turn. */
  predicate PollAvoids(p: Poll, slot: nat) {
    TrialAvoids(p.trial, slot) && AllAvoid(p.wait, slot)
  }

  datatype Turn = Turn(poll: Poll, before: State, answer: Answer, after: State)

  ghost predicate IsTurn(u: Turn, id: LeaseId) {
    && u.poll.slot !in u.before.attempts && TrialAvoids(u.poll.trial, u.poll.slot)
    && u.answer == Try(u.before, u.poll.slot, id, false, u.poll.trial).1
    && u.after == Run(u.before, Try(u.before, u.poll.slot, id, false, u.poll.trial).0)
  }

  predicate NextTurn(u: Turn, v: Turn) {
    v.before == Run(u.after, u.poll.wait)
  }

  /** Rejections the API server would repeat. */
  predicate Permanent(err: LockError) {
    err == Api(Failed(Invalid)) || err == Api(Failed(BadRequest))
  }

  datatype LockResult = Acquired | Rejected(err: LockError) | TimedOut(err: LockError) | Cancelled

  datatype Timing = Timing(pollInterval: nat, acquireTimeout: nat)

  /** The shipped values, in milliseconds. */
  const LEASE_DURATION: nat := 5_000
  const RENEW_INTERVAL: nat := 2_000
  const SHIPPED := Timing(5_000, 300_000)

  /** What Lock makes of a turn, `None` if it goes round again. */
  function Verdict(u: Turn, start: int, timing: Timing): Option<LockResult> {
    if u.answer.err.None? then Some(Acquired)
    else if Permanent(u.answer.err.value) then Some(Rejected(u.answer.err.value))
    else if u.after.clock - start >= timing.acquireTimeout then Some(TimedOut(u.answer.err.value))
    else if u.poll.cancelled then Some(Cancelled)
    else None
  }

  ghost predicate AllTurns(turns: seq<Turn>, id: LeaseId) {
    forall i {:trigger IsTurn(turns[i], id)} :: 0 <= i < |turns| ==> IsTurn(turns[i], id)
  }

  /** A complete call of Lock: every turn but the last goes round again. */
  ghost predicate LockRun(s: State, id: LeaseId, timing: Timing, turns: seq<Turn>, result: LockResult) {
    && turns != [] && turns[0].before == s
    && AllTurns(turns, id)
    && (forall i :: 0 <= i < |turns| - 1 ==> NextTurn(turns[i], turns[i + 1]))
    && (forall i :: 0 <= i < |turns| - 1 ==> Verdict(turns[i], s.clock, timing) == None)
    && Verdict(turns[|turns| - 1], s.clock, timing) == Some(result)
  }

  /** Turns that followed one another and all went round again. */
  ghost predicate GoingRound(s: State, id: LeaseId, timing: Timing, turns: seq<Turn>, now: State) {
    && AllTurns(turns, id)
    && (forall i :: 0 <= i < |turns| - 1 ==> NextTurn(turns[i], turns[i + 1]))
    && (forall i :: 0 <= i < |turns| ==> Verdict(turns[i], s.clock, timing) == None)
    && (if turns == [] then now == s
        else turns[0].before == s && now == Run(turns[|turns| - 1].after, turns[|turns| - 1].poll.wait))
  }

  lemma {:induction false} MoreTurns(turns: seq<Turn>, id: LeaseId, turn: Turn)
    requires AllTurns(turns, id) && IsTurn(turn, id)
    ensures AllTurns(turns + [turn], id)
  {
    var all := turns + [turn];
    forall i {:trigger IsTurn(all[i], id)} | 0 <= i < |all| ensures IsTurn(all[i], id) {
      if i < |turns| { assert all[i] == turns[i]; } else { assert all[i] == turn; }
    }
  }

  lemma {:induction false} LastTurn(s: State, id: LeaseId, timing: Timing, turns: seq<Turn>, turn: Turn,
                                    result: LockResult)
    requires GoingRound(s, id, timing, turns, turn.before) && IsTurn(turn, id)
    requires Verdict(turn, s.clock, timing) == Some(result)
    ensures LockRun(s, id, timing, turns + [turn], result)
  {
    MoreTurns(turns, id, turn);
  }

  lemma {:induction false} AnotherTurn(s: State, id: LeaseId, timing: Timing, turns: seq<Turn>, turn: Turn)
    requires GoingRound(s, id, timing, turns, turn.before) && IsTurn(turn, id)
    requires Verdict(turn, s.clock, timing) == None
    ensures GoingRound(s, id, timing, turns + [turn], Run(turn.after, turn.poll.wait))
  {
    MoreTurns(turns, id, turn);
  }

  /** A turn either ends the call or goes round again. */
  lemma {:induction false} TurnDecides(s: State, id: LeaseId, timing: Timing, turns: seq<Turn>, turn: Turn)
    requires GoingRound(s, id, timing, turns, turn.before) && IsTurn(turn, id)
    ensures Verdict(turn, s.clock, timing).Some? ==>
              LockRun(s, id, timing, turns + [turn], Verdict(turn, s.clock, timing).value)
    ensures Verdict(turn, s.clock, timing).None? ==>
              GoingRound(s, id, timing, turns + [turn], Run(turn.after, turn.poll.wait))
  {
    if Verdict(turn, s.clock, timing).Some? {
      LastTurn(s, id, timing, turns, turn, Verdict(turn, s.clock, timing).value);
    } else {
      AnotherTurn(s, id, timing, turns, turn);
    }
  }

  /** Polls that are not cut short last at least the poll interval. */
  ghost predicate FullPolls(turns: seq<Turn>, pollInterval: nat) {
    forall i :: 0 <= i < |turns| && !turns[i].poll.cancelled ==> Elapsed(turns[i].poll.wait) >= pollInterval
  }

  predicate Clocked(u: Turn) {
    u.before.clock <= u.after.clock <= u.before.clock + Cost(u.poll.trial)
  }

  lemma TurnClock(u: Turn, id: LeaseId)
    requires IsTurn(u, id)
    ensures Clocked(u) && u.after.leaseDuration == u.before.leaseDuration
  {
    TryCost(u.before, u.poll.slot, id, false, u.poll.trial);
    RunClock(u.before, Try(u.before, u.poll.slot, id, false, u.poll.trial).0);
  }

  /** n polls take at least n intervals. */
  lemma {:induction false} PollsTakeTime(turns: seq<Turn>, poll: nat, n: nat)
    requires n < |turns|
    requires forall i :: 0 <= i < |turns| ==> Clocked(turns[i])
    requires forall i :: 0 <= i < n ==> NextTurn(turns[i], turns[i + 1]) && Elapsed(turns[i].poll.wait) >= poll
    ensures turns[n].before.clock - turns[0].before.clock >= n * poll
  {
    if n > 0 {
      PollsTakeTime(turns, poll, n - 1);
      RunClock(turns[n - 1].after, turns[n - 1].poll.wait);
      assert NextTurn(turns[n - 1], turns[n - 1 + 1]) && Clocked(turns[n - 1]);
      assert n * poll == (n - 1) * poll + poll;
    }
  }

  function CeilDiv(a: nat, b: nat): nat
    requires b > 0
  {
    (a + b - 1) / b
  }

  lemma BelowCeil(n: nat, a: nat, b: nat)
    requires b > 0 && n * b < a
    ensures n < CeilDiv(a, b)
  {
    var q, r := (a + b - 1) / b, (a + b - 1) % b;
    assert a + b - 1 == q * b + r;
    if q <= n { MulMonotone(q, n, b); }
  }

  lemma MulMonotone(x: nat, y: nat, b: nat)
    requires x <= y
    ensures x * b <= y * b
  {
  }

  /** Every call of Lock makes at most ceil(timeout / poll) + 1 attempts. */
  lemma {:induction false} LockAttempts(s: State, id: LeaseId, timing: Timing, turns: seq<Turn>, result: LockResult)
    requires LockRun(s, id, timing, turns, result) && FullPolls(turns, timing.pollInterval)
    requires timing.pollInterval > 0
    ensures |turns| <= CeilDiv(timing.acquireTimeout, timing.pollInterval) + 1
  {
    forall i | 0 <= i < |turns| ensures Clocked(turns[i]) { TurnClock(turns[i], id); }
    AttemptsBoundedByClock(turns, s.clock, timing);
  }

  lemma ShippedLockAttempts(s: State, id: LeaseId, turns: seq<Turn>, result: LockResult)
    requires LockRun(s, id, SHIPPED, turns, result) && FullPolls(turns, SHIPPED.pollInterval)
    ensures |turns| <= 61
  {
    LockAttempts(s, id, SHIPPED, turns, result);
  }

  /** Every call of Lock ends within the timeout, one wait and one attempt, and a cancelled one within
      the timeout and one wait. */
  lemma {:induction false} LockEndsInTime(s: State, id: LeaseId, timing: Timing, turns: seq<Turn>, result: LockResult,
                                          wait: nat, cost: nat)
    requires LockRun(s, id, timing, turns, result)
    requires forall i :: 0 <= i < |turns| ==> Cost(turns[i].poll.trial) <= cost && Elapsed(turns[i].poll.wait) <= wait
    ensures turns[|turns| - 1].after.clock - s.clock <= timing.acquireTimeout + wait + cost
    ensures result == Cancelled ==>
              Run(turns[|turns| - 1].after, turns[|turns| - 1].poll.wait).clock - s.clock < timing.acquireTimeout + wait
  {
    forall i | 0 <= i < |turns| ensures Clocked(turns[i]) { TurnClock(turns[i], id); }
    var last := |turns| - 1;
    if last > 0 { TurnsApart(turns[last - 1], turns[last - 1 + 1], s.clock, timing); }
    RunClock(turns[last].after, turns[last].poll.wait);
  }

  lemma TurnsApart(u: Turn, v: Turn, start: int, timing: Timing)
    requires NextTurn(u, v) && Verdict(u, start, timing) == None
    ensures v.before.clock - start < timing.acquireTimeout + Elapsed(u.poll.wait)
  {
    RunClock(u.after, u.poll.wait);
  }

  lemma AttemptsBoundedByClock(turns: seq<Turn>, start: int, timing: Timing)
    requires turns != [] && turns[0].before.clock == start && timing.pollInterval > 0
    requires FullPolls(turns, timing.pollInterval)
    requires forall i :: 0 <= i < |turns| ==> Clocked(turns[i])
    requires forall i :: 0 <= i < |turns| - 1 ==> NextTurn(turns[i], turns[i + 1])
    requires forall i :: 0 <= i < |turns| - 1 ==> Verdict(turns[i], start, timing) == None
    ensures |turns| <= CeilDiv(timing.acquireTimeout, timing.pollInterval) + 1
  {
    var last := |turns| - 1;
    if last > 0 {
      forall i | 0 <= i < last ensures !turns[i].poll.cancelled {
        assert Verdict(turns[i], start, timing) == None;
      }
      PollsTakeTime(turns, timing.pollInterval, last - 1);
      assert Verdict(turns[last - 1], start, timing) == None && Clocked(turns[last - 1]);
      BelowCeil(last - 1, timing.acquireTimeout, timing.pollInterval);
    }
  }

  /** Lock reports success only after its last attempt put a record naming its instance there. */
  lemma {:induction false} LockSucceedsByWriting(s: State, id: LeaseId, timing: Timing, turns: seq<Turn>)
    returns (landed: State)
    requires LockRun(s, id, timing, turns, Acquired)
    ensures var last := turns[|turns| - 1];
            && last.after == Run(landed, last.poll.trial.beforeReply)
            && landed.lease.Some? && landed.lease.value.record.holder == id
            && landed.lease.value.record.renewTime == last.before.clock - last.poll.trial.lag
  {
    var last := turns[|turns| - 1];
    assert IsTurn(last, id);
    landed := TryRuns(last.before, last.poll.slot, id, false, last.poll.trial);
    AcquireAnswers(last.before, last.poll.slot, id, last.poll.trial);
  }

  /** An acquiring attempt without an error has renewed or created the Lease. */
  lemma AcquireAnswers(s: State, slot: nat, id: LeaseId, t: Trial)
    requires slot !in s.attempts && TrialAvoids(t, slot)
    ensures Try(s, slot, id, false, t).1.err.None? ==> Renewed(Try(s, slot, id, false, t).1)
  {
    AttemptReady(s, slot, id, false, t);
  }

  // ---------- A holder that stopped renewing ----------

  predicate OnlyTicks(steps: seq<Step>) {
    forall i :: 0 <= i < |steps| ==> steps[i].Tick?
  }

  predicate Quiet(t: Trial) {
    && OnlyTicks(t.beforeGet) && OnlyTicks(t.beforeWrite) && OnlyTicks(t.beforeReply)
    && t.getFault.None? && t.writeFault.None?
  }

  lemma {:induction false} TicksKeepLease(s: State, steps: seq<Step>)
    requires OnlyTicks(steps)
    ensures Run(s, steps).lease == s.lease
    decreases |steps|
  {
    if steps != [] {
      assert steps[0].Tick?;
      assert forall i :: 0 <= i < |steps[1..]| ==> steps[1..][i] == steps[i + 1];
      TicksKeepLease(Apply(s, steps[0]), steps[1..]);
    }
  }

  /** Another instance's record that the attempt's clock shows as live. */
  predicate Live(s: State, id: LeaseId, lag: nat) {
    && s.lease.Some? && s.lease.value.record.holder != "" && s.lease.value.record.holder != id
    && s.lease.value.record.renewTime + s.leaseDuration > s.clock - lag
  }

  /** A quiet attempt is refused exactly by a foreign record that its clock still shows as live. */
  lemma {:induction false} QuietTry(s: State, slot: nat, id: LeaseId, shouldExist: bool, t: Trial)
    requires slot !in s.attempts && TrialAvoids(t, slot) && Quiet(t) && (shouldExist ==> s.lease.Some?)
    ensures var answer := Try(s, slot, id, shouldExist, t).1;
            && (Live(s, id, t.lag) ==>
              && answer == Answer(true, Some(LockHeld(s.lease.value.record.holder)))
              && Run(s, Try(s, slot, id, shouldExist, t).0).lease == s.lease)
            && (!Live(s, id, t.lag) ==> Renewed(answer))
  {
    var begin := Begin(slot, id, shouldExist, t.lag);
    var opening := [begin] + t.beforeGet;
    AttemptReady(s, slot, id, shouldExist, t);
    TicksKeepLease(Apply(s, begin), t.beforeGet);
    var g := Apply(AtGet(s, slot, id, shouldExist, t), Get(slot));
    TicksKeepLease(g, t.beforeWrite);
    OpeningRuns(s, slot, id, shouldExist, t);
    if DecisionOf(g, slot).HeldBy? {
      RunAppend(s, opening + [Get(slot)], [Drop(slot)]);
      RunSnoc(g, [], Drop(slot));
      assert [] + [Drop(slot)] == [Drop(slot)];
    }
  }

  /** If the holder has stopped renewing and nobody else interferes, Lock succeeds by its second
      attempt: one poll lasts at least a lease, and expiry does not require strictly more. */
  lemma {:induction false} AbandonedLeaseRecovered(s: State, id: LeaseId, timing: Timing, turns: seq<Turn>,
                                                   result: LockResult)
    requires LockRun(s, id, timing, turns, result)
    requires FullPolls(turns, timing.pollInterval) && timing.pollInterval >= s.leaseDuration
    requires s.lease.Some? ==> s.lease.value.record.renewTime <= s.clock - turns[0].poll.trial.lag
    requires forall i :: 0 <= i < |turns| ==> Quiet(turns[i].poll.trial) && OnlyTicks(turns[i].poll.wait)
    requires forall i :: 0 <= i < |turns| ==>
               turns[i].poll.trial.lag <= turns[0].poll.trial.lag && !turns[i].poll.cancelled
    requires turns[0].after.clock - s.clock < timing.acquireTimeout
    ensures result == Acquired && |turns| <= 2
  {
    var first := turns[0];
    FirstTurn(first, id);
    if first.answer.err.Some? {
      assert NextTurn(turns[0], turns[0 + 1]);
      SecondTurnSucceeds(first, turns[1], id);
    }
  }

  /** A quiet attempt that fails leaves the Lease as it was. */
  lemma FirstTurn(u: Turn, id: LeaseId)
    requires IsTurn(u, id) && Quiet(u.poll.trial)
    ensures Clocked(u) && u.after.leaseDuration == u.before.leaseDuration
    ensures u.answer.err.Some? ==> u.answer.err.value.LockHeld? && u.after.lease == u.before.lease
  {
    TurnClock(u, id);
    QuietTry(u.before, u.poll.slot, id, false, u.poll.trial);
  }

  /** A poll later the refused record has expired. */
  lemma SecondTurnSucceeds(u: Turn, v: Turn, id: LeaseId)
    requires IsTurn(v, id) && NextTurn(u, v) && Clocked(u) && u.after.leaseDuration == u.before.leaseDuration
    requires u.after.lease == u.before.lease && OnlyTicks(u.poll.wait)
    requires Elapsed(u.poll.wait) >= u.before.leaseDuration
    requires v.poll.trial.lag <= u.poll.trial.lag && Quiet(v.poll.trial)
    requires u.before.lease.Some? ==> u.before.lease.value.record.renewTime <= u.before.clock - u.poll.trial.lag
    ensures v.answer.err.None?
  {
    TicksKeepLease(u.after, u.poll.wait);
    RunClock(u.after, u.poll.wait);
    QuietTry(v.before, v.poll.slot, id, false, v.poll.trial);
  }
}
