/** The lock methods of SecretStorage, statement by statement, over the shared cluster state. */
module SecretLocks {
  import opened Wrappers
  import opened LeaseProtocol
  import opened LeaseRelease
  import opened LeaseClient
  import opened LeaseRefresh

  /** Each attempt of a call has a slot that nobody uses before it or during it. */
  ghost predicate OwnSlots(env: nat -> Poll) {
    && (forall i, j :: i <= j ==> PollAvoids(env(i), env(j).slot))
    && (forall i, j :: i < j ==> env(i).slot != env(j).slot)
  }

  ghost predicate SlotsFree(s: State, env: nat -> Poll, n: nat) {
    forall j :: j >= n ==> env(j).slot !in s.attempts
  }

  ghost predicate OwnRounds(rounds: seq<Round>) {
    && (forall i, j :: 0 <= i <= j < |rounds| ==> RoundAvoids(rounds[i], rounds[j].slot))
    && (forall i, j :: 0 <= i < j < |rounds| ==> rounds[i].slot != rounds[j].slot)
  }

  ghost predicate RoundsFree(s: State, rounds: seq<Round>, n: nat) {
    forall j :: n <= j < |rounds| ==> rounds[j].slot !in s.attempts
  }

  class Cluster {
    var state: State

    constructor (s: State)
      ensures state == s
    {
      state := s;
    }

    /** Sends the Create or Update request of the attempt in `slot`. */
    method Send(slot: nat, request: Decision, t: Trial) returns (err: Option<LockError>)
      requires slot in state.attempts && state.attempts[slot].phase.Fetched? && TrialAvoids(t, slot)
      requires DecisionOf(state, slot) == request && (request.CreateLease? || request.UpdateLease?)
      modifies this
      ensures state == Run(old(state), AfterGet(old(state), slot, t).0)
      ensures Answer(err.Some?, err) == AfterGet(old(state), slot, t).1
    {
      ghost var s := state;
      AtWriteReady(s, slot, t);
      state := Run(state, t.beforeWrite);
      if t.writeFault.Some? && t.writeFault.value.Refused? {
        RunSnoc(s, t.beforeWrite, Drop(slot));
        state := Apply(state, Drop(slot));
        return Some(Api(Failed(t.writeFault.value.fault)));
      }
      if t.writeFault.Some? && t.writeFault.value.Late? {
        RunSnoc(s, t.beforeWrite, Abandon(slot));
        state := Apply(state, Abandon(slot));
        return Some(Api(Failed(t.writeFault.value.fault)));
      }
      var write := Write(slot, t.writeFault.None?);
      RunSnoc(s, t.beforeWrite, write);
      RunAppend(s, t.beforeWrite + [write], t.beforeReply);
      err := if Accepted(state, request) then None else Some(Api(WriteError(state, request)));
      state := Apply(state, write);
      state := Run(state, t.beforeReply);
      if t.writeFault.Some? { err := Some(Api(Failed(t.writeFault.value.fault))); }
    }

    method TryAcquireOrRenew(slot: nat, id: LeaseId, shouldExist: bool, t: Trial)
      returns (done: bool, err: Option<LockError>)
      requires slot !in state.attempts && TrialAvoids(t, slot)
      modifies this
      ensures state == Run(old(state), Try(old(state), slot, id, shouldExist, t).0)
      ensures Answer(done, err) == Try(old(state), slot, id, shouldExist, t).1
    {
      ghost var s := state;
      ghost var opening := [Begin(slot, id, shouldExist, t.lag)] + t.beforeGet;
      AttemptReady(s, slot, id, shouldExist, t);
      OpeningRuns(s, slot, id, shouldExist, t);

      var now := state.clock - t.lag;
      state := Apply(state, Begin(slot, id, shouldExist, t.lag));
      var ler := Record(id, now, now, 0);
      state := Run(state, t.beforeGet);

      // 1. obtain or create the record
      if t.getFault.Some? {
        state := Apply(state, Drop(slot));
        return true, Some(Api(Failed(t.getFault.value)));
      }
      state := Apply(state, Get(slot));
      ghost var g := state;
      RunAppend(s, opening + [Get(slot)], AfterGet(g, slot, t).0);
      RunSnoc(g, [], Drop(slot));
      assert [] + [Drop(slot)] == [Drop(slot)];
      var got := state.attempts[slot].phase.got;
      if got.None? {
        if shouldExist {
          state := Apply(state, Drop(slot));
          return true, None;
        }
        err := Send(slot, CreateLease(ler), t);
        return err.Some?, err;
      }

      // 2. check the identity and time
      var curr := got.value.record;
      if curr.holder != "" && curr.renewTime + state.leaseDuration > now && curr.holder != id {
        state := Apply(state, Drop(slot));
        return true, Some(LockHeld(curr.holder));
      }

      // 3. try to update the existing record
      if curr.holder == id {
        ler := ler.(acquireTime := curr.acquireTime, transitions := curr.transitions);
      } else {
        ler := ler.(transitions := curr.transitions + 1);
      }
      err := Send(slot, UpdateLease(ler, got.value.version), t);
      return err.Some?, err;
    }

    /** One attempt of Lock, on record. */
    method TakeTurn(id: LeaseId, poll: Poll) returns (turn: Turn)
      requires poll.slot !in state.attempts && TrialAvoids(poll.trial, poll.slot)
      modifies this
      ensures IsTurn(turn, id) && turn.poll == poll && turn.before == old(state) && turn.after == state
      ensures old(state.clock) <= state.clock
      ensures forall other :: other !in old(state.attempts) && other != poll.slot && TrialAvoids(poll.trial, other) ==>
                other !in state.attempts
    {
      var before := state;
      var done, err := TryAcquireOrRenew(poll.slot, id, false, poll.trial);
      turn := Turn(poll, before, Answer(done, err), state);
      TurnClock(turn, id);
      forall other | other !in before.attempts && other != poll.slot && TrialAvoids(poll.trial, other)
        ensures other !in state.attempts
      {
        TryKeepsFree(before, poll.slot, id, false, poll.trial, other);
      }
    }

    /** Time passes, and others act. */
    method Wait(steps: seq<Step>)
      modifies this
      ensures state == Run(old(state), steps) && state.clock == old(state.clock) + Elapsed(steps)
      ensures forall other :: other !in old(state.attempts) && AllAvoid(steps, other) ==> other !in state.attempts
    {
      RunClock(state, steps);
      forall other | other !in state.attempts && AllAvoid(steps, other) ensures other !in Run(state, steps).attempts {
        StaysFree(state, other, steps);
      }
      state := Run(state, steps);
    }

    /** The n-th turn of Lock's loop: the attempt, the checks that end the call, and the wait. */
    method LockTurn(id: LeaseId, timing: Timing, start: int, env: nat -> Poll, n: nat)
      returns (turn: Turn, verdict: Option<LockResult>)
      requires OwnSlots(env) && SlotsFree(state, env, n)
      modifies this
      ensures IsTurn(turn, id) && turn.poll == env(n) && turn.before == old(state)
      ensures verdict == Verdict(turn, start, timing)
      ensures state == if verdict == None || verdict == Some(Cancelled) then Run(turn.after, env(n).wait)
                       else turn.after
      ensures verdict == None ==> state.clock >= old(state.clock) + Elapsed(env(n).wait)
      ensures verdict == None ==> old(state.clock) - start < timing.acquireTimeout
      ensures SlotsFree(state, env, n + 1)
    {
      var poll := env(n);
      assert forall j :: j >= n ==> PollAvoids(poll, env(j).slot);
      turn := TakeTurn(id, poll);
      var err := turn.answer.err;
      if err.None? { return turn, Some(Acquired); }
      if Permanent(err.value) { return turn, Some(Rejected(err.value)); }
      if state.clock - start >= timing.acquireTimeout { return turn, Some(TimedOut(err.value)); }
      Wait(poll.wait);
      if poll.cancelled { return turn, Some(Cancelled); }
      return turn, None;
    }

    /** The loop of Lock; `turns` records each attempt with the state before and after it. */
    method Lock(id: LeaseId, timing: Timing, env: nat -> Poll) returns (result: LockResult, turns: seq<Turn>)
      requires OwnSlots(env) && SlotsFree(state, env, 0)
      requires timing.pollInterval > 0 && forall i :: !env(i).cancelled ==> Elapsed(env(i).wait) >= timing.pollInterval
      modifies this
      ensures LockRun(old(state), id, timing, turns, result)
      ensures forall i :: 0 <= i < |turns| ==> turns[i].poll == env(i)
      ensures state == if result == Cancelled then Run(turns[|turns| - 1].after, turns[|turns| - 1].poll.wait)
                       else turns[|turns| - 1].after
    {
      var start := state.clock;
      turns := [];
      while true
        invariant start == old(state.clock) && SlotsFree(state, env, |turns|)
        invariant GoingRound(old(state), id, timing, turns, state)
        invariant forall i :: 0 <= i < |turns| ==> turns[i].poll == env(i)
        decreases timing.acquireTimeout - (state.clock - start)
      {
        var turn, verdict := LockTurn(id, timing, start, env, |turns|);
        TurnDecides(old(state), id, timing, turns, turn);
        turns := turns + [turn];
        if verdict.Some? { return verdict.value, turns; }
      }
    }

    method TryLock(slot: nat, id: LeaseId, t: Trial) returns (acquired: bool, err: Option<LockError>)
      requires slot !in state.attempts && TrialAvoids(t, slot)
      modifies this
      ensures state == Run(old(state), Try(old(state), slot, id, false, t).0)
      ensures acquired <==> Renewed(Try(old(state), slot, id, false, t).1)
      ensures !acquired ==>
                var e := Try(old(state), slot, id, false, t).1.err;
                && e.Some?
                && err == (if e.value.LockHeld? || e.value == Api(AlreadyExists) then None else e)
      ensures acquired ==> err.None?
    {
      AcquireAnswers(state, slot, id, t);
      var done;
      done, err := TryAcquireOrRenew(slot, id, false, t);
      if err.Some? && (err.value.LockHeld? || err.value == Api(AlreadyExists)) {
        return false, None;
      }
      return err.None?, err;
    }

    /** The refresh of the n-th round, on record. */
    method RefreshOnce(id: LeaseId, rounds: seq<Round>, n: nat) returns (beat: Beat)
      requires OwnRounds(rounds) && n < |rounds| && RoundsFree(state, rounds, n)
      modifies this
      ensures BeatOf(beat, id) && beat.round == rounds[n]
      ensures beat.before == old(state) && state == Run(beat.before, beat.steps)
      ensures RoundsFree(state, rounds, n + 1)
    {
      var before, round := state, rounds[n];
      assert forall j :: n <= j < |rounds| ==> RoundAvoids(round, rounds[j].slot);
      Wait(round.wait);
      ghost var waited := state;
      var steps := round.wait + Try(state, round.slot, id, true, round.trial).0;
      RunAppend(before, round.wait, Try(state, round.slot, id, true, round.trial).0);
      var done, err := TryAcquireOrRenew(round.slot, id, true, round.trial);
      beat := Beat(round, before, steps, Answer(done, err));
      forall j | n < j < |rounds| ensures rounds[j].slot !in state.attempts {
        TryKeepsFree(waited, round.slot, id, true, round.trial, rounds[j].slot);
      }
    }

    /** What the loop makes of the n-th round's refresh. */
    method RefreshTurn(id: LeaseId, rounds: seq<Round>, n: nat) returns (beat: Beat, verdict: Option<RefreshEnd>)
      requires OwnRounds(rounds) && n < |rounds| && RoundsFree(state, rounds, n)
      modifies this
      ensures BeatOf(beat, id) && beat.round == rounds[n]
      ensures beat.before == old(state) && state == Run(beat.before, beat.steps)
      ensures verdict == RefreshVerdict(beat.answer, rounds[n].contextDone) && RoundsFree(state, rounds, n + 1)
    {
      beat := RefreshOnce(id, rounds, n);
      var err := beat.answer.err;
      if err.Some? {
        if rounds[n].contextDone { return beat, Some(ContextDone); }
        if err.value.LockHeld? { return beat, Some(LockLost); }
        return beat, None;
      }
      if beat.answer.done { return beat, Some(LockReleased); }
      return beat, None;
    }

    /** The refresh loop over the rounds it is observed for; `end` is `None` if it is still going. */
    method KeepLockUpdated(id: LeaseId, rounds: seq<Round>) returns (end: Option<RefreshEnd>, beats: seq<Beat>)
      requires OwnRounds(rounds) && RoundsFree(state, rounds, 0)
      modifies this
      ensures RefreshLoop(old(state), id, rounds, beats, end, state)
    {
      beats := [];
      while |beats| < |rounds|
        invariant |beats| <= |rounds| && RoundsFree(state, rounds, |beats|)
        invariant Refreshing(old(state), id, rounds, beats) && state == After(old(state), beats)
      {
        if rounds[|beats|].cancelled {
          Wait(rounds[|beats|].wait);
          return Some(ContextDone), beats;
        }
        var beat, verdict := RefreshTurn(id, rounds, |beats|);
        AnotherBeat(old(state), id, rounds, beats, beat);
        beats := beats + [beat];
        if verdict.Some? { return verdict, beats; }
      }
      end := None;
    }

    /** Deletes the Lease by name, whoever holds it. A request that was given up on and arrives later
        is an Unlock step of its own. */
    method Unlock(id: LeaseId, fault: Option<WriteFault>) returns (err: Option<ApiError>)
      modifies this
      ensures fault.Some? ==> err == Some(Failed(fault.value.fault))
      ensures fault.Some? && !fault.value.ReplyLost? ==> state == old(state)
      ensures fault.None? || fault.value.ReplyLost? ==>
              state == Apply(old(state), LeaseProtocol.Unlock(id)) && state.lease.None?
      ensures fault.None? ==> err == if old(state.lease).Some? then None else Some(NotFound)
    {
      if fault.Some? && !fault.value.ReplyLost? { return Some(Failed(fault.value.fault)); }
      err := if state.lease.None? then Some(NotFound) else None;
      state := Apply(state, LeaseProtocol.Unlock(id));
      if fault.Some? { err := Some(Failed(fault.value.fault)); }
    }
  }
}
