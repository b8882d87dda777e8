/** An instance that takes the lock, refreshes it and releases it, one call after the other, keeps to the
    discipline that exclusion by belief asks for. */
module LeaseSession {
  import opened Wrappers
  import opened LeaseProtocol
  import opened LeaseRelease
  import opened LeaseClient
  import opened LeaseRefresh
  import opened LeaseSerial

  // ---------- The discipline of one instance ----------

  ghost predicate SerialRunOf(s: State, steps: seq<Step>, id: LeaseId)
    decreases |steps|
  {
    steps != [] ==>
      && (steps[0].Begin? && steps[0].id == id ==> SerialBegin(s, steps[0]))
      && SerialRunOf(Apply(s, steps[0]), steps[1..], id)
  }

  /** A run is serial if it is so for each instance. */
  lemma {:induction false} SerialOfEach(s: State, steps: seq<Step>)
    requires forall id: LeaseId :: SerialRunOf(s, steps, id)
    ensures SerialRun(s, steps)
    decreases |steps|
  {
    if steps != [] {
      if steps[0].Begin? { assert SerialRunOf(s, steps, steps[0].id); }
      forall id: LeaseId ensures SerialRunOf(Apply(s, steps[0]), steps[1..], id) {
        assert SerialRunOf(s, steps, id);
      }
      SerialOfEach(Apply(s, steps[0]), steps[1..]);
    }
  }

  lemma {:induction false} SerialAppend(s: State, first: seq<Step>, second: seq<Step>, id: LeaseId)
    requires SerialRunOf(s, first, id) && SerialRunOf(Run(s, first), second, id)
    ensures SerialRunOf(s, first + second, id)
    decreases |first|
  {
    if first == [] {
      assert first + second == second;
    } else {
      assert (first + second)[1..] == first[1..] + second;
      SerialAppend(Apply(s, first[0]), first[1..], second, id);
    }
  }

  lemma {:induction false} NoBeginSerial(s: State, steps: seq<Step>, id: LeaseId)
    requires NoBegin(steps, id)
    ensures SerialRunOf(s, steps, id)
    decreases |steps|
  {
    if steps != [] {
      assert forall i :: 0 <= i < |steps[1..]| ==> steps[1..][i] == steps[i + 1];
      NoBeginSerial(Apply(s, steps[0]), steps[1..], id);
    }
  }

  // ---------- Between calls ----------

  /** The instance waits for no attempt in slots other than this one. */
  ghost predicate FreeBut(s: State, id: LeaseId, own: nat) {
    forall slot :: slot in s.attempts && s.attempts[slot].id == id && slot != own ==> !s.attempts[slot].awaited
  }

  /** The instance waits for no attempt, and has read no later time than this. */
  ghost predicate Ready(s: State, id: LeaseId, reading: int) {
    && (forall slot :: slot in s.attempts && s.attempts[slot].id == id ==> !s.attempts[slot].awaited)
    && (id in s.sampled ==> s.sampled[id] <= reading)
  }

  lemma StepKeeps(s: State, step: Step, id: LeaseId, own: nat)
    requires (step.Begin? ==> step.id != id) && FreeBut(s, id, own)
    ensures FreeBut(Apply(s, step), id, own)
    ensures id in Apply(s, step).sampled <==> id in s.sampled
    ensures id in s.sampled ==> Apply(s, step).sampled[id] == s.sampled[id]
  {
  }

  lemma {:induction false} NoBeginKeeps(s: State, steps: seq<Step>, id: LeaseId, own: nat)
    requires NoBegin(steps, id) && FreeBut(s, id, own)
    ensures FreeBut(Run(s, steps), id, own)
    ensures id in Run(s, steps).sampled <==> id in s.sampled
    ensures id in s.sampled ==> Run(s, steps).sampled[id] == s.sampled[id]
    decreases |steps|
  {
    if steps != [] {
      StepKeeps(s, steps[0], id, own);
      assert forall i :: 0 <= i < |steps[1..]| ==> steps[1..][i] == steps[i + 1];
      NoBeginKeeps(Apply(s, steps[0]), steps[1..], id, own);
    }
  }

  lemma {:induction false} WaitKeepsReady(s: State, steps: seq<Step>, id: LeaseId, reading: int)
    requires NoBegin(steps, id) && Ready(s, id, reading)
    ensures Ready(Run(s, steps), id, reading)
  {
    var t := Run(s, steps);
    forall slot | slot in t.attempts && t.attempts[slot].id == id ensures !t.attempts[slot].awaited {
      NoBeginKeeps(s, steps, id, slot + 1);
    }
    NoBeginKeeps(s, steps, id, 0);
  }

  /** One call of tryAcquireOrRenew, whatever its outcome. */
  lemma {:induction false} TrySerial(s: State, slot: nat, id: LeaseId, shouldExist: bool, t: Trial)
    requires slot !in s.attempts && TrialAvoids(t, slot) && TrialNoBegin(t, id) && Ready(s, id, s.clock - t.lag)
    ensures SerialRunOf(s, Try(s, slot, id, shouldExist, t).0, id)
    ensures Ready(Run(s, Try(s, slot, id, shouldExist, t).0), id, s.clock - t.lag)
  {
    var steps := Try(s, slot, id, shouldExist, t).0;
    var begun := Apply(s, Begin(slot, id, shouldExist, t.lag));
    TryBeginsOnce(s, slot, id, shouldExist, t);
    NoBeginSerial(begun, steps[1..], id);
    NoBeginKeeps(begun, steps[1..], id, slot);
    assert Run(s, steps) == Run(begun, steps[1..]);
    var landed := TryRuns(s, slot, id, shouldExist, t);
  }

  // ---------- A session ----------

  /** A wait and an attempt. */
  datatype Call = Call(before: State, wait: seq<Step>, slot: nat, shouldExist: bool, trial: Trial)

  ghost predicate IsCall(c: Call) {
    c.slot !in Run(c.before, c.wait).attempts && TrialAvoids(c.trial, c.slot)
  }

  ghost function CallSteps(c: Call, id: LeaseId): seq<Step>
    requires IsCall(c)
  {
    c.wait + Try(Run(c.before, c.wait), c.slot, id, c.shouldExist, c.trial).0
  }

  /** The clock reading of the attempt. */
  function Reading(c: Call): int {
    Run(c.before, c.wait).clock - c.trial.lag
  }

  /** Calls that follow one another. */
  ghost predicate Session(calls: seq<Call>, id: LeaseId) {
    && (forall i :: 0 <= i < |calls| ==> IsCall(calls[i]))
    && (forall i :: 0 <= i < |calls| - 1 ==> calls[i + 1].before == Run(calls[i].before, CallSteps(calls[i], id)))
  }

  /** Nobody else starts attempts under this identity, and the clock readings do not go back. */
  ghost predicate Orderly(calls: seq<Call>, id: LeaseId) {
    && (forall i :: 0 <= i < |calls| ==> NoBegin(calls[i].wait, id) && TrialNoBegin(calls[i].trial, id))
    && (forall i :: 0 <= i < |calls| - 1 ==> Reading(calls[i]) <= Reading(calls[i + 1]))
  }

  ghost function SessionSteps(calls: seq<Call>, id: LeaseId): seq<Step>
    requires Session(calls, id)
  {
    if calls == [] then [] else CallSteps(calls[0], id) + SessionSteps(calls[1..], id)
  }

  lemma CallSerial(c: Call, id: LeaseId)
    requires IsCall(c) && NoBegin(c.wait, id) && TrialNoBegin(c.trial, id) && Ready(c.before, id, Reading(c))
    ensures SerialRunOf(c.before, CallSteps(c, id), id)
    ensures Ready(Run(c.before, CallSteps(c, id)), id, Reading(c))
  {
    var s := Run(c.before, c.wait);
    WaitKeepsReady(c.before, c.wait, id, Reading(c));
    NoBeginSerial(c.before, c.wait, id);
    TrySerial(s, c.slot, id, c.shouldExist, c.trial);
    SerialAppend(c.before, c.wait, Try(s, c.slot, id, c.shouldExist, c.trial).0, id);
    RunAppend(c.before, c.wait, Try(s, c.slot, id, c.shouldExist, c.trial).0);
  }

  lemma {:induction false} CallsSerial(calls: seq<Call>, id: LeaseId)
    requires Session(calls, id) && Orderly(calls, id) && calls != [] && Ready(calls[0].before, id, Reading(calls[0]))
    ensures SerialRunOf(calls[0].before, SessionSteps(calls, id), id)
    decreases |calls|
  {
    var c, rest := calls[0], calls[1..];
    CallSerial(c, id);
    if rest == [] {
      assert CallSteps(c, id) + [] == CallSteps(c, id);
    } else {
      assert calls[0 + 1].before == Run(c.before, CallSteps(c, id)) && Reading(calls[0]) <= Reading(calls[0 + 1]);
      assert forall i :: 0 <= i < |rest| ==> rest[i] == calls[i + 1];
      CallsSerial(rest, id);
      SerialAppend(c.before, CallSteps(c, id), SessionSteps(rest, id), id);
    }
  }

  /** A whole session, with the Unlock that ends it, is serial for its instance. */
  lemma SessionSerial(calls: seq<Call>, id: LeaseId)
    requires Session(calls, id) && Orderly(calls, id) && calls != [] && Ready(calls[0].before, id, Reading(calls[0]))
    ensures SerialRunOf(calls[0].before, SessionSteps(calls, id) + [Unlock(id)], id)
  {
    var s, steps := calls[0].before, SessionSteps(calls, id);
    CallsSerial(calls, id);
    NoBeginSerial(Run(s, steps), [Unlock(id)], id);
    SerialAppend(s, steps, [Unlock(id)], id);
  }

  // ---------- Lock and the refresh loop are sessions ----------

  /** The i-th attempt of Lock, after the wait of the one before. */
  ghost function TurnCall(turns: seq<Turn>, i: nat): Call
    requires i < |turns|
  {
    var u := turns[i];
    if i == 0 then Call(u.before, [], u.poll.slot, false, u.poll.trial)
    else Call(turns[i - 1].after, turns[i - 1].poll.wait, u.poll.slot, false, u.poll.trial)
  }

  ghost function BeatCall(b: Beat): Call {
    Call(b.before, b.round.wait, b.round.slot, true, b.round.trial)
  }

  ghost function TurnCalls(turns: seq<Turn>): seq<Call> {
    seq(|turns|, i requires 0 <= i < |turns| => TurnCall(turns, i))
  }

  ghost function BeatCalls(beats: seq<Beat>): seq<Call> {
    seq(|beats|, i requires 0 <= i < |beats| => BeatCall(beats[i]))
  }

  /** The attempts of a Lock call and the refreshes of the loop it starts. */
  ghost function Calls(turns: seq<Turn>, beats: seq<Beat>): seq<Call> {
    TurnCalls(turns) + BeatCalls(beats)
  }

  ghost predicate Leads(c: Call, d: Call, id: LeaseId) {
    IsCall(c) && d.before == Run(c.before, CallSteps(c, id))
  }

  lemma SessionAppend(first: seq<Call>, second: seq<Call>, id: LeaseId)
    requires Session(first, id) && Session(second, id)
    requires first != [] && second != [] ==> Leads(first[|first| - 1], second[0], id)
    ensures Session(first + second, id)
  {
    var all, n := first + second, |first|;
    forall i | 0 <= i < |all| - 1 ensures Leads(all[i], all[i + 1], id) {
      if i < n - 1 {
        assert all[i] == first[i] && all[i + 1] == first[i + 1];
      } else if i >= n {
        var j := i - n;
        assert all[i] == second[j] && all[i + 1] == second[j + 1];
      }
    }
  }

  lemma {:induction false} TurnIsCall(s: State, id: LeaseId, timing: Timing, turns: seq<Turn>, result: LockResult,
                                      i: nat)
    requires LockRun(s, id, timing, turns, result) && i < |turns|
    ensures IsCall(TurnCall(turns, i))
    ensures Run(TurnCall(turns, i).before, CallSteps(TurnCall(turns, i), id)) == turns[i].after
  {
    assert IsTurn(turns[i], id);
    var c := TurnCall(turns, i);
    if i > 0 { assert NextTurn(turns[i - 1], turns[i - 1 + 1]); }
    RunAppend(c.before, c.wait, Try(Run(c.before, c.wait), c.slot, id, false, c.trial).0);
  }

  lemma {:induction false} BeatIsCall(s: State, id: LeaseId, rounds: seq<Round>, beats: seq<Beat>, i: nat)
    requires Refreshing(s, id, rounds, beats) && i < |beats|
    ensures IsCall(BeatCall(beats[i])) && CallSteps(BeatCall(beats[i]), id) == beats[i].steps
    ensures i < |beats| - 1 ==> beats[i + 1].before == Run(beats[i].before, beats[i].steps)
  {
    RefreshingTurns(s, id, rounds, beats, i);
    if i < |beats| - 1 { TurnFollows(s, id, rounds, beats, i); }
  }

  lemma {:induction false} TurnsAreSession(s: State, id: LeaseId, timing: Timing, turns: seq<Turn>, result: LockResult)
    requires LockRun(s, id, timing, turns, result)
    ensures Session(TurnCalls(turns), id) && TurnCalls(turns)[0].before == s
  {
    var calls := TurnCalls(turns);
    forall i | 0 <= i < |calls| ensures IsCall(calls[i]) {
      TurnIsCall(s, id, timing, turns, result, i);
    }
    forall i | 0 <= i < |calls| - 1 ensures calls[i + 1].before == Run(calls[i].before, CallSteps(calls[i], id)) {
      TurnIsCall(s, id, timing, turns, result, i);
    }
  }

  lemma {:induction false} BeatsAreSession(s: State, id: LeaseId, rounds: seq<Round>, beats: seq<Beat>)
    requires Refreshing(s, id, rounds, beats)
    ensures Session(BeatCalls(beats), id) && (beats != [] ==> BeatCalls(beats)[0].before == s)
  {
    var calls := BeatCalls(beats);
    forall i | 0 <= i < |calls| ensures IsCall(calls[i]) {
      BeatIsCall(s, id, rounds, beats, i);
    }
    forall i | 0 <= i < |calls| - 1 ensures calls[i + 1].before == Run(calls[i].before, CallSteps(calls[i], id)) {
      BeatIsCall(s, id, rounds, beats, i);
    }
    if beats != [] { FirstBeat(s, id, rounds, beats); }
  }

  /** A call of Lock that succeeds, followed by its refresh loop, is a session. */
  lemma {:induction false} LockIsSession(s: State, id: LeaseId, timing: Timing, turns: seq<Turn>, rounds: seq<Round>,
                                         beats: seq<Beat>)
    requires LockRun(s, id, timing, turns, Acquired)
    requires Refreshing(turns[|turns| - 1].after, id, rounds, beats)
    ensures Session(Calls(turns, beats), id) && Calls(turns, beats)[0].before == s
  {
    var last := |turns| - 1;
    TurnsAreSession(s, id, timing, turns, Acquired);
    BeatsAreSession(turns[last].after, id, rounds, beats);
    TurnIsCall(s, id, timing, turns, Acquired, last);
    SessionAppend(TurnCalls(turns), BeatCalls(beats), id);
  }

  lemma FirstBeat(s: State, id: LeaseId, rounds: seq<Round>, beats: seq<Beat>)
    requires Refreshing(s, id, rounds, beats) && beats != []
    ensures beats[0].before == s
  {
    RefreshingTurns(s, id, rounds, beats, 0);
    assert beats[..0] == [];
  }

  /** So an instance that locks, refreshes and unlocks meets the hypothesis of exclusion by belief, if
      nobody else uses its identity and its clock never reads an earlier time. */
  lemma LockSessionSerial(s: State, id: LeaseId, timing: Timing, turns: seq<Turn>, rounds: seq<Round>, beats: seq<Beat>)
    requires LockRun(s, id, timing, turns, Acquired) && Refreshing(turns[|turns| - 1].after, id, rounds, beats)
    requires Orderly(Calls(turns, beats), id) && Ready(s, id, Reading(Calls(turns, beats)[0]))
    ensures Session(Calls(turns, beats), id)
    ensures SerialRunOf(s, SessionSteps(Calls(turns, beats), id) + [Unlock(id)], id)
  {
    LockIsSession(s, id, timing, turns, rounds, beats);
    SessionSerial(Calls(turns, beats), id);
  }
}
