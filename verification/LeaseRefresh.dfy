/** The background refresh loop and the timing under which it keeps the lock. */
module LeaseRefresh {
  import opened Wrappers
  import opened LeaseProtocol
  import opened LeaseRelease
  import opened LeaseClient
  import opened LeaseExclusion
  import LeaseBelief

  // ---------- The loop ----------

  /** One turn of the loop: a wait that the context may end, then a refresh in a slot of its own;
      `contextDone` tells whether the context has ended when a failed refresh returns. */
  datatype Round = Round(slot: nat, cancelled: bool, wait: seq<Step>, trial: Trial, contextDone: bool)

  /** Nobody uses the slot during the round. */
  predicate RoundAvoids(r: Round, slot: nat) {
    AllAvoid(r.wait, slot) && TrialAvoids(r.trial, slot)
  }

  datatype RefreshEnd = ContextDone | LockLost | LockReleased

  /** What the loop makes of one refresh, `None` if it goes round again. */
  function RefreshVerdict(answer: Answer, contextDone: bool): Option<RefreshEnd> {
    if answer.err.Some? then
      if contextDone then Some(ContextDone)
      else if answer.err.value.LockHeld? then Some(LockLost)
      else None
    else if answer.done then Some(LockReleased)
    else None
  }

  /** A refresh that found no Lease ends the loop; one that found a live foreign record does too. */
  lemma RefreshStops(s: State, slot: nat, id: LeaseId, t: Trial)
    requires slot !in s.attempts && TrialAvoids(t, slot) && t.getFault.None?
    ensures var g := AtGet(s, slot, id, true, t);
            var verdict := RefreshVerdict(Try(s, slot, id, true, t).1, false);
            && (g.lease.None? <==> verdict == Some(LockReleased))
            && (verdict == Some(LockLost) <==>
              && g.lease.Some? && g.lease.value.record.holder != "" && g.lease.value.record.holder != id
              && g.lease.value.record.renewTime + s.leaseDuration > s.clock - t.lag)
  {
    AttemptReady(s, slot, id, true, t);
  }

  // ---------- Windows that stay open ----------

  /** A step that never unlocks, and in whose attempts this instance's clock lags by at most `lag`. */
  predicate Gentle(step: Step, id: LeaseId, lag: nat) {
    !step.Unlock? && (step.Begin? && step.id == id ==> step.lag <= lag)
  }

  predicate AllGentle(steps: seq<Step>, id: LeaseId, lag: nat) {
    forall i :: 0 <= i < |steps| ==> Gentle(steps[i], id, lag)
  }

  /** While the Lease is there, a request that found none or another version can never land. */
  predicate Dead(s: State, a: Attempt) {
    && s.lease.Some? && a.phase.Fetched?
    && (a.phase.got.Some? ==>
      a.phase.got.value.version < s.nextVersion && a.phase.got.value.version != s.lease.value.version)
  }

  /** The instance's attempt is no older than `since`, or can no longer do anything. */
  predicate Recent(s: State, a: Attempt, since: int) {
    a.now >= since || Dead(s, a)
  }

  /** The instance has written at `since` or later, and nothing it has under way can put an older
      time there; nor will its lagging clock. */
  ghost predicate RenewedSince(s: State, id: LeaseId, since: int, lag: nat) {
    && WindowsBacked(s) && s.lease.Some? && since + lag <= s.clock
    && id in s.written && s.written[id] >= since
    && (forall slot :: slot in s.attempts && s.attempts[slot].id == id ==> Recent(s, s.attempts[slot], since))
  }

  ghost predicate Holds(s: State, id: LeaseId) {
    s.lease.Some? && s.lease.value.record.holder == id
  }

  lemma GentleStep(s: State, id: LeaseId, since: int, lag: nat, step: Step)
    requires RenewedSince(s, id, since, lag) && Gentle(step, id, lag)
    ensures RenewedSince(Apply(s, step), id, since, lag)
  {
    StepKeepsWindowsBacked(s, step);
    var t := Apply(s, step);
    forall slot | slot in t.attempts && t.attempts[slot].id == id ensures Recent(t, t.attempts[slot], since) {
      if slot in s.attempts && s.attempts[slot].id == id { assert Recent(s, s.attempts[slot], since); }
    }
    if step.Write? && step.slot in s.attempts && s.attempts[step.slot].id == id {
      assert Recent(s, s.attempts[step.slot], since);
    }
  }

  lemma {:induction false} GentleRun(s: State, id: LeaseId, since: int, lag: nat, steps: seq<Step>)
    requires RenewedSince(s, id, since, lag) && AllGentle(steps, id, lag)
    ensures RenewedSince(Run(s, steps), id, since, lag)
    decreases |steps|
  {
    if steps != [] {
      GentleStep(s, id, since, lag, steps[0]);
      assert forall i :: 0 <= i < |steps[1..]| ==> steps[1..][i] == steps[i + 1];
      GentleRun(Apply(s, steps[0]), id, since, lag, steps[1..]);
    }
  }

  lemma OpenIsHeld(s: State, id: LeaseId, since: int, lag: nat)
    requires RenewedSince(s, id, since, lag) && s.clock < since + s.leaseDuration
    ensures Holds(s, id)
  {
    assert Open(s, s.written, id);
  }

  /** While less than a lease passes, no interleaving takes the Lease away, at any moment. */
  lemma {:induction false} StaysHeld(s: State, id: LeaseId, since: int, lag: nat, steps: seq<Step>, n: nat)
    requires RenewedSince(s, id, since, lag) && AllGentle(steps, id, lag) && n <= |steps|
    requires s.clock + Elapsed(steps) < since + s.leaseDuration
    ensures Holds(Run(s, steps[..n]), id)
  {
    var first := steps[..n];
    GentleRun(s, id, since, lag, first);
    RunClock(s, first);
    ElapsedAppend(first, steps[n..]);
    assert steps == first + steps[n..];
    OpenIsHeld(Run(s, first), id, since, lag);
  }

  // ---------- One attempt ----------

  /** What the instance has under way in other slots, and has not been answered yet, began at most
      `age` ago by its own clock. */
  ghost predicate Prompt(s: State, id: LeaseId, age: nat, own: nat) {
    forall slot :: slot in s.attempts && slot != own && s.attempts[slot].id == id && s.attempts[slot].phase.Sampled? ==>
      s.clock <= s.attempts[slot].now + age
  }

  /** The same at every moment of a run. */
  ghost predicate PromptThrough(s: State, id: LeaseId, age: nat, own: nat, steps: seq<Step>) {
    forall n :: 0 <= n <= |steps| ==> Prompt(Run(s, steps[..n]), id, age, own)
  }

  lemma {:induction false} PromptLater(s: State, id: LeaseId, age: nat, own: nat, first: seq<Step>, second: seq<Step>)
    requires PromptThrough(s, id, age, own, first + second)
    ensures PromptThrough(Run(s, first), id, age, own, second)
  {
    forall n | 0 <= n <= |second| ensures Prompt(Run(Run(s, first), second[..n]), id, age, own) {
      RunAppend(s, first, second[..n]);
      assert (first + second)[..|first| + n] == first + second[..n];
    }
  }

  predicate TrialGentle(t: Trial, id: LeaseId, lag: nat) {
    && AllGentle(t.beforeGet, id, lag) && AllGentle(t.beforeWrite, id, lag) && AllGentle(t.beforeReply, id, lag)
    && t.lag <= lag
  }

  /** A write that lands makes every request of its instance that has been answered a dead one. */
  lemma LandRenews(s: State, slot: nat, id: LeaseId, since: int, lag: nat, age: nat)
    requires WindowsBacked(s) && Prompt(s, id, age, slot) && since + lag <= s.clock && since + age <= s.clock
    requires slot in s.attempts && s.attempts[slot].phase.Fetched? && s.attempts[slot].id == id
    requires Accepted(s, DecisionOf(s, slot)) && s.attempts[slot].now >= since
    ensures RenewedSince(Apply(s, Write(slot, true)), id, since, lag)
    ensures var t := Apply(s, Write(slot, true));
            forall other :: other in t.attempts && t.attempts[other].id == id && t.attempts[other].phase.Fetched? ==>
              Dead(t, t.attempts[other])
  {
    StepKeepsWindowsBacked(s, Write(slot, true));
    var t := Apply(s, Write(slot, true));
    forall other | other in t.attempts && t.attempts[other].id == id
      ensures t.attempts[other].phase.Fetched? ==> Dead(t, t.attempts[other])
      ensures Recent(t, t.attempts[other], since)
    {
      assert AttemptConsistent(s, s.attempts[other]);
    }
  }

  lemma GentleKeepsWindowsBacked(s: State, id: LeaseId, lag: nat, steps: seq<Step>)
    requires WindowsBacked(s) && AllGentle(steps, id, lag)
    ensures WindowsBacked(Run(s, steps))
  {
    assert forall i :: 0 <= i < |steps| ==> Gentle(steps[i], id, lag);
    NoUnlockDisciplined(s, steps, Written);
    RunKeepsWindowsBacked(s, steps);
  }

  lemma AfterGetRenews(s: State, slot: nat, id: LeaseId, t: Trial, since: int, lag: nat, age: nat)
    requires slot in s.attempts && s.attempts[slot].phase.Fetched? && s.attempts[slot].id == id
    requires TrialAvoids(t, slot) && TrialGentle(t, id, lag) && WindowsBacked(s)
    requires Prompt(Run(s, t.beforeWrite), id, age, slot) && Renewed(AfterGet(s, slot, t).1)
    requires since + lag <= s.clock && since + age <= s.clock && since <= s.attempts[slot].now
    ensures RenewedSince(Run(s, AfterGet(s, slot, t).0), id, since, lag)
  {
    var w := Run(s, t.beforeWrite);
    AtWriteReady(s, slot, t);
    AfterGetLands(s, slot, t);
    GentleKeepsWindowsBacked(s, id, lag, t.beforeWrite);
    RunClock(s, t.beforeWrite);
    LandRenews(w, slot, id, since, lag, age);
    GentleRun(Apply(w, Write(slot, true)), id, since, lag, t.beforeReply);
  }

  /** The state in which the Get of an attempt has been answered. */
  lemma AfterOpening(s: State, slot: nat, id: LeaseId, shouldExist: bool, t: Trial, lag: nat) returns (g: State)
    requires slot !in s.attempts && TrialAvoids(t, slot) && TrialGentle(t, id, lag) && WindowsBacked(s)
    ensures g == Apply(AtGet(s, slot, id, shouldExist, t), Get(slot))
    ensures slot in g.attempts && g.attempts[slot] == Attempt(id, shouldExist, s.clock - t.lag, Fetched(g.lease), true)
    ensures WindowsBacked(g) && s.clock <= g.clock
  {
    var begun := Apply(s, Begin(slot, id, shouldExist, t.lag));
    var ready := AtGet(s, slot, id, shouldExist, t);
    AttemptReady(s, slot, id, shouldExist, t);
    StepKeepsWindowsBacked(s, Begin(slot, id, shouldExist, t.lag));
    GentleKeepsWindowsBacked(begun, id, lag, t.beforeGet);
    RunClock(begun, t.beforeGet);
    StepKeepsWindowsBacked(ready, Get(slot));
    g := Apply(ready, Get(slot));
  }

  lemma AfterGetBegins(s: State, slot: nat, t: Trial)
    requires slot in s.attempts && s.attempts[slot].phase.Fetched? && Renewed(AfterGet(s, slot, t).1)
    ensures AfterGet(s, slot, t).0 == t.beforeWrite + ([Write(slot, true)] + t.beforeReply)
  {
  }

  /** An attempt that succeeds has renewed since `age` before it began. */
  lemma {:induction false} TryRenews(s: State, slot: nat, id: LeaseId, shouldExist: bool, t: Trial, lag: nat, age: nat)
    requires slot !in s.attempts && TrialAvoids(t, slot) && TrialGentle(t, id, lag) && WindowsBacked(s) && lag <= age
    requires PromptThrough(s, id, age, slot, Try(s, slot, id, shouldExist, t).0)
    requires Renewed(Try(s, slot, id, shouldExist, t).1)
    ensures RenewedSince(Run(s, Try(s, slot, id, shouldExist, t).0), id, s.clock - age, lag)
  {
    var opening := [Begin(slot, id, shouldExist, t.lag)] + t.beforeGet;
    OpeningRuns(s, slot, id, shouldExist, t);
    var g := AfterOpening(s, slot, id, shouldExist, t, lag);
    var rest := AfterGet(g, slot, t).0;
    RunAppend(s, opening + [Get(slot)], rest);
    PromptLater(s, id, age, slot, opening + [Get(slot)], rest);
    AfterGetBegins(g, slot, t);
    assert rest[..|t.beforeWrite|] == t.beforeWrite;
    AfterGetRenews(g, slot, id, t, s.clock - age, lag, age);
  }

  lemma {:induction false} TryGentle(s: State, slot: nat, id: LeaseId, shouldExist: bool, t: Trial, lag: nat)
    requires slot !in s.attempts && TrialAvoids(t, slot) && TrialGentle(t, id, lag)
    ensures AllGentle(Try(s, slot, id, shouldExist, t).0, id, lag)
  {
    AttemptReady(s, slot, id, shouldExist, t);
  }

  // ---------- Rounds ----------

  /** One turn of the refresh loop with what happened in it. */
  datatype Beat = Beat(round: Round, before: State, steps: seq<Step>, answer: Answer)

  ghost predicate BeatOf(b: Beat, id: LeaseId) {
    var s := Run(b.before, b.round.wait);
    && b.round.slot !in s.attempts && TrialAvoids(b.round.trial, b.round.slot)
    && var attempt := Try(s, b.round.slot, id, true, b.round.trial);
    && b.steps == b.round.wait + attempt.0 && b.answer == attempt.1
  }

  function After(s: State, beats: seq<Beat>): State {
    if beats == [] then s else Run(beats[|beats| - 1].before, beats[|beats| - 1].steps)
  }

  /** Turns that followed one another and all went round again. */
  ghost predicate Refreshing(s: State, id: LeaseId, rounds: seq<Round>, beats: seq<Beat>)
    decreases |beats|
  {
    beats != [] ==>
      var earlier, last := beats[..|beats| - 1], beats[|beats| - 1];
      && Refreshing(s, id, rounds, earlier) && last.before == After(s, earlier)
      && BeatOf(last, id) && FitsRound(last, rounds, |earlier|)
      && RefreshVerdict(last.answer, last.round.contextDone) == None
  }

  predicate FitsRound(beat: Beat, rounds: seq<Round>, n: nat) {
    n < |rounds| && beat.round == rounds[n] && !beat.round.cancelled
  }

  /** A call of the loop, over the rounds it is observed for, and the state it leaves: it ends at the
      first cancelled wait, lost or released lock, or refresh that fails once the context is done,
      and at nothing else. */
  ghost predicate RefreshLoop(s: State, id: LeaseId, rounds: seq<Round>, beats: seq<Beat>, end: Option<RefreshEnd>,
                              left: State) {
    || (end.None? && |beats| == |rounds| && Refreshing(s, id, rounds, beats) && left == After(s, beats))
    || (end == Some(ContextDone) && |beats| < |rounds| && rounds[|beats|].cancelled && Refreshing(s, id, rounds, beats)
        && left == Run(After(s, beats), rounds[|beats|].wait))
    || (end.Some? && EndsWith(s, id, rounds, beats, end.value) && left == After(s, beats))
  }

  ghost predicate EndsWith(s: State, id: LeaseId, rounds: seq<Round>, beats: seq<Beat>, end: RefreshEnd) {
    && beats != []
    && var earlier, last := beats[..|beats| - 1], beats[|beats| - 1];
    && Refreshing(s, id, rounds, earlier) && last.before == After(s, earlier)
    && BeatOf(last, id) && FitsRound(last, rounds, |earlier|)
    && RefreshVerdict(last.answer, last.round.contextDone) == Some(end)
  }

  /** A turn either ends the loop or goes round again. */
  lemma AnotherBeat(s: State, id: LeaseId, rounds: seq<Round>, beats: seq<Beat>, beat: Beat)
    requires Refreshing(s, id, rounds, beats) && FitsRound(beat, rounds, |beats|)
    requires BeatOf(beat, id) && beat.before == After(s, beats)
    ensures var verdict := RefreshVerdict(beat.answer, beat.round.contextDone);
            && After(s, beats + [beat]) == Run(beat.before, beat.steps)
            && (verdict.None? ==> Refreshing(s, id, rounds, beats + [beat]))
            && (verdict.Some? ==> RefreshLoop(s, id, rounds, beats + [beat], verdict, Run(beat.before, beat.steps)))
  {
    assert (beats + [beat])[..|beats|] == beats;
  }

  /** What the loop went through, turn by turn. */
  lemma {:induction false} RefreshingTurns(s: State, id: LeaseId, rounds: seq<Round>, beats: seq<Beat>, i: nat)
    requires Refreshing(s, id, rounds, beats) && i < |beats|
    ensures BeatOf(beats[i], id) && FitsRound(beats[i], rounds, i)
    ensures beats[i].before == After(s, beats[..i])
    decreases |beats|
  {
    var earlier := beats[..|beats| - 1];
    if i < |earlier| {
      RefreshingTurns(s, id, rounds, earlier, i);
      assert earlier[..i] == beats[..i];
    }
  }

  /** The same, with nobody unlocking, and every other attempt of this instance prompt. */
  ghost predicate IsBeat(b: Beat, id: LeaseId, lag: nat, age: nat) {
    && BeatOf(b, id) && AllGentle(b.round.wait, id, lag) && TrialGentle(b.round.trial, id, lag)
    && PromptThrough(b.before, id, age, b.round.slot, b.steps)
  }

  /** The wait and the API time of a turn. */
  predicate Within(b: Beat, interval: nat, cost: nat) {
    Elapsed(b.round.wait) <= interval && Cost(b.round.trial) <= cost
  }

  lemma BeatElapsed(b: Beat, id: LeaseId, interval: nat, cost: nat)
    requires BeatOf(b, id) && Within(b, interval, cost)
    ensures Elapsed(b.steps) <= interval + cost
  {
    var s := Run(b.before, b.round.wait);
    ElapsedAppend(b.round.wait, Try(s, b.round.slot, id, true, b.round.trial).0);
    TryCost(s, b.round.slot, id, true, b.round.trial);
  }

  lemma {:induction false} BeatGentle(b: Beat, id: LeaseId, lag: nat, age: nat)
    requires IsBeat(b, id, lag, age)
    ensures AllGentle(b.steps, id, lag)
  {
    TryGentle(Run(b.before, b.round.wait), b.round.slot, id, true, b.round.trial, lag);
  }

  /** After a turn, the last renewal is at most one API call and `age` old if it succeeded, and has grown
      older by at most one interval and one API call if it failed. */
  lemma {:induction false} BeatRenews(b: Beat, id: LeaseId, interval: nat, cost: nat, lag: nat, age: nat, since: int,
                                      slack: nat)
    returns (now: int)
    requires IsBeat(b, id, lag, age) && Within(b, interval, cost) && lag <= age
    requires RenewedSince(b.before, id, since, lag) && b.before.clock <= since + slack
    ensures var after := Run(b.before, b.steps);
            && RenewedSince(after, id, now, lag)
            && after.clock <= now + (if Renewed(b.answer) then cost + age else slack + interval + cost)
  {
    var wait, slot, t := b.round.wait, b.round.slot, b.round.trial;
    var s := Run(b.before, wait);
    GentleKeepsWindowsBacked(b.before, id, lag, wait);
    PromptLater(b.before, id, age, slot, wait, Try(s, slot, id, true, t).0);
    if Renewed(b.answer) { TryRenews(s, slot, id, true, t, lag, age); }
    TryCost(s, slot, id, true, t);
    RunAppend(b.before, wait, Try(s, slot, id, true, t).0);
    RunClock(s, Try(s, slot, id, true, t).0);
    RunClock(b.before, wait);
    BeatGentle(b, id, lag, age);
    GentleRun(b.before, id, since, lag, b.steps);
    now := if Renewed(b.answer) then s.clock - age else since;
  }

  lemma {:induction false} BeatHolds(b: Beat, id: LeaseId, interval: nat, cost: nat, lag: nat, age: nat, since: int,
                                     slack: nat)
    requires IsBeat(b, id, lag, age) && Within(b, interval, cost)
    requires RenewedSince(b.before, id, since, lag) && b.before.clock <= since + slack
    requires slack + interval + cost < b.before.leaseDuration
    ensures forall n :: 0 <= n <= |b.steps| ==> Holds(Run(b.before, b.steps[..n]), id)
  {
    BeatElapsed(b, id, interval, cost);
    BeatGentle(b, id, lag, age);
    forall n | 0 <= n <= |b.steps| ensures Holds(Run(b.before, b.steps[..n]), id) {
      StaysHeld(b.before, id, since, lag, b.steps, n);
    }
  }

  // ---------- The loop keeps the lock ----------

  /** Refreshes that failed in a row just before the n-th. */
  function Failures(beats: seq<Beat>, n: nat): nat
    requires n <= |beats|
  {
    if n == 0 || Renewed(beats[n - 1].answer) then 0 else Failures(beats, n - 1) + 1
  }

  ghost predicate RefreshRun(beats: seq<Beat>, id: LeaseId, interval: nat, cost: nat, lag: nat, age: nat) {
    && (forall i :: 0 <= i < |beats| ==> IsBeat(beats[i], id, lag, age) && Within(beats[i], interval, cost))
    && (forall i :: 0 <= i < |beats| - 1 ==> beats[i + 1].before == Run(beats[i].before, beats[i].steps))
  }

  /** The longest a renewal can be old after so many failures. */
  function Slack(failures: nat, interval: nat, cost: nat, age: nat): nat {
    if failures == 0 then cost + age else Slack(failures - 1, interval, cost, age) + interval + cost
  }

  lemma {:induction false} SlackBound(failures: nat, limit: nat, interval: nat, cost: nat, age: nat)
    requires failures <= limit
    ensures Slack(failures, interval, cost, age) <= limit * interval + (limit + 1) * cost + age
    decreases limit
  {
    if limit > 0 {
      SlackBound(if failures > 0 then failures - 1 else 0, limit - 1, interval, cost, age);
      assert limit * interval == (limit - 1) * interval + interval;
      assert (limit + 1) * cost == limit * cost + cost;
    }
  }

  /** How old the last renewal is when a turn begins. */
  ghost predicate Aged(s: State, id: LeaseId, since: int, lag: nat, slack: nat, leaseDuration: nat) {
    RenewedSince(s, id, since, lag) && s.clock <= since + slack && s.leaseDuration == leaseDuration
  }

  lemma BeatAges(b: Beat, id: LeaseId, interval: nat, cost: nat, lag: nat, age: nat, since: int, failures: nat, d: nat)
    returns (now: int)
    requires IsBeat(b, id, lag, age) && Within(b, interval, cost) && lag <= age
    requires Aged(b.before, id, since, lag, Slack(failures, interval, cost, age), d)
    ensures var failed := if Renewed(b.answer) then 0 else failures + 1;
            Aged(Run(b.before, b.steps), id, now, lag, Slack(failed, interval, cost, age), d)
  {
    now := BeatRenews(b, id, interval, cost, lag, age, since, Slack(failures, interval, cost, age));
    RunClock(b.before, b.steps);
  }

  lemma SlackFits(failures: nat, limit: nat, interval: nat, cost: nat, age: nat, leaseDuration: nat)
    requires failures <= limit && (limit + 1) * interval + (limit + 2) * cost + age < leaseDuration
    ensures Slack(failures, interval, cost, age) + interval + cost < leaseDuration
  {
    SlackBound(failures, limit, interval, cost, age);
    assert (limit + 1) * interval == limit * interval + interval;
    assert (limit + 2) * cost == (limit + 1) * cost + cost;
  }

  lemma {:induction false} RenewalAge(beats: seq<Beat>, id: LeaseId, interval: nat, cost: nat, lag: nat, age: nat,
                                      since: int, d: nat, n: nat)
    returns (now: int)
    requires RefreshRun(beats, id, interval, cost, lag, age) && n < |beats| && lag <= age
    requires Aged(beats[0].before, id, since, lag, cost + age, d)
    ensures Aged(beats[n].before, id, now, lag, Slack(Failures(beats, n), interval, cost, age), d)
  {
    if n == 0 {
      now := since;
    } else {
      var earlier := RenewalAge(beats, id, interval, cost, lag, age, since, d, n - 1);
      var b := beats[n - 1];
      assert beats[n - 1 + 1].before == Run(b.before, b.steps);
      now := BeatAges(b, id, interval, cost, lag, age, earlier, Failures(beats, n - 1), d);
    }
  }

  /** If at most `limit` refreshes fail in a row and limit + 1 intervals, the API time of the calls
      involved and `age` together stay under the lease duration, then at every moment of every
      interleaving the Lease names this instance: nobody else can take it while the loop runs.
      Requests the loop gave up on may still arrive, and other attempts of the same instance may
      overlap with the loop, if their Get is answered within `age` of their clock reading; without
      any, `age` is just the clock lag. */
  lemma {:induction false} RefreshKeepsLock(beats: seq<Beat>, id: LeaseId, interval: nat, cost: nat, lag: nat, age: nat,
                                            limit: nat, since: int, i: nat)
    requires RefreshRun(beats, id, interval, cost, lag, age) && i < |beats| && lag <= age
    requires Aged(beats[0].before, id, since, lag, cost + age, beats[0].before.leaseDuration)
    requires Failures(beats, i) <= limit
    requires (limit + 1) * interval + (limit + 2) * cost + age < beats[0].before.leaseDuration
    ensures forall n :: 0 <= n <= |beats[i].steps| ==> Holds(Run(beats[i].before, beats[i].steps[..n]), id)
  {
    var d := beats[0].before.leaseDuration;
    var now := RenewalAge(beats, id, interval, cost, lag, age, since, d, i);
    SlackFits(Failures(beats, i), limit, interval, cost, age, d);
    BeatHolds(beats[i], id, interval, cost, lag, age, now, Slack(Failures(beats, i), interval, cost, age));
  }

  /** With the shipped values one failed refresh in a row is survived, as long as three attempts and
      `age` together take less than a second. */
  lemma {:induction false} ShippedRefreshSurvivesOneFailure(beats: seq<Beat>, id: LeaseId, cost: nat, lag: nat,
                                                            age: nat, since: int, i: nat)
    requires RefreshRun(beats, id, RENEW_INTERVAL, cost, lag, age) && i < |beats|
    requires lag <= age && 3 * cost + age < 1_000
    requires Aged(beats[0].before, id, since, lag, cost + age, LEASE_DURATION)
    requires Failures(beats, i) <= 1
    ensures forall n :: 0 <= n <= |beats[i].steps| ==> Holds(Run(beats[i].before, beats[i].steps[..n]), id)
  {
    assert (1 + 1) * RENEW_INTERVAL + (1 + 2) * cost + age == 4_000 + 3 * cost + age;
    RefreshKeepsLock(beats, id, RENEW_INTERVAL, cost, lag, age, 1, since, i);
  }

  // ---------- From the attempt that takes the lock to the loop that keeps it ----------

  /** The attempt of Lock or TryLock that takes the lock, under the same conditions as a turn of the loop. */
  ghost predicate Acquires(s: State, slot: nat, id: LeaseId, t: Trial, cost: nat, lag: nat, age: nat) {
    && WindowsBacked(s) && slot !in s.attempts && TrialAvoids(t, slot) && TrialGentle(t, id, lag)
    && Renewed(Try(s, slot, id, false, t).1) && Cost(t) <= cost && lag <= age
    && PromptThrough(s, id, age, slot, Try(s, slot, id, false, t).0)
  }

  /** A successful attempt of Lock or TryLock leaves a renewal no older than its own API time and `age`. */
  lemma AttemptAges(s: State, slot: nat, id: LeaseId, t: Trial, cost: nat, lag: nat, age: nat)
    requires Acquires(s, slot, id, t, cost, lag, age)
    ensures Aged(Run(s, Try(s, slot, id, false, t).0), id, s.clock - age, lag, cost + age, s.leaseDuration)
  {
    TryRenews(s, slot, id, false, t, lag, age);
    TryCost(s, slot, id, false, t);
    RunClock(s, Try(s, slot, id, false, t).0);
  }

  /** From the moment Lock or TryLock succeeds, the loop it starts keeps the Lease. */
  lemma {:induction false} AcquiredIsKept(s: State, slot: nat, id: LeaseId, t: Trial, beats: seq<Beat>, interval: nat,
                                          cost: nat, lag: nat, age: nat, limit: nat, i: nat)
    requires Acquires(s, slot, id, t, cost, lag, age)
    requires RefreshRun(beats, id, interval, cost, lag, age) && i < |beats|
    requires beats[0].before == Run(s, Try(s, slot, id, false, t).0)
    requires Failures(beats, i) <= limit
    requires (limit + 1) * interval + (limit + 2) * cost + age < s.leaseDuration
    ensures forall n :: 0 <= n <= |beats[i].steps| ==> Holds(Run(beats[i].before, beats[i].steps[..n]), id)
  {
    AttemptAges(s, slot, id, t, cost, lag, age);
    RefreshKeepsLock(beats, id, interval, cost, lag, age, limit, s.clock - age, i);
  }

  lemma {:induction false} TurnFollows(s: State, id: LeaseId, rounds: seq<Round>, beats: seq<Beat>, i: nat)
    requires Refreshing(s, id, rounds, beats) && i + 1 < |beats|
    ensures beats[i + 1].before == Run(beats[i].before, beats[i].steps)
  {
    RefreshingTurns(s, id, rounds, beats, i + 1);
    assert beats[..i + 1][|beats[..i + 1]| - 1] == beats[i];
  }

  /** The loop itself: if its rounds are gentle, prompt and timely, it is such a run. */
  lemma {:induction false} LoopIsRun(s: State, id: LeaseId, rounds: seq<Round>, beats: seq<Beat>, interval: nat,
                                     cost: nat, lag: nat, age: nat)
    requires Refreshing(s, id, rounds, beats)
    requires forall i :: 0 <= i < |beats| ==>
               AllGentle(beats[i].round.wait, id, lag) && TrialGentle(beats[i].round.trial, id, lag)
    requires forall i :: 0 <= i < |beats| ==>
               && PromptThrough(beats[i].before, id, age, beats[i].round.slot, beats[i].steps)
               && Within(beats[i], interval, cost)
    ensures RefreshRun(beats, id, interval, cost, lag, age)
  {
    forall i | 0 <= i < |beats| ensures IsBeat(beats[i], id, lag, age) {
      RefreshingTurns(s, id, rounds, beats, i);
    }
    forall i | 0 <= i < |beats| - 1 ensures beats[i + 1].before == Run(beats[i].before, beats[i].steps) {
      TurnFollows(s, id, rounds, beats, i);
    }
  }

  // ---------- A loop that is its instance's only one ----------

  /** The instance starts attempts in no other slot. */
  predicate OnlyIn(steps: seq<Step>, id: LeaseId, own: nat) {
    forall i :: 0 <= i < |steps| && steps[i].Begin? && steps[i].id == id ==> steps[i].slot == own
  }

  /** What the instance has under way in other slots has been answered. */
  ghost predicate Settled(s: State, id: LeaseId, own: nat) {
    forall slot :: slot in s.attempts && s.attempts[slot].id == id && slot != own ==> s.attempts[slot].phase.Fetched?
  }

  lemma {:induction false} OnlyInKeepsSettled(s: State, id: LeaseId, own: nat, steps: seq<Step>)
    requires Settled(s, id, own) && OnlyIn(steps, id, own)
    ensures Settled(Run(s, steps), id, own)
    decreases |steps|
  {
    if steps != [] {
      assert steps[0].Begin? && steps[0].id == id ==> steps[0].slot == own;
      assert forall i :: 0 <= i < |steps[1..]| ==> steps[1..][i] == steps[i + 1];
      OnlyInKeepsSettled(Apply(s, steps[0]), id, own, steps[1..]);
    }
  }

  /** Then it is prompt, whatever the age. */
  lemma AloneIsPrompt(s: State, id: LeaseId, age: nat, own: nat, steps: seq<Step>)
    requires Settled(s, id, own) && OnlyIn(steps, id, own)
    ensures PromptThrough(s, id, age, own, steps)
  {
    forall n | 0 <= n <= |steps| ensures Prompt(Run(s, steps[..n]), id, age, own) {
      OnlyInKeepsSettled(s, id, own, steps[..n]);
    }
  }

  /** Everything the instance has under way has been answered. */
  ghost predicate Answered(s: State, id: LeaseId) {
    forall slot :: slot in s.attempts && s.attempts[slot].id == id ==> s.attempts[slot].phase.Fetched?
  }

  lemma {:induction false} LoneBeat(b: Beat, id: LeaseId, age: nat)
    requires BeatOf(b, id) && Answered(b.before, id) && NoBegin(b.round.wait, id) && TrialNoBegin(b.round.trial, id)
    ensures PromptThrough(b.before, id, age, b.round.slot, b.steps) && Answered(Run(b.before, b.steps), id)
  {
    var slot, t := b.round.slot, b.round.trial;
    var s := Run(b.before, b.round.wait);
    var steps := Try(s, slot, id, true, t).0;
    TryBeginsOnce(s, slot, id, true, t);
    assert steps == [steps[0]] + steps[1..];
    assert OnlyIn(steps, id, slot);
    assert OnlyIn(b.steps, id, slot);
    AloneIsPrompt(b.before, id, age, slot, b.steps);
    OnlyInKeepsSettled(b.before, id, slot, b.steps);
    var landed := TryRuns(s, slot, id, true, t);
    RunAppend(b.before, b.round.wait, steps);
  }

  lemma {:induction false} LoneLoopAnswered(s: State, id: LeaseId, rounds: seq<Round>, beats: seq<Beat>, i: nat)
    requires Refreshing(s, id, rounds, beats) && Answered(s, id) && i < |beats|
    requires forall j :: 0 <= j < |beats| ==> NoBegin(beats[j].round.wait, id) && TrialNoBegin(beats[j].round.trial, id)
    ensures Answered(beats[i].before, id)
  {
    RefreshingTurns(s, id, rounds, beats, i);
    if i > 0 {
      LoneLoopAnswered(s, id, rounds, beats, i - 1);
      RefreshingTurns(s, id, rounds, beats, i - 1);
      LoneBeat(beats[i - 1], id, 0);
      TurnFollows(s, id, rounds, beats, i - 1);
    }
  }

  /** If nobody else starts attempts under the loop's identity, the loop is such a run with an age that
      is just the clock lag. */
  lemma {:induction false} LoneLoopIsRun(s: State, id: LeaseId, rounds: seq<Round>, beats: seq<Beat>, interval: nat,
                                         cost: nat, lag: nat)
    requires Refreshing(s, id, rounds, beats) && Answered(s, id)
    requires forall i :: 0 <= i < |beats| ==> NoBegin(beats[i].round.wait, id) && TrialNoBegin(beats[i].round.trial, id)
    requires forall i :: 0 <= i < |beats| ==>
               AllGentle(beats[i].round.wait, id, lag) && TrialGentle(beats[i].round.trial, id, lag)
    requires forall i :: 0 <= i < |beats| ==> Within(beats[i], interval, cost)
    ensures RefreshRun(beats, id, interval, cost, lag, lag)
  {
    forall i | 0 <= i < |beats| ensures PromptThrough(beats[i].before, id, lag, beats[i].round.slot, beats[i].steps) {
      RefreshingTurns(s, id, rounds, beats, i);
      LoneLoopAnswered(s, id, rounds, beats, i);
      LoneBeat(beats[i], id, lag);
    }
    LoopIsRun(s, id, rounds, beats, interval, cost, lag, lag);
  }

  // ---------- Losing the lock without noticing ----------

  /** A refresh whose reads and writes go through notices a takeover if and only if its own clock
      still shows the new holder's record as live when it begins. Otherwise it takes the lock
      back and goes on as if nothing had happened. */
  lemma {:induction false} TakeoverNoticedExactly(s: State, slot: nat, id: LeaseId, t: Trial)
    requires slot !in s.attempts && TrialAvoids(t, slot) && Quiet(t)
    requires s.lease.Some? && s.lease.value.record.holder != "" && s.lease.value.record.holder != id
    ensures var verdict := RefreshVerdict(Try(s, slot, id, true, t).1, false);
            && (verdict == Some(LockLost) <==> s.lease.value.record.renewTime + s.leaseDuration > s.clock - t.lag)
            && (verdict != Some(LockLost) ==> verdict == None && Holds(Run(s, Try(s, slot, id, true, t).0), id))
  {
    QuietTry(s, slot, id, true, t);
    var landed := TryRuns(s, slot, id, true, t);
    TicksKeepLease(landed, t.beforeReply);
  }

  /** The run in which that happens: a rival takes over when the holder's record runs out, and holds
      the lock for its whole lease before the holder's next refresh. */
  lemma {:induction false} UnnoticedTakeover(s: State, id: LeaseId, rival: LeaseId, slot: nat, b: Beat)
    requires Holds(s, id) && rival != id && slot !in s.attempts
    requires var wait := LeaseBelief.Remaining(s, s.lease.value.record.renewTime);
             b.before == Run(s, LeaseBelief.Takeover(rival, slot, wait))
    requires BeatOf(b, id) && OnlyTicks(b.round.wait) && Quiet(b.round.trial)
    requires Elapsed(b.round.wait) >= s.leaseDuration + b.round.trial.lag && !b.round.contextDone
    ensures Holds(b.before, rival) && Holds(Run(b.before, b.steps), id)
    ensures RefreshVerdict(b.answer, b.round.contextDone) == None
  {
    var wait := LeaseBelief.Remaining(s, s.lease.value.record.renewTime);
    LeaseBelief.TakeoverRuns(s, rival, slot, wait);
    var late := Run(b.before, b.round.wait);
    TicksKeepLease(b.before, b.round.wait);
    RunClock(b.before, b.round.wait);
    TakeoverNoticedExactly(late, b.round.slot, id, b.round.trial);
    RunAppend(b.before, b.round.wait, Try(late, b.round.slot, id, true, b.round.trial).0);
  }
}
