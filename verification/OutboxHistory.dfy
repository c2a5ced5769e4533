/**
 What the stored row of an event says about its past: how a row comes to be both delivered and
 dead, how often it was handed out, and how long its retries took.
 */
module OutboxHistory {
  import opened Basics
  import opened Outbox
  import opened OutboxRuns
  import S = Sanitizer

  // ----- delivered and dead -----

  ghost predicate Both(s: State, id: string) {
    id in s.rows && s.rows[id].deliveredAt.Some? && s.rows[id].deadAt.Some?
  }

  predicate Replays(step: Step, id: string) {
    step.Replay? && step.id == id
  }

  /** A success recorded on a dead row, or a last failure recorded on a delivered row. */
  ghost predicate Collides(s: State, step: Step, id: string) {
    id in s.rows &&
    match step
    case Deliver(claim, _) => claim.id == id && s.rows[id].deadAt.Some?
    case Fail(claim, maxAttempts, _) => claim.id == id && claim.attempts >= maxAttempts && s.rows[id].deliveredAt.Some?
    case _ => false
  }

  ghost predicate NoReplayBetween(steps: seq<Step>, x: nat, k: nat, id: string)
    requires k <= |steps|
  {
    forall y: nat :: x < y < k ==> !Replays(steps[y], id)
  }

  lemma StepBothIff(s: State, step: Step, id: string)
    requires Enabled(s, step)
    ensures Both(Apply(s, step), id) <==> (Both(s, id) && !Replays(step, id)) || Collides(s, step, id)
  {
    hide Claimable, KeyTaken, Backoff;
  }

  /** A row is both exactly if an outcome once collided with the opposite one and no replay followed. */
  lemma {:induction false} BothIff(states: seq<State>, steps: seq<Step>, k: nat, id: string)
    requires IsRun(states, steps) && k < |states|
    ensures Both(states[k], id) <==>
            exists x: nat :: x < k && Collides(states[x], steps[x], id) && NoReplayBetween(steps, x, k, id)
  {
    hide Enabled, Apply, Both, Collides, Replays;
    if k > 0 {
      BothIff(states, steps, k - 1, id);
      StepBothIff(states[k - 1], steps[k - 1], id);
    } else {
      NoneAtStart(states, steps, id);
    }
  }

  lemma NoneAtStart(states: seq<State>, steps: seq<Step>, id: string)
    requires IsRun(states, steps)
    ensures !Both(states[0], id)
  {
  }

  // ----- failures -----

  /** A failure is recorded on the row: a last one always, an earlier one while the row is open. */
  ghost predicate NotesFailure(s: State, step: Step, id: string) {
    && step.Fail? && step.claim.id == id && id in s.rows
    && (step.claim.attempts >= step.maxAttempts || Open(s.rows[id]))
  }

  ghost predicate FailureOpen(s: State, id: string) {
    id in s.rows && (s.rows[id].failed || s.rows[id].deadAt.Some?)
  }

  lemma StepFailure(s: State, step: Step, id: string)
    requires Enabled(s, step) && id in Apply(s, step).rows && Apply(s, step).rows[id].deliveredAt.None?
    ensures FailureOpen(Apply(s, step), id) <==> NotesFailure(s, step, id) || (FailureOpen(s, id) && !Replays(step, id))
    ensures id in s.rows ==> s.rows[id].deliveredAt.None?
  {
    hide Claimable, KeyTaken, Backoff;
  }

  /** The events that can be replayed are the undelivered ones with a failure since they were last replayed. */
  lemma {:induction false} ReplayableIff(states: seq<State>, steps: seq<Step>, k: nat, id: string)
    requires IsRun(states, steps) && k < |states| && id in states[k].rows
    ensures MayReplay(states[k].rows[id]) <==>
            && states[k].rows[id].deliveredAt.None?
            && exists x: nat :: x < k && NotesFailure(states[x], steps[x], id) && NoReplayBetween(steps, x, k, id)
    decreases k
  {
    hide Enabled, Apply, NotesFailure, Replays;
    if k > 0 && states[k].rows[id].deliveredAt.None? {
      StepFailure(states[k - 1], steps[k - 1], id);
      if id in states[k - 1].rows {
        ReplayableIff(states, steps, k - 1, id);
      } else {
        NotYetNoted(states, steps, k - 1, id);
      }
    }
  }

  /** An event that is not there yet has no failures. */
  lemma NotYetNoted(states: seq<State>, steps: seq<Step>, k: nat, id: string)
    requires IsRun(states, steps) && k < |states| && id !in states[k].rows
    ensures forall x: nat :: x < k ==> !NotesFailure(states[x], steps[x], id)
  {
    hide Enabled, Apply;
    forall x: nat | x < k
      ensures !NotesFailure(states[x], steps[x], id)
    {
      RunPreserves(states, steps, x, k);
    }
  }

  // ----- dead letters -----

  lemma {:induction false} EmittedBefore(states: seq<State>, steps: seq<Step>, k: nat, id: string) returns (x: nat)
    requires IsRun(states, steps) && k < |states| && id in states[k].rows
    ensures x < k && steps[x].Emit? && steps[x].id == id && steps[x].payload == states[k].rows[id].payload
    decreases k
  {
    if id in states[k - 1].rows {
      StepPreserves(states[k - 1], steps[k - 1]);
      x := EmittedBefore(states, steps, k - 1, id);
    } else {
      x := k - 1;
    }
  }

  /**
   The letter that a last failure leaves, however late it comes, is a forensic copy of the payload
   that was once emitted under the id of the letter.
   */
  lemma LetterOfEmittedEvent(p: S.Policy, states: seq<State>, steps: seq<Step>, i: nat)
    requires IsRun(states, steps) && i < |steps| && steps[i].Fail?
    ensures var claim := steps[i].claim;
            var letter := DeadLetterOf(p, claim.id, claim.payload, claim.attempts);
            && letter.eventId == claim.id && letter.attempts == claim.attempts
            && exists x: nat :: x < i && EmitsEvent(steps[x], claim.id) && Forensic(p, steps[x].payload, letter.payload)
  {
    hide Forensic;
    var claim := steps[i].claim;
    RunKeepsInv(states, steps, i);
    var x := EmittedBefore(states, steps, i, claim.id);
    DeadLetterIsForensic(p, claim.id, claim.payload, claim.attempts);
    assert EmitsEvent(steps[x], claim.id);
  }

  predicate EmitsEvent(step: Step, id: string) {
    step.Emit? && step.id == id
  }

  // ----- attempts -----

  /** The event is emitted, or replayed with its attempts reset. */
  predicate Restarts(step: Step, id: string) {
    (step.Emit? && step.id == id) || (step.Replay? && step.id == id && step.resetAttempts)
  }

  /** How often the event was handed out among the first `k` steps, since it last started. */
  function ClaimsSince(steps: seq<Step>, k: nat, id: string): nat
    requires k <= |steps|
  {
    if k == 0 || Restarts(steps[k - 1], id) then 0
    else ClaimsSince(steps, k - 1, id) + if steps[k - 1].TryClaim? && steps[k - 1].id == id then 1 else 0
  }

  lemma StepAttempts(s: State, step: Step, id: string)
    requires Enabled(s, step) && id in Apply(s, step).rows
    ensures if Restarts(step, id) then Apply(s, step).rows[id].attempts == 0
            else && id in s.rows
                 && Apply(s, step).rows[id].attempts ==
                    s.rows[id].attempts + if step.TryClaim? && step.id == id then 1 else 0
  {
    hide Claimable, KeyTaken, Backoff;
  }

  /** In every run the stored attempts count the claims since the event last started. */
  lemma {:induction false} AttemptsAreClaims(states: seq<State>, steps: seq<Step>, k: nat, id: string)
    requires IsRun(states, steps) && k < |states| && id in states[k].rows
    ensures states[k].rows[id].attempts == ClaimsSince(steps, k, id)
  {
    hide Enabled, Apply, Restarts;
    assert k > 0;
    StepAttempts(states[k - 1], steps[k - 1], id);
    if !Restarts(steps[k - 1], id) {
      AttemptsAreClaims(states, steps, k - 1, id);
    }
  }

  ghost predicate DeadOk(s: State, id: string, maxAttempts: int) {
    id in s.rows && s.rows[id].deadAt.Some? ==> s.rows[id].attempts == maxAttempts && s.rows[id].leaseUntil.None?
  }

  lemma DisciplinedStepKeepsDead(s: State, step: Step, id: string, maxAttempts: int)
    requires DisciplinedInv(s, maxAttempts) && DeadOk(s, id, maxAttempts)
    requires Enabled(s, step) && Disciplined(s, step, maxAttempts)
    ensures DeadOk(Apply(s, step), id, maxAttempts)
  {
    hide KeyTaken, Backoff;
    if id in s.rows {
      assert RowDisciplined(s, id, maxAttempts);
    }
  }

  lemma {:induction false} DisciplinedRunDead(
    states: seq<State>, steps: seq<Step>, maxAttempts: int, k: nat, id: string)
    requires DisciplinedRun(states, steps, maxAttempts) && maxAttempts >= 1 && k < |states|
    ensures DeadOk(states[k], id, maxAttempts)
  {
    hide Enabled, Apply, Disciplined, DisciplinedInv;
    if k > 0 {
      DisciplinedRunDead(states, steps, maxAttempts, k - 1, id);
      DisciplinedRunInv(states, steps, maxAttempts, k - 1);
      DisciplinedStepKeepsDead(states[k - 1], steps[k - 1], id, maxAttempts);
    }
  }

  /**
   Under the lease discipline an undelivered event is dead exactly after it was handed out the
   maximum number of times and the last outcome is in: no sooner and no later.
   */
  lemma DeadIff(states: seq<State>, steps: seq<Step>, maxAttempts: int, k: nat, id: string)
    requires DisciplinedRun(states, steps, maxAttempts) && maxAttempts >= 1
    requires k < |states| && id in states[k].rows && states[k].rows[id].deliveredAt.None?
    ensures states[k].rows[id].deadAt.Some? <==>
            ClaimsSince(steps, k, id) == maxAttempts && states[k].rows[id].leaseUntil.None?
    ensures ClaimsSince(steps, k, id) <= maxAttempts
  {
    AttemptsAreClaims(states, steps, k, id);
    DisciplinedRunDead(states, steps, maxAttempts, k, id);
    DisciplinedRunInv(states, steps, maxAttempts, k);
    assert RowDisciplined(states[k], id, maxAttempts);
  }

  // ----- delays -----

  /** The time at which the event last started: that of its emission or of its replay. */
  function StartOf(steps: seq<Step>, k: nat, id: string): int
    requires k <= |steps|
  {
    if k == 0 then 0
    else if Restarts(steps[k - 1], id) then steps[k - 1].now
    else StartOf(steps, k - 1, id)
  }

  /** A failure of the event is timed after the claim it answers. */
  predicate Timely(step: Step, id: string) {
    step.Fail? && step.claim.id == id ==> step.claim.claimedAt <= step.now
  }

  /** The event is claimed the moment it is available and fails the moment it is claimed. */
  ghost predicate Immediate(s: State, step: Step, id: string) {
    && (step.TryClaim? && step.id == id && id in s.rows ==> step.now == s.rows[id].availableAfter)
    && (step.Fail? && step.claim.id == id ==> step.now == step.claim.claimedAt)
  }

  predicate Bound(exact: bool, a: int, b: int) {
    if exact then a == b else a >= b
  }

  ghost predicate DelayOk(s: State, id: string, start: int, maxAttempts: int, exact: bool) {
    id in s.rows ==>
      var row := s.rows[id];
      && (Open(row) ==>
            Bound(exact, row.availableAfter,
                  start + TotalDelay(Max(0, if row.leaseUntil.None? then row.attempts else row.attempts - 1))))
      && (row.deadAt.Some? ==> Bound(exact, row.deadAt.value, start + TotalDelay(Max(0, maxAttempts - 1))))
      && (forall c <- s.inflight :: c.id == id ==> Bound(exact, c.claimedAt, row.availableAfter) && c.attempts >= 1)
  }

  lemma FailureDelays(attempts: int)
    requires attempts >= 1
    ensures TotalDelay(attempts) == TotalDelay(attempts - 1) + Backoff(attempts)
  {
    BackoffShape(attempts, attempts);
  }

  lemma DelayStep(s: State, step: Step, id: string, start: int, maxAttempts: int, exact: bool)
    requires DisciplinedInv(s, maxAttempts) && maxAttempts >= 1 && DelayOk(s, id, start, maxAttempts, exact)
    requires Enabled(s, step) && Disciplined(s, step, maxAttempts) && Timely(step, id)
    requires exact ==> Immediate(s, step, id)
    ensures DelayOk(Apply(s, step), id, if Restarts(step, id) then step.now else start, maxAttempts, exact)
  {
    hide KeyTaken, Backoff, TotalDelay;
    if id in s.rows {
      assert RowDisciplined(s, id, maxAttempts);
      if step.Fail? && step.claim.id == id {
        assert ClaimHeld(s.rows, step.claim, s.clock);
        FailureDelays(step.claim.attempts);
      }
      if step.TryClaim? && step.id == id {
        assert s.rows[id].leaseUntil.None?;
      }
    }
    assert TotalDelay(0) == 0 by { NoDelay(); }
  }

  lemma NoDelay()
    ensures TotalDelay(0) == 0
  {
  }

  lemma {:induction false} DelayInv(
    states: seq<State>, steps: seq<Step>, maxAttempts: int, k: nat, id: string, exact: bool)
    requires DisciplinedRun(states, steps, maxAttempts) && maxAttempts >= 1 && k < |states|
    requires forall x :: 0 <= x < k ==> Timely(steps[x], id) && (exact ==> Immediate(states[x], steps[x], id))
    ensures DelayOk(states[k], id, StartOf(steps, k, id), maxAttempts, exact)
  {
    hide Enabled, Apply, Disciplined, DisciplinedInv, Timely, Immediate, DelayOk, Restarts;
    if k > 0 {
      DelayInv(states, steps, maxAttempts, k - 1, id, exact);
      DisciplinedRunInv(states, steps, maxAttempts, k - 1);
      DelayStep(states[k - 1], steps[k - 1], id, StartOf(steps, k - 1, id), maxAttempts, exact);
    } else {
      NoRowsAtStart(states, steps, id, maxAttempts, exact);
    }
  }

  lemma NoRowsAtStart(states: seq<State>, steps: seq<Step>, id: string, maxAttempts: int, exact: bool)
    requires IsRun(states, steps)
    ensures DelayOk(states[0], id, StartOf(steps, 0, id), maxAttempts, exact)
  {
  }

  /**
   Under the lease discipline, with failures timed after their claims, the retries of an event
   take at least the sum of their backoffs, and exactly that sum if every claim and every failure
   comes at once.
   */
  lemma RetriesTakeTime(states: seq<State>, steps: seq<Step>, maxAttempts: int, k: nat, id: string)
    requires DisciplinedRun(states, steps, maxAttempts) && maxAttempts >= 1 && k < |states| && id in states[k].rows
    requires forall x :: 0 <= x < k ==> Timely(steps[x], id)
    ensures var row, start, n := states[k].rows[id], StartOf(steps, k, id), ClaimsSince(steps, k, id);
            && (Open(row) && row.leaseUntil.None? ==> row.availableAfter >= start + TotalDelay(n))
            && (row.deadAt.Some? ==> row.deadAt.value >= start + TotalDelay(maxAttempts - 1))
            && ((forall x :: 0 <= x < k ==> Immediate(states[x], steps[x], id)) ==>
                  && (Open(row) && row.leaseUntil.None? ==> row.availableAfter == start + TotalDelay(n))
                  && (row.deadAt.Some? ==> row.deadAt.value == start + TotalDelay(maxAttempts - 1)))
  {
    hide Immediate, Timely, TotalDelay, Disciplined, Enabled, Apply;
    AttemptsInRun(states, steps, maxAttempts, k, id);
    DelayInv(states, steps, maxAttempts, k, id, false);
    if forall x :: 0 <= x < k ==> Immediate(states[x], steps[x], id) {
      DelayInv(states, steps, maxAttempts, k, id, true);
    }
  }

  lemma AttemptsInRun(states: seq<State>, steps: seq<Step>, maxAttempts: int, k: nat, id: string)
    requires DisciplinedRun(states, steps, maxAttempts) && maxAttempts >= 1 && k < |states| && id in states[k].rows
    ensures states[k].rows[id].attempts == ClaimsSince(steps, k, id)
  {
    AttemptsAreClaims(states, steps, k, id);
  }

  // ----- the immediate schedule is such a run -----

  lemma ExtendDisciplined(states: seq<State>, steps: seq<Step>, s: State, step: Step, maxAttempts: int)
    returns (longer: seq<State>, more: seq<Step>, t: State)
    requires DisciplinedRun(states, steps, maxAttempts) && states[|states| - 1] == s
    requires Enabled(s, step) && Disciplined(s, step, maxAttempts)
    ensures DisciplinedRun(longer, more, maxAttempts) && longer[|longer| - 1] == t && t == Apply(s, step)
  {
    t := Apply(s, step);
    longer, more := states + [t], steps + [step];
  }

  /** The rounds of an always failing handler are a run under the lease discipline. */
  lemma {:induction false} FailingRoundsRun(
    id: string, key: string, payload: S.Value, now: int, worker: string, lease: int, maxAttempts: nat, n: nat)
    returns (states: seq<State>, steps: seq<Step>, s: State)
    requires n <= maxAttempts && maxAttempts >= 1 && lease > 0
    ensures DisciplinedRun(states, steps, maxAttempts) && states[|states| - 1] == s
    ensures s.rows == map[id := FailingRounds(NewRow(key, payload, now), worker, lease, maxAttempts, n)]
    ensures s.inflight == {} && (n < maxAttempts ==> s.clock <= s.rows[id].availableAfter)
  {
    if n == 0 {
      s := State(now, map[], {});
      states, steps := [s], [];
      states, steps, s := ExtendDisciplined(states, steps, s, Emit(id, key, payload, now), maxAttempts);
    } else {
      states, steps, s := FailingRoundsRun(id, key, payload, now, worker, lease, maxAttempts, n - 1);
      if n > 1 {
        AlwaysFailing(key, payload, now, worker, lease, maxAttempts, n - 1);
      }
      hide DisciplinedRun, TotalDelay;
      var at := s.rows[id].availableAfter;
      BackoffShape(n, n);
      states, steps, s := ExtendDisciplined(states, steps, s, Tick(at), maxAttempts);
      states, steps, s := ExtendDisciplined(states, steps, s, TryClaim(id, worker, lease, at), maxAttempts);
      var claim := ClaimOf(id, s.rows[id], at);
      states, steps, s := ExtendDisciplined(states, steps, s, Fail(claim, maxAttempts, at), maxAttempts);
    }
  }
}
