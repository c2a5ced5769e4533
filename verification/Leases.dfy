/**
 What crashes and stale workers do to a lease: how far attempts can exceed the limit, and which
 steps end a lease that is still running.
 */
module Leases {
  import opened Basics
  import opened Outbox
  import opened OutboxRuns
  import opened OutboxHistory
  import S = Sanitizer

  // ----- attempts beside crashes -----

  /** In time, with one limit for attempts and replays that reset them; workers may crash. */
  ghost predicate Uniform(s: State, step: Step, maxAttempts: int) {
    && OnTime(s, step)
    && (step.Fail? ==> step.maxAttempts == maxAttempts)
    && (step.Replay? ==> step.resetAttempts)
  }

  ghost predicate UniformRun(states: seq<State>, steps: seq<Step>, maxAttempts: int) {
    IsRun(states, steps) && forall i :: 0 <= i < |steps| ==> Uniform(states[i], steps[i], maxAttempts)
  }

  /** How many claims of the event were given up without an outcome since it last started. */
  function AbandonsSince(steps: seq<Step>, k: nat, id: string): nat
    requires k <= |steps|
  {
    if k == 0 || Restarts(steps[k - 1], id) then 0
    else AbandonsSince(steps, k - 1, id) + if steps[k - 1].Abandon? && steps[k - 1].claim.id == id then 1 else 0
  }

  ghost predicate InFlight(s: State, id: string) {
    exists c <- s.inflight :: c.id == id
  }

  ghost predicate AttemptsOk(s: State, id: string, abandons: nat, maxAttempts: int) {
    id in s.rows ==>
      && s.rows[id].attempts <= maxAttempts + abandons
      && (Open(s.rows[id]) && !InFlight(s, id) ==> s.rows[id].attempts < maxAttempts + abandons)
      && (s.rows[id].deadAt.Some? ==> s.rows[id].attempts >= maxAttempts)
  }

  lemma AttemptsStep(s: State, step: Step, id: string, abandons: nat, maxAttempts: int)
    requires LeaseInv(s) && maxAttempts >= 1 && AttemptsOk(s, id, abandons, maxAttempts)
    requires Enabled(s, step) && Uniform(s, step, maxAttempts)
    ensures AttemptsOk(Apply(s, step), id,
                       if Restarts(step, id) then 0
                       else abandons + if step.Abandon? && step.claim.id == id then 1 else 0,
                       maxAttempts)
  {
    hide KeyTaken, Backoff;
    var t := Apply(s, step);
    if id in s.rows && InFlight(s, id) {
      var c :| c in s.inflight && c.id == id;
      assert ClaimHeld(s.rows, c, s.clock);
      if !((step.Deliver? || step.Fail? || step.Abandon?) && step.claim.id == id) {
        assert c in t.inflight;
      }
    }
    if step.TryClaim? && step.id == id {
      assert ClaimOf(id, t.rows[id], step.now) in t.inflight;
    }
  }

  lemma {:induction false} UniformRunAttempts(
    states: seq<State>, steps: seq<Step>, maxAttempts: int, k: nat, id: string)
    requires UniformRun(states, steps, maxAttempts) && maxAttempts >= 1 && k < |states|
    ensures AttemptsOk(states[k], id, AbandonsSince(steps, k, id), maxAttempts)
  {
    hide Enabled, Apply, OnTime, Restarts, AttemptsOk;
    if k > 0 {
      UniformRunAttempts(states, steps, maxAttempts, k - 1, id);
      assert OnTimeRun(states, steps);
      OnTimeRunInv(states, steps, k - 1);
      AttemptsStep(states[k - 1], steps[k - 1], id, AbandonsSince(steps, k - 1, id), maxAttempts);
    } else {
      NoRowAtStart(states, steps, id, maxAttempts);
    }
  }

  lemma NoRowAtStart(states: seq<State>, steps: seq<Step>, id: string, maxAttempts: int)
    requires IsRun(states, steps)
    ensures AttemptsOk(states[0], id, AbandonsSince(steps, 0, id), maxAttempts)
  {
  }

  /**
   With crashing workers an event is handed out at most as often as the limit says, and once more
   for each claim that was given up without an outcome; it is not dead before the limit.
   */
  lemma AttemptsWithinCrashes(states: seq<State>, steps: seq<Step>, maxAttempts: int, k: nat, id: string)
    requires UniformRun(states, steps, maxAttempts) && maxAttempts >= 1 && k < |states| && id in states[k].rows
    ensures ClaimsSince(steps, k, id) <= maxAttempts + AbandonsSince(steps, k, id)
    ensures states[k].rows[id].deadAt.Some? ==> ClaimsSince(steps, k, id) >= maxAttempts
  {
    AttemptsAreClaims(states, steps, k, id);
    UniformRunAttempts(states, steps, maxAttempts, k, id);
  }

  /** The limit alone is no bound: an event with one attempt is handed out again after its worker crashed. */
  lemma CrashExceedsLimit(id: string, key: string, payload: S.Value)
    returns (states: seq<State>, steps: seq<Step>, s: State)
    ensures UniformRun(states, steps, 1) && states[|states| - 1] == s
    ensures id in s.rows && s.rows[id].attempts == 2
  {
    s := State(0, map[], {});
    states, steps := [s], [];
    assert UniformRun(states, steps, 1);
    hide UniformRun;
    states, steps, s := ExtendUniform(states, steps, s, Emit(id, key, payload, 0), 1);
    states, steps, s := ExtendUniform(states, steps, s, TryClaim(id, "first", 30, 0), 1);
    states, steps, s := ExtendUniform(states, steps, s, Abandon(ClaimOf(id, s.rows[id], 0)), 1);
    states, steps, s := ExtendUniform(states, steps, s, Tick(30), 1);
    states, steps, s := ExtendUniform(states, steps, s, TryClaim(id, "second", 30, 30), 1);
  }

  lemma ExtendUniform(states: seq<State>, steps: seq<Step>, s: State, step: Step, maxAttempts: int)
    returns (longer: seq<State>, more: seq<Step>, t: State)
    requires UniformRun(states, steps, maxAttempts) && states[|states| - 1] == s
    requires Enabled(s, step) && Uniform(s, step, maxAttempts)
    ensures UniformRun(longer, more, maxAttempts) && longer[|longer| - 1] == t && t == Apply(s, step)
  {
    t := Apply(s, step);
    longer, more := states + [t], steps + [step];
  }

  // ----- which steps end a lease -----

  /** No case asks who holds the lease. */
  ghost predicate EndsLease(s: State, step: Step, id: string) {
    id in s.rows &&
    match step
    case Deliver(claim, _) => claim.id == id && s.rows[id].deliveredAt.None?
    case Fail(claim, maxAttempts, _) => claim.id == id && (claim.attempts >= maxAttempts || Open(s.rows[id]))
    case Replay(replayed, _, _) => replayed == id
    case _ => false
  }

  lemma LeaseEndsIff(s: State, step: Step, id: string)
    requires Enabled(s, step) && id in s.rows && s.rows[id].leaseUntil.Some?
    ensures id in Apply(s, step).rows
    ensures Apply(s, step).rows[id].leaseUntil.None? <==> EndsLease(s, step, id)
    ensures !EndsLease(s, step, id) && !(step.TryClaim? && step.id == id) ==>
              Apply(s, step).rows[id].leaseUntil == s.rows[id].leaseUntil
  {
    hide KeyTaken, Backoff, Claimable;
  }

  ghost predicate EndedBetween(states: seq<State>, steps: seq<Step>, b: nat, k: nat, id: string)
    requires |states| == |steps| + 1 && k < |states|
  {
    exists x: nat :: b < x < k && EndsLease(states[x], steps[x], id)
  }

  /** As long as it has not run out, a lease stays unless one of those steps ends it. */
  lemma {:induction false} LeaseStays(states: seq<State>, steps: seq<Step>, b: nat, k: nat, id: string, until: int)
    requires IsRun(states, steps) && b < k < |states| && !EndedBetween(states, steps, b, k, id)
    requires id in states[b + 1].rows && states[b + 1].rows[id].leaseUntil == Some(until) && states[k].clock < until
    ensures id in states[k].rows && states[k].rows[id].leaseUntil == Some(until)
    decreases k
  {
    hide Enabled, Apply, EndsLease;
    if b + 1 < k {
      RunPreserves(states, steps, k - 1, k);
      LeaseStays(states, steps, b, k - 1, id, until);
      LeaseEndsIff(states[k - 1], steps[k - 1], id);
      LeasedIsNotClaimed(states[k - 1], steps[k - 1], id, until);
    }
  }

  lemma LeasedIsNotClaimed(s: State, step: Step, id: string, until: int)
    requires Enabled(s, step) && id in s.rows && s.rows[id].leaseUntil == Some(until) && s.clock < until
    ensures !(step.TryClaim? && step.id == id)
  {
  }

  /**
   An event is handed out again while the lease of an earlier claim still runs only if a step in
   between ended that lease: an outcome of any worker, or a replay.
   */
  lemma SecondClaimNeedsEndedLease(states: seq<State>, steps: seq<Step>, b: nat, k: nat, now: int)
    requires IsRun(states, steps) && b < k < |states| && steps[b].TryClaim?
    requires states[k].clock < steps[b].now + steps[b].lease && now <= states[k].clock
    requires steps[b].id in states[k].rows && Claimable(states[k].rows[steps[b].id], now)
    ensures EndedBetween(states, steps, b, k, steps[b].id)
  {
    if !EndedBetween(states, steps, b, k, steps[b].id) {
      LeaseStays(states, steps, b, k, steps[b].id, steps[b].now + steps[b].lease);
    }
  }

  /** After a failure that leaves a retry, whoever reports it, the event is claimable exactly after the backoff. */
  lemma FailureOpensIff(s: State, claim: Claim, maxAttempts: int, at: int, now: int)
    requires Enabled(s, Fail(claim, maxAttempts, at)) && claim.attempts < maxAttempts && Open(s.rows[claim.id])
    ensures Claimable(Apply(s, Fail(claim, maxAttempts, at)).rows[claim.id], now) <==>
              at + Backoff(claim.attempts) <= now
  {
    hide Backoff;
  }

  /** When outcomes come in time there is never a second claim: each event has at most one in flight, and it is live. */
  lemma OneClaimInFlight(states: seq<State>, steps: seq<Step>, k: nat, a: Claim, b: Claim)
    requires OnTimeRun(states, steps) && k < |states|
    requires a in states[k].inflight && b in states[k].inflight && a.id == b.id
    ensures a == b && Live(states[k], a)
  {
    OnTimeRunInv(states, steps, k);
    assert ClaimHeld(states[k].rows, a, states[k].clock);
  }

  /** The claim has no outcome yet and its lease is running. */
  ghost predicate Live(s: State, claim: Claim) {
    claim in s.inflight && s.clock < claim.leaseUntil
  }

  /**
   A run to two live claims of one event: the late failure of a first worker frees the lease of
   the second one, and a third one claims.
   */
  lemma StaleFailureFreesLease(id: string, key: string, payload: S.Value)
    returns (states: seq<State>, steps: seq<Step>, s: State, held: Claim, third: Claim)
    ensures IsRun(states, steps) && states[|states| - 1] == s
    ensures held != third && held.id == third.id == id && Live(s, held) && Live(s, third)
  {
    hide IsRun;
    s := State(0, map[], {});
    StartIsRun(s);
    states, steps := [s], [];
    states, steps, s := ExtendRun(states, steps, s, Emit(id, key, payload, 0));
    states, steps, s := ExtendRun(states, steps, s, TryClaim(id, "first", 30, 0));
    var late := ClaimOf(id, s.rows[id], 0);
    states, steps, s := ExtendRun(states, steps, s, Tick(30));
    states, steps, s := ExtendRun(states, steps, s, TryClaim(id, "second", 300, 30));
    held := ClaimOf(id, s.rows[id], 30);
    states, steps, s := ExtendRun(states, steps, s, Fail(late, 5, 30));
    states, steps, s := ExtendRun(states, steps, s, Tick(40));
    BackoffShape(1, 1);
    assert Pow2(1) == 2 by { assert Pow2(0) == 1; }
    states, steps, s := ExtendRun(states, steps, s, TryClaim(id, "third", 300, 40));
    third := ClaimOf(id, s.rows[id], 40);
  }
}
