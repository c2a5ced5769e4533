/**
 Any number of producers, workers and operators over the outbox, with a clock that never runs
 back. A worker may act on its claim long after the lease ran out, and an operator's replay
 may take effect long after the row was inspected.
 */
module OutboxRuns {
  import opened Basics
  import opened Outbox
  import S = Sanitizer

  datatype State = State(clock: int, rows: Rows, inflight: set<Claim>)

  /** `now` is the clock reading a caller took before its update; it may be old, never ahead. */
  datatype Step =
    | Tick(clock: int)
    | Emit(id: string, key: string, payload: S.Value, now: int)
    | TryClaim(id: string, worker: string, lease: int, now: int)
    | Deliver(claim: Claim, now: int)
    | Fail(claim: Claim, maxAttempts: int, now: int)
    | Replay(id: string, resetAttempts: bool, now: int)
    | Abandon(claim: Claim)

  ghost predicate Enabled(s: State, step: Step) {
    match step
    case Tick(clock) => s.clock <= clock
    case Emit(id, key, _, now) => now <= s.clock && id !in s.rows && !KeyTaken(s.rows, key)
    case TryClaim(id, _, _, now) => now <= s.clock && id in s.rows && Claimable(s.rows[id], now)
    case Deliver(claim, now) => now <= s.clock && claim in s.inflight && claim.id in s.rows
    case Fail(claim, _, now) => now <= s.clock && claim in s.inflight && claim.id in s.rows
    case Replay(id, _, now) => now <= s.clock && id in s.rows
    case Abandon(claim) => claim in s.inflight
  }

  ghost function Apply(s: State, step: Step): State
    requires Enabled(s, step)
  {
    match step
    case Tick(clock) => s.(clock := clock)
    case Emit(id, key, payload, now) => s.(rows := s.rows[id := NewRow(key, payload, now)])
    case TryClaim(id, worker, lease, now) =>
      var row := Claimed(s.rows[id], worker, now, lease);
      s.(rows := s.rows[id := row], inflight := s.inflight + {ClaimOf(id, row, now)})
    case Deliver(claim, now) =>
      s.(rows := s.rows[claim.id := Delivered(s.rows[claim.id], now)], inflight := s.inflight - {claim})
    case Fail(claim, maxAttempts, now) =>
      s.(rows := s.rows[claim.id := Failed(s.rows[claim.id], claim.attempts, maxAttempts, now)],
         inflight := s.inflight - {claim})
    case Replay(id, resetAttempts, now) => s.(rows := s.rows[id := Requeued(s.rows[id], now, resetAttempts)])
    case Abandon(claim) => s.(inflight := s.inflight - {claim})
  }

  ghost predicate IsRun(states: seq<State>, steps: seq<Step>) {
    && |states| == |steps| + 1
    && states[0].rows == map[] && states[0].inflight == {}
    && forall i :: 0 <= i < |steps| ==> Enabled(states[i], steps[i]) && states[i + 1] == Apply(states[i], steps[i])
  }

  // ----- every run -----

  ghost predicate Inv(s: State) {
    && LeasesStarted(s.rows, s.clock)
    && (forall a, b :: a in s.rows && b in s.rows && s.rows[a].key == s.rows[b].key ==> a == b)
    && (forall c <- s.inflight :: c.id in s.rows && c.payload == s.rows[c.id].payload)
  }

  /** What no step may change: an event keeps its key and payload, a delivery its time. */
  ghost predicate Preserves(before: Rows, after: Rows) {
    forall id <- before ::
      && id in after
      && after[id].key == before[id].key && after[id].payload == before[id].payload
      && (before[id].deliveredAt.Some? ==> after[id].deliveredAt == before[id].deliveredAt)
  }

  lemma StepPreserves(s: State, step: Step)
    requires Enabled(s, step)
    ensures Preserves(s.rows, Apply(s, step).rows) && s.clock <= Apply(s, step).clock
  {
    hide Claimable, KeyTaken, Backoff;
  }

  lemma StepKeepsLeases(s: State, step: Step)
    requires Enabled(s, step) && LeasesStarted(s.rows, s.clock)
    ensures LeasesStarted(Apply(s, step).rows, Apply(s, step).clock)
  {
    hide KeyTaken, Backoff;
  }

  lemma StepKeepsClaims(s: State, step: Step)
    requires Inv(s) && Enabled(s, step)
    ensures forall c <- Apply(s, step).inflight ::
              c.id in Apply(s, step).rows && c.payload == Apply(s, step).rows[c.id].payload
  {
    hide Backoff, KeyTaken, LeasesStarted, Claimable;
    StepPreserves(s, step);
  }

  lemma StepKeepsInv(s: State, step: Step)
    requires Inv(s) && Enabled(s, step)
    ensures Inv(Apply(s, step)) && Preserves(s.rows, Apply(s, step).rows)
    ensures s.clock <= Apply(s, step).clock
  {
    StepPreserves(s, step);
    StepKeepsLeases(s, step);
    StepKeepsClaims(s, step);
    hide Backoff, Claimable, LeasesStarted, Claimed, Delivered, Failed, Requeued;
    var t := Apply(s, step);
    forall a, b | a in t.rows && b in t.rows && t.rows[a].key == t.rows[b].key
      ensures a == b
    {
    }
  }

  lemma {:induction false} RunKeepsInv(states: seq<State>, steps: seq<Step>, k: nat)
    requires IsRun(states, steps) && k < |states|
    ensures Inv(states[k])
  {
    hide Enabled, Apply;
    if k > 0 {
      RunKeepsInv(states, steps, k - 1);
      StepKeepsInv(states[k - 1], steps[k - 1]);
    }
  }

  lemma {:induction false} RunPreserves(states: seq<State>, steps: seq<Step>, i: nat, j: nat)
    requires IsRun(states, steps) && i <= j < |states|
    ensures Preserves(states[i].rows, states[j].rows) && states[i].clock <= states[j].clock
    decreases j
  {
    hide Enabled, Apply, Inv;
    if i < j {
      RunPreserves(states, steps, i, j - 1);
      RunKeepsInv(states, steps, j - 1);
      StepKeepsInv(states[j - 1], steps[j - 1]);
    }
  }

  /**
   An event once emitted keeps its key and payload through dead letters and replays, so the
   copy that any later claim hands to a handler is the emitted payload.
   */
  lemma HandlersSeeTheOriginal(states: seq<State>, steps: seq<Step>, i: nat, j: nat, claim: Claim)
    requires IsRun(states, steps) && i < |steps| && i < j < |states|
    requires steps[i].Emit? && claim in states[j].inflight && claim.id == steps[i].id
    ensures claim.id in states[j].rows
    ensures claim.payload == states[j].rows[claim.id].payload == steps[i].payload
    ensures states[j].rows[claim.id].key == steps[i].key
  {
    RunKeepsInv(states, steps, j);
    RunPreserves(states, steps, i + 1, j);
    assert steps[i].id in states[i + 1].rows;
  }

  /** A delivery is final: its time never changes and the row is never claimed again. */
  lemma DeliveryIsFinal(states: seq<State>, steps: seq<Step>, i: nat, j: nat, id: string)
    requires IsRun(states, steps) && i <= j < |states|
    requires id in states[i].rows && states[i].rows[id].deliveredAt.Some?
    ensures id in states[j].rows && states[j].rows[id].deliveredAt == states[i].rows[id].deliveredAt
    ensures j < |steps| ==> !(steps[j].TryClaim? && steps[j].id == id)
  {
    RunPreserves(states, steps, i, j);
  }

  /** At most one row per idempotency key, however often a key is emitted. */
  lemma OneRowPerKey(states: seq<State>, steps: seq<Step>, k: nat, a: string, b: string)
    requires IsRun(states, steps) && k < |states|
    requires a in states[k].rows && b in states[k].rows && states[k].rows[a].key == states[k].rows[b].key
    ensures a == b
  {
    RunKeepsInv(states, steps, k);
  }

  /**
   In every reachable state and at every later time, the open rows split into pending, leased
   and deferred, and the five reported counts exceed the number of rows exactly by the rows
   that are both delivered and dead.
   */
  lemma ReportedCounts(states: seq<State>, steps: seq<Step>, k: nat, now: int)
    requires IsRun(states, steps) && k < |states| && states[k].clock <= now
    ensures var rows, b := states[k].rows, BacklogStatus(states[k].rows, now);
            && b.pending + b.leased + b.deferred + b.dead + b.delivered == |rows| + |DeadIds(rows) * DeliveredIds(rows)|
            && b.pending + b.leased + b.deferred == |set id | id in rows && Open(rows[id])|
  {
    RunKeepsInv(states, steps, k);
    var rows := states[k].rows;
    OpenRowsPartition(rows, now);
    BacklogPartition(rows, now);
    var p, l, d := PendingIds(rows, now), LeasedIds(rows, now), DeferredIds(rows, now);
    SplitSize(p + l, p, l);
    SplitSize(p + l + d, p + l, d);
    assert p * l == {} && (p + l) * d == {};
  }

  // ----- runs in which outcomes come in time -----

  /**
   Outcomes are recorded within the lease or never, a claim is made before its own lease runs out,
   and replay touches only dead letters. Workers may crash, clock readings may be old, attempts may
   be kept by a replay and judged by different limits.
   */
  ghost predicate OnTime(s: State, step: Step) {
    match step
    case Tick(clock) => forall c <- s.inflight :: clock < c.leaseUntil
    case TryClaim(_, _, lease, now) => s.clock < now + lease
    case Replay(id, _, _) => id in s.rows && s.rows[id].deadAt.Some?
    case _ => true
  }

  ghost predicate ClaimHeld(rows: Rows, c: Claim, clock: int) {
    && c.id in rows && Open(rows[c.id]) && clock < c.leaseUntil
    && rows[c.id].leaseUntil == Some(c.leaseUntil) && rows[c.id].attempts == c.attempts
  }

  /** Every claim in flight holds its open row alone, and no row is both delivered and dead. */
  ghost predicate LeaseInv(s: State) {
    && (forall c <- s.inflight :: ClaimHeld(s.rows, c, s.clock))
    && (forall a, b :: a in s.inflight && b in s.inflight && a.id == b.id ==> a == b)
    && (forall id <- s.rows :: s.rows[id].deliveredAt.None? || s.rows[id].deadAt.None?)
  }

  lemma OnTimeStep(s: State, step: Step)
    requires LeaseInv(s) && Enabled(s, step) && OnTime(s, step)
    ensures LeaseInv(Apply(s, step))
  {
    hide KeyTaken, Backoff;
  }

  ghost predicate OnTimeRun(states: seq<State>, steps: seq<Step>) {
    IsRun(states, steps) && forall i :: 0 <= i < |steps| ==> OnTime(states[i], steps[i])
  }

  lemma {:induction false} OnTimeRunInv(states: seq<State>, steps: seq<Step>, k: nat)
    requires OnTimeRun(states, steps) && k < |states|
    ensures LeaseInv(states[k])
  {
    hide Enabled, Apply, OnTime;
    if k > 0 {
      OnTimeRunInv(states, steps, k - 1);
      OnTimeStep(states[k - 1], steps[k - 1]);
    }
  }

  /**
   If outcomes come in time and replay touches only dead letters, no row is both delivered and
   dead, and the five reported counts add up to all rows.
   */
  lemma OnTimeOutbox(states: seq<State>, steps: seq<Step>, k: nat, now: int)
    requires OnTimeRun(states, steps) && k < |states| && states[k].clock <= now
    ensures var rows, b := states[k].rows, BacklogStatus(states[k].rows, now);
            && DeadIds(rows) !! DeliveredIds(rows)
            && b.pending + b.leased + b.deferred + b.dead + b.delivered == |rows|
  {
    OnTimeRunInv(states, steps, k);
    ReportedCounts(states, steps, k, now);
    assert DeadIds(states[k].rows) * DeliveredIds(states[k].rows) == {};
  }

  // ----- runs under the lease discipline -----

  /** In time, with one limit for attempts, replays that reset them, and no crash of a worker. */
  ghost predicate Disciplined(s: State, step: Step, maxAttempts: int) {
    && OnTime(s, step)
    && (step.Fail? ==> step.maxAttempts == maxAttempts)
    && (step.Replay? ==> step.resetAttempts)
    && !step.Abandon?
  }

  ghost predicate RowDisciplined(s: State, id: string, maxAttempts: int)
    requires id in s.rows
  {
    var row := s.rows[id];
    && 0 <= row.attempts <= maxAttempts
    && (Open(row) && row.leaseUntil.None? ==> row.attempts < maxAttempts)
    && (row.leaseUntil.Some? ==> exists c <- s.inflight :: c.id == id)
  }

  ghost predicate DisciplinedInv(s: State, maxAttempts: int) {
    && LeaseInv(s)
    && (forall id {:trigger RowDisciplined(s, id, maxAttempts)} :: id in s.rows ==> RowDisciplined(s, id, maxAttempts))
  }

  lemma DisciplinedStep(s: State, step: Step, maxAttempts: int)
    requires DisciplinedInv(s, maxAttempts) && maxAttempts >= 1
    requires Enabled(s, step) && Disciplined(s, step, maxAttempts)
    ensures DisciplinedInv(Apply(s, step), maxAttempts)
  {
    hide KeyTaken, Backoff;
    OnTimeStep(s, step);
    var t := Apply(s, step);
    if step.TryClaim? {
      assert RowDisciplined(s, step.id, maxAttempts);
      assert ClaimOf(step.id, t.rows[step.id], step.now) in t.inflight;
    }
    forall id | id in t.rows
      ensures RowDisciplined(t, id, maxAttempts)
    {
      if id in s.rows {
        assert RowDisciplined(s, id, maxAttempts);
        if t.rows[id].leaseUntil.Some? && s.rows[id].leaseUntil.Some? {
          var c :| c in s.inflight && c.id == id;
          assert c in t.inflight;
        }
      }
    }
  }

  ghost predicate DisciplinedRun(states: seq<State>, steps: seq<Step>, maxAttempts: int) {
    IsRun(states, steps) && forall i :: 0 <= i < |steps| ==> Disciplined(states[i], steps[i], maxAttempts)
  }

  lemma {:induction false} DisciplinedRunInv(states: seq<State>, steps: seq<Step>, maxAttempts: int, k: nat)
    requires DisciplinedRun(states, steps, maxAttempts) && maxAttempts >= 1 && k < |states|
    ensures DisciplinedInv(states[k], maxAttempts)
  {
    hide Enabled, Apply, Disciplined;
    if k > 0 {
      DisciplinedRunInv(states, steps, maxAttempts, k - 1);
      DisciplinedStep(states[k - 1], steps[k - 1], maxAttempts);
    }
  }

  lemma DisciplinedIsOnTime(states: seq<State>, steps: seq<Step>, maxAttempts: int)
    requires DisciplinedRun(states, steps, maxAttempts)
    ensures OnTimeRun(states, steps)
  {
  }

  /**
   Under the discipline attempts never exceed the maximum, an open row that nobody holds still
   has an attempt left, no row is both delivered and dead, and the five counts add up.
   */
  lemma DisciplinedOutbox(states: seq<State>, steps: seq<Step>, maxAttempts: int, k: nat, now: int)
    requires DisciplinedRun(states, steps, maxAttempts) && maxAttempts >= 1
    requires k < |states| && states[k].clock <= now
    ensures var rows, b := states[k].rows, BacklogStatus(states[k].rows, now);
            && (forall id <- rows :: 0 <= rows[id].attempts <= maxAttempts)
            && (forall id <- rows :: Open(rows[id]) && rows[id].leaseUntil.None? ==> rows[id].attempts < maxAttempts)
            && DeadIds(rows) !! DeliveredIds(rows)
            && b.pending + b.leased + b.deferred + b.dead + b.delivered == |rows|
  {
    DisciplinedRunInv(states, steps, maxAttempts, k);
    DisciplinedIsOnTime(states, steps, maxAttempts);
    OnTimeOutbox(states, steps, k, now);
    forall id <- states[k].rows
      ensures RowDisciplined(states[k], id, maxAttempts)
    {
    }
  }

  lemma ExtendRun(states: seq<State>, steps: seq<Step>, s: State, step: Step)
    returns (longer: seq<State>, more: seq<Step>, t: State)
    requires IsRun(states, steps) && states[|states| - 1] == s && Enabled(s, step)
    ensures IsRun(longer, more) && longer[|longer| - 1] == t && t == Apply(s, step)
  {
    t := Apply(s, step);
    longer, more := states + [t], steps + [step];
  }

  lemma StartIsRun(s: State)
    requires s.rows == map[] && s.inflight == {}
    ensures IsRun([s], [])
  {
  }

  /**
   The discipline is needed: a worker that reports success after its lease ran out delivers a
   row that another worker has meanwhile dead-lettered, and the row is then both.
   */
  lemma LateDeliveryOfDeadLetter(id: string, key: string, payload: S.Value)
    returns (states: seq<State>, steps: seq<Step>, s: State)
    ensures IsRun(states, steps) && states[|states| - 1] == s
    ensures id in s.rows && s.rows[id].deliveredAt.Some? && s.rows[id].deadAt.Some?
  {
    hide IsRun;
    s := State(0, map[], {});
    StartIsRun(s);
    states, steps := [s], [];
    states, steps, s := ExtendRun(states, steps, s, Emit(id, key, payload, 0));
    states, steps, s := ExtendRun(states, steps, s, TryClaim(id, "first", 30, 0));
    var late := ClaimOf(id, s.rows[id], 0);
    states, steps, s := ExtendRun(states, steps, s, Tick(30));
    states, steps, s := ExtendRun(states, steps, s, TryClaim(id, "second", 30, 30));
    var dying := ClaimOf(id, s.rows[id], 30);
    states, steps, s := ExtendRun(states, steps, s, Fail(dying, 2, 30));
    states, steps, s := ExtendRun(states, steps, s, Deliver(late, 30));
  }
}
