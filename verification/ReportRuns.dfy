/**
 Whole runs of the report lifecycle, with any mix of proposals, transitions, delivery requests
 and acknowledgements, while other producers and the outbox workers go on beside it. A request
 and an acknowledgement stop between the move of the package, the emission of the event and the
 update that remembers it; any other step may come in between, and a caller may never go on.
 */
module ReportRuns {
  import opened Basics
  import opened Reports
  import O = Outbox
  import S = Sanitizer
  import W = OutboxRuns

  /** A request or an acknowledgement between its database calls, with the package row it works on. */
  datatype Call =
    | Emitting(id: string, channel: string, package: Package)
    | Remembering(id: string, channel: string, event: string)
    | Announcing(id: string, package: Package)
    | Over

  datatype State = State(packages: Packages, outbox: W.State, calls: map<nat, Call>)

  datatype Step =
    | Propose(id: string, key: string, identity: Identity, checksum: string, reference: Option<string>)
    | Transition(id: string, m: Move)
    | BeginDelivery(call: nat, id: string, channel: string)
    | EmitRequest(call: nat, eventId: string, now: int)
    | Remember(call: nat)
    | BeginMark(call: nat, acknowledged: bool, id: string, receipt: Option<string>)
    | EmitDelivered(call: nat, eventId: string, now: int)
    | Worker(step: W.Step)

  /** What every key that this component emits starts with. */
  const REPORT_PREFIX := "report.deliver"

  predicate MayEmit(s: W.State, eventId: string, now: int) {
    eventId !in s.rows && now <= s.clock
  }

  /** The steps that are accepted; a refused call changes nothing and is no step. */
  ghost predicate Enabled(wired: bool, s: State, step: Step) {
    match step
    case Propose(id, key, identity, _, _) =>
      && Complete(identity) && id !in s.packages && PlainId(id)
      && forall other <- s.packages :: s.packages[other].key != key
    case Transition(id, m) => id in s.packages && MayMove(s.packages[id].stage, m.target)
    case BeginDelivery(call, id, _) =>
      call !in s.calls && id in s.packages && s.packages[id].stage in {APPROVED_FOR_DELIVERY, DELIVERING}
    case EmitRequest(call, eventId, now) =>
      call in s.calls && s.calls[call].Emitting? && MayEmit(s.outbox, eventId, now)
    case Remember(call) => call in s.calls && s.calls[call].Remembering? && s.calls[call].id in s.packages
    case BeginMark(call, acknowledged, id, _) =>
      && (wired || acknowledged) && call !in s.calls
      && id in s.packages && s.packages[id].stage in {DELIVERING, DELIVERED}
    case EmitDelivered(call, eventId, now) =>
      call in s.calls && s.calls[call].Announcing? && MayEmit(s.outbox, eventId, now)
    case Worker(step) => W.Enabled(s.outbox, step) && (step.Emit? ==> !(REPORT_PREFIX <= step.key))
  }

  /** The outbox step of an emission: nothing at all if the key is taken. */
  ghost function Post(s: W.State, eventId: string, key: string, payload: S.Value, now: int): (t: W.State)
    requires MayEmit(s, eventId, now)
    ensures t.rows == Emitted(s.rows, eventId, key, payload, now)
    ensures O.KeyTaken(t.rows, key) && t.clock == s.clock && t.inflight == s.inflight
  {
    if O.KeyTaken(s.rows, key) then s
    else
      var t := W.Apply(s, W.Emit(eventId, key, payload, now));
      assert t.rows[eventId].key == key;
      t
  }

  ghost function Apply(wired: bool, s: State, step: Step): State
    requires Enabled(wired, s, step)
  {
    match step
    case Propose(id, key, identity, checksum, reference) =>
      s.(packages := s.packages[id := Proposed(key, identity, checksum, reference)])
    case Transition(id, m) => s.(packages := s.packages[id := Moved(s.packages[id], m)])
    case BeginDelivery(call, id, channel) =>
      var moved := Moved(s.packages[id], MoveTo(DELIVERING, "enqueue_report_delivery"));
      s.(packages := s.packages[id := moved], calls := s.calls[call := Emitting(id, channel, moved)])
    case EmitRequest(call, eventId, now) =>
      var (id, channel, package) := (s.calls[call].id, s.calls[call].channel, s.calls[call].package);
      var key := DeliveryKey(id, channel);
      s.(outbox := Post(s.outbox, eventId, key, RequestPayload(id, package, channel), now),
      calls := s.calls[call := if O.KeyTaken(s.outbox.rows, key) then Over else Remembering(id, channel, eventId)])
    case Remember(call) =>
      var (id, event) := (s.calls[call].id, s.calls[call].event);
      s.(packages := s.packages[id := s.packages[id].(deliveryEvent := Some(event))], calls := s.calls[call := Over])
    case BeginMark(call, _, id, receipt) =>
      var moved := Moved(s.packages[id], MoveTo(DELIVERED, if Present(receipt) then receipt.value else "delivered"));
      s.(packages := s.packages[id := moved], calls := s.calls[call := Announcing(id, moved)])
    case EmitDelivered(call, eventId, now) =>
      var (id, package) := (s.calls[call].id, s.calls[call].package);
      s.(outbox := Post(s.outbox, eventId, DeliveredKey(id), DeliveredPayload(id, package), now),
      calls := s.calls[call := Over])
    case Worker(step) => s.(outbox := W.Apply(s.outbox, step))
  }

  ghost predicate IsRun(wired: bool, states: seq<State>, steps: seq<Step>) {
    && |states| == |steps| + 1
    && states[0].packages == map[] && states[0].outbox.rows == map[] && states[0].outbox.inflight == {}
    && states[0].calls == map[]
    && forall i :: 0 <= i < |steps| ==>
         Enabled(wired, states[i], steps[i]) && states[i + 1] == Apply(wired, states[i], steps[i])
  }

  // ----- the lifecycle -----

  const STAGES :=
    [PROPOSED, INPUTS_VALIDATED, RENDERING, RENDERED, UNDER_REVIEW, APPROVED_FOR_DELIVERY, DELIVERING, DELIVERED]

  /** How far along the way to delivery a stage is; the two stages off the way have no place. */
  function Place(stage: Stage): (n: int)
    ensures -1 <= n < |STAGES|
    ensures n >= 0 ==> STAGES[n] == stage
  {
    match stage
    case PROPOSED => 0
    case INPUTS_VALIDATED => 1
    case RENDERING => 2
    case RENDERED => 3
    case UNDER_REVIEW => 4
    case APPROVED_FOR_DELIVERY => 5
    case DELIVERING => 6
    case DELIVERED => 7
    case FAILED => -1
    case SUPERSEDED => -1
  }

  /** The moves from stage to stage: on by one, back from review, to failure and from it, and to supersession. */
  lemma MovesAre(current: Stage, target: Stage)
    ensures Allowed(current, target) <==>
            || (Place(current) >= 0 && Place(target) == Place(current) + 1)
            || (current == UNDER_REVIEW && target == RENDERING)
            || (target == FAILED && current !in {DELIVERED, FAILED, SUPERSEDED})
            || (current == FAILED && target == PROPOSED)
            || (target == SUPERSEDED && current !in {RENDERING, DELIVERING, SUPERSEDED})
    ensures MayMove(current, target) <==> current == target || Allowed(current, target)
  {
  }

  ghost predicate StageAt(states: seq<State>, i: nat, id: string, stage: Stage) {
    i < |states| && id in states[i].packages && states[i].packages[id].stage == stage
  }

  ghost predicate Visited(states: seq<State>, id: string, trail: seq<nat>, m: nat) {
    m < |trail| && m < |STAGES| && StageAt(states, trail[m], id, STAGES[m])
  }

  /** By moment `k` the package went through the first `n + 1` stages in order, the first one for the last time. */
  ghost predicate PassedThrough(states: seq<State>, k: nat, id: string, n: nat, trail: seq<nat>) {
    && n < |STAGES| && |trail| == n + 1 && trail[n] <= k
    && (forall a, b :: 0 <= a < b <= n ==> trail[a] < trail[b])
    && (forall m: nat {:trigger Visited(states, id, trail, m)} :: m <= n ==> Visited(states, id, trail, m))
    && (forall x: nat :: trail[0] < x <= k ==> !StageAt(states, x, id, PROPOSED))
  }

  lemma StepMoves(wired: bool, s: State, step: Step, id: string)
    requires Enabled(wired, s, step) && id in s.packages
    ensures id in Apply(wired, s, step).packages
    ensures MayMove(s.packages[id].stage, Apply(wired, s, step).packages[id].stage)
  {
  }

  /** A new or retried proposal, or a stage that was reached from the one before or from a later one. */
  lemma PlaceMoves(current: Stage, target: Stage)
    requires MayMove(current, target) && Place(target) > 0
    ensures 0 <= Place(current) && Place(target) <= Place(current) + 1
  {
  }

  /** No package stands at a stage without having gone through all the earlier ones since it was last proposed. */
  lemma {:induction false} EveryStageIsEarned(wired: bool, states: seq<State>, steps: seq<Step>, k: nat, id: string)
    returns (trail: seq<nat>)
    requires IsRun(wired, states, steps) && k < |states|
    requires id in states[k].packages && Place(states[k].packages[id].stage) >= 0
    ensures PassedThrough(states, k, id, Place(states[k].packages[id].stage), trail)
  {
    hide Enabled, Apply, MayMove, Place, PassedThrough;
    assert k > 0;
    var stage := states[k].packages[id].stage;
    var n := Place(stage);
    if stage == PROPOSED {
      trail := [k];
      assert n == 0 by { PlaceOfProposed(); }
      StartTrail(states, k, id);
    } else {
      PlaceAfterProposed(stage);
      OnlyProposalsAreNew(wired, states[k - 1], steps[k - 1], id);
      var before := states[k - 1].packages[id].stage;
      StepMoves(wired, states[k - 1], steps[k - 1], id);
      PlaceMoves(before, stage);
      var earlier := EveryStageIsEarned(wired, states, steps, k - 1, id);
      assert |earlier| == Place(before) + 1 by { TrailLength(states, k - 1, id, Place(before), earlier); }
      trail := if n == Place(before) + 1 then earlier + [k] else earlier[..n + 1];
      ExtendTrail(states, k, id, Place(before), n, earlier, trail);
    }
  }

  lemma TrailLength(states: seq<State>, k: nat, id: string, n: nat, trail: seq<nat>)
    requires PassedThrough(states, k, id, n, trail)
    ensures |trail| == n + 1
  {
  }

  lemma ExtendTrail(states: seq<State>, k: nat, id: string, m: nat, n: nat, earlier: seq<nat>, trail: seq<nat>)
    requires k > 0 && PassedThrough(states, k - 1, id, m, earlier) && n <= m + 1
    requires n > 0 && n < |STAGES| && StageAt(states, k, id, STAGES[n])
    requires trail == if n == m + 1 then earlier + [k] else earlier[..n + 1]
    ensures PassedThrough(states, k, id, n, trail)
  {
    hide StageAt;
    forall x: nat | x <= n
      ensures Visited(states, id, trail, x)
    {
      if x < |earlier| {
        assert Visited(states, id, earlier, x);
      }
    }
    assert !StageAt(states, k, id, PROPOSED) by { OneStageAt(states, k, id, STAGES[n]); }
  }

  lemma OneStageAt(states: seq<State>, k: nat, id: string, stage: Stage)
    requires StageAt(states, k, id, stage)
    ensures forall other :: StageAt(states, k, id, other) ==> other == stage
  {
  }

  lemma StartTrail(states: seq<State>, k: nat, id: string)
    requires StageAt(states, k, id, PROPOSED)
    ensures PassedThrough(states, k, id, 0, [k])
  {
    assert Visited(states, id, [k], 0);
  }

  lemma PlaceOfProposed()
    ensures Place(PROPOSED) == 0
  {
  }

  lemma PlaceAfterProposed(stage: Stage)
    requires stage != PROPOSED && Place(stage) >= 0
    ensures Place(stage) > 0
  {
  }

  lemma OnlyProposalsAreNew(wired: bool, s: State, step: Step, id: string)
    requires Enabled(wired, s, step) && id in Apply(wired, s, step).packages
    ensures id in s.packages || Apply(wired, s, step).packages[id].stage == PROPOSED
  {
  }

  lemma {:induction false} StageStays(wired: bool, states: seq<State>, steps: seq<Step>, i: nat, j: nat, id: string)
    requires IsRun(wired, states, steps) && i <= j < |states|
    requires id in states[i].packages && states[i].packages[id].stage in {DELIVERED, SUPERSEDED}
    ensures id in states[j].packages
    ensures states[j].packages[id].stage in {states[i].packages[id].stage, SUPERSEDED}
    decreases j
  {
    hide Enabled, Apply;
    if i < j {
      StageStays(wired, states, steps, i, j - 1, id);
      StepMoves(wired, states[j - 1], steps[j - 1], id);
    }
  }

  /** Superseded is final, and nothing but supersession follows a delivery. */
  lemma FinalStages(wired: bool, states: seq<State>, steps: seq<Step>, i: nat, j: nat, id: string)
    requires IsRun(wired, states, steps) && i <= j < |states|
    ensures StageAt(states, i, id, SUPERSEDED) ==> StageAt(states, j, id, SUPERSEDED)
    ensures StageAt(states, i, id, DELIVERED) ==>
              StageAt(states, j, id, DELIVERED) || StageAt(states, j, id, SUPERSEDED)
  {
    if StageAt(states, i, id, SUPERSEDED) || StageAt(states, i, id, DELIVERED) {
      StageStays(wired, states, steps, i, j, id);
    }
  }

  /**
   A step delivers a package exactly when the package was being delivered and the step is an
   acknowledged mark, or a bare transition: the transition does not ask for a consumer.
   */
  lemma DeliveringSteps(wired: bool, s: State, step: Step, id: string)
    requires Enabled(wired, s, step) && id in s.packages && s.packages[id].stage != DELIVERED
    ensures Apply(wired, s, step).packages[id].stage == DELIVERED <==>
              && s.packages[id].stage == DELIVERING
              && (|| (step.BeginMark? && step.id == id)
                  || (step.Transition? && step.id == id && step.m.target == DELIVERED))
    ensures step.BeginMark? ==> wired || step.acknowledged
  {
  }

  lemma MoveOn(states: seq<State>, steps: seq<Step>, id: string, target: Stage)
    returns (longer: seq<State>, more: seq<Step>)
    requires IsRun(false, states, steps)
    requires id in states[|steps|].packages && Allowed(states[|steps|].packages[id].stage, target)
    requires forall step <- steps :: !step.BeginMark? && !step.Worker?
    ensures IsRun(false, longer, more)
    ensures id in longer[|more|].packages && longer[|more|].packages[id].stage == target
    ensures forall step <- more :: !step.BeginMark? && !step.Worker?
  {
    var s, step := states[|steps|], Transition(id, MoveTo(target, ""));
    longer, more := states + [Apply(false, s, step)], steps + [step];
  }

  /**
   The acknowledgement guards only the mark: with an unwired consumer, and without any mark or
   any worker, bare transitions alone bring a package to DELIVERED.
   */
  lemma DeliveredWithoutConsumer(id: string, key: string)
    returns (states: seq<State>, steps: seq<Step>)
    requires PlainId(id)
    ensures IsRun(false, states, steps) && forall step <- steps :: !step.BeginMark? && !step.Worker?
    ensures StageAt(states, |steps|, id, DELIVERED)
  {
    var start := State(map[], W.State(0, map[], {}), map[]);
    var identity := Identity("tenant", "property", "report", "template", "", None, S.Scalar("null"));
    var proposal := Propose(id, key, identity, "", None);
    states, steps := [start, Apply(false, start, proposal)], [proposal];
    hide IsRun, Enabled, Apply;
    states, steps := MoveOn(states, steps, id, INPUTS_VALIDATED);
    states, steps := MoveOn(states, steps, id, RENDERING);
    states, steps := MoveOn(states, steps, id, RENDERED);
    states, steps := MoveOn(states, steps, id, UNDER_REVIEW);
    states, steps := MoveOn(states, steps, id, APPROVED_FOR_DELIVERY);
    states, steps := MoveOn(states, steps, id, DELIVERING);
    states, steps := MoveOn(states, steps, id, DELIVERED);
  }
}
