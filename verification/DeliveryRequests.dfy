/**
 The delivery requests of reports: at most one event per package and channel, each made only
 after approval, and each remembered by its package or by a caller that still has to do so.
 */
module DeliveryRequests {
  import opened Basics
  import opened Reports
  import opened ReportRuns
  import O = Outbox
  import S = Sanitizer
  import W = OutboxRuns

  const REQUEST_PREFIX := "report.delivery:"

  ghost predicate RequestFor(row: O.Row, id: string, channel: string) {
    && row.key == DeliveryKey(id, channel)
    && row.payload.Dict?
    && S.Member("report_publication_id", S.Text(id)) in row.payload.members
    && S.Member("channel", S.Text(channel)) in row.payload.members
  }

  ghost predicate IsRequest(s: State, e: string, id: string, channel: string) {
    e in s.outbox.rows && RequestFor(s.outbox.rows[e], id, channel)
  }

  /** The event that a package remembers is a request for its delivery. */
  ghost predicate LinkOk(s: State, id: string)
    requires id in s.packages
  {
    var event := s.packages[id].deliveryEvent;
    event.Some? ==> exists channel :: IsRequest(s, event.value, id, channel)
  }

  /** A call knows an existing package, and an event that it has to remember is one that it emitted. */
  ghost predicate CallOk(s: State, call: nat)
    requires call in s.calls
  {
    match s.calls[call]
    case Emitting(id, _, _) => id in s.packages
    case Remembering(id, channel, event) => id in s.packages && IsRequest(s, event, id, channel)
    case Announcing(id, _) => id in s.packages
    case Over => true
  }

  ghost predicate ToBeRemembered(s: State, id: string, channel: string, e: string) {
    exists call :: call in s.calls && s.calls[call] == Remembering(id, channel, e)
  }

  /** The request belongs to an existing package, which remembers an event or has a caller about to tell it. */
  ghost predicate OwnedBy(s: State, e: string, id: string, channel: string) {
    && IsRequest(s, e, id, channel) && id in s.packages
    && (s.packages[id].deliveryEvent.Some? || ToBeRemembered(s, id, channel, e))
  }

  ghost predicate RequestOk(s: State, e: string)
    requires e in s.outbox.rows
  {
    REQUEST_PREFIX <= s.outbox.rows[e].key ==> exists id, channel :: OwnedBy(s, e, id, channel)
  }

  ghost predicate Inv(s: State) {
    && W.Inv(s.outbox)
    && (forall id <- s.packages :: PlainId(id))
    && (forall a, b :: a in s.packages && b in s.packages && s.packages[a].key == s.packages[b].key ==> a == b)
    && (forall id {:trigger LinkOk(s, id)} :: id in s.packages ==> LinkOk(s, id))
    && (forall call {:trigger CallOk(s, call)} :: call in s.calls ==> CallOk(s, call))
    && (forall e {:trigger RequestOk(s, e)} :: e in s.outbox.rows ==> RequestOk(s, e))
  }

  lemma OtherKeys(key: string, id: string)
    ensures REQUEST_PREFIX <= key ==> REPORT_PREFIX <= key
    ensures !(REQUEST_PREFIX <= DeliveredKey(id))
  {
    if REQUEST_PREFIX <= key {
      assert forall i :: 0 <= i < |REPORT_PREFIX| ==> REPORT_PREFIX[i] == REQUEST_PREFIX[i];
    }
    assert DeliveredKey(id)[14] == 'e' && REQUEST_PREFIX[14] == 'y';
  }

  lemma PostKeeps(s: W.State, eventId: string, key: string, payload: S.Value, now: int)
    requires W.Inv(s) && MayEmit(s, eventId, now)
    ensures W.Inv(Post(s, eventId, key, payload, now))
    ensures W.Preserves(s.rows, Post(s, eventId, key, payload, now).rows)
  {
    if !O.KeyTaken(s.rows, key) {
      W.StepKeepsInv(s, W.Emit(eventId, key, payload, now));
    }
  }

  /** The outbox after any step: its invariant holds and old rows keep their key and payload. */
  lemma OutboxStep(wired: bool, s: State, step: Step)
    requires W.Inv(s.outbox) && Enabled(wired, s, step)
    ensures W.Inv(Apply(wired, s, step).outbox)
    ensures W.Preserves(s.outbox.rows, Apply(wired, s, step).outbox.rows)
  {
    hide W.Inv, W.Apply, Moved;
    match step
    case Worker(w) => W.StepKeepsInv(s.outbox, w);
    case EmitRequest(call, eventId, now) =>
      var (id, channel) := (s.calls[call].id, s.calls[call].channel);
      PostKeeps(s.outbox, eventId, DeliveryKey(id, channel), RequestPayload(id, s.calls[call].package, channel), now);
    case EmitDelivered(call, eventId, now) =>
      var id := s.calls[call].id;
      PostKeeps(s.outbox, eventId, DeliveredKey(id), DeliveredPayload(id, s.calls[call].package), now);
    case _ =>
  }

  /** Requests, packages and remembered events stay. */
  lemma RequestStays(wired: bool, s: State, step: Step, e: string, id: string, channel: string)
    requires W.Inv(s.outbox) && Enabled(wired, s, step) && IsRequest(s, e, id, channel)
    ensures IsRequest(Apply(wired, s, step), e, id, channel)
  {
    hide W.Inv, Enabled, Apply;
    OutboxStep(wired, s, step);
  }

  lemma PackageStays(wired: bool, s: State, step: Step, id: string)
    requires Enabled(wired, s, step) && id in s.packages
    ensures id in Apply(wired, s, step).packages
    ensures s.packages[id].deliveryEvent.Some? ==> Apply(wired, s, step).packages[id].deliveryEvent.Some?
  {
  }

  /** A row that a step adds to the outbox and whose key is that of a delivery request. */
  lemma NewRequest(wired: bool, s: State, step: Step, e: string)
    requires Enabled(wired, s, step) && e !in s.outbox.rows && e in Apply(wired, s, step).outbox.rows
    requires REQUEST_PREFIX <= Apply(wired, s, step).outbox.rows[e].key
    ensures var t := Apply(wired, s, step);
            && step.EmitRequest? && s.calls[step.call].Emitting?
            && IsRequest(t, e, s.calls[step.call].id, s.calls[step.call].channel)
            && t.calls == s.calls[step.call := Remembering(s.calls[step.call].id, s.calls[step.call].channel, e)]
            && t.packages == s.packages
            && RequestOf(t.outbox.rows[e], s.calls[step.call].id, s.calls[step.call].channel,
                         s.calls[step.call].package)
  {
    var t := Apply(wired, s, step);
    hide RequestOf;
    match step
    case EmitRequest(call, eventId, now) =>
      var members := RequestPayload(s.calls[call].id, s.calls[call].package, s.calls[call].channel).members;
      assert members[0] in members && members[8] in members;
      var package := s.calls[call].package;
      PayloadsSay(s.calls[call].id, package, s.calls[call].channel, package.deliveryEvent, now);
    case EmitDelivered(call, _, _) => OtherKeys("", s.calls[call].id);
    case Worker(w) =>
      if w.Emit? {
        OtherKeys(w.key, "");
      }
    case _ =>
  }

  /** A call that has to remember an event either still has to, or the package remembers it now. */
  lemma RememberedOrPending(wired: bool, s: State, step: Step, call: nat)
    requires Enabled(wired, s, step) && call in s.calls && s.calls[call].Remembering? && s.calls[call].id in s.packages
    ensures var (t, id) := (Apply(wired, s, step), s.calls[call].id);
            || (call in t.calls && t.calls[call] == s.calls[call])
            || (id in t.packages && t.packages[id].deliveryEvent == Some(s.calls[call].event))
  {
  }

  lemma StepKeepsOwner(wired: bool, s: State, step: Step, e: string, id: string, channel: string)
    requires W.Inv(s.outbox) && Enabled(wired, s, step) && OwnedBy(s, e, id, channel)
    ensures OwnedBy(Apply(wired, s, step), e, id, channel)
  {
    hide W.Inv, Enabled, Apply, IsRequest;
    RequestStays(wired, s, step, e, id, channel);
    PackageStays(wired, s, step, id);
    if s.packages[id].deliveryEvent.None? {
      var call :| call in s.calls && s.calls[call] == Remembering(id, channel, e);
      RememberedOrPending(wired, s, step, call);
    }
  }

  lemma StepKeepsRequests(wired: bool, s: State, step: Step, e: string)
    requires Inv(s) && Enabled(wired, s, step) && e in Apply(wired, s, step).outbox.rows
    ensures RequestOk(Apply(wired, s, step), e)
  {
    hide W.Inv, Enabled, Apply, IsRequest;
    var t := Apply(wired, s, step);
    OutboxStep(wired, s, step);
    if REQUEST_PREFIX <= t.outbox.rows[e].key {
      if e in s.outbox.rows {
        assert RequestOk(s, e);
        var id, channel :| OwnedBy(s, e, id, channel);
        StepKeepsOwner(wired, s, step, e, id, channel);
      } else {
        NewRequest(wired, s, step, e);
        CallKnown(wired, s, step);
        var call := step.call;
        assert t.calls[call] == Remembering(s.calls[call].id, s.calls[call].channel, e);
        assert OwnedBy(t, e, s.calls[call].id, s.calls[call].channel);
      }
    }
  }

  lemma CallKnown(wired: bool, s: State, step: Step)
    requires Inv(s) && Enabled(wired, s, step) && step.EmitRequest?
    ensures step.call in s.calls && s.calls[step.call].Emitting? && s.calls[step.call].id in s.packages
  {
    assert CallOk(s, step.call);
  }

  /** Where a step leaves the remembered event of a package. */
  lemma LinkStep(wired: bool, s: State, step: Step, id: string)
    requires Enabled(wired, s, step) && id in Apply(wired, s, step).packages
    ensures var event := Apply(wired, s, step).packages[id].deliveryEvent;
            || event.None?
            || (id in s.packages && event == s.packages[id].deliveryEvent)
            || (step.Remember? && s.calls[step.call].id == id && event == Some(s.calls[step.call].event))
    ensures step.Remember? ==> step.call in s.calls && s.calls[step.call].Remembering?
  {
  }

  lemma StepKeepsLinks(wired: bool, s: State, step: Step, id: string)
    requires Inv(s) && Enabled(wired, s, step) && id in Apply(wired, s, step).packages
    ensures LinkOk(Apply(wired, s, step), id)
  {
    hide W.Inv, Enabled, Apply, IsRequest;
    var t := Apply(wired, s, step);
    LinkStep(wired, s, step, id);
    if t.packages[id].deliveryEvent.Some? {
      var e := t.packages[id].deliveryEvent.value;
      if id in s.packages && s.packages[id].deliveryEvent == Some(e) {
        assert LinkOk(s, id);
        var channel :| IsRequest(s, e, id, channel);
        RequestStays(wired, s, step, e, id, channel);
      } else {
        assert CallOk(s, step.call);
        RequestStays(wired, s, step, e, id, s.calls[step.call].channel);
      }
    }
  }

  /** What a step makes of a call: unchanged, begun on an existing package, or past its emission. */
  lemma CallStep(wired: bool, s: State, step: Step, call: nat)
    requires Enabled(wired, s, step) && call in Apply(wired, s, step).calls
    ensures var t := Apply(wired, s, step);
            || (call in s.calls && t.calls[call] == s.calls[call])
            || t.calls[call].Over?
            || ((t.calls[call].Emitting? || t.calls[call].Announcing?) && t.calls[call].id in t.packages)
            || (call in s.calls && s.calls[call].Emitting?
                && t.calls[call].Remembering? && t.calls[call].id == s.calls[call].id
                && IsRequest(t, t.calls[call].event, t.calls[call].id, t.calls[call].channel))
  {
    if step.EmitRequest? && step.call == call {
      var members := RequestPayload(s.calls[call].id, s.calls[call].package, s.calls[call].channel).members;
      assert members[0] in members && members[8] in members;
    }
  }

  lemma StepKeepsCalls(wired: bool, s: State, step: Step, call: nat)
    requires Inv(s) && Enabled(wired, s, step) && call in Apply(wired, s, step).calls
    ensures CallOk(Apply(wired, s, step), call)
  {
    hide W.Inv, Enabled, Apply, IsRequest;
    CallStep(wired, s, step, call);
    if call in s.calls {
      assert CallOk(s, call);
      match s.calls[call]
      case Emitting(id, _, _) => PackageStays(wired, s, step, id);
      case Announcing(id, _) => PackageStays(wired, s, step, id);
      case Remembering(id, channel, event) =>
        PackageStays(wired, s, step, id);
        RequestStays(wired, s, step, event, id, channel);
      case Over =>
    }
  }

  lemma StepKeepsPackages(wired: bool, s: State, step: Step)
    requires Inv(s) && Enabled(wired, s, step)
    ensures forall id <- Apply(wired, s, step).packages :: PlainId(id)
    ensures var packages := Apply(wired, s, step).packages;
            forall a, b :: a in packages && b in packages && packages[a].key == packages[b].key ==> a == b
  {
    hide W.Inv, LinkOk, RequestOk, CallOk;
  }

  lemma StepKeepsInv(wired: bool, s: State, step: Step)
    requires Inv(s) && Enabled(wired, s, step)
    ensures Inv(Apply(wired, s, step))
  {
    hide Enabled, Apply, LinkOk, RequestOk, CallOk;
    var t := Apply(wired, s, step);
    OutboxStep(wired, s, step);
    StepKeepsPackages(wired, s, step);
    forall id | id in t.packages
      ensures LinkOk(t, id)
    {
      StepKeepsLinks(wired, s, step, id);
    }
    forall call | call in t.calls
      ensures CallOk(t, call)
    {
      StepKeepsCalls(wired, s, step, call);
    }
    forall e | e in t.outbox.rows
      ensures RequestOk(t, e)
    {
      StepKeepsRequests(wired, s, step, e);
    }
  }

  lemma {:induction false} RunKeepsInv(wired: bool, states: seq<State>, steps: seq<Step>, k: nat)
    requires IsRun(wired, states, steps) && k < |states|
    ensures Inv(states[k])
  {
    if k > 0 {
      RunKeepsInv(wired, states, steps, k - 1);
      StepKeepsInv(wired, states[k - 1], steps[k - 1]);
    }
  }

  /**
   In every reachable state two request rows for the same package and channel are one row; the
   event that a package remembers is a request for its delivery; and a package whose request is
   not remembered has a caller that stopped between the emission and its last update.
   */
  lemma OneRequestPerChannel(wired: bool, states: seq<State>, steps: seq<Step>, k: nat, a: string, b: string,
                             id: string, channel: string)
    requires IsRun(wired, states, steps) && k < |states|
    requires IsRequest(states[k], a, id, channel) && IsRequest(states[k], b, id, channel)
    ensures a == b
    ensures id in states[k].packages ==> LinkOk(states[k], id)
    ensures id in states[k].packages && states[k].packages[id].deliveryEvent.None? ==>
              exists e, c :: ToBeRemembered(states[k], id, c, e)
  {
    RunKeepsInv(wired, states, steps, k);
    assert states[k].outbox.rows[a].key[..|REQUEST_PREFIX|] == REQUEST_PREFIX;
    assert RequestOk(states[k], a);
    var owner, c :| OwnedBy(states[k], a, owner, c);
    if id in states[k].packages {
      DeliveryKeyInjective(owner, c, id, channel);
    }
  }

  /** Rows of different packages or channels are different rows: no request answers for another. */
  lemma RequestNamesItsPackage(id: string, channel: string, other: string, otherChannel: string, row: O.Row)
    requires PlainId(id) && PlainId(other)
    requires RequestFor(row, id, channel) && RequestFor(row, other, otherChannel)
    ensures id == other && channel == otherChannel
  {
    DeliveryKeyInjective(id, channel, other, otherChannel);
  }

  /** A call that is about to emit has seen its package being delivered. */
  lemma {:induction false} EmittersSawDelivering(wired: bool, states: seq<State>, steps: seq<Step>, k: nat, call: nat)
    returns (i: nat)
    requires IsRun(wired, states, steps) && k < |states| && call in states[k].calls && states[k].calls[call].Emitting?
    ensures i <= k && StageAt(states, i, states[k].calls[call].id, DELIVERING)
    ensures states[i].packages[states[k].calls[call].id] == states[k].calls[call].package
  {
    assert k > 0;
    if call in states[k - 1].calls && states[k - 1].calls[call] == states[k].calls[call] {
      i := EmittersSawDelivering(wired, states, steps, k - 1, call);
    } else {
      BegunDelivering(wired, states[k - 1], steps[k - 1], call);
      i := k;
    }
  }

  lemma BegunDelivering(wired: bool, s: State, step: Step, call: nat)
    requires Enabled(wired, s, step)
    requires call in Apply(wired, s, step).calls && Apply(wired, s, step).calls[call].Emitting?
    requires call !in s.calls || s.calls[call] != Apply(wired, s, step).calls[call]
    ensures var t := Apply(wired, s, step);
            && t.calls[call].id in t.packages && t.packages[t.calls[call].id].stage == DELIVERING
            && t.packages[t.calls[call].id] == t.calls[call].package
  {
  }

  /**
   No delivery request without approval: behind every request row there is a moment at which its
   package was being delivered, as the row describes it, and by then it had gone through all the
   earlier stages.
   */
  lemma {:induction false} RequestsAreApproved(wired: bool, states: seq<State>, steps: seq<Step>, k: nat, e: string)
    returns (i: nat, id: string, channel: string, trail: seq<nat>)
    requires IsRun(wired, states, steps) && k < |states|
    requires e in states[k].outbox.rows && REQUEST_PREFIX <= states[k].outbox.rows[e].key
    ensures i <= k && StageAt(states, i, id, DELIVERING) && IsRequest(states[k], e, id, channel)
    ensures PassedThrough(states, i, id, Place(DELIVERING), trail)
    ensures e !in states[i].outbox.rows
    ensures RequestOf(states[k].outbox.rows[e], id, channel, states[i].packages[id])
  {
    hide Enabled, Apply, W.Inv, PassedThrough, Place, RequestFor, RequestOf;
    assert k > 0;
    RunKeepsInv(wired, states, steps, k - 1);
    OutboxStep(wired, states[k - 1], steps[k - 1]);
    if e in states[k - 1].outbox.rows {
      i, id, channel, trail := RequestsAreApproved(wired, states, steps, k - 1, e);
      RequestStays(wired, states[k - 1], steps[k - 1], e, id, channel);
      SameEventSays(states[k - 1].outbox.rows[e], states[k].outbox.rows[e], id, channel, states[i].packages[id]);
    } else {
      NewRequest(wired, states[k - 1], steps[k - 1], e);
      CallKnown(wired, states[k - 1], steps[k - 1]);
      var call := steps[k - 1].call;
      id, channel := states[k - 1].calls[call].id, states[k - 1].calls[call].channel;
      i := EmittersSawDelivering(wired, states, steps, k - 1, call);
      RowsOnlyAdded(wired, states, steps, i, k - 1);
      assert Place(DELIVERING) == 6 by { PlaceOfDelivering(); }
      trail := EveryStageIsEarned(wired, states, steps, i, id);
    }
  }

  /** What an event says rests on its key and payload alone. */
  lemma SameEventSays(row: O.Row, later: O.Row, id: string, channel: string, p: Package)
    requires row.key == later.key && row.payload == later.payload
    ensures RequestOf(row, id, channel, p) <==> RequestOf(later, id, channel, p)
    ensures AnnouncementOf(row, id, p) <==> AnnouncementOf(later, id, p)
  {
  }

  lemma PlaceOfDelivering()
    ensures Place(DELIVERING) == 6
  {
  }

  lemma {:induction false} RowsOnlyAdded(wired: bool, states: seq<State>, steps: seq<Step>, i: nat, j: nat)
    requires IsRun(wired, states, steps) && i <= j < |states|
    ensures W.Preserves(states[i].outbox.rows, states[j].outbox.rows)
    decreases j
  {
    hide Enabled, Apply, W.Inv;
    if i < j {
      RowsOnlyAdded(wired, states, steps, i, j - 1);
      RunKeepsInv(wired, states, steps, j - 1);
      OutboxStep(wired, states[j - 1], steps[j - 1]);
    }
  }

  /** Requesting a delivery again, at any later time and beside any other work, adds no row and remembers nothing. */
  lemma EmitAgain(wired: bool, states: seq<State>, steps: seq<Step>, i: nat, j: nat)
    requires IsRun(wired, states, steps) && i < j < |steps|
    requires steps[i].EmitRequest? && steps[j].EmitRequest?
    requires steps[i].call in states[i].calls && steps[j].call in states[j].calls
    requires var a, b := states[i].calls[steps[i].call], states[j].calls[steps[j].call];
             a.Emitting? && b.Emitting? && a.id == b.id && a.channel == b.channel
    ensures states[j + 1].outbox == states[j].outbox
    ensures states[j + 1].calls == states[j].calls[steps[j].call := Over]
  {
    hide W.Apply;
    var key := DeliveryKey(states[i].calls[steps[i].call].id, states[i].calls[steps[i].call].channel);
    assert O.KeyTaken(states[i + 1].outbox.rows, key);
    RowsOnlyAdded(wired, states, steps, i + 1, j);
    var e :| e in states[i + 1].outbox.rows && states[i + 1].outbox.rows[e].key == key;
    assert states[j].outbox.rows[e].key == key;
  }

  /** A request whose calls are not interrupted is the request specified for the store. */
  lemma DeliveryAlone(wired: bool, s: State, call: nat, id: string, channel: string, eventId: string, now: int)
    returns (t: State)
    requires Enabled(wired, s, BeginDelivery(call, id, channel)) && MayEmit(s.outbox, eventId, now)
    ensures t.packages == s.packages[id := Requested(s.packages[id], s.outbox.rows, id, channel, eventId)]
    ensures t.outbox.rows == RequestRows(s.outbox.rows, id, s.packages[id], channel, eventId, now)
    ensures t.calls == s.calls[call := Over]
  {
    hide RequestPayload, MoveTo, DeliveryKey, W.Apply, W.Enabled, PlainId;
    t := Apply(wired, s, BeginDelivery(call, id, channel));
    t := Apply(wired, t, EmitRequest(call, eventId, now));
    if t.calls[call].Remembering? {
      t := Apply(wired, t, Remember(call));
    }
  }
}
