/** Report publication: the guarded lifecycle of a package and its hand-over to the outbox. */
module Reports {
  import opened Basics
  import opened Outbox
  import S = Sanitizer

  datatype Stage =
    | PROPOSED | INPUTS_VALIDATED | RENDERING | RENDERED | UNDER_REVIEW
    | APPROVED_FOR_DELIVERY | DELIVERING | DELIVERED | FAILED | SUPERSEDED

  predicate Allowed(current: Stage, target: Stage) {
    match current
    case PROPOSED => target in {INPUTS_VALIDATED, FAILED, SUPERSEDED}
    case INPUTS_VALIDATED => target in {RENDERING, FAILED, SUPERSEDED}
    case RENDERING => target in {RENDERED, FAILED}
    case RENDERED => target in {UNDER_REVIEW, FAILED, SUPERSEDED}
    case UNDER_REVIEW => target in {APPROVED_FOR_DELIVERY, RENDERING, FAILED, SUPERSEDED}
    case APPROVED_FOR_DELIVERY => target in {DELIVERING, FAILED, SUPERSEDED}
    case DELIVERING => target in {DELIVERED, FAILED}
    case DELIVERED => target == SUPERSEDED
    case FAILED => target in {PROPOSED, SUPERSEDED}
    case SUPERSEDED => false
  }

  /** Naming the current stage again is accepted everywhere and changes nothing. */
  predicate MayMove(current: Stage, target: Stage) {
    target == current || Allowed(current, target)
  }

  /** The descriptive fields that no operation after the proposal touches. */
  datatype Identity = Identity(
    tenantId: string,
    propertyId: string,
    reportType: string,
    templateId: string,
    cacheIdentity: string,
    passportId: Option<string>,
    passportVersion: S.Value)

  predicate Complete(identity: Identity) {
    identity.tenantId != "" && identity.propertyId != "" && identity.reportType != "" && identity.templateId != ""
  }

  datatype Package = Package(
    key: string,
    identity: Identity,
    stage: Stage,
    checksum: Option<string>,
    reference: Option<string>,
    failure: Option<string>,
    notes: Option<string>,
    deliveryEvent: Option<string>)

  type Packages = map<string, Package>

  datatype Move = Move(
    target: Stage,
    reference: Option<string>,
    checksum: Option<string>,
    failure: Option<string>,
    notes: Option<string>)

  function MoveTo(target: Stage, notes: string): Move {
    Move(target, None, None, None, Some(notes))
  }

  datatype Problem = IncompleteInputs | NotFound | InvalidTransition | ConsumerUnwired

  datatype Publication = Publication(id: string, duplicate: bool)

  datatype Handover = AlreadyDelivered(lastEvent: Option<string>) | Enqueued(event: string, duplicate: bool)

  // ----- single packages -----

  function Proposed(key: string, identity: Identity, checksum: string, reference: Option<string>): Package {
    Package(key, identity, PROPOSED, Some(checksum), reference, None, None, None)
  }

  function Clipped(s: string, n: nat): string { if |s| <= n then s else s[..n] }

  /** `kept` is the beginning of a given text, as long as the limit allows, or the text that was there before. */
  predicate Noted(given: Option<string>, before: Option<string>, limit: nat, kept: Option<string>) {
    if given.None? then kept == before
    else kept.Some? && kept.value <= given.value && |kept.value| == Min(|given.value|, limit)
  }

  /** A package after an accepted move; a failure reason survives only a move to FAILED. */
  function Moved(p: Package, m: Move): Package {
    if p.stage == m.target then p
    else p.(
      stage := m.target,
      reference := if m.reference.Some? then m.reference else p.reference,
      checksum := if m.checksum.Some? then m.checksum else p.checksum,
      failure := if m.failure.Some? then Some(Clipped(m.failure.value, 500))
                 else if m.target != FAILED then None else p.failure,
      notes := if m.notes.Some? then Some(Clipped(m.notes.value, 300)) else p.notes)
  }

  function OptionalText(s: Option<string>): S.Value {
    if s.Some? then S.Text(s.value) else S.Scalar("null")
  }

  function RequestPayload(id: string, p: Package, channel: string): S.Value {
    S.Dict([S.Member("report_publication_id", S.Text(id)),
            S.Member("property_id", S.Text(p.identity.propertyId)),
            S.Member("tenant_id", S.Text(p.identity.tenantId)),
            S.Member("report_type", S.Text(p.identity.reportType)),
            S.Member("template_id", S.Text(p.identity.templateId)),
            S.Member("cache_identity", S.Text(p.identity.cacheIdentity)),
            S.Member("checksum", OptionalText(p.checksum)),
            S.Member("object_reference", OptionalText(p.reference)),
            S.Member("channel", S.Text(channel)),
            S.Member("passport_id", OptionalText(p.identity.passportId)),
            S.Member("passport_version", p.identity.passportVersion)])
  }

  function DeliveredPayload(id: string, p: Package): S.Value {
    S.Dict([S.Member("report_publication_id", S.Text(id)),
            S.Member("property_id", S.Text(p.identity.propertyId)),
            S.Member("checksum", OptionalText(p.checksum)),
            S.Member("cache_identity", S.Text(p.identity.cacheIdentity))])
  }

  function DeliveryKey(id: string, channel: string): string { "report.delivery:" + id + ":" + channel }

  function DeliveredKey(id: string): string { "report.delivered:" + id }

  /** Package ids are drawn from an alphabet without the separator. */
  predicate PlainId(id: string) { ':' !in id }

  /** A key names its package and its channel. */
  lemma DeliveryKeyInjective(a: string, c: string, b: string, d: string)
    requires PlainId(a) && PlainId(b) && DeliveryKey(a, c) == DeliveryKey(b, d)
    ensures a == b && c == d
  {
    var k, p := DeliveryKey(a, c), |"report.delivery:"|;
    assert k[p..] == a + ":" + c == b + ":" + d;
    assert forall i :: 0 <= i < |a| ==> k[p..][i] == a[i];
    assert forall i :: 0 <= i < |b| ==> k[p..][i] == b[i];
    assert k[p..][|a|] == ':' && k[p..][|b|] == ':';
    assert |a| == |b|;
    assert a == k[p..][..|a|] == b;
    assert c == k[p..][|a| + 1..] == d;
  }

  /** Each package has an announcement key of its own, and none of them is a request key. */
  lemma DeliveredKeyInjective(a: string, b: string, channel: string)
    ensures DeliveredKey(a) == DeliveredKey(b) ==> a == b
    ensures DeliveredKey(a) != DeliveryKey(b, channel)
  {
    var n := |"report.delivered:"|;
    assert DeliveredKey(a)[n..] == a && DeliveredKey(b)[n..] == b;
    assert DeliveredKey(a)[14] == 'e' && DeliveryKey(b, channel)[14] == 'y';
  }

  // ----- what the two events say -----

  predicate Says(payload: S.Value, name: string, value: S.Value) {
    payload.Dict? && S.Member(name, value) in payload.members
  }

  predicate SaysText(payload: S.Value, name: string, text: Option<string>) {
    match text
    case None => Says(payload, name, S.Scalar("null"))
    case Some(t) => Says(payload, name, S.Text(t))
  }

  /** A request to deliver the package over the channel, with eleven members and no other. */
  predicate RequestOf(row: Row, id: string, channel: string, p: Package) {
    && row.key == "report.delivery:" + id + ":" + channel
    && row.payload.Dict? && |row.payload.members| == 11
    && Says(row.payload, "report_publication_id", S.Text(id)) && Says(row.payload, "channel", S.Text(channel))
    && SaysText(row.payload, "checksum", p.checksum) && SaysText(row.payload, "object_reference", p.reference)
    && Says(row.payload, "tenant_id", S.Text(p.identity.tenantId))
    && Says(row.payload, "property_id", S.Text(p.identity.propertyId))
    && Says(row.payload, "report_type", S.Text(p.identity.reportType))
    && Says(row.payload, "template_id", S.Text(p.identity.templateId))
    && Says(row.payload, "cache_identity", S.Text(p.identity.cacheIdentity))
    && SaysText(row.payload, "passport_id", p.identity.passportId)
    && Says(row.payload, "passport_version", p.identity.passportVersion)
  }

  /** The announcement that the package was delivered, with four members and no other. */
  predicate AnnouncementOf(row: Row, id: string, p: Package) {
    && row.key == "report.delivered:" + id
    && row.payload.Dict? && |row.payload.members| == 4
    && Says(row.payload, "report_publication_id", S.Text(id)) && SaysText(row.payload, "checksum", p.checksum)
    && Says(row.payload, "property_id", S.Text(p.identity.propertyId))
    && Says(row.payload, "cache_identity", S.Text(p.identity.cacheIdentity))
  }

  lemma PayloadsSay(id: string, p: Package, channel: string, event: Option<string>, now: int)
    ensures RequestOf(NewRow(DeliveryKey(id, channel), RequestPayload(id, p, channel), now), id, channel,
                      p.(deliveryEvent := event))
    ensures AnnouncementOf(NewRow(DeliveredKey(id), DeliveredPayload(id, p), now), id, p)
  {
    var r, d := RequestPayload(id, p, channel).members, DeliveredPayload(id, p).members;
    assert forall i :: 0 <= i < 11 ==> r[i] in r;
    assert r[0] in r && r[1] in r && r[2] in r && r[3] in r && r[4] in r && r[5] in r;
    assert r[6] in r && r[7] in r && r[8] in r && r[9] in r && r[10] in r;
    assert d[0] in d && d[1] in d && d[2] in d && d[3] in d;
  }

  // ----- the collection and the outbox it feeds -----

  ghost function Emitted(rows: Rows, eventId: string, key: string, payload: S.Value, now: int): Rows {
    if KeyTaken(rows, key) then rows else rows[eventId := NewRow(key, payload, now)]
  }

  /** The package row after its delivery was requested; only a new event is remembered. */
  ghost function Requested(p: Package, rows: Rows, id: string, channel: string, eventId: string): Package {
    var moved := Moved(p, MoveTo(DELIVERING, "enqueue_report_delivery"));
    if KeyTaken(rows, DeliveryKey(id, channel)) then moved else moved.(deliveryEvent := Some(eventId))
  }

  ghost function RequestRows(rows: Rows, id: string, p: Package, channel: string, eventId: string, now: int): Rows {
    var moved := Moved(p, MoveTo(DELIVERING, "enqueue_report_delivery"));
    Emitted(rows, eventId, DeliveryKey(id, channel), RequestPayload(id, moved, channel), now)
  }

  class ReportStore {
    var packages: Packages
    const outbox: OutboxStore

    constructor (outbox: OutboxStore)
      ensures packages == map[] && this.outbox == outbox
    {
      packages := map[];
      this.outbox := outbox;
    }

    /** `propose_report_publication`: one package per idempotency key. */
    method Propose(id: string, key: string, identity: Identity, checksum: string, reference: Option<string>)
      returns (outcome: Result<Publication, Problem>)
      requires id !in packages
      modifies this`packages
      ensures outcome.Err? <==>
                "" in [identity.tenantId, identity.propertyId, identity.reportType, identity.templateId]
      ensures outcome.Err? ==> outcome.error == IncompleteInputs && packages == old(packages)
      ensures outcome.Ok? ==>
                (outcome.value.duplicate <==> exists other <- old(packages) :: old(packages)[other].key == key)
      ensures outcome.Ok? && outcome.value.duplicate ==>
                packages == old(packages) && outcome.value.id in packages && packages[outcome.value.id].key == key
      ensures outcome.Ok? && !outcome.value.duplicate ==>
                && outcome.value.id == id
                && packages == old(packages)[id := Package(key, identity, PROPOSED, Some(checksum), reference,
                                                           None, None, None)]
    {
      if !Complete(identity) {
        return Err(IncompleteInputs);
      }
      if exists other <- packages :: packages[other].key == key {
        var other :| other in packages && packages[other].key == key;
        return Ok(Publication(other, true));
      }
      packages := packages[id := Proposed(key, identity, checksum, reference)];
      return Ok(Publication(id, false));
    }

    /** `transition_report_publication`: the answer says whether anything changed. */
    method Transition(id: string, m: Move) returns (outcome: Result<bool, Problem>)
      modifies this`packages
      ensures outcome.Ok? <==> id in old(packages) && MayMove(old(packages)[id].stage, m.target)
      ensures outcome == Err(NotFound) <==> id !in old(packages)
      ensures outcome == Err(InvalidTransition) <==> id in old(packages) && !MayMove(old(packages)[id].stage, m.target)
      ensures outcome.Ok? ==> packages == old(packages)[id := Moved(old(packages)[id], m)]
                              && outcome.value == (old(packages)[id].stage != m.target)
                              && packages[id].stage == m.target
      ensures outcome.Ok? && !outcome.value ==> packages == old(packages)
      ensures outcome.Ok? && outcome.value ==>
                var p, q := old(packages)[id], packages[id];
                && q.key == p.key && q.identity == p.identity && q.deliveryEvent == p.deliveryEvent
                && q.reference == (if m.reference.Some? then m.reference else p.reference)
                && q.checksum == (if m.checksum.Some? then m.checksum else p.checksum)
                && Noted(m.failure, if m.target == FAILED then p.failure else None, 500, q.failure)
                && Noted(m.notes, p.notes, 300, q.notes)
      ensures outcome.Err? ==> packages == old(packages)
    {
      if id !in packages {
        return Err(NotFound);
      }
      var row := packages[id];
      if !MayMove(row.stage, m.target) {
        return Err(InvalidTransition);
      }
      if row.stage == m.target {
        return Ok(false);
      }
      row := row.(stage := m.target);
      if m.reference.Some? {
        row := row.(reference := m.reference);
      }
      if m.checksum.Some? {
        row := row.(checksum := m.checksum);
      }
      if m.failure.Some? {
        row := row.(failure := Some(Clipped(m.failure.value, 500)));
      } else if m.target != FAILED {
        row := row.(failure := None);
      }
      if m.notes.Some? {
        row := row.(notes := Some(Clipped(m.notes.value, 300)));
      }
      packages := packages[id := row];
      return Ok(true);
    }

    /** `enqueue_report_delivery`: move an approved package on and request its delivery once per channel. */
    method EnqueueDelivery(id: string, channel: string, eventId: string, now: int)
      returns (outcome: Result<Handover, Problem>)
      requires eventId !in outbox.rows
      modifies this`packages, outbox`rows
      ensures outcome == Err(NotFound) <==> id !in old(packages)
      ensures outcome == Err(InvalidTransition) <==>
                id in old(packages) && old(packages)[id].stage !in {APPROVED_FOR_DELIVERY, DELIVERING, DELIVERED}
      ensures outcome.Err? || outcome.value.AlreadyDelivered? ==>
                packages == old(packages) && outbox.rows == old(outbox.rows)
      ensures outcome.Ok? && outcome.value.AlreadyDelivered? <==>
                id in old(packages) && old(packages)[id].stage == DELIVERED
      ensures outcome.Ok? && outcome.value.AlreadyDelivered? ==>
                outcome.value.lastEvent == old(packages)[id].deliveryEvent
      ensures outcome.Ok? && outcome.value.Enqueued? ==>
                && packages == old(packages)[id := Requested(old(packages)[id], old(outbox.rows), id, channel, eventId)]
                && outbox.rows == RequestRows(old(outbox.rows), id, old(packages)[id], channel, eventId, now)
                && outcome.value.duplicate == KeyTaken(old(outbox.rows), DeliveryKey(id, channel))
                && outcome.value.event in outbox.rows
                && outbox.rows[outcome.value.event].key == DeliveryKey(id, channel)
      ensures outcome.Ok? && outcome.value.Enqueued? ==>
                && packages[id].stage == DELIVERING
                && (if outcome.value.duplicate then
                      packages[id].deliveryEvent == old(packages)[id].deliveryEvent && outbox.rows == old(outbox.rows)
                    else
                      && packages[id].deliveryEvent == Some(outcome.value.event) && outcome.value.event == eventId
                      && RequestOf(outbox.rows[eventId], id, channel, packages[id]))
    {
      hide RequestOf, RequestPayload, DeliveryKey, Noted, Clipped, AnnouncementOf, DeliveredPayload;
      if id !in packages {
        return Err(NotFound);
      }
      var stage := packages[id].stage;
      if stage == DELIVERED {
        return Ok(AlreadyDelivered(packages[id].deliveryEvent));
      }
      if stage != APPROVED_FOR_DELIVERY && stage != DELIVERING {
        return Err(InvalidTransition);
      }
      if stage == APPROVED_FOR_DELIVERY {
        var moved := Transition(id, MoveTo(DELIVERING, "enqueue_report_delivery"));
      }
      var key := DeliveryKey(id, channel);
      PayloadsSay(id, packages[id], channel, Some(eventId), now);
      var event, duplicate := outbox.Emit(eventId, key, RequestPayload(id, packages[id], channel), now);
      if !duplicate {
        packages := packages[id := packages[id].(deliveryEvent := Some(event))];
      }
      return Ok(Enqueued(event, duplicate));
    }

    /** `mark_report_delivered`: refused unless the consumer is wired or acknowledges. */
    method MarkDelivered(wired: bool, acknowledged: bool, id: string, receipt: Option<string>, eventId: string,
                         now: int)
      returns (outcome: Result<bool, Problem>)
      requires eventId !in outbox.rows
      modifies this`packages, outbox`rows
      ensures outcome == Err(ConsumerUnwired) <==> !wired && !acknowledged
      ensures outcome.Ok? <==>
                (wired || acknowledged) && id in old(packages) && old(packages)[id].stage in {DELIVERING, DELIVERED}
      ensures outcome.Err? ==> packages == old(packages) && outbox.rows == old(outbox.rows)
      ensures outcome.Ok? ==>
                && packages == old(packages)[id :=
                     Moved(old(packages)[id],
                           MoveTo(DELIVERED, if Present(receipt) then receipt.value else "delivered"))]
                && outbox.rows ==
                   Emitted(old(outbox.rows), eventId, DeliveredKey(id), DeliveredPayload(id, packages[id]), now)
                && KeyTaken(outbox.rows, DeliveredKey(id))
      ensures outcome.Ok? ==>
                && packages[id].stage == DELIVERED
                && (KeyTaken(old(outbox.rows), "report.delivered:" + id) ==> outbox.rows == old(outbox.rows))
                && (!KeyTaken(old(outbox.rows), "report.delivered:" + id) ==>
                      && eventId in outbox.rows && AnnouncementOf(outbox.rows[eventId], id, packages[id])
                      && packages[id].checksum == old(packages)[id].checksum)
    {
      hide AnnouncementOf, RequestOf, DeliveredPayload, Noted, Clipped;
      if !wired && !acknowledged {
        return Err(ConsumerUnwired);
      }
      outcome := Transition(id, MoveTo(DELIVERED, if Present(receipt) then receipt.value else "delivered"));
      if outcome.Ok? {
        PayloadsSay(id, packages[id], "", None, now);
        var event, duplicate := outbox.Emit(eventId, DeliveredKey(id), DeliveredPayload(id, packages[id]), now);
        assert outbox.rows[event].key == DeliveredKey(id);
      }
    }
  }
}
