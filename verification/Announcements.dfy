/**
 The announcements of deliveries: one event for each delivered package, made only after an
 acknowledgement, with the checksum that the package was delivered with.
 */
module Announcements {
  import opened Basics
  import opened Reports
  import opened ReportRuns
  import opened DeliveryRequests
  import O = Outbox
  import W = OutboxRuns

  const DELIVERED_PREFIX := "report.delivered:"

  ghost predicate Announces(s: State, e: string, id: string) {
    e in s.outbox.rows && s.outbox.rows[e].key == "report.delivered:" + id
  }

  /** The event says what the package was whenever it stood at DELIVERED. */
  ghost predicate TellsDelivery(states: seq<State>, row: O.Row, id: string) {
    forall j: nat :: j < |states| && StageAt(states, j, id, DELIVERED) ==>
      AnnouncementOf(row, id, states[j].packages[id])
  }

  lemma OnlyAnnouncements(key: string, id: string, channel: string)
    ensures DELIVERED_PREFIX <= key ==> REPORT_PREFIX <= key
    ensures !(DELIVERED_PREFIX <= DeliveryKey(id, channel))
  {
    if DELIVERED_PREFIX <= key {
      assert forall i :: 0 <= i < |REPORT_PREFIX| ==> REPORT_PREFIX[i] == DELIVERED_PREFIX[i];
    }
    assert DeliveryKey(id, channel)[14] == 'y' && DELIVERED_PREFIX[14] == 'e';
  }

  /** A row that a step adds to the outbox and whose key is that of an announcement. */
  lemma NewAnnouncement(wired: bool, s: State, step: Step, e: string)
    requires Enabled(wired, s, step) && e !in s.outbox.rows && e in Apply(wired, s, step).outbox.rows
    requires DELIVERED_PREFIX <= Apply(wired, s, step).outbox.rows[e].key
    ensures && step.EmitDelivered? && step.call in s.calls && s.calls[step.call].Announcing?
            && AnnouncementOf(Apply(wired, s, step).outbox.rows[e], s.calls[step.call].id, s.calls[step.call].package)
  {
    hide AnnouncementOf, RequestPayload, DeliveredPayload;
    match step
    case EmitDelivered(call, _, now) => PayloadsSay(s.calls[call].id, s.calls[call].package, "", None, now);
    case EmitRequest(call, _, _) => OnlyAnnouncements("", s.calls[call].id, s.calls[call].channel);
    case Worker(w) =>
      if w.Emit? {
        OnlyAnnouncements(w.key, "", "");
      }
    case _ =>
  }

  /** A call that is about to announce has seen its package acknowledged and delivered. */
  lemma {:induction false} AnnouncersMarked(wired: bool, states: seq<State>, steps: seq<Step>, k: nat, call: nat)
    returns (x: nat)
    requires IsRun(wired, states, steps) && k < |states| && call in states[k].calls && states[k].calls[call].Announcing?
    ensures x < k && MarkedAt(wired, states, steps, x, states[k].calls[call].id)
    ensures states[x + 1].packages[states[k].calls[call].id] == states[k].calls[call].package
  {
    assert k > 0;
    if call in states[k - 1].calls && states[k - 1].calls[call] == states[k].calls[call] {
      x := AnnouncersMarked(wired, states, steps, k - 1, call);
    } else {
      BegunAnnouncing(wired, states[k - 1], steps[k - 1], call);
      x := k - 1;
    }
  }

  /** Step `x` is an acknowledgement that leaves the package at DELIVERED. */
  ghost predicate MarkedAt(wired: bool, states: seq<State>, steps: seq<Step>, x: nat, id: string) {
    && x < |steps| && steps[x].BeginMark? && steps[x].id == id && (wired || steps[x].acknowledged)
    && StageAt(states, x + 1, id, DELIVERED)
  }

  lemma BegunAnnouncing(wired: bool, s: State, step: Step, call: nat)
    requires Enabled(wired, s, step)
    requires call in Apply(wired, s, step).calls && Apply(wired, s, step).calls[call].Announcing?
    requires call !in s.calls || s.calls[call] != Apply(wired, s, step).calls[call]
    ensures var t := Apply(wired, s, step);
            && step.BeginMark? && step.id == t.calls[call].id && (wired || step.acknowledged)
            && step.id in t.packages && t.packages[step.id].stage == DELIVERED
            && t.packages[step.id] == t.calls[call].package
  {
    hide DeliveredPayload, RequestPayload;
  }

  lemma StaysDelivered(wired: bool, s: State, step: Step, id: string)
    requires Enabled(wired, s, step) && id in s.packages && s.packages[id].stage == DELIVERED
    requires id in Apply(wired, s, step).packages && Apply(wired, s, step).packages[id].stage == DELIVERED
    ensures Apply(wired, s, step).packages[id].checksum == s.packages[id].checksum
    ensures Apply(wired, s, step).packages[id].identity == s.packages[id].identity
  {
    hide DeliveredPayload, RequestPayload;
  }

  /** A delivered package keeps its checksum for as long as it stands at DELIVERED. */
  lemma {:induction false} DeliveredChecksum(
    wired: bool, states: seq<State>, steps: seq<Step>, i: nat, j: nat, id: string)
    requires IsRun(wired, states, steps) && i <= j < |states|
    requires StageAt(states, i, id, DELIVERED) && StageAt(states, j, id, DELIVERED)
    ensures states[j].packages[id].checksum == states[i].packages[id].checksum
    ensures states[j].packages[id].identity == states[i].packages[id].identity
    decreases j
  {
    hide Enabled, Apply;
    if i < j {
      FinalStages(wired, states, steps, i, j - 1, id);
      FinalStages(wired, states, steps, j - 1, j, id);
      DeliveredChecksum(wired, states, steps, i, j - 1, id);
      StaysDelivered(wired, states[j - 1], steps[j - 1], id);
    }
  }

  lemma SameAnnouncement(row: O.Row, id: string, p: Package, q: Package)
    requires AnnouncementOf(row, id, p) && p.checksum == q.checksum && p.identity == q.identity
    ensures AnnouncementOf(row, id, q)
  {
  }

  lemma TellsAll(wired: bool, states: seq<State>, steps: seq<Step>, i: nat, row: O.Row, id: string)
    requires IsRun(wired, states, steps) && StageAt(states, i, id, DELIVERED)
    requires AnnouncementOf(row, id, states[i].packages[id])
    ensures TellsDelivery(states, row, id)
  {
    hide AnnouncementOf, Enabled, Apply;
    forall j: nat | j < |states| && StageAt(states, j, id, DELIVERED)
      ensures AnnouncementOf(row, id, states[j].packages[id])
    {
      DeliveredChecksum(wired, states, steps, Min(i, j), Max(i, j), id);
      SameAnnouncement(row, id, states[i].packages[id], states[j].packages[id]);
    }
  }

  /**
   Behind every announcement there is an acknowledgement of its package that came before it; the
   package had gone through all the stages, and the announcement carries the checksum that the
   package had whenever it stood at DELIVERED.
   */
  lemma {:induction false} AnnouncementsAreEarned(
    wired: bool, states: seq<State>, steps: seq<Step>, k: nat, e: string)
    returns (x: nat, id: string, trail: seq<nat>)
    requires IsRun(wired, states, steps) && k < |states|
    requires e in states[k].outbox.rows && DELIVERED_PREFIX <= states[k].outbox.rows[e].key
    ensures x < k && MarkedAt(wired, states, steps, x, id) && e !in states[x + 1].outbox.rows
    ensures PassedThrough(states, x + 1, id, 7, trail)
    ensures Announces(states[k], e, id) && TellsDelivery(states, states[k].outbox.rows[e], id)
  {
    hide Enabled, Apply, W.Inv, PassedThrough, Place, AnnouncementOf, MarkedAt;
    assert k > 0;
    RunKeepsInv(wired, states, steps, k - 1);
    OutboxStep(wired, states[k - 1], steps[k - 1]);
    if e in states[k - 1].outbox.rows {
      x, id, trail := AnnouncementsAreEarned(wired, states, steps, k - 1, e);
      forall p
        ensures AnnouncementOf(states[k - 1].outbox.rows[e], id, p) <==> AnnouncementOf(states[k].outbox.rows[e], id, p)
      {
        SameEventSays(states[k - 1].outbox.rows[e], states[k].outbox.rows[e], id, "", p);
      }
    } else {
      NewAnnouncement(wired, states[k - 1], steps[k - 1], e);
      var call := steps[k - 1].call;
      id := states[k - 1].calls[call].id;
      x := AnnouncersMarked(wired, states, steps, k - 1, call);
      assert StageAt(states, x + 1, id, DELIVERED) by { MarkIsDelivery(wired, states, steps, x, id); }
      RowsOnlyAdded(wired, states, steps, x + 1, k - 1);
      TellsAll(wired, states, steps, x + 1, states[k].outbox.rows[e], id);
      assert Place(DELIVERED) == 7 by { PlaceOfDelivered(); }
      trail := EveryStageIsEarned(wired, states, steps, x + 1, id);
      AnnouncementKey(states[k].outbox.rows[e], id, states[k - 1].calls[call].package);
    }
  }

  lemma MarkIsDelivery(wired: bool, states: seq<State>, steps: seq<Step>, x: nat, id: string)
    requires MarkedAt(wired, states, steps, x, id)
    ensures StageAt(states, x + 1, id, DELIVERED)
  {
  }

  lemma AnnouncementKey(row: O.Row, id: string, p: Package)
    requires AnnouncementOf(row, id, p)
    ensures row.key == "report.delivered:" + id
  {
  }

  lemma PlaceOfDelivered()
    ensures Place(DELIVERED) == 7
  {
  }

  /**
   From the moment a delivery was announced on, the outbox holds exactly one announcement of the
   package, with the checksum it was delivered with, whatever else happens.
   */
  lemma AnnouncedOnce(wired: bool, states: seq<State>, steps: seq<Step>, k: nat, m: nat) returns (e: string)
    requires IsRun(wired, states, steps) && k < |steps| && k < m < |states|
    requires steps[k].EmitDelivered? && steps[k].call in states[k].calls && states[k].calls[steps[k].call].Announcing?
    ensures var id := states[k].calls[steps[k].call].id;
            && Announces(states[m], e, id) && TellsDelivery(states, states[m].outbox.rows[e], id)
            && (forall other :: Announces(states[m], other, id) ==> other == e)
            && exists j: nat :: j <= k && StageAt(states, j, id, DELIVERED)
  {
    hide W.Inv, W.Apply, TellsDelivery, Place;
    var id := states[k].calls[steps[k].call].id;
    AnnouncedNow(wired, states[k], steps[k]);
    e :| e in states[k + 1].outbox.rows && states[k + 1].outbox.rows[e].key == "report.delivered:" + id;
    RowsOnlyAdded(wired, states, steps, k + 1, m);
    var x, owner, trail := AnnouncementsAreEarned(wired, states, steps, m, e);
    DeliveredKeyInjective(owner, id, "");
    RunKeepsInv(wired, states, steps, m);
    KeysAreUnique(states[m].outbox);
    var y := AnnouncersMarked(wired, states, steps, k, steps[k].call);
    assert StageAt(states, y + 1, id, DELIVERED);
  }

  lemma AnnouncedNow(wired: bool, s: State, step: Step)
    requires Enabled(wired, s, step) && step.EmitDelivered?
    ensures O.KeyTaken(Apply(wired, s, step).outbox.rows, "report.delivered:" + s.calls[step.call].id)
  {
    hide DeliveredPayload, W.Apply;
  }

  lemma KeysAreUnique(s: W.State)
    requires W.Inv(s)
    ensures forall a, b :: a in s.rows && b in s.rows && s.rows[a].key == s.rows[b].key ==> a == b
  {
  }

  /** Announcements of different packages are different rows. */
  lemma AnnouncementNamesItsPackage(s: State, a: string, b: string, id: string, other: string)
    requires Announces(s, a, id) && Announces(s, b, other) && id != other
    ensures a != b
  {
    DeliveredKeyInjective(id, other, "");
  }

  /** An acknowledgement whose calls are not interrupted is the one specified for the store. */
  lemma MarkAlone(wired: bool, s: State, call: nat, acknowledged: bool, id: string, receipt: Option<string>,
                  eventId: string, now: int)
    returns (t: State)
    requires Enabled(wired, s, BeginMark(call, acknowledged, id, receipt)) && MayEmit(s.outbox, eventId, now)
    ensures t.packages == s.packages[id :=
                Moved(s.packages[id], MoveTo(DELIVERED, if Present(receipt) then receipt.value else "delivered"))]
    ensures t.outbox.rows ==
              Emitted(s.outbox.rows, eventId, DeliveredKey(id), DeliveredPayload(id, t.packages[id]), now)
    ensures t.calls == s.calls[call := Over]
  {
    hide DeliveredPayload, MoveTo, DeliveredKey, W.Apply, W.Enabled, PlainId, Moved;
    t := Apply(wired, s, BeginMark(call, acknowledged, id, receipt));
    t := Apply(wired, t, EmitDelivered(call, eventId, now));
  }
}
