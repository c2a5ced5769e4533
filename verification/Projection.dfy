/**
 The projection markers of one property: which ledger head the derived views were last built
 from, how drift against the ledger is detected, and how a marker is repaired.
 */
module Projection {
  import opened Basics
  import opened Records
  import Ledger
  import L = LedgerRuns

  datatype Status = MATCHED | DRIFT_DETECTED | INSUFFICIENT_DATA | REJECTED | REPAIRED | ALREADY_CURRENT

  /** The marker row of each tenant for this property, with its projected head. */
  type Markers = map<string, Option<Digest>>

  /** `head` is that of the tenant's active passport, none if there is no such passport. */
  function Reconcile(head: Option<Digest>, markers: Markers, tenant: string): Status {
    if EmptyHash(head) || tenant !in markers || EmptyHash(markers[tenant]) then INSUFFICIENT_DATA
    else if head == markers[tenant] then MATCHED
    else DRIFT_DETECTED
  }

  predicate ForeignMarker(markers: Markers, tenant: string) {
    exists other <- markers :: other != tenant
  }

  function RepairStatus(head: Option<Digest>, markers: Markers, tenant: string): Status {
    if EmptyHash(head) then INSUFFICIENT_DATA
    else if ForeignMarker(markers, tenant) then REJECTED
    else if tenant in markers && markers[tenant] == head then ALREADY_CURRENT
    else REPAIRED
  }

  function Repair(head: Option<Digest>, markers: Markers, tenant: string): Markers {
    if RepairStatus(head, markers, tenant) == REPAIRED then markers[tenant := head] else markers
  }

  class MarkerStore {
    var markers: Markers

    constructor ()
      ensures markers == map[]
    {
      markers := map[];
    }

    /** `reconcile_property`: equality is only ever reported between two hashes that are there. */
    method ReconcileProperty(head: Option<Digest>, tenant: string) returns (status: Status)
      ensures status == Reconcile(head, markers, tenant)
      ensures status == MATCHED <==> !EmptyHash(head) && tenant in markers && markers[tenant] == head
      ensures status == INSUFFICIENT_DATA <==>
                head in {None, Some(Text(""))} || tenant !in markers || markers[tenant] in {None, Some(Text(""))}
      ensures status in {MATCHED, DRIFT_DETECTED, INSUFFICIENT_DATA}
    {
      var marker := if tenant in markers then markers[tenant] else None;
      if EmptyHash(head) || EmptyHash(marker) {
        return INSUFFICIENT_DATA;
      }
      if head == marker {
        return MATCHED;
      }
      return DRIFT_DETECTED;
    }

    /** `repair_projection_marker`: align the marker, unless another tenant marks this property. */
    method RepairMarker(head: Option<Digest>, tenant: string) returns (status: Status)
      modifies this
      ensures status == RepairStatus(head, old(markers), tenant)
      ensures markers == Repair(head, old(markers), tenant)
      ensures status == INSUFFICIENT_DATA <==> head in {None, Some(Text(""))}
      ensures status == REJECTED <==>
                head !in {None, Some(Text(""))} && exists other <- old(markers) :: other != tenant
      ensures status == REPAIRED ==> markers == old(markers)[tenant := head]
      ensures status != REPAIRED ==> markers == old(markers)
      ensures status == ALREADY_CURRENT ==> tenant in old(markers) && old(markers)[tenant] == head
      ensures status in {REPAIRED, ALREADY_CURRENT} <==>
                Reconcile(head, markers, tenant) == MATCHED && !ForeignMarker(old(markers), tenant)
      ensures forall other <- old(markers) :: other != tenant ==>
                other in markers && markers[other] == old(markers)[other]
    {
      if EmptyHash(head) {
        return INSUFFICIENT_DATA;
      }
      if exists other <- markers :: other != tenant {
        return REJECTED;
      }
      if tenant in markers && markers[tenant] == head {
        return ALREADY_CURRENT;
      }
      markers := markers[tenant := head];
      return REPAIRED;
    }
  }

  /** Repair is idempotent: repeated at once it changes nothing and says so. */
  lemma RepairTwice(head: Option<Digest>, markers: Markers, tenant: string)
    ensures var once := Repair(head, markers, tenant);
            && Repair(head, once, tenant) == once
            && RepairStatus(head, once, tenant) ==
               (if RepairStatus(head, markers, tenant) == REPAIRED then ALREADY_CURRENT
                else RepairStatus(head, markers, tenant))
  {
    if RepairStatus(head, markers, tenant) == REPAIRED {
      assert forall other <- Repair(head, markers, tenant) :: other == tenant;
    }
  }

  // ----- markers beside a ledger that is being written -----

  /** A repair between its database calls, with the head it read first. */
  datatype Repairing =
    | HeadRead(head: Option<Digest>)
    | Unopposed(head: Option<Digest>)
    | Writing(head: Option<Digest>)
    | Ended(status: Status)

  datatype State = State(ledger: L.State, markers: Markers, repairs: map<nat, Repairing>)

  /** `Mark` and `Unmark` are marker rows that appear, change or go away under another tenant. */
  datatype Step =
    | Append(step: L.Step)
    | ReadHead(id: nat)
    | ReadForeign(id: nat)
    | ReadMarker(id: nat)
    | WriteMarker(id: nat)
    | Mark(other: string, hash: Option<Digest>)
    | Unmark(other: string)

  predicate Enabled(tenant: string, s: State, step: Step) {
    match step
    case Append(step) => L.Enabled(s.ledger, step)
    case ReadHead(id) => id !in s.repairs
    case ReadForeign(id) => id in s.repairs && s.repairs[id].HeadRead?
    case ReadMarker(id) => id in s.repairs && s.repairs[id].Unopposed?
    case WriteMarker(id) => id in s.repairs && s.repairs[id].Writing?
    case Mark(other, _) => other != tenant
    case Unmark(other) => other != tenant
  }

  function Head(s: State): Option<Digest> { s.ledger.rows.head }

  function Apply(tenant: string, s: State, step: Step): (t: State)
    requires Enabled(tenant, s, step)
    ensures !step.Append? ==> t.ledger == s.ledger
  {
    match step
    case Append(step) => s.(ledger := L.Apply(s.ledger, step))
    case ReadHead(id) =>
      s.(repairs := s.repairs[id := if EmptyHash(Head(s)) then Ended(INSUFFICIENT_DATA) else HeadRead(Head(s))])
    case ReadForeign(id) =>
      var next := if ForeignMarker(s.markers, tenant) then Ended(REJECTED) else Unopposed(s.repairs[id].head);
      s.(repairs := s.repairs[id := next])
    case ReadMarker(id) =>
      var head := s.repairs[id].head;
      var current := tenant in s.markers && s.markers[tenant] == head;
      s.(repairs := s.repairs[id := if current then Ended(ALREADY_CURRENT) else Writing(head)])
    case WriteMarker(id) =>
      s.(markers := s.markers[tenant := s.repairs[id].head], repairs := s.repairs[id := Ended(REPAIRED)])
    case Mark(other, hash) => s.(markers := s.markers[other := hash])
    case Unmark(other) => s.(markers := s.markers - {other})
  }

  ghost predicate IsRun(tenant: string, passportId: string, states: seq<State>, steps: seq<Step>) {
    && |states| == |steps| + 1
    && states[0].ledger == L.State(Ledger.Provisioned(passportId), map[])
    && tenant !in states[0].markers && states[0].repairs == map[]
    && forall i :: 0 <= i < |steps| ==>
         Enabled(tenant, states[i], steps[i]) && states[i + 1] == Apply(tenant, states[i], steps[i])
  }

  function Count(s: State): nat { |s.ledger.rows.entries| }

  /** `head` is the head after the first `n` entries. */
  ghost predicate IsHead(s: State, head: Option<Digest>, n: nat) {
    1 <= n <= Count(s) && head == L.HeadAt(s.ledger.rows.entries, n)
  }

  /** The marker of the tenant is the head after the first `n` entries. */
  ghost predicate MarksEntry(tenant: string, s: State, n: nat) {
    tenant in s.markers && IsHead(s, s.markers[tenant], n)
  }

  ghost predicate RepairOk(s: State, id: nat)
    requires id in s.repairs
  {
    !s.repairs[id].Ended? ==> exists n: nat :: IsHead(s, s.repairs[id].head, n)
  }

  ghost predicate Inv(tenant: string, s: State) {
    && L.Inv(s.ledger)
    && (tenant in s.markers ==> exists n: nat :: MarksEntry(tenant, s, n))
    && (forall id {:trigger RepairOk(s, id)} :: id in s.repairs ==> RepairOk(s, id))
  }

  /** The heads of a sound ledger are real hashes and belong to one number of entries each. */
  lemma HeadsIdentify(rows: Ledger.Rows, n: nat)
    requires L.RowsOk(rows) && n <= |rows.entries|
    ensures EmptyHash(L.HeadAt(rows.entries, n)) <==> n == 0
    ensures L.HeadAt(rows.entries, n) == rows.head <==> n == |rows.entries|
  {
    if n > 0 {
      assert L.LinkAt(rows.passportId, rows.entries, n - 1);
    }
    if n < |rows.entries| {
      L.HeadsNeverRepeat(rows.passportId, rows.entries, n, |rows.entries|);
    }
  }

  /** The answers of the reconciler, in terms of how many entries the marker has seen. */
  lemma StatusMeansLag(tenant: string, s: State)
    requires Inv(tenant, s)
    ensures tenant !in s.markers ==> Reconcile(Head(s), s.markers, tenant) == INSUFFICIENT_DATA
    ensures forall n: nat | MarksEntry(tenant, s, n) ::
              Reconcile(Head(s), s.markers, tenant) == if n == Count(s) then MATCHED else DRIFT_DETECTED
    ensures RepairStatus(Head(s), s.markers, tenant) == INSUFFICIENT_DATA <==> Count(s) == 0
  {
    HeadsIdentify(s.ledger.rows, Count(s));
    forall n: nat | MarksEntry(tenant, s, n)
      ensures Reconcile(Head(s), s.markers, tenant) == if n == Count(s) then MATCHED else DRIFT_DETECTED
    {
      HeadsIdentify(s.ledger.rows, n);
    }
  }

  /** History only grows, so what was a head stays a head of the same entry. */
  lemma StepGrows(tenant: string, s: State, step: Step)
    requires L.Inv(s.ledger) && Enabled(tenant, s, step)
    ensures var t := Apply(tenant, s, step);
            && L.Inv(t.ledger) && s.ledger.rows.entries <= t.ledger.rows.entries
            && forall head, n: nat :: IsHead(s, head, n) ==> IsHead(t, head, n)
  {
    hide L.Inv, L.Apply, L.Enabled;
    if step.Append? {
      L.StepKeepsInv(s.ledger, step.step);
    }
  }

  /** A step keeps what the marker has seen, unless it writes the marker. */
  lemma StepKeepsMarks(tenant: string, s: State, step: Step, n: nat)
    requires L.Inv(s.ledger) && Enabled(tenant, s, step) && MarksEntry(tenant, s, n) && !step.WriteMarker?
    ensures MarksEntry(tenant, Apply(tenant, s, step), n)
  {
    hide L.Inv, L.Apply, L.Enabled, IsHead;
    StepGrows(tenant, s, step);
  }

  lemma StepKeepsRepairs(tenant: string, s: State, step: Step, id: nat)
    requires Inv(tenant, s) && Enabled(tenant, s, step) && id in Apply(tenant, s, step).repairs
    ensures RepairOk(Apply(tenant, s, step), id)
  {
    hide L.Inv, L.Apply, L.Enabled;
    StepGrows(tenant, s, step);
    if id in s.repairs {
      assert RepairOk(s, id);
      if !s.repairs[id].Ended? {
        var n: nat :| IsHead(s, s.repairs[id].head, n);
        assert IsHead(Apply(tenant, s, step), s.repairs[id].head, n);
      }
    } else if !EmptyHash(Head(s)) {
      CurrentHead(tenant, s);
      assert IsHead(Apply(tenant, s, step), Head(s), Count(s));
    }
  }

  lemma CurrentHead(tenant: string, s: State)
    requires Inv(tenant, s)
    ensures EmptyHash(Head(s)) <==> Count(s) == 0
    ensures Count(s) > 0 ==> IsHead(s, Head(s), Count(s))
  {
    HeadsIdentify(s.ledger.rows, Count(s));
  }

  lemma StepKeepsInv(tenant: string, s: State, step: Step)
    requires Inv(tenant, s) && Enabled(tenant, s, step)
    ensures Inv(tenant, Apply(tenant, s, step)) && Count(s) <= Count(Apply(tenant, s, step))
  {
    hide L.Inv, L.Apply, L.Enabled, RepairOk;
    var t := Apply(tenant, s, step);
    StepGrows(tenant, s, step);
    forall id | id in t.repairs
      ensures RepairOk(t, id)
    {
      StepKeepsRepairs(tenant, s, step, id);
    }
    if step.WriteMarker? {
      WriteMarks(tenant, s, step.id);
    } else if tenant in s.markers {
      var n: nat :| MarksEntry(tenant, s, n);
      StepKeepsMarks(tenant, s, step, n);
    }
  }

  lemma WriteMarks(tenant: string, s: State, id: nat)
    requires Inv(tenant, s) && Enabled(tenant, s, WriteMarker(id))
    ensures exists n: nat :: MarksEntry(tenant, Apply(tenant, s, WriteMarker(id)), n)
  {
    assert RepairOk(s, id);
    var n: nat :| IsHead(s, s.repairs[id].head, n);
    assert MarksEntry(tenant, Apply(tenant, s, WriteMarker(id)), n);
  }

  lemma {:induction false} RunKeepsInv(tenant: string, passportId: string, states: seq<State>, steps: seq<Step>, k: nat)
    requires IsRun(tenant, passportId, states, steps) && k < |states|
    ensures Inv(tenant, states[k])
  {
    hide L.Inv, L.Apply, L.Enabled, Enabled, Apply;
    if k > 0 {
      RunKeepsInv(tenant, passportId, states, steps, k - 1);
      StepKeepsInv(tenant, states[k - 1], steps[k - 1]);
    } else {
      var s := states[0].ledger;
      assert L.IsRun(passportId, [s], []);
      L.RunKeepsInv(passportId, [s], [], 0);
    }
  }

  /** The marker is never invented: it is always a head that the ledger really had. */
  lemma MarkerIsAPastHead(tenant: string, passportId: string, states: seq<State>, steps: seq<Step>, k: nat)
    returns (n: nat)
    requires IsRun(tenant, passportId, states, steps) && k < |states| && tenant in states[k].markers
    ensures MarksEntry(tenant, states[k], n)
    ensures Reconcile(Head(states[k]), states[k].markers, tenant) ==
            if n == Count(states[k]) then MATCHED else DRIFT_DETECTED
  {
    RunKeepsInv(tenant, passportId, states, steps, k);
    StatusMeansLag(tenant, states[k]);
    n :| MarksEntry(tenant, states[k], n);
  }

  lemma {:induction false} MarkStays(tenant: string, passportId: string, states: seq<State>, steps: seq<Step>, i: nat,
                                     k: nat, n: nat)
    requires IsRun(tenant, passportId, states, steps) && i <= k < |states| && MarksEntry(tenant, states[i], n)
    requires forall x :: i <= x < k ==> !steps[x].WriteMarker?
    ensures MarksEntry(tenant, states[k], n)
    decreases k
  {
    hide L.Inv, L.Apply, L.Enabled, Enabled, Apply, MarksEntry;
    if i < k {
      MarkStays(tenant, passportId, states, steps, i, k - 1, n);
      RunKeepsInv(tenant, passportId, states, steps, k - 1);
      StepKeepsMarks(tenant, states[k - 1], steps[k - 1], n);
    }
  }

  /** Until it ends, a repair carries the head it read, and that head stays the one of the same entry. */
  lemma {:induction false} RepairCarriesHead(tenant: string, passportId: string, states: seq<State>, steps: seq<Step>,
                                             r: nat, k: nat, id: nat)
    requires IsRun(tenant, passportId, states, steps) && r < k < |states| && steps[r] == ReadHead(id)
    ensures id in states[k].repairs
    ensures !states[k].repairs[id].Ended? ==>
              states[k].repairs[id].head == Head(states[r]) && IsHead(states[k], Head(states[r]), Count(states[r]))
    ensures Count(states[r]) <= Count(states[k])
    decreases k
  {
    hide L.Inv, L.Apply, L.Enabled;
    RunKeepsInv(tenant, passportId, states, steps, k - 1);
    StepGrows(tenant, states[k - 1], steps[k - 1]);
    if r + 1 < k {
      RepairCarriesHead(tenant, passportId, states, steps, r, k - 1, id);
    } else {
      CurrentHead(tenant, states[r]);
    }
  }

  /** The step ends repair `id` with success: the marker is written, or found to be current. */
  ghost predicate Succeeds(tenant: string, s: State, step: Step, id: nat) {
    Enabled(tenant, s, step) &&
    (|| step == WriteMarker(id)
     || (step == ReadMarker(id) && Apply(tenant, s, step).repairs[id] == Ended(ALREADY_CURRENT)))
  }

  /**
   Drift is never missed and never invented. After a repair that succeeded, and until a marker is
   next written, the reconciler reports a match exactly as long as no append has committed since
   that repair read the head, and drift from the first commit on, whatever other repairs read
   and whatever other tenants' markers do.
   */
  lemma DriftIsNeverMissed(
    tenant: string, passportId: string, states: seq<State>, steps: seq<Step>, r: nat, i: nat, k: nat, id: nat)
    requires IsRun(tenant, passportId, states, steps) && r < i < k < |states|
    requires steps[r] == ReadHead(id) && Succeeds(tenant, states[i], steps[i], id)
    requires forall x :: i < x < k ==> !steps[x].WriteMarker?
    ensures Reconcile(Head(states[k]), states[k].markers, tenant) ==
            if Count(states[k]) == Count(states[r]) then MATCHED else DRIFT_DETECTED
    ensures Count(states[r]) <= Count(states[k])
  {
    hide L.Inv, L.Apply, L.Enabled, Reconcile;
    RepairCarriesHead(tenant, passportId, states, steps, r, i, id);
    RunKeepsInv(tenant, passportId, states, steps, i);
    StepGrows(tenant, states[i], steps[i]);
    assert MarksEntry(tenant, states[i + 1], Count(states[r]));
    MarkStays(tenant, passportId, states, steps, i + 1, k, Count(states[r]));
    RepairCarriesHead(tenant, passportId, states, steps, r, k, id);
    RunKeepsInv(tenant, passportId, states, steps, k);
    StatusMeansLag(tenant, states[k]);
  }

  /** A repair whose calls are not interrupted is the repair specified above. */
  lemma RepairAlone(tenant: string, s: State, id: nat) returns (t: State)
    requires id !in s.repairs
    ensures t.ledger == s.ledger && t.markers == Repair(Head(s), s.markers, tenant)
    ensures t.repairs == s.repairs[id := Ended(RepairStatus(Head(s), s.markers, tenant))]
  {
    t := Apply(tenant, s, ReadHead(id));
    if t.repairs[id].HeadRead? {
      t := Apply(tenant, t, ReadForeign(id));
    }
    if t.repairs[id].Unopposed? {
      t := Apply(tenant, t, ReadMarker(id));
    }
    if t.repairs[id].Writing? {
      t := Apply(tenant, t, WriteMarker(id));
    }
  }
}
