/** The queue of refused appends: identical stale attempts share one active conflict record. */
module Conflicts {
  import opened Basics
  import opened Records

  datatype Status = OPEN | UNDER_REVIEW | REBASE_APPROVED | REBASED | REJECTED | SUPERSEDED | RESOLVED

  predicate Active(status: Status) {
    status in {OPEN, UNDER_REVIEW, REBASE_APPROVED}
  }

  /** The original attempt, as it is stored in its record. */
  datatype Attempt = Attempt(
    request: Fingerprint,
    expectedRevision: Option<int>,
    expectedHead: Option<Digest>,
    actualRevision: Option<int>,
    actualHead: Option<Digest>,
    reason: string,
    idempotencyKey: Option<string>,
    actor: string)

  /** What two attempts must share to count as the same conflict: not the key, not the actor. */
  datatype ConflictFingerprint = ConflictFingerprint(
    request: Fingerprint,
    expectedRevision: Option<int>,
    expectedHead: Option<Digest>,
    actualRevision: Option<int>,
    actualHead: Option<Digest>,
    reason: string)

  function FingerprintOf(a: Attempt): ConflictFingerprint {
    ConflictFingerprint(a.request, a.expectedRevision, a.expectedHead, a.actualRevision, a.actualHead, a.reason)
  }

  /** The attempts ask for the same thing in the same situation and were refused alike. */
  predicate SameConflict(a: Attempt, b: Attempt) {
    && a.request == b.request && a.reason == b.reason
    && a.expectedRevision == b.expectedRevision && a.expectedHead == b.expectedHead
    && a.actualRevision == b.actualRevision && a.actualHead == b.actualHead
  }

  predicate Closed(status: Status) {
    status.REBASED? || status.REJECTED? || status.SUPERSEDED? || status.RESOLVED?
  }

  /** Which attempts share a fingerprint, and which records can be reused. */
  lemma ConflictsAgreeIff(a: Attempt, b: Attempt, status: Status)
    ensures FingerprintOf(a) == FingerprintOf(b) <==> SameConflict(a, b)
    ensures Active(status) <==> !Closed(status)
  {
  }

  datatype Conflict = Conflict(id: string, attempt: Attempt, status: Status, deliveries: nat, reviewer: Option<string>)

  predicate Matches(c: Conflict, a: Attempt) {
    Active(c.status) && FingerprintOf(c.attempt) == FingerprintOf(a)
  }

  /** The position of the active record that an attempt would reuse, or the length if there is none. */
  function FindActive(records: seq<Conflict>, a: Attempt): (i: nat)
    ensures i <= |records|
    ensures i < |records| ==> Matches(records[i], a)
    ensures forall j :: 0 <= j < i ==> !Matches(records[j], a)
  {
    if records == [] then 0
    else if Matches(records[0], a) then 0
    else
      var rest := FindActive(records[1..], a);
      assert forall j :: 1 <= j < rest + 1 ==> records[j] == records[1..][j - 1];
      rest + 1
  }

  /** A repeated attempt only counts up; a missing count reads as one. */
  function Redelivered(c: Conflict): Conflict {
    c.(deliveries := (if c.deliveries == 0 then 1 else c.deliveries) + 1)
  }

  function Create(records: seq<Conflict>, id: string, a: Attempt): seq<Conflict> {
    var i := FindActive(records, a);
    if i < |records| then records[i := Redelivered(records[i])]
    else records + [Conflict(id, a, OPEN, 1, None)]
  }

  function FindId(records: seq<Conflict>, id: string): (i: nat)
    ensures i <= |records|
    ensures i < |records| ==> records[i].id == id
    ensures forall j :: 0 <= j < i ==> records[j].id != id
  {
    if records == [] then 0 else if records[0].id == id then 0 else FindId(records[1..], id) + 1
  }

  /** The unique index on active fingerprints: no other active record has the one of record `i`. */
  predicate MayActivate(records: seq<Conflict>, i: nat)
    requires i < |records|
  {
    forall j :: 0 <= j < |records| && j != i ==> !Matches(records[j], records[i].attempt)
  }

  datatype MarkError = NotFound | IndexViolated

  function Mark(records: seq<Conflict>, id: string, status: Status, reviewer: string): seq<Conflict> {
    var i := FindId(records, id);
    if i == |records| || (Active(status) && !MayActivate(records, i)) then records
    else records[i := records[i].(status := status, reviewer := Some(reviewer))]
  }

  /** Record `i`, the first of its conflict that is not closed, was delivered once more; nothing else changed. */
  predicate CountedUp(before: seq<Conflict>, after: seq<Conflict>, i: nat, a: Attempt)
    requires i < |before|
  {
    && |after| == |before| && SameConflict(before[i].attempt, a) && !Closed(before[i].status)
    && (forall j :: 0 <= j < i ==> Closed(before[j].status) || !SameConflict(before[j].attempt, a))
    && (forall j :: 0 <= j < |before| && j != i ==> after[j] == before[j])
    && after[i].id == before[i].id && after[i].attempt == before[i].attempt
    && after[i].status == before[i].status && after[i].reviewer == before[i].reviewer
    && after[i].deliveries == Max(1, before[i].deliveries) + 1
  }

  class ConflictQueue {
    var records: seq<Conflict>

    constructor ()
      ensures records == []
    {
      records := [];
    }

    /** `create_conflict_record` without a racing insert. */
    method CreateRecord(id: string, a: Attempt) returns (reused: bool)
      modifies this
      ensures records == Create(old(records), id, a)
      ensures reused <==> exists c <- old(records) :: !Closed(c.status) && SameConflict(c.attempt, a)
      ensures !reused ==> records == old(records) + [Conflict(id, a, OPEN, 1, None)]
      ensures reused ==> exists i :: 0 <= i < |old(records)| && CountedUp(old(records), records, i, a)
    {
      assert forall c <- records :: Matches(c, a) <==> !Closed(c.status) && SameConflict(c.attempt, a);
      var i := FindActive(records, a);
      if i < |records| {
        var c := records[i];
        records := records[i := c.(deliveries := (if c.deliveries == 0 then 1 else c.deliveries) + 1)];
        assert old(records)[i] in old(records);
        assert CountedUp(old(records), records, i, a);
        return true;
      }
      records := records + [Conflict(id, a, OPEN, 1, None)];
      return false;
    }

    /** `mark_conflict_status`: any status may follow any other, except for the unique index. */
    method MarkStatus(id: string, status: Status, reviewer: string) returns (outcome: Result<Conflict, MarkError>)
      modifies this
      ensures records == Mark(old(records), id, status, reviewer)
      ensures outcome == Err(NotFound) <==> forall c <- old(records) :: c.id != id
      ensures outcome == Err(IndexViolated) <==>
                var i := FindId(old(records), id);
                && i < |old(records)| && !Closed(status)
                && exists j :: 0 <= j < |old(records)| && j != i && !Closed(old(records)[j].status)
                               && SameConflict(old(records)[j].attempt, old(records)[i].attempt)
      ensures outcome.Err? ==> records == old(records)
      ensures outcome.Ok? ==>
                && outcome.value.id == id && outcome.value.status == status && outcome.value.reviewer == Some(reviewer)
                && outcome.value in records
                && |records| == |old(records)|
                && forall j :: 0 <= j < |records| && records[j] != old(records)[j] ==> records[j] == outcome.value
    {
      var i := FindId(records, id);
      if i == |records| {
        return Err(NotFound);
      }
      assert records[i] in records;
      assert forall j :: 0 <= j < |records| ==>
        (Matches(records[j], records[i].attempt) <==>
         !Closed(records[j].status) && SameConflict(records[j].attempt, records[i].attempt));
      if Active(status) && exists j :: 0 <= j < |records| && j != i && Matches(records[j], records[i].attempt) {
        return Err(IndexViolated);
      }
      records := records[i := records[i].(status := status, reviewer := Some(reviewer))];
      assert records[i] in records;
      return Ok(records[i]);
    }
  }

  // ----- what every operation keeps -----

  ghost predicate ActiveDistinct(records: seq<Conflict>) {
    forall i, j :: 0 <= i < j < |records| && !Closed(records[i].status) && !Closed(records[j].status) ==>
      !SameConflict(records[i].attempt, records[j].attempt)
  }

  /** Earlier records stay in place with their identity and their original attempt. */
  ghost predicate AttemptsKept(before: seq<Conflict>, after: seq<Conflict>) {
    && |before| <= |after|
    && forall i :: 0 <= i < |before| ==> after[i].id == before[i].id && after[i].attempt == before[i].attempt
  }

  /** Whether an attempt belongs to a tally: that of one conflict, or that of all. */
  predicate Tallied(like: Option<Attempt>, a: Attempt) {
    like.None? || SameConflict(like.value, a)
  }

  function Deliveries(records: seq<Conflict>, like: Option<Attempt>): nat {
    if records == [] then 0
    else
      var c := records[|records| - 1];
      Deliveries(records[..|records| - 1], like) + if Tallied(like, c.attempt) then c.deliveries else 0
  }

  ghost predicate Counted(records: seq<Conflict>) {
    forall i :: 0 <= i < |records| ==> records[i].deliveries >= 1
  }

  lemma {:induction false} DeliveriesUpdate(records: seq<Conflict>, i: nat, c: Conflict, like: Option<Attempt>)
    requires i < |records| && c.attempt == records[i].attempt
    ensures Deliveries(records[i := c], like) ==
            Deliveries(records, like) + if Tallied(like, c.attempt) then c.deliveries - records[i].deliveries else 0
  {
    var n := |records| - 1;
    if i == n {
      assert records[i := c][..n] == records[..n];
    } else {
      DeliveriesUpdate(records[..n], i, c, like);
      assert records[i := c][..n] == records[..n][i := c];
    }
  }

  datatype Operation = Attempted(id: string, a: Attempt) | Marked(id: string, status: Status, reviewer: string)

  function Run(ops: seq<Operation>): seq<Conflict> {
    if ops == [] then []
    else
      var before := Run(ops[..|ops| - 1]);
      match ops[|ops| - 1]
      case Attempted(id, a) => Create(before, id, a)
      case Marked(id, status, reviewer) => Mark(before, id, status, reviewer)
  }

  function Attempts(ops: seq<Operation>, like: Option<Attempt>): nat {
    if ops == [] then 0
    else
      var op := ops[|ops| - 1];
      Attempts(ops[..|ops| - 1], like) + if op.Attempted? && Tallied(like, op.a) then 1 else 0
  }

  lemma CreateCounts(records: seq<Conflict>, id: string, a: Attempt, like: Option<Attempt>)
    requires ActiveDistinct(records) && Counted(records)
    ensures var after := Create(records, id, a);
            && Deliveries(after, like) == Deliveries(records, like) + (if Tallied(like, a) then 1 else 0)
            && AttemptsKept(records, after) && ActiveDistinct(after) && Counted(after)
  {
    var i := FindActive(records, a);
    if i < |records| {
      DeliveriesUpdate(records, i, Redelivered(records[i]), like);
    } else {
      assert Create(records, id, a)[..|records|] == records;
    }
  }

  lemma MarkCounts(records: seq<Conflict>, id: string, status: Status, reviewer: string, like: Option<Attempt>)
    requires ActiveDistinct(records) && Counted(records)
    ensures var after := Mark(records, id, status, reviewer);
            && Deliveries(after, like) == Deliveries(records, like)
            && AttemptsKept(records, after) && ActiveDistinct(after) && Counted(after)
  {
    var i := FindId(records, id);
    if i < |records| && (Active(status) ==> MayActivate(records, i)) {
      MarkKeepsDistinct(records, i, status, reviewer);
      DeliveriesUpdate(records, i, records[i].(status := status, reviewer := Some(reviewer)), like);
    }
    hide MayActivate, ActiveDistinct, Deliveries;
  }

  lemma MarkKeepsDistinct(records: seq<Conflict>, i: nat, status: Status, reviewer: string)
    requires ActiveDistinct(records) && i < |records| && (Active(status) ==> MayActivate(records, i))
    ensures ActiveDistinct(records[i := records[i].(status := status, reviewer := Some(reviewer))])
  {
  }

  /**
   Through any sequence of attempts and status changes, open records are pairwise different
   conflicts, and the delivery counts of all records, and of the records of each single
   conflict, add up to the number of attempts.
   */
  lemma {:induction false} QueueTheorem(ops: seq<Operation>, like: Option<Attempt>)
    ensures ActiveDistinct(Run(ops)) && Counted(Run(ops))
    ensures Deliveries(Run(ops), like) == Attempts(ops, like)
  {
    if ops != [] {
      var earlier := ops[..|ops| - 1];
      QueueTheorem(earlier, like);
      match ops[|ops| - 1]
      case Attempted(id, a) => CreateCounts(Run(earlier), id, a, like);
      case Marked(id, status, reviewer) => MarkCounts(Run(earlier), id, status, reviewer, like);
    }
  }

  /** No later operation rewrites the original attempt of a record. */
  lemma {:induction false} AttemptsNeverRewritten(ops: seq<Operation>, n: nat)
    requires n <= |ops|
    ensures AttemptsKept(Run(ops[..n]), Run(ops))
  {
    if n == |ops| {
      assert ops[..n] == ops;
    } else {
      var earlier := ops[..|ops| - 1];
      AttemptsNeverRewritten(earlier, n);
      assert earlier[..n] == ops[..n];
      QueueTheorem(earlier, None);
      match ops[|ops| - 1]
      case Attempted(id, a) => CreateCounts(Run(earlier), id, a, None);
      case Marked(id, status, reviewer) => MarkCounts(Run(earlier), id, status, reviewer, None);
    }
  }
}
