/** The durable outbox: emission, leased claims, retries with backoff, dead letters and replay. */
module Outbox {
  import opened Basics
  import opened StoredSize
  import A = Abridged
  import R = Redaction
  import S = Sanitizer

  const MAX_BACKOFF := 300
  const CANDIDATES := 8
  const DLQ_MAX_DEPTH := 8
  const DLQ_MAX_BYTES := 8192

  /** One outbox row; its event id is its key in the collection. `failed` is a recorded last error. */
  datatype Row = Row(
    key: string,
    payload: S.Value,
    availableAfter: int,
    attempts: int,
    deliveredAt: Option<int>,
    deadAt: Option<int>,
    leasedBy: Option<string>,
    leaseUntil: Option<int>,
    failed: bool)

  type Rows = map<string, Row>

  /** What a claim hands to its worker: a copy of the row at the moment of the claim. */
  datatype Claim = Claim(id: string, worker: string, attempts: int, claimedAt: int, leaseUntil: int, payload: S.Value)

  datatype DeadLetter = DeadLetter(eventId: string, payload: S.Value, attempts: int)

  // ----- single rows -----

  function NewRow(key: string, payload: S.Value, now: int): Row {
    Row(key, payload, now, 0, None, None, None, None, false)
  }

  predicate Open(row: Row) {
    row.deliveredAt.None? && row.deadAt.None?
  }

  predicate Claimable(row: Row, now: int) {
    Open(row) && row.availableAfter <= now && (row.leaseUntil.None? || row.leaseUntil.value <= now)
  }

  function Claimed(row: Row, worker: string, now: int, lease: int): Row {
    row.(leasedBy := Some(worker), leaseUntil := Some(now + lease), attempts := row.attempts + 1)
  }

  function ClaimOf(id: string, row: Row, now: int): Claim
    requires row.leasedBy.Some? && row.leaseUntil.Some?
  {
    Claim(id, row.leasedBy.value, row.attempts, now, row.leaseUntil.value, row.payload)
  }

  function Delivered(row: Row, now: int): Row {
    if row.deliveredAt.None?
    then row.(deliveredAt := Some(now), leasedBy := None, leaseUntil := None, failed := false)
    else row
  }

  predicate Idle(row: Row) {
    row.leasedBy.None? && row.leaseUntil.None?
  }

  function Pow2(n: nat): nat {
    if n == 0 then 1 else 2 * Pow2(n - 1)
  }

  function Backoff(attempts: int): int {
    Min(MAX_BACKOFF, 2 * Pow2(Max(0, attempts - 1)))
  }

  /** The row update of a recorded failure; `attempts` is the count the worker was handed. */
  function Failed(row: Row, attempts: int, maxAttempts: int, now: int): Row {
    if attempts >= maxAttempts then
      row.(deadAt := Some(now), leasedBy := None, leaseUntil := None, failed := true)
    else if Open(row) then
      row.(availableAfter := now + Backoff(attempts), leasedBy := None, leaseUntil := None, failed := true)
    else row
  }

  function Requeued(row: Row, now: int, resetAttempts: bool): Row {
    row.(deadAt := None, availableAfter := now, leasedBy := None, leaseUntil := None, failed := false,
    attempts := if resetAttempts then 0 else row.attempts)
  }

  /** The forensic copy of an event that ran out of attempts. */
  function DeadLetterOf(p: S.Policy, id: string, payload: S.Value, attempts: int): DeadLetter {
    DeadLetter(id, S.ScrubPayload(p, Some(payload), DLQ_MAX_DEPTH, DLQ_MAX_BYTES).payload, attempts)
  }

  /**
   A forensic copy of `payload`: an object without readable secrets, nested and sized within the
   limits of dead letters, whose parts are the parts of the payload or beginnings of them, cut no
   more than those limits demand.
   */
  ghost predicate Forensic(p: S.Policy, payload: S.Value, copy: S.Value) {
    && copy.Dict? && R.Shaped(copy, 9)
    && (R.MarkersPublic(p) ==> R.SecretsRedacted(p, copy))
    && (R.KeysDistinct(payload) ==>
          && A.Abridges(p, A.Envelope(Some(payload)), copy)
          && exists left :: A.Stores(p, A.Envelope(Some(payload)), 8, S.Meter(8192, S.NO_FLAGS), copy, left))
    && (var v := A.Envelope(Some(payload)); JsonBytes(copy) <= 18 * 8192 + Outline(v) + 32 * Containers(v))
  }

  /** The collection has one letter more, and it is a forensic copy of this event. */
  ghost predicate LetterAdded(p: S.Policy, before: seq<DeadLetter>, after: seq<DeadLetter>, id: string,
                              payload: S.Value, attempts: int)
  {
    && |after| == |before| + 1 && before <= after
    && after[|before|].eventId == id && after[|before|].attempts == attempts
    && Forensic(p, payload, after[|before|].payload)
  }

  lemma DeadLetterIsForensic(p: S.Policy, id: string, payload: S.Value, attempts: int)
    ensures Forensic(p, payload, DeadLetterOf(p, id, payload, attempts).payload)
  {
    hide S.Scrub, JsonBytes, Outline, Containers, R.SecretsRedacted, R.KeysDistinct, A.Abridges, A.Stores, R.Shaped;
    var v, m := S.AsObject(Some(payload)), S.Meter(DLQ_MAX_BYTES, S.NO_FLAGS);
    assert v == A.Envelope(Some(payload));
    StoredSizeBound(p, Some(payload), DLQ_MAX_DEPTH, DLQ_MAX_BYTES);
    if R.MarkersPublic(p) {
      R.ScrubRedactsSecrets(p, v, 0, DLQ_MAX_DEPTH, m);
    }
    R.ScrubShapes(p, v, 0, DLQ_MAX_DEPTH, m);
    assert S.Scrub(p, v, 0, DLQ_MAX_DEPTH, m).0.Dict? by { ScrubbedObject(p, v, m); }
    if R.KeysDistinct(payload) {
      A.StoredCopyAbridges(p, Some(payload), DLQ_MAX_DEPTH, DLQ_MAX_BYTES);
    }
  }

  lemma ScrubbedObject(p: S.Policy, v: S.Value, m: S.Meter)
    requires v.Dict? && m.budget > 0
    ensures S.Scrub(p, v, 0, DLQ_MAX_DEPTH, m).0.Dict?
  {
  }

  /** Events that differ only in secrets leave the same letter behind. */
  lemma LettersHideSecrets(p: S.Policy, id: string, a: S.Value, b: S.Value, attempts: int)
    requires R.SameButSecrets(p, a, b)
    ensures DeadLetterOf(p, id, a, attempts) == DeadLetterOf(p, id, b, attempts)
  {
    R.StoredCopyHidesSecrets(p, Some(a), Some(b), DLQ_MAX_DEPTH, DLQ_MAX_BYTES);
  }

  predicate MayReplay(row: Row) {
    row.deliveredAt.None? && (row.deadAt.Some? || row.failed)
  }

  // ----- the collection -----

  ghost predicate KeyTaken(rows: Rows, key: string) {
    exists id <- rows :: rows[id].key == key
  }

  /** What the candidate query may return: the oldest claimable rows, oldest first, at most eight. */
  ghost predicate IsCandidateList(rows: Rows, now: int, ids: seq<string>) {
    && |ids| <= CANDIDATES && NoDuplicates(ids)
    && (forall id <- ids :: id in rows && Claimable(rows[id], now))
    && (forall i, j :: 0 <= i < j < |ids| ==> rows[ids[i]].availableAfter <= rows[ids[j]].availableAfter)
    && (forall id <- rows :: Claimable(rows[id], now) && id !in ids ==>
          |ids| == CANDIDATES && rows[ids[CANDIDATES - 1]].availableAfter <= rows[id].availableAfter)
  }

  /** `id` is the first of the candidates that can still be claimed. */
  ghost predicate FirstClaimable(rows: Rows, candidates: seq<string>, now: int, id: string) {
    exists i :: 0 <= i < |candidates| && candidates[i] == id
                && forall j :: 0 <= j < i && candidates[j] in rows ==> !Claimable(rows[candidates[j]], now)
  }

  class OutboxStore {
    var rows: Rows
    var deadLetters: seq<DeadLetter>

    constructor ()
      ensures rows == map[] && deadLetters == []
    {
      rows, deadLetters := map[], [];
    }

    /** `emit_outbox_event`: the first event of a key is stored, later ones name it. */
    method Emit(id: string, key: string, payload: S.Value, now: int) returns (eventId: string, duplicate: bool)
      requires id !in rows
      modifies this`rows
      ensures duplicate <==> KeyTaken(old(rows), key)
      ensures duplicate ==> eventId in rows && rows[eventId].key == key && rows == old(rows)
      ensures !duplicate ==> eventId == id && rows == old(rows)[id := NewRow(key, payload, now)]
    {
      if exists other <- rows :: rows[other].key == key {
        var other :| other in rows && rows[other].key == key;
        return other, true;
      }
      rows := rows[id := NewRow(key, payload, now)];
      return id, false;
    }

    /**
     `claim_next_event` after its query: try the candidates in order; another worker may have
     taken any of them since the query ran.
     */
    method ClaimNext(candidates: seq<string>, worker: string, lease: int, now: int) returns (claim: Option<Claim>)
      modifies this`rows
      ensures claim.None? ==>
                rows == old(rows) && forall id <- candidates :: id in rows ==> !Claimable(rows[id], now)
      ensures claim.Some? ==>
                && claim.value.id in old(rows) && Claimable(old(rows)[claim.value.id], now)
                && rows == old(rows)[claim.value.id := Claimed(old(rows)[claim.value.id], worker, now, lease)]
                && claim.value == ClaimOf(claim.value.id, rows[claim.value.id], now)
                && FirstClaimable(old(rows), candidates, now, claim.value.id)
      ensures claim.Some? ==>
                var before, after := old(rows)[claim.value.id], rows[claim.value.id];
                && claim.value.worker == worker && claim.value.payload == before.payload
                && claim.value.attempts == after.attempts == before.attempts + 1
                && claim.value.claimedAt == now && claim.value.leaseUntil == now + lease
                && after.leasedBy == Some(worker) && after.leaseUntil == Some(now + lease)
    {
      for i := 0 to |candidates|
        invariant rows == old(rows)
        invariant forall j :: 0 <= j < i && candidates[j] in rows ==> !Claimable(rows[candidates[j]], now)
      {
        var id := candidates[i];
        if id in rows && Claimable(rows[id], now) {
          rows := rows[id := Claimed(rows[id], worker, now, lease)];
          return Some(ClaimOf(id, rows[id], now));
        }
      }
      return None;
    }

    method MarkDelivered(claim: Claim, now: int)
      requires claim.id in rows
      modifies this`rows
      ensures rows == old(rows)[claim.id := Delivered(old(rows)[claim.id], now)]
      ensures rows[claim.id].deliveredAt ==
                if old(rows)[claim.id].deliveredAt.Some? then old(rows)[claim.id].deliveredAt else Some(now)
      ensures old(rows)[claim.id].deliveredAt.None? ==> Idle(rows[claim.id]) && !rows[claim.id].failed
      ensures old(rows)[claim.id].deliveredAt.Some? ==> rows == old(rows)
    {
      var row := rows[claim.id];
      if row.deliveredAt.None? {
        row := row.(deliveredAt := Some(now), leasedBy := None, leaseUntil := None, failed := false);
      }
      rows := rows[claim.id := row];
    }

    /** `record_delivery_failure`: a dead letter with a scrubbed copy, or a retry after a backoff. */
    method RecordFailure(p: S.Policy, claim: Claim, maxAttempts: int, now: int)
      requires claim.id in rows
      modifies this
      ensures rows == old(rows)[claim.id := Failed(old(rows)[claim.id], claim.attempts, maxAttempts, now)]
      ensures deadLetters == old(deadLetters) +
                if claim.attempts < maxAttempts then [] else [DeadLetterOf(p, claim.id, claim.payload, claim.attempts)]
      ensures claim.attempts >= maxAttempts ==>
                && LetterAdded(p, old(deadLetters), deadLetters, claim.id, claim.payload, claim.attempts)
                && rows[claim.id].deadAt == Some(now) && Idle(rows[claim.id]) && rows[claim.id].failed
      ensures claim.attempts < maxAttempts && Open(old(rows)[claim.id]) ==>
                var row := rows[claim.id];
                && Open(row) && Idle(row) && row.failed
                && row.availableAfter == now + Min(300, if claim.attempts <= 1 then 2 else Pow2(claim.attempts))
      ensures claim.attempts < maxAttempts && !Open(old(rows)[claim.id]) ==> rows == old(rows)
    {
      if claim.attempts >= maxAttempts {
        DeadLetterIsForensic(p, claim.id, claim.payload, claim.attempts);
      }
      var row := rows[claim.id];
      if claim.attempts >= maxAttempts {
        var copy := S.SanitizeDlqPayload(p, Some(claim.payload), DLQ_MAX_DEPTH, DLQ_MAX_BYTES);
        deadLetters := deadLetters + [DeadLetter(claim.id, copy.payload, claim.attempts)];
        rows := rows[claim.id := row.(deadAt := Some(now), leasedBy := None, leaseUntil := None, failed := true)];
        return;
      }
      if Open(row) {
        row := row.(availableAfter := now + Backoff(claim.attempts), failed := true);
        row := row.(leasedBy := None, leaseUntil := None);
      }
      rows := rows[claim.id := row];
    }

    /** `process_one` for the candidates its query returned; `succeeds` is the handler's answer. */
    method ProcessOne(p: S.Policy, candidates: seq<string>, worker: string, lease: int, maxAttempts: int, now: int,
                      succeeds: bool)
      returns (claim: Option<Claim>)
      modifies this
      ensures claim.None? ==> rows == old(rows) && deadLetters == old(deadLetters)
      ensures claim.Some? ==>
                && claim.value.id in candidates && claim.value.id in old(rows)
                && Claimable(old(rows)[claim.value.id], now)
                && claim.value.payload == old(rows)[claim.value.id].payload
                && rows == old(rows)[claim.value.id :=
                     var row := Claimed(old(rows)[claim.value.id], worker, now, lease);
                     if succeeds then Delivered(row, now) else Failed(row, row.attempts, maxAttempts, now)]
                && deadLetters == old(deadLetters) +
                     (var row := old(rows)[claim.value.id];
                      if succeeds || row.attempts + 1 < maxAttempts then []
                      else [DeadLetterOf(p, claim.value.id, row.payload, row.attempts + 1)])
      ensures claim.Some? && !succeeds && old(rows)[claim.value.id].attempts + 1 >= maxAttempts ==>
                var row := old(rows)[claim.value.id];
                LetterAdded(p, old(deadLetters), deadLetters, claim.value.id, row.payload, row.attempts + 1)
    {
      claim := ClaimNext(candidates, worker, lease, now);
      if claim.None? {
        return;
      }
      if succeeds {
        MarkDelivered(claim.value, now);
      } else {
        RecordFailure(p, claim.value, maxAttempts, now);
      }
    }

    /** `replay_dead_lettered_event` after its authorization: `false` is a refusal. */
    method Replay(id: string, now: int, resetAttempts: bool) returns (ok: bool)
      modifies this`rows
      ensures ok <==> id in old(rows) && MayReplay(old(rows)[id])
      ensures ok <==> && id in old(rows) && old(rows)[id].deliveredAt.None?
                      && (old(rows)[id].deadAt.Some? || old(rows)[id].failed)
      ensures ok ==> rows == old(rows)[id := Requeued(old(rows)[id], now, resetAttempts)]
      ensures ok ==>
                var before, after := old(rows)[id], rows[id];
                && Open(after) && Idle(after) && !after.failed && after.availableAfter == now
                && after.key == before.key && after.payload == before.payload
                && after.attempts == if resetAttempts then 0 else before.attempts
      ensures !ok ==> rows == old(rows)
    {
      if id !in rows || rows[id].deliveredAt.Some? || (rows[id].deadAt.None? && !rows[id].failed) {
        return false;
      }
      rows := rows[id := Requeued(rows[id], now, resetAttempts)];
      return true;
    }
  }

  // ----- retries -----

  lemma {:induction false} Pow2Grows(m: nat, n: nat)
    requires m <= n
    ensures 1 <= Pow2(m) <= Pow2(n)
  {
    if m < n {
      Pow2Grows(m, n - 1);
    } else if m > 0 {
      Pow2Grows(m - 1, m - 1);
    }
  }

  /** The delay lies between 2 and 300 seconds, never shrinks, and doubles until it is capped. */
  lemma BackoffShape(a: int, b: int)
    requires a <= b
    ensures 2 <= Backoff(a) <= Backoff(b) <= MAX_BACKOFF
    ensures 1 <= a ==> Backoff(a) == Min(MAX_BACKOFF, Pow2(a))
  {
    Pow2Grows(0, Max(0, a - 1));
    Pow2Grows(Max(0, a - 1), Max(0, b - 1));
  }

  /** One round of an always failing handler, run as soon as the row is available. */
  function FailingRound(row: Row, worker: string, lease: int, maxAttempts: int): Row {
    var claimed := Claimed(row, worker, row.availableAfter, lease);
    Failed(claimed, claimed.attempts, maxAttempts, row.availableAfter)
  }

  function FailingRounds(row: Row, worker: string, lease: int, maxAttempts: int, n: nat): Row {
    if n == 0 then row
    else FailingRound(FailingRounds(row, worker, lease, maxAttempts, n - 1), worker, lease, maxAttempts)
  }

  function TotalDelay(n: nat): int {
    if n == 0 then 0 else TotalDelay(n - 1) + Min(MAX_BACKOFF, Pow2(n))
  }

  /**
   An always failing handler runs exactly `maxAttempts` times: after each earlier round the row
   is open again after the summed delays, and the last round dead-letters it.
   */
  lemma {:induction false} AlwaysFailing(key: string, payload: S.Value, now: int, worker: string, lease: int,
                                         maxAttempts: nat, n: nat)
    requires 1 <= n <= maxAttempts
    ensures var row := FailingRounds(NewRow(key, payload, now), worker, lease, maxAttempts, n);
            && row.attempts == n && row.deliveredAt.None? && row.leaseUntil.None? && row.payload == payload
            && (if n < maxAttempts
                then row.deadAt.None? && row.availableAfter == now + TotalDelay(n) && Claimable(row, row.availableAfter)
                else row.deadAt == Some(now + TotalDelay(n - 1)))
  {
    if n == 1 {
      var initial := NewRow(key, payload, now);
      assert FailingRounds(initial, worker, lease, maxAttempts, 0) == initial;
      BackoffShape(1, 1);
    } else {
      AlwaysFailing(key, payload, now, worker, lease, maxAttempts, n - 1);
      BackoffShape(n, n);
    }
  }

  /**
   A replay starts an undelivered row afresh: with its attempts reset it is the row as emitted,
   except for the time; without a reset, a row that has used up its attempts gets a single one.
   */
  lemma ReplayStartsAfresh(row: Row, now: int, worker: string, lease: int, maxAttempts: int)
    requires MayReplay(row)
    ensures Requeued(row, now, true) == NewRow(row.key, row.payload, now)
    ensures Claimable(Requeued(row, now, false), now)
    ensures FailingRound(Requeued(row, now, false), worker, lease, maxAttempts).deadAt.Some? <==>
              row.attempts + 1 >= maxAttempts
  {
  }

  // ----- the backlog report -----

  predicate Pending(row: Row, now: int) {
    Claimable(row, now)
  }

  predicate Leased(row: Row, now: int) {
    Open(row) && row.leaseUntil.Some? && row.leaseUntil.value > now
  }

  predicate Deferred(row: Row, now: int) {
    Open(row) && row.availableAfter > now
  }

  datatype Backlog = Backlog(pending: nat, leased: nat, deferred: nat, dead: nat, delivered: nat)

  function PendingIds(rows: Rows, now: int): set<string> { set id | id in rows && Pending(rows[id], now) }

  function LeasedIds(rows: Rows, now: int): set<string> { set id | id in rows && Leased(rows[id], now) }

  function DeferredIds(rows: Rows, now: int): set<string> { set id | id in rows && Deferred(rows[id], now) }

  function DeadIds(rows: Rows): set<string> { set id | id in rows && rows[id].deadAt.Some? }

  function DeliveredIds(rows: Rows): set<string> { set id | id in rows && rows[id].deliveredAt.Some? }

  function BacklogStatus(rows: Rows, now: int): Backlog {
    Backlog(|PendingIds(rows, now)|, |LeasedIds(rows, now)|, |DeferredIds(rows, now)|,
            |DeadIds(rows)|, |DeliveredIds(rows)|)
  }

  /** What each count counts, in the fields of the rows. */
  lemma BacklogCounts(rows: Rows, now: int)
    ensures var b := BacklogStatus(rows, now);
            && b.pending == |set id | id in rows && rows[id].deliveredAt == None && rows[id].deadAt == None
                                      && rows[id].availableAfter <= now
                                      && (rows[id].leaseUntil.Some? ==> rows[id].leaseUntil.value <= now)|
            && b.leased == |set id | id in rows && rows[id].deliveredAt == None && rows[id].deadAt == None
                                     && rows[id].leaseUntil.Some? && now < rows[id].leaseUntil.value|
            && b.deferred == |set id | id in rows && rows[id].deliveredAt == None && rows[id].deadAt == None
                                       && now < rows[id].availableAfter|
            && b.dead == |set id | id in rows && rows[id].deadAt != None|
            && b.delivered == |set id | id in rows && rows[id].deliveredAt != None|
  {
    hide PendingIds, LeasedIds, DeferredIds, DeadIds, DeliveredIds;
    CountedIds(rows, now);
  }

  lemma CountedIds(rows: Rows, now: int)
    ensures PendingIds(rows, now) ==
              set id | id in rows && rows[id].deliveredAt == None && rows[id].deadAt == None
                       && rows[id].availableAfter <= now
                       && (rows[id].leaseUntil.Some? ==> rows[id].leaseUntil.value <= now)
    ensures LeasedIds(rows, now) ==
              set id | id in rows && rows[id].deliveredAt == None && rows[id].deadAt == None
                       && rows[id].leaseUntil.Some? && now < rows[id].leaseUntil.value
    ensures DeferredIds(rows, now) ==
              set id | id in rows && rows[id].deliveredAt == None && rows[id].deadAt == None
                       && now < rows[id].availableAfter
    ensures DeadIds(rows) == set id | id in rows && rows[id].deadAt != None
    ensures DeliveredIds(rows) == set id | id in rows && rows[id].deliveredAt != None
  {
  }

  /** A leased row is one whose retry time has passed. */
  ghost predicate LeasesStarted(rows: Rows, now: int) {
    forall id <- rows :: rows[id].leaseUntil.Some? ==> rows[id].availableAfter <= now
  }

  lemma SplitSize<T>(whole: set<T>, a: set<T>, b: set<T>)
    requires whole == a + b
    ensures |whole| + |a * b| == |a| + |b|
  {
    assert whole == a + (b - a) && b == (b - a) + a * b;
  }

  lemma FiveSizes<T>(whole: set<T>, p: set<T>, l: set<T>, d: set<T>, x: set<T>, y: set<T>)
    requires whole == p + l + d + (x + y)
    requires p !! l && (p + l) !! d && (p + l + d) !! (x + y)
    ensures |p| + |l| + |d| + |x| + |y| == |whole| + |x * y|
  {
    SplitSize(p + l, p, l);
    SplitSize(p + l + d, p + l, d);
    SplitSize(x + y, x, y);
    SplitSize(whole, p + l + d, x + y);
    assert p * l == {} && (p + l) * d == {} && (p + l + d) * (x + y) == {};
  }

  /** Every open row is exactly one of pending, leased and deferred; no other row is any of them. */
  lemma OpenRowsPartition(rows: Rows, now: int)
    requires LeasesStarted(rows, now)
    ensures var p, l, d := PendingIds(rows, now), LeasedIds(rows, now), DeferredIds(rows, now);
            && p !! l && (p + l) !! d
            && p + l + d == set id | id in rows && Open(rows[id])
  {
  }

  /** The five counts add up to all rows plus those that are both delivered and dead. */
  lemma BacklogPartition(rows: Rows, now: int)
    requires LeasesStarted(rows, now)
    ensures var b := BacklogStatus(rows, now);
            b.pending + b.leased + b.deferred + b.dead + b.delivered == |rows| + |DeadIds(rows) * DeliveredIds(rows)|
  {
    OpenRowsPartition(rows, now);
    hide PendingIds, LeasedIds, DeferredIds;
    var p, l, d := PendingIds(rows, now), LeasedIds(rows, now), DeferredIds(rows, now);
    assert rows.Keys == p + l + d + (DeadIds(rows) + DeliveredIds(rows));
    FiveSizes(rows.Keys, p, l, d, DeadIds(rows), DeliveredIds(rows));
  }

  /** The candidate query returns as many of the pending rows as there are, and eight if there are more. */
  lemma CandidatesAreEight(rows: Rows, now: int, ids: seq<string>)
    requires IsCandidateList(rows, now, ids)
    ensures |ids| == Min(8, BacklogStatus(rows, now).pending)
  {
    var pending := PendingIds(rows, now);
    CountElements(ids);
    var rest := pending - Elements(ids);
    assert pending == Elements(ids) + rest && Elements(ids) !! rest;
    if |ids| < 8 {
      assert forall id :: id !in rest;
      assert rest == {};
    }
  }

  /** The report shows nothing pending exactly when the candidate query comes back empty. */
  lemma NothingPendingIff(rows: Rows, now: int, ids: seq<string>)
    requires IsCandidateList(rows, now, ids)
    ensures BacklogStatus(rows, now).pending == 0 <==> ids == []
    ensures ids != [] ==> forall id <- rows :: Claimable(rows[id], now) ==>
              rows[ids[0]].availableAfter <= rows[id].availableAfter
  {
    var pending := PendingIds(rows, now);
    if ids != [] {
      assert ids[0] in pending;
    } else {
      assert pending == {};
    }
    forall id <- rows | ids != [] && Claimable(rows[id], now)
      ensures rows[ids[0]].availableAfter <= rows[id].availableAfter
    {
      if id in ids {
        var i :| 0 <= i < |ids| && ids[i] == id;
      }
    }
  }
}
