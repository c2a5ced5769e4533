/**
 The hash-chained ledger of one active Passport, written in strict mode: the pre-checks run
 against an early read of the head, the append itself is one transaction, and the clean-up
 after a failed append is a sequence of further database calls.
 */
module Ledger {
  import opened Basics
  import opened Records
  import opened Seals

  datatype Request = Request(
    entryType: string,
    payload: string,
    authoredBy: string,
    sourceType: Option<string>,
    sourceId: Option<string>,
    key: Option<string>,
    expectedRevision: Option<int>,
    expectedHead: Option<Digest>,
    schemaVersion: string,
    context: string,
    requireExpected: bool)

  function FingerprintOf(req: Request): Fingerprint {
    Fingerprint(req.sourceType, req.sourceId, req.entryType, req.payload, req.schemaVersion,
                req.context, req.expectedRevision, req.expectedHead, req.requireExpected)
  }

  /** The nine fields in which two requests have to agree to be the same request. */
  predicate SameRequest(a: Request, b: Request) {
    && a.sourceType == b.sourceType && a.sourceId == b.sourceId
    && a.entryType == b.entryType && a.payload == b.payload
    && a.schemaVersion == b.schemaVersion && a.context == b.context
    && a.expectedRevision == b.expectedRevision && a.expectedHead == b.expectedHead
    && a.requireExpected == b.requireExpected
  }

  /** A recorded fingerprint is that of the request. */
  predicate Asks(f: Fingerprint, req: Request) {
    && f.sourceType == req.sourceType && f.sourceId == req.sourceId
    && f.entryType == req.entryType && f.payload == req.payload
    && f.schemaVersion == req.schemaVersion && f.context == req.context
    && f.expectedRevision == req.expectedRevision && f.expectedHead == req.expectedHead
    && f.requireExpected == req.requireExpected
  }

  /** The fingerprint tells requests apart by exactly these fields: not by key, author or time. */
  lemma FingerprintsAgreeIff(a: Request, b: Request, f: Fingerprint)
    ensures FingerprintOf(a) == FingerprintOf(b) <==> SameRequest(a, b)
    ensures f == FingerprintOf(a) <==> Asks(f, a)
  {
  }

  /** What a caller remembers of the passport row it read before its transaction. */
  datatype Snapshot = Snapshot(revision: int, head: Option<Digest>)

  /** Identifiers and the clock reading that the append draws from its environment. */
  datatype Stamp = Stamp(entryId: string, receiptId: string, at: int)

  /** The committed rows of the passport: its own row, its sequence, entries, receipts, idempotency records. */
  datatype Rows = Rows(
    passportId: string,
    revision: int,
    head: Option<Digest>,
    headEntryId: Option<string>,
    claimPending: bool,
    nextSeq: int,
    entries: seq<Row>,
    receipts: seq<Receipt>,
    idem: map<string, IdemRow>)

  function Provisioned(passportId: string): Rows {
    Rows(passportId, 0, None, None, false, 1, [], [], map[])
  }

  // ----- pre-checks -----

  datatype Admission = MissingExpectedState | Duplicate(record: IdemRow) | KeyConflict | Stale | Proceed

  predicate IsStale(req: Request, snap: Snapshot) {
    || (req.expectedRevision.Some? && req.expectedRevision.value != snap.revision)
    || (req.expectedHead.Some? && req.expectedHead != snap.head
        && !(EmptyHash(req.expectedHead) && EmptyHash(snap.head)))
  }

  function Admit(req: Request, snap: Snapshot, record: Option<IdemRow>): Admission {
    if req.requireExpected && req.expectedRevision.None? && EmptyHash(req.expectedHead) then MissingExpectedState
    else if Present(req.key) && record.Some? && record.value.fingerprint != FingerprintOf(req) then KeyConflict
    else if Present(req.key) && record.Some? && record.value.status == COMMITTED then Duplicate(record.value)
    else if IsStale(req, snap) then Stale
    else Proceed
  }

  function Lookup(rows: Rows, key: Option<string>): Option<IdemRow> {
    if Present(key) && key.value in rows.idem then Some(rows.idem[key.value]) else None
  }

  // ----- the transaction -----

  datatype CommitError = CasLost | SealUnavailable | UniqueIndexViolated

  predicate CasMatches(rows: Rows, req: Request, snap: Snapshot) {
    rows.revision == snap.revision && (req.expectedHead.Some? ==> rows.head == snap.head)
  }

  function NewBody(rows: Rows, req: Request, snap: Snapshot, stamp: Stamp): EntryBody {
    EntryBody(rows.passportId, Some(rows.nextSeq), req.entryType, req.payload, snap.head, stamp.at, req.authoredBy)
  }

  function NewSealBody(rows: Rows, req: Request, snap: Snapshot, stamp: Stamp): SealBody {
    var body := NewBody(rows, req, snap, stamp);
    SealBody(body, Some(Sha256(body)), Some(snap.revision + 1))
  }

  function NewRow(rows: Rows, req: Request, snap: Snapshot, stamp: Stamp, meta: SealMeta): Row {
    var body := NewBody(rows, req, snap, stamp);
    Row(stamp.entryId, body, Some(Sha256(body)), Some(snap.revision + 1), Some(req.schemaVersion), req.key,
        meta.algorithm, meta.keyVersion, meta.signature)
  }

  function NewReceipt(rows: Rows, req: Request, snap: Snapshot, stamp: Stamp): Receipt {
    Receipt(stamp.receiptId, stamp.entryId, Some(Sha256(NewBody(rows, req, snap, stamp))),
            rows.nextSeq, snap.revision + 1, FingerprintOf(req))
  }

  function CommittedRecord(req: Request, stamp: Stamp): IdemRow {
    IdemRow(COMMITTED, FingerprintOf(req), Some(stamp.entryId), Some(stamp.receiptId))
  }

  /** The unique indexes on entries (sequence number, entry id) and on idempotency keys. */
  predicate IndexesAllow(rows: Rows, req: Request, stamp: Stamp) {
    && (forall e <- rows.entries :: e.id != stamp.entryId && e.body.seqNo != Some(rows.nextSeq))
    && (Present(req.key) ==> req.key.value !in rows.idem)
  }

  /** The committed effect of one transaction, or the reason why it was aborted without effect. */
  function Commit(rows: Rows, req: Request, snap: Snapshot, stamp: Stamp, seal: SealEnv): Result<Rows, CommitError> {
    if !CasMatches(rows, req, snap) then Err(CasLost)
    else
      var meta := SealEntry(seal, NewSealBody(rows, req, snap, stamp));
      if meta.None? then Err(SealUnavailable)
      else if !IndexesAllow(rows, req, stamp) then Err(UniqueIndexViolated)
      else
        var entry := NewRow(rows, req, snap, stamp, meta.value);
        Ok(rows.(
           revision := snap.revision + 1,
           head := entry.contentHash,
           headEntryId := Some(entry.id),
           claimPending := false,
           nextSeq := rows.nextSeq + 1,
           entries := rows.entries + [entry],
           receipts := rows.receipts + [NewReceipt(rows, req, snap, stamp)],
           idem := if Present(req.key)
             then rows.idem[req.key.value := CommittedRecord(req, stamp)]
             else rows.idem))
  }

  // ----- clean-up after a failed append -----

  /** Gives back a claimed but unfinished revision. */
  function ReleaseClaim(rows: Rows, snap: Snapshot): Rows {
    if rows.revision == snap.revision + 1 && rows.claimPending
    then rows.(revision := snap.revision, claimPending := false)
    else rows
  }

  /** Upserts the idempotency record as FAILED; an existing record keeps its entry and receipt. */
  function RecordFailed(rows: Rows, req: Request): Rows {
    if !Present(req.key) then rows
    else if req.key.value in rows.idem then
      rows.(idem := rows.idem[req.key.value :=
              rows.idem[req.key.value].(status := FAILED, fingerprint := FingerprintOf(req))])
    else rows.(idem := rows.idem[req.key.value := IdemRow(FAILED, FingerprintOf(req), None, None)])
  }

  // ----- a call that runs without interference -----

  datatype Outcome =
    | Committed(entry: Row)
    | DuplicateSameRequest(record: IdemRow)
    | Refused(reason: Admission)
    | TransactionUnavailable
    | Failed(error: CommitError)

  function AppendAlone(rows: Rows, req: Request, stamp: Stamp, seal: SealEnv, session: bool): (Rows, Outcome) {
    var snap := Snapshot(rows.revision, rows.head);
    match Admit(req, snap, Lookup(rows, req.key))
    case Duplicate(record) => (rows, DuplicateSameRequest(record))
    case Proceed =>
      if !session then (rows, TransactionUnavailable)
      else (match Commit(rows, req, snap, stamp, seal)
            case Ok(after) => (after, Committed(after.entries[|after.entries| - 1]))
            case Err(CasLost) => (RecordFailed(rows, req), Failed(CasLost))
            case Err(e) => (RecordFailed(ReleaseClaim(rows, snap), req), Failed(e)))
    case refusal => (rows, Refused(refusal))
  }

  // ----- governed publication -----

  /** A request names the state it was prepared against. */
  predicate PinsState(req: Request) {
    req.expectedRevision.Some? || !EmptyHash(req.expectedHead)
  }

  /** The request that a governed publication hands to the ledger: a key always, the expected state always. */
  function GovernedRequest(req: Request, sourceType: string, sourceId: string): Request {
    req.(sourceType := Some(sourceType), sourceId := Some(sourceId),
    key := if Present(req.key) then req.key else Some(PublishKey(sourceType, sourceId)),
    context := if req.context == "" then sourceType + ":" + sourceId else req.context,
    requireExpected := true)
  }

  /** The idempotency key that a publication derives from its source. */
  function PublishKey(sourceType: string, sourceId: string): string {
    sourceType + ".publish:" + sourceId
  }

  function GovernedPublish(rows: Rows, req: Request, sourceType: string, sourceId: string, stamp: Stamp,
                           seal: SealEnv, session: bool): (Rows, Outcome)
  {
    if !PinsState(req) then (rows, Refused(MissingExpectedState))
    else AppendAlone(rows, GovernedRequest(req, sourceType, sourceId), stamp, seal, session)
  }

  /** The collections of the service, updated in place. */
  class PassportStore {
    const passportId: string
    var revision: int
    var head: Option<Digest>
    var headEntryId: Option<string>
    var claimPending: bool
    var nextSeq: int
    var entries: seq<Row>
    var receipts: seq<Receipt>
    var idem: map<string, IdemRow>

    function Model(): Rows
      reads this
    {
      Rows(passportId, revision, head, headEntryId, claimPending, nextSeq, entries, receipts, idem)
    }

    constructor (passportId: string)
      ensures this.passportId == passportId
      ensures Model() == Provisioned(passportId)
    {
      this.passportId := passportId;
      revision, head, headEntryId, claimPending := 0, None, None, false;
      nextSeq := 1;
      entries, receipts, idem := [], [], map[];
    }

    method NextSeq() returns (n: int)
      modifies this`nextSeq
      ensures n == old(nextSeq) && nextSeq == n + 1
    {
      nextSeq := nextSeq + 1;
      n := nextSeq - 1;
    }

    method Restore(rows: Rows)
      requires rows.passportId == passportId
      modifies this
      ensures Model() == rows
    {
      revision, head, headEntryId, claimPending := rows.revision, rows.head, rows.headEntryId, rows.claimPending;
      nextSeq, entries, receipts, idem := rows.nextSeq, rows.entries, rows.receipts, rows.idem;
    }

    /**
     The transaction body, one database call after the other. An aborted transaction
     leaves every collection as it was.
     */
    method CommitBody(req: Request, snap: Snapshot, stamp: Stamp, seal: SealEnv)
      returns (outcome: Result<Row, CommitError>)
      modifies this
      ensures outcome.Ok? ==>
                && Commit(old(Model()), req, snap, stamp, seal) == Ok(Model())
                && |entries| > 0 && outcome.value == entries[|entries| - 1]
      ensures outcome.Err? ==>
                && Commit(old(Model()), req, snap, stamp, seal) == Err(outcome.error)
                && Model() == old(Model())
    {
      hide SealEntry, FingerprintOf;
      ghost var rows := Model();
      var before := Model();
      if revision != snap.revision || (req.expectedHead.Some? && head != snap.head) {
        return Err(CasLost);
      }
      revision, claimPending := snap.revision + 1, true;
      var n := NextSeq();
      var body := EntryBody(passportId, Some(n), req.entryType, req.payload, snap.head, stamp.at, req.authoredBy);
      assert body == NewBody(rows, req, snap, stamp);
      var hash := Some(Sha256(body));
      var meta := SealEntry(seal, SealBody(body, hash, Some(snap.revision + 1)));
      if meta.None? {
        Restore(before);
        return Err(SealUnavailable);
      }
      var entry := Row(stamp.entryId, body, hash, Some(snap.revision + 1), Some(req.schemaVersion), req.key,
                       meta.value.algorithm, meta.value.keyVersion, meta.value.signature);
      if exists e <- entries :: e.id == stamp.entryId || e.body.seqNo == Some(n) {
        Restore(before);
        return Err(UniqueIndexViolated);
      }
      entries := entries + [entry];
      if revision == snap.revision + 1 {
        head, headEntryId, claimPending := hash, Some(stamp.entryId), false;
      }
      receipts := receipts +
      [Receipt(stamp.receiptId, stamp.entryId, hash, n, snap.revision + 1, FingerprintOf(req))];
      if Present(req.key) {
        if req.key.value in idem {
          Restore(before);
          return Err(UniqueIndexViolated);
        }
        idem := idem[req.key.value :=
                       IdemRow(COMMITTED, FingerprintOf(req), Some(stamp.entryId), Some(stamp.receiptId))];
      }
      outcome := Ok(entry);
    }

    method ReleaseClaimedRevision(snap: Snapshot)
      modifies this
      ensures Model() == ReleaseClaim(old(Model()), snap)
      ensures Model() == if old(revision) == snap.revision + 1 && old(claimPending)
                         then old(Model()).(revision := snap.revision, claimPending := false)
                         else old(Model())
    {
      if revision == snap.revision + 1 && claimPending {
        revision, claimPending := snap.revision, false;
      }
    }

    method UpsertFailed(req: Request)
      modifies this
      ensures Model() == RecordFailed(old(Model()), req)
    {
      if Present(req.key) {
        var k := req.key.value;
        if k in idem {
          idem := idem[k := idem[k].(status := FAILED, fingerprint := FingerprintOf(req))];
        } else {
          idem := idem[k := IdemRow(FAILED, FingerprintOf(req), None, None)];
        }
      }
    }

    /** `append_entry` when no other caller interferes. */
    method AppendEntry(req: Request, stamp: Stamp, seal: SealEnv, session: bool) returns (outcome: Outcome)
      modifies this
      ensures (Model(), outcome) == AppendAlone(old(Model()), req, stamp, seal, session)
    {
      var snap := Snapshot(revision, head);
      var admission := Admit(req, snap, Lookup(Model(), req.key));
      match admission {
        case Duplicate(record) => return DuplicateSameRequest(record);
        case Proceed =>
        case refusal => return Refused(refusal);
      }
      if !session {
        return TransactionUnavailable;
      }
      var result := CommitBody(req, snap, stamp, seal);
      match result {
        case Ok(entry) => return Committed(entry);
        case Err(e) =>
          if e != CasLost {
            ReleaseClaimedRevision(snap);
          }
          UpsertFailed(req);
          return Failed(e);
      }
    }

    /** `governed_publish`: an append that must name the state it replaces and always carries a key. */
    method PublishGoverned(req: Request, sourceType: string, sourceId: string, stamp: Stamp, seal: SealEnv,
                           session: bool)
      returns (outcome: Outcome)
      modifies this
      ensures (Model(), outcome) == GovernedPublish(old(Model()), req, sourceType, sourceId, stamp, seal, session)
      ensures outcome.Committed? ==> PinsState(req) && Present(outcome.entry.key)
    {
      hide Admit, Commit, FingerprintOf, RecordFailed, ReleaseClaim;
      if req.expectedRevision.None? && EmptyHash(req.expectedHead) {
        return Refused(MissingExpectedState);
      }
      ghost var before := Model();
      var governed := GovernedRequest(req, sourceType, sourceId);
      outcome := AppendEntry(governed, stamp, seal, session);
      if outcome.Committed? {
        CommittedKey(before, governed, stamp, seal, session);
      }
    }
  }

  lemma CommittedKey(rows: Rows, req: Request, stamp: Stamp, seal: SealEnv, session: bool)
    requires AppendAlone(rows, req, stamp, seal, session).1.Committed?
    ensures AppendAlone(rows, req, stamp, seal, session).1.entry.key == req.key
  {
  }

  /**
   Governed publications happen at most once per effective key: the key of the request or, without
   one, the key derived from the source. From a committed publication on, as long as the record of
   its key stays as it is, another one with the same effective key writes nothing, however far the
   ledger has moved: it is given back the original entry and receipt if it asks for exactly the
   same, and is turned away otherwise.
   */
  lemma PublishedOncePerKey(rows: Rows, req: Request, sourceType: string, sourceId: string,
                            stamp: Stamp, seal: SealEnv, session: bool, after: Rows,
                            later: Rows, again: Request, laterType: string, laterId: string,
                            laterStamp: Stamp, laterSeal: SealEnv, laterSession: bool)
    requires var (t, outcome) := GovernedPublish(rows, req, sourceType, sourceId, stamp, seal, session);
             outcome.Committed? && t == after
    requires GovernedRequest(req, sourceType, sourceId).key == GovernedRequest(again, laterType, laterId).key
    requires var key := GovernedRequest(req, sourceType, sourceId).key.value;
             key in after.idem && key in later.idem && later.idem[key] == after.idem[key]
    ensures var (left, outcome) :=
              GovernedPublish(later, again, laterType, laterId, laterStamp, laterSeal, laterSession);
            && left == later
            && (if again.expectedRevision.None? && EmptyHash(again.expectedHead)
                then outcome == Refused(MissingExpectedState)
                else if !SamePublication(req, sourceType, sourceId, again, laterType, laterId)
                then outcome == Refused(KeyConflict)
                else && outcome.DuplicateSameRequest? && outcome.record.status == COMMITTED
                     && outcome.record.entryId == Some(stamp.entryId)
                     && outcome.record.receiptId == Some(stamp.receiptId))
  {
    hide SealEntry, FingerprintOf, PublishKey;
    KeyAlwaysPresent(req, sourceType, sourceId);
    GovernedSame(req, sourceType, sourceId, again, laterType, laterId);
    FingerprintsAgreeIff(GovernedRequest(req, sourceType, sourceId), GovernedRequest(again, laterType, laterId),
                         FingerprintOf(req));
  }

  /** The publication context, or the source itself where the caller gave none. */
  function EffectiveContext(req: Request, sourceType: string, sourceId: string): string {
    if req.context != "" then req.context else sourceType + ":" + sourceId
  }

  /** Two publications ask for the same: same source, same content, same expected state. */
  predicate SamePublication(a: Request, sourceType: string, sourceId: string,
                            b: Request, otherType: string, otherId: string)
  {
    && sourceType == otherType && sourceId == otherId
    && a.entryType == b.entryType && a.payload == b.payload && a.schemaVersion == b.schemaVersion
    && a.expectedRevision == b.expectedRevision && a.expectedHead == b.expectedHead
    && EffectiveContext(a, sourceType, sourceId) == EffectiveContext(b, otherType, otherId)
  }

  lemma GovernedSame(a: Request, sourceType: string, sourceId: string, b: Request, otherType: string, otherId: string)
    ensures SameRequest(GovernedRequest(a, sourceType, sourceId), GovernedRequest(b, otherType, otherId)) <==>
            SamePublication(a, sourceType, sourceId, b, otherType, otherId)
  {
  }

  /** What a governed publication asks of the ledger beyond the caller's own request. */
  lemma GovernedFields(req: Request, sourceType: string, sourceId: string)
    ensures var g := GovernedRequest(req, sourceType, sourceId);
            && g.sourceType == Some(sourceType) && g.sourceId == Some(sourceId) && g.requireExpected
            && g.key == (if req.key in {None, Some("")} then Some(sourceType + ".publish:" + sourceId) else req.key)
            && g.context == EffectiveContext(req, sourceType, sourceId)
            && g.entryType == req.entryType && g.payload == req.payload && g.authoredBy == req.authoredBy
            && g.expectedRevision == req.expectedRevision && g.expectedHead == req.expectedHead
            && g.schemaVersion == req.schemaVersion
  {
  }

  const PUBLISH_MARK := ".publish:"

  /** The type of one source contains the mark, and the rest of it is the beginning of the other's id. */
  predicate Continues(shortType: string, shortId: string, longType: string, longId: string) {
    exists n :: 0 <= n <= |longType|
      && longType == shortType + PUBLISH_MARK + longType[n..] && shortId == longType[n..] + PUBLISH_MARK + longId
  }

  /** Different sources have different derived keys, unless one type contains the mark of the other's key. */
  lemma PublishKeysAgreeIff(t: string, i: string, u: string, j: string)
    ensures PublishKey(t, i) == PublishKey(u, j) <==>
            (t == u && i == j) || Continues(t, i, u, j) || Continues(u, j, t, i)
  {
    if PublishKey(t, i) == PublishKey(u, j) {
      if |t| <= |u| {
        SplitKeys(t, i, u, j);
      } else {
        SplitKeys(u, j, t, i);
      }
    }
    if Continues(t, i, u, j) {
      ContinuedKeys(t, i, u, j);
    }
    if Continues(u, j, t, i) {
      ContinuedKeys(u, j, t, i);
    }
  }

  lemma ContinuedKeys(t: string, i: string, u: string, j: string)
    requires Continues(t, i, u, j)
    ensures PublishKey(t, i) == PublishKey(u, j)
  {
    var n :| 0 <= n <= |u| && u == t + PUBLISH_MARK + u[n..] && i == u[n..] + PUBLISH_MARK + j;
    var w := u[n..];
    calc {
      PublishKey(t, i);
      t + PUBLISH_MARK + (w + PUBLISH_MARK + j);
      (t + PUBLISH_MARK + w) + PUBLISH_MARK + j;
      PublishKey(u, j);
    }
  }

  lemma MarksDoNotOverlap(k: string, a: nat, b: nat)
    requires a <= b < a + |PUBLISH_MARK| && b + |PUBLISH_MARK| <= |k|
    requires k[a..a + |PUBLISH_MARK|] == PUBLISH_MARK == k[b..b + |PUBLISH_MARK|]
    ensures a == b
  {
    assert k[b] == k[b..b + |PUBLISH_MARK|][0] == '.';
    assert k[b] == k[a..a + |PUBLISH_MARK|][b - a] == PUBLISH_MARK[b - a];
  }

  lemma SplitKeys(t: string, i: string, u: string, j: string)
    requires |t| <= |u| && PublishKey(t, i) == PublishKey(u, j)
    ensures (t == u && i == j) || Continues(t, i, u, j)
  {
    var k, m := PublishKey(t, i), |PUBLISH_MARK|;
    assert k == t + PUBLISH_MARK + i == u + PUBLISH_MARK + j;
    assert k[..|t|] == t && k[..|u|] == u && k[|t| + m..] == i && k[|u| + m..] == j;
    assert k[|t|..|t| + m] == PUBLISH_MARK == k[|u|..|u| + m];
    if |u| < |t| + m {
      MarksDoNotOverlap(k, |t|, |u|);
    } else {
      var n := |t| + m;
      assert u[n..] == k[n..|u|];
      assert u == k[..|t|] + k[|t|..n] + k[n..|u|];
      assert i == k[n..|u|] + k[|u|..|u| + m] + k[|u| + m..];
    }
  }

  lemma KeyAlwaysPresent(req: Request, sourceType: string, sourceId: string)
    ensures Present(GovernedRequest(req, sourceType, sourceId).key)
  {
    assert |PublishKey(sourceType, sourceId)| > 0;
  }

  /** The source itself is no bound: published under two keys of the caller's own, it is in the ledger twice. */
  lemma TwoKeysPublishTwice(passportId: string, req: Request, sourceType: string, sourceId: string,
                            stamp: Stamp, laterStamp: Stamp, seal: SealEnv)
    requires req.key == Some("a") && req.expectedRevision == Some(0) && req.expectedHead == None
    requires (Sealing(seal) || !seal.required) && stamp.entryId != laterStamp.entryId
    ensures var again := req.(key := Some("b"), expectedRevision := Some(1));
            var (once, first) := GovernedPublish(Provisioned(passportId), req, sourceType, sourceId, stamp, seal, true);
            var (twice, second) := GovernedPublish(once, again, sourceType, sourceId, laterStamp, seal, true);
            && first.Committed? && second.Committed? && twice.entries == [first.entry, second.entry]
            && first.entry.body.payload == second.entry.body.payload == req.payload
  {
    hide FingerprintOf;
  }
}
