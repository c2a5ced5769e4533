/**
 Any number of append calls, interleaved at every database call, over one Passport ledger in
 strict mode. A call reads the head, later consults the idempotency record, later runs its
 transaction against the head it remembers, and cleans up in further separate steps.
 */
module LedgerRuns {
  import opened Basics
  import opened Records
  import opened Seals
  import opened Ledger

  datatype Ending =
    | Wrote(n: nat)
    | Repeated(record: IdemRow)
    | Turned(reason: Admission)
    | NoTransaction
    | Broke
    | Crashed

  datatype Phase =
    | Reading(req: Request, snap: Snapshot)
    | Admitted(req: Request, snap: Snapshot)
    | Releasing(req: Request, snap: Snapshot)
    | Recording(req: Request)
    | Done(req: Request, ending: Ending)

  datatype State = State(rows: Rows, calls: map<nat, Phase>)

  /**
   One atomic step. `Fault` is any exception inside the transaction that the model does not
   otherwise produce; `Crash` is a caller that never takes another step.
   */
  datatype Step =
    | Begin(id: nat, req: Request)
    | Check(id: nat)
    | NoSession(id: nat)
    | Transact(id: nat, stamp: Stamp, seal: SealEnv)
    | Fault(id: nat)
    | Release(id: nat)
    | Record(id: nat)
    | Crash(id: nat)

  predicate Enabled(s: State, step: Step) {
    match step
    case Begin(id, _) => id !in s.calls
    case Check(id) => id in s.calls && s.calls[id].Reading?
    case NoSession(id) => id in s.calls && s.calls[id].Admitted?
    case Transact(id, _, _) => id in s.calls && s.calls[id].Admitted?
    case Fault(id) => id in s.calls && s.calls[id].Admitted?
    case Release(id) => id in s.calls && s.calls[id].Releasing?
    case Record(id) => id in s.calls && s.calls[id].Recording?
    case Crash(id) => id in s.calls && !s.calls[id].Done?
  }

  function Checked(rows: Rows, req: Request, snap: Snapshot): Phase {
    match Admit(req, snap, Lookup(rows, req.key))
    case Proceed => Admitted(req, snap)
    case Duplicate(record) => Done(req, Repeated(record))
    case refusal => Done(req, Turned(refusal))
  }

  function Apply(s: State, step: Step): State
    requires Enabled(s, step)
  {
    match step
    case Begin(id, req) =>
      s.(calls := s.calls[id := Reading(req, Snapshot(s.rows.revision, s.rows.head))])
    case Check(id) =>
      s.(calls := s.calls[id := Checked(s.rows, s.calls[id].req, s.calls[id].snap)])
    case NoSession(id) =>
      s.(calls := s.calls[id := Done(s.calls[id].req, NoTransaction)])
    case Transact(id, stamp, seal) =>
      var req, snap := s.calls[id].req, s.calls[id].snap;
      (match Commit(s.rows, req, snap, stamp, seal)
       case Ok(after) => State(after, s.calls[id := Done(req, Wrote(|after.entries|))])
       case Err(CasLost) => s.(calls := s.calls[id := Recording(req)])
       case Err(_) => s.(calls := s.calls[id := Releasing(req, snap)]))
    case Fault(id) =>
      s.(calls := s.calls[id := Releasing(s.calls[id].req, s.calls[id].snap)])
    case Release(id) =>
      State(ReleaseClaim(s.rows, s.calls[id].snap), s.calls[id := Recording(s.calls[id].req)])
    case Record(id) =>
      State(RecordFailed(s.rows, s.calls[id].req), s.calls[id := Done(s.calls[id].req, Broke)])
    case Crash(id) =>
      s.(calls := s.calls[id := Done(s.calls[id].req, Crashed)])
  }

  ghost predicate IsRun(passportId: string, states: seq<State>, steps: seq<Step>) {
    && |states| == |steps| + 1
    && states[0] == State(Provisioned(passportId), map[])
    && forall i :: 0 <= i < |steps| ==> Enabled(states[i], steps[i]) && states[i + 1] == Apply(states[i], steps[i])
  }

  // ----- what every reachable ledger looks like -----

  /** The head hash after the first `n` entries. */
  function HeadAt(entries: seq<Row>, n: nat): Option<Digest>
    requires n <= |entries|
  {
    if n == 0 then None else entries[n - 1].contentHash
  }

  ghost predicate LinkAt(passportId: string, entries: seq<Row>, i: nat)
    requires i < |entries|
  {
    && entries[i].body.passportId == passportId
    && entries[i].body.seqNo == Some(i + 1)
    && entries[i].revision == Some(i + 1)
    && entries[i].body.priorHash == HeadAt(entries, i)
    && entries[i].contentHash == Some(Sha256(entries[i].body))
  }

  ghost predicate Linked(passportId: string, entries: seq<Row>) {
    forall i: nat {:trigger LinkAt(passportId, entries, i)} :: i < |entries| ==> LinkAt(passportId, entries, i)
  }

  ghost predicate DistinctIds(entries: seq<Row>) {
    forall i, j :: 0 <= i < j < |entries| ==> entries[i].id != entries[j].id
  }

  ghost predicate ReceiptAt(rows: Rows, i: nat) {
    && i < |rows.receipts| && i < |rows.entries|
    && rows.receipts[i].entryId == rows.entries[i].id
    && rows.receipts[i].hash == rows.entries[i].contentHash
    && rows.receipts[i].sequence == rows.receipts[i].revision == i + 1
  }

  ghost predicate Receipted(rows: Rows) {
    && |rows.receipts| == |rows.entries|
    && forall i: nat {:trigger ReceiptAt(rows, i)} :: i < |rows.entries| ==> ReceiptAt(rows, i)
  }

  /** Entry `i` is the one that idempotency record `record` of `key` was written with. */
  ghost predicate Backs(rows: Rows, key: string, record: IdemRow, i: nat) {
    && i < |rows.entries| && i < |rows.receipts|
    && rows.entries[i].key == Some(key)
    && record.entryId == Some(rows.entries[i].id)
    && record.receiptId == Some(rows.receipts[i].id)
  }

  /** A keyed entry has an idempotency record that still names it, whatever the record's status. */
  ghost predicate KeyAt(rows: Rows, i: nat)
    requires i < |rows.entries|
  {
    Present(rows.entries[i].key) ==>
      && rows.entries[i].key.value in rows.idem
      && Backs(rows, rows.entries[i].key.value, rows.idem[rows.entries[i].key.value], i)
  }

  /** A committed idempotency record names an entry and a receipt written for its fingerprint. */
  ghost predicate RecordOk(rows: Rows, key: string)
    requires key in rows.idem
  {
    rows.idem[key].status == COMMITTED ==>
      exists i: nat :: Backs(rows, key, rows.idem[key], i)
        && rows.receipts[i].fingerprint == rows.idem[key].fingerprint
  }

  ghost predicate KeysIndexed(rows: Rows) {
    && (forall i: nat {:trigger KeyAt(rows, i)} :: i < |rows.entries| ==> KeyAt(rows, i))
    && (forall k {:trigger RecordOk(rows, k)} :: k in rows.idem ==> RecordOk(rows, k))
  }

  ghost predicate RowsOk(rows: Rows) {
    && rows.revision == |rows.entries|
    && rows.nextSeq == |rows.entries| + 1
    && !rows.claimPending
    && rows.head == HeadAt(rows.entries, |rows.entries|)
    && rows.headEntryId == (if rows.entries == [] then None else Some(rows.entries[|rows.entries| - 1].id))
    && Linked(rows.passportId, rows.entries)
    && DistinctIds(rows.entries)
    && Receipted(rows)
    && KeysIndexed(rows)
  }

  /** A remembered head is the head that belonged to the remembered revision. */
  ghost predicate SnapOk(rows: Rows, snap: Snapshot) {
    0 <= snap.revision <= |rows.entries| && snap.head == HeadAt(rows.entries, snap.revision)
  }

  /** Entry `n` is what `req` asked for, written on top of exactly the state that `req` named. */
  ghost predicate Fulfils(entries: seq<Row>, req: Request, n: nat) {
    && 1 <= n <= |entries|
    && entries[n - 1].body.entryType == req.entryType
    && entries[n - 1].body.payload == req.payload
    && entries[n - 1].body.authoredBy == req.authoredBy
    && entries[n - 1].key == req.key
    && entries[n - 1].schemaVersion == Some(req.schemaVersion)
    && (req.expectedRevision.Some? ==> req.expectedRevision.value == n - 1)
    && (!EmptyHash(req.expectedHead) ==> req.expectedHead == HeadAt(entries, n - 1))
  }

  ghost predicate PhaseOk(rows: Rows, phase: Phase) {
    match phase
    case Reading(req, snap) => SnapOk(rows, snap)
    case Admitted(req, snap) => SnapOk(rows, snap) && !IsStale(req, snap) && (req.requireExpected ==> PinsState(req))
    case Releasing(req, snap) => SnapOk(rows, snap)
    case Recording(_) => true
    case Done(req, Wrote(n)) => Fulfils(rows.entries, req, n) && (req.requireExpected ==> PinsState(req))
    case Done(_, _) => true
  }

  ghost predicate WroteEntry(s: State, id: nat, n: nat) {
    id in s.calls && s.calls[id].Done? && s.calls[id].ending == Wrote(n)
  }

  ghost predicate HasAuthor(s: State, n: nat) {
    exists id :: WroteEntry(s, id, n)
  }

  ghost predicate Authored(s: State) {
    && (forall id, id', n :: WroteEntry(s, id, n) && WroteEntry(s, id', n) ==> id == id')
    && (forall n: nat {:trigger HasAuthor(s, n)} :: 1 <= n <= |s.rows.entries| ==> HasAuthor(s, n))
  }

  ghost predicate Inv(s: State) {
    && RowsOk(s.rows)
    && (forall id <- s.calls :: PhaseOk(s.rows, s.calls[id]))
    && Authored(s)
  }

  // ----- one step -----

  /** The whole ledger after a commit, field by field. */
  lemma CommitShape(rows: Rows, req: Request, snap: Snapshot, stamp: Stamp, seal: SealEnv, after: Rows)
    requires Commit(rows, req, snap, stamp, seal) == Ok(after)
    ensures |after.entries| == |rows.entries| + 1
    ensures after.entries[..|rows.entries|] == rows.entries
    ensures var entry := after.entries[|rows.entries|];
            && entry.body == EntryBody(rows.passportId, Some(rows.nextSeq), req.entryType, req.payload, snap.head,
                                       stamp.at, req.authoredBy)
            && entry.id == stamp.entryId && entry.contentHash == Some(Sha256(entry.body))
            && entry.revision == Some(snap.revision + 1)
            && entry.schemaVersion == Some(req.schemaVersion) && entry.key == req.key
            && after.head == entry.contentHash && after.headEntryId == Some(entry.id)
            && SealedBy(entry, seal)
    ensures after.passportId == rows.passportId && !after.claimPending
    ensures after.revision == snap.revision + 1 && after.nextSeq == rows.nextSeq + 1
    ensures |after.receipts| == |rows.receipts| + 1 && after.receipts[..|rows.receipts|] == rows.receipts
    ensures var receipt := after.receipts[|rows.receipts|];
            && receipt.id == stamp.receiptId && receipt.entryId == stamp.entryId && receipt.hash == after.head
            && receipt.sequence == rows.nextSeq && receipt.revision == snap.revision + 1
            && Asks(receipt.fingerprint, req)
    ensures forall key :: key in after.idem <==> key in rows.idem || (key != "" && req.key == Some(key))
    ensures forall key <- rows.idem :: (key != "" && req.key == Some(key)) || after.idem[key] == rows.idem[key]
    ensures Present(req.key) ==>
              var record := after.idem[req.key.value];
              && record.status == COMMITTED && Asks(record.fingerprint, req)
              && record.entryId == Some(stamp.entryId) && record.receiptId == Some(stamp.receiptId)
  {
  }

  lemma CommitKeepsChain(rows: Rows, req: Request, snap: Snapshot, stamp: Stamp, seal: SealEnv, after: Rows)
    requires RowsOk(rows) && SnapOk(rows, snap)
    requires Commit(rows, req, snap, stamp, seal) == Ok(after)
    ensures Linked(after.passportId, after.entries)
    ensures after.head == HeadAt(after.entries, |after.entries|)
  {
    forall i: nat | i < |after.entries|
      ensures LinkAt(after.passportId, after.entries, i)
    {
      if i < |rows.entries| {
        assert LinkAt(rows.passportId, rows.entries, i);
      }
    }
  }

  lemma CommitKeepsReceipts(rows: Rows, req: Request, snap: Snapshot, stamp: Stamp, seal: SealEnv, after: Rows)
    requires RowsOk(rows) && SnapOk(rows, snap)
    requires Commit(rows, req, snap, stamp, seal) == Ok(after)
    ensures DistinctIds(after.entries) && Receipted(after)
  {
    forall i: nat | i < |after.entries|
      ensures ReceiptAt(after, i)
    {
      if i < |rows.entries| {
        assert ReceiptAt(rows, i);
      }
    }
  }

  lemma CommitKeepsKeys(rows: Rows, req: Request, snap: Snapshot, stamp: Stamp, seal: SealEnv, after: Rows)
    requires RowsOk(rows) && SnapOk(rows, snap)
    requires Commit(rows, req, snap, stamp, seal) == Ok(after)
    ensures KeysIndexed(after)
  {
    forall i: nat | i < |after.entries|
      ensures KeyAt(after, i)
    {
      if i < |rows.entries| {
        assert KeyAt(rows, i);
      }
    }
    forall k | k in after.idem
      ensures RecordOk(after, k)
    {
      if Present(req.key) && k == req.key.value {
        assert Backs(after, k, after.idem[k], |rows.entries|);
      } else {
        assert RecordOk(rows, k);
        RecordSurvives(rows, after, k);
      }
    }
  }

  lemma RecordSurvives(rows: Rows, after: Rows, key: string)
    requires key in rows.idem && RecordOk(rows, key)
    requires key in after.idem && after.idem[key] == rows.idem[key]
    requires rows.entries <= after.entries && rows.receipts <= after.receipts
    ensures RecordOk(after, key)
  {
    if rows.idem[key].status == COMMITTED {
      var i: nat :| Backs(rows, key, rows.idem[key], i) && rows.receipts[i].fingerprint == rows.idem[key].fingerprint;
      assert Backs(after, key, after.idem[key], i);
    }
  }

  /** What other callers remember survives a commit, because history is only extended. */
  lemma PhaseSurvives(rows: Rows, after: Rows, phase: Phase)
    requires PhaseOk(rows, phase)
    requires rows.entries <= after.entries
    ensures PhaseOk(after, phase)
  {
  }

  lemma RecordKeepsRows(rows: Rows, req: Request)
    requires RowsOk(rows)
    ensures RowsOk(RecordFailed(rows, req))
    ensures RecordFailed(rows, req).entries == rows.entries
  {
    var after := RecordFailed(rows, req);
    forall i: nat | i < |after.entries|
      ensures ReceiptAt(after, i) && KeyAt(after, i)
    {
      assert ReceiptAt(rows, i) && KeyAt(rows, i);
    }
    forall k | k in after.idem
      ensures RecordOk(after, k)
    {
      if k in rows.idem && after.idem[k] == rows.idem[k] {
        assert RecordOk(rows, k);
        RecordSurvives(rows, after, k);
      }
    }
  }

  lemma QuietStepKeepsAuthors(s: State, step: Step)
    requires Inv(s) && Enabled(s, step)
    requires Apply(s, step).rows.entries == s.rows.entries
    ensures Authored(Apply(s, step))
  {
    var t := Apply(s, step);
    forall id, n
      ensures WroteEntry(t, id, n) <==> WroteEntry(s, id, n)
    {
    }
    forall n: nat | 1 <= n <= |t.rows.entries|
      ensures HasAuthor(t, n)
    {
      assert HasAuthor(s, n);
      var id :| WroteEntry(s, id, n);
      assert WroteEntry(t, id, n);
    }
  }

  lemma CommitKeepsRows(rows: Rows, req: Request, snap: Snapshot, stamp: Stamp, seal: SealEnv, after: Rows)
    requires RowsOk(rows) && SnapOk(rows, snap)
    requires Commit(rows, req, snap, stamp, seal) == Ok(after)
    ensures RowsOk(after)
  {
    CommitKeepsChain(rows, req, snap, stamp, seal, after);
    CommitKeepsReceipts(rows, req, snap, stamp, seal, after);
    CommitKeepsKeys(rows, req, snap, stamp, seal, after);
  }

  lemma CommitFulfils(rows: Rows, req: Request, snap: Snapshot, stamp: Stamp, seal: SealEnv, after: Rows)
    requires RowsOk(rows) && SnapOk(rows, snap) && !IsStale(req, snap)
    requires Commit(rows, req, snap, stamp, seal) == Ok(after)
    ensures Fulfils(after.entries, req, |after.entries|)
  {
    CommitShape(rows, req, snap, stamp, seal, after);
    assert HeadAt(after.entries, |rows.entries|) == HeadAt(rows.entries, |rows.entries|);
  }

  lemma CommitKeepsAuthors(s: State, id: nat, stamp: Stamp, seal: SealEnv, after: Rows)
    requires Inv(s) && Enabled(s, Transact(id, stamp, seal))
    requires Commit(s.rows, s.calls[id].req, s.calls[id].snap, stamp, seal) == Ok(after)
    requires |after.entries| == |s.rows.entries| + 1
    ensures Authored(Apply(s, Transact(id, stamp, seal)))
  {
    hide Commit, RowsOk;
    var t, n := Apply(s, Transact(id, stamp, seal)), |after.entries|;
    forall other: nat, m: nat
      ensures WroteEntry(t, other, m) <==> (if other == id then m == n else WroteEntry(s, other, m))
    {
    }
    forall other: nat, m: nat | WroteEntry(s, other, m)
      ensures m < n
    {
      assert PhaseOk(s.rows, s.calls[other]);
    }
    forall m: nat | 1 <= m <= n
      ensures HasAuthor(t, m)
    {
      if m == n {
        assert WroteEntry(t, id, m);
      } else {
        assert HasAuthor(s, m);
        var who :| WroteEntry(s, who, m);
        assert WroteEntry(t, who, m);
      }
    }
  }

  lemma TransactKeepsInv(s: State, id: nat, stamp: Stamp, seal: SealEnv)
    requires Inv(s) && Enabled(s, Transact(id, stamp, seal))
    ensures Inv(Apply(s, Transact(id, stamp, seal)))
    ensures s.rows.entries <= Apply(s, Transact(id, stamp, seal)).rows.entries
  {
    hide Commit, RowsOk, Authored, IsStale;
    var req, snap := s.calls[id].req, s.calls[id].snap;
    assert PhaseOk(s.rows, s.calls[id]);
    var t := Apply(s, Transact(id, stamp, seal));
    match Commit(s.rows, req, snap, stamp, seal)
    case Err(_) => QuietStepKeepsAuthors(s, Transact(id, stamp, seal));
    case Ok(after) =>
      CommitShape(s.rows, req, snap, stamp, seal, after);
      CommitKeepsRows(s.rows, req, snap, stamp, seal, after);
      CommitFulfils(s.rows, req, snap, stamp, seal, after);
      CommitKeepsAuthors(s, id, stamp, seal, after);
      forall other <- t.calls
        ensures PhaseOk(t.rows, t.calls[other])
      {
        if other != id {
          PhaseSurvives(s.rows, after, s.calls[other]);
        }
      }
  }

  lemma StepKeepsInv(s: State, step: Step)
    requires Inv(s) && Enabled(s, step)
    ensures Inv(Apply(s, step))
    ensures s.rows.entries <= Apply(s, step).rows.entries
  {
    match step
    case Transact(id, stamp, seal) => TransactKeepsInv(s, id, stamp, seal);
    case Record(id) =>
      RecordKeepsRows(s.rows, s.calls[id].req);
      QuietStepKeepsAuthors(s, step);
    case Release(id) =>
      assert PhaseOk(s.rows, s.calls[id]);
      QuietStepKeepsAuthors(s, step);
    case _ => QuietStepKeepsAuthors(s, step);
  }

  // ----- whole runs -----

  lemma {:induction false} RunKeepsInv(passportId: string, states: seq<State>, steps: seq<Step>, k: nat)
    requires IsRun(passportId, states, steps) && k < |states|
    ensures Inv(states[k]) && states[k].rows.passportId == passportId
  {
    if k > 0 {
      RunKeepsInv(passportId, states, steps, k - 1);
      StepKeepsInv(states[k - 1], steps[k - 1]);
      StepKeepsPassport(states[k - 1], steps[k - 1]);
    }
  }

  lemma StepKeepsPassport(s: State, step: Step)
    requires Enabled(s, step)
    ensures Apply(s, step).rows.passportId == s.rows.passportId
  {
  }

  /**
   In every reachable state the entries carry sequence number and revision 1..n in commit
   order, each is chained to its predecessor, and the passport row and the sequence row agree.
   */
  lemma ChainTheorem(passportId: string, states: seq<State>, steps: seq<Step>, k: nat)
    requires IsRun(passportId, states, steps) && k < |states|
    ensures var rows := states[k].rows;
            && rows.revision == |rows.entries| && rows.nextSeq == |rows.entries| + 1 && !rows.claimPending
            && rows.head == HeadAt(rows.entries, |rows.entries|)
            && Linked(passportId, rows.entries) && DistinctIds(rows.entries) && Receipted(rows)
  {
    RunKeepsInv(passportId, states, steps, k);
  }

  /** Accepted history is never rewritten: an earlier ledger is a prefix of every later one. */
  lemma {:induction false} HistoryOnlyGrows(passportId: string, states: seq<State>, steps: seq<Step>, i: nat, j: nat)
    requires IsRun(passportId, states, steps) && i <= j < |states|
    ensures states[i].rows.entries <= states[j].rows.entries
    decreases j
  {
    if i < j {
      HistoryOnlyGrows(passportId, states, steps, i, j - 1);
      RunKeepsInv(passportId, states, steps, j - 1);
      StepKeepsInv(states[j - 1], steps[j - 1]);
    }
  }

  /** Heads never repeat: the hashes after different numbers of entries differ. */
  lemma HeadsNeverRepeat(passportId: string, entries: seq<Row>, m: nat, n: nat)
    requires Linked(passportId, entries) && m < n <= |entries|
    ensures HeadAt(entries, m) != HeadAt(entries, n)
    ensures HeadAt(entries, n) != None
  {
    assert LinkAt(passportId, entries, n - 1);
    if m > 0 {
      assert LinkAt(passportId, entries, m - 1);
    }
  }

  /** Two requests expect the same revision, or the same non-empty head. */
  predicate SamePin(p: Request, q: Request) {
    || (p.expectedRevision.Some? && p.expectedRevision == q.expectedRevision)
    || (!EmptyHash(p.expectedHead) && p.expectedHead == q.expectedHead)
  }

  /**
   No lost update. A call that wrote entry `n` found exactly the revision and the head it
   expected, so two calls that expect the same revision, or the same non-empty head, cannot
   both have written.
   */
  lemma NoLostUpdate(passportId: string, states: seq<State>, steps: seq<Step>, k: nat, a: nat, b: nat, m: nat, n: nat)
    requires IsRun(passportId, states, steps) && k < |states|
    requires WroteEntry(states[k], a, m) && WroteEntry(states[k], b, n)
    ensures Fulfils(states[k].rows.entries, states[k].calls[a].req, m)
    ensures SamePin(states[k].calls[a].req, states[k].calls[b].req) ==> a == b
  {
    var s := states[k];
    RunKeepsInv(passportId, states, steps, k);
    assert PhaseOk(s.rows, s.calls[a]) && PhaseOk(s.rows, s.calls[b]);
    if m < n {
      if m - 1 < n - 1 {
        HeadsNeverRepeat(passportId, s.rows.entries, m - 1, n - 1);
      }
    } else if n < m {
      HeadsNeverRepeat(passportId, s.rows.entries, n - 1, m - 1);
    }
  }

  /** A governed publication never reaches the ledger without naming the state it replaces. */
  lemma GovernedWritesArePinned(passportId: string, states: seq<State>, steps: seq<Step>, k: nat, id: nat, n: nat)
    requires IsRun(passportId, states, steps) && k < |states|
    requires WroteEntry(states[k], id, n) && states[k].calls[id].req.requireExpected
    ensures var req := states[k].calls[id].req;
            && 1 <= n <= |states[k].rows.entries|
            && ((req.expectedRevision == Some(n - 1))
            || (n > 1 && req.expectedHead == states[k].rows.entries[n - 2].contentHash))
  {
    RunKeepsInv(passportId, states, steps, k);
    assert PhaseOk(states[k].rows, states[k].calls[id]);
  }

  /** At most one ledger entry per idempotency key, in every reachable state. */
  lemma OneEntryPerKey(passportId: string, states: seq<State>, steps: seq<Step>, k: nat, i: nat, j: nat)
    requires IsRun(passportId, states, steps) && k < |states|
    requires i < |states[k].rows.entries| && j < |states[k].rows.entries|
    requires Present(states[k].rows.entries[i].key)
    requires states[k].rows.entries[i].key == states[k].rows.entries[j].key
    ensures i == j
  {
    RunKeepsInv(passportId, states, steps, k);
    var rows := states[k].rows;
    assert KeyAt(rows, i) && KeyAt(rows, j);
  }

  // ----- exactly when an append commits -----

  /**
   On a reachable ledger with a remembered head, the transaction commits exactly when the
   remembered revision is still current, a seal can be made or is not required, the entry id
   is new and the idempotency key has never been recorded. The head clause of the
   compare-and-set and the sequence index never decide: a matching revision implies both.
   */
  lemma CommitsIff(rows: Rows, req: Request, snap: Snapshot, stamp: Stamp, seal: SealEnv)
    requires RowsOk(rows) && SnapOk(rows, snap)
    ensures Commit(rows, req, snap, stamp, seal).Ok? <==>
              && rows.revision == snap.revision
              && (Sealing(seal) || !seal.required)
              && (forall e <- rows.entries :: e.id != stamp.entryId)
              && (Present(req.key) ==> req.key.value !in rows.idem)
  {
    forall e | e in rows.entries
      ensures e.body.seqNo != Some(rows.nextSeq)
    {
      var i :| 0 <= i < |rows.entries| && rows.entries[i] == e;
      assert LinkAt(rows.passportId, rows.entries, i);
    }
  }

  /** Why the transaction of a remembered head is aborted, if it is. */
  lemma CommitErrors(rows: Rows, req: Request, snap: Snapshot, stamp: Stamp, seal: SealEnv)
    requires RowsOk(rows) && SnapOk(rows, snap)
    ensures var outcome := Commit(rows, req, snap, stamp, seal);
            && (outcome == Err(CasLost) <==> rows.revision != snap.revision)
            && (outcome == Err(SealUnavailable) <==>
                rows.revision == snap.revision && !Sealing(seal) && seal.required)
            && (outcome == Err(UniqueIndexViolated) <==>
                && rows.revision == snap.revision && (Sealing(seal) || !seal.required)
                && ((exists e <- rows.entries :: e.id == stamp.entryId)
                    || (Present(req.key) && req.key.value in rows.idem)))
  {
    CommitsIff(rows, req, snap, stamp, seal);
  }

  /** The same on any rows, sound or not: what is compared, and which indexes can refuse the entry. */
  lemma CommitAnswers(rows: Rows, req: Request, snap: Snapshot, stamp: Stamp, seal: SealEnv)
    ensures var outcome := Commit(rows, req, snap, stamp, seal);
            var lost := rows.revision != snap.revision || (req.expectedHead != None && rows.head != snap.head);
            var unsealed := seal.required && !Sealing(seal);
            && (outcome == Err(CasLost) <==> lost)
            && (outcome == Err(SealUnavailable) <==> !lost && unsealed)
            && (outcome == Err(UniqueIndexViolated) <==>
                && !lost && !unsealed
                && ((exists e <- rows.entries :: e.id == stamp.entryId || e.body.seqNo == Some(rows.nextSeq))
                    || (req.key !in {None, Some("")} && req.key.value in rows.idem)))
  {
    assert SealEntry(seal, NewSealBody(rows, req, snap, stamp)).None? <==> seal.required && !Sealing(seal);
    assert IndexesAllow(rows, req, stamp) <==>
           && !(exists e <- rows.entries :: e.id == stamp.entryId || e.body.seqNo == Some(rows.nextSeq))
           && !(req.key !in {None, Some("")} && req.key.value in rows.idem);
    hide SealEntry, IndexesAllow, NewBody, NewRow, NewReceipt, CommittedRecord;
  }

  /** A request is current exactly if the revision and the head that it names, if any, are those of the passport. */
  lemma StaleIff(req: Request, snap: Snapshot)
    ensures !IsStale(req, snap) <==>
            && req.expectedRevision in {None, Some(snap.revision)}
            && (req.expectedHead == None || req.expectedHead == snap.head
                || (req.expectedHead == Some(Text("")) && snap.head in {None, Some(Text(""))}))
  {
  }

  /** What the pre-check answers, over the fields of the request and of the record of its key. */
  lemma AdmitAnswers(req: Request, snap: Snapshot, rows: Rows)
    ensures var answer := Admit(req, snap, Lookup(rows, req.key));
            var unpinned := req.requireExpected && req.expectedRevision == None
                            && req.expectedHead in {None, Some(Text(""))};
            var recorded := req.key.Some? && req.key != Some("") && req.key.value in rows.idem;
            && (answer == MissingExpectedState <==> unpinned)
            && (answer == KeyConflict <==> !unpinned && recorded && !Asks(rows.idem[req.key.value].fingerprint, req))
            && (answer.Duplicate? <==>
                && !unpinned && recorded && Asks(rows.idem[req.key.value].fingerprint, req)
                && rows.idem[req.key.value].status == COMMITTED)
            && (answer.Duplicate? ==> answer.record == rows.idem[req.key.value])
            && (answer in {Stale, Proceed} ==> (answer == Stale <==> IsStale(req, snap)))
  {
    if req.key.Some? && req.key.value in rows.idem {
      FingerprintsAgreeIff(req, req, rows.idem[req.key.value].fingerprint);
    }
  }

  /** What an uninterrupted append of a sound ledger answers behind its pre-check, and which rows it leaves. */
  lemma AppendAnswers(rows: Rows, req: Request, stamp: Stamp, seal: SealEnv, session: bool)
    requires RowsOk(rows)
    ensures var snap := Snapshot(rows.revision, rows.head);
            var answer := Admit(req, snap, Lookup(rows, req.key));
            var (after, outcome) := AppendAlone(rows, req, stamp, seal, session);
            && (answer.Duplicate? ==> outcome == DuplicateSameRequest(answer.record) && after == rows)
            && (!answer.Duplicate? && answer != Proceed ==> outcome == Refused(answer) && after == rows)
            && (answer == Proceed ==>
                  if !session then outcome == TransactionUnavailable && after == rows
                  else if !Sealing(seal) && seal.required
                  then outcome == Failed(SealUnavailable) && after == RecordFailed(rows, req)
                  else if (exists e <- rows.entries :: e.id == stamp.entryId)
                          || (Present(req.key) && req.key.value in rows.idem)
                  then outcome == Failed(UniqueIndexViolated) && after == RecordFailed(rows, req)
                  else && Commit(rows, req, snap, stamp, seal) == Ok(after)
                       && outcome == Committed(after.entries[|after.entries| - 1]))
  {
    hide Admit, FingerprintOf, RecordFailed, Commit;
    CommitErrors(rows, req, Snapshot(rows.revision, rows.head), stamp, seal);
  }

  /** A failure changes one record: FAILED, for this request, still naming the entry it named, if any. */
  lemma FailureRecord(rows: Rows, req: Request)
    ensures var after := RecordFailed(rows, req);
            && after == rows.(idem := after.idem)
            && (!Present(req.key) ==> after == rows)
            && (Present(req.key) ==>
                  var key := req.key.value;
                  && after.idem.Keys == rows.idem.Keys + {key}
                  && (forall other <- rows.idem :: other != key ==> after.idem[other] == rows.idem[other])
                  && after.idem[key].status == FAILED && Asks(after.idem[key].fingerprint, req)
                  && after.idem[key].entryId == (if key in rows.idem then rows.idem[key].entryId else None)
                  && after.idem[key].receiptId == (if key in rows.idem then rows.idem[key].receiptId else None))
  {
  }

  lemma StepSparesKey(s: State, step: Step, key: string)
    requires Enabled(s, step) && key != "" && key in s.rows.idem
    ensures key in Apply(s, step).rows.idem
    ensures |s.rows.entries| <= |Apply(s, step).rows.entries|
    ensures Apply(s, step).rows.entries[..|s.rows.entries|] == s.rows.entries
    ensures forall x :: |s.rows.entries| <= x < |Apply(s, step).rows.entries| ==>
              Apply(s, step).rows.entries[x].key != Some(key)
  {
    if step.Transact? {
      match Commit(s.rows, s.calls[step.id].req, s.calls[step.id].snap, step.stamp, step.seal)
      case Ok(after) => CommitShape(s.rows, s.calls[step.id].req, s.calls[step.id].snap, step.stamp, step.seal, after);
      case Err(_) =>
    }
  }

  /** An idempotency key that has a record, committed or failed, is never written with again. */
  lemma {:induction false} RecordedKeyIsSpent(
    passportId: string, states: seq<State>, steps: seq<Step>, i: nat, j: nat, key: string)
    requires IsRun(passportId, states, steps) && i <= j < |states|
    requires key != "" && key in states[i].rows.idem
    ensures key in states[j].rows.idem && |states[i].rows.entries| <= |states[j].rows.entries|
    ensures forall x :: |states[i].rows.entries| <= x < |states[j].rows.entries| ==>
              states[j].rows.entries[x].key != Some(key)
    decreases j
  {
    if i < j {
      RecordedKeyIsSpent(passportId, states, steps, i, j - 1, key);
      StepSparesKey(states[j - 1], steps[j - 1], key);
    }
  }

  /**
   The retry that the FAILED status is meant to allow does not exist: wherever the record of the
   key says FAILED for the same request, that request is admitted again unless it is stale, and
   fails again on the unique key, whatever seal, identifiers and head it meets, and leaves no entry.
   */
  lemma RetryAfterFailureFails(later: Rows, req: Request, snap: Snapshot, stamp: Stamp, seal: SealEnv)
    requires Present(req.key) && req.key.value in later.idem
    requires later.idem[req.key.value].status == FAILED
    requires Asks(later.idem[req.key.value].fingerprint, req)
    requires req.requireExpected ==> PinsState(req)
    ensures Admit(req, snap, Lookup(later, req.key)) == if IsStale(req, snap) then Stale else Proceed
    ensures Commit(later, req, snap, stamp, seal).Err?
  {
  }

  /**
   A governed publication of a sound ledger commits exactly if it names its state, the state is the
   current one, a session and a seal can be had, the entry id is new, and its effective key has no record.
   */
  lemma GovernedCommitsIff(rows: Rows, req: Request, sourceType: string, sourceId: string, stamp: Stamp, seal: SealEnv,
                           session: bool)
    requires RowsOk(rows)
    ensures var governed := GovernedRequest(req, sourceType, sourceId);
            GovernedPublish(rows, req, sourceType, sourceId, stamp, seal, session).1.Committed? <==>
            && PinsState(req) && !IsStale(req, Snapshot(rows.revision, rows.head))
            && session && (Sealing(seal) || !seal.required)
            && (forall e <- rows.entries :: e.id != stamp.entryId)
            && governed.key.value !in rows.idem
  {
    hide FingerprintOf, PublishKey, Commit, IsStale;
    KeyAlwaysPresent(req, sourceType, sourceId);
    var governed := GovernedRequest(req, sourceType, sourceId);
    var snap := Snapshot(rows.revision, rows.head);
    SameStaleness(req, governed, snap);
    CommitsIff(rows, governed, snap, stamp, seal);
  }

  lemma SameStaleness(p: Request, q: Request, snap: Snapshot)
    requires p.expectedRevision == q.expectedRevision && p.expectedHead == q.expectedHead
    ensures IsStale(p, snap) == IsStale(q, snap)
  {
  }

  // ----- repeating a committed request -----

  ghost predicate Active(s: State, id: nat, key: string) {
    id in s.calls && !s.calls[id].Done? && s.calls[id].req.key == Some(key)
  }

  /** Calls that share the key never overlap: a new one begins only when the earlier ones have ended. */
  ghost predicate NoOverlap(states: seq<State>, steps: seq<Step>, key: string)
    requires |states| == |steps| + 1
  {
    forall i :: 0 <= i < |steps| && steps[i].Begin? && steps[i].req.key == Some(key) ==>
      forall id :: !Active(states[i], id, key)
  }

  ghost predicate KeyInv(s: State, key: string) {
    && (forall a, b :: Active(s, a, key) && Active(s, b, key) ==> a == b)
    && (key in s.rows.idem && s.rows.idem[key].status == COMMITTED ==>
          forall a :: Active(s, a, key) ==> s.calls[a].Reading?)
    && (forall id: nat, n: nat :: WroteEntry(s, id, n) && s.calls[id].req.key == Some(key) ==>
          && key in s.rows.idem
          && s.rows.idem[key].status == COMMITTED
          && s.rows.idem[key].fingerprint == FingerprintOf(s.calls[id].req)
          && n >= 1 && Backs(s.rows, key, s.rows.idem[key], n - 1))
  }

  lemma AbortKeepsKeyInv(s: State, id: nat, stamp: Stamp, seal: SealEnv, key: string)
    requires Inv(s) && KeyInv(s, key) && Enabled(s, Transact(id, stamp, seal))
    requires Apply(s, Transact(id, stamp, seal)).rows == s.rows
    requires Commit(s.rows, s.calls[id].req, s.calls[id].snap, stamp, seal).Err?
    ensures KeyInv(Apply(s, Transact(id, stamp, seal)), key)
  {
    var t := Apply(s, Transact(id, stamp, seal));
    forall a: nat | Active(t, a, key)
      ensures Active(s, a, key)
    {
    }
    forall a: nat, n: nat | WroteEntry(t, a, n)
      ensures WroteEntry(s, a, n)
    {
    }
    if s.calls[id].req.key == Some(key) {
      assert Active(s, id, key);
    }
  }

  lemma CommitKeepsKeyInv(s: State, id: nat, stamp: Stamp, seal: SealEnv, key: string, after: Rows)
    requires Inv(s) && KeyInv(s, key) && key != "" && Enabled(s, Transact(id, stamp, seal))
    requires Commit(s.rows, s.calls[id].req, s.calls[id].snap, stamp, seal) == Ok(after)
    ensures KeyInv(Apply(s, Transact(id, stamp, seal)), key)
  {
    var t := Apply(s, Transact(id, stamp, seal));
    var req, snap := s.calls[id].req, s.calls[id].snap;
    CommitShape(s.rows, req, snap, stamp, seal, after);
    forall a: nat | Active(t, a, key)
      ensures a != id && Active(s, a, key)
    {
    }
    if req.key == Some(key) {
      assert Active(s, id, key);
      assert Backs(after, key, after.idem[key], |s.rows.entries|);
    } else {
      assert key in after.idem <==> key in s.rows.idem;
      assert key in s.rows.idem ==> after.idem[key] == s.rows.idem[key];
    }
    forall a: nat, n: nat | WroteEntry(t, a, n) && t.calls[a].req.key == Some(key)
      ensures key in after.idem && after.idem[key].status == COMMITTED
      ensures after.idem[key].fingerprint == FingerprintOf(t.calls[a].req)
      ensures n >= 1 && Backs(after, key, after.idem[key], n - 1)
    {
      if a != id {
        assert WroteEntry(s, a, n);
      }
    }
  }

  /** Steps that neither write an entry nor touch the record of the key. */
  lemma QuietKeepsKeyInv(s: State, step: Step, key: string)
    requires Inv(s) && KeyInv(s, key) && key != "" && Enabled(s, step) && !step.Transact?
    requires step.Begin? && step.req.key == Some(key) ==> forall id :: !Active(s, id, key)
    requires step.Record? ==> s.calls[step.id].req.key != Some(key)
    ensures KeyInv(Apply(s, step), key)
  {
    var t := Apply(s, step);
    assert t.rows.entries == s.rows.entries && t.rows.receipts == s.rows.receipts;
    assert key in t.rows.idem <==> key in s.rows.idem;
    assert key in s.rows.idem ==> t.rows.idem[key] == s.rows.idem[key];
    forall a: nat | Active(t, a, key)
      ensures a != step.id ==> Active(s, a, key)
    {
    }
    if !step.Begin? && s.calls[step.id].req.key == Some(key) {
      assert Active(s, step.id, key);
    }
    forall a: nat, n: nat | WroteEntry(t, a, n)
      ensures WroteEntry(s, a, n) && s.calls[a] == t.calls[a]
    {
    }
  }

  /** A failure record for the key can only replace a failure: its writer overlapped nobody. */
  lemma RecordKeepsKeyInv(s: State, id: nat, key: string)
    requires Inv(s) && KeyInv(s, key) && key != "" && Enabled(s, Record(id))
    requires s.calls[id].req.key == Some(key)
    ensures KeyInv(Apply(s, Record(id)), key)
  {
    var t := Apply(s, Record(id));
    assert Active(s, id, key);
    forall a: nat | Active(t, a, key)
      ensures a != id && Active(s, a, key)
    {
    }
    forall a: nat, n: nat | WroteEntry(t, a, n) && t.calls[a].req.key == Some(key)
      ensures false
    {
      assert WroteEntry(s, a, n);
    }
  }

  lemma StepKeepsKeyInv(s: State, step: Step, key: string)
    requires Inv(s) && KeyInv(s, key) && key != "" && Enabled(s, step)
    requires step.Begin? && step.req.key == Some(key) ==> forall id :: !Active(s, id, key)
    ensures KeyInv(Apply(s, step), key)
  {
    if step.Transact? {
      match Commit(s.rows, s.calls[step.id].req, s.calls[step.id].snap, step.stamp, step.seal)
      case Ok(after) => CommitKeepsKeyInv(s, step.id, step.stamp, step.seal, key, after);
      case Err(_) => AbortKeepsKeyInv(s, step.id, step.stamp, step.seal, key);
    } else if step.Record? && s.calls[step.id].req.key == Some(key) {
      RecordKeepsKeyInv(s, step.id, key);
    } else {
      QuietKeepsKeyInv(s, step, key);
    }
  }

  lemma {:induction false} RunKeepsKeyInv(
    passportId: string, states: seq<State>, steps: seq<Step>, k: nat, key: string)
    requires IsRun(passportId, states, steps) && NoOverlap(states, steps, key) && key != "" && k < |states|
    ensures KeyInv(states[k], key)
  {
    if k > 0 {
      RunKeepsKeyInv(passportId, states, steps, k - 1, key);
      RunKeepsInv(passportId, states, steps, k - 1);
      StepKeepsKeyInv(states[k - 1], steps[k - 1], key);
    }
  }

  /**
   When the calls of a key never overlap, repeating a request that once wrote entry `n` ends
   with the record of that entry and its receipt and touches no row, however far the head has
   moved since; a different request under the same key is turned away.
   */
  lemma RepeatReturnsOriginal(
    passportId: string, states: seq<State>, steps: seq<Step>, k: nat, key: string, writer: nat, n: nat, id: nat)
    requires IsRun(passportId, states, steps) && NoOverlap(states, steps, key) && key != "" && k < |states|
    requires WroteEntry(states[k], writer, n) && states[k].calls[writer].req.key == Some(key)
    requires Enabled(states[k], Check(id)) && states[k].calls[id].req.key == Some(key)
    requires states[k].calls[id].req.requireExpected ==> PinsState(states[k].calls[id].req)
    ensures 1 <= n <= |states[k].rows.entries| && n <= |states[k].rows.receipts|
    ensures var t := Apply(states[k], Check(id));
            && t.rows == states[k].rows
            && (if SameRequest(states[k].calls[id].req, states[k].calls[writer].req)
                then && t.calls[id].Done? && t.calls[id].ending.Repeated?
                     && t.calls[id].ending.record.entryId == Some(t.rows.entries[n - 1].id)
                     && t.calls[id].ending.record.receiptId == Some(t.rows.receipts[n - 1].id)
                else t.calls[id] == Done(states[k].calls[id].req, Turned(KeyConflict)))
  {
    RunKeepsInv(passportId, states, steps, k);
    RunKeepsKeyInv(passportId, states, steps, k, key);
  }

  /**
   Without that discipline the promise fails: whenever two admitted calls share a key and an
   unspent snapshot, the second loses the compare-and-set and leaves a ledger that holds the
   entry of the first while the record of the key says FAILED, with the loser's fingerprint.
   */
  lemma OverlapHidesCommittedEntry(s: State, a: nat, b: nat, key: string, stamp: Stamp, seal: SealEnv, after: Rows)
    requires a != b && a in s.calls && b in s.calls && s.calls[a].Admitted? && s.calls[b].Admitted?
    requires key != "" && s.calls[a].req.key == s.calls[b].req.key == Some(key)
    requires s.calls[b].snap == s.calls[a].snap
    requires Commit(s.rows, s.calls[a].req, s.calls[a].snap, stamp, seal) == Ok(after)
    ensures var t := Apply(s, Transact(a, stamp, seal));
            && Enabled(t, Transact(b, stamp, seal))
            && var u := Apply(t, Transact(b, stamp, seal));
            && Enabled(u, Record(b))
            && var v := Apply(u, Record(b));
            && WroteEntry(v, a, |after.entries|) && v.rows.entries == after.entries
            && |after.entries| > 0 && after.entries[|after.entries| - 1].key == Some(key)
            && key in v.rows.idem && v.rows.idem[key].status == FAILED
            && Asks(v.rows.idem[key].fingerprint, s.calls[b].req)
  {
    CommitShape(s.rows, s.calls[a].req, s.calls[a].snap, stamp, seal, after);
  }

  // ----- the uninterrupted call -----

  /** From `s`, the steps lead to `t`. */
  ghost predicate Leads(s: State, steps: seq<Step>, t: State)
    decreases |steps|
  {
    if steps == [] then s == t
    else Enabled(s, steps[0]) && Leads(Apply(s, steps[0]), steps[1..], t)
  }

  function EndingOf(outcome: Outcome, after: Rows): Ending {
    match outcome
    case Committed(_) => Wrote(|after.entries|)
    case DuplicateSameRequest(record) => Repeated(record)
    case Refused(reason) => Turned(reason)
    case TransactionUnavailable => NoTransaction
    case Failed(_) => Broke
  }

  lemma {:induction false} LeadsOn(s: State, steps: seq<Step>, t: State, step: Step)
    requires Leads(s, steps, t) && Enabled(t, step)
    ensures Leads(s, steps + [step], Apply(t, step))
    decreases |steps|
  {
    hide Enabled, Apply;
    if steps == [] {
      assert [step][1..] == [];
    } else {
      LeadsOn(Apply(s, steps[0]), steps[1..], t, step);
      assert (steps + [step])[1..] == steps[1..] + [step];
    }
  }

  /** One more step of a call, at the end of the steps it has taken. */
  lemma Follow(s: State, steps: seq<Step>, t: State, step: Step) returns (more: seq<Step>, u: State)
    requires Leads(s, steps, t) && Enabled(t, step)
    ensures Leads(s, more, u) && u == Apply(t, step)
    ensures more == steps + [step]
  {
    LeadsOn(s, steps, t, step);
    more, u := steps + [step], Apply(t, step);
  }

  /**
   The append that runs without interference is one schedule of the interleaved machine: the
   steps of its own call, one after the other, lead to the same rows and the same answer.
   */
  lemma AloneIsUninterrupted(s: State, id: nat, req: Request, stamp: Stamp, seal: SealEnv, session: bool)
    returns (steps: seq<Step>, t: State)
    requires id !in s.calls
    ensures Leads(s, steps, t) && forall step <- steps :: step.id == id
    ensures var (after, outcome) := AppendAlone(s.rows, req, stamp, seal, session);
            && t.rows == after && t.calls == s.calls[id := Done(req, EndingOf(outcome, after))]
  {
    hide Leads, Admit, Commit, FingerprintOf, RecordFailed, ReleaseClaim;
    assert Leads(s, [], s) by { LeadsNowhere(s); }
    var snap := Snapshot(s.rows.revision, s.rows.head);
    steps, t := Follow(s, [], s, Begin(id, req));
    steps, t := Follow(s, steps, t, Check(id));
    if t.calls[id].Admitted? {
      if session {
        steps, t := Follow(s, steps, t, Transact(id, stamp, seal));
        if t.calls[id].Releasing? {
          steps, t := Follow(s, steps, t, Release(id));
        }
        if t.calls[id].Recording? {
          steps, t := Follow(s, steps, t, Record(id));
        }
      } else {
        steps, t := Follow(s, steps, t, NoSession(id));
      }
    }
    var (after, outcome) := AppendAlone(s.rows, req, stamp, seal, session);
    assert t.calls == s.calls[id := Done(req, EndingOf(outcome, after))];
  }

  lemma LeadsNowhere(s: State)
    ensures Leads(s, [], s)
  {
  }
}
