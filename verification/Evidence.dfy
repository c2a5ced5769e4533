/**
 What the checker's answer is worth: an exact, position by position reading of a clean answer,
 agreement with every ledger the writer can produce, and evidence of altered history.
 */
module Evidence {
  import opened Basics
  import opened Records
  import opened Seals
  import opened Ledger
  import opened LedgerRuns
  import opened Verifier

  // ----- a clean answer, read without the walk -----

  ghost predicate SoundAt(rows: seq<Row>, i: nat)
    requires i < |rows|
  {
    && rows[i].body.seqNo == Some(i + 1)
    && rows[i].body.priorHash == (if i == 0 then None else rows[i - 1].contentHash)
    && rows[i].contentHash == Some(Sha256(rows[i].body))
  }

  /** Numbered 1..n without gaps, chained, and hashing to what is stored. */
  ghost predicate SoundChain(rows: seq<Row>) {
    forall i: nat {:trigger SoundAt(rows, i)} :: i < |rows| ==> SoundAt(rows, i)
  }

  ghost predicate RowAccepted(st: Stored, row: Row) {
    && SchemaSupported(row)
    && ReceiptAgrees(st, row)
    && VerifyEntrySeal(st.keys, row) in {SEAL_VALID, LEGACY_UNSEALED}
  }

  /** The passport row does not contradict the last entry; with no entry it never does. */
  ghost predicate HeadAgrees(st: Stored)
    requires st.passport.Some?
  {
    st.rows != [] ==>
      var passport, last := st.passport.value, st.rows[|st.rows| - 1];
      && (EmptyHash(passport.head) || passport.head == last.contentHash)
      && (passport.revision.None? || last.revision.None? || passport.revision == last.revision)
  }

  lemma {:induction false} WalkFollowsSoundPrefix(rows: seq<Row>, i: nat)
    requires i <= |rows| && forall j: nat {:trigger SoundAt(rows, j)} :: j < i ==> SoundAt(rows, j)
    ensures ExpectedSeq(rows, i) == i + 1
    ensures PriorHash(rows, i) == if i == 0 then None else rows[i - 1].contentHash
    ensures forall n :: n > i ==> Occurrences(rows, i, n) == 0
  {
    if i > 0 {
      assert SoundAt(rows, i - 1);
      WalkFollowsSoundPrefix(rows, i - 1);
    }
  }

  ghost predicate NoneFails(checks: seq<Check>) {
    forall i :: 0 <= i < |checks| ==> !checks[i].failed
  }

  lemma {:induction false} CollectEmpty(checks: seq<Check>, position: nat)
    ensures Collect(checks, position) == [] <==> NoneFails(checks)
  {
    if checks != [] {
      CollectEmpty(checks[1..], position);
      assert forall i :: 1 <= i < |checks| ==> checks[i] == checks[1..][i - 1];
      assert NoneFails(checks) <==> !checks[0].failed && NoneFails(checks[1..]);
    }
  }

  lemma TenPass(checks: seq<Check>)
    requires |checks| == 10
    ensures NoneFails(checks) <==>
              && !checks[0].failed && !checks[1].failed && !checks[2].failed && !checks[3].failed && !checks[4].failed
              && !checks[5].failed && !checks[6].failed && !checks[7].failed && !checks[8].failed && !checks[9].failed
  {
  }

  lemma NothingFoundIff(st: Stored, row: Row, again: bool, expected: int, prior: Option<Digest>, i: nat)
    requires row.body.seqNo.Some?
    ensures Collect(Checks(st, row, again, expected, prior), i) == [] <==>
              && !again && row.body.seqNo.value == expected && row.body.priorHash == prior
              && row.contentHash == Some(Sha256(row.body)) && RowAccepted(st, row)
  {
    hide Collect, NoneFails, VerifyEntrySeal, SchemaSupported, ReceiptAgrees;
    var checks := Checks(st, row, again, expected, prior);
    CollectEmpty(checks, i);
    TenPass(checks);
  }

  ghost predicate CleanAt(st: Stored, i: nat)
    requires i < |st.rows|
  {
    SoundAt(st.rows, i) && RowAccepted(st, st.rows[i])
  }

  lemma CleanRowIff(st: Stored, i: nat)
    requires i < |st.rows| && forall j: nat {:trigger SoundAt(st.rows, j)} :: j < i ==> SoundAt(st.rows, j)
    ensures IssuesAt(st, i) == [] <==> CleanAt(st, i)
  {
    hide Checks, Collect, RowAccepted;
    WalkFollowsSoundPrefix(st.rows, i);
    if st.rows[i].body.seqNo.Some? {
      var again := Occurrences(st.rows, i, st.rows[i].body.seqNo.value) > 0;
      NothingFoundIff(st, st.rows[i], again, ExpectedSeq(st.rows, i), PriorHash(st.rows, i), i);
    }
  }

  lemma {:induction false} NoIssuesIff(st: Stored, n: nat)
    requires n <= |st.rows|
    ensures IssuesUpTo(st, n) == [] <==> forall i: nat {:trigger CleanAt(st, i)} :: i < n ==> CleanAt(st, i)
  {
    hide IssuesAt, RowAccepted, SoundAt;
    if n > 0 {
      NoIssuesIff(st, n - 1);
      if IssuesUpTo(st, n - 1) == [] {
        forall j: nat | j < n - 1
          ensures SoundAt(st.rows, j)
        {
          assert CleanAt(st, j);
        }
        CleanRowIff(st, n - 1);
      }
    }
  }

  lemma {:induction false} LegacyIff(st: Stored, n: nat)
    requires n <= |st.rows|
    ensures LegacyUpTo(st, n) <==>
              exists i :: 0 <= i < n && st.rows[i].body.seqNo.Some?
                          && VerifyEntrySeal(st.keys, st.rows[i]) == LEGACY_UNSEALED
  {
    if n > 0 {
      LegacyIff(st, n - 1);
    }
  }

  ghost predicate Clean(verdict: Verdict) {
    verdict == VALID || verdict == VALID_WITH_LEGACY_UNSEALED_ENTRIES
  }

  /**
   The checker answers without complaint exactly when the chain fits into its limit, is sound,
   every row is accepted and the passport row agrees with the last entry; the answer is
   VALID exactly when, in addition, every row carries a valid seal.
   */
  lemma CleanIff(st: Stored, maxEntries: int)
    requires st.passport.Some?
    ensures Clean(Verdicts(st, maxEntries).verdict) <==>
              && |st.rows| <= Limit(maxEntries) && SoundChain(st.rows) && HeadAgrees(st)
              && forall row <- st.rows :: RowAccepted(st, row)
    ensures Verdicts(st, maxEntries).verdict == VALID <==>
              && |st.rows| <= Limit(maxEntries) && SoundChain(st.rows) && HeadAgrees(st)
              && forall row <- st.rows :: RowAccepted(st, row) && VerifyEntrySeal(st.keys, row) == SEAL_VALID
  {
    hide Judge, HeadIssues, HeadAgrees, IssuesUpTo;
    var n := |st.rows|;
    NoIssuesIff(st, n);
    LegacyIff(st, n);
    HeadIssuesIff(st);
    JudgeClean(IssuesUpTo(st, n) + HeadIssues(st), LegacyUpTo(st, n));
    EveryRowCleanIff(st);
    if SoundChain(st.rows) {
      SoundRowsAreNumbered(st.rows);
    }
  }

  lemma EveryRowCleanIff(st: Stored)
    ensures (forall i: nat {:trigger CleanAt(st, i)} :: i < |st.rows| ==> CleanAt(st, i)) <==>
            SoundChain(st.rows) && forall row <- st.rows :: RowAccepted(st, row)
  {
    hide RowAccepted, SoundAt;
    if forall i: nat {:trigger CleanAt(st, i)} :: i < |st.rows| ==> CleanAt(st, i) {
      forall i: nat | i < |st.rows|
        ensures SoundAt(st.rows, i) && RowAccepted(st, st.rows[i])
      {
        assert CleanAt(st, i);
      }
    }
  }

  lemma SoundRowsAreNumbered(rows: seq<Row>)
    requires SoundChain(rows)
    ensures forall row <- rows :: row.body.seqNo.Some?
  {
    forall row <- rows
      ensures row.body.seqNo.Some?
    {
      var i: nat :| i < |rows| && rows[i] == row;
      assert SoundAt(rows, i);
    }
  }

  lemma HeadIssuesIff(st: Stored)
    requires st.passport.Some?
    ensures HeadIssues(st) == [] <==> HeadAgrees(st)
  {
  }

  lemma JudgeClean(issues: seq<Issue>, legacy: bool)
    ensures Clean(Judge(issues, legacy)) <==> issues == []
    ensures Judge(issues, legacy) == VALID <==> issues == [] && !legacy
  {
  }

  /** The verdict names the first code of the severity order that was reported at all. */
  lemma MostSevereFirst(issues: seq<Issue>, legacy: bool, r: nat)
    requires r < |SEVERITY| && Reported(issues, SEVERITY[r])
    requires forall q :: 0 <= q < r ==> !Reported(issues, SEVERITY[q])
    ensures Judge(issues, legacy) == Flagged(SEVERITY[r])
  {
    hide Reported;
    assert r > 0 ==> !Reported(issues, SEVERITY[0]);
    assert r > 1 ==> !Reported(issues, SEVERITY[1]);
    assert r > 2 ==> !Reported(issues, SEVERITY[2]);
    assert r > 3 ==> !Reported(issues, SEVERITY[3]);
    assert r > 4 ==> !Reported(issues, SEVERITY[4]);
    assert r > 5 ==> !Reported(issues, SEVERITY[5]);
    assert r > 6 ==> !Reported(issues, SEVERITY[6]);
    assert r > 7 ==> !Reported(issues, SEVERITY[7]);
  }

  lemma {:induction false} CollectPositions(checks: seq<Check>, position: nat)
    ensures forall issue <- Collect(checks, position) :: issue.position == position
  {
    if checks != [] {
      CollectPositions(checks[1..], position);
    }
  }

  lemma IssuePositions(st: Stored, i: nat)
    requires i < |st.rows|
    ensures forall issue <- IssuesAt(st, i) :: issue.position == i
  {
    if st.rows[i].body.seqNo.Some? {
      var again := Occurrences(st.rows, i, st.rows[i].body.seqNo.value) > 0;
      CollectPositions(Checks(st, st.rows[i], again, ExpectedSeq(st.rows, i), PriorHash(st.rows, i)), i);
    }
  }

  /** The first reported issue of the walk points at the first row that is really at fault. */
  lemma {:induction false} FirstIssueLocates(st: Stored, n: nat)
    requires n <= |st.rows| && IssuesUpTo(st, n) != []
    ensures var p := IssuesUpTo(st, n)[0].position;
            p < n && !CleanAt(st, p) && forall j: nat {:trigger CleanAt(st, j)} :: j < p ==> CleanAt(st, j)
  {
    hide IssuesAt, RowAccepted, SoundAt;
    if IssuesUpTo(st, n - 1) != [] {
      FirstIssueLocates(st, n - 1);
    } else {
      NoIssuesIff(st, n - 1);
      forall j: nat | j < n - 1
        ensures SoundAt(st.rows, j)
      {
        assert CleanAt(st, j);
      }
      CleanRowIff(st, n - 1);
      IssuePositions(st, n - 1);
      assert IssuesUpTo(st, n) == IssuesAt(st, n - 1);
      assert IssuesAt(st, n - 1)[0] in IssuesAt(st, n - 1);
    }
  }

  // ----- evidence of altered history -----

  /** Two sound chains that end in the same hash are the same chain on every hashed field. */
  lemma {:induction false} ChainsAgree(a: seq<Row>, b: seq<Row>)
    requires SoundChain(a) && SoundChain(b)
    requires a != [] && b != [] && a[|a| - 1].contentHash == b[|b| - 1].contentHash
    ensures |a| == |b|
    ensures forall i :: 0 <= i < |a| ==> a[i].body == b[i].body && a[i].contentHash == b[i].contentHash
  {
    var m, n := |a| - 1, |b| - 1;
    assert SoundAt(a, m) && SoundAt(b, n);
    if m > 0 {
      forall i: nat | i < m
        ensures SoundAt(a[..m], i) && SoundAt(b[..m], i)
      {
        assert SoundAt(a, i) && SoundAt(b, i);
      }
      ChainsAgree(a[..m], b[..m]);
      assert forall i :: 0 <= i < m ==> a[i] == a[..m][i] && b[i] == b[..m][i];
    }
  }

  /** Tamper evidence for any two stored histories that the checker accepts. */
  lemma TamperEvidence(a: Stored, b: Stored, maxA: int, maxB: int)
    requires a.passport.Some? && b.passport.Some?
    requires Clean(Verdicts(a, maxA).verdict) && Clean(Verdicts(b, maxB).verdict)
    requires a.rows != [] && b.rows != []
    requires a.rows[|a.rows| - 1].contentHash == b.rows[|b.rows| - 1].contentHash
    ensures |a.rows| == |b.rows|
    ensures forall i :: 0 <= i < |a.rows| ==> a.rows[i].body == b.rows[i].body
  {
    hide Verdicts, RowAccepted, SoundAt, HeadAgrees;
    CleanIff(a, maxA);
    CleanIff(b, maxB);
    ChainsAgree(a.rows, b.rows);
  }

  // ----- the writer and the checker -----

  /** The row is unsealed, or carries a seal over its own nine fields. */
  ghost predicate WellSealed(row: Row) {
    || (row.algorithm.None? && row.keyVersion.None? && row.signature.None?)
    || (&& row.algorithm == Some(ALGORITHM) && Present(row.keyVersion)
        && row.signature.Some? && row.signature.value.Hmac? && row.signature.value.body == SealBodyOf(row))
  }

  /** The key ring still maps the key version of every sealed row to the key that sealed it. */
  ghost predicate KeysRetained(rows: seq<Row>, keys: map<string, string>) {
    forall row <- rows :: row.signature.Some? && row.signature.value.Hmac? && row.keyVersion.Some? ==>
      KeyFor(keys, row.keyVersion.value) == Some(row.signature.value.key)
  }

  lemma {:induction false} RunSealsEntries(passportId: string, states: seq<State>, steps: seq<Step>, k: nat)
    requires IsRun(passportId, states, steps) && k < |states|
    ensures forall row <- states[k].rows.entries :: WellSealed(row)
  {
    if k > 0 {
      RunSealsEntries(passportId, states, steps, k - 1);
      var s, step := states[k - 1], steps[k - 1];
      if step.Transact? {
        var req, snap := s.calls[step.id].req, s.calls[step.id].snap;
        match Commit(s.rows, req, snap, step.stamp, step.seal)
        case Ok(after) =>
          NewEntrySealed(s.rows, req, snap, step.stamp, step.seal, after);
        case Err(_) =>
      }
    }
  }

  lemma NewEntrySealed(rows: Rows, req: Request, snap: Snapshot, stamp: Stamp, seal: SealEnv, after: Rows)
    requires Commit(rows, req, snap, stamp, seal) == Ok(after)
    ensures |after.entries| == |rows.entries| + 1
    ensures after.entries == rows.entries + [after.entries[|rows.entries|]]
    ensures WellSealed(after.entries[|rows.entries|])
  {
  }

  /** The checker's inputs as the writer left them. */
  ghost predicate Reads(st: Stored, rows: Rows) {
    && st.passport == Some(PassportRow(rows.head, Some(rows.revision)))
    && (forall id <- st.receipts ::
          exists receipt <- rows.receipts :: receipt.entryId == id && receipt.hash == st.receipts[id])
  }

  lemma WrittenChainIsSound(rows: Rows)
    requires RowsOk(rows)
    ensures SoundChain(rows.entries)
  {
    forall i: nat | i < |rows.entries|
      ensures SoundAt(rows.entries, i)
    {
      assert LinkAt(rows.passportId, rows.entries, i);
    }
  }

  lemma WrittenReceiptsAgree(st: Stored, rows: Rows, row: Row)
    requires RowsOk(rows) && Reads(st, rows) && row in rows.entries
    ensures ReceiptAgrees(st, row)
  {
    if row.id in st.receipts {
      var j: nat :| j < |rows.entries| && rows.entries[j] == row;
      var receipt :| receipt in rows.receipts && receipt.entryId == row.id && receipt.hash == st.receipts[row.id];
      var i: nat :| i < |rows.receipts| && rows.receipts[i] == receipt;
      assert ReceiptAt(rows, i);
      assert i == j by {
        assert rows.entries[i].id == rows.entries[j].id;
      }
    }
  }

  lemma WrittenSealAccepted(row: Row, rows: seq<Row>, keys: map<string, string>)
    requires WellSealed(row) && row in rows && KeysRetained(rows, keys)
    ensures VerifyEntrySeal(keys, row) == if row.signature.None? then LEGACY_UNSEALED else SEAL_VALID
  {
  }

  lemma OnlySchemaIssueAt(st: Stored, i: nat)
    requires i < |st.rows| && SoundChain(st.rows)
    requires ReceiptAgrees(st, st.rows[i])
    requires VerifyEntrySeal(st.keys, st.rows[i]) in {SEAL_VALID, LEGACY_UNSEALED}
    ensures forall issue <- IssuesAt(st, i) :: issue.code == UNSUPPORTED_SCHEMA
  {
    hide Collect, VerifyEntrySeal, ReceiptAgrees;
    WalkFollowsSoundPrefix(st.rows, i);
    assert SoundAt(st.rows, i);
    var again := Occurrences(st.rows, i, i + 1) > 0;
    var checks := Checks(st, st.rows[i], again, ExpectedSeq(st.rows, i), PriorHash(st.rows, i));
    CollectCodes(checks, i);
  }

  lemma {:induction false} OnlySchemaIssues(st: Stored, n: nat)
    requires n <= |st.rows| && SoundChain(st.rows)
    requires forall row <- st.rows ::
               ReceiptAgrees(st, row) && VerifyEntrySeal(st.keys, row) in {SEAL_VALID, LEGACY_UNSEALED}
    ensures forall issue <- IssuesUpTo(st, n) :: issue.code == UNSUPPORTED_SCHEMA
  {
    hide IssuesAt, ReceiptAgrees, VerifyEntrySeal, SoundChain;
    if n > 0 {
      OnlySchemaIssues(st, n - 1);
      OnlySchemaIssueAt(st, n - 1);
    }
  }

  lemma {:induction false} CollectCodes(checks: seq<Check>, position: nat)
    requires forall c <- checks :: c.failed ==> c.code == UNSUPPORTED_SCHEMA
    ensures forall issue <- Collect(checks, position) :: issue.code == UNSUPPORTED_SCHEMA
  {
    if checks != [] {
      CollectCodes(checks[1..], position);
    }
  }

  /**
   Writer and checker agree. On every ledger reachable in strict mode, with the sealing keys
   retained, the answer is decided by the limit, by the schema versions the callers chose and
   by whether some entry is unsealed, and by nothing else.
   */
  lemma WriterCheckerAgree(
    passportId: string, states: seq<State>, steps: seq<Step>, k: nat, st: Stored, maxEntries: int)
    requires IsRun(passportId, states, steps) && k < |states|
    requires Reads(st, states[k].rows) && st.rows == states[k].rows.entries && KeysRetained(st.rows, st.keys)
    ensures Verdicts(st, maxEntries).verdict ==
              if |st.rows| > Limit(maxEntries) then Flagged(INCOMPLETE)
              else if exists row <- st.rows :: !SchemaSupported(row) then Flagged(UNSUPPORTED_SCHEMA)
              else if exists row <- st.rows :: row.signature.None? then VALID_WITH_LEGACY_UNSEALED_ENTRIES
              else VALID
  {
    var rows := states[k].rows;
    RunKeepsInv(passportId, states, steps, k);
    RunSealsEntries(passportId, states, steps, k);
    WrittenChainIsSound(rows);
    forall row <- st.rows
      ensures ReceiptAgrees(st, row)
      ensures VerifyEntrySeal(st.keys, row) == if row.signature.None? then LEGACY_UNSEALED else SEAL_VALID
    {
      WrittenReceiptsAgree(st, rows, row);
      WrittenSealAccepted(row, st.rows, st.keys);
    }
    WrittenHeadAgrees(st, rows);
    CleanIff(st, maxEntries);
    if |st.rows| <= Limit(maxEntries) && exists row <- st.rows :: !SchemaSupported(row) {
      SchemaVerdict(st);
    }
  }

  lemma WrittenHeadAgrees(st: Stored, rows: Rows)
    requires RowsOk(rows) && Reads(st, rows) && st.rows == rows.entries
    ensures HeadAgrees(st)
  {
    if st.rows != [] {
      assert LinkAt(rows.passportId, rows.entries, |rows.entries| - 1);
    }
  }

  lemma SchemaVerdict(st: Stored)
    requires st.passport.Some? && SoundChain(st.rows) && HeadAgrees(st)
    requires forall row <- st.rows ::
               ReceiptAgrees(st, row) && VerifyEntrySeal(st.keys, row) in {SEAL_VALID, LEGACY_UNSEALED}
    requires exists row <- st.rows :: !SchemaSupported(row)
    ensures forall legacy :: Judge(IssuesUpTo(st, |st.rows|) + HeadIssues(st), legacy) == Flagged(UNSUPPORTED_SCHEMA)
  {
    hide IssuesUpTo, HeadIssues, ReceiptAgrees, VerifyEntrySeal, HeadAgrees, SchemaSupported;
    var issues := IssuesUpTo(st, |st.rows|);
    OnlySchemaIssues(st, |st.rows|);
    NoIssuesIff(st, |st.rows|);
    EveryRowCleanIff(st);
    HeadIssuesIff(st);
    var row :| row in st.rows && !SchemaSupported(row);
    assert !RowAccepted(st, row);
    assert issues != [] && issues + HeadIssues(st) == issues;
    JudgeSchema(issues);
  }

  lemma JudgeSchema(issues: seq<Issue>)
    requires issues != [] && forall issue <- issues :: issue.code == UNSUPPORTED_SCHEMA
    ensures forall legacy :: Judge(issues, legacy) == Flagged(UNSUPPORTED_SCHEMA)
  {
    assert issues[0] in issues;
  }

  /** The stored rows carry the written bodies and hashes; their seals, ids and other fields may differ. */
  ghost predicate SameHistory(rows: seq<Row>, entries: seq<Row>) {
    && |rows| == |entries|
    && forall i :: 0 <= i < |rows| ==> rows[i].body == entries[i].body && rows[i].contentHash == entries[i].contentHash
  }

  /** The last stored revision does not contradict the passport row. */
  ghost predicate LastRevisionAgrees(rows: seq<Row>, revision: int) {
    rows != [] ==> rows[|rows| - 1].revision in {None, Some(revision)}
  }

  /**
   Any rows next to an untouched passport row with entries: beyond limit, schema, seals and
   receipts, the checker accepts exactly the history that was written, or no entry at all.
   */
  lemma AlteredHistoryIsFlagged(
    passportId: string, states: seq<State>, steps: seq<Step>, k: nat, st: Stored, maxEntries: int)
    requires IsRun(passportId, states, steps) && k < |states|
    requires st.passport == Some(PassportRow(states[k].rows.head, Some(states[k].rows.revision)))
    ensures states[k].rows.entries != [] ==>
              (Clean(Verdicts(st, maxEntries).verdict) <==>
               && |st.rows| <= Limit(maxEntries) && (forall row <- st.rows :: RowAccepted(st, row))
               && (st.rows == [] || (SameHistory(st.rows, states[k].rows.entries)
                                     && LastRevisionAgrees(st.rows, states[k].rows.revision))))
  {
    hide Verdicts, RowAccepted, IsRun, KeysIndexed, Receipted, DistinctIds, PhaseOk, Authored, Linked;
    var rows := states[k].rows;
    RunKeepsInv(passportId, states, steps, k);
    WrittenChainIsSound(rows);
    CleanIff(st, maxEntries);
    if st.rows != [] && rows.entries != [] {
      assert SoundAt(rows.entries, |rows.entries| - 1);
      if SoundChain(st.rows) && HeadAgrees(st) {
        ChainsAgree(st.rows, rows.entries);
      }
      if SameHistory(st.rows, rows.entries) {
        SameHistoryIsSound(st.rows, rows.entries);
      }
    }
  }

  lemma SameHistoryIsSound(rows: seq<Row>, entries: seq<Row>)
    requires SoundChain(entries) && SameHistory(rows, entries)
    ensures SoundChain(rows)
  {
    forall i: nat | i < |rows|
      ensures SoundAt(rows, i)
    {
      assert SoundAt(entries, i);
    }
  }

  /**
   A passport that was never written has no head to compare with: next to its untouched row the
   checker accepts every sound chain of accepted rows whose last revision is absent or zero.
   */
  lemma UnwrittenPassportIff(
    passportId: string, states: seq<State>, steps: seq<Step>, k: nat, st: Stored, maxEntries: int)
    requires IsRun(passportId, states, steps) && k < |states|
    requires st.passport == Some(PassportRow(states[k].rows.head, Some(states[k].rows.revision)))
    ensures states[k].rows.entries == [] ==>
              (Clean(Verdicts(st, maxEntries).verdict) <==>
               && |st.rows| <= Limit(maxEntries) && (forall row <- st.rows :: RowAccepted(st, row))
               && SoundChain(st.rows) && LastRevisionAgrees(st.rows, 0))
  {
    hide Verdicts, RowAccepted, IsRun, KeysIndexed, Receipted, DistinctIds, PhaseOk, Authored, Linked, SoundChain;
    RunKeepsInv(passportId, states, steps, k);
    CleanIff(st, maxEntries);
  }

  /** Such a chain that nobody wrote: one unsealed row that claims revision 0 of a fresh passport. */
  lemma ForgedEntryPasses(passportId: string, entryType: string, payload: string, at: int, authoredBy: string)
    returns (st: Stored)
    ensures st.passport == Some(PassportRow(Provisioned(passportId).head, Some(Provisioned(passportId).revision)))
    ensures |st.rows| == 1
    ensures st.rows[0].body == EntryBody(passportId, Some(1), entryType, payload, None, at, authoredBy)
    ensures Verdicts(st, DEFAULT_LIMIT).verdict == VALID_WITH_LEGACY_UNSEALED_ENTRIES
  {
    var body := EntryBody(passportId, Some(1), entryType, payload, None, at, authoredBy);
    var row := Row("", body, Some(Sha256(body)), Some(0), None, None, None, None, None);
    st := Stored(Some(PassportRow(None, Some(0))), [row], map[], map[]);
    assert SoundAt(st.rows, 0);
    CleanIff(st, DEFAULT_LIMIT);
    assert row in st.rows && VerifyEntrySeal(st.keys, row) == LEGACY_UNSEALED;
  }

  /** Every seal that checks out on a stored row was made by the writer for one of the written entries. */
  ghost predicate SealsAreOurs(st: Stored, entries: seq<Row>) {
    forall row <- st.rows :: VerifyEntrySeal(st.keys, row) == SEAL_VALID ==>
      exists e <- entries :: e.signature == row.signature
  }

  lemma SameSealSameBody(keys: map<string, string>, row: Row, e: Row)
    requires VerifyEntrySeal(keys, row) == SEAL_VALID && WellSealed(e) && e.signature == row.signature
    ensures SealBodyOf(row) == SealBodyOf(e)
  {
  }

  lemma NineFields(row: Row, e: Row)
    requires SealBodyOf(row) == SealBodyOf(e)
    ensures row.body == e.body
  {
  }

  lemma SealNamesEntry(st: Stored, passportId: string, entries: seq<Row>, i: nat)
    requires i < |st.rows| && SoundAt(st.rows, i) && Linked(passportId, entries) && SealsAreOurs(st, entries)
    requires (forall e <- entries :: WellSealed(e)) && VerifyEntrySeal(st.keys, st.rows[i]) == SEAL_VALID
    ensures i < |entries| && SealBodyOf(st.rows[i]) == SealBodyOf(entries[i])
  {
    hide VerifyEntrySeal, WellSealed, SealBodyOf;
    var row := st.rows[i];
    assert row in st.rows;
    var e :| e in entries && e.signature == row.signature;
    SameSealSameBody(st.keys, row, e);
    NineFields(row, e);
    var j: nat :| j < |entries| && entries[j] == e;
    assert LinkAt(passportId, entries, j);
  }

  /**
   What seals add to hashes: if nobody else can make a seal that checks out, an answer of VALID
   means that the stored rows are the first of the written entries, on all nine sealed fields and
   whatever the passport row says.
   */
  lemma SealsPinHistory(
    passportId: string, states: seq<State>, steps: seq<Step>, k: nat, st: Stored, maxEntries: int)
    requires IsRun(passportId, states, steps) && k < |states|
    requires SealsAreOurs(st, states[k].rows.entries) && Verdicts(st, maxEntries).verdict == VALID
    ensures |st.rows| <= |states[k].rows.entries|
    ensures forall i :: 0 <= i < |st.rows| ==> SealBodyOf(st.rows[i]) == SealBodyOf(states[k].rows.entries[i])
  {
    var entries := states[k].rows.entries;
    RunKeepsInv(passportId, states, steps, k);
    RunSealsEntries(passportId, states, steps, k);
    CleanIff(st, maxEntries);
    hide Verdicts, RowAccepted, IsRun, KeysIndexed, Receipted, DistinctIds, PhaseOk, Authored, Linked;
    hide SoundAt, SealsAreOurs;
    forall i: nat | i < |st.rows|
      ensures i < |entries| && SealBodyOf(st.rows[i]) == SealBodyOf(entries[i])
    {
      assert SoundAt(st.rows, i) && st.rows[i] in st.rows;
      SealNamesEntry(st, passportId, entries, i);
    }
    if |st.rows| > 0 {
      assert |st.rows| - 1 < |entries|;
    }
  }

  /** The exception is real: with no entry rows the answer is VALID, whatever the passport row says. */
  lemma EmptyHistoryPasses(st: Stored, maxEntries: int)
    requires st.passport.Some? && st.rows == []
    ensures Verdicts(st, maxEntries).verdict == VALID
  {
    CleanIff(st, maxEntries);
  }

  /**
   Dropping the newest entries is noticed exactly when some entry is left: any other proper
   prefix of a written history is refused, even within the limit and under a full key ring.
   */
  lemma PrefixAcceptedIff(
    passportId: string, states: seq<State>, steps: seq<Step>, k: nat, st: Stored, maxEntries: int, n: nat)
    requires IsRun(passportId, states, steps) && k < |states|
    requires n <= |states[k].rows.entries| && st.rows == states[k].rows.entries[..n]
    requires Reads(st, states[k].rows) && KeysRetained(states[k].rows.entries, st.keys)
    requires forall row <- states[k].rows.entries :: SchemaSupported(row)
    requires |states[k].rows.entries| <= Limit(maxEntries)
    ensures Clean(Verdicts(st, maxEntries).verdict) <==> n == 0 || n == |states[k].rows.entries|
  {
    var entries := states[k].rows.entries;
    if n == 0 {
      EmptyHistoryPasses(st, maxEntries);
    } else if n == |entries| {
      assert st.rows == entries;
      WriterCheckerAgree(passportId, states, steps, k, st, maxEntries);
    } else if Clean(Verdicts(st, maxEntries).verdict) {
      AlteredHistoryIsFlagged(passportId, states, steps, k, st, maxEntries);
    }
  }
}
