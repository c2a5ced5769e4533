/**
 Which fault is reported under which code, over the fields of the stored rows alone, and the
 verdict that each fault, and each kind of altered history, leads to.
 */
module Faults {
  import opened Basics
  import opened Records
  import opened Seals
  import opened Ledger
  import opened LedgerRuns
  import opened Verifier
  import opened Evidence

  // ----- the seal of a row, field by field -----

  predicate Missing(s: Option<string>) { s == None || s == Some("") }

  predicate Unsealed(row: Row) {
    Missing(row.algorithm) && row.signature in {None, Some(Unkeyed(""))}
  }

  predicate ForeignSeal(row: Row) {
    !Unsealed(row) && row.algorithm != Some("HMAC-SHA256")
  }

  predicate IncompleteSeal(row: Row) {
    !Unsealed(row) && row.algorithm == Some("HMAC-SHA256")
    && (Missing(row.keyVersion) || row.signature in {None, Some(Unkeyed(""))})
  }

  predicate Checkable(row: Row) {
    && row.algorithm == Some("HMAC-SHA256") && !Missing(row.keyVersion)
    && row.signature !in {None, Some(Unkeyed(""))}
  }

  predicate KeyMissing(keys: map<string, string>, row: Row) {
    Checkable(row) && (row.keyVersion.value !in keys || keys[row.keyVersion.value] == "")
  }

  predicate WrongSeal(keys: map<string, string>, row: Row) {
    && Checkable(row) && row.keyVersion.value in keys && keys[row.keyVersion.value] != ""
    && row.signature != Some(Hmac(keys[row.keyVersion.value], SealBody(row.body, row.contentHash, row.revision)))
  }

  lemma SealStatusIff(keys: map<string, string>, row: Row)
    ensures var status := VerifyEntrySeal(keys, row);
            && (status == LEGACY_UNSEALED <==> Unsealed(row))
            && (status == SEAL_UNSUPPORTED <==> ForeignSeal(row))
            && (status == SEAL_INVALID <==> IncompleteSeal(row) || WrongSeal(keys, row))
            && (status == SEAL_KEY_MISSING <==> KeyMissing(keys, row))
  {
  }

  // ----- the position of a row in the walk -----

  predicate Numbered(rows: seq<Row>, i: nat)
    requires i < |rows|
  {
    rows[i].body.seqNo.Some?
  }

  /** The last numbered row before position `i`. */
  predicate LastNumbered(rows: seq<Row>, i: nat, j: nat)
    requires i <= |rows|
  {
    j < i && Numbered(rows, j) && forall x :: j < x < i ==> !Numbered(rows, x)
  }

  predicate NoneNumbered(rows: seq<Row>, i: nat)
    requires i <= |rows|
  {
    forall x: nat :: x < i ==> !Numbered(rows, x)
  }

  /** The hash that the walk compares with is that of row `j`, or none at all. */
  lemma {:induction false} PriorFrom(rows: seq<Row>, i: nat) returns (j: int)
    requires i <= |rows|
    ensures -1 <= j
    ensures j == -1 ==> NoneNumbered(rows, i) && PriorHash(rows, i) == None
    ensures j >= 0 ==> LastNumbered(rows, i, j) && PriorHash(rows, i) == rows[j].contentHash
  {
    j := -1;
    if i > 0 {
      if Numbered(rows, i - 1) {
        j := i - 1;
      } else {
        j := PriorFrom(rows, i - 1);
      }
    }
  }

  lemma OneLastNumbered(rows: seq<Row>, i: nat, j: nat, k: nat)
    requires i <= |rows| && LastNumbered(rows, i, j) && LastNumbered(rows, i, k)
    ensures j == k
  {
  }

  lemma PriorIs(rows: seq<Row>, i: nat)
    requires i <= |rows|
    ensures forall j: nat :: LastNumbered(rows, i, j) ==> PriorHash(rows, i) == rows[j].contentHash
    ensures NoneNumbered(rows, i) ==> PriorHash(rows, i) == None
    ensures NoneNumbered(rows, i) || exists j: nat :: LastNumbered(rows, i, j)
  {
    hide PriorHash;
    var j := PriorFrom(rows, i);
    forall k: nat | LastNumbered(rows, i, k)
      ensures PriorHash(rows, i) == rows[k].contentHash
    {
      if j >= 0 {
        OneLastNumbered(rows, i, j, k);
      }
    }
  }

  /** The walk expects the least positive number above all that it has seen. */
  lemma {:induction false} ExpectedIs(rows: seq<Row>, i: nat)
    requires i <= |rows|
    ensures ExpectedSeq(rows, i) >= 1
    ensures forall j: nat :: j < i && Numbered(rows, j) ==> rows[j].body.seqNo.value < ExpectedSeq(rows, i)
    ensures ExpectedSeq(rows, i) == 1
            || exists j: nat :: j < i && Numbered(rows, j) && rows[j].body.seqNo.value + 1 == ExpectedSeq(rows, i)
  {
    if i > 0 {
      ExpectedIs(rows, i - 1);
      assert Numbered(rows, i - 1) || ExpectedSeq(rows, i) == ExpectedSeq(rows, i - 1);
    }
  }

  lemma {:induction false} OccursIff(rows: seq<Row>, i: nat, n: int)
    requires i <= |rows|
    ensures Occurrences(rows, i, n) > 0 <==> exists j: nat :: j < i && rows[j].body.seqNo == Some(n)
  {
    if i > 0 {
      OccursIff(rows, i - 1, n);
    }
  }

  // ----- faults -----

  predicate Repeats(rows: seq<Row>, i: nat)
    requires i < |rows|
  {
    Numbered(rows, i) && exists j: nat :: j < i && rows[j].body.seqNo == rows[i].body.seqNo
  }

  /** The row leaves a gap: it has no number, or one that neither is 1 nor follows on or falls behind an earlier one. */
  predicate Gap(rows: seq<Row>, i: nat)
    requires i < |rows|
  {
    !Numbered(rows, i)
    || (rows[i].body.seqNo.value > 1
        && forall j: nat :: j < i && Numbered(rows, j) ==> rows[j].body.seqNo.value + 1 < rows[i].body.seqNo.value)
  }

  predicate Behind(rows: seq<Row>, i: nat)
    requires i < |rows|
  {
    Numbered(rows, i)
    && (rows[i].body.seqNo.value < 1
        || exists j: nat :: j < i && Numbered(rows, j) && rows[i].body.seqNo.value <= rows[j].body.seqNo.value)
  }

  ghost predicate WrongPrior(rows: seq<Row>, i: nat)
    requires i < |rows|
  {
    Numbered(rows, i)
    && (|| (exists j: nat :: LastNumbered(rows, i, j) && rows[i].body.priorHash != rows[j].contentHash)
        || (NoneNumbered(rows, i) && rows[i].body.priorHash != None))
  }

  /** The stored hash is not that of the row, or not that of its receipt. */
  predicate WrongHash(st: Stored, i: nat)
    requires i < |st.rows|
  {
    var row := st.rows[i];
    Numbered(st.rows, i)
    && (row.contentHash != Some(Sha256(row.body))
        || (row.id in st.receipts && st.receipts[row.id].Some? && st.receipts[row.id] != row.contentHash))
  }

  predicate UnsupportedRow(row: Row) {
    row.schemaVersion !in [None, Some("1"), Some("2"), Some("2.0")] || ForeignSeal(row)
  }

  ghost predicate FaultAt(st: Stored, i: nat, code: Code)
    requires i < |st.rows|
  {
    match code
    case DUPLICATE_SEQUENCE => Repeats(st.rows, i)
    case MISSING_ENTRY => Gap(st.rows, i)
    case INVALID_SEQUENCE => Behind(st.rows, i)
    case INVALID_PREVIOUS_HASH => WrongPrior(st.rows, i)
    case INVALID_ENTRY_HASH => WrongHash(st, i)
    case INVALID_SIGNATURE => Numbered(st.rows, i) && (IncompleteSeal(st.rows[i]) || WrongSeal(st.keys, st.rows[i]))
    case INCOMPLETE => Numbered(st.rows, i) && KeyMissing(st.keys, st.rows[i])
    case UNSUPPORTED_SCHEMA => Numbered(st.rows, i) && UnsupportedRow(st.rows[i])
    case HEAD_MISMATCH => false
    case PASSPORT_NOT_FOUND => false
  }

  predicate Fails(c: Check, code: Code) {
    c.failed && c.code == code
  }

  ghost predicate AnyFails(checks: seq<Check>, code: Code) {
    exists i :: 0 <= i < |checks| && Fails(checks[i], code)
  }

  lemma {:induction false} CollectHas(checks: seq<Check>, position: nat, code: Code)
    ensures Reported(Collect(checks, position), code) <==> AnyFails(checks, code)
  {
    hide Reported;
    if checks == [] {
      NothingReported(code);
    } else {
      CollectHas(checks[1..], position, code);
      ReportedSum(When(checks[0].failed, checks[0].code, position), Collect(checks[1..], position), code);
      OneIssue(checks[0].code, position, code);
      NothingReported(code);
      if i :| 0 <= i < |checks[1..]| && Fails(checks[1..][i], code) {
        assert checks[i + 1] == checks[1..][i];
      }
      if i :| 0 < i < |checks| && Fails(checks[i], code) {
        assert checks[1..][i - 1] == checks[i];
      }
    }
  }

  lemma ReportedSum(a: seq<Issue>, b: seq<Issue>, code: Code)
    ensures Reported(a + b, code) <==> Reported(a, code) || Reported(b, code)
  {
    if Reported(b, code) {
      var i :| 0 <= i < |b| && b[i].code == code;
      assert (a + b)[|a| + i] == b[i];
    }
    if Reported(a, code) {
      var i :| 0 <= i < |a| && a[i].code == code;
      assert (a + b)[i] == a[i];
    }
  }

  lemma TenFail(checks: seq<Check>, code: Code)
    requires |checks| == 10
    ensures AnyFails(checks, code) <==>
            || Fails(checks[0], code) || Fails(checks[1], code) || Fails(checks[2], code) || Fails(checks[3], code)
            || Fails(checks[4], code) || Fails(checks[5], code) || Fails(checks[6], code) || Fails(checks[7], code)
            || Fails(checks[8], code) || Fails(checks[9], code)
  {
  }

  lemma WalkKnows(rows: seq<Row>, i: nat)
    requires i < |rows| && Numbered(rows, i)
    ensures var n := rows[i].body.seqNo.value;
            && (Occurrences(rows, i, n) > 0 <==> Repeats(rows, i))
            && (n > ExpectedSeq(rows, i) <==> Gap(rows, i))
            && (n < ExpectedSeq(rows, i) <==> Behind(rows, i))
            && (rows[i].body.priorHash != PriorHash(rows, i) <==> WrongPrior(rows, i))
  {
    hide Occurrences, ExpectedSeq, PriorHash, LastNumbered;
    OccursIff(rows, i, rows[i].body.seqNo.value);
    ExpectedIs(rows, i);
    PriorIs(rows, i);
  }

  /** Each code is reported at a row exactly for its fault, whatever stands in the rows before. */
  lemma CodeAtIff(st: Stored, i: nat, code: Code)
    requires i < |st.rows|
    ensures Reported(IssuesAt(st, i), code) <==> FaultAt(st, i, code)
  {
    hide Reported, AnyFails, Collect, Occurrences, ExpectedSeq, PriorHash, Repeats, Behind, WrongPrior, VerifyEntrySeal;
    hide Unsealed, ForeignSeal, IncompleteSeal, WrongSeal, KeyMissing;
    var row := st.rows[i];
    if row.body.seqNo.None? {
      OneIssue(MISSING_ENTRY, i, code);
      NothingElseUnnumbered(st.rows, i);
    } else {
      var again := Occurrences(st.rows, i, row.body.seqNo.value) > 0;
      var checks := Checks(st, row, again, ExpectedSeq(st.rows, i), PriorHash(st.rows, i));
      CollectHas(checks, i, code);
      TenFail(checks, code);
      WalkKnows(st.rows, i);
      SealStatusIff(st.keys, row);
    }
  }

  lemma OneIssue(code: Code, position: nat, asked: Code)
    ensures Reported([Issue(code, position)], asked) <==> asked == code
  {
    assert [Issue(code, position)][0].code == code;
  }

  lemma NothingElseUnnumbered(rows: seq<Row>, i: nat)
    requires i < |rows| && !Numbered(rows, i)
    ensures Gap(rows, i) && !Repeats(rows, i) && !Behind(rows, i) && !WrongPrior(rows, i)
  {
  }

  ghost predicate FaultBefore(st: Stored, n: nat, code: Code)
    requires n <= |st.rows|
  {
    exists i: nat :: i < n && FaultAt(st, i, code)
  }

  lemma {:induction false} CodesUpTo(st: Stored, n: nat, code: Code)
    requires n <= |st.rows|
    ensures Reported(IssuesUpTo(st, n), code) <==> FaultBefore(st, n, code)
  {
    hide Reported, IssuesAt, FaultAt;
    if n == 0 {
      NothingReported(code);
    } else {
      CodesUpTo(st, n - 1, code);
      CodeAtIff(st, n - 1, code);
      ReportedSum(IssuesUpTo(st, n - 1), IssuesAt(st, n - 1), code);
      if FaultBefore(st, n, code) {
        var i: nat :| i < n && FaultAt(st, i, code);
        assert i < n - 1 ==> FaultBefore(st, n - 1, code);
      }
    }
  }

  lemma NothingReported(code: Code)
    ensures !Reported([], code)
  {
  }

  /** Some row is at fault, or the passport row contradicts the last one. */
  ghost predicate Found(st: Stored, code: Code)
    requires st.passport.Some?
  {
    FaultBefore(st, |st.rows|, code) || (code == HEAD_MISMATCH && HeadContradicted(st))
  }

  predicate HeadContradicted(st: Stored)
    requires st.passport.Some?
  {
    st.rows != [] &&
    var passport, last := st.passport.value, st.rows[|st.rows| - 1];
    || (passport.head !in {None, Some(Text(""))} && passport.head != last.contentHash)
    || (passport.revision.Some? && last.revision.Some? && passport.revision.value != last.revision.value)
  }

  lemma HeadCodes(st: Stored, code: Code)
    requires st.passport.Some?
    ensures Reported(HeadIssues(st), code) <==> code == HEAD_MISMATCH && HeadContradicted(st)
  {
    if code == HEAD_MISMATCH && HeadContradicted(st) {
      assert HeadIssues(st)[0].code == HEAD_MISMATCH;
    }
  }

  lemma AllCodes(st: Stored, code: Code)
    requires st.passport.Some?
    ensures Reported(IssuesUpTo(st, |st.rows|) + HeadIssues(st), code) <==> Found(st, code)
  {
    hide Reported, HeadContradicted;
    CodesUpTo(st, |st.rows|, code);
    HeadCodes(st, code);
    ReportedSum(IssuesUpTo(st, |st.rows|), HeadIssues(st), code);
  }

  lemma JudgeIs(issues: seq<Issue>, legacy: bool)
    ensures Judge(issues, legacy) ==
              if Reported(issues, DUPLICATE_SEQUENCE) then Flagged(DUPLICATE_SEQUENCE)
              else if Reported(issues, MISSING_ENTRY) then Flagged(MISSING_ENTRY)
              else if Reported(issues, INVALID_PREVIOUS_HASH) then Flagged(INVALID_PREVIOUS_HASH)
              else if Reported(issues, INVALID_ENTRY_HASH) then Flagged(INVALID_ENTRY_HASH)
              else if Reported(issues, INVALID_SIGNATURE) then Flagged(INVALID_SIGNATURE)
              else if Reported(issues, HEAD_MISMATCH) then Flagged(HEAD_MISMATCH)
              else if Reported(issues, UNSUPPORTED_SCHEMA) then Flagged(UNSUPPORTED_SCHEMA)
              else if Reported(issues, INVALID_SEQUENCE) then Flagged(INVALID_SEQUENCE)
              else if Reported(issues, INCOMPLETE) then Flagged(INCOMPLETE)
              else if issues != [] then Flagged(INVALID_SEQUENCE)
              else if legacy then VALID_WITH_LEGACY_UNSEALED_ENTRIES
              else VALID
  {
  }

  /**
   The verdict on any stored rows within the limit, from the faults of the rows alone: the first
   fault of the order below decides, and without any it matters only whether a row is unsealed.
   */
  lemma VerdictIs(st: Stored, maxEntries: int)
    requires st.passport.Some? && |st.rows| <= (if maxEntries < 1 then 10000 else maxEntries)
    ensures Verdicts(st, maxEntries).verdict ==
              if Found(st, DUPLICATE_SEQUENCE) then Flagged(DUPLICATE_SEQUENCE)
              else if Found(st, MISSING_ENTRY) then Flagged(MISSING_ENTRY)
              else if Found(st, INVALID_PREVIOUS_HASH) then Flagged(INVALID_PREVIOUS_HASH)
              else if Found(st, INVALID_ENTRY_HASH) then Flagged(INVALID_ENTRY_HASH)
              else if Found(st, INVALID_SIGNATURE) then Flagged(INVALID_SIGNATURE)
              else if Found(st, HEAD_MISMATCH) then Flagged(HEAD_MISMATCH)
              else if Found(st, UNSUPPORTED_SCHEMA) then Flagged(UNSUPPORTED_SCHEMA)
              else if Found(st, INVALID_SEQUENCE) then Flagged(INVALID_SEQUENCE)
              else if Found(st, INCOMPLETE) then Flagged(INCOMPLETE)
              else if exists row <- st.rows :: Unsealed(row) then VALID_WITH_LEGACY_UNSEALED_ENTRIES
              else VALID
  {
    hide Judge, Found, Reported, LegacyUpTo, IssuesUpTo, HeadIssues, Unsealed;
    var issues, legacy := IssuesUpTo(st, |st.rows|) + HeadIssues(st), LegacyUpTo(st, |st.rows|);
    assert Verdicts(st, maxEntries).verdict == Judge(issues, legacy);
    forall code
      ensures Reported(issues, code) <==> Found(st, code)
    {
      AllCodes(st, code);
    }
    JudgeIs(issues, legacy);
    if issues != [] {
      IssuesHaveCodes(st, issues);
    } else {
      NothingReported(MISSING_ENTRY);
      AllNumbered(st);
      LegacyRows(st);
    }
  }

  lemma AllNumbered(st: Stored)
    requires st.passport.Some? && !Found(st, MISSING_ENTRY)
    ensures forall i: nat :: i < |st.rows| ==> Numbered(st.rows, i)
  {
    forall i: nat | i < |st.rows|
      ensures Numbered(st.rows, i)
    {
      assert !FaultAt(st, i, MISSING_ENTRY);
    }
  }

  /** Only codes of the order are ever reported, so a report without any of them is empty. */
  lemma IssuesHaveCodes(st: Stored, issues: seq<Issue>)
    requires st.passport.Some? && issues == IssuesUpTo(st, |st.rows|) + HeadIssues(st) && issues != []
    ensures exists code :: code != PASSPORT_NOT_FOUND && Reported(issues, code)
  {
    var code := issues[0].code;
    assert Reported(issues, code);
    AllCodes(st, code);
  }

  lemma LegacyRows(st: Stored)
    requires forall i: nat :: i < |st.rows| ==> Numbered(st.rows, i)
    ensures LegacyUpTo(st, |st.rows|) <==> exists row <- st.rows :: Unsealed(row)
  {
    LegacyIff(st, |st.rows|);
    forall i | 0 <= i < |st.rows|
      ensures VerifyEntrySeal(st.keys, st.rows[i]) == LEGACY_UNSEALED <==> Unsealed(st.rows[i])
    {
      SealStatusIff(st.keys, st.rows[i]);
      assert Numbered(st.rows, i);
    }
    if row :| row in st.rows && Unsealed(row) {
      var i :| 0 <= i < |st.rows| && st.rows[i] == row;
      assert Numbered(st.rows, i) && VerifyEntrySeal(st.keys, st.rows[i]) == LEGACY_UNSEALED;
    }
  }

  // ----- altered histories -----

  /** The rows are numbered 1, 2, 3 and so on. */
  predicate Consecutive(rows: seq<Row>) {
    forall x :: 0 <= x < |rows| ==> rows[x].body.seqNo == Some(x + 1)
  }

  predicate Chained(rows: seq<Row>, x: nat)
    requires x < |rows|
  {
    rows[x].body.priorHash == if x == 0 then None else rows[x - 1].contentHash
  }

  lemma ConsecutiveRow(st: Stored, x: nat)
    requires Consecutive(st.rows) && x < |st.rows|
    ensures Numbered(st.rows, x)
    ensures !FaultAt(st, x, DUPLICATE_SEQUENCE) && !FaultAt(st, x, MISSING_ENTRY) && !FaultAt(st, x, INVALID_SEQUENCE)
    ensures FaultAt(st, x, INVALID_PREVIOUS_HASH) <==> !Chained(st.rows, x)
  {
    if x > 0 {
      assert Numbered(st.rows, x - 1) && LastNumbered(st.rows, x, x - 1);
    }
  }

  lemma ConsecutiveFound(st: Stored)
    requires st.passport.Some? && Consecutive(st.rows)
    ensures !Found(st, DUPLICATE_SEQUENCE) && !Found(st, MISSING_ENTRY) && !Found(st, INVALID_SEQUENCE)
    ensures Found(st, INVALID_PREVIOUS_HASH) <==> exists x: nat :: x < |st.rows| && !Chained(st.rows, x)
  {
    hide FaultAt, Chained;
    forall x: nat | x < |st.rows|
      ensures !FaultAt(st, x, DUPLICATE_SEQUENCE) && !FaultAt(st, x, MISSING_ENTRY)
      ensures !FaultAt(st, x, INVALID_SEQUENCE) && (FaultAt(st, x, INVALID_PREVIOUS_HASH) <==> !Chained(st.rows, x))
    {
      ConsecutiveRow(st, x);
    }
  }

  predicate HashedAt(rows: seq<Row>, x: nat)
    requires x < |rows|
  {
    rows[x].contentHash == Some(Sha256(rows[x].body))
  }

  /** A history as the writer leaves it: numbered, chained and hashed. */
  ghost predicate Written(rows: seq<Row>) {
    && Consecutive(rows)
    && (forall x: nat :: x < |rows| ==> Chained(rows, x))
    && (forall x: nat :: x < |rows| ==> HashedAt(rows, x))
    && (forall row <- rows :: WellSealed(row))
  }

  lemma RunsAreWritten(passportId: string, states: seq<State>, steps: seq<Step>, k: nat)
    requires IsRun(passportId, states, steps) && k < |states|
    ensures Written(states[k].rows.entries) && RowsOk(states[k].rows)
  {
    hide WellSealed;
    RunSealsEntries(passportId, states, steps, k);
    RunKeepsInv(passportId, states, steps, k);
    var rows := states[k].rows;
    forall x: nat | x < |rows.entries|
      ensures Chained(rows.entries, x) && HashedAt(rows.entries, x) && rows.entries[x].body.seqNo == Some(x + 1)
    {
      assert LinkAt(rows.passportId, rows.entries, x);
    }
  }

  predicate WithinLimit(st: Stored, maxEntries: int) {
    |st.rows| <= if maxEntries < 1 then 10000 else maxEntries
  }

  lemma FoundAt(st: Stored, i: nat, code: Code)
    requires st.passport.Some? && i < |st.rows| && FaultAt(st, i, code)
    ensures Found(st, code)
  {
  }

  lemma NowhereFound(st: Stored, code: Code)
    requires st.passport.Some? && code != HEAD_MISMATCH && forall x: nat :: x < |st.rows| ==> !FaultAt(st, x, code)
    ensures !Found(st, code)
  {
  }

  /**
   One entry of a written history has another content than it was written with, the number and
   the stored hash being kept: a changed link to its predecessor is answered by that code, any
   other change of a hashed field as a wrong entry hash, whatever seals and passport row say.
   */
  lemma ChangedEntryIsNamed(passportId: string, states: seq<State>, steps: seq<Step>, k: nat, st: Stored,
                            maxEntries: int, i: nat, body: EntryBody)
    requires IsRun(passportId, states, steps) && k < |states| && i < |states[k].rows.entries|
    requires body != states[k].rows.entries[i].body && body.seqNo == states[k].rows.entries[i].body.seqNo
    requires st.rows == states[k].rows.entries[i := states[k].rows.entries[i].(body := body)]
    requires st.passport.Some? && WithinLimit(st, maxEntries)
    ensures Verdicts(st, maxEntries).verdict ==
              if body.priorHash != states[k].rows.entries[i].body.priorHash then Flagged(INVALID_PREVIOUS_HASH)
              else Flagged(INVALID_ENTRY_HASH)
  {
    hide Verdicts, Found, IsRun, RowsOk, FaultAt, Chained, HashedAt, WellSealed;
    RunsAreWritten(passportId, states, steps, k);
    VerdictIs(st, maxEntries);
    ChangedLinks(states[k].rows.entries, st.rows, i, body);
    ConsecutiveFound(st);
    ChangedBodyHasWrongHash(st, i);
    FoundAt(st, i, INVALID_ENTRY_HASH);
  }

  lemma ChangedLinks(entries: seq<Row>, rows: seq<Row>, i: nat, body: EntryBody)
    requires Written(entries) && i < |entries| && body != entries[i].body && body.seqNo == entries[i].body.seqNo
    requires rows == entries[i := entries[i].(body := body)]
    ensures Consecutive(rows) && !HashedAt(rows, i)
    ensures forall x: nat :: x < |rows| && x != i ==> Chained(rows, x)
    ensures Chained(rows, i) <==> body.priorHash == entries[i].body.priorHash
  {
    assert Chained(entries, i) && HashedAt(entries, i);
    forall x: nat | x < |rows| && x != i
      ensures Chained(rows, x)
    {
      assert Chained(entries, x);
    }
  }

  lemma ChangedBodyHasWrongHash(st: Stored, i: nat)
    requires i < |st.rows| && Numbered(st.rows, i) && !HashedAt(st.rows, i)
    ensures FaultAt(st, i, INVALID_ENTRY_HASH)
  {
  }

  /** A history with an entry dropped before its end is answered as one with a missing entry. */
  lemma DroppedEntryIsNamed(passportId: string, states: seq<State>, steps: seq<Step>, k: nat, st: Stored,
                            maxEntries: int, i: nat)
    requires IsRun(passportId, states, steps) && k < |states| && i + 1 < |states[k].rows.entries|
    requires st.rows == states[k].rows.entries[..i] + states[k].rows.entries[i + 1..]
    requires st.passport.Some? && WithinLimit(st, maxEntries)
    ensures Verdicts(st, maxEntries).verdict == Flagged(MISSING_ENTRY)
  {
    hide Verdicts, Found, IsRun, RowsOk, FaultAt, WellSealed, Chained, HashedAt;
    RunsAreWritten(passportId, states, steps, k);
    VerdictIs(st, maxEntries);
    assert forall x :: 0 <= x < |st.rows| ==> st.rows[x].body.seqNo == Some(if x < i then x + 1 else x + 2);
    OneGap(st, i);
    FoundAt(st, i, MISSING_ENTRY);
    NowhereFound(st, DUPLICATE_SEQUENCE);
  }

  lemma OneGap(st: Stored, i: nat)
    requires i < |st.rows|
    requires forall x :: 0 <= x < |st.rows| ==> st.rows[x].body.seqNo == Some(if x < i then x + 1 else x + 2)
    ensures FaultAt(st, i, MISSING_ENTRY)
    ensures forall x: nat :: x < |st.rows| ==> !FaultAt(st, x, DUPLICATE_SEQUENCE)
  {
  }

  /** A history with an entry stored twice in a row is answered as one with a duplicate number. */
  lemma RepeatedEntryIsNamed(passportId: string, states: seq<State>, steps: seq<Step>, k: nat, st: Stored,
                             maxEntries: int, i: nat)
    requires IsRun(passportId, states, steps) && k < |states| && i < |states[k].rows.entries|
    requires st.rows == states[k].rows.entries[..i + 1] + states[k].rows.entries[i..]
    requires st.passport.Some? && WithinLimit(st, maxEntries)
    ensures Verdicts(st, maxEntries).verdict == Flagged(DUPLICATE_SEQUENCE)
  {
    hide Verdicts, Found, IsRun, RowsOk, WellSealed, Chained, HashedAt;
    RunsAreWritten(passportId, states, steps, k);
    VerdictIs(st, maxEntries);
    assert st.rows[i] == st.rows[i + 1] == states[k].rows.entries[i];
    FoundAt(st, i + 1, DUPLICATE_SEQUENCE);
  }

  /** The receipts that the checker finds are among those that the writer left. */
  ghost predicate OwnReceipts(st: Stored, rows: Rows) {
    forall id <- st.receipts ::
      exists receipt <- rows.receipts :: receipt.entryId == id && receipt.hash == st.receipts[id]
  }

  /** Same ids and hashed fields, row by row. */
  predicate SameHashedFields(rows: seq<Row>, entries: seq<Row>) {
    && |rows| == |entries|
    && forall x :: 0 <= x < |rows| ==>
         rows[x].id == entries[x].id && rows[x].body == entries[x].body && rows[x].contentHash == entries[x].contentHash
  }

  lemma NoHashFault(st: Stored, rows: Rows)
    requires RowsOk(rows) && Written(rows.entries) && SameHashedFields(st.rows, rows.entries) && OwnReceipts(st, rows)
    requires st.passport.Some?
    ensures !Found(st, INVALID_ENTRY_HASH) && !Found(st, INVALID_PREVIOUS_HASH)
    ensures !Found(st, DUPLICATE_SEQUENCE) && !Found(st, MISSING_ENTRY)
  {
    hide WellSealed, Found;
    ConsecutiveFound(st);
    forall x: nat | x < |st.rows|
      ensures Chained(st.rows, x)
    {
      assert Chained(rows.entries, x);
    }
    forall x: nat | x < |st.rows|
      ensures !FaultAt(st, x, INVALID_ENTRY_HASH)
    {
      assert HashedAt(rows.entries, x);
      if st.rows[x].id in st.receipts {
        ReceiptOfEntry(st, rows, x);
      }
    }
    NowhereFound(st, INVALID_ENTRY_HASH);
  }

  lemma ReceiptOfEntry(st: Stored, rows: Rows, x: nat)
    requires RowsOk(rows) && OwnReceipts(st, rows) && x < |rows.entries| && rows.entries[x].id in st.receipts
    ensures st.receipts[rows.entries[x].id] == rows.entries[x].contentHash
  {
    var id := rows.entries[x].id;
    var receipt :| receipt in rows.receipts && receipt.entryId == id && receipt.hash == st.receipts[id];
    var j: nat :| j < |rows.receipts| && rows.receipts[j] == receipt;
    assert ReceiptAt(rows, j);
    assert rows.entries[j].id == rows.entries[x].id;
  }

  lemma OwnSealHasNoFault(keys: map<string, string>, row: Row, rows: seq<Row>)
    requires WellSealed(row) && row in rows && KeysRetained(rows, keys)
    ensures !IncompleteSeal(row) && !WrongSeal(keys, row)
    ensures forall other :: Checkable(row) && Some(other) != row.signature ==>
              var forged := row.(signature := Some(other)); IncompleteSeal(forged) || WrongSeal(keys, forged)
  {
  }

  /**
   A written history with one seal replaced is answered as one with an invalid signature, if the
   key ring still has the keys, and whatever the passport row says.
   */
  lemma ChangedSealIsNamed(passportId: string, states: seq<State>, steps: seq<Step>, k: nat, st: Stored,
                           maxEntries: int, i: nat, signature: Signature)
    requires IsRun(passportId, states, steps) && k < |states| && i < |states[k].rows.entries|
    requires Checkable(states[k].rows.entries[i]) && Some(signature) != states[k].rows.entries[i].signature
    requires st.rows == states[k].rows.entries[i := states[k].rows.entries[i].(signature := Some(signature))]
    requires KeysRetained(states[k].rows.entries, st.keys) && OwnReceipts(st, states[k].rows)
    requires st.passport.Some? && WithinLimit(st, maxEntries)
    ensures Verdicts(st, maxEntries).verdict == Flagged(INVALID_SIGNATURE)
  {
    hide Verdicts, Found, IsRun, RowsOk, Chained, HashedAt, KeysRetained, WellSealed;
    hide IncompleteSeal, WrongSeal, Checkable;
    RunsAreWritten(passportId, states, steps, k);
    VerdictIs(st, maxEntries);
    NoHashFault(st, states[k].rows);
    var row := states[k].rows.entries[i];
    assert row in states[k].rows.entries;
    OwnSealHasNoFault(st.keys, row, states[k].rows.entries);
    assert st.rows[i] == row.(signature := Some(signature)) && Numbered(st.rows, i);
    FoundAt(st, i, INVALID_SIGNATURE);
  }

  /** An untouched history next to a passport row with another head or revision is answered as a head mismatch. */
  lemma MovedHeadIsNamed(passportId: string, states: seq<State>, steps: seq<Step>, k: nat, st: Stored, maxEntries: int)
    requires IsRun(passportId, states, steps) && k < |states|
    requires st.rows == states[k].rows.entries && KeysRetained(st.rows, st.keys) && OwnReceipts(st, states[k].rows)
    requires st.passport.Some? && WithinLimit(st, maxEntries) && HeadContradicted(st)
    ensures Verdicts(st, maxEntries).verdict == Flagged(HEAD_MISMATCH)
  {
    hide Verdicts, IsRun, RowsOk, Chained, HashedAt, KeysRetained, WellSealed, IncompleteSeal, WrongSeal, FaultBefore;
    RunsAreWritten(passportId, states, steps, k);
    VerdictIs(st, maxEntries);
    NoHashFault(st, states[k].rows);
    forall x: nat | x < |st.rows|
      ensures !FaultAt(st, x, INVALID_SIGNATURE)
    {
      assert st.rows[x] in st.rows;
      OwnSealHasNoFault(st.keys, st.rows[x], st.rows);
    }
    NowhereFound(st, INVALID_SIGNATURE);
  }

  // ----- the rest of the report -----

  lemma IssueAtIff(st: Stored, i: nat, code: Code)
    requires i < |st.rows|
    ensures Issue(code, i) in IssuesAt(st, i) <==> FaultAt(st, i, code)
  {
    hide IssuesAt, FaultAt;
    CodeAtIff(st, i, code);
    IssuePositions(st, i);
    var issues := IssuesAt(st, i);
    if Reported(issues, code) {
      var x :| 0 <= x < |issues| && issues[x].code == code;
      assert issues[x] in issues;
      assert issues[x] == Issue(code, i);
    }
  }

  lemma {:induction false} IssueUpToIff(st: Stored, n: nat, i: nat, code: Code)
    requires n <= |st.rows|
    ensures Issue(code, i) in IssuesUpTo(st, n) <==> i < n && FaultAt(st, i, code)
  {
    hide IssuesAt, FaultAt;
    if n > 0 {
      IssueUpToIff(st, n - 1, i, code);
      IssuePositions(st, n - 1);
      if i == n - 1 {
        IssueAtIff(st, i, code);
      }
    }
  }

  /**
   The report on an existing passport: its issues are the faults of the inspected rows, each at
   its own position, and one more for a head mismatch or a cut inspection; a longer history
   is inspected up to the limit and answered INCOMPLETE.
   */
  lemma ReportIs(st: Stored, maxEntries: int, i: nat, code: Code)
    requires st.passport.Some?
    ensures var report, limit := Verdicts(st, maxEntries), if maxEntries < 1 then 10000 else maxEntries;
            && report.inspected == Min(|st.rows|, limit)
            && report.truncated == (|st.rows| > limit)
            && (i < report.inspected ==> (Issue(code, i) in report.issues <==> FaultAt(st, i, code)))
            && (i == report.inspected ==>
                  (Issue(code, i) in report.issues <==>
                   if |st.rows| > limit then code == INCOMPLETE else code == HEAD_MISMATCH && HeadContradicted(st)))
            && (i > report.inspected ==> Issue(code, i) !in report.issues)
            && (|st.rows| > limit ==> report.verdict == Flagged(INCOMPLETE))
            && (report.legacy <==>
                exists x :: 0 <= x < report.inspected && Numbered(st.rows, x) && Unsealed(st.rows[x]))
  {
    hide FaultAt, Unsealed, Judge, HeadContradicted;
    var n: nat := Min(|st.rows|, Limit(maxEntries));
    IssueUpToIff(st, n, i, code);
    HeadCodes(st, code);
    LegacyIff(st, n);
    forall x: nat | x < n
      ensures VerifyEntrySeal(st.keys, st.rows[x]) == LEGACY_UNSEALED <==> Unsealed(st.rows[x])
    {
      SealStatusIff(st.keys, st.rows[x]);
    }
    hide VerifyEntrySeal;
    HeadPositions(st, i, code);
  }

  lemma HeadPositions(st: Stored, i: nat, code: Code)
    requires st.passport.Some?
    ensures Issue(code, i) in HeadIssues(st) <==> i == |st.rows| && Reported(HeadIssues(st), code)
  {
  }

  /** Without a passport row there is nothing to inspect. */
  lemma NoPassport(st: Stored, maxEntries: int)
    requires st.passport.None?
    ensures Verdicts(st, maxEntries) == Report(UNAVAILABLE, [Issue(PASSPORT_NOT_FOUND, 0)], 0, true, false)
  {
  }
}
