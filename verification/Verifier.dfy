/**
 The bounded chain checker. It walks the stored rows of one passport in the order the
 database returns them, whatever those rows contain, and never changes them.
 */
module Verifier {
  import opened Basics
  import opened Records
  import opened Seals

  const DEFAULT_LIMIT := 10000

  datatype Code =
    | DUPLICATE_SEQUENCE | MISSING_ENTRY | INVALID_PREVIOUS_HASH | INVALID_ENTRY_HASH | INVALID_SIGNATURE
    | HEAD_MISMATCH | UNSUPPORTED_SCHEMA | INVALID_SEQUENCE | INCOMPLETE | PASSPORT_NOT_FOUND

  datatype Issue = Issue(code: Code, position: nat)

  datatype Verdict =
    | VALID
    | VALID_WITH_LEGACY_UNSEALED_ENTRIES
    | UNAVAILABLE
    | Flagged(code: Code)

  datatype PassportRow = PassportRow(head: Option<Digest>, revision: Option<int>)

  /** What the checker reads: the rows, the receipt hash found for an entry id, and the key ring. */
  datatype Stored = Stored(
    passport: Option<PassportRow>,
    rows: seq<Row>,
    receipts: map<string, Option<Digest>>,
    keys: map<string, string>)

  datatype Report = Report(verdict: Verdict, issues: seq<Issue>, inspected: nat, truncated: bool, legacy: bool)

  predicate SchemaSupported(row: Row) {
    row.schemaVersion in [None, Some("1"), Some("2"), Some("2.0")]
  }

  predicate ReceiptAgrees(st: Stored, row: Row) {
    row.id in st.receipts ==> st.receipts[row.id] in {None, row.contentHash}
  }

  // ----- the walk, as functions of the rows before a position -----

  function ExpectedSeq(rows: seq<Row>, i: nat): int
    requires i <= |rows|
  {
    if i == 0 then 1
    else if rows[i - 1].body.seqNo.None? then ExpectedSeq(rows, i - 1)
    else Max(ExpectedSeq(rows, i - 1), rows[i - 1].body.seqNo.value + 1)
  }

  function PriorHash(rows: seq<Row>, i: nat): Option<Digest>
    requires i <= |rows|
  {
    if i == 0 then None
    else if rows[i - 1].body.seqNo.None? then PriorHash(rows, i - 1)
    else rows[i - 1].contentHash
  }

  /** How many of the first `i` rows carry sequence number `n`. */
  function Occurrences(rows: seq<Row>, i: nat, n: int): nat
    requires i <= |rows|
  {
    if i == 0 then 0
    else Occurrences(rows, i - 1, n) + if rows[i - 1].body.seqNo == Some(n) then 1 else 0
  }

  function When(condition: bool, code: Code, position: nat): seq<Issue> {
    if condition then [Issue(code, position)] else []
  }

  /** A check that failed or passed, and the code it reports. */
  datatype Check = Check(failed: bool, code: Code)

  function Collect(checks: seq<Check>, position: nat): seq<Issue> {
    if checks == [] then []
    else When(checks[0].failed, checks[0].code, position) + Collect(checks[1..], position)
  }

  /** The checks made on one numbered row, given what the walk knows when it reaches the row. */
  function Checks(st: Stored, row: Row, again: bool, expected: int, prior: Option<Digest>): seq<Check>
    requires row.body.seqNo.Some?
  {
    var n := row.body.seqNo.value;
    var seal := VerifyEntrySeal(st.keys, row);
    [ Check(again, DUPLICATE_SEQUENCE),
      Check(!SchemaSupported(row), UNSUPPORTED_SCHEMA),
      Check(n > expected, MISSING_ENTRY),
      Check(n < expected, INVALID_SEQUENCE),
      Check(row.body.priorHash != prior, INVALID_PREVIOUS_HASH),
      Check(Some(Sha256(row.body)) != row.contentHash, INVALID_ENTRY_HASH),
      Check(seal == SEAL_INVALID, INVALID_SIGNATURE),
      Check(seal == SEAL_KEY_MISSING, INCOMPLETE),
      Check(seal == SEAL_UNSUPPORTED, UNSUPPORTED_SCHEMA),
      Check(!ReceiptAgrees(st, row), INVALID_ENTRY_HASH)]
  }

  function IssuesAt(st: Stored, i: nat): seq<Issue>
    requires i < |st.rows|
  {
    if st.rows[i].body.seqNo.None? then [Issue(MISSING_ENTRY, i)]
    else
      var again := Occurrences(st.rows, i, st.rows[i].body.seqNo.value) > 0;
      Collect(Checks(st, st.rows[i], again, ExpectedSeq(st.rows, i), PriorHash(st.rows, i)), i)
  }

  function IssuesUpTo(st: Stored, n: nat): seq<Issue>
    requires n <= |st.rows|
  {
    if n == 0 then [] else IssuesUpTo(st, n - 1) + IssuesAt(st, n - 1)
  }

  function HeadIssues(st: Stored): seq<Issue>
    requires st.passport.Some?
  {
    if st.rows == [] then []
    else
      var passport, last := st.passport.value, st.rows[|st.rows| - 1];
      When(!EmptyHash(passport.head) && passport.head != last.contentHash, HEAD_MISMATCH, |st.rows|)
      + When(passport.revision.Some? && last.revision.Some? && passport.revision != last.revision,
             HEAD_MISMATCH, |st.rows|)
  }

  /** Some numbered row among the first `n` carries no seal. */
  predicate LegacyUpTo(st: Stored, n: nat)
    requires n <= |st.rows|
  {
    n > 0 &&
    (LegacyUpTo(st, n - 1) ||
     (st.rows[n - 1].body.seqNo.Some? && VerifyEntrySeal(st.keys, st.rows[n - 1]) == LEGACY_UNSEALED))
  }

  predicate Reported(issues: seq<Issue>, code: Code) {
    exists i :: 0 <= i < |issues| && issues[i].code == code
  }

  function Judge(issues: seq<Issue>, legacy: bool): Verdict {
    if Reported(issues, DUPLICATE_SEQUENCE) then Flagged(DUPLICATE_SEQUENCE)
    else if Reported(issues, MISSING_ENTRY) then Flagged(MISSING_ENTRY)
    else if Reported(issues, INVALID_PREVIOUS_HASH) then Flagged(INVALID_PREVIOUS_HASH)
    else if Reported(issues, INVALID_ENTRY_HASH) then Flagged(INVALID_ENTRY_HASH)
    else if Reported(issues, INVALID_SIGNATURE) then Flagged(INVALID_SIGNATURE)
    else if Reported(issues, HEAD_MISMATCH) then Flagged(HEAD_MISMATCH)
    else if Reported(issues, UNSUPPORTED_SCHEMA) then Flagged(UNSUPPORTED_SCHEMA)
    else if Reported(issues, INVALID_SEQUENCE) then Flagged(INVALID_SEQUENCE)
    else if Reported(issues, INCOMPLETE) then Flagged(INCOMPLETE)
    else if legacy && issues == [] then VALID_WITH_LEGACY_UNSEALED_ENTRIES
    else if issues == [] then VALID
    else Flagged(INVALID_SEQUENCE)
  }

  /** The order in which the checker decides between codes that were found. */
  const SEVERITY := [DUPLICATE_SEQUENCE, MISSING_ENTRY, INVALID_PREVIOUS_HASH, INVALID_ENTRY_HASH, INVALID_SIGNATURE,
                     HEAD_MISMATCH, UNSUPPORTED_SCHEMA, INVALID_SEQUENCE, INCOMPLETE]

  function Limit(maxEntries: int): (limit: nat)
    ensures limit >= 1
  {
    if maxEntries < 1 then DEFAULT_LIMIT else maxEntries
  }

  function Verdicts(st: Stored, maxEntries: int): Report {
    var limit := Limit(maxEntries);
    if st.passport.None? then Report(UNAVAILABLE, [Issue(PASSPORT_NOT_FOUND, 0)], 0, true, false)
    else if |st.rows| > limit then
      Report(Flagged(INCOMPLETE), IssuesUpTo(st, limit) + [Issue(INCOMPLETE, limit)], limit, true,
             LegacyUpTo(st, limit))
    else
      var issues := IssuesUpTo(st, |st.rows|) + HeadIssues(st);
      var legacy := LegacyUpTo(st, |st.rows|);
      Report(Judge(issues, legacy), issues, |st.rows|, false, legacy)
  }

  /** `verify_passport_chain`. */
  method VerifyChain(st: Stored, maxEntries: int) returns (report: Report)
    ensures report == Verdicts(st, maxEntries)
  {
    hide Checks, Collect, Judge, HeadIssues;
    var limit := Limit(maxEntries);
    if st.passport.None? {
      return Report(UNAVAILABLE, [Issue(PASSPORT_NOT_FOUND, 0)], 0, true, false);
    }
    var issues: seq<Issue> := [];
    var legacy, truncated := false, false;
    var seen: map<int, int> := map[];
    var expected := 1;
    var prior: Option<Digest> := None;
    var inspected := 0;
    while inspected < |st.rows|
      invariant 0 <= inspected <= |st.rows| && inspected <= limit && !truncated
      invariant issues == IssuesUpTo(st, inspected)
      invariant legacy == LegacyUpTo(st, inspected)
      invariant forall n :: Occurrences(st.rows, inspected, n) == if n in seen then seen[n] else 0
      invariant expected == ExpectedSeq(st.rows, inspected)
      invariant prior == PriorHash(st.rows, inspected)
    {
      if inspected >= limit {
        truncated := true;
        break;
      }
      var i, row := inspected, st.rows[inspected];
      inspected := inspected + 1;
      if row.body.seqNo.None? {
        issues := issues + [Issue(MISSING_ENTRY, i)];
        continue;
      }
      var n := row.body.seqNo.value;
      seen := seen[n := (if n in seen then seen[n] else 0) + 1];
      issues := issues + Collect(Checks(st, row, seen[n] > 1, expected, prior), i);
      expected := Max(expected, n + 1);
      if VerifyEntrySeal(st.keys, row) == LEGACY_UNSEALED {
        legacy := true;
      }
      prior := row.contentHash;
    }
    if truncated {
      return Report(Flagged(INCOMPLETE), issues + [Issue(INCOMPLETE, limit)], inspected, true, legacy);
    }
    issues := issues + HeadIssues(st);
    return Report(Judge(issues, legacy), issues, inspected, false, legacy);
  }
}
