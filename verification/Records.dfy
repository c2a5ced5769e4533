/**
 The stored rows of one Passport ledger. SHA-256 and HMAC are symbolic: a digest
 remembers the body it was computed from, so two digests agree exactly when the
 bodies do. `Text` stands for any stored string that no hash run produced.
 */
module Records {
  import opened Basics

  datatype Digest = Sha256(body: EntryBody) | Text(text: string)

  /** The seven fields that go into the content hash. */
  datatype EntryBody = EntryBody(
    passportId: string,
    seqNo: Option<int>,
    entryType: string,
    payload: string,
    priorHash: Option<Digest>,
    at: int,
    authoredBy: string)

  /** The nine fields that go into the seal. */
  datatype SealBody = SealBody(body: EntryBody, contentHash: Option<Digest>, revision: Option<int>)

  datatype Signature = Hmac(key: string, body: SealBody) | Unkeyed(text: string)

  datatype Row = Row(
    id: string,
    body: EntryBody,
    contentHash: Option<Digest>,
    revision: Option<int>,
    schemaVersion: Option<string>,
    key: Option<string>,
    algorithm: Option<string>,
    keyVersion: Option<string>,
    signature: Option<Signature>)

  datatype Receipt = Receipt(
    id: string,
    entryId: string,
    hash: Option<Digest>,
    sequence: int,
    revision: int,
    fingerprint: Fingerprint)

  /** The canonical request fingerprint; tenant, passport and property are those of the ledger. */
  datatype Fingerprint = Fingerprint(
    sourceType: Option<string>,
    sourceId: Option<string>,
    entryType: string,
    payload: string,
    schemaVersion: string,
    context: string,
    expectedRevision: Option<int>,
    expectedHead: Option<Digest>,
    requireExpected: bool)

  datatype IdemStatus = COMMITTED | FAILED

  datatype IdemRow = IdemRow(
    status: IdemStatus,
    fingerprint: Fingerprint,
    entryId: Option<string>,
    receiptId: Option<string>)

  /** A hash field that Python treats as missing: absent or the empty string. */
  predicate EmptyHash(h: Option<Digest>) {
    h == None || h == Some(Text(""))
  }
}
