/** Versioned HMAC sealing of ledger entries. */
module Seals {
  import opened Basics
  import opened Records

  const ALGORITHM := "HMAC-SHA256"

  /** The environment: the active key version, the configured keys, and whether sealing is mandatory. */
  datatype SealEnv = SealEnv(active: Option<string>, keys: map<string, string>, required: bool)

  datatype SealMeta = SealMeta(
    algorithm: Option<string>,
    keyVersion: Option<string>,
    signature: Option<Signature>)

  datatype SealStatus = SEAL_VALID | LEGACY_UNSEALED | SEAL_INVALID | SEAL_KEY_MISSING | SEAL_UNSUPPORTED

  function KeyFor(keys: map<string, string>, version: string): Option<string> {
    if version in keys && keys[version] != "" then Some(keys[version]) else None
  }

  predicate Sealing(env: SealEnv) {
    Present(env.active) && KeyFor(env.keys, env.active.value).Some?
  }

  /** `None` is the configuration error raised when sealing is required without a key. */
  function SealEntry(env: SealEnv, body: SealBody): Option<SealMeta> {
    if !Sealing(env) then
      if env.required then None else Some(SealMeta(None, None, None))
    else
      Some(SealMeta(Some(ALGORITHM), env.active, Some(Hmac(KeyFor(env.keys, env.active.value).value, body))))
  }

  function SealBodyOf(row: Row): SealBody {
    SealBody(row.body, row.contentHash, row.revision)
  }

  predicate EmptySignature(s: Option<Signature>) {
    s == None || s == Some(Unkeyed(""))
  }

  function VerifyEntrySeal(keys: map<string, string>, row: Row): SealStatus {
    if !Present(row.algorithm) && EmptySignature(row.signature) then LEGACY_UNSEALED
    else if row.algorithm != Some(ALGORITHM) then SEAL_UNSUPPORTED
    else if !Present(row.keyVersion) || EmptySignature(row.signature) then SEAL_INVALID
    else
      var key := KeyFor(keys, row.keyVersion.value);
      if key.None? then SEAL_KEY_MISSING
      else if Hmac(key.value, SealBodyOf(row)) == row.signature.value then SEAL_VALID
      else SEAL_INVALID
  }

  predicate Carries(row: Row, meta: SealMeta) {
    row.algorithm == meta.algorithm && row.keyVersion == meta.keyVersion && row.signature == meta.signature
  }

  /** The row carries the seal that this environment can make, or none if it can make none and may go without. */
  predicate SealedBy(row: Row, env: SealEnv) {
    if env.active.Some? && env.active.value != "" && env.active.value in env.keys && env.keys[env.active.value] != ""
    then
      && row.algorithm == Some("HMAC-SHA256") && row.keyVersion == env.active
      && row.signature == Some(Hmac(env.keys[env.active.value], SealBody(row.body, row.contentHash, row.revision)))
    else !env.required && row.algorithm == None && row.keyVersion == None && row.signature == None
  }

  lemma SealedWhenPossible(env: SealEnv, row: Row)
    ensures (exists meta :: SealEntry(env, SealBodyOf(row)) == Some(meta) && Carries(row, meta)) <==> SealedBy(row, env)
  {
    if SealedBy(row, env) {
      assert Carries(row, SealEntry(env, SealBodyOf(row)).value);
    }
  }

  /**
   Sealing and checking fit together: a row that carries the metadata made for `body`
   passes the check, under a key ring that still has the sealing key, exactly when the row
   still agrees with `body` on all nine fields. Without a sealing key it reads as unsealed.
   */
  lemma SealRoundTrip(env: SealEnv, body: SealBody, row: Row, keys: map<string, string>)
    requires SealEntry(env, body).Some?
    requires Carries(row, SealEntry(env, body).value)
    requires Sealing(env) ==> KeyFor(keys, env.active.value) == KeyFor(env.keys, env.active.value)
    ensures Sealing(env) ==> (VerifyEntrySeal(keys, row) == SEAL_VALID <==> SealBodyOf(row) == body)
    ensures Sealing(env) ==> VerifyEntrySeal(keys, row) in {SEAL_VALID, SEAL_INVALID}
    ensures !Sealing(env) ==> VerifyEntrySeal(keys, row) == LEGACY_UNSEALED
  {
  }
}
