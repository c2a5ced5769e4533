/**
 When exactly repeating a committed request returns the original, over all runs: what becomes of
 the idempotency record of a key after its entry was committed.
 */
module Repeats {
  import opened Basics
  import opened Records
  import opened Seals
  import opened Ledger
  import opened LedgerRuns

  predicate CommittedAt(s: State, key: string) {
    key in s.rows.idem && s.rows.idem[key].status == COMMITTED
  }

  /** The step records a failure under the key. */
  predicate Spoils(s: State, step: Step, key: string) {
    Enabled(s, step) && step.Record? && s.calls[step.id].req.key == Some(key)
  }

  /** A call of the key has consulted the idempotency record, was let through, and has not ended. */
  predicate PastCheck(s: State, id: nat, key: string) {
    id in s.calls && s.calls[id].req.key == Some(key)
    && (s.calls[id].Admitted? || s.calls[id].Releasing? || s.calls[id].Recording?)
  }

  /** Between moments `c` and `k`, a call that was past its check at `c` records a failure. */
  ghost predicate SpoiltBetween(states: seq<State>, steps: seq<Step>, c: nat, k: nat, key: string)
    requires |states| == |steps| + 1 && c <= k < |states|
  {
    exists x: nat :: c <= x < k && Spoils(states[x], steps[x], key) && PastCheck(states[c], steps[x].id, key)
  }

  lemma StepOnRecord(s: State, step: Step, key: string)
    requires Enabled(s, step) && key != "" && key in s.rows.idem
    ensures key in Apply(s, step).rows.idem
    ensures if Spoils(s, step, key) then Apply(s, step).rows.idem[key].status == FAILED
            else Apply(s, step).rows.idem[key] == s.rows.idem[key]
  {
    hide FingerprintOf, SealEntry, IndexesAllow;
    if step.Transact? {
      TransactOnRecord(s, step, key);
    }
  }

  lemma TransactOnRecord(s: State, step: Step, key: string)
    requires Enabled(s, step) && step.Transact? && key != "" && key in s.rows.idem
    ensures key in Apply(s, step).rows.idem && Apply(s, step).rows.idem[key] == s.rows.idem[key]
  {
    hide FingerprintOf, SealEntry;
  }

  /** While the record says COMMITTED, no call gets past its check. */
  lemma StepPastCheck(s: State, step: Step, id: nat, key: string)
    requires Enabled(s, step) && key != "" && CommittedAt(s, key) && PastCheck(Apply(s, step), id, key)
    ensures PastCheck(s, id, key)
  {
    hide FingerprintOf, Commit, IsStale;
  }

  lemma {:induction false} WasPastCheck(
    passportId: string, states: seq<State>, steps: seq<Step>, c: nat, y: nat, id: nat, key: string)
    requires IsRun(passportId, states, steps) && c <= y < |states| && key != ""
    requires PastCheck(states[y], id, key) && forall z: nat :: c <= z < y ==> CommittedAt(states[z], key)
    ensures PastCheck(states[c], id, key)
    decreases y
  {
    if c < y {
      StepPastCheck(states[y - 1], steps[y - 1], id, key);
      WasPastCheck(passportId, states, steps, c, y - 1, id, key);
    }
  }

  /**
   What becomes of a committed record. It is kept unchanged exactly as long as no call that was
   past its check when the record was committed records a failure; otherwise it says FAILED for good.
   */
  lemma {:induction false} RecordKeptIff(
    passportId: string, states: seq<State>, steps: seq<Step>, c: nat, k: nat, key: string)
    requires IsRun(passportId, states, steps) && c <= k < |states| && key != "" && CommittedAt(states[c], key)
    ensures key in states[k].rows.idem
    ensures CommittedAt(states[k], key) <==> !SpoiltBetween(states, steps, c, k, key)
    ensures CommittedAt(states[k], key) ==>
              && states[k].rows.idem[key] == states[c].rows.idem[key]
              && forall x: nat :: c <= x < k ==> CommittedAt(states[x], key) && !Spoils(states[x], steps[x], key)
    decreases k
  {
    hide Apply, Enabled, Spoils, PastCheck, FingerprintOf;
    if c < k {
      RecordKeptIff(passportId, states, steps, c, k - 1, key);
      StepOnRecord(states[k - 1], steps[k - 1], key);
      if CommittedAt(states[k - 1], key) && Spoils(states[k - 1], steps[k - 1], key) {
        SpoilerIsPastCheck(states[k - 1], steps[k - 1], key);
        WasPastCheck(passportId, states, steps, c, k - 1, steps[k - 1].id, key);
      }
    }
  }

  lemma SpoilerIsPastCheck(s: State, step: Step, key: string)
    requires Spoils(s, step, key)
    ensures step.Record? && PastCheck(s, step.id, key)
  {
  }

  /** The answer of a check is the committed record exactly if that record is still there and asks for the same. */
  lemma CheckAnswer(s: State, id: nat, key: string)
    requires Enabled(s, Check(id)) && key != "" && s.calls[id].req.key == Some(key) && key in s.rows.idem
    requires s.calls[id].req.requireExpected ==> PinsState(s.calls[id].req)
    ensures Apply(s, Check(id)).rows == s.rows
    ensures var req, record, ends := s.calls[id].req, s.rows.idem[key], Apply(s, Check(id)).calls[id];
            && (ends.Done? && ends.ending.Repeated? <==>
                CommittedAt(s, key) && Asks(record.fingerprint, req))
            && (ends.Done? && ends.ending.Repeated? ==> ends.ending.record == record)
            && (ends == Done(req, Turned(KeyConflict)) <==> !Asks(record.fingerprint, req))
  {
  }

  /** The moment at which a call wrote its entry, and what it left under its key. */
  lemma {:induction false} WriteMoment(
    passportId: string, states: seq<State>, steps: seq<Step>, k: nat, writer: nat, n: nat)
    returns (c: nat)
    requires IsRun(passportId, states, steps) && k < |states| && WroteEntry(states[k], writer, n)
    ensures c < k && steps[c].Transact? && steps[c].id == writer && |states[c + 1].rows.entries| == n
    ensures writer in states[c].calls && states[c].calls[writer].Admitted?
    ensures states[c].calls[writer].req == states[k].calls[writer].req
    ensures var req := states[k].calls[writer].req;
            Present(req.key) ==>
              && CommittedAt(states[c + 1], req.key.value)
              && Asks(states[c + 1].rows.idem[req.key.value].fingerprint, req)
  {
    hide SealEntry, IndexesAllow, IsStale;
    assert k > 0;
    if WroteEntry(states[k - 1], writer, n) {
      c := WriteMoment(passportId, states, steps, k - 1, writer, n);
    } else {
      c := k - 1;
    }
  }

  /**
   Repeating a request that once wrote entry `n` returns the record of that entry and its receipt
   exactly if, since the entry was committed, no call of the key that was already past its check
   at that moment has recorded a failure.
   */
  lemma OriginalReturnedIff(
    passportId: string, states: seq<State>, steps: seq<Step>, k: nat, key: string, writer: nat, n: nat, id: nat)
    returns (c: nat)
    requires IsRun(passportId, states, steps) && key != "" && k < |states|
    requires WroteEntry(states[k], writer, n) && states[k].calls[writer].req.key == Some(key)
    requires Enabled(states[k], Check(id)) && states[k].calls[id].req.key == Some(key)
    requires SameRequest(states[k].calls[id].req, states[k].calls[writer].req)
    ensures c < k && steps[c].Transact? && steps[c].id == writer && |states[c + 1].rows.entries| == n
    ensures var ends := Apply(states[k], Check(id)).calls[id];
            && (ends.Done? && ends.ending.Repeated? <==> !SpoiltBetween(states, steps, c + 1, k, key))
            && (ends.Done? && ends.ending.Repeated? ==>
                  && n >= 1 && Backs(states[k].rows, key, ends.ending.record, n - 1)
                  && ends.ending.record.status == COMMITTED)
  {
    var req, original := states[k].calls[id].req, states[k].calls[writer].req;
    c := WriteMoment(passportId, states, steps, k, writer, n);
    RunKeepsInv(passportId, states, steps, k);
    assert PhaseOk(states[k].rows, states[k].calls[writer]);
    RecordKeptIff(passportId, states, steps, c + 1, k, key);
    assert PinsState(original) ==> PinsState(req);
    CheckAnswer(states[k], id, key);
    assert KeyAt(states[k].rows, n - 1);
  }

  // ----- runs that show it -----

  lemma ExtendRun(passportId: string, states: seq<State>, steps: seq<Step>, s: State, step: Step)
    returns (longer: seq<State>, more: seq<Step>, t: State)
    requires IsRun(passportId, states, steps) && states[|states| - 1] == s && Enabled(s, step)
    ensures IsRun(passportId, longer, more) && longer[|longer| - 1] == t && t == Apply(s, step)
  {
    t := Apply(s, step);
    longer, more := states + [t], steps + [step];
  }

  lemma StartIsRun(passportId: string)
    ensures IsRun(passportId, [State(Provisioned(passportId), map[])], [])
  {
  }

  /** A request that a fresh ledger admits. */
  predicate AdmittedAtStart(req: Request) {
    Present(req.key) && !IsStale(req, Snapshot(0, None)) && (req.requireExpected ==> PinsState(req))
  }

  /**
   A run that loses the original: a caller sends one request twice, both calls pass the check
   before either commits, one commits and the other records a failure over it.
   */
  lemma RepeatedRequestSpoilsRecord(passportId: string, req: Request, stamp: Stamp, seal: SealEnv)
    returns (states: seq<State>, steps: seq<Step>, s: State)
    requires AdmittedAtStart(req) && (Sealing(seal) || !seal.required)
    ensures IsRun(passportId, states, steps) && states[|states| - 1] == s
    ensures WroteEntry(s, 0, 1) && |s.rows.entries| == 1 && s.rows.entries[0].key == req.key
    ensures req.key.value in s.rows.idem && s.rows.idem[req.key.value].status == FAILED
    ensures s.calls[0].req == req && 1 in s.calls && s.calls[1] == Done(req, Broke)
  {
    hide IsRun, FingerprintOf, IsStale;
    StartIsRun(passportId);
    s := State(Provisioned(passportId), map[]);
    states, steps := [s], [];
    states, steps, s := ExtendRun(passportId, states, steps, s, Begin(0, req));
    states, steps, s := ExtendRun(passportId, states, steps, s, Begin(1, req));
    states, steps, s := ExtendRun(passportId, states, steps, s, Check(0));
    states, steps, s := ExtendRun(passportId, states, steps, s, Check(1));
    states, steps, s := ExtendRun(passportId, states, steps, s, Transact(0, stamp, seal));
    states, steps, s := ExtendRun(passportId, states, steps, s, Transact(1, stamp, seal));
    states, steps, s := ExtendRun(passportId, states, steps, s, Record(1));
  }

  /** A run in which a request fails inside its transaction, for whatever reason. */
  lemma RequestFails(passportId: string, req: Request)
    returns (states: seq<State>, steps: seq<Step>, s: State)
    requires AdmittedAtStart(req)
    ensures IsRun(passportId, states, steps) && states[|states| - 1] == s
    ensures s == State(RecordFailed(Provisioned(passportId), req), map[0 := Done(req, Broke)])
  {
    hide IsRun, FingerprintOf, IsStale;
    StartIsRun(passportId);
    s := State(Provisioned(passportId), map[]);
    states, steps := [s], [];
    states, steps, s := ExtendRun(passportId, states, steps, s, Begin(0, req));
    states, steps, s := ExtendRun(passportId, states, steps, s, Check(0));
    states, steps, s := ExtendRun(passportId, states, steps, s, Fault(0));
    states, steps, s := ExtendRun(passportId, states, steps, s, Release(0));
    states, steps, s := ExtendRun(passportId, states, steps, s, Record(0));
    assert s.calls == map[0 := Done(req, Broke)];
  }

  /**
   The run goes on with the retry of the same request: it is admitted, has the seal it needs and
   the current head, and breaks on the failure record. Only an admitted call can end as broken.
   */
  lemma FailedRequestFailsAgain(passportId: string, req: Request, stamp: Stamp, seal: SealEnv)
    returns (states: seq<State>, steps: seq<Step>, s: State)
    requires AdmittedAtStart(req) && (Sealing(seal) || !seal.required)
    ensures IsRun(passportId, states, steps) && states[|states| - 1] == s
    ensures s.rows.entries == [] && req.key.value in s.rows.idem && s.rows.idem[req.key.value].status == FAILED
    ensures s.calls == map[0 := Done(req, Broke), 1 := Done(req, Broke)]
  {
    hide IsRun, FingerprintOf, IsStale;
    states, steps, s := RequestFails(passportId, req);
    states, steps, s := ExtendRun(passportId, states, steps, s, Begin(1, req));
    states, steps, s := ExtendRun(passportId, states, steps, s, Check(1));
    states, steps, s := ExtendRun(passportId, states, steps, s, Transact(1, stamp, seal));
    states, steps, s := ExtendRun(passportId, states, steps, s, Release(1));
    states, steps, s := ExtendRun(passportId, states, steps, s, Record(1));
  }
}
