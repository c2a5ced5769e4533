/**
 The append without a transaction: claim the revision, draw a sequence number, insert the
 entry, move the head, one database call at a time, with any interleaving of callers.
 */
module Interleaving {
  import opened Basics
  import opened Records
  import opened Ledger

  datatype Stage =
    | Read(req: Request, snap: Snapshot)
    | Claimed(req: Request, snap: Snapshot)
    | Numbered(req: Request, snap: Snapshot, n: int)
    | Inserted(req: Request, snap: Snapshot, n: int, body: EntryBody)
    | Finished(req: Request, snap: Snapshot, n: int, body: EntryBody)
    | Lost(req: Request)

  /** An entry row, remembering which call wrote it. */
  datatype Posted = Posted(writer: nat, body: EntryBody, revision: int)

  /**
   The passport row, the sequence row and the entries. `claims` and `tickets` are history: who
   won each revision and who drew each sequence number.
   */
  datatype State = State(
    passportId: string,
    revision: int,
    head: Option<Digest>,
    pending: bool,
    nextSeq: int,
    entries: seq<Posted>,
    calls: map<nat, Stage>,
    claims: seq<nat>,
    tickets: seq<nat>)

  function Start(passportId: string): State {
    State(passportId, 0, None, false, 1, [], map[], [], [])
  }

  datatype Step =
    | Begin(id: nat, req: Request)
    | Claim(id: nat)
    | Draw(id: nat)
    | Insert(id: nat, at: int)
    | MoveHead(id: nat)

  predicate Enabled(s: State, step: Step) {
    match step
    case Begin(id, _) => id !in s.calls
    case Claim(id) => id in s.calls && s.calls[id].Read?
    case Draw(id) => id in s.calls && s.calls[id].Claimed?
    case Insert(id, _) => id in s.calls && s.calls[id].Numbered?
    case MoveHead(id) => id in s.calls && s.calls[id].Inserted?
  }

  function Apply(s: State, step: Step): State
    requires Enabled(s, step)
  {
    match step
    case Begin(id, req) =>
      s.(calls := s.calls[id := Read(req, Snapshot(s.revision, s.head))])
    case Claim(id) =>
      var req, snap := s.calls[id].req, s.calls[id].snap;
      if s.revision == snap.revision && (req.expectedHead.Some? ==> s.head == snap.head) then
        s.(revision := snap.revision + 1, pending := true, calls := s.calls[id := Claimed(req, snap)],
           claims := s.claims + [id])
      else s.(calls := s.calls[id := Lost(req)])
    case Draw(id) =>
      s.(nextSeq := s.nextSeq + 1, calls := s.calls[id := Numbered(s.calls[id].req, s.calls[id].snap, s.nextSeq)],
         tickets := s.tickets + [id])
    case Insert(id, at) =>
      var call := s.calls[id];
      var body := EntryBody(s.passportId, Some(call.n), call.req.entryType, call.req.payload, call.snap.head, at,
                            call.req.authoredBy);
      s.(entries := s.entries + [Posted(id, body, call.snap.revision + 1)],
         calls := s.calls[id := Inserted(call.req, call.snap, call.n, body)])
    case MoveHead(id) =>
      var call := s.calls[id];
      var t := s.(calls := s.calls[id := Finished(call.req, call.snap, call.n, call.body)]);
      if s.revision == call.snap.revision + 1 then t.(head := Some(Sha256(call.body)), pending := false) else t
  }

  ghost predicate IsRun(passportId: string, states: seq<State>, steps: seq<Step>) {
    && |states| == |steps| + 1
    && states[0] == Start(passportId)
    && forall i :: 0 <= i < |steps| ==> Enabled(states[i], steps[i]) && states[i + 1] == Apply(states[i], steps[i])
  }

  predicate Won(stage: Stage) {
    stage.Claimed? || stage.Numbered? || stage.Inserted? || stage.Finished?
  }

  predicate Ticketed(stage: Stage) {
    stage.Numbered? || stage.Inserted? || stage.Finished?
  }

  predicate Posting(stage: Stage) {
    stage.Inserted? || stage.Finished?
  }

  ghost predicate ClaimsOk(s: State) {
    && |s.claims| == s.revision && NoDuplicates(s.claims)
    && (forall r :: 0 <= r < |s.claims| ==>
          s.claims[r] in s.calls && Won(s.calls[s.claims[r]]) && s.calls[s.claims[r]].snap.revision == r)
    && (forall id <- s.calls :: Won(s.calls[id]) ==> id in s.claims)
  }

  ghost predicate TicketsOk(s: State) {
    && |s.tickets| == s.nextSeq - 1 && NoDuplicates(s.tickets)
    && (forall q :: 0 <= q < |s.tickets| ==>
          s.tickets[q] in s.calls && Ticketed(s.calls[s.tickets[q]]) && s.calls[s.tickets[q]].n == q + 1)
    && (forall id <- s.calls :: Ticketed(s.calls[id]) ==> id in s.tickets)
  }

  function Writers(entries: seq<Posted>): seq<nat> {
    seq(|entries|, i requires 0 <= i < |entries| => entries[i].writer)
  }

  ghost predicate EntriesOk(s: State) {
    && NoDuplicates(Writers(s.entries))
    && (forall i :: 0 <= i < |s.entries| ==>
          && s.entries[i].writer in s.calls && Posting(s.calls[s.entries[i].writer])
          && s.entries[i].body == s.calls[s.entries[i].writer].body
          && s.entries[i].body.seqNo == Some(s.calls[s.entries[i].writer].n)
          && s.entries[i].revision == s.calls[s.entries[i].writer].snap.revision + 1)
    && (forall id <- s.calls :: Posting(s.calls[id]) ==> id in Writers(s.entries))
  }

  /** Once the latest winner has moved the head, the head is its entry and stays so. */
  ghost predicate HeadOk(s: State) {
    s.claims != [] ==>
      var last := s.claims[|s.claims| - 1];
      last in s.calls && s.calls[last].Finished? ==> s.head == Some(Sha256(s.calls[last].body))
  }

  ghost predicate Inv(s: State) {
    ClaimsOk(s) && TicketsOk(s) && EntriesOk(s) && HeadOk(s)
  }

  lemma WritersExtend(entries: seq<Posted>, e: Posted)
    ensures Writers(entries + [e]) == Writers(entries) + [e.writer]
  {
  }

  lemma StepKeepsClaims(s: State, step: Step)
    requires ClaimsOk(s) && Enabled(s, step)
    ensures ClaimsOk(Apply(s, step))
  {
    if step.Claim? {
      ClaimKeepsClaims(s, step.id);
    } else if step.Begin? {
      assert step.id !in s.claims;
    } else {
      assert step.id in s.claims;
    }
  }

  lemma ClaimKeepsClaims(s: State, id: nat)
    requires ClaimsOk(s) && Enabled(s, Claim(id))
    ensures ClaimsOk(Apply(s, Claim(id)))
  {
    assert id !in s.claims;
  }

  lemma StepKeepsHead(s: State, step: Step)
    requires ClaimsOk(s) && HeadOk(s) && Enabled(s, step)
    ensures HeadOk(Apply(s, step))
  {
    if step.MoveHead? {
      assert step.id in s.claims;
    }
  }

  lemma StepKeepsTickets(s: State, step: Step)
    requires TicketsOk(s) && Enabled(s, step)
    ensures TicketsOk(Apply(s, step))
  {
    if step.Draw? {
      DrawKeepsTickets(s, step.id);
    } else if step.Insert? || step.MoveHead? {
      assert step.id in s.tickets;
    } else {
      assert step.id !in s.tickets;
    }
  }

  lemma DrawKeepsTickets(s: State, id: nat)
    requires TicketsOk(s) && Enabled(s, Draw(id))
    ensures TicketsOk(Apply(s, Draw(id)))
  {
    assert id !in s.tickets;
  }

  lemma StepKeepsEntries(s: State, step: Step)
    requires Inv(s) && Enabled(s, step)
    ensures EntriesOk(Apply(s, step))
  {
    hide ClaimsOk, TicketsOk, HeadOk;
    var t := Apply(s, step);
    assert step.id in Writers(s.entries) <==> step.MoveHead? by {
      if step.id in Writers(s.entries) {
        var i :| 0 <= i < |s.entries| && s.entries[i].writer == step.id;
      }
    }
    if step.Insert? {
      WritersExtend(s.entries, t.entries[|s.entries|]);
    } else {
      forall i | 0 <= i < |s.entries| && s.entries[i].writer == step.id
        ensures step.MoveHead?
      {
        assert Writers(s.entries)[i] == step.id;
      }
    }
    forall id <- t.calls | Posting(t.calls[id])
      ensures id in Writers(t.entries)
    {
      if id != step.id {
        assert id in s.calls && Posting(s.calls[id]);
      }
    }
  }

  lemma {:induction false} RunKeepsInv(passportId: string, states: seq<State>, steps: seq<Step>, k: nat)
    requires IsRun(passportId, states, steps) && k < |states|
    ensures Inv(states[k])
  {
    if k > 0 {
      RunKeepsInv(passportId, states, steps, k - 1);
      StepKeepsClaims(states[k - 1], steps[k - 1]);
      StepKeepsHead(states[k - 1], steps[k - 1]);
      StepKeepsTickets(states[k - 1], steps[k - 1]);
      StepKeepsEntries(states[k - 1], steps[k - 1]);
    }
  }

  /** No caller is between two of its database calls. */
  ghost predicate Quiescent(s: State) {
    forall id <- s.calls :: s.calls[id].Finished? || s.calls[id].Lost?
  }

  ghost function Winners(s: State): set<nat> {
    set id | id in s.calls && Won(s.calls[id])
  }

  ghost function TicketHolders(s: State): set<nat> {
    set id | id in s.calls && Ticketed(s.calls[id])
  }

  ghost function Posters(s: State): set<nat> {
    set id | id in s.calls && Posting(s.calls[id])
  }

  lemma CountStages(s: State)
    requires Inv(s)
    ensures |Winners(s)| == s.revision
    ensures |TicketHolders(s)| == s.nextSeq - 1
    ensures |Posters(s)| == |s.entries|
  {
    CountElements(s.claims);
    assert Elements(s.claims) == Winners(s);
    CountElements(s.tickets);
    assert Elements(s.tickets) == TicketHolders(s);
    CountElements(Writers(s.entries));
    assert Elements(Writers(s.entries)) == Posters(s);
  }

  ghost predicate HasRevision(s: State, v: int) {
    exists e <- s.entries :: e.revision == v
  }

  ghost predicate HasNumber(s: State, v: int) {
    exists e <- s.entries :: e.body.seqNo == Some(v)
  }

  lemma RevisionsCovered(s: State, v: int)
    requires Inv(s) && Quiescent(s) && 1 <= v <= s.revision
    ensures HasRevision(s, v)
  {
    var id := s.claims[v - 1];
    assert id in Writers(s.entries);
    var i :| 0 <= i < |s.entries| && s.entries[i].writer == id;
    assert s.entries[i].revision == v && s.entries[i] in s.entries;
  }

  lemma NumbersCovered(s: State, v: int)
    requires Inv(s) && Quiescent(s) && 1 <= v < s.nextSeq
    ensures HasNumber(s, v)
  {
    var id := s.tickets[v - 1];
    assert id in Writers(s.entries);
    var i :| 0 <= i < |s.entries| && s.entries[i].writer == id;
    assert s.entries[i].body.seqNo == Some(v) && s.entries[i] in s.entries;
  }

  lemma EntriesHaveOwnNumbers(s: State, i: nat, j: nat)
    requires Inv(s) && i < j < |s.entries|
    ensures s.entries[i].revision != s.entries[j].revision
    ensures s.entries[i].body.seqNo != s.entries[j].body.seqNo
  {
    assert Writers(s.entries)[i] != Writers(s.entries)[j];
    assert s.entries[i].writer in s.claims && s.entries[i].writer in s.tickets;
    assert s.entries[j].writer in s.claims && s.entries[j].writer in s.tickets;
  }

  lemma HeadIsNewest(s: State, i: nat)
    requires Inv(s) && Quiescent(s) && i < |s.entries| && s.entries[i].revision == s.revision
    ensures s.head == Some(Sha256(s.entries[i].body))
  {
    assert s.entries[i].writer in s.claims;
  }

  /**
   At quiescence the revision counts the entries, every revision and every sequence number
   from 1 to n belongs to exactly one entry, and the head is the entry of revision n.
   */
  lemma QuiescentLedger(passportId: string, states: seq<State>, steps: seq<Step>, k: nat)
    requires IsRun(passportId, states, steps) && k < |states| && Quiescent(states[k])
    ensures |states[k].entries| == states[k].revision == states[k].nextSeq - 1
    ensures forall v :: 1 <= v <= states[k].revision ==> HasRevision(states[k], v) && HasNumber(states[k], v)
    ensures forall i, j :: 0 <= i < j < |states[k].entries| ==>
              && states[k].entries[i].revision != states[k].entries[j].revision
              && states[k].entries[i].body.seqNo != states[k].entries[j].body.seqNo
    ensures forall i :: 0 <= i < |states[k].entries| && states[k].entries[i].revision == states[k].revision ==>
              states[k].head == Some(Sha256(states[k].entries[i].body))
  {
    hide Inv, IsRun, HasRevision, HasNumber;
    var s := states[k];
    RunKeepsInv(passportId, states, steps, k);
    CountStages(s);
    assert Winners(s) == TicketHolders(s) == Posters(s);
    forall v | 1 <= v <= s.revision
      ensures HasRevision(s, v) && HasNumber(s, v)
    {
      RevisionsCovered(s, v);
      NumbersCovered(s, v);
    }
    forall i, j | 0 <= i < j < |s.entries|
      ensures s.entries[i].revision != s.entries[j].revision && s.entries[i].body.seqNo != s.entries[j].body.seqNo
    {
      EntriesHaveOwnNumbers(s, i, j);
    }
    forall i | 0 <= i < |s.entries| && s.entries[i].revision == s.revision
      ensures s.head == Some(Sha256(s.entries[i].body))
    {
      HeadIsNewest(s, i);
    }
  }

  /** A caller that lost the compare-and-set has left no row and drawn no number, at any time. */
  lemma LoserLeavesNothing(passportId: string, states: seq<State>, steps: seq<Step>, k: nat, id: nat)
    requires IsRun(passportId, states, steps) && k < |states|
    requires id in states[k].calls && states[k].calls[id].Lost?
    ensures forall e <- states[k].entries :: e.writer != id
    ensures id !in states[k].tickets && id !in states[k].claims
  {
    RunKeepsInv(passportId, states, steps, k);
  }

  // ----- what a call has done so far -----

  /** The moments at which a call began, claimed its revision, drew its number and inserted its entry. */
  datatype Moments = Moments(begun: nat, claimed: nat, drawn: nat, inserted: nat)

  ghost predicate BegunAt(states: seq<State>, steps: seq<Step>, b: nat, id: nat, stage: Stage)
    requires !stage.Lost?
  {
    && b < |steps| && b < |states| && steps[b] == Begin(id, stage.req)
    && stage.snap == Snapshot(states[b].revision, states[b].head)
  }

  /** The claim found the revision that the call began with and, if the caller named a head, the head too. */
  ghost predicate ClaimedAt(states: seq<State>, steps: seq<Step>, b: nat, c: nat, id: nat, req: Request) {
    && b < c < |steps| && c < |states| && steps[c] == Claim(id)
    && states[c].revision == states[b].revision && (req.expectedHead.Some? ==> states[c].head == states[b].head)
  }

  ghost predicate DrawnAt(states: seq<State>, steps: seq<Step>, c: nat, d: nat, id: nat, n: int) {
    c < d < |steps| && d < |states| && steps[d] == Draw(id) && n == states[d].nextSeq
  }

  ghost predicate InsertedAt(states: seq<State>, steps: seq<Step>, m: Moments, id: nat, req: Request, body: EntryBody)
    requires m.begun < m.drawn < |states|
  {
    && m.drawn < m.inserted < |steps| && steps[m.inserted].Insert? && steps[m.inserted].id == id
    && body.entryType == req.entryType && body.payload == req.payload && body.authoredBy == req.authoredBy
    && body.at == steps[m.inserted].at
    && body.priorHash == states[m.begun].head && body.seqNo == Some(states[m.drawn].nextSeq)
  }

  /** A call that did not lose is where its own steps have brought it. */
  ghost predicate Did(states: seq<State>, steps: seq<Step>, m: Moments, id: nat, stage: Stage) {
    && !stage.Lost? && BegunAt(states, steps, m.begun, id, stage)
    && (Won(stage) ==> ClaimedAt(states, steps, m.begun, m.claimed, id, stage.req))
    && (Ticketed(stage) ==> Won(stage) && DrawnAt(states, steps, m.claimed, m.drawn, id, stage.n))
    && (Posting(stage) ==> Ticketed(stage) && InsertedAt(states, steps, m, id, stage.req, stage.body))
  }

  /** A call that did not lose has begun in this step, or it stays as it is, or the step is its next one. */
  lemma StageStep(s: State, step: Step, id: nat)
    requires Enabled(s, step) && id in Apply(s, step).calls && !Apply(s, step).calls[id].Lost?
    ensures var now := Apply(s, step).calls[id];
            if id !in s.calls then step == Begin(id, now.req) && now == Read(now.req, Snapshot(s.revision, s.head))
            else if step.id != id then now == s.calls[id]
            else Advanced(s, step, s.calls[id], now)
  {
  }

  predicate Advanced(s: State, step: Step, before: Stage, now: Stage) {
    match step
    case Begin(_, _) => false
    case Claim(_) =>
      && before.Read? && now == Claimed(before.req, before.snap)
      && s.revision == before.snap.revision && (before.req.expectedHead.Some? ==> s.head == before.snap.head)
    case Draw(_) => before.Claimed? && now == Numbered(before.req, before.snap, s.nextSeq)
    case Insert(_, at) =>
      && before.Numbered?
      && now == Inserted(before.req, before.snap, before.n,
                         EntryBody(s.passportId, Some(before.n), before.req.entryType, before.req.payload,
                                   before.snap.head, at, before.req.authoredBy))
    case MoveHead(_) => before.Inserted? && now == Finished(before.req, before.snap, before.n, before.body)
  }

  lemma Continues(states: seq<State>, steps: seq<Step>, m: Moments, k: nat, id: nat, before: Stage, now: Stage)
    returns (later: Moments)
    requires k < |steps| && k < |states| && steps[k].id == id && Did(states, steps, m, id, before)
    requires Advanced(states[k], steps[k], before, now)
    requires m.begun < k && (Won(before) ==> m.claimed < k) && (Ticketed(before) ==> m.drawn < k)
    ensures Did(states, steps, later, id, now) && later.begun == m.begun
    ensures (Won(before) ==> later.claimed == m.claimed) && (Ticketed(before) ==> later.drawn == m.drawn)
    ensures (Posting(before) ==> later.inserted == m.inserted) && (Won(now) && !Won(before) ==> later.claimed == k)
    ensures (Ticketed(now) && !Ticketed(before) ==> later.drawn == k)
    ensures (Posting(now) && !Posting(before) ==> later.inserted == k)
  {
    match steps[k]
    case Claim(_) => later := m.(claimed := k);
    case Draw(_) => later := m.(drawn := k);
    case Insert(_, _) => later := m.(inserted := k);
    case _ => later := m;
  }

  lemma {:induction false} CallHistory(passportId: string, states: seq<State>, steps: seq<Step>, k: nat, id: nat)
    returns (m: Moments)
    requires IsRun(passportId, states, steps) && k < |states| && id in states[k].calls && !states[k].calls[id].Lost?
    ensures Did(states, steps, m, id, states[k].calls[id]) && m.begun < k
    ensures Won(states[k].calls[id]) ==> m.claimed < k
    ensures Ticketed(states[k].calls[id]) ==> m.drawn < k
    ensures Posting(states[k].calls[id]) ==> m.inserted < k && states[k].calls[id].body.passportId == passportId
  {
    hide Enabled, Apply, Did;
    assert k > 0;
    PassportKept(passportId, states, steps, k - 1);
    StageStep(states[k - 1], steps[k - 1], id);
    if id in states[k - 1].calls {
      m := CallHistory(passportId, states, steps, k - 1, id);
      if steps[k - 1].id == id {
        m := Continues(states, steps, m, k - 1, id, states[k - 1].calls[id], states[k].calls[id]);
      }
    } else {
      m := Moments(k - 1, 0, 0, 0);
      JustBegun(states, steps, k - 1, id, states[k].calls[id]);
    }
  }

  lemma JustBegun(states: seq<State>, steps: seq<Step>, b: nat, id: nat, stage: Stage)
    requires stage.Read? && BegunAt(states, steps, b, id, stage)
    ensures Did(states, steps, Moments(b, 0, 0, 0), id, stage)
  {
  }

  lemma {:induction false} PassportKept(passportId: string, states: seq<State>, steps: seq<Step>, k: nat)
    requires IsRun(passportId, states, steps) && k < |states|
    ensures states[k].passportId == passportId
  {
    if k > 0 {
      PassportKept(passportId, states, steps, k - 1);
    }
  }

  /**
   Behind every entry there are four steps of its writer, in this order: it began, its claim found
   what it began with, it drew the number of the entry, and it inserted what it was asked to
   write, chained to the head and numbered after the revision that it began with.
   */
  lemma EntryIsAsRequested(passportId: string, states: seq<State>, steps: seq<Step>, k: nat, i: nat)
    returns (m: Moments, req: Request)
    requires IsRun(passportId, states, steps) && k < |states| && i < |states[k].entries|
    ensures m.begun < m.claimed < m.drawn < m.inserted < k
    ensures var e := states[k].entries[i];
            && steps[m.begun] == Begin(e.writer, req) && steps[m.claimed] == Claim(e.writer)
            && steps[m.drawn] == Draw(e.writer) && steps[m.inserted] == Insert(e.writer, e.body.at)
            && e.body == EntryBody(passportId, Some(states[m.drawn].nextSeq), req.entryType, req.payload,
                                   states[m.begun].head, e.body.at, req.authoredBy)
            && e.revision == states[m.begun].revision + 1 == states[m.claimed].revision + 1
            && (req.expectedHead.Some? ==> states[m.claimed].head == states[m.begun].head)
  {
    RunKeepsInv(passportId, states, steps, k);
    var e := states[k].entries[i];
    m := CallHistory(passportId, states, steps, k, e.writer);
    req := states[k].calls[e.writer].req;
  }

  /** A claim wins exactly if the revision, and the head if one was named, are those the call began with. */
  lemma ClaimWinsIff(passportId: string, states: seq<State>, steps: seq<Step>, k: nat, id: nat)
    returns (b: nat, req: Request)
    requires IsRun(passportId, states, steps) && k < |steps| && steps[k] == Claim(id)
    ensures b < k && steps[b] == Begin(id, req) && id in states[k + 1].calls
    ensures states[k + 1].calls[id].Claimed? <==>
            && states[k].revision == states[b].revision
            && (req.expectedHead.Some? ==> states[k].head == states[b].head)
    ensures !states[k + 1].calls[id].Claimed? ==> states[k + 1] == states[k].(calls := states[k].calls[id := Lost(req)])
  {
    var m := CallHistory(passportId, states, steps, k, id);
    b, req := m.begun, states[k].calls[id].req;
  }
}
