/**
 What the append without a transaction does not promise, and exactly when it keeps it: which
 neighbouring entries are linked, and which failures the release of a claim repairs.
 */
module Forks {
  import opened Basics
  import opened Records
  import opened Ledger
  import opened Interleaving

  // ----- further invariants of the interleaved append -----

  /** The claim marker of the passport row is set exactly while the newest winner is unfinished. */
  ghost predicate PendingOk(s: State) {
    s.pending <==> s.claims != [] && s.claims[|s.claims| - 1] in s.calls && !s.calls[s.claims[|s.claims| - 1]].Finished?
  }

  ghost predicate HeadFrom(s: State, id: nat) {
    id in s.calls && s.calls[id].Finished? && s.head == Some(Sha256(s.calls[id].body))
  }

  /** The head is empty or the entry of a call that has finished. */
  ghost predicate HeadOwned(s: State) {
    s.head == None || exists id :: HeadFrom(s, id)
  }

  /** A posted body is chained to the head its caller remembers and carries the number it drew. */
  ghost predicate BodiesOk(s: State) {
    forall id <- s.calls :: Posting(s.calls[id]) ==>
      s.calls[id].body.priorHash == s.calls[id].snap.head && s.calls[id].body.seqNo == Some(s.calls[id].n)
  }

  ghost predicate ForkInv(s: State) {
    Inv(s) && PendingOk(s) && HeadOwned(s) && BodiesOk(s)
  }

  lemma WinnerAt(s: State, id: nat)
    requires ClaimsOk(s) && id in s.calls && Won(s.calls[id])
    ensures 0 <= s.calls[id].snap.revision < |s.claims| && s.claims[s.calls[id].snap.revision] == id
  {
    var r :| 0 <= r < |s.claims| && s.claims[r] == id;
  }

  lemma StepKeepsPending(s: State, step: Step)
    requires ClaimsOk(s) && PendingOk(s) && Enabled(s, step)
    ensures PendingOk(Apply(s, step))
  {
    if step.MoveHead? {
      WinnerAt(s, step.id);
    } else if step.Begin? {
      assert step.id !in s.claims;
    }
  }

  lemma StepKeepsHeadOwned(s: State, step: Step)
    requires HeadOwned(s) && Enabled(s, step)
    ensures HeadOwned(Apply(s, step))
  {
    var t := Apply(s, step);
    if t.head == s.head && s.head != None {
      var id :| HeadFrom(s, id);
      assert HeadFrom(t, id);
    } else if t.head != None {
      assert HeadFrom(t, step.id);
    }
  }

  lemma StepKeepsBodies(s: State, step: Step)
    requires BodiesOk(s) && Enabled(s, step)
    ensures BodiesOk(Apply(s, step))
  {
  }

  lemma StepKeepsForkInv(s: State, step: Step)
    requires ForkInv(s) && Enabled(s, step)
    ensures ForkInv(Apply(s, step))
  {
    hide ClaimsOk, TicketsOk, EntriesOk, HeadOk, PendingOk, HeadOwned, BodiesOk, Apply, Enabled;
    StepKeepsClaims(s, step);
    StepKeepsHead(s, step);
    StepKeepsTickets(s, step);
    StepKeepsEntries(s, step);
    StepKeepsPending(s, step);
    StepKeepsHeadOwned(s, step);
    StepKeepsBodies(s, step);
  }

  lemma {:induction false} RunKeepsForkInv(passportId: string, states: seq<State>, steps: seq<Step>, k: nat)
    requires IsRun(passportId, states, steps) && k < |states|
    ensures ForkInv(states[k])
  {
    if k > 0 {
      RunKeepsForkInv(passportId, states, steps, k - 1);
      StepKeepsForkInv(states[k - 1], steps[k - 1]);
    }
  }

  // ----- what a caller remembers -----

  /** Claims are never taken back, and a finished call stays as it is. */
  lemma {:induction false} ClaimsGrow(passportId: string, states: seq<State>, steps: seq<Step>, b: nat, k: nat)
    requires IsRun(passportId, states, steps) && b <= k < |states|
    ensures states[b].claims <= states[k].claims
    ensures forall id <- states[b].calls :: states[b].calls[id].Finished? ==>
              id in states[k].calls && states[k].calls[id] == states[b].calls[id]
    decreases k
  {
    if b < k {
      ClaimsGrow(passportId, states, steps, b, k - 1);
    }
  }

  /** A call's snapshot is the passport row as it was when the call began. */
  lemma {:induction false} SnapshotIsOfBegin(passportId: string, states: seq<State>, steps: seq<Step>, b: nat, k: nat)
    requires IsRun(passportId, states, steps) && b < k < |states| && steps[b].Begin?
    ensures steps[b].id in states[k].calls
    ensures !states[k].calls[steps[b].id].Lost? ==>
              states[k].calls[steps[b].id].snap == Snapshot(states[b].revision, states[b].head)
    decreases k
  {
    if b + 1 < k {
      SnapshotIsOfBegin(passportId, states, steps, b, k - 1);
    }
  }

  lemma {:induction false} BeginOf(passportId: string, states: seq<State>, steps: seq<Step>, k: nat, id: nat)
    returns (b: nat)
    requires IsRun(passportId, states, steps) && k < |states| && id in states[k].calls
    ensures b < k && steps[b].Begin? && steps[b].id == id
  {
    assert k > 0;
    if id in states[k - 1].calls {
      b := BeginOf(passportId, states, steps, k - 1, id);
    } else {
      b := k - 1;
    }
  }

  // ----- linkage -----

  ghost predicate FollowsOn(s: State, i: nat, j: nat)
    requires i < |s.entries| && j < |s.entries|
  {
    s.entries[j].body.priorHash == Some(Sha256(s.entries[i].body))
  }

  /** The entry of one revision and the head that the writer of the next one remembers. */
  lemma HeadSeenAt(s: State, early: State, i: nat)
    requires ForkInv(s) && ForkInv(early) && i < |s.entries|
    requires early.claims <= s.claims && early.revision == s.entries[i].revision
    requires forall id <- early.calls :: early.calls[id].Finished? ==> id in s.calls && s.calls[id] == early.calls[id]
    ensures early.head == Some(Sha256(s.entries[i].body)) <==> !early.pending
  {
    hide Inv, HeadOwned, BodiesOk;
    var v := s.entries[i].writer;
    NewestAt(s, early, i);
    if early.pending && early.head != None {
      HeadOfAnother(s, early, i);
    }
  }

  /** The writer of entry `i` is the newest winner of the earlier state; if it had finished, the head is its entry. */
  lemma NewestAt(s: State, early: State, i: nat)
    requires ForkInv(s) && ForkInv(early) && i < |s.entries|
    requires early.claims <= s.claims && early.revision == s.entries[i].revision
    requires forall id <- early.calls :: early.calls[id].Finished? ==> id in s.calls && s.calls[id] == early.calls[id]
    ensures early.claims != [] && early.claims[|early.claims| - 1] == s.entries[i].writer
    ensures s.entries[i].writer in early.calls
    ensures early.pending <==> !early.calls[s.entries[i].writer].Finished?
    ensures !early.pending ==> early.head == Some(Sha256(s.entries[i].body))
  {
    hide TicketsOk, HeadOwned, BodiesOk;
    WinnerAt(s, s.entries[i].writer);
  }

  lemma HeadOfAnother(s: State, early: State, i: nat)
    requires ForkInv(s) && ForkInv(early) && i < |s.entries| && early.head != None
    requires s.entries[i].writer in early.calls && !early.calls[s.entries[i].writer].Finished?
    requires forall id <- early.calls :: early.calls[id].Finished? ==> id in s.calls && s.calls[id] == early.calls[id]
    ensures early.head != Some(Sha256(s.entries[i].body))
  {
    hide ClaimsOk, HeadOk, PendingOk;
    var u :| HeadFrom(early, u);
    DistinctTickets(s, u, s.entries[i].writer);
  }

  lemma DistinctTickets(s: State, u: nat, v: nat)
    requires TicketsOk(s) && u in s.calls && v in s.calls && u != v
    requires Ticketed(s.calls[u]) && Ticketed(s.calls[v])
    ensures s.calls[u].n != s.calls[v].n
  {
    var p :| 0 <= p < |s.tickets| && s.tickets[p] == u;
    var q :| 0 <= q < |s.tickets| && s.tickets[q] == v;
  }

  lemma EntryIsItsWriters(s: State, j: nat)
    requires ForkInv(s) && j < |s.entries|
    ensures var w := s.entries[j].writer;
            && w in s.calls && Won(s.calls[w]) && s.entries[j].body.priorHash == s.calls[w].snap.head
            && s.entries[j].revision == s.calls[w].snap.revision + 1
  {
  }

  /**
   Two entries of neighbouring revisions are linked exactly if the claim marker of the passport
   row was clear when the caller of the second one read that row.
   */
  lemma LinkedIff(passportId: string, states: seq<State>, steps: seq<Step>, k: nat, i: nat, j: nat, b: nat)
    requires IsRun(passportId, states, steps) && k < |states|
    requires i < |states[k].entries| && j < |states[k].entries|
    requires states[k].entries[j].revision == states[k].entries[i].revision + 1
    requires b < k && steps[b].Begin? && steps[b].id == states[k].entries[j].writer
    ensures FollowsOn(states[k], i, j) <==> !states[b].pending
  {
    hide ForkInv;
    RunKeepsForkInv(passportId, states, steps, k);
    RunKeepsForkInv(passportId, states, steps, b);
    ClaimsGrow(passportId, states, steps, b, k);
    SnapshotIsOfBegin(passportId, states, steps, b, k);
    EntryIsItsWriters(states[k], j);
    HeadSeenAt(states[k], states[b], i);
  }

  /** An entry of revision 1 never has a predecessor. */
  lemma FirstHasNone(passportId: string, states: seq<State>, steps: seq<Step>, k: nat, j: nat)
    requires IsRun(passportId, states, steps) && k < |states| && j < |states[k].entries|
    requires states[k].entries[j].revision == 1
    ensures states[k].entries[j].body.priorHash == None
  {
    hide ForkInv;
    RunKeepsForkInv(passportId, states, steps, k);
    EntryIsItsWriters(states[k], j);
    var b := BeginOf(passportId, states, steps, k, states[k].entries[j].writer);
    SnapshotIsOfBegin(passportId, states, steps, b, k);
    RunKeepsForkInv(passportId, states, steps, b);
    NoHeadAtZero(states[b]);
  }

  lemma NoHeadAtZero(s: State)
    requires ForkInv(s) && s.revision == 0
    ensures s.head == None && !s.pending
  {
    if s.head != None {
      var id :| HeadFrom(s, id);
      WinnerAt(s, id);
    }
  }

  predicate Neighbours(s: State, i: nat, j: nat)
    requires i < |s.entries| && j < |s.entries|
  {
    s.entries[j].revision == s.entries[i].revision + 1
  }

  /** Every entry is linked to the entry of the revision before. */
  ghost predicate Chained(s: State) {
    forall i: nat, j: nat :: i < |s.entries| && j < |s.entries| && Neighbours(s, i, j) ==> FollowsOn(s, i, j)
  }

  /** The caller that wrote the entry read the passport row while no claim was pending. */
  ghost predicate BeganCalmly(states: seq<State>, steps: seq<Step>, k: nat, j: nat)
    requires |states| == |steps| + 1 && k < |states| && j < |states[k].entries|
  {
    exists b: nat :: b < k && steps[b].Begin? && steps[b].id == states[k].entries[j].writer && !states[b].pending
  }

  /**
   At quiescence the entries form one chain over all revisions exactly if every writer read the
   passport row while no claim was pending.
   */
  lemma ChainedIff(passportId: string, states: seq<State>, steps: seq<Step>, k: nat)
    requires IsRun(passportId, states, steps) && k < |states| && Quiescent(states[k])
    ensures Chained(states[k]) <==> forall j: nat :: j < |states[k].entries| ==> BeganCalmly(states, steps, k, j)
  {
    hide Inv, Quiescent, FollowsOn;
    var s := states[k];
    RunKeepsForkInv(passportId, states, steps, k);
    forall i: nat, j: nat | i < |s.entries| && j < |s.entries| && Neighbours(s, i, j)
      ensures FollowsOn(s, i, j) <==> BeganCalmly(states, steps, k, j)
    {
      EntryIsItsWriters(s, j);
      var b := BeginOf(passportId, states, steps, k, s.entries[j].writer);
      LinkedIff(passportId, states, steps, k, i, j, b);
      if BeganCalmly(states, steps, k, j) {
        var b': nat :| b' < k && steps[b'].Begin? && steps[b'].id == s.entries[j].writer && !states[b'].pending;
        LinkedIff(passportId, states, steps, k, i, j, b');
      }
    }
    forall j: nat | j < |s.entries|
      ensures BeganCalmly(states, steps, k, j) || exists i: nat :: i < |s.entries| && Neighbours(s, i, j)
    {
      PredecessorOrCalm(passportId, states, steps, k, j);
    }
  }

  /** An entry of a later revision has a predecessor in revision order; the writer of the first one began calmly. */
  lemma PredecessorOrCalm(passportId: string, states: seq<State>, steps: seq<Step>, k: nat, j: nat)
    requires IsRun(passportId, states, steps) && k < |states| && Quiescent(states[k]) && j < |states[k].entries|
    ensures BeganCalmly(states, steps, k, j)
            || exists i: nat :: i < |states[k].entries| && Neighbours(states[k], i, j)
  {
    hide Quiescent;
    var s := states[k];
    RunKeepsForkInv(passportId, states, steps, k);
    EntryIsItsWriters(s, j);
    WinnerAt(s, s.entries[j].writer);
    if s.entries[j].revision == 1 {
      var b := BeginOf(passportId, states, steps, k, s.entries[j].writer);
      SnapshotIsOfBegin(passportId, states, steps, b, k);
      RunKeepsForkInv(passportId, states, steps, b);
      NoHeadAtZero(states[b]);
    } else {
      RevisionsCovered(s, s.entries[j].revision - 1);
      var e :| e in s.entries && e.revision == s.entries[j].revision - 1;
      var i: nat :| i < |s.entries| && s.entries[i] == e;
      assert Neighbours(s, i, j);
    }
  }

  // ----- failures after the claim -----

  predicate Unfinished(stage: Stage) {
    stage.Claimed? || stage.Numbered? || stage.Inserted?
  }

  /** A call that fails between its claim and its head update, followed by the release of its claim. */
  function FailAndRelease(s: State, id: nat): State
    requires id in s.calls && Unfinished(s.calls[id])
  {
    var t := s.(calls := s.calls[id := Lost(s.calls[id].req)]);
    if Releases(s, id) then t.(revision := s.calls[id].snap.revision, pending := false) else t
  }

  /** The release finds the claim: it is the newest one and still pending. */
  predicate Releases(s: State, id: nat)
    requires id in s.calls && Unfinished(s.calls[id])
  {
    s.revision == s.calls[id].snap.revision + 1 && s.pending
  }

  /** The failure takes back what the release of a claim takes back in the ledger, and loses the call. */
  lemma FailureReleases(s: State, id: nat, rows: Rows)
    requires id in s.calls && Unfinished(s.calls[id]) && rows.revision == s.revision && rows.claimPending == s.pending
    ensures var t, released := FailAndRelease(s, id), ReleaseClaim(rows, s.calls[id].snap);
            && t.revision == released.revision && t.pending == released.claimPending
            && t == s.(revision := t.revision, pending := t.pending, calls := s.calls[id := Lost(s.calls[id].req)])
  {
  }

  /** The revision and the sequence row both count the entries. */
  predicate CountsAgree(s: State) {
    |s.entries| == s.revision == s.nextSeq - 1
  }

  /** No call stands between its claim and its head update. */
  predicate Settled(s: State) {
    forall id <- s.calls :: !Unfinished(s.calls[id])
  }

  /** What failed calls left behind: claims that were not released, drawn numbers and inserted entries. */
  datatype Losses = Losses(claims: int, numbers: int, entries: int)

  /** How far the counters are ahead of the calls that account for them. */
  ghost function Excess(s: State): Losses {
    Losses(s.revision - |Winners(s)|, s.nextSeq - 1 - |TicketHolders(s)|, |s.entries| - |Posters(s)|)
  }

  function LossOf(s: State, id: nat): Losses
    requires id in s.calls && Unfinished(s.calls[id])
  {
    Losses(if Releases(s, id) then 0 else 1,
           if s.calls[id].Claimed? then 0 else 1,
           if s.calls[id].Inserted? then 1 else 0)
  }

  function Plus(a: Losses, b: Losses): Losses {
    Losses(a.claims + b.claims, a.numbers + b.numbers, a.entries + b.entries)
  }

  lemma StepWinners(s: State, step: Step)
    requires Enabled(s, step)
    ensures var (t, won) := (Apply(s, step), step.Claim? && Won(Apply(s, step).calls[step.id]));
            Winners(t) == Winners(s) + (if won then {step.id} else {}) && (won ==> step.id !in Winners(s))
  {
  }

  lemma StepTicketHolders(s: State, step: Step)
    requires Enabled(s, step)
    ensures TicketHolders(Apply(s, step)) == TicketHolders(s) + (if step.Draw? then {step.id} else {})
    ensures step.Draw? ==> step.id !in TicketHolders(s)
  {
  }

  lemma StepPosters(s: State, step: Step)
    requires Enabled(s, step)
    ensures Posters(Apply(s, step)) == Posters(s) + (if step.Insert? then {step.id} else {})
    ensures step.Insert? ==> step.id !in Posters(s)
  {
  }

  lemma StepCounters(s: State, step: Step)
    requires Enabled(s, step)
    ensures var (t, won) := (Apply(s, step), step.Claim? && Won(Apply(s, step).calls[step.id]));
            && t.revision == s.revision + (if won then 1 else 0)
            && t.nextSeq == s.nextSeq + (if step.Draw? then 1 else 0)
            && |t.entries| == |s.entries| + (if step.Insert? then 1 else 0)
  {
  }

  /** No step of a call that goes on changes the excess, in whatever state. */
  lemma StepKeepsExcess(s: State, step: Step)
    requires Enabled(s, step)
    ensures Excess(Apply(s, step)) == Excess(s)
  {
    hide Winners, TicketHolders, Posters, Apply, Enabled, Won;
    StepCounters(s, step);
    StepWinners(s, step);
    StepTicketHolders(s, step);
    StepPosters(s, step);
  }

  lemma FailureStages(s: State, id: nat)
    requires id in s.calls && Unfinished(s.calls[id])
    ensures var t := FailAndRelease(s, id);
            && Winners(t) == Winners(s) - {id} && id in Winners(s)
            && TicketHolders(t) == TicketHolders(s) - {id} && (id in TicketHolders(s) <==> !s.calls[id].Claimed?)
            && Posters(t) == Posters(s) - {id} && (id in Posters(s) <==> s.calls[id].Inserted?)
  {
  }

  lemma FailureCounters(s: State, id: nat)
    requires id in s.calls && Unfinished(s.calls[id])
    ensures var t := FailAndRelease(s, id);
            && t.revision == s.revision - (if Releases(s, id) then 1 else 0)
            && t.nextSeq == s.nextSeq && t.entries == s.entries
  {
  }

  /** A failure adds its loss to the excess. */
  lemma FailureAddsLoss(s: State, id: nat)
    requires id in s.calls && Unfinished(s.calls[id])
    ensures Excess(FailAndRelease(s, id)) == Plus(Excess(s), LossOf(s, id))
  {
    hide Winners, TicketHolders, Posters, FailAndRelease, Releases;
    FailureCounters(s, id);
    FailureStages(s, id);
  }

  /** Once no call is under way, the counts agree exactly if nothing or equally much of each is in excess. */
  lemma SettledCounts(s: State)
    requires Settled(s)
    ensures CountsAgree(s) <==> Excess(s).claims == Excess(s).numbers == Excess(s).entries
  {
    assert Winners(s) == TicketHolders(s) == Posters(s);
  }

  // ----- runs with any number of failures -----

  datatype FaultyStep = Normal(step: Step) | Fail(id: nat)

  predicate FaultyEnabled(s: State, step: FaultyStep) {
    match step
    case Normal(step) => Enabled(s, step)
    case Fail(id) => id in s.calls && Unfinished(s.calls[id])
  }

  function FaultyApply(s: State, step: FaultyStep): State
    requires FaultyEnabled(s, step)
  {
    match step
    case Normal(step) => Apply(s, step)
    case Fail(id) => FailAndRelease(s, id)
  }

  /** A run from any state, with failures. */
  ghost predicate IsFaultyRun(states: seq<State>, steps: seq<FaultyStep>) {
    && |states| == |steps| + 1
    && forall i :: 0 <= i < |steps| ==>
         FaultyEnabled(states[i], steps[i]) && states[i + 1] == FaultyApply(states[i], steps[i])
  }

  /** The summed losses of the failures among the first `k` steps. */
  ghost function LossesUpTo(states: seq<State>, steps: seq<FaultyStep>, k: nat): Losses
    requires IsFaultyRun(states, steps) && k <= |steps|
  {
    if k == 0 then Losses(0, 0, 0)
    else
      var before := LossesUpTo(states, steps, k - 1);
      if steps[k - 1].Fail? then Plus(before, LossOf(states[k - 1], steps[k - 1].id)) else before
  }

  lemma {:induction false} ExcessIsLosses(states: seq<State>, steps: seq<FaultyStep>, k: nat)
    requires IsFaultyRun(states, steps) && k < |states|
    ensures Excess(states[k]) == Plus(Excess(states[0]), LossesUpTo(states, steps, k))
  {
    hide Excess, LossOf, Apply, Enabled, FailAndRelease, Unfinished;
    if k > 0 {
      ExcessIsLosses(states, steps, k - 1);
      match steps[k - 1]
      case Normal(step) => StepKeepsExcess(states[k - 1], step);
      case Fail(id) =>
        FailureIsEnabled(states[k - 1], id);
        FailureAddsLoss(states[k - 1], id);
    }
  }

  lemma FailureIsEnabled(s: State, id: nat)
    requires FaultyEnabled(s, Fail(id))
    ensures id in s.calls && Unfinished(s.calls[id])
  {
  }

  lemma NoExcessAtStart(passportId: string)
    ensures Excess(Start(passportId)) == Losses(0, 0, 0)
  {
    var s := Start(passportId);
    assert Winners(s) == TicketHolders(s) == Posters(s) == {};
  }

  /**
   After any run with any number of failures, once no call is under way, the counts agree exactly
   if the failed calls left equally many unreleased claims, drawn numbers and inserted entries.
   */
  lemma CountsAgreeIff(passportId: string, states: seq<State>, steps: seq<FaultyStep>, k: nat)
    requires IsFaultyRun(states, steps) && states[0] == Start(passportId) && k < |states| && Settled(states[k])
    ensures var lost := LossesUpTo(states, steps, k);
            CountsAgree(states[k]) <==> lost.claims == lost.numbers == lost.entries
  {
    hide Excess, Settled, LossesUpTo, IsFaultyRun;
    NoExcessAtStart(passportId);
    ExcessIsLosses(states, steps, k);
    SettledCounts(states[k]);
  }

  // ----- one failure -----

  lemma NewestUnfinishedIsPending(s: State, id: nat)
    requires ForkInv(s) && id in s.calls && Unfinished(s.calls[id]) && s.calls[id].snap.revision + 1 == s.revision
    ensures s.pending
  {
    WinnerAt(s, id);
  }

  lemma NoExcessBeforeFailure(s: State)
    requires Inv(s)
    ensures Excess(s) == Losses(0, 0, 0)
  {
    CountStages(s);
  }

  /**
   One caller fails, whatever other calls are under way, and the others go on until none is. The
   counts then agree exactly in two cases: at the failure nobody had claimed on top and the caller
   had drawn no number yet, so that the release gives everything back; or somebody had claimed on
   top, so that the release finds nothing to give back, and the caller had already inserted its entry.
   */
  lemma FailureRepairedIff(passportId: string, states: seq<State>, steps: seq<Step>, k: nat, id: nat,
                           after: seq<State>, more: seq<FaultyStep>)
    requires IsRun(passportId, states, steps) && k < |states|
    requires id in states[k].calls && Unfinished(states[k].calls[id])
    requires IsFaultyRun(after, more) && after[0] == FailAndRelease(states[k], id)
    requires (forall step <- more :: step.Normal?) && Settled(after[|more|])
    ensures var s := states[k];
            CountsAgree(after[|more|]) <==>
            if s.calls[id].snap.revision + 1 == s.revision then s.calls[id].Claimed? else s.calls[id].Inserted?
  {
    hide ForkInv, Excess, IsFaultyRun, FailAndRelease, Settled, LossOf, IsRun;
    var s := states[k];
    RunKeepsForkInv(passportId, states, steps, k);
    LossDecides(s, id);
    FailureAddsLoss(s, id);
    AfterOneFailure(after, more);
  }

  lemma LossDecides(s: State, id: nat)
    requires ForkInv(s) && id in s.calls && Unfinished(s.calls[id])
    ensures Excess(s) == Losses(0, 0, 0)
    ensures LossOf(s, id).claims == LossOf(s, id).numbers == LossOf(s, id).entries <==>
            if s.calls[id].snap.revision + 1 == s.revision then s.calls[id].Claimed? else s.calls[id].Inserted?
  {
    hide Inv, Excess, PendingOk, HeadOwned, BodiesOk;
    NoExcessBeforeFailure(s);
    if s.calls[id].snap.revision + 1 == s.revision {
      NewestUnfinishedIsPending(s, id);
    }
  }

  lemma AfterOneFailure(after: seq<State>, more: seq<FaultyStep>)
    requires IsFaultyRun(after, more) && (forall step <- more :: step.Normal?) && Settled(after[|more|])
    ensures CountsAgree(after[|more|]) <==>
              Excess(after[0]).claims == Excess(after[0]).numbers == Excess(after[0]).entries
  {
    hide Excess, Settled, CountsAgree, LossesUpTo;
    ExcessIsLosses(after, more, |more|);
    NoFurtherLosses(after, more, |more|);
    SettledCounts(after[|more|]);
  }

  lemma {:induction false} NoFurtherLosses(states: seq<State>, steps: seq<FaultyStep>, k: nat)
    requires IsFaultyRun(states, steps) && k <= |steps| && forall step <- steps :: step.Normal?
    ensures LossesUpTo(states, steps, k) == Losses(0, 0, 0)
  {
    if k > 0 {
      NoFurtherLosses(states, steps, k - 1);
      assert steps[k - 1] in steps;
    }
  }

  /** The same right after the failure, if no other call stands behind a claim. */
  lemma ReleaseRepairsIff(passportId: string, states: seq<State>, steps: seq<Step>, k: nat, id: nat)
    requires IsRun(passportId, states, steps) && k < |states|
    requires id in states[k].calls && Unfinished(states[k].calls[id])
    requires forall other <- states[k].calls :: other != id ==> !Unfinished(states[k].calls[other])
    ensures var s := states[k];
            CountsAgree(FailAndRelease(s, id)) <==>
            if s.calls[id].snap.revision + 1 == s.revision then s.calls[id].Claimed? else s.calls[id].Inserted?
  {
    FailureRepairedIff(passportId, states, steps, k, id, [FailAndRelease(states[k], id)], []);
  }

  // ----- runs that show it -----

  lemma ExtendRun(passportId: string, states: seq<State>, steps: seq<Step>, s: State, step: Step)
    returns (longer: seq<State>, more: seq<Step>, t: State)
    requires IsRun(passportId, states, steps) && states[|states| - 1] == s && Enabled(s, step)
    ensures IsRun(passportId, longer, more) && longer[|longer| - 1] == t && t == Apply(s, step)
  {
    t := Apply(s, step);
    longer, more := states + [t], steps + [step];
  }

  /**
   The chain itself is not protected: a caller that reads between another caller's claim and
   its head update chains its own entry to the old head. Both entries then have no predecessor.
   */
  lemma ChainCanFork(passportId: string, req: Request)
    returns (states: seq<State>, steps: seq<Step>, s: State)
    requires req.expectedHead.None?
    ensures IsRun(passportId, states, steps) && states[|states| - 1] == s && Quiescent(s)
    ensures |s.entries| == 2
    ensures s.entries[0].body.priorHash == s.entries[1].body.priorHash == None
    ensures s.entries[0].body.seqNo != s.entries[1].body.seqNo
  {
    hide IsRun;
    s := Start(passportId);
    states, steps := [s], [];
    assert IsRun(passportId, states, steps) by {
      StartIsRun(passportId);
    }
    states, steps, s := ExtendRun(passportId, states, steps, s, Begin(0, req));
    states, steps, s := ExtendRun(passportId, states, steps, s, Claim(0));
    states, steps, s := ExtendRun(passportId, states, steps, s, Begin(1, req));
    states, steps, s := ExtendRun(passportId, states, steps, s, Claim(1));
    states, steps, s := ExtendRun(passportId, states, steps, s, Draw(0));
    states, steps, s := ExtendRun(passportId, states, steps, s, Draw(1));
    states, steps, s := ExtendRun(passportId, states, steps, s, Insert(0, 0));
    states, steps, s := ExtendRun(passportId, states, steps, s, Insert(1, 0));
    states, steps, s := ExtendRun(passportId, states, steps, s, MoveHead(0));
    states, steps, s := ExtendRun(passportId, states, steps, s, MoveHead(1));
  }

  lemma StartIsRun(passportId: string)
    ensures IsRun(passportId, [Start(passportId)], [])
  {
  }

  /**
   The second case is reached: a caller claims, and before it goes on another one claims on top
   and finishes. The first caller may stand right behind its claim or behind its insert.
   */
  lemma SupersededCaller(passportId: string, req: Request, inserted: bool)
    returns (states: seq<State>, steps: seq<Step>, s: State)
    requires req.expectedHead.None?
    ensures IsRun(passportId, states, steps) && states[|states| - 1] == s
    ensures s.calls.Keys == {0, 1} && s.calls[1].Finished?
    ensures if inserted then s.calls[0].Inserted? else s.calls[0].Claimed?
    ensures s.calls[0].snap.revision + 1 < s.revision
  {
    hide IsRun;
    StartIsRun(passportId);
    s := Start(passportId);
    states, steps := [s], [];
    states, steps, s := ExtendRun(passportId, states, steps, s, Begin(0, req));
    states, steps, s := ExtendRun(passportId, states, steps, s, Claim(0));
    if inserted {
      states, steps, s := ExtendRun(passportId, states, steps, s, Draw(0));
      states, steps, s := ExtendRun(passportId, states, steps, s, Insert(0, 0));
    }
    states, steps, s := ExtendRun(passportId, states, steps, s, Begin(1, req));
    states, steps, s := ExtendRun(passportId, states, steps, s, Claim(1));
    states, steps, s := ExtendRun(passportId, states, steps, s, Draw(1));
    states, steps, s := ExtendRun(passportId, states, steps, s, Insert(1, 0));
    states, steps, s := ExtendRun(passportId, states, steps, s, MoveHead(1));
  }
}
