/**
 The sliding-window limiter of development logins, against a specification that remembers the
 times of all accepted attempts. Times are exact seconds of a clock that never runs back.
 */
module RateLimiting {
  import opened Basics

  const RATE_MAX := 10
  const WINDOW_SEC := 60.0
  const BUCKET_CAP := 4096

  type Buckets = map<string, seq<real>>

  ghost predicate Sorted(s: seq<real>) {
    forall i, j :: 0 <= i < j < |s| ==> s[i] <= s[j]
  }

  /** What is left of a deque after its leading stale times were popped. */
  function Window(s: seq<real>, now: real): seq<real> {
    if s == [] then []
    else if now - s[0] > WINDOW_SEC then Window(s[1..], now)
    else s
  }

  /** How many of the times lie within the window that ends now. */
  function CountRecent(s: seq<real>, now: real): nat {
    if s == [] then 0
    else CountRecent(s[..|s| - 1], now) + if now - s[|s| - 1] <= WINDOW_SEC then 1 else 0
  }

  function Get(m: map<string, seq<real>>, key: string): seq<real> {
    if key in m then m[key] else []
  }

  function Last(s: seq<real>): real {
    if s == [] then 0.0 else s[|s| - 1]
  }

  predicate Stale(s: seq<real>, now: real) {
    s == [] || now - s[|s| - 1] > WINDOW_SEC
  }

  function Live(b: Buckets, now: real): Buckets {
    map k | k in b && !Stale(b[k], now) :: b[k]
  }

  // ----- the log of accepted attempts -----

  /** Any eleven consecutive accepted attempts span more than a window. */
  ghost predicate Spaced(log: seq<real>) {
    forall i :: 0 <= i && i + RATE_MAX < |log| ==> log[i + RATE_MAX] - log[i] > WINDOW_SEC
  }

  /** The deque is a tail of the log, and what precedes it has left the window. */
  ghost predicate Tracks(deque: seq<real>, log: seq<real>, now: real) {
    && |deque| <= |log|
    && deque == log[|log| - |deque|..]
    && forall i :: 0 <= i < |log| - |deque| ==> now - log[i] > WINDOW_SEC
  }

  predicate Before(s: seq<real>, now: real) {
    s != [] ==> s[|s| - 1] <= now
  }

  /**
   A key's deque and its log are in order; unless the cap dropped the key's bucket, the log is
   spaced and the deque tracks it.
   */
  ghost predicate InOrder(deque: seq<real>, log: seq<real>, now: real, gone: bool) {
    && |deque| <= RATE_MAX && Sorted(deque) && Sorted(log) && Before(deque, now) && Before(log, now)
    && (!gone ==> Spaced(log) && Tracks(deque, log, now))
  }

  lemma {:induction false} WindowIsTail(s: seq<real>, now: real)
    ensures |Window(s, now)| <= |s| && Window(s, now) == s[|s| - |Window(s, now)|..]
    ensures forall i :: 0 <= i < |s| - |Window(s, now)| ==> now - s[i] > WINDOW_SEC
    ensures Window(s, now) != [] ==> now - Window(s, now)[0] <= WINDOW_SEC
  {
    if s != [] && now - s[0] > WINDOW_SEC {
      WindowIsTail(s[1..], now);
      assert forall i :: 1 <= i < |s| ==> s[i] == s[1..][i - 1];
    }
  }

  lemma {:induction false} CountStale(s: seq<real>, now: real)
    requires forall i :: 0 <= i < |s| ==> now - s[i] > WINDOW_SEC
    ensures CountRecent(s, now) == 0
  {
    if s != [] {
      CountStale(s[..|s| - 1], now);
    }
  }

  /** A tail that starts inside the window counts in full, what precedes it counts nothing. */
  lemma {:induction false} CountTail(s: seq<real>, now: real, n: nat)
    requires Sorted(s) && n <= |s|
    requires forall i :: 0 <= i < n ==> now - s[i] > WINDOW_SEC
    requires n < |s| ==> now - s[n] <= WINDOW_SEC
    ensures CountRecent(s, now) == |s| - n
  {
    if n == |s| {
      CountStale(s, now);
    } else {
      if n < |s| - 1 {
        CountTail(s[..|s| - 1], now, n);
      } else {
        CountStale(s[..|s| - 1], now);
      }
      assert s[n] <= s[|s| - 1];
    }
  }

  /** Popping the stale front of the deque leaves exactly the recent part of the whole log. */
  lemma PoppedDequeCountsLog(deque: seq<real>, log: seq<real>, before: real, now: real)
    requires Tracks(deque, log, before) && before <= now && Sorted(log)
    ensures Tracks(Window(deque, now), log, now)
    ensures |Window(deque, now)| == CountRecent(log, now)
  {
    WindowIsTail(deque, now);
    var w, n := Window(deque, now), |log| - |Window(deque, now)|;
    forall i | 0 <= i < n
      ensures now - log[i] > WINDOW_SEC
    {
      var d := |log| - |deque|;
      if i >= d {
        assert log[i] == deque[i - d];
      }
    }
    assert w == log[n..];
    CountTail(log, now, n);
  }

  lemma AppendSorted(s: seq<real>, now: real)
    requires Sorted(s) && Before(s, now)
    ensures Sorted(s + [now])
  {
    forall i, j | 0 <= i < j < |s + [now]|
      ensures (s + [now])[i] <= (s + [now])[j]
    {
      if j == |s| {
        assert s[i] <= s[|s| - 1];
      }
    }
  }

  /** What a deque in order decides: the popped deque, its bounds, and its agreement with the log. */
  lemma OrderedDecision(deque: seq<real>, log: seq<real>, clock: real, now: real, gone: bool)
    requires InOrder(deque, log, clock, gone) && clock <= now
    ensures InOrder(Window(deque, now), log, now, gone)
    ensures |Window(deque, now)| <= RATE_MAX
    ensures Window(deque, now) != [] ==> Window(deque, now)[0] <= now && now - Window(deque, now)[0] <= WINDOW_SEC
    ensures !gone ==> |Window(deque, now)| == CountRecent(log, now)
    ensures Stale(deque, now) ==> Window(deque, now) == []
    ensures Window([], now) == []
  {
    LaterInOrder(deque, log, clock, now, gone);
    PoppedInOrder(deque, log, now, gone);
    WindowIsTail(deque, now);
    if Stale(deque, now) {
      StaleDequeEmpties(deque, now);
    }
    if !gone {
      PoppedDequeCountsLog(deque, log, now, now);
    }
    if Window(deque, now) != [] {
      assert Sorted(Window(deque, now)) && Before(Window(deque, now), now);
    }
  }

  /** Time passes: nothing that was in order gets out of order. */
  lemma LaterInOrder(deque: seq<real>, log: seq<real>, now: real, later: real, gone: bool)
    requires InOrder(deque, log, now, gone) && now <= later
    ensures InOrder(deque, log, later, gone)
    ensures Stale(deque, later) ==> InOrder([], log, later, gone)
  {
    hide Spaced;
    if Stale(deque, later) && !gone {
      forall i | 0 <= i < |log|
        ensures later - log[i] > WINDOW_SEC
      {
        var d := |log| - |deque|;
        if i >= d {
          assert log[i] == deque[i - d] <= deque[|deque| - 1];
        }
      }
    }
  }

  lemma PoppedInOrder(deque: seq<real>, log: seq<real>, now: real, gone: bool)
    requires InOrder(deque, log, now, gone)
    ensures InOrder(Window(deque, now), log, now, gone)
  {
    WindowIsTail(deque, now);
    if !gone {
      PoppedDequeCountsLog(deque, log, now, now);
    }
  }

  lemma AcceptedInOrder(deque: seq<real>, log: seq<real>, now: real, gone: bool)
    requires InOrder(deque, log, now, gone) && |deque| < RATE_MAX
    ensures InOrder(deque + [now], log + [now], now, gone)
  {
    AppendSorted(deque, now);
    AppendSorted(log, now);
  }

  lemma FarApart(log: seq<real>, i: nat, j: nat)
    requires Sorted(log) && Spaced(log) && i + RATE_MAX <= j < |log|
    ensures log[j] - log[i] > WINDOW_SEC
  {
    assert log[i + RATE_MAX] <= log[j];
  }

  /** At most ten accepted attempts lie in any closed window of sixty seconds. */
  lemma AtMostTenPerWindow(log: seq<real>, start: real)
    requires Sorted(log) && Spaced(log)
    ensures |set i | 0 <= i < |log| && start <= log[i] <= start + 60.0| <= 10
  {
    var inside := set i | 0 <= i < |log| && start <= log[i] <= start + WINDOW_SEC;
    if exists i :: i in inside {
      var i := SmallestMember(inside);
      forall j | j in inside
        ensures i <= j < i + RATE_MAX
      {
        if i + RATE_MAX <= j {
          FarApart(log, i, j);
          assert false;
        }
      }
      SizeWithin(inside, i, RATE_MAX);
    } else {
      SizeWithin(inside, 0, 0);
    }
  }

  /** Whether the limiter lets an attempt of `key` pass at time `now`. */
  predicate Admits(b: Buckets, key: string, now: real) {
    |Window(Get(b, key), now)| < RATE_MAX
  }

  /** An attempt of `key` leaves the bucket of any other key as it was, or drops it. */
  ghost predicate SparesOthers(before: Buckets, after: Buckets, key: string) {
    forall k :: k != key ==> Get(after, k) == Get(before, k) || Get(after, k) == []
  }

  lemma PrunedAndSet(before: Buckets, pruned: Buckets, key: string, deque: seq<real>)
    requires pruned.Keys <= before.Keys && forall k <- pruned :: pruned[k] == before[k]
    ensures SparesOthers(before, pruned[key := deque], key)
  {
  }

  /** `b` lists the buckets before and after each of a sequence of attempts, the i-th by `keys[i]`. */
  ghost predicate Attempted(b: seq<Buckets>, keys: seq<string>) {
    |b| == |keys| + 1 && forall i :: 0 <= i < |keys| ==> SparesOthers(b[i], b[i + 1], keys[i])
  }

  /** What a key may do at a later time survives any attempts of other keys, so a promised wait does too. */
  lemma {:induction false} OthersCannotDelay(b: seq<Buckets>, keys: seq<string>, key: string, later: real)
    requires Attempted(b, keys) && key !in keys
    ensures Get(b[|b| - 1], key) == Get(b[0], key) || Get(b[|b| - 1], key) == []
    ensures Admits(b[0], key, later) ==> Admits(b[|b| - 1], key, later)
  {
    if keys != [] {
      OthersCannotDelay(b[..|b| - 1], keys[..|keys| - 1], key, later);
      assert SparesOthers(b[|keys| - 1], b[|keys|], keys[|keys| - 1]);
    }
  }

  /** A deque whose last time is stale would be emptied by popping. */
  lemma {:induction false} StaleDequeEmpties(deque: seq<real>, now: real)
    requires Sorted(deque) && Stale(deque, now)
    ensures Window(deque, now) == []
  {
    if deque != [] {
      assert deque[0] <= deque[|deque| - 1];
      StaleDequeEmpties(deque[1..], now);
    }
  }

  /** The seconds a refused caller is told to wait. */
  function RetryAfter(deque: seq<real>, now: real): int
    requires deque != []
  {
    Max(1, (WINDOW_SEC - (now - deque[0])).Floor + 1)
  }

  /**
   Waiting the announced time suffices, and a second less does not: the caller passes exactly
   when its oldest attempt has left the window.
   */
  lemma RetryAfterSuffices(deque: seq<real>, now: real, later: real)
    requires |deque| == RATE_MAX && now - deque[0] <= WINDOW_SEC
    ensures later >= now + RetryAfter(deque, now) as real ==> |Window(deque, later)| < 10
    ensures later <= now + (RetryAfter(deque, now) - 1) as real ==> |Window(deque, later)| >= 10
    ensures |Window(deque, later)| < 10 <==> later - deque[0] > 60.0
    ensures deque[0] <= now ==> 1 <= RetryAfter(deque, now) <= 61
  {
    WindowIsTail(deque[1..], later);
  }

  lemma OldestExists(b: Buckets) returns (oldest: string)
    requires |b| > 0
    ensures oldest in b && forall k <- b :: Last(b[oldest]) <= Last(b[k])
    decreases |b|
  {
    oldest :| oldest in b;
    var rest := b - {oldest};
    assert rest.Keys == b.Keys - {oldest};
    assert forall k <- b :: k == oldest || k in rest;
    if |rest| > 0 {
      var r := OldestExists(rest);
      if Last(b[r]) <= Last(b[oldest]) {
        oldest := r;
      }
    } else {
      assert rest == map[];
    }
  }

  class RateLimiter {
    var buckets: Buckets
    /** Every accepted attempt since the limiter started. */
    ghost var log: map<string, seq<real>>
    /** The keys whose bucket was ever dropped because of the cap. */
    ghost var evicted: set<string>
    ghost var clock: real

    ghost predicate KeyOk(k: string)
      reads this
    {
      InOrder(Get(buckets, k), Get(log, k), clock, k in evicted)
    }

    ghost predicate Valid()
      reads this
    {
      && (forall k <- buckets :: buckets[k] != [])
      && (forall k {:trigger KeyOk(k)} :: KeyOk(k))
    }

    constructor (start: real)
      ensures Valid() && buckets == map[] && log == map[] && evicted == {} && clock == start
    {
      buckets, log, evicted, clock := map[], map[], {}, start;
    }

    /** Drops every bucket without an attempt in the window. */
    method DropStale(now: real)
      requires Valid() && clock <= now
      modifies this
      ensures Valid() && clock == now && log == old(log) && evicted == old(evicted)
      ensures buckets == Live(old(buckets), now)
    {
      hide InOrder;
      buckets := map k | k in buckets && !Stale(buckets[k], now) :: buckets[k];
      clock := now;
      forall k
        ensures KeyOk(k)
      {
        assert old(KeyOk(k));
        LaterInOrder(Get(old(buckets), k), Get(log, k), old(clock), now, k in evicted);
      }
    }

    method Evict(key: string)
      requires Valid() && key in buckets
      modifies this
      ensures Valid() && clock == old(clock) && log == old(log)
      ensures buckets == old(buckets) - {key} && evicted == old(evicted) + {key}
    {
      buckets := buckets - {key};
      evicted := evicted + {key};
      forall k
        ensures KeyOk(k)
      {
        assert old(KeyOk(k));
      }
    }

    /** Drops stale buckets and, beyond the cap, the least recently active ones. */
    method Prune(now: real)
      requires Valid() && clock <= now
      modifies this
      ensures Valid() && clock == now && log == old(log)
      ensures buckets.Keys <= Live(old(buckets), now).Keys
      ensures forall k <- buckets :: buckets[k] == old(buckets)[k]
      ensures |buckets| == Min(|Live(old(buckets), now)|, 4096)
      ensures evicted == old(evicted) + (Live(old(buckets), now).Keys - buckets.Keys)
      ensures forall kept, gone :: kept in buckets && gone in Live(old(buckets), now) && gone !in buckets ==>
                Last(old(buckets)[gone]) <= Last(old(buckets)[kept])
    {
      hide Valid, KeyOk;
      DropStale(now);
      ghost var live := buckets;
      while |buckets| > BUCKET_CAP
        invariant Valid() && clock == now && log == old(log)
        invariant buckets.Keys <= live.Keys
        invariant forall k <- buckets :: buckets[k] == live[k]
        invariant Min(|live|, BUCKET_CAP) <= |buckets| <= |live|
        invariant evicted == old(evicted) + (live.Keys - buckets.Keys)
        invariant forall kept, gone :: kept in buckets && gone in live && gone !in buckets ==>
                    Last(live[gone]) <= Last(live[kept])
        decreases |buckets|
      {
        ghost var candidate := OldestExists(buckets);
        var oldest :| oldest in buckets && forall k <- buckets :: Last(buckets[oldest]) <= Last(buckets[k]);
        ghost var keys := buckets.Keys;
        Evict(oldest);
        assert buckets.Keys == keys - {oldest};
      }
    }

    method SetBucket(key: string, deque: seq<real>)
      requires Valid() && InOrder(deque, Get(log, key), clock, key in evicted) && deque != []
      modifies this`buckets
      ensures Valid() && buckets == old(buckets)[key := deque]
    {
      hide InOrder;
      buckets := buckets[key := deque];
      forall k
        ensures KeyOk(k)
      {
        assert old(KeyOk(k));
      }
    }

    method AppendAttempt(key: string, deque: seq<real>, now: real)
      requires Valid() && now == clock && |deque| < RATE_MAX
      requires InOrder(deque, Get(log, key), now, key in evicted)
      modifies this`buckets, this`log
      ensures Valid() && buckets == old(buckets)[key := deque + [now]]
      ensures log == old(log)[key := Get(old(log), key) + [now]]
    {
      hide InOrder;
      AcceptedInOrder(deque, Get(log, key), now, key in evicted);
      buckets := buckets[key := deque + [now]];
      log := log[key := Get(log, key) + [now]];
      forall k
        ensures KeyOk(k)
      {
        assert old(KeyOk(k));
      }
    }

    /** Pops the stale front of the key's deque. */
    method PopStale(key: string, now: real) returns (deque: seq<real>)
      ensures deque == Window(Get(buckets, key), now)
    {
      deque := Get(buckets, key);
      while deque != [] && now - deque[0] > WINDOW_SEC
        invariant Window(deque, now) == Window(Get(buckets, key), now)
        decreases |deque|
      {
        deque := deque[1..];
      }
    }

    /**
     `_check_rate_limit`: one attempt of `key` at time `now`, and for a refused attempt the
     number of seconds to wait.
     */
    method Check(key: string, now: real) returns (accepted: bool, retryAfter: int)
      requires Valid() && clock <= now
      modifies this
      ensures Valid() && clock == now && |buckets| <= 4097
      ensures old(evicted) <= evicted
      // the decision of the log: fewer than ten accepted attempts in the closed window
      ensures key !in evicted ==> (accepted <==> CountRecent(Get(old(log), key), now) < 10)
      // the decision of the bucket, unless the cap dropped the bucket
      ensures Admits(old(buckets), key, now) ==> accepted
      ensures accepted && !Admits(old(buckets), key, now) ==> key in evicted
      ensures log == if accepted then old(log)[key := Get(old(log), key) + [now]] else old(log)
      // a refused caller that waits as told, and makes no other attempt, passes
      ensures !accepted ==> forall later :: later >= now + retryAfter as real ==> Admits(buckets, key, later)
      ensures !accepted ==> 1 <= retryAfter <= 61
      // and does not pass if it comes a second too early
      ensures !accepted ==> forall early :: early <= now + (retryAfter - 1) as real ==> !Admits(buckets, key, early)
      // other keys lose their bucket or keep it
      ensures SparesOthers(old(buckets), buckets, key)
    {
      hide Valid, InOrder, Window, CountRecent, SparesOthers;
      ghost var before, history := Get(buckets, key), Get(log, key);
      KeyIsInOrder(key);
      OrderedDecision(before, history, clock, now, key in evicted);
      ghost var live := Live(buckets, now);
      Prune(now);
      KeyIsInOrder(key);
      ghost var pruned := buckets;
      ghost var kept := Get(buckets, key);
      assert kept == before || (kept == [] && (key in evicted || Stale(before, now)));
      OrderedDecision(kept, history, now, now, key in evicted);
      var deque := PopStale(key, now);
      if |deque| >= RATE_MAX {
        SetBucket(key, deque);
        PrunedAndSet(old(buckets), pruned, key, deque);
        retryAfter := RetryAfter(deque, now);
        forall later
          ensures later >= now + retryAfter as real ==> Admits(buckets, key, later)
          ensures later <= now + (retryAfter - 1) as real ==> !Admits(buckets, key, later)
        {
          RetryAfterSuffices(deque, now, later);
        }
        RetryAfterSuffices(deque, now, now);
        return false, retryAfter;
      }
      AppendAttempt(key, deque, now);
      PrunedAndSet(old(buckets), pruned, key, deque + [now]);
      return true, 0;
    }

    lemma KeyIsInOrder(k: string)
      requires Valid()
      ensures InOrder(Get(buckets, k), Get(log, k), clock, k in evicted)
    {
      assert KeyOk(k);
    }
  }
}
