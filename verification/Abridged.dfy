/**
 What is stored of any payload: which beginning of a text, which members of a dictionary and which
 items of a list, and what is left of the budget after each of them.
 */
module Abridged {
  import opened Basics
  import opened Sanitizer
  import opened Redaction

  function Cut(m: Meter, left: int): Meter {
    Meter(left, m.flags.(truncated := true))
  }

  /**
   `out` is stored for `v`, at `levels` above the depth limit, by a traversal that has `before` when
   it comes to the value and `after` when it leaves it. The loops are given by what they have
   at each turn.
   */
  ghost predicate Stores(p: Policy, v: Value, levels: int, before: Meter, out: Value, after: Meter)
    decreases v, 2
  {
    if before.budget <= 0 then out == Text("[TRUNCATED]") && after == Cut(before, before.budget)
    else if levels < 0 then out == Text("[TRUNCATED]") && after == Cut(before, Max(0, before.budget - 11))
    else
      match v
      case Scalar(json) =>
        if |json| <= before.budget then out == v && after == before.(budget := before.budget - |json|)
        else out == Text("[TRUNCATED]") && after == Cut(before, 0)
      case Other(text) =>
        if JsonSize(text) <= before.budget then
          out == Text(text) && after == before.(budget := before.budget - JsonSize(text))
        else out == Text("[TRUNCATED]") && after == Cut(before, 0)
      case Binary =>
        && out == Text("[BINARY_OMITTED]")
        && after == Meter(Max(0, before.budget - 16), before.flags.(binaryOmitted := true))
      case Text(text) =>
        && TextStored(p.redact(text), before.budget, out, after.budget)
        && after.flags == Flags(before.flags.truncated || TextCut(p.redact(text), before.budget),
                                before.flags.binaryOmitted || 0 as char in p.redact(text),
                                before.flags.secretsRedacted || p.redact(text) == "[REDACTED]" != text)
      case Dict(_) =>
        out.Dict? && exists trace: seq<Meter>, kept: seq<Member> ::
          MembersStored(p, v, levels, before, trace, kept) && MembersEnd(v, trace[|kept|], kept, out.members, after)
      case List(_) =>
        out.List? && exists trace: seq<Meter>, kept: seq<Value> ::
          ItemsStored(p, v, levels, before, trace, kept) && ItemsEnd(v, trace[|kept|], kept, out.items, after)
  }

  /** The members that a dictionary loop puts out before it ends: one for each of its first keys. */
  ghost predicate MembersStored(
    p: Policy, v: Value, levels: int, before: Meter, trace: seq<Meter>, kept: seq<Member>)
    requires v.Dict?
    decreases v, 1
  {
    && |trace| == |kept| + 1 && |kept| <= |v.members| && |kept| <= 64 && trace[0] == before
    && forall j :: 0 <= j < |kept| ==> MemberStored(p, v, j, levels, trace[j], kept[j], trace[j + 1])
  }

  ghost predicate MemberStored(
    p: Policy, v: Value, j: nat, levels: int, before: Meter, stored: Member, after: Meter)
    requires v.Dict? && j < |v.members|
    decreases v, 0
  {
    var key := v.members[j].key;
    && before.budget > 0 && stored.key == key
    && if p.isSecret(key) then
         && stored.value == Text("[REDACTED]")
         && after == Meter(Max(0, before.budget - 10 - |key|), before.flags.(secretsRedacted := true))
       else Stores(p, v.members[j].value, levels - 1, before, stored.value, after)
  }

  /** The loop ends with the last member, or at the first turn without budget or beyond 64 members. */
  ghost predicate MembersEnd(v: Value, left: Meter, kept: seq<Member>, out: seq<Member>, after: Meter)
    requires v.Dict?
  {
    if |kept| == |v.members| then out == kept && after == left
    else
      && (left.budget <= 0 || |kept| == 64) && after == Cut(left, left.budget)
      && Marked(kept, if left.budget <= 0 then "__truncated__" else "__collection_truncated__", out)
  }

  /** `out` is `kept` with `true` under `key`, in the place of that key if it has one. */
  predicate Marked(kept: seq<Member>, key: string, out: seq<Member>) {
    || (out == kept + [Member(key, Scalar("true"))] && forall j :: 0 <= j < |kept| ==> kept[j].key != key)
    || exists j :: 0 <= j < |kept| && kept[j].key == key && out == kept[j := Member(key, Scalar("true"))]
  }

  ghost predicate ItemsStored(
    p: Policy, v: Value, levels: int, before: Meter, trace: seq<Meter>, kept: seq<Value>)
    requires v.List?
    decreases v, 1
  {
    && |trace| == |kept| + 1 && |kept| <= |v.items| && |kept| <= 64 && trace[0] == before
    && forall j :: 0 <= j < |kept| ==> ItemStored(p, v, j, levels, trace[j], kept[j], trace[j + 1])
  }

  ghost predicate ItemStored(p: Policy, v: Value, j: nat, levels: int, before: Meter, stored: Value, after: Meter)
    requires v.List? && j < |v.items|
    decreases v, 0
  {
    before.budget > 0 && Stores(p, v.items[j], levels - 1, before, stored, after)
  }

  ghost predicate ItemsEnd(v: Value, left: Meter, kept: seq<Value>, out: seq<Value>, after: Meter)
    requires v.List?
  {
    if |kept| == |v.items| then out == kept && after == left
    else
      && (left.budget <= 0 || |kept| == 64) && after == Cut(left, left.budget)
      && out == kept + [Text("[TRUNCATED]")]
  }

  // ----- the traversal stores nothing else -----

  predicate DistinctKeys(ms: seq<Member>) {
    forall i, j :: 0 <= i < j < |ms| ==> ms[i].key != ms[j].key
  }

  lemma {:induction false} PutMarks(out: seq<Member>, key: string)
    requires DistinctKeys(out)
    ensures Marked(out, key, Put(out, key, JSON_TRUE))
  {
    if j :| 0 <= j < |out| && out[j].key == key {
      PutReplaces(out, j, JSON_TRUE);
    } else {
      PutNewKey(out, key, JSON_TRUE);
    }
  }

  lemma {:induction false} PutReplaces(out: seq<Member>, j: nat, value: Value)
    requires DistinctKeys(out) && j < |out|
    ensures Put(out, out[j].key, value) == out[j := Member(out[j].key, value)]
  {
    if j > 0 {
      PutReplaces(out[1..], j - 1, value);
      assert out == [out[0]] + out[1..];
    }
  }

  /** What the traversal stores for any value, and what it has left, under any limits. */
  lemma {:induction false} ScrubStores(p: Policy, v: Value, depth: int, maxDepth: int, m: Meter)
    requires KeysDistinct(v)
    ensures var (out, after) := Scrub(p, v, depth, maxDepth, m); Stores(p, v, maxDepth - depth, m, out, after)
    decreases v, 1, 0
  {
    hide JsonSize, TextStored, ScrubText;
    if m.budget > 0 && depth <= maxDepth {
      match v
      case Text(text) => TextIsStored(p, text, m);
      case Dict(_) => MembersLoop(p, v, depth, maxDepth, [], m, m, [m]);
      case List(_) => ItemsLoop(p, v, depth, maxDepth, [], m, m, [m]);
      case _ =>
    }
  }

  lemma {:induction false} MembersLoop(
    p: Policy, v: Value, depth: int, maxDepth: int, out: seq<Member>, m: Meter, start: Meter, trace: seq<Meter>)
    requires v.Dict? && KeysDistinct(v) && depth <= maxDepth
    requires MembersStored(p, v, maxDepth - depth, start, trace, out) && m == trace[|out|]
    ensures var (r, after) := ScrubMembers(p, v, |out|, depth, maxDepth, out, m);
            exists trace', kept ::
              && MembersStored(p, v, maxDepth - depth, start, trace', kept)
              && MembersEnd(v, trace'[|kept|], kept, r, after)
    decreases v, 0, |v.members| - |out|
  {
    hide Scrub, Put, Stores;
    var i := |out|;
    var (r, after) := ScrubMembers(p, v, i, depth, maxDepth, out, m);
    forall j | 0 <= j < i
      ensures out[j].key == v.members[j].key
    {
      assert MemberStored(p, v, j, maxDepth - depth, trace[j], out[j], trace[j + 1]);
    }
    if i == |v.members| || m.budget <= 0 || i >= MAX_ITEMS {
      PutMarks(out, DICT_TRUNCATED);
      PutMarks(out, DICT_COLLECTION_TRUNCATED);
      assert MembersEnd(v, trace[|out|], out, r, after);
    } else {
      var key := v.members[i].key;
      var value, m' := Text(REDACTED), Meter(Charge(m.budget, |REDACTED| + |key|), m.flags.(secretsRedacted := true));
      if !p.isSecret(key) {
        ScrubStores(p, v.members[i].value, depth + 1, maxDepth, m);
        var s := Scrub(p, v.members[i].value, depth + 1, maxDepth, m);
        value, m' := s.0, s.1;
      }
      PutNewKey(out, key, value);
      assert MemberStored(p, v, i, maxDepth - depth, m, Member(key, value), m');
      MoreMembersStored(p, v, maxDepth - depth, start, trace, out, Member(key, value), m');
      MembersLoop(p, v, depth, maxDepth, out + [Member(key, value)], m', start, trace + [m']);
    }
  }

  lemma MoreMembersStored(
    p: Policy, v: Value, levels: int, start: Meter, trace: seq<Meter>, kept: seq<Member>, stored: Member, after: Meter)
    requires v.Dict? && MembersStored(p, v, levels, start, trace, kept) && |kept| < |v.members| && |kept| < 64
    requires MemberStored(p, v, |kept|, levels, trace[|kept|], stored, after)
    ensures MembersStored(p, v, levels, start, trace + [after], kept + [stored])
  {
    hide MemberStored;
    var trace', kept' := trace + [after], kept + [stored];
    forall j | 0 <= j < |kept'|
      ensures MemberStored(p, v, j, levels, trace'[j], kept'[j], trace'[j + 1])
    {
      assert j < |kept| ==> MemberStored(p, v, j, levels, trace[j], kept[j], trace[j + 1]);
    }
  }

  lemma {:induction false} ItemsLoop(
    p: Policy, v: Value, depth: int, maxDepth: int, out: seq<Value>, m: Meter, start: Meter, trace: seq<Meter>)
    requires v.List? && KeysDistinct(v) && depth <= maxDepth
    requires ItemsStored(p, v, maxDepth - depth, start, trace, out) && m == trace[|out|]
    ensures var (r, after) := ScrubItems(p, v, |out|, depth, maxDepth, out, m);
            exists trace', kept ::
              && ItemsStored(p, v, maxDepth - depth, start, trace', kept)
              && ItemsEnd(v, trace'[|kept|], kept, r, after)
    decreases v, 0, |v.items| - |out|
  {
    hide Scrub, Stores;
    var i := |out|;
    var (r, after) := ScrubItems(p, v, i, depth, maxDepth, out, m);
    if i == |v.items| || m.budget <= 0 || i >= MAX_ITEMS {
      assert ItemsEnd(v, trace[|out|], out, r, after);
    } else {
      ScrubStores(p, v.items[i], depth + 1, maxDepth, m);
      var (value, m') := Scrub(p, v.items[i], depth + 1, maxDepth, m);
      assert ItemStored(p, v, i, maxDepth - depth, m, value, m');
      MoreItemsStored(p, v, maxDepth - depth, start, trace, out, value, m');
      ItemsLoop(p, v, depth, maxDepth, out + [value], m', start, trace + [m']);
    }
  }

  lemma MoreItemsStored(
    p: Policy, v: Value, levels: int, start: Meter, trace: seq<Meter>, kept: seq<Value>, stored: Value, after: Meter)
    requires v.List? && ItemsStored(p, v, levels, start, trace, kept) && |kept| < |v.items| && |kept| < 64
    requires ItemStored(p, v, |kept|, levels, trace[|kept|], stored, after)
    ensures ItemsStored(p, v, levels, start, trace + [after], kept + [stored])
  {
    hide ItemStored;
    var trace', kept' := trace + [after], kept + [stored];
    forall j | 0 <= j < |kept'|
      ensures ItemStored(p, v, j, levels, trace'[j], kept'[j], trace'[j + 1])
    {
      assert j < |kept| ==> ItemStored(p, v, j, levels, trace[j], kept[j], trace[j + 1]);
    }
  }

  // ----- what a reader of the stored copy can rely on -----

  /** The text itself, or a beginning of it followed by the marker; a text over 2048 may keep part of a first marker. */
  ghost predicate Shortened(text: string, out: string) {
    exists marked :: WithinChars(text, marked) && (out == marked || exists keep: nat :: CutAfter(marked, keep, out))
  }

  predicate StopMember(stored: Member) {
    stored.key in {"__truncated__", "__collection_truncated__"} && stored.value == Scalar("true")
  }

  /**
   Whatever the budget was: each stored value stands at the path of its original and is that scalar,
   a beginning of that text, or a marker; a dictionary or list that is cut keeps its first members.
   */
  ghost predicate Abridges(p: Policy, v: Value, out: Value)
    decreases v, 2
  {
    || out == Text("[TRUNCATED]")
    || match v
       case Scalar(_) => out == v
       case Other(text) => out == Text(text)
       case Binary => out == Text("[BINARY_OMITTED]")
       case Text(text) =>
         if 0 as char in p.redact(text) then out == Text("[BINARY_OMITTED]")
         else out.Text? && Shortened(p.redact(text), out.text)
       case Dict(ms) => out.Dict? && exists n: nat :: n <= |ms| && FirstMembers(p, v, n, out.members)
       case List(xs) => out.List? && exists n: nat :: n <= |xs| && FirstItems(p, v, n, out.items)
  }

  ghost predicate FirstMembers(p: Policy, v: Value, n: nat, out: seq<Member>)
    requires v.Dict? && n <= |v.members|
    decreases v, 1
  {
    && n <= |out| <= n + 1
    && (forall j :: 0 <= j < n ==> MemberAbridged(p, v, j, out[j]))
    && (|out| > n ==> StopMember(out[n]))
    && (if n == |v.members| then |out| == n else exists stored <- out :: StopMember(stored))
  }

  ghost predicate MemberAbridged(p: Policy, v: Value, j: nat, stored: Member)
    requires v.Dict? && j < |v.members|
    decreases v, 0
  {
    var key := v.members[j].key;
    && stored.key == key
    && (|| StopMember(stored)
        || if p.isSecret(key) then stored.value == Text("[REDACTED]")
           else Abridges(p, v.members[j].value, stored.value))
  }

  ghost predicate FirstItems(p: Policy, v: Value, n: nat, out: seq<Value>)
    requires v.List? && n <= |v.items|
    decreases v, 1
  {
    && |out| == (if n == |v.items| then n else n + 1)
    && (forall j :: 0 <= j < n ==> ItemAbridged(p, v, j, out[j]))
    && (|out| > n ==> out[n] == Text("[TRUNCATED]"))
  }

  ghost predicate ItemAbridged(p: Policy, v: Value, j: nat, stored: Value)
    requires v.List? && j < |v.items|
    decreases v, 0
  {
    Abridges(p, v.items[j], stored)
  }

  lemma {:induction false} StoredIsAbridged(
    p: Policy, v: Value, levels: int, before: Meter, out: Value, after: Meter)
    requires Stores(p, v, levels, before, out, after)
    ensures Abridges(p, v, out)
    decreases v
  {
    hide JsonSize, WithinChars, CutAfter;
    if out != Text("[TRUNCATED]") {
      match v
      case Dict(_) => MembersAreAbridged(p, v, levels, before, out, after);
      case List(_) => ItemsAreAbridged(p, v, levels, before, out, after);
      case _ =>
    }
  }

  lemma {:induction false} MembersAreAbridged(
    p: Policy, v: Value, levels: int, before: Meter, out: Value, after: Meter)
    requires v.Dict? && out.Dict? && Stores(p, v, levels, before, out, after)
    ensures exists n: nat :: n <= |v.members| && FirstMembers(p, v, n, out.members)
    decreases v, 0
  {
    hide Abridges;
    var trace: seq<Meter>, kept: seq<Member> :|
      MembersStored(p, v, levels, before, trace, kept) && MembersEnd(v, trace[|kept|], kept, out.members, after);
    var n: nat := |kept|;
    forall j | 0 <= j < n
      ensures MemberAbridged(p, v, j, kept[j])
    {
      assert MemberStored(p, v, j, levels, trace[j], kept[j], trace[j + 1]);
      if !p.isSecret(v.members[j].key) {
        StoredIsAbridged(p, v.members[j].value, levels - 1, trace[j], kept[j].value, trace[j + 1]);
      }
    }
    MarkedAbridges(p, v, trace[n], kept, out.members, after);
  }

  lemma MarkedAbridges(p: Policy, v: Value, left: Meter, kept: seq<Member>, out: seq<Member>, after: Meter)
    requires v.Dict? && |kept| <= |v.members| && MembersEnd(v, left, kept, out, after)
    requires forall j :: 0 <= j < |kept| ==> MemberAbridged(p, v, j, kept[j])
    ensures FirstMembers(p, v, |kept|, out)
  {
    hide Abridges;
    if |kept| < |v.members| {
      var key := if left.budget <= 0 then "__truncated__" else "__collection_truncated__";
      if j :| 0 <= j < |kept| && kept[j].key == key && out == kept[j := Member(key, Scalar("true"))] {
        assert MemberAbridged(p, v, j, kept[j]);
        assert StopMember(out[j]);
      } else {
        assert StopMember(out[|kept|]);
      }
    }
  }

  lemma {:induction false} ItemsAreAbridged(
    p: Policy, v: Value, levels: int, before: Meter, out: Value, after: Meter)
    requires v.List? && out.List? && Stores(p, v, levels, before, out, after)
    ensures exists n: nat :: n <= |v.items| && FirstItems(p, v, n, out.items)
    decreases v, 0
  {
    hide Abridges;
    var trace: seq<Meter>, kept: seq<Value> :|
      ItemsStored(p, v, levels, before, trace, kept) && ItemsEnd(v, trace[|kept|], kept, out.items, after);
    forall j | 0 <= j < |kept|
      ensures ItemAbridged(p, v, j, kept[j])
    {
      assert ItemStored(p, v, j, levels, trace[j], kept[j], trace[j + 1]);
      StoredIsAbridged(p, v.items[j], levels - 1, trace[j], kept[j], trace[j + 1]);
    }
    assert FirstItems(p, v, |kept|, out.items);
  }

  // ----- whole payloads -----

  /** What is traversed for a payload: nothing, an object, or anything else inside one. */
  function Envelope(payload: Option<Value>): Value {
    if payload.None? then Dict([])
    else if payload.value.Dict? then payload.value
    else Dict([Member("_non_object_payload", payload.value)])
  }

  /**
   The stored copy of any payload is an object whose parts abridge those of the payload, cut as the
   limits demand; only a limit that leaves nothing to traverse stores a marker in its place.
   */
  lemma StoredCopyAbridges(p: Policy, payload: Option<Value>, maxDepth: int, maxBytes: int)
    requires payload.Some? ==> KeysDistinct(payload.value)
    ensures var r := ScrubPayload(p, payload, maxDepth, maxBytes);
            if maxBytes <= 0 || maxDepth < 0 then
              r == Scrubbed(Dict([Member("_value", Text("[TRUNCATED]"))]), Flags(true, false, false))
            else
              && Abridges(p, Envelope(payload), r.payload) && r.payload.Dict?
              && exists left :: Stores(p, Envelope(payload), maxDepth, Meter(maxBytes, NO_FLAGS), r.payload, left)
                                && r.flags == left.flags
  {
    var v := Envelope(payload);
    var m := Meter(maxBytes, NO_FLAGS);
    assert KeysDistinct(v) && v == AsObject(payload);
    ScrubStores(p, v, 0, maxDepth, m);
    var (out, left) := Scrub(p, v, 0, maxDepth, m);
    StoredIsAbridged(p, v, maxDepth, m, out, left);
  }
}
