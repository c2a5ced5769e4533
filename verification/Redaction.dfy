/** What the scrubber guarantees about any payload: secrecy, accounting, shape and fidelity. */
module Redaction {
  import opened Basics
  import opened Sanitizer

  // ----- secrecy -----

  /** The payloads differ at most in values stored under secret keys, at any depth. */
  ghost predicate SameButSecrets(p: Policy, a: Value, b: Value) {
    match (a, b)
    case (Dict(ms), Dict(ns)) =>
      && |ms| == |ns|
      && forall i :: 0 <= i < |ms| ==>
           ms[i].key == ns[i].key && (p.isSecret(ms[i].key) || SameButSecrets(p, ms[i].value, ns[i].value))
    case (List(xs), List(ys)) =>
      |xs| == |ys| && forall i :: 0 <= i < |xs| ==> SameButSecrets(p, xs[i], ys[i])
    case _ => a == b
  }

  /**
   Secret values cannot be told apart: the scrubbed value, the budget left and the flags are
   the same for two payloads that differ only under secret keys.
   */
  lemma {:induction false} NonInterference(p: Policy, a: Value, b: Value, depth: int, maxDepth: int, m: Meter)
    requires SameButSecrets(p, a, b)
    ensures Scrub(p, a, depth, maxDepth, m) == Scrub(p, b, depth, maxDepth, m)
    decreases a, 1, 0
  {
    if m.budget > 0 && depth <= maxDepth {
      match a
      case Dict(_) => MembersNonInterference(p, a, b, 0, depth, maxDepth, [], m);
      case List(_) => ItemsNonInterference(p, a, b, 0, depth, maxDepth, [], m);
      case _ =>
    }
  }

  lemma {:induction false} MembersNonInterference(
    p: Policy, a: Value, b: Value, i: nat, depth: int, maxDepth: int, out: seq<Member>, m: Meter)
    requires a.Dict? && b.Dict? && SameButSecrets(p, a, b) && i <= |a.members|
    ensures ScrubMembers(p, a, i, depth, maxDepth, out, m) == ScrubMembers(p, b, i, depth, maxDepth, out, m)
    decreases a, 0, |a.members| - i
  {
    if i < |a.members| && m.budget > 0 && i < MAX_ITEMS {
      var key := a.members[i].key;
      assert b.members[i].key == key;
      if p.isSecret(key) {
        MembersNonInterference(p, a, b, i + 1, depth, maxDepth, Put(out, key, Text(REDACTED)),
                               Meter(Charge(m.budget, |REDACTED| + |key|), m.flags.(secretsRedacted := true)));
      } else {
        NonInterference(p, a.members[i].value, b.members[i].value, depth + 1, maxDepth, m);
        var (value, m') := Scrub(p, a.members[i].value, depth + 1, maxDepth, m);
        MembersNonInterference(p, a, b, i + 1, depth, maxDepth, Put(out, key, value), m');
      }
    }
  }

  lemma {:induction false} ItemsNonInterference(
    p: Policy, a: Value, b: Value, i: nat, depth: int, maxDepth: int, out: seq<Value>, m: Meter)
    requires a.List? && b.List? && SameButSecrets(p, a, b) && i <= |a.items|
    ensures ScrubItems(p, a, i, depth, maxDepth, out, m) == ScrubItems(p, b, i, depth, maxDepth, out, m)
    decreases a, 0, |a.items| - i
  {
    if i < |a.items| && m.budget > 0 && i < MAX_ITEMS {
      NonInterference(p, a.items[i], b.items[i], depth + 1, maxDepth, m);
      var (value, m') := Scrub(p, a.items[i], depth + 1, maxDepth, m);
      ItemsNonInterference(p, a, b, i + 1, depth, maxDepth, out + [value], m');
    }
  }

  ghost predicate SamePayloadButSecrets(p: Policy, a: Option<Value>, b: Option<Value>) {
    if a.Some? && b.Some? then SameButSecrets(p, a.value, b.value) else a == b
  }

  /** The same for whole dead-letter payloads of any kind: the stored copy and its flags reveal nothing. */
  lemma StoredCopyHidesSecrets(p: Policy, a: Option<Value>, b: Option<Value>, maxDepth: int, maxBytes: int)
    requires SamePayloadButSecrets(p, a, b)
    ensures ScrubPayload(p, a, maxDepth, maxBytes) == ScrubPayload(p, b, maxDepth, maxBytes)
  {
    if a.Some? && b.Some? {
      WrappedAlike(p, a.value, b.value);
      NonInterference(p, AsObject(a), AsObject(b), 0, maxDepth, Meter(maxBytes, NO_FLAGS));
    }
  }

  lemma WrappedAlike(p: Policy, a: Value, b: Value)
    requires SameButSecrets(p, a, b)
    ensures SameButSecrets(p, AsObject(Some(a)), AsObject(Some(b)))
  {
  }

  /** The scrubber's own marker keys are not taken for secrets. */
  predicate MarkersPublic(p: Policy) {
    !p.isSecret(DICT_TRUNCATED) && !p.isSecret(DICT_COLLECTION_TRUNCATED) && !p.isSecret("_value")
  }

  ghost predicate SecretsRedacted(p: Policy, v: Value) {
    match v
    case Dict(ms) =>
      forall i :: 0 <= i < |ms| ==>
        if p.isSecret(ms[i].key) then ms[i].value == Text(REDACTED) else SecretsRedacted(p, ms[i].value)
    case List(xs) => forall i :: 0 <= i < |xs| ==> SecretsRedacted(p, xs[i])
    case _ => true
  }

  ghost predicate MemberRedacted(p: Policy, key: string, value: Value) {
    if p.isSecret(key) then value == Text(REDACTED) else SecretsRedacted(p, value)
  }

  lemma {:induction false} PutRedacted(p: Policy, out: seq<Member>, key: string, value: Value)
    requires SecretsRedacted(p, Dict(out)) && MemberRedacted(p, key, value)
    ensures SecretsRedacted(p, Dict(Put(out, key, value)))
  {
    if out != [] && out[0].key != key {
      assert forall i :: 0 <= i < |out[1..]| ==> out[1..][i] == out[i + 1];
      PutRedacted(p, out[1..], key, value);
      var rest := Put(out[1..], key, value);
      assert Put(out, key, value) == [out[0]] + rest;
    }
  }

  /** Every secret key that the output keeps, at any depth, maps to the redaction marker. */
  lemma {:induction false} ScrubRedactsSecrets(p: Policy, v: Value, depth: int, maxDepth: int, m: Meter)
    requires MarkersPublic(p)
    ensures SecretsRedacted(p, Scrub(p, v, depth, maxDepth, m).0)
    decreases v, 1, 0
  {
    if m.budget > 0 && depth <= maxDepth {
      match v
      case Dict(_) => ScrubMembersRedactsSecrets(p, v, 0, depth, maxDepth, [], m);
      case List(_) => ScrubItemsRedactsSecrets(p, v, 0, depth, maxDepth, [], m);
      case _ =>
    }
  }

  lemma {:induction false} ScrubMembersRedactsSecrets(
    p: Policy, v: Value, i: nat, depth: int, maxDepth: int, out: seq<Member>, m: Meter)
    requires MarkersPublic(p) && v.Dict? && i <= |v.members| && SecretsRedacted(p, Dict(out))
    ensures SecretsRedacted(p, Dict(ScrubMembers(p, v, i, depth, maxDepth, out, m).0))
    decreases v, 0, |v.members| - i
  {
    if i == |v.members| {
    } else if m.budget <= 0 {
      PutRedacted(p, out, DICT_TRUNCATED, JSON_TRUE);
    } else if i >= MAX_ITEMS {
      PutRedacted(p, out, DICT_COLLECTION_TRUNCATED, JSON_TRUE);
    } else {
      var key := v.members[i].key;
      if p.isSecret(key) {
        PutRedacted(p, out, key, Text(REDACTED));
        ScrubMembersRedactsSecrets(p, v, i + 1, depth, maxDepth, Put(out, key, Text(REDACTED)),
                                   Meter(Charge(m.budget, |REDACTED| + |key|), m.flags.(secretsRedacted := true)));
      } else {
        ScrubRedactsSecrets(p, v.members[i].value, depth + 1, maxDepth, m);
        var (value, m') := Scrub(p, v.members[i].value, depth + 1, maxDepth, m);
        PutRedacted(p, out, key, value);
        ScrubMembersRedactsSecrets(p, v, i + 1, depth, maxDepth, Put(out, key, value), m');
      }
    }
  }

  lemma {:induction false} ScrubItemsRedactsSecrets(
    p: Policy, v: Value, i: nat, depth: int, maxDepth: int, out: seq<Value>, m: Meter)
    requires MarkersPublic(p) && v.List? && i <= |v.items| && SecretsRedacted(p, List(out))
    ensures SecretsRedacted(p, List(ScrubItems(p, v, i, depth, maxDepth, out, m).0))
    decreases v, 0, |v.items| - i
  {
    if i < |v.items| && m.budget > 0 && i < MAX_ITEMS {
      ScrubRedactsSecrets(p, v.items[i], depth + 1, maxDepth, m);
      var (value, m') := Scrub(p, v.items[i], depth + 1, maxDepth, m);
      ScrubItemsRedactsSecrets(p, v, i + 1, depth, maxDepth, out + [value], m');
    }
  }

  // ----- accounting -----

  function Leaves(v: Value): nat {
    match v
    case Dict(ms) => MemberLeaves(ms)
    case List(xs) => ItemLeaves(xs)
    case _ => 1
  }

  function MemberLeaves(ms: seq<Member>): nat {
    if ms == [] then 0 else Leaves(ms[0].value) + MemberLeaves(ms[1..])
  }

  function ItemLeaves(xs: seq<Value>): nat {
    if xs == [] then 0 else Leaves(xs[0]) + ItemLeaves(xs[1..])
  }

  lemma {:induction false} PutLeaves(out: seq<Member>, key: string, value: Value)
    ensures MemberLeaves(Put(out, key, value)) <= MemberLeaves(out) + Leaves(value)
  {
    if out == [] {
      assert [Member(key, value)][1..] == [];
    } else if out[0].key == key {
      assert ([Member(key, value)] + out[1..])[1..] == out[1..];
    } else {
      PutLeaves(out[1..], key, value);
      assert ([out[0]] + Put(out[1..], key, value))[1..] == Put(out[1..], key, value);
    }
  }

  lemma {:induction false} AppendLeaves(out: seq<Value>, value: Value)
    ensures ItemLeaves(out + [value]) == ItemLeaves(out) + Leaves(value)
  {
    if out == [] {
      assert [] + [value] == [value] && [value][1..] == [];
    } else {
      AppendLeaves(out[1..], value);
      assert (out + [value])[1..] == out[1..] + [value];
    }
  }

  /** How many loops stop early while `v` is scrubbed; each leaves one uncharged marker behind. */
  ghost function Stops(p: Policy, v: Value, depth: int, maxDepth: int, m: Meter): nat
    decreases v, 1, 0
  {
    if m.budget <= 0 || depth > maxDepth then 0
    else
      match v
      case Dict(_) => MemberStops(p, v, 0, depth, maxDepth, m)
      case List(_) => ItemStops(p, v, 0, depth, maxDepth, m)
      case _ => 0
  }

  ghost function MemberStops(p: Policy, v: Value, i: nat, depth: int, maxDepth: int, m: Meter): nat
    requires v.Dict? && i <= |v.members|
    decreases v, 0, |v.members| - i
  {
    if i == |v.members| then 0
    else if m.budget <= 0 || i >= MAX_ITEMS then 1
    else
      var key := v.members[i].key;
      if p.isSecret(key) then
        MemberStops(p, v, i + 1, depth, maxDepth,
                    Meter(Charge(m.budget, |REDACTED| + |key|), m.flags.(secretsRedacted := true)))
      else
        Stops(p, v.members[i].value, depth + 1, maxDepth, m) +
        MemberStops(p, v, i + 1, depth, maxDepth, Scrub(p, v.members[i].value, depth + 1, maxDepth, m).1)
  }

  ghost function ItemStops(p: Policy, v: Value, i: nat, depth: int, maxDepth: int, m: Meter): nat
    requires v.List? && i <= |v.items|
    decreases v, 0, |v.items| - i
  {
    if i == |v.items| then 0
    else if m.budget <= 0 || i >= MAX_ITEMS then 1
    else
      Stops(p, v.items[i], depth + 1, maxDepth, m) +
      ItemStops(p, v, i + 1, depth, maxDepth, Scrub(p, v.items[i], depth + 1, maxDepth, m).1)
  }

  ghost predicate FlagsKept(f: Flags, g: Flags) {
    && (f.truncated ==> g.truncated)
    && (f.binaryOmitted ==> g.binaryOmitted)
    && (f.secretsRedacted ==> g.secretsRedacted)
  }

  /** No JSON scalar has an empty text. */
  ghost predicate WellFormed(v: Value) {
    match v
    case Scalar(json) => json != ""
    case Dict(ms) => forall i :: 0 <= i < |ms| ==> WellFormed(ms[i].value)
    case List(xs) => forall i :: 0 <= i < |xs| ==> WellFormed(xs[i])
    case _ => true
  }

  /**
   The budget only falls and never from above to below zero, raised flags stay raised, and every
   leaf of the output has been paid for, except the markers of loops that stopped early and the
   one marker that stands for a value met without any budget.
   */
  lemma {:induction false} ScrubPays(p: Policy, v: Value, depth: int, maxDepth: int, m: Meter)
    requires WellFormed(v)
    ensures var r := Scrub(p, v, depth, maxDepth, m);
            && Min(0, m.budget) <= r.1.budget <= m.budget && FlagsKept(m.flags, r.1.flags)
            && Leaves(r.0) <=
               (m.budget - r.1.budget) + Stops(p, v, depth, maxDepth, m) + (if m.budget <= 0 then 1 else 0)
    decreases v, 1, 0
  {
    if m.budget <= 0 || depth > maxDepth || (!v.Dict? && !v.List?) {
      LeafPaysOne(p, v, depth, maxDepth, m);
    } else {
      hide ScrubText, ScrubOther, ScrubScalar, JsonSize;
      match v
      case Dict(_) => MembersPay(p, v, 0, depth, maxDepth, [], m, m.budget, 0);
      case List(_) => ItemsPay(p, v, 0, depth, maxDepth, [], m, m.budget, 0);
    }
  }

  /** A leaf, and what stands for anything too deep or too late, is one leaf that costs something if it can. */
  lemma LeafPaysOne(p: Policy, v: Value, depth: int, maxDepth: int, m: Meter)
    requires WellFormed(v) && (m.budget <= 0 || depth > maxDepth || (!v.Dict? && !v.List?))
    ensures var r := Scrub(p, v, depth, maxDepth, m);
            && Leaves(r.0) == 1 && FlagsKept(m.flags, r.1.flags)
            && (if m.budget <= 0 then r.1.budget == m.budget else 0 <= r.1.budget < m.budget)
  {
    hide JsonWidths;
  }

  lemma {:induction false} MembersPay(
    p: Policy, v: Value, i: nat, depth: int, maxDepth: int, out: seq<Member>, m: Meter, start: int, stops: nat)
    requires WellFormed(v) && v.Dict? && i <= |v.members| && 0 <= m.budget <= start
    requires MemberLeaves(out) <= (start - m.budget) + stops
    ensures var r := ScrubMembers(p, v, i, depth, maxDepth, out, m);
            && 0 <= r.1.budget <= m.budget && FlagsKept(m.flags, r.1.flags)
            && MemberLeaves(r.0) <= (start - r.1.budget) + stops + MemberStops(p, v, i, depth, maxDepth, m)
    decreases v, 0, |v.members| - i
  {
    hide Scrub, Stops, Put;
    if i == |v.members| {
    } else if m.budget <= 0 {
      PutLeaves(out, DICT_TRUNCATED, JSON_TRUE);
    } else if i >= MAX_ITEMS {
      PutLeaves(out, DICT_COLLECTION_TRUNCATED, JSON_TRUE);
    } else {
      var key := v.members[i].key;
      if p.isSecret(key) {
        PutLeaves(out, key, Text(REDACTED));
        MembersPay(p, v, i + 1, depth, maxDepth, Put(out, key, Text(REDACTED)),
                   Meter(Charge(m.budget, |REDACTED| + |key|), m.flags.(secretsRedacted := true)), start, stops);
      } else {
        ScrubPays(p, v.members[i].value, depth + 1, maxDepth, m);
        var (value, m') := Scrub(p, v.members[i].value, depth + 1, maxDepth, m);
        PutLeaves(out, key, value);
        MembersPay(p, v, i + 1, depth, maxDepth, Put(out, key, value), m', start,
                   stops + Stops(p, v.members[i].value, depth + 1, maxDepth, m));
      }
    }
  }

  lemma {:induction false} ItemsPay(
    p: Policy, v: Value, i: nat, depth: int, maxDepth: int, out: seq<Value>, m: Meter, start: int, stops: nat)
    requires WellFormed(v) && v.List? && i <= |v.items| && 0 <= m.budget <= start
    requires ItemLeaves(out) <= (start - m.budget) + stops
    ensures var r := ScrubItems(p, v, i, depth, maxDepth, out, m);
            && 0 <= r.1.budget <= m.budget && FlagsKept(m.flags, r.1.flags)
            && ItemLeaves(r.0) <= (start - r.1.budget) + stops + ItemStops(p, v, i, depth, maxDepth, m)
    decreases v, 0, |v.items| - i
  {
    if i == |v.items| {
    } else if m.budget <= 0 || i >= MAX_ITEMS {
      AppendLeaves(out, Text(TRUNCATED));
    } else {
      ScrubPays(p, v.items[i], depth + 1, maxDepth, m);
      var (value, m') := Scrub(p, v.items[i], depth + 1, maxDepth, m);
      AppendLeaves(out, value);
      ItemsPay(p, v, i + 1, depth, maxDepth, out + [value], m', start,
               stops + Stops(p, v.items[i], depth + 1, maxDepth, m));
    }
  }

  /**
   Apart from loop markers, a stored payload has at most `maxBytes` scalar leaves, whatever it was;
   a limit of zero or less still stores one.
   */
  lemma LeavesWithinBudget(p: Policy, payload: Option<Value>, maxDepth: int, maxBytes: int)
    requires WellFormed(AsObject(payload))
    ensures Leaves(ScrubPayload(p, payload, maxDepth, maxBytes).payload) <=
            Max(1, maxBytes) + Stops(p, AsObject(payload), 0, maxDepth, Meter(maxBytes, NO_FLAGS))
    ensures maxBytes <= 0 ==> Leaves(ScrubPayload(p, payload, maxDepth, maxBytes).payload) == 1
  {
    var m := Meter(maxBytes, NO_FLAGS);
    ScrubPays(p, AsObject(payload), 0, maxDepth, m);
    var v := Scrub(p, AsObject(payload), 0, maxDepth, m).0;
    if !v.Dict? {
      assert [Member("_value", v)][1..] == [];
      assert MemberLeaves([Member("_value", v)]) == Leaves(v);
    }
  }

  // ----- shape -----

  /** Containers nest at most `d` deep and have at most one member more than the item limit. */
  ghost predicate Shaped(v: Value, d: int) {
    match v
    case Dict(ms) => d >= 1 && |ms| <= MAX_ITEMS + 1 && forall i :: 0 <= i < |ms| ==> Shaped(ms[i].value, d - 1)
    case List(xs) => d >= 1 && |xs| <= MAX_ITEMS + 1 && forall i :: 0 <= i < |xs| ==> Shaped(xs[i], d - 1)
    case _ => true
  }

  ghost predicate MembersShaped(ms: seq<Member>, d: int) {
    forall i :: 0 <= i < |ms| ==> Shaped(ms[i].value, d)
  }

  lemma {:induction false} PutShaped(out: seq<Member>, key: string, value: Value, d: int)
    requires MembersShaped(out, d) && Shaped(value, d)
    ensures MembersShaped(Put(out, key, value), d)
    ensures |Put(out, key, value)| <= |out| + 1
  {
    if out != [] && out[0].key != key {
      PutShaped(out[1..], key, value, d);
    }
  }

  lemma {:induction false} ScrubShapes(p: Policy, v: Value, depth: int, maxDepth: int, m: Meter)
    ensures Shaped(Scrub(p, v, depth, maxDepth, m).0, maxDepth - depth + 1)
    decreases v, 1, 0
  {
    if m.budget > 0 && depth <= maxDepth {
      match v
      case Dict(_) => MembersShape(p, v, 0, depth, maxDepth, [], m);
      case List(_) => ItemsShape(p, v, 0, depth, maxDepth, [], m);
      case _ =>
    }
  }

  lemma {:induction false} MembersShape(
    p: Policy, v: Value, i: nat, depth: int, maxDepth: int, out: seq<Member>, m: Meter)
    requires v.Dict? && i <= |v.members| && |out| <= i <= MAX_ITEMS && MembersShaped(out, maxDepth - depth)
    ensures var r := ScrubMembers(p, v, i, depth, maxDepth, out, m).0;
            |r| <= MAX_ITEMS + 1 && MembersShaped(r, maxDepth - depth)
    decreases v, 0, |v.members| - i
  {
    if i == |v.members| {
    } else if m.budget <= 0 {
      PutShaped(out, DICT_TRUNCATED, JSON_TRUE, maxDepth - depth);
    } else if i >= MAX_ITEMS {
      PutShaped(out, DICT_COLLECTION_TRUNCATED, JSON_TRUE, maxDepth - depth);
    } else {
      var key := v.members[i].key;
      if p.isSecret(key) {
        PutShaped(out, key, Text(REDACTED), maxDepth - depth);
        MembersShape(p, v, i + 1, depth, maxDepth, Put(out, key, Text(REDACTED)),
                     Meter(Charge(m.budget, |REDACTED| + |key|), m.flags.(secretsRedacted := true)));
      } else {
        ScrubShapes(p, v.members[i].value, depth + 1, maxDepth, m);
        var (value, m') := Scrub(p, v.members[i].value, depth + 1, maxDepth, m);
        PutShaped(out, key, value, maxDepth - depth);
        MembersShape(p, v, i + 1, depth, maxDepth, Put(out, key, value), m');
      }
    }
  }

  lemma {:induction false} ItemsShape(
    p: Policy, v: Value, i: nat, depth: int, maxDepth: int, out: seq<Value>, m: Meter)
    requires v.List? && i <= |v.items| && |out| <= i <= MAX_ITEMS
    requires forall j :: 0 <= j < |out| ==> Shaped(out[j], maxDepth - depth)
    ensures var r := ScrubItems(p, v, i, depth, maxDepth, out, m).0;
            |r| <= MAX_ITEMS + 1 && forall j :: 0 <= j < |r| ==> Shaped(r[j], maxDepth - depth)
    decreases v, 0, |v.items| - i
  {
    if i < |v.items| && m.budget > 0 && i < MAX_ITEMS {
      ScrubShapes(p, v.items[i], depth + 1, maxDepth, m);
      var (value, m') := Scrub(p, v.items[i], depth + 1, maxDepth, m);
      ItemsShape(p, v, i + 1, depth, maxDepth, out + [value], m');
    }
  }

  // ----- fidelity -----

  /** The payload with only its texts redacted and foreign objects in string form. */
  function RedactedCopy(p: Policy, v: Value): Value {
    match v
    case Text(text) => Text(p.redact(text))
    case Other(text) => Text(text)
    case Dict(ms) =>
      Dict(seq(|ms|, i requires 0 <= i < |ms| => Member(ms[i].key, RedactedCopy(p, ms[i].value))))
    case List(xs) => List(seq(|xs|, i requires 0 <= i < |xs| => RedactedCopy(p, xs[i])))
    case _ => v
  }

  ghost predicate KeysDistinct(v: Value) {
    match v
    case Dict(ms) =>
      && (forall i, j :: 0 <= i < j < |ms| ==> ms[i].key != ms[j].key)
      && (forall i :: 0 <= i < |ms| ==> KeysDistinct(ms[i].value))
    case List(xs) => forall i :: 0 <= i < |xs| ==> KeysDistinct(xs[i])
    case _ => true
  }

  lemma {:induction false} PutNewKey(out: seq<Member>, key: string, value: Value)
    requires forall i :: 0 <= i < |out| ==> out[i].key != key
    ensures Put(out, key, value) == out + [Member(key, value)]
  {
    if out != [] {
      PutNewKey(out[1..], key, value);
      assert out == [out[0]] + out[1..];
    }
  }

  lemma {:induction false} FlagsOnlyRise(p: Policy, v: Value, depth: int, maxDepth: int, m: Meter)
    ensures FlagsKept(m.flags, Scrub(p, v, depth, maxDepth, m).1.flags)
    decreases v, 1, 0
  {
    if m.budget > 0 && depth <= maxDepth {
      match v
      case Dict(_) => MemberFlagsOnlyRise(p, v, 0, depth, maxDepth, [], m);
      case List(_) => ItemFlagsOnlyRise(p, v, 0, depth, maxDepth, [], m);
      case _ =>
    }
  }

  lemma {:induction false} MemberFlagsOnlyRise(
    p: Policy, v: Value, i: nat, depth: int, maxDepth: int, out: seq<Member>, m: Meter)
    requires v.Dict? && i <= |v.members|
    ensures FlagsKept(m.flags, ScrubMembers(p, v, i, depth, maxDepth, out, m).1.flags)
    decreases v, 0, |v.members| - i
  {
    if i < |v.members| && m.budget > 0 && i < MAX_ITEMS {
      var key := v.members[i].key;
      if p.isSecret(key) {
        MemberFlagsOnlyRise(p, v, i + 1, depth, maxDepth, Put(out, key, Text(REDACTED)),
                            Meter(Charge(m.budget, |REDACTED| + |key|), m.flags.(secretsRedacted := true)));
      } else {
        FlagsOnlyRise(p, v.members[i].value, depth + 1, maxDepth, m);
        var (value, m') := Scrub(p, v.members[i].value, depth + 1, maxDepth, m);
        MemberFlagsOnlyRise(p, v, i + 1, depth, maxDepth, Put(out, key, value), m');
      }
    }
  }

  lemma {:induction false} ItemFlagsOnlyRise(
    p: Policy, v: Value, i: nat, depth: int, maxDepth: int, out: seq<Value>, m: Meter)
    requires v.List? && i <= |v.items|
    ensures FlagsKept(m.flags, ScrubItems(p, v, i, depth, maxDepth, out, m).1.flags)
    decreases v, 0, |v.items| - i
  {
    if i < |v.items| && m.budget > 0 && i < MAX_ITEMS {
      FlagsOnlyRise(p, v.items[i], depth + 1, maxDepth, m);
      var (value, m') := Scrub(p, v.items[i], depth + 1, maxDepth, m);
      ItemFlagsOnlyRise(p, v, i + 1, depth, maxDepth, out + [value], m');
    }
  }

  /** A traversal that raises no flag has changed nothing but texts, by redaction. */
  lemma {:induction false} UnflaggedIsFaithful(p: Policy, v: Value, depth: int, maxDepth: int, m: Meter)
    requires KeysDistinct(v) && Scrub(p, v, depth, maxDepth, m).1.flags == NO_FLAGS
    ensures Scrub(p, v, depth, maxDepth, m).0 == RedactedCopy(p, v)
    decreases v, 1, 0
  {
    match v
    case Dict(_) => UnflaggedMembers(p, v, 0, depth, maxDepth, [], m);
    case List(_) => UnflaggedItems(p, v, 0, depth, maxDepth, [], m);
    case _ =>
  }

  lemma {:induction false} UnflaggedMembers(
    p: Policy, v: Value, i: nat, depth: int, maxDepth: int, out: seq<Member>, m: Meter)
    requires v.Dict? && i <= |v.members| && KeysDistinct(v) && out == RedactedCopy(p, v).members[..i]
    requires ScrubMembers(p, v, i, depth, maxDepth, out, m).1.flags == NO_FLAGS
    ensures ScrubMembers(p, v, i, depth, maxDepth, out, m).0 == RedactedCopy(p, v).members
    decreases v, 0, |v.members| - i
  {
    if i < |v.members| && m.budget > 0 && i < MAX_ITEMS {
      var key := v.members[i].key;
      if p.isSecret(key) {
        MemberFlagsOnlyRise(p, v, i + 1, depth, maxDepth, Put(out, key, Text(REDACTED)),
                            Meter(Charge(m.budget, |REDACTED| + |key|), m.flags.(secretsRedacted := true)));
      } else {
        var (value, m') := Scrub(p, v.members[i].value, depth + 1, maxDepth, m);
        MemberFlagsOnlyRise(p, v, i + 1, depth, maxDepth, Put(out, key, value), m');
        UnflaggedIsFaithful(p, v.members[i].value, depth + 1, maxDepth, m);
        PutNewKey(out, key, value);
        UnflaggedMembers(p, v, i + 1, depth, maxDepth, Put(out, key, value), m');
      }
    }
  }

  lemma {:induction false} UnflaggedItems(
    p: Policy, v: Value, i: nat, depth: int, maxDepth: int, out: seq<Value>, m: Meter)
    requires v.List? && i <= |v.items| && KeysDistinct(v) && out == RedactedCopy(p, v).items[..i]
    requires ScrubItems(p, v, i, depth, maxDepth, out, m).1.flags == NO_FLAGS
    ensures ScrubItems(p, v, i, depth, maxDepth, out, m).0 == RedactedCopy(p, v).items
    decreases v, 0, |v.items| - i
  {
    if i < |v.items| && m.budget > 0 && i < MAX_ITEMS {
      var (value, m') := Scrub(p, v.items[i], depth + 1, maxDepth, m);
      ItemFlagsOnlyRise(p, v, i + 1, depth, maxDepth, out + [value], m');
      UnflaggedIsFaithful(p, v.items[i], depth + 1, maxDepth, m);
      UnflaggedItems(p, v, i + 1, depth, maxDepth, out + [value], m');
    }
  }

  /** An object payload that is stored without any flag is stored as it was, up to redacted texts. */
  lemma UnflaggedPayloadIsFaithful(p: Policy, payload: Value, maxDepth: int, maxBytes: int)
    requires payload.Dict? && KeysDistinct(payload)
    requires ScrubPayload(p, Some(payload), maxDepth, maxBytes).flags == NO_FLAGS
    ensures ScrubPayload(p, Some(payload), maxDepth, maxBytes).payload == RedactedCopy(p, payload)
  {
    UnflaggedIsFaithful(p, payload, 0, maxDepth, Meter(maxBytes, NO_FLAGS));
  }
}
