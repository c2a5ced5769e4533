/**
 How large the stored copy of a dead-lettered payload can be: a bound for every payload, the exact
 condition under which a copy is stored whole and within the limit, and what the budget misses.
 */
module StoredSize {
  import opened Basics
  import opened Sanitizer
  import opened Redaction

  // ----- sizes -----

  /** The size of a scrubbed value as compact JSON; binary and foreign values never appear there. */
  function JsonBytes(v: Value): nat {
    match v
    case Scalar(json) => |json|
    case Text(text) => JsonSize(text)
    case Other(text) => JsonSize(text)
    case Binary => 0
    case Dict(ms) => 2 + MembersBytes(ms)
    case List(xs) => 2 + ItemsBytes(xs)
  }

  function MembersBytes(ms: seq<Member>): nat {
    if ms == [] then 0
    else JsonSize(ms[0].key) + 1 + JsonBytes(ms[0].value) + (if |ms| > 1 then 1 else 0) + MembersBytes(ms[1..])
  }

  function ItemsBytes(xs: seq<Value>): nat {
    if xs == [] then 0 else JsonBytes(xs[0]) + (if |xs| > 1 then 1 else 0) + ItemsBytes(xs[1..])
  }

  /** The bytes of a payload that are not charged to the budget: brackets, keys and separators. */
  function Outline(v: Value): nat {
    match v
    case Dict(ms) => 2 + MembersOutline(ms)
    case List(xs) => 2 + ItemsOutline(xs)
    case _ => 0
  }

  function MembersOutline(ms: seq<Member>): nat {
    if ms == [] then 0 else JsonSize(ms[0].key) + 2 + Outline(ms[0].value) + MembersOutline(ms[1..])
  }

  function ItemsOutline(xs: seq<Value>): nat {
    if xs == [] then 0 else Outline(xs[0]) + 1 + ItemsOutline(xs[1..])
  }

  function Containers(v: Value): nat {
    match v
    case Dict(ms) => 1 + MembersContainers(ms)
    case List(xs) => 1 + ItemsContainers(xs)
    case _ => 0
  }

  function MembersContainers(ms: seq<Member>): nat {
    if ms == [] then 0 else Containers(ms[0].value) + MembersContainers(ms[1..])
  }

  function ItemsContainers(xs: seq<Value>): nat {
    if xs == [] then 0 else Containers(xs[0]) + ItemsContainers(xs[1..])
  }

  /** No charge is cheaper than one for this many bytes: an omitted binary under a budget of one. */
  const WORST_RATE := 18

  /** What one early stop of a loop adds: its longest marker, with key and separators. */
  const STOP_BYTES := 32

  // ----- strings -----

  lemma {:induction false} WidthsOfSum(s: string, t: string)
    ensures JsonWidths(s + t) == JsonWidths(s) + JsonWidths(t)
  {
    if s == "" {
      assert s + t == t;
    } else {
      WidthsOfSum(s[1..], t);
      assert (s + t)[1..] == s[1..] + t;
    }
  }

  lemma {:induction false} WidthsAtMost(s: string)
    ensures JsonWidths(s) <= 12 * |s|
  {
    if s != "" {
      WidthsAtMost(s[1..]);
    }
  }

  lemma {:induction false} WidthsAre(s: string, w: nat)
    requires forall c <- s :: JsonWidth(c) == w
    ensures JsonWidths(s) == w * |s|
  {
    if s != "" {
      assert s[0] in s;
      WidthsAre(s[1..], w);
      calc {
        JsonWidths(s);
        w + w * (|s| - 1);
        w * |s|;
      }
    }
  }

  lemma {:induction false} PlainWidths(s: string)
    requires forall i :: 0 <= i < |s| ==> ' ' <= s[i] <= '~' && s[i] != '"' && s[i] != '\\'
    ensures JsonWidths(s) == |s|
  {
    if s != "" {
      PlainWidths(s[1..]);
    }
  }

  lemma MarkerSizes()
    ensures JsonWidths(TRUNCATED) == 11 && JsonSize(REDACTED) == 12 && JsonSize(BINARY_OMITTED) == 18
    ensures JsonSize(DICT_TRUNCATED) <= 26 && JsonSize(DICT_COLLECTION_TRUNCATED) <= 26
    ensures JsonSize("_value") == 8
  {
    hide JsonWidth, JsonWidths;
    PlainWidths(TRUNCATED);
    PlainWidths(REDACTED);
    PlainWidths(BINARY_OMITTED);
    PlainWidths(DICT_TRUNCATED);
    PlainWidths(DICT_COLLECTION_TRUNCATED);
    PlainWidths("_value");
  }

  // ----- the bound -----

  ghost predicate PaidFor(before: Meter, after: Meter, bytes: nat) {
    0 <= after.budget <= before.budget && bytes <= WORST_RATE * (before.budget - after.budget)
  }

  lemma TextPays(p: Policy, text: string, m: Meter)
    requires m.budget > 0
    ensures var r := ScrubText(p, text, m); PaidFor(m, r.1, JsonBytes(r.0))
  {
    hide JsonWidths;
    MarkerSizes();
    var cleaned := p.redact(text);
    var kept := if |cleaned| > MAX_CHARS then cleaned[..MAX_CHARS] + TRUNCATED else cleaned;
    var keep := Max(0, Min(|kept|, m.budget - |TRUNCATED| - 2));
    WidthsOfSum(kept[..keep], TRUNCATED);
    WidthsAtMost(kept[..keep]);
  }

  lemma LeafPays(p: Policy, v: Value, depth: int, maxDepth: int, m: Meter)
    requires m.budget > 0 && ((!v.Dict? && !v.List?) || depth > maxDepth)
    ensures var r := Scrub(p, v, depth, maxDepth, m); PaidFor(m, r.1, JsonBytes(r.0))
  {
    hide ScrubText, JsonWidths;
    MarkerSizes();
    if v.Text? && depth <= maxDepth {
      TextPays(p, v.text, m);
    }
  }

  lemma {:induction false} PutBytes(out: seq<Member>, key: string, value: Value)
    ensures MembersBytes(Put(out, key, value)) <= MembersBytes(out) + JsonSize(key) + 2 + JsonBytes(value)
    ensures out != [] ==> Put(out, key, value) != []
  {
    hide JsonSize, JsonBytes;
    if out == [] {
      assert [Member(key, value)][1..] == [];
    } else if out[0].key == key {
      assert ([Member(key, value)] + out[1..])[1..] == out[1..];
    } else {
      PutBytes(out[1..], key, value);
      assert ([out[0]] + Put(out[1..], key, value))[1..] == Put(out[1..], key, value);
      if out[1..] == [] {
        assert Put(out[1..], key, value) == [Member(key, value)];
        assert [Member(key, value)][1..] == [];
      }
    }
  }

  lemma {:induction false} AppendBytes(out: seq<Value>, value: Value)
    ensures ItemsBytes(out + [value]) <= ItemsBytes(out) + 1 + JsonBytes(value)
  {
    if out == [] {
      assert [] + [value] == [value] && [value][1..] == [];
    } else {
      AppendBytes(out[1..], value);
      assert (out + [value])[1..] == out[1..] + [value];
      if out[1..] == [] {
        assert ItemsBytes(out[1..] + [value]) == JsonBytes(value) by {
          assert [] + [value] == [value] && [value][1..] == [];
        }
      }
    }
  }

  lemma StopEntries(out: seq<Member>)
    ensures MembersBytes(Put(out, DICT_TRUNCATED, JSON_TRUE)) <= MembersBytes(out) + STOP_BYTES
    ensures MembersBytes(Put(out, DICT_COLLECTION_TRUNCATED, JSON_TRUE)) <= MembersBytes(out) + STOP_BYTES
  {
    hide JsonSize, MembersBytes, Put;
    MarkerSizes();
    PutBytes(out, DICT_TRUNCATED, JSON_TRUE);
    PutBytes(out, DICT_COLLECTION_TRUNCATED, JSON_TRUE);
  }

  lemma RedactedEntry(out: seq<Member>, key: string)
    ensures MembersBytes(Put(out, key, Text(REDACTED))) <= MembersBytes(out) + JsonSize(key) + 2 + 12
  {
    hide JsonSize, MembersBytes, Put;
    MarkerSizes();
    PutBytes(out, key, Text(REDACTED));
  }

  /**
   A scrubbed value is at most as large as the worst rate makes of the budget it used, plus the
   outline of the original, plus the markers of loops that stopped early.
   */
  lemma {:induction false} ScrubBytes(p: Policy, v: Value, depth: int, maxDepth: int, m: Meter)
    requires m.budget > 0
    ensures var r := Scrub(p, v, depth, maxDepth, m);
            && 0 <= r.1.budget <= m.budget
            && JsonBytes(r.0) <=
               WORST_RATE * (m.budget - r.1.budget) + Outline(v) + STOP_BYTES * Stops(p, v, depth, maxDepth, m)
    decreases v, 1, 0
  {
    hide JsonSize;
    if (v.Dict? || v.List?) && depth <= maxDepth {
      if v.Dict? {
        MembersSize(p, v, 0, depth, maxDepth, [], m, m.budget, 0, 0);
        assert v.members[0..] == v.members;
      } else {
        ItemsSize(p, v, 0, depth, maxDepth, [], m, m.budget, 0, 0);
        assert v.items[0..] == v.items;
      }
    } else {
      LeafPays(p, v, depth, maxDepth, m);
    }
  }

  lemma {:induction false} MembersSize(
    p: Policy, v: Value, i: nat, depth: int, maxDepth: int, out: seq<Member>, m: Meter,
    start: int, outline: nat, stops: nat)
    requires v.Dict? && i <= |v.members| && 0 <= m.budget <= start
    requires MembersBytes(out) <= WORST_RATE * (start - m.budget) + outline + STOP_BYTES * stops
    ensures var r := ScrubMembers(p, v, i, depth, maxDepth, out, m);
            && 0 <= r.1.budget <= m.budget
            && MembersBytes(r.0) <= WORST_RATE * (start - r.1.budget) + outline + MembersOutline(v.members[i..])
                                    + STOP_BYTES * (stops + MemberStops(p, v, i, depth, maxDepth, m))
    decreases v, 0, |v.members| - i
  {
    hide JsonBytes, JsonSize, Scrub, Stops, Put;
    if i == |v.members| {
    } else if m.budget <= 0 || i >= MAX_ITEMS {
      StopEntries(out);
    } else {
      var key := v.members[i].key;
      assert v.members[i..][1..] == v.members[i + 1..];
      if p.isSecret(key) {
        RedactedEntry(out, key);
        MembersSize(p, v, i + 1, depth, maxDepth, Put(out, key, Text(REDACTED)),
                    Meter(Charge(m.budget, |REDACTED| + |key|), m.flags.(secretsRedacted := true)),
                    start, outline + JsonSize(key) + 2, stops);
      } else {
        ScrubBytes(p, v.members[i].value, depth + 1, maxDepth, m);
        var (value, m') := Scrub(p, v.members[i].value, depth + 1, maxDepth, m);
        PutBytes(out, key, value);
        MembersSize(p, v, i + 1, depth, maxDepth, Put(out, key, value), m', start,
                    outline + JsonSize(key) + 2 + Outline(v.members[i].value),
                    stops + Stops(p, v.members[i].value, depth + 1, maxDepth, m));
      }
    }
  }

  lemma {:induction false} ItemsSize(
    p: Policy, v: Value, i: nat, depth: int, maxDepth: int, out: seq<Value>, m: Meter,
    start: int, outline: nat, stops: nat)
    requires v.List? && i <= |v.items| && 0 <= m.budget <= start
    requires ItemsBytes(out) <= WORST_RATE * (start - m.budget) + outline + STOP_BYTES * stops
    ensures var r := ScrubItems(p, v, i, depth, maxDepth, out, m);
            && 0 <= r.1.budget <= m.budget
            && ItemsBytes(r.0) <= WORST_RATE * (start - r.1.budget) + outline + ItemsOutline(v.items[i..])
                                  + STOP_BYTES * (stops + ItemStops(p, v, i, depth, maxDepth, m))
    decreases v, 0, |v.items| - i
  {
    hide Scrub, Stops, JsonWidths;
    MarkerSizes();
    if i == |v.items| {
    } else if m.budget <= 0 || i >= MAX_ITEMS {
      AppendBytes(out, Text(TRUNCATED));
    } else {
      assert v.items[i..][1..] == v.items[i + 1..];
      ScrubBytes(p, v.items[i], depth + 1, maxDepth, m);
      var (value, m') := Scrub(p, v.items[i], depth + 1, maxDepth, m);
      AppendBytes(out, value);
      ItemsSize(p, v, i + 1, depth, maxDepth, out + [value], m', start, outline + Outline(v.items[i]) + 1,
                stops + Stops(p, v.items[i], depth + 1, maxDepth, m));
    }
  }

  /** At most one loop stops early per container. */
  lemma {:induction false} StopsWithinContainers(p: Policy, v: Value, depth: int, maxDepth: int, m: Meter)
    ensures Stops(p, v, depth, maxDepth, m) <= Containers(v)
    decreases v, 1, 0
  {
    if m.budget > 0 && depth <= maxDepth {
      match v
      case Dict(_) =>
        MemberStopsWithin(p, v, 0, depth, maxDepth, m);
        assert v.members[0..] == v.members;
      case List(_) =>
        ItemStopsWithin(p, v, 0, depth, maxDepth, m);
        assert v.items[0..] == v.items;
      case _ =>
    }
  }

  lemma {:induction false} MemberStopsWithin(p: Policy, v: Value, i: nat, depth: int, maxDepth: int, m: Meter)
    requires v.Dict? && i <= |v.members|
    ensures MemberStops(p, v, i, depth, maxDepth, m) <= 1 + MembersContainers(v.members[i..])
    decreases v, 0, |v.members| - i
  {
    if i < |v.members| && m.budget > 0 && i < MAX_ITEMS {
      var key := v.members[i].key;
      assert v.members[i..][1..] == v.members[i + 1..];
      if p.isSecret(key) {
        MemberStopsWithin(p, v, i + 1, depth, maxDepth,
                          Meter(Charge(m.budget, |REDACTED| + |key|), m.flags.(secretsRedacted := true)));
      } else {
        StopsWithinContainers(p, v.members[i].value, depth + 1, maxDepth, m);
        MemberStopsWithin(p, v, i + 1, depth, maxDepth, Scrub(p, v.members[i].value, depth + 1, maxDepth, m).1);
      }
    }
  }

  lemma {:induction false} ItemStopsWithin(p: Policy, v: Value, i: nat, depth: int, maxDepth: int, m: Meter)
    requires v.List? && i <= |v.items|
    ensures ItemStops(p, v, i, depth, maxDepth, m) <= 1 + ItemsContainers(v.items[i..])
    decreases v, 0, |v.items| - i
  {
    if i < |v.items| && m.budget > 0 && i < MAX_ITEMS {
      assert v.items[i..][1..] == v.items[i + 1..];
      StopsWithinContainers(p, v.items[i], depth + 1, maxDepth, m);
      ItemStopsWithin(p, v, i + 1, depth, maxDepth, Scrub(p, v.items[i], depth + 1, maxDepth, m).1);
    }
  }

  /** The size bound that a caller can compute from any payload before it is scrubbed. */
  lemma StoredSizeBound(p: Policy, payload: Option<Value>, maxDepth: int, maxBytes: int)
    ensures var v := AsObject(payload);
            JsonBytes(ScrubPayload(p, payload, maxDepth, maxBytes).payload) <=
            WORST_RATE * Max(0, maxBytes) + Outline(v) + STOP_BYTES * Containers(v)
  {
    hide JsonBytes, Outline, Scrub, Stops, Containers;
    var v, m := AsObject(payload), Meter(maxBytes, NO_FLAGS);
    assert Containers(v) >= 1 by { HasContainer(v); }
    var r := Scrub(p, v, 0, maxDepth, m).0;
    OutermostValue(p, v, maxDepth, m);
    if r.Dict? {
      if maxBytes > 0 {
        ScrubBytes(p, v, 0, maxDepth, m);
        StopsWithinContainers(p, v, 0, maxDepth, m);
      } else {
        NothingWithoutBudget(p, v, maxDepth, m);
      }
    } else {
      WrappedBytes(r);
    }
  }

  lemma HasContainer(v: Value)
    requires v.Dict?
    ensures Containers(v) >= 1
  {
  }

  lemma NothingWithoutBudget(p: Policy, v: Value, maxDepth: int, m: Meter)
    requires m.budget <= 0
    ensures !Scrub(p, v, 0, maxDepth, m).0.Dict?
  {
  }

  /** An object stays an object unless nothing of it may be looked at. */
  lemma OutermostValue(p: Policy, v: Value, maxDepth: int, m: Meter)
    requires v.Dict?
    ensures var r := Scrub(p, v, 0, maxDepth, m).0; r.Dict? || (r == Text(TRUNCATED) && JsonBytes(r) == 13)
  {
    hide JsonWidths;
    MarkerSizes();
  }

  lemma WrappedBytes(v: Value)
    ensures JsonBytes(Dict([Member("_value", v)])) == JsonBytes(v) + 11
  {
    hide JsonWidths, JsonSize;
    MarkerSizes();
    var ms := [Member("_value", v)];
    assert ms[1..] == [] && MembersBytes(ms) == JsonSize("_value") + 1 + JsonBytes(v);
  }

  // ----- stored whole and within the limit -----

  predicate Omitted(p: Policy, text: string) {
    0 as char in p.redact(text)
  }

  /** Nothing of the value has to be cut for its own sake: only depth, member counts and text lengths count. */
  ghost predicate Uncut(p: Policy, v: Value, levels: int) {
    levels >= 0 &&
    match v
    case Text(text) => Omitted(p, text) || |p.redact(text)| <= MAX_CHARS
    case Dict(ms) =>
      && |ms| <= MAX_ITEMS
      && forall i :: 0 <= i < |ms| ==> p.isSecret(ms[i].key) || Uncut(p, ms[i].value, levels - 1)
    case List(xs) => |xs| <= MAX_ITEMS && forall i :: 0 <= i < |xs| ==> Uncut(p, xs[i], levels - 1)
    case _ => true
  }

  /** The payload with its texts redacted, its secret values and its binaries replaced by their markers. */
  function WholeCopy(p: Policy, v: Value): Value {
    match v
    case Text(text) => Text(if Omitted(p, text) then BINARY_OMITTED else p.redact(text))
    case Binary => Text(BINARY_OMITTED)
    case Other(text) => Text(text)
    case Dict(ms) =>
      Dict(seq(|ms|, i requires 0 <= i < |ms| =>
        Member(ms[i].key, if p.isSecret(ms[i].key) then Text(REDACTED) else WholeCopy(p, ms[i].value))))
    case List(xs) => List(seq(|xs|, i requires 0 <= i < |xs| => WholeCopy(p, xs[i])))
    case _ => v
  }

  /** Whether a binary is omitted from the copy of the value. */
  predicate Omits(p: Policy, v: Value) {
    match v
    case Text(text) => Omitted(p, text)
    case Binary => true
    case Dict(ms) => MembersOmit(p, ms)
    case List(xs) => ItemsOmit(p, xs)
    case _ => false
  }

  predicate MembersOmit(p: Policy, ms: seq<Member>) {
    ms != [] && ((!p.isSecret(ms[0].key) && Omits(p, ms[0].value)) || MembersOmit(p, ms[1..]))
  }

  predicate ItemsOmit(p: Policy, xs: seq<Value>) {
    xs != [] && (Omits(p, xs[0]) || ItemsOmit(p, xs[1..]))
  }

  /** Whether a secret value, or a whole text, is redacted in the copy of the value. */
  predicate Redacts(p: Policy, v: Value) {
    match v
    case Text(text) => p.redact(text) == REDACTED && text != REDACTED
    case Dict(ms) => MembersRedact(p, ms)
    case List(xs) => ItemsRedact(p, xs)
    case _ => false
  }

  predicate MembersRedact(p: Policy, ms: seq<Member>) {
    ms != [] && (p.isSecret(ms[0].key) || Redacts(p, ms[0].value) || MembersRedact(p, ms[1..]))
  }

  predicate ItemsRedact(p: Policy, xs: seq<Value>) {
    xs != [] && (Redacts(p, xs[0]) || ItemsRedact(p, xs[1..]))
  }

  function Raised(f: Flags, omits: bool, redacts: bool): Flags {
    Flags(f.truncated, f.binaryOmitted || omits, f.secretsRedacted || redacts)
  }

  /** What the budget is charged for a value that is kept whole. */
  function Charged(p: Policy, v: Value): nat {
    match v
    case Scalar(json) => |json|
    case Text(text) => if Omitted(p, text) then |BINARY_OMITTED| else JsonSize(p.redact(text))
    case Other(text) => JsonSize(text)
    case Binary => |BINARY_OMITTED|
    case Dict(ms) => MembersCharged(p, ms)
    case List(xs) => ItemsCharged(p, xs)
  }

  function MemberCharged(p: Policy, m: Member): nat {
    if p.isSecret(m.key) then |REDACTED| + |m.key| else Charged(p, m.value)
  }

  function MembersCharged(p: Policy, ms: seq<Member>): nat {
    if ms == [] then 0 else MemberCharged(p, ms[0]) + MembersCharged(p, ms[1..])
  }

  function ItemsCharged(p: Policy, xs: seq<Value>): nat {
    if xs == [] then 0 else Charged(p, xs[0]) + ItemsCharged(p, xs[1..])
  }

  /** What the traversal is left with after a value that is kept whole. */
  function Spent(p: Policy, v: Value, m: Meter): Meter {
    Meter(m.budget - Charged(p, v), Raised(m.flags, Omits(p, v), Redacts(p, v)))
  }

  function MembersSpent(p: Policy, ms: seq<Member>, m: Meter): Meter {
    Meter(m.budget - MembersCharged(p, ms), Raised(m.flags, MembersOmit(p, ms), MembersRedact(p, ms)))
  }

  function ItemsSpent(p: Policy, xs: seq<Value>, m: Meter): Meter {
    Meter(m.budget - ItemsCharged(p, xs), Raised(m.flags, ItemsOmit(p, xs), ItemsRedact(p, xs)))
  }

  /** A value that needs no cut and leaves some budget over is charged exactly this, and flagged exactly so. */
  lemma {:induction false} UncutIsCharged(p: Policy, v: Value, depth: int, maxDepth: int, m: Meter)
    requires Uncut(p, v, maxDepth - depth) && Charged(p, v) < m.budget
    ensures Scrub(p, v, depth, maxDepth, m).1 == Spent(p, v, m)
    decreases v, 1, 0
  {
    hide JsonWidths;
    match v
    case Dict(_) =>
      assert v.members[0..] == v.members;
      UncutMembers(p, v, 0, depth, maxDepth, [], m);
    case List(_) =>
      assert v.items[0..] == v.items;
      UncutItems(p, v, 0, depth, maxDepth, [], m);
    case _ =>
  }

  lemma {:induction false} UncutMembers(
    p: Policy, v: Value, i: nat, depth: int, maxDepth: int, out: seq<Member>, m: Meter)
    requires v.Dict? && i <= |v.members| && Uncut(p, v, maxDepth - depth)
    requires MembersCharged(p, v.members[i..]) < m.budget
    ensures ScrubMembers(p, v, i, depth, maxDepth, out, m).1 == MembersSpent(p, v.members[i..], m)
    decreases v, 0, |v.members| - i
  {
    hide Scrub, Put;
    if i < |v.members| {
      assert v.members[i..][1..] == v.members[i + 1..] && v.members[i..][0] == v.members[i];
      var key := v.members[i].key;
      if p.isSecret(key) {
        UncutMembers(p, v, i + 1, depth, maxDepth, Put(out, key, Text(REDACTED)),
                     Meter(Charge(m.budget, |REDACTED| + |key|), m.flags.(secretsRedacted := true)));
      } else {
        UncutIsCharged(p, v.members[i].value, depth + 1, maxDepth, m);
        var (value, m') := Scrub(p, v.members[i].value, depth + 1, maxDepth, m);
        UncutMembers(p, v, i + 1, depth, maxDepth, Put(out, key, value), m');
      }
    }
  }

  lemma {:induction false} UncutItems(
    p: Policy, v: Value, i: nat, depth: int, maxDepth: int, out: seq<Value>, m: Meter)
    requires v.List? && i <= |v.items| && Uncut(p, v, maxDepth - depth) && ItemsCharged(p, v.items[i..]) < m.budget
    ensures ScrubItems(p, v, i, depth, maxDepth, out, m).1 == ItemsSpent(p, v.items[i..], m)
    decreases v, 0, |v.items| - i
  {
    hide Scrub;
    if i < |v.items| {
      assert v.items[i..][1..] == v.items[i + 1..] && v.items[i..][0] == v.items[i];
      UncutIsCharged(p, v.items[i], depth + 1, maxDepth, m);
      var (value, m') := Scrub(p, v.items[i], depth + 1, maxDepth, m);
      UncutItems(p, v, i + 1, depth, maxDepth, out + [value], m');
    }
  }

  /** What was stored without the truncation flag needed no cut and is the whole copy. */
  lemma {:induction false} UntruncatedIsWhole(p: Policy, v: Value, depth: int, maxDepth: int, m: Meter)
    requires KeysDistinct(v) && !Scrub(p, v, depth, maxDepth, m).1.flags.truncated
    ensures Uncut(p, v, maxDepth - depth) && Scrub(p, v, depth, maxDepth, m).0 == WholeCopy(p, v)
    decreases v, 1, 0
  {
    hide JsonWidths;
    match v
    case Dict(_) => UntruncatedMembers(p, v, 0, depth, maxDepth, [], m);
    case List(_) => UntruncatedItems(p, v, 0, depth, maxDepth, [], m);
    case _ =>
  }

  lemma {:induction false} UntruncatedMembers(
    p: Policy, v: Value, i: nat, depth: int, maxDepth: int, out: seq<Member>, m: Meter)
    requires v.Dict? && i <= |v.members| && i <= MAX_ITEMS && KeysDistinct(v)
    requires out == WholeCopy(p, v).members[..i]
    requires !ScrubMembers(p, v, i, depth, maxDepth, out, m).1.flags.truncated
    ensures ScrubMembers(p, v, i, depth, maxDepth, out, m).0 == WholeCopy(p, v).members
    ensures |v.members| <= MAX_ITEMS
    ensures forall j :: i <= j < |v.members| ==>
              p.isSecret(v.members[j].key) || Uncut(p, v.members[j].value, maxDepth - depth - 1)
    decreases v, 0, |v.members| - i
  {
    hide Scrub, Put;
    if i < |v.members| && m.budget > 0 && i < MAX_ITEMS {
      var key := v.members[i].key;
      if p.isSecret(key) {
        PutNewKey(out, key, Text(REDACTED));
        UntruncatedMembers(p, v, i + 1, depth, maxDepth, Put(out, key, Text(REDACTED)),
                           Meter(Charge(m.budget, |REDACTED| + |key|), m.flags.(secretsRedacted := true)));
      } else {
        var (value, m') := Scrub(p, v.members[i].value, depth + 1, maxDepth, m);
        MemberFlagsOnlyRise(p, v, i + 1, depth, maxDepth, Put(out, key, value), m');
        UntruncatedIsWhole(p, v.members[i].value, depth + 1, maxDepth, m);
        PutNewKey(out, key, value);
        UntruncatedMembers(p, v, i + 1, depth, maxDepth, Put(out, key, value), m');
      }
    }
  }

  lemma {:induction false} UntruncatedItems(
    p: Policy, v: Value, i: nat, depth: int, maxDepth: int, out: seq<Value>, m: Meter)
    requires v.List? && i <= |v.items| && i <= MAX_ITEMS && KeysDistinct(v) && out == WholeCopy(p, v).items[..i]
    requires !ScrubItems(p, v, i, depth, maxDepth, out, m).1.flags.truncated
    ensures ScrubItems(p, v, i, depth, maxDepth, out, m).0 == WholeCopy(p, v).items
    ensures |v.items| <= MAX_ITEMS
    ensures forall j :: i <= j < |v.items| ==> Uncut(p, v.items[j], maxDepth - depth - 1)
    decreases v, 0, |v.items| - i
  {
    hide Scrub;
    if i < |v.items| && m.budget > 0 && i < MAX_ITEMS {
      var (value, m') := Scrub(p, v.items[i], depth + 1, maxDepth, m);
      ItemFlagsOnlyRise(p, v, i + 1, depth, maxDepth, out + [value], m');
      UntruncatedIsWhole(p, v.items[i], depth + 1, maxDepth, m);
      UntruncatedItems(p, v, i + 1, depth, maxDepth, out + [value], m');
    }
  }

  /** The budget is charged no more than the size of the whole copy. */
  lemma {:induction false} ChargedWithinCopy(p: Policy, v: Value)
    ensures Charged(p, v) <= JsonBytes(WholeCopy(p, v))
    ensures v.Dict? || v.List? ==> Charged(p, v) + 2 <= JsonBytes(WholeCopy(p, v))
    decreases v, 1, 0
  {
    hide JsonWidths;
    match v
    case Dict(ms) =>
      MembersChargedWithin(p, v, 0);
      assert ms[0..] == ms && WholeCopy(p, v).members[0..] == WholeCopy(p, v).members;
    case List(xs) =>
      ItemsChargedWithin(p, v, 0);
      assert xs[0..] == xs && WholeCopy(p, v).items[0..] == WholeCopy(p, v).items;
    case _ => OmissionSize();
  }

  lemma OmissionSize()
    ensures JsonSize(BINARY_OMITTED) >= |BINARY_OMITTED|
  {
  }

  lemma {:induction false} MembersChargedWithin(p: Policy, v: Value, i: nat)
    requires v.Dict? && i <= |v.members|
    ensures MembersCharged(p, v.members[i..]) <= MembersBytes(WholeCopy(p, v).members[i..])
    decreases v, 0, |v.members| - i
  {
    hide JsonWidths;
    if i < |v.members| {
      var copy := WholeCopy(p, v).members;
      assert v.members[i..][1..] == v.members[i + 1..] && copy[i..][1..] == copy[i + 1..];
      assert v.members[i..][0] == v.members[i] && copy[i..][0] == copy[i];
      if !p.isSecret(v.members[i].key) {
        ChargedWithinCopy(p, v.members[i].value);
      }
      MembersChargedWithin(p, v, i + 1);
    }
  }

  lemma {:induction false} ItemsChargedWithin(p: Policy, v: Value, i: nat)
    requires v.List? && i <= |v.items|
    ensures ItemsCharged(p, v.items[i..]) <= ItemsBytes(WholeCopy(p, v).items[i..])
    decreases v, 0, |v.items| - i
  {
    if i < |v.items| {
      var copy := WholeCopy(p, v).items;
      assert v.items[i..][1..] == v.items[i + 1..] && copy[i..][1..] == copy[i + 1..];
      assert v.items[i..][0] == v.items[i] && copy[i..][0] == copy[i];
      ChargedWithinCopy(p, v.items[i]);
      ItemsChargedWithin(p, v, i + 1);
    }
  }

  /**
   A payload of any kind is stored whole and within the limit exactly if nothing in it has to be
   cut for its own sake and its copy, with secrets and binaries replaced, is within the limit.
   The copy is then what is stored, and the other flags say what was replaced in it.
   */
  lemma WholeWithinLimitIff(p: Policy, payload: Option<Value>, maxDepth: int, maxBytes: int)
    requires KeysDistinct(AsObject(payload))
    ensures var v, r := AsObject(payload), ScrubPayload(p, payload, maxDepth, maxBytes);
            && (!r.flags.truncated && JsonBytes(r.payload) <= maxBytes <==>
                Uncut(p, v, maxDepth) && JsonBytes(WholeCopy(p, v)) <= maxBytes)
            && (!r.flags.truncated && JsonBytes(r.payload) <= maxBytes ==>
                  r.payload == WholeCopy(p, v) && r.flags == Flags(false, Omits(p, v), Redacts(p, v)))
  {
    hide JsonBytes, Uncut, Omits, Redacts;
    var v, m := AsObject(payload), Meter(maxBytes, NO_FLAGS);
    if !Scrub(p, v, 0, maxDepth, m).1.flags.truncated {
      UntruncatedIsWhole(p, v, 0, maxDepth, m);
    }
    ChargedWithinCopy(p, v);
    if Uncut(p, v, maxDepth) && Charged(p, v) < maxBytes {
      UncutIsCharged(p, v, 0, maxDepth, m);
      UntruncatedIsWhole(p, v, 0, maxDepth, m);
    }
  }

  /** Nothing of the value has to be cut, omitted or redacted as a whole. */
  ghost predicate Fits(p: Policy, v: Value, levels: int) {
    Uncut(p, v, levels) && !Omits(p, v) && !Redacts(p, v)
  }

  /**
   An object payload is stored unflagged and within the limit exactly if nothing in it has to be
   cut, omitted or redacted as a whole, and its redacted copy is itself within the limit.
   */
  lemma StoredWithinLimitIff(p: Policy, payload: Value, maxDepth: int, maxBytes: int)
    requires payload.Dict? && KeysDistinct(payload)
    ensures var r := ScrubPayload(p, Some(payload), maxDepth, maxBytes);
            r.flags == NO_FLAGS && JsonBytes(r.payload) <= maxBytes <==>
            Fits(p, payload, maxDepth) && JsonBytes(RedactedCopy(p, payload)) <= maxBytes
  {
    hide JsonBytes, Uncut, Omits, Redacts, Scrub;
    WholeWithinLimitIff(p, Some(payload), maxDepth, maxBytes);
    if !Omits(p, payload) && !Redacts(p, payload) {
      NothingReplaced(p, payload);
    }
  }

  lemma {:induction false} NothingReplaced(p: Policy, v: Value)
    requires !Omits(p, v) && !Redacts(p, v)
    ensures WholeCopy(p, v) == RedactedCopy(p, v)
    decreases v, 1, 0
  {
    match v
    case Dict(ms) =>
      assert ms[0..] == ms;
      MembersNotReplaced(p, v, 0);
      assert WholeCopy(p, v).members == RedactedCopy(p, v).members;
    case List(xs) =>
      assert xs[0..] == xs;
      ItemsNotReplaced(p, v, 0);
      assert WholeCopy(p, v).items == RedactedCopy(p, v).items;
    case _ =>
  }

  lemma {:induction false} MembersNotReplaced(p: Policy, v: Value, i: nat)
    requires v.Dict? && i <= |v.members|
    requires !MembersOmit(p, v.members[i..]) && !MembersRedact(p, v.members[i..])
    ensures forall j :: i <= j < |v.members| ==>
              !p.isSecret(v.members[j].key) && WholeCopy(p, v.members[j].value) == RedactedCopy(p, v.members[j].value)
    decreases v, 0, |v.members| - i
  {
    hide WholeCopy, RedactedCopy;
    if i < |v.members| {
      assert v.members[i..][1..] == v.members[i + 1..] && v.members[i..][0] == v.members[i];
      NothingReplaced(p, v.members[i].value);
      MembersNotReplaced(p, v, i + 1);
    }
  }

  lemma {:induction false} ItemsNotReplaced(p: Policy, v: Value, i: nat)
    requires v.List? && i <= |v.items| && !ItemsOmit(p, v.items[i..]) && !ItemsRedact(p, v.items[i..])
    ensures forall j :: i <= j < |v.items| ==> WholeCopy(p, v.items[j]) == RedactedCopy(p, v.items[j])
    decreases v, 0, |v.items| - i
  {
    hide WholeCopy, RedactedCopy;
    if i < |v.items| {
      assert v.items[i..][1..] == v.items[i + 1..] && v.items[i..][0] == v.items[i];
      NothingReplaced(p, v.items[i]);
      ItemsNotReplaced(p, v, i + 1);
    }
  }

  // ----- what the budget misses -----

  /**
   Keys and containers cost nothing: a payload made of a key of any length and an empty object
   comes back unflagged and unchanged under any positive budget.
   */
  lemma KeysAndContainersAreFree(p: Policy, key: string, maxDepth: int, maxBytes: int)
    requires !p.isSecret(key) && maxDepth >= 1 && maxBytes > 0
    ensures var payload := Dict([Member(key, Dict([]))]);
            && ScrubPayload(p, Some(payload), maxDepth, maxBytes) == Scrubbed(payload, NO_FLAGS)
            && JsonBytes(payload) >= |key| + 7
  {
    hide JsonWidths;
    var v, m := Dict([Member(key, Dict([]))]), Meter(maxBytes, NO_FLAGS);
    assert Scrub(p, v.members[0].value, 1, maxDepth, m) == (Dict([]), m);
    assert Put([], key, Dict([])) == v.members;
    assert ScrubMembers(p, v, 1, 0, maxDepth, v.members, m) == (v.members, m);
    assert ScrubMembers(p, v, 0, 0, maxDepth, [], m) == (v.members, m);
    assert MembersBytes(v.members) == JsonSize(key) + 1 + JsonBytes(Dict([])) by {
      assert v.members[1..] == [];
    }
  }

  /**
   A text is charged by its JSON size but cut by its characters: a text of escaped characters
   that just exceeds the budget is kept whole, with a marker, and is larger than the limit.
   */
  lemma EscapesAreFree(p: Policy, key: string, text: string, maxDepth: int, maxBytes: int)
    requires !p.isSecret(key) && p.redact(text) == text && maxDepth >= 1 && |text| <= MAX_CHARS
    requires forall c <- text :: JsonWidth(c) == 6 && c != 0 as char
    requires |text| + 13 <= maxBytes < 6 * |text| + 2
    ensures var payload := Dict([Member(key, Text(text))]);
            var r := ScrubPayload(p, Some(payload), maxDepth, maxBytes);
            r.payload == Dict([Member(key, Text(text + TRUNCATED))]) && JsonBytes(r.payload) > maxBytes
  {
    hide JsonWidth, JsonWidths;
    var v, m := Dict([Member(key, Text(text))]), Meter(maxBytes, NO_FLAGS);
    var cut := Text(text + TRUNCATED);
    MarkerSizes();
    WidthsAre(text, 6);
    WidthsOfSum(text, TRUNCATED);
    assert text != REDACTED by { NotTheMarker(text); }
    assert text[..|text|] == text;
    var r := Scrub(p, v.members[0].value, 1, maxDepth, m);
    assert r.0 == cut;
    assert Put([], key, cut) == [Member(key, cut)];
    assert ScrubMembers(p, v, 1, 0, maxDepth, [Member(key, cut)], r.1) == ([Member(key, cut)], r.1);
    assert ScrubMembers(p, v, 0, 0, maxDepth, [], m) == ([Member(key, cut)], r.1);
    assert [Member(key, cut)][1..] == [];
    assert JsonBytes(cut) == 6 * |text| + 13;
    assert MembersBytes([Member(key, cut)]) >= JsonBytes(cut);
  }

  lemma NotTheMarker(text: string)
    requires forall c <- text :: JsonWidth(c) == 6
    ensures text != REDACTED
  {
    if |text| > 0 {
      assert text[0] in text && JsonWidth(text[0]) == 6;
      assert JsonWidth('[') == 1;
    }
  }
}
