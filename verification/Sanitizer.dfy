/**
 The recursive scrubber for dead-lettered payloads. One byte budget and one set of flags are
 shared by the whole traversal and updated on the way.
 */
module Sanitizer {
  import opened Basics

  const MAX_ITEMS := 64
  const MAX_CHARS := 2048
  const REDACTED := "[REDACTED]"
  const BINARY_OMITTED := "[BINARY_OMITTED]"
  const TRUNCATED := "[TRUNCATED]"
  const DICT_TRUNCATED := "__truncated__"
  const DICT_COLLECTION_TRUNCATED := "__collection_truncated__"

  /** Which keys are secret, and what URL and private-key redaction makes of a text. */
  datatype Policy = Policy(isSecret: string -> bool, redact: string -> string)

  datatype Member = Member(key: string, value: Value)

  /**
   A payload value. `Scalar` is null, a boolean or a number, given by its JSON text; `Other` is
   any foreign object, given by its string form. A dictionary lists its members in iteration
   order, under the string form of their keys.
   */
  datatype Value =
    | Scalar(json: string)
    | Text(text: string)
    | Binary
    | Dict(members: seq<Member>)
    | List(items: seq<Value>)
    | Other(text: string)

  const JSON_TRUE := Scalar("true")

  datatype Flags = Flags(truncated: bool, binaryOmitted: bool, secretsRedacted: bool)

  const NO_FLAGS := Flags(false, false, false)

  /** Characters that the ASCII JSON encoder spends on one character. */
  function JsonWidth(c: char): nat {
    if c in "\"\\\n\r\t" || c == 8 as char || c == 12 as char then 2
    else if ' ' <= c <= '~' then 1
    else if c as int < 0x10000 then 6
    else 12
  }

  function JsonWidths(s: string): (n: nat)
    ensures n >= |s|
  {
    if s == "" then 0 else JsonWidth(s[0]) + JsonWidths(s[1..])
  }

  function JsonSize(s: string): (n: nat)
    ensures n >= |s| + 2
  {
    2 + JsonWidths(s)
  }

  function Charge(budget: int, cost: nat): int {
    Max(0, budget - cost)
  }

  /** Assignment to a dictionary entry: an existing key keeps its place. */
  function Put(members: seq<Member>, key: string, value: Value): seq<Member> {
    if members == [] then [Member(key, value)]
    else if members[0].key == key then [Member(key, value)] + members[1..]
    else [members[0]] + Put(members[1..], key, value)
  }

  /** The traversal state after a value: the budget left and the flags raised. */
  datatype Meter = Meter(budget: int, flags: Flags)

  // ----- leaves -----

  function ScrubScalar(json: string, m: Meter): (Value, Meter) {
    if |json| > m.budget then (Text(TRUNCATED), Meter(0, m.flags.(truncated := true)))
    else (Scalar(json), m.(budget := m.budget - |json|))
  }

  function OmitBinary(m: Meter): (Value, Meter) {
    (Text(BINARY_OMITTED), Meter(Charge(m.budget, |BINARY_OMITTED|), m.flags.(binaryOmitted := true)))
  }

  function ScrubText(p: Policy, text: string, m: Meter): (Value, Meter) {
    var cleaned := p.redact(text);
    var flags := if cleaned == REDACTED && text != REDACTED then m.flags.(secretsRedacted := true) else m.flags;
    if 0 as char in cleaned then OmitBinary(Meter(m.budget, flags))
    else
      var long := |cleaned| > MAX_CHARS;
      var kept := if long then cleaned[..MAX_CHARS] + TRUNCATED else cleaned;
      var flags' := if long then flags.(truncated := true) else flags;
      if JsonSize(kept) > m.budget then
        var keep := Max(0, Min(|kept|, m.budget - |TRUNCATED| - 2));
        (Text(kept[..keep] + TRUNCATED), Meter(0, flags'.(truncated := true)))
      else (Text(kept), Meter(m.budget - JsonSize(kept), flags'))
  }

  /** `out` is the first `keep` characters of `text`, followed by the marker of a cut. */
  predicate CutAfter(text: string, keep: nat, out: string) {
    keep <= |text| && |out| == keep + 11 && out[..keep] <= text && out[keep..] == "[TRUNCATED]"
  }

  /** The text itself, or the beginning of one that is too long. */
  predicate WithinChars(text: string, marked: string) {
    if |text| <= 2048 then marked == text else CutAfter(text, 2048, marked)
  }

  /**
   What is stored for a text that redaction made `cleaned`, and what is left of a positive budget.
   A text that costs too much keeps as much of its beginning as the budget has room for.
   */
  ghost predicate TextStored(cleaned: string, budget: int, out: Value, left: int) {
    out.Text?
    && if 0 as char in cleaned then out.text == "[BINARY_OMITTED]" && left == Max(0, budget - 16)
       else exists marked :: WithinChars(cleaned, marked) && MarkedStored(marked, budget, out.text, left)
  }

  predicate MarkedStored(marked: string, budget: int, out: string, left: int) {
    if JsonSize(marked) <= budget then out == marked && left == budget - JsonSize(marked)
    else left == 0 && CutAfter(marked, Max(0, Min(|marked|, budget - 13)), out)
  }

  lemma TextIsStored(p: Policy, text: string, m: Meter)
    ensures var (out, left) := ScrubText(p, text, m);
            && (m.budget > 0 ==> TextStored(p.redact(text), m.budget, out, left.budget))
            && left.flags == Flags(m.flags.truncated || TextCut(p.redact(text), m.budget),
                                   m.flags.binaryOmitted || 0 as char in p.redact(text),
                                   m.flags.secretsRedacted || p.redact(text) == "[REDACTED]" != text)
  {
    hide JsonSize, JsonWidths;
    var cleaned := p.redact(text);
    if 0 as char !in cleaned {
      var marked := if |cleaned| > 2048 then cleaned[..2048] + "[TRUNCATED]" else cleaned;
      assert WithinChars(cleaned, marked);
      var keep := Max(0, Min(|marked|, m.budget - 13));
      assert CutAfter(marked, keep, marked[..keep] + "[TRUNCATED]");
    }
  }

  /** Something of the text is lost: it is too long, or its JSON form costs more than the budget. */
  predicate TextCut(cleaned: string, budget: int) {
    0 as char !in cleaned && (|cleaned| > 2048 || JsonSize(cleaned) > budget)
  }

  function ScrubOther(text: string, m: Meter): (Value, Meter) {
    if JsonSize(text) > m.budget then (Text(TRUNCATED), Meter(0, m.flags.(truncated := true)))
    else (Text(text), m.(budget := m.budget - JsonSize(text)))
  }

  function Truncate(m: Meter): Meter {
    m.(flags := m.flags.(truncated := true))
  }

  // ----- the traversal -----

  function Scrub(p: Policy, v: Value, depth: int, maxDepth: int, m: Meter): (Value, Meter)
    decreases v, 1, 0
  {
    if m.budget <= 0 then (Text(TRUNCATED), Truncate(m))
    else if depth > maxDepth then
      (Text(TRUNCATED), Truncate(m.(budget := Charge(m.budget, |TRUNCATED|))))
    else
      match v
      case Scalar(json) => ScrubScalar(json, m)
      case Binary => OmitBinary(m)
      case Text(text) => ScrubText(p, text, m)
      case Other(text) => ScrubOther(text, m)
      case Dict(_) =>
        var (members, m') := ScrubMembers(p, v, 0, depth, maxDepth, [], m);
        (Dict(members), m')
      case List(_) =>
        var (items, m') := ScrubItems(p, v, 0, depth, maxDepth, [], m);
        (List(items), m')
  }

  /** The dictionary loop from member `i` on, with what it has put out so far. */
  function ScrubMembers(p: Policy, v: Value, i: nat, depth: int, maxDepth: int, out: seq<Member>, m: Meter)
    : (seq<Member>, Meter)
    requires v.Dict? && i <= |v.members|
    decreases v, 0, |v.members| - i
  {
    if i == |v.members| then (out, m)
    else if m.budget <= 0 then (Put(out, DICT_TRUNCATED, JSON_TRUE), Truncate(m))
    else if i >= MAX_ITEMS then (Put(out, DICT_COLLECTION_TRUNCATED, JSON_TRUE), Truncate(m))
    else
      var key := v.members[i].key;
      if p.isSecret(key) then
        ScrubMembers(p, v, i + 1, depth, maxDepth, Put(out, key, Text(REDACTED)),
                     Meter(Charge(m.budget, |REDACTED| + |key|), m.flags.(secretsRedacted := true)))
      else
        var (value, m') := Scrub(p, v.members[i].value, depth + 1, maxDepth, m);
        ScrubMembers(p, v, i + 1, depth, maxDepth, Put(out, key, value), m')
  }

  /** The list loop from item `i` on. */
  function ScrubItems(p: Policy, v: Value, i: nat, depth: int, maxDepth: int, out: seq<Value>, m: Meter)
    : (seq<Value>, Meter)
    requires v.List? && i <= |v.items|
    decreases v, 0, |v.items| - i
  {
    if i == |v.items| then (out, m)
    else if m.budget <= 0 || i >= MAX_ITEMS then (out + [Text(TRUNCATED)], Truncate(m))
    else
      var (value, m') := Scrub(p, v.items[i], depth + 1, maxDepth, m);
      ScrubItems(p, v, i + 1, depth, maxDepth, out + [value], m')
  }

  // ----- the same, in place -----

  /** The budget cell and the flag dictionary that the source passes down by reference. */
  class Gauge {
    var budget: int
    var flags: Flags

    function State(): Meter
      reads this
    {
      Meter(budget, flags)
    }

    constructor (budget: int)
      ensures State() == Meter(budget, NO_FLAGS)
    {
      this.budget := budget;
      flags := NO_FLAGS;
    }
  }

  method SanitizeValue(p: Policy, v: Value, depth: int, maxDepth: int, g: Gauge) returns (out: Value)
    modifies g
    ensures (out, g.State()) == Scrub(p, v, depth, maxDepth, old(g.State()))
    decreases v
  {
    if g.budget <= 0 {
      g.flags := g.flags.(truncated := true);
      return Text(TRUNCATED);
    }
    if depth > maxDepth {
      g.flags := g.flags.(truncated := true);
      g.budget := Charge(g.budget, |TRUNCATED|);
      return Text(TRUNCATED);
    }
    match v {
      case Scalar(json) =>
        if |json| > g.budget {
          g.flags, g.budget := g.flags.(truncated := true), 0;
          return Text(TRUNCATED);
        }
        g.budget := g.budget - |json|;
        return v;
      case Binary =>
        g.flags, g.budget := g.flags.(binaryOmitted := true), Charge(g.budget, |BINARY_OMITTED|);
        return Text(BINARY_OMITTED);
      case Text(text) =>
        out := SanitizeText(p, text, g);
      case Dict(_) =>
        out := SanitizeDict(p, v, depth, maxDepth, g);
      case List(_) =>
        out := SanitizeList(p, v, depth, maxDepth, g);
      case Other(text) =>
        if JsonSize(text) > g.budget {
          g.flags, g.budget := g.flags.(truncated := true), 0;
          return Text(TRUNCATED);
        }
        g.budget := g.budget - JsonSize(text);
        return Text(text);
    }
  }

  method SanitizeText(p: Policy, text: string, g: Gauge) returns (out: Value)
    modifies g
    ensures (out, g.State()) == ScrubText(p, text, old(g.State()))
    ensures old(g.budget) > 0 ==> TextStored(p.redact(text), old(g.budget), out, g.budget)
  {
    hide JsonSize, JsonWidths, TextStored;
    TextIsStored(p, text, g.State());
    var cleaned := p.redact(text);
    if cleaned == REDACTED && text != REDACTED {
      g.flags := g.flags.(secretsRedacted := true);
    }
    if 0 as char in cleaned {
      g.flags, g.budget := g.flags.(binaryOmitted := true), Charge(g.budget, |BINARY_OMITTED|);
      return Text(BINARY_OMITTED);
    }
    if |cleaned| > MAX_CHARS {
      g.flags := g.flags.(truncated := true);
      cleaned := cleaned[..MAX_CHARS] + TRUNCATED;
    }
    if JsonSize(cleaned) > g.budget {
      var keep := Max(0, Min(|cleaned|, g.budget - |TRUNCATED| - 2));
      g.flags, g.budget := g.flags.(truncated := true), 0;
      return Text(cleaned[..keep] + TRUNCATED);
    }
    g.budget := g.budget - JsonSize(cleaned);
    out := Text(cleaned);
  }

  method SanitizeDict(p: Policy, v: Value, depth: int, maxDepth: int, g: Gauge) returns (out: Value)
    requires v.Dict?
    modifies g
    ensures var r := ScrubMembers(p, v, 0, depth, maxDepth, [], old(g.State())); out == Dict(r.0) && g.State() == r.1
    decreases v, 0
  {
    hide Scrub, Put;
    var members: seq<Member> := [];
    ghost var result := ScrubMembers(p, v, 0, depth, maxDepth, [], g.State());
    var i := 0;
    while i < |v.members|
      invariant 0 <= i <= |v.members|
      invariant ScrubMembers(p, v, i, depth, maxDepth, members, g.State()) == result
    {
      if g.budget <= 0 {
        g.flags := g.flags.(truncated := true);
        members := Put(members, DICT_TRUNCATED, JSON_TRUE);
        break;
      }
      if i >= MAX_ITEMS {
        g.flags := g.flags.(truncated := true);
        members := Put(members, DICT_COLLECTION_TRUNCATED, JSON_TRUE);
        break;
      }
      var key := v.members[i].key;
      if p.isSecret(key) {
        g.flags := g.flags.(secretsRedacted := true);
        members := Put(members, key, Text(REDACTED));
        g.budget := Charge(g.budget, |REDACTED| + |key|);
        i := i + 1;
        continue;
      }
      var value := SanitizeValue(p, v.members[i].value, depth + 1, maxDepth, g);
      members := Put(members, key, value);
      i := i + 1;
    }
    assert (members, g.State()) == result;
    out := Dict(members);
  }

  method SanitizeList(p: Policy, v: Value, depth: int, maxDepth: int, g: Gauge) returns (out: Value)
    requires v.List?
    modifies g
    ensures var r := ScrubItems(p, v, 0, depth, maxDepth, [], old(g.State())); out == List(r.0) && g.State() == r.1
    decreases v, 0
  {
    hide Scrub;
    var items: seq<Value> := [];
    ghost var result := ScrubItems(p, v, 0, depth, maxDepth, [], g.State());
    var i := 0;
    while i < |v.items|
      invariant 0 <= i <= |v.items|
      invariant ScrubItems(p, v, i, depth, maxDepth, items, g.State()) == result
    {
      if g.budget <= 0 || i >= MAX_ITEMS {
        g.flags := g.flags.(truncated := true);
        items := items + [Text(TRUNCATED)];
        break;
      }
      var value := SanitizeValue(p, v.items[i], depth + 1, maxDepth, g);
      items := items + [value];
      i := i + 1;
    }
    out := List(items);
  }

  // ----- the wrapper around one dead-lettered payload -----

  /** `None` is a missing payload; anything that is not an object is wrapped into one. */
  function AsObject(payload: Option<Value>): Value {
    match payload
    case None => Dict([])
    case Some(v) => if v.Dict? then v else Dict([Member("_non_object_payload", v)])
  }

  datatype Scrubbed = Scrubbed(payload: Value, flags: Flags)

  function ScrubPayload(p: Policy, payload: Option<Value>, maxDepth: int, maxBytes: int): Scrubbed {
    var (v, m) := Scrub(p, AsObject(payload), 0, maxDepth, Meter(maxBytes, NO_FLAGS));
    Scrubbed(if v.Dict? then v else Dict([Member("_value", v)]), m.flags)
  }

  method SanitizeDlqPayload(p: Policy, payload: Option<Value>, maxDepth: int, maxBytes: int) returns (r: Scrubbed)
    ensures r == ScrubPayload(p, payload, maxDepth, maxBytes)
  {
    var g := new Gauge(maxBytes);
    var v := SanitizeValue(p, AsObject(payload), 0, maxDepth, g);
    r := Scrubbed(if v.Dict? then v else Dict([Member("_value", v)]), g.flags);
  }
}
