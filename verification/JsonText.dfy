/** The JSON text whose length the scrubber charges, written out: ASCII only and without spaces. */
module JsonText {
  import opened Basics
  import opened Sanitizer
  import opened StoredSize

  const HEX := "0123456789abcdef"

  function Hex4(n: nat): string
    requires n < 0x10000
  {
    [HEX[n / 4096], HEX[n / 256 % 16], HEX[n / 16 % 16], HEX[n % 16]]
  }

  /** One character as the encoder writes it; beyond 16 bits as a surrogate pair. */
  function Escaped(c: char): string {
    if c == '"' then "\\\""
    else if c == '\\' then "\\\\"
    else if c == '\n' then "\\n"
    else if c == '\r' then "\\r"
    else if c == '\t' then "\\t"
    else if c as int == 8 then "\\b"
    else if c as int == 12 then "\\f"
    else if 32 <= c as int < 127 then [c]
    else if c as int < 0x10000 then "\\u" + Hex4(c as int)
    else
      var rest := c as int - 0x10000;
      "\\u" + Hex4(0xd800 + rest / 1024) + "\\u" + Hex4(0xdc00 + rest % 1024)
  }

  function EscapedAll(s: string): string {
    if s == "" then "" else Escaped(s[0]) + EscapedAll(s[1..])
  }

  function Quoted(s: string): string {
    "\"" + EscapedAll(s) + "\""
  }

  lemma {:induction false} EscapedLength(s: string)
    ensures |EscapedAll(s)| == JsonWidths(s)
  {
    if s != "" {
      EscapedLength(s[1..]);
    }
  }

  /** The charge for a text is the length of its JSON form. */
  lemma SizeIsLength(s: string)
    ensures |Quoted(s)| == JsonSize(s)
  {
    EscapedLength(s);
  }


  /** Compact JSON; a foreign object is encoded by its string form. */
  function Json(v: Value): string {
    match v
    case Scalar(json) => json
    case Text(text) => Quoted(text)
    case Other(text) => Quoted(text)
    case Binary => ""
    case Dict(ms) => "{" + JsonMembers(ms) + "}"
    case List(xs) => "[" + JsonItems(xs) + "]"
  }

  function JsonMembers(ms: seq<Member>): string {
    if ms == [] then ""
    else Quoted(ms[0].key) + ":" + Json(ms[0].value) + (if |ms| > 1 then "," else "") + JsonMembers(ms[1..])
  }

  function JsonItems(xs: seq<Value>): string {
    if xs == [] then "" else Json(xs[0]) + (if |xs| > 1 then "," else "") + JsonItems(xs[1..])
  }

  /** The size that the bounds of the stored copy speak of is the length of its JSON text. */
  lemma {:induction false} BytesAreLength(v: Value)
    ensures |Json(v)| == JsonBytes(v)
  {
    match v
    case Text(text) => SizeIsLength(text);
    case Other(text) => SizeIsLength(text);
    case Dict(ms) => MembersLength(ms);
    case List(xs) => ItemsLength(xs);
    case _ =>
  }

  lemma {:induction false} MembersLength(ms: seq<Member>)
    ensures |JsonMembers(ms)| == MembersBytes(ms)
  {
    if ms != [] {
      SizeIsLength(ms[0].key);
      BytesAreLength(ms[0].value);
      MembersLength(ms[1..]);
    }
  }

  lemma {:induction false} ItemsLength(xs: seq<Value>)
    ensures |JsonItems(xs)| == ItemsBytes(xs)
  {
    if xs != [] {
      BytesAreLength(xs[0]);
      ItemsLength(xs[1..]);
    }
  }
}
