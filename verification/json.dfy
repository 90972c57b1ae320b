/**
 * JSON values as `JSON.stringify` writes them and `JSON.parse` reads them,
 * for the shapes this application exchanges: null, booleans, strings, arrays
 * and objects. The serialiser emits no insignificant whitespace; the parser
 * accepts exactly that compact form.
 */
module Json {
  import opened Wrappers
  import opened Text

  datatype Json = JNull | JBool(b: bool) | JStr(s: string) | JArr(items: seq<Json>) | JObj(members: seq<Member>)
  datatype Member = Member(key: string, value: Json)

  // ---------------------------------------------------------------------------
  // Serialisation (JSON.stringify)
  // ---------------------------------------------------------------------------

  function HexDigit(d: nat): char
    requires d < 16
  {
    if d < 10 then ('0' as int + d) as char else ('a' as int + d - 10) as char
  }

  /** One character inside a string literal, escaped as ECMA-262's QuoteJSONString does. */
  function EscapeChar(c: char): string
  {
    if c == '"' then "\\\""
    else if c == '\\' then "\\\\"
    else if c == '\U{8}' then "\\b"
    else if c == '\t' then "\\t"
    else if c == '\n' then "\\n"
    else if c == '\U{C}' then "\\f"
    else if c == '\r' then "\\r"
    else if c < ' ' then "\\u00" + [HexDigit(c as int / 16), HexDigit(c as int % 16)]
    else [c]
  }

  function EscapeBody(s: string): string
  {
    if |s| == 0 then "" else EscapeChar(s[0]) + EscapeBody(s[1..])
  }

  function Quote(s: string): string
  {
    "\"" + EscapeBody(s) + "\""
  }

  function Ser(v: Json): string
    decreases v, 1
  {
    match v
    case JNull => "null"
    case JBool(b) => if b then "true" else "false"
    case JStr(s) => Quote(s)
    case JArr(items) => "[" + SerItems(items) + "]"
    case JObj(ms) => "{" + SerMembers(ms) + "}"
  }

  function SerItems(items: seq<Json>): string
    decreases items, 0
  {
    if |items| == 0 then ""
    else if |items| == 1 then Ser(items[0])
    else Ser(items[0]) + "," + SerItems(items[1..])
  }

  function SerMembers(ms: seq<Member>): string
    decreases ms, 0
  {
    if |ms| == 0 then ""
    else if |ms| == 1 then Quote(ms[0].key) + ":" + Ser(ms[0].value)
    else Quote(ms[0].key) + ":" + Ser(ms[0].value) + "," + SerMembers(ms[1..])
  }

  // ---------------------------------------------------------------------------
  // Parsing (JSON.parse)
  // ---------------------------------------------------------------------------

  function HexValue(c: char): Option<nat>
  {
    if '0' <= c <= '9' then Some(c as int - '0' as int)
    else if 'a' <= c <= 'f' then Some(c as int - 'a' as int + 10)
    else if 'A' <= c <= 'F' then Some(c as int - 'A' as int + 10)
    else None
  }

  /** The character an escape sequence stands for; `s` follows the backslash. */
  function ParseEscape(s: string): (r: Option<(char, string)>)
    ensures r.Some? ==> |r.value.1| < |s|
  {
    if |s| == 0 then None
    else if s[0] == '"' then Some(('"', s[1..]))
    else if s[0] == '\\' then Some(('\\', s[1..]))
    else if s[0] == '/' then Some(('/', s[1..]))
    else if s[0] == 'b' then Some(('\U{8}', s[1..]))
    else if s[0] == 'f' then Some(('\U{C}', s[1..]))
    else if s[0] == 'n' then Some(('\n', s[1..]))
    else if s[0] == 'r' then Some(('\r', s[1..]))
    else if s[0] == 't' then Some(('\t', s[1..]))
    else if s[0] == 'u' && |s| >= 5 then
      match (HexValue(s[1]), HexValue(s[2]), HexValue(s[3]), HexValue(s[4]))
      case (Some(a), Some(b), Some(c), Some(d)) =>
        var code := a * 4096 + b * 256 + c * 16 + d;
        if 0xD800 <= code < 0xE000 then None else Some((code as char, s[5..]))
      case _ => None
    else None
  }

  /** The characters of a string literal up to its closing quote; `s` follows the opening quote. */
  function ParseStringBody(s: string): (r: Option<(string, string)>)
    ensures r.Some? ==> |r.value.1| < |s|
    decreases |s|
  {
    if |s| == 0 then None
    else if s[0] == '"' then Some(("", s[1..]))
    else if s[0] == '\\' then
      match ParseEscape(s[1..])
      case None => None
      case Some((c, rest)) =>
        match ParseStringBody(rest)
        case None => None
        case Some((body, rest2)) => Some(([c] + body, rest2))
    else if s[0] < ' ' then None
    else
      match ParseStringBody(s[1..])
      case None => None
      case Some((body, rest)) => Some(([s[0]] + body, rest))
  }

  /** One value at the front of `s`, and what follows it. */
  function ParseValue(s: string): (r: Option<(Json, string)>)
    ensures r.Some? ==> |r.value.1| < |s|
    decreases |s|, 0
  {
    if StartsWith(s, "null") then Some((JNull, s[4..]))
    else if StartsWith(s, "true") then Some((JBool(true), s[4..]))
    else if StartsWith(s, "false") then Some((JBool(false), s[5..]))
    else if |s| == 0 then None
    else if s[0] == '"' then
      match ParseStringBody(s[1..])
      case None => None
      case Some((t, rest)) => Some((JStr(t), rest))
    else if s[0] == '[' then
      if |s| >= 2 && s[1] == ']' then Some((JArr([]), s[2..]))
      else
        match ParseItems(s[1..])
        case None => None
        case Some((items, rest)) => Some((JArr(items), rest))
    else if s[0] == '{' then
      if |s| >= 2 && s[1] == '}' then Some((JObj([]), s[2..]))
      else
        match ParseMembers(s[1..])
        case None => None
        case Some((ms, rest)) => Some((JObj(ms), rest))
    else None
  }

  /** The elements of a non-empty array up to and including its `]`. */
  function ParseItems(s: string): (r: Option<(seq<Json>, string)>)
    ensures r.Some? ==> |r.value.1| < |s|
    decreases |s|, 1
  {
    match ParseValue(s)
    case None => None
    case Some((v, rest)) =>
      if |rest| > 0 && rest[0] == ']' then Some(([v], rest[1..]))
      else if |rest| > 0 && rest[0] == ',' then
        match ParseItems(rest[1..])
        case None => None
        case Some((vs, rest2)) => Some(([v] + vs, rest2))
      else None
  }

  /** The members of a non-empty object up to and including its `}`. */
  function ParseMembers(s: string): (r: Option<(seq<Member>, string)>)
    ensures r.Some? ==> |r.value.1| < |s|
    decreases |s|, 1
  {
    if |s| == 0 || s[0] != '"' then None
    else
      match ParseStringBody(s[1..])
      case None => None
      case Some((key, rest)) =>
        if |rest| == 0 || rest[0] != ':' then None
        else
          match ParseValue(rest[1..])
          case None => None
          case Some((v, rest2)) => MoreMembers(Member(key, v), rest2)
  }

  /** After member `m`: either the closing `}` or a `,` and further members. */
  function MoreMembers(m: Member, s: string): (r: Option<(seq<Member>, string)>)
    ensures r.Some? ==> |r.value.1| < |s|
    decreases |s|, 2
  {
    if |s| > 0 && s[0] == '}' then Some(([m], s[1..]))
    else if |s| > 0 && s[0] == ',' then
      match ParseMembers(s[1..])
      case None => None
      case Some((ms, rest)) => Some(([m] + ms, rest))
    else None
  }

  /** `JSON.parse(s)`: one value filling the whole text, or a syntax error. */
  function Parse(s: string): Option<Json>
  {
    match ParseValue(s)
    case Some((v, rest)) => if rest == "" then Some(v) else None
    case None => None
  }

  // ---------------------------------------------------------------------------
  // Property access on parsed values
  // ---------------------------------------------------------------------------

  /** `v[key]` on a parsed value: the last member with that key wins, as in `JSON.parse`. */
  function Get(v: Json, key: string): Option<Json>
  {
    match v
    case JObj(ms) => Lookup(ms, key)
    case _ => None
  }

  function Lookup(ms: seq<Member>, key: string): Option<Json>
  {
    if |ms| == 0 then None
    else if ms[|ms| - 1].key == key then Some(ms[|ms| - 1].value)
    else Lookup(ms[..|ms| - 1], key)
  }

  /** Appending a member: it wins for its own key and leaves the lookup of every other key alone. */
  lemma LookupSnoc(ms: seq<Member>, m: Member, key: string)
    ensures Lookup(ms + [m], key) == if m.key == key then Some(m.value) else Lookup(ms, key)
  {
    assert (ms + [m])[..|ms|] == ms;
  }

  /** JavaScript truthiness of a parsed value. */
  predicate Truthy(v: Json)
  {
    match v
    case JNull => false
    case JBool(b) => b
    case JStr(s) => s != ""
    case _ => true
  }

  /** Truthiness of a possibly absent property (`undefined` is falsy). */
  predicate TruthyField(o: Option<Json>)
  {
    o.Some? && Truthy(o.value)
  }

  /** `String(v)`: what `+=` on a string or `new Error(v)` makes of a parsed value. */
  function ToJsString(v: Json): string
    decreases v, 1
  {
    match v
    case JNull => "null"
    case JBool(b) => if b then "true" else "false"
    case JStr(s) => s
    case JArr(items) => JoinElements(items)
    case JObj(_) => "[object Object]"
  }

  /** `Array.prototype.join(",")`, which writes `null` elements as empty strings. */
  function JoinElements(items: seq<Json>): string
    decreases items, 0
  {
    if |items| == 0 then ""
    else
      var head := if items[0].JNull? then "" else ToJsString(items[0]);
      if |items| == 1 then head else head + "," + JoinElements(items[1..])
  }

  // ---------------------------------------------------------------------------
  // Round trip: JSON.parse(JSON.stringify(v)) == v
  // ---------------------------------------------------------------------------

  lemma HexRoundTrip(d: nat)
    requires d < 16
    ensures HexValue(HexDigit(d)) == Some(d)
  {
  }

  /** Parsing an escaped character yields the character and continues with what follows. */
  lemma EscapeCharStep(c: char, tail: string)
    ensures ParseStringBody(EscapeChar(c) + tail) ==
      (match ParseStringBody(tail)
       case None => None
       case Some((body, rest)) => Some(([c] + body, rest)))
  {
    var s := EscapeChar(c) + tail;
    if c == '"' || c == '\\' || c == '\U{8}' || c == '\t' || c == '\n' || c == '\U{C}' || c == '\r' {
      assert s[1..][1..] == tail;
    } else if c < ' ' {
      var hi, lo := c as int / 16, c as int % 16;
      HexRoundTrip(hi);
      HexRoundTrip(lo);
      assert s[1..][5..] == tail;
      assert s[1..][1] == '0' && s[1..][2] == '0' && s[1..][3] == HexDigit(hi) && s[1..][4] == HexDigit(lo);
    } else {
      assert s[1..] == tail;
    }
  }

  lemma {:induction false} StringRoundTrip(t: string, rest: string)
    ensures ParseStringBody(EscapeBody(t) + "\"" + rest) == Some((t, rest))
  {
    if |t| == 0 {
      assert EscapeBody(t) + "\"" + rest == "\"" + rest;
    } else {
      StringRoundTrip(t[1..], rest);
      EscapeCharStep(t[0], EscapeBody(t[1..]) + "\"" + rest);
      assert EscapeBody(t) + "\"" + rest == EscapeChar(t[0]) + (EscapeBody(t[1..]) + "\"" + rest);
      assert [t[0]] + t[1..] == t;
    }
  }

  lemma QuoteRoundTrip(t: string, rest: string)
    ensures ParseStringBody((Quote(t) + rest)[1..]) == Some((t, rest))
  {
    assert (Quote(t) + rest)[1..] == EscapeBody(t) + "\"" + rest;
    StringRoundTrip(t, rest);
  }

  /** The first character of a serialised value opens the value's syntax. */
  lemma SerStart(v: Json)
    ensures |Ser(v)| > 0
    ensures Ser(v)[0] in {'n', 't', 'f', '"', '[', '{'}
    ensures v.JStr? <==> Ser(v)[0] == '"'
    ensures v.JArr? <==> Ser(v)[0] == '['
    ensures v.JObj? <==> Ser(v)[0] == '{'
  {
  }

  lemma {:induction false} ValueRoundTrip(v: Json, rest: string)
    ensures ParseValue(Ser(v) + rest) == Some((v, rest))
    decreases v, 3
  {
    var s := Ser(v) + rest;
    match v
    case JNull =>
      assert s[..4] == "null";
    case JBool(b) =>
      if b { assert s[..4] == "true"; }
      else {
        assert s[..5] == "false";
        assert s[..4][0] == 'f';
      }
    case JStr(t) =>
      assert s[0] == '"';
      assert !StartsWith(s, "null") && !StartsWith(s, "true") && !StartsWith(s, "false");
      QuoteRoundTrip(t, rest);
    case JArr(items) =>
      ArrayRoundTrip(items, rest);
    case JObj(ms) =>
      ObjectRoundTrip(ms, rest);
  }

  lemma {:induction false} ArrayRoundTrip(items: seq<Json>, rest: string)
    ensures ParseValue(Ser(JArr(items)) + rest) == Some((JArr(items), rest))
    decreases items, 2
  {
    if |items| == 0 {
      var s := Ser(JArr(items)) + rest;
      assert s[0] == '[';
      NotKeyword(s);
      assert Ser(JArr(items)) == "[]";
      assert s[1] == ']' && s[2..] == rest;
    } else {
      SerStart(items[0]);
      assert SerItems(items)[0] == Ser(items[0])[0];
      ItemsRoundTrip(items, rest);
      ParseArrayText(SerItems(items), items, rest);
    }
  }

  lemma {:induction false} ObjectRoundTrip(ms: seq<Member>, rest: string)
    ensures ParseValue(Ser(JObj(ms)) + rest) == Some((JObj(ms), rest))
    decreases ms, 2
  {
    if |ms| == 0 {
      var s := Ser(JObj(ms)) + rest;
      assert s[0] == '{';
      NotKeyword(s);
      assert Ser(JObj(ms)) == "{}";
      assert s[1] == '}' && s[2..] == rest;
    } else {
      assert SerMembers(ms)[0] == '"';
      MembersRoundTrip(ms, rest);
      ParseObjectText(SerMembers(ms), ms, rest);
    }
  }

  /** Bracketed items that `ParseItems` reads are an array. */
  lemma ParseArrayText(body: string, items: seq<Json>, rest: string)
    requires |body| > 0 && body[0] != ']' && ParseItems(body + "]" + rest) == Some((items, rest))
    ensures ParseValue("[" + body + "]" + rest) == Some((JArr(items), rest))
  {
    var inner := body + "]" + rest;
    var s := "[" + inner;
    Assoc4("[", body, "]", rest);
    assert s[0] == '[' && s[1..] == inner && s[1] == body[0];
    ParseOpenArray(s);
  }

  /** Braced members that `ParseMembers` reads are an object. */
  lemma ParseObjectText(body: string, ms: seq<Member>, rest: string)
    requires |body| > 0 && body[0] == '"' && ParseMembers(body + "}" + rest) == Some((ms, rest))
    ensures ParseValue("{" + body + "}" + rest) == Some((JObj(ms), rest))
  {
    var inner := body + "}" + rest;
    var s := "{" + inner;
    Assoc4("{", body, "}", rest);
    assert s[0] == '{' && s[1..] == inner && s[1] == body[0];
    ParseOpenObject(s);
  }

  /** Text that starts with none of `n`, `t`, `f` starts with no keyword. */
  lemma NotKeyword(s: string)
    requires |s| > 0 && s[0] != 'n' && s[0] != 't' && s[0] != 'f'
    ensures !StartsWith(s, "null") && !StartsWith(s, "true") && !StartsWith(s, "false")
  {
    if |s| >= 4 { assert s[..4][0] == s[0]; }
    if |s| >= 5 { assert s[..5][0] == s[0]; }
  }

  /** A `[` not followed by `]` opens a non-empty array, read by `ParseItems`. */
  lemma ParseOpenArray(s: string)
    requires |s| >= 2 && s[0] == '[' && s[1] != ']' && ParseItems(s[1..]).Some?
    ensures ParseValue(s) == Some((JArr(ParseItems(s[1..]).value.0), ParseItems(s[1..]).value.1))
  {
    NotKeyword(s);
  }

  /** A `{` not followed by `}` opens a non-empty object, read by `ParseMembers`. */
  lemma ParseOpenObject(s: string)
    requires |s| >= 2 && s[0] == '{' && s[1] != '}' && ParseMembers(s[1..]).Some?
    ensures ParseValue(s) == Some((JObj(ParseMembers(s[1..]).value.0), ParseMembers(s[1..]).value.1))
  {
    NotKeyword(s);
  }

  lemma {:induction false} ItemsRoundTrip(items: seq<Json>, rest: string)
    requires |items| > 0
    ensures ParseItems(SerItems(items) + "]" + rest) == Some((items, rest))
    decreases items, 0
  {
    if |items| == 1 {
      assert SerItems(items) + "]" + rest == Ser(items[0]) + ("]" + rest);
      ValueRoundTrip(items[0], "]" + rest);
      assert ("]" + rest)[1..] == rest;
      assert [items[0]] == items;
    } else {
      var tail := SerItems(items[1..]) + "]" + rest;
      assert SerItems(items) + "]" + rest == Ser(items[0]) + ("," + tail);
      ValueRoundTrip(items[0], "," + tail);
      assert ("," + tail)[1..] == tail;
      ItemsRoundTrip(items[1..], rest);
      assert [items[0]] + items[1..] == items;
    }
  }

  /** Parsing one member reads its key and value, then what follows decides how the object goes on. */
  lemma MemberHead(key: string, v: Json, after: string)
    ensures ParseMembers(Quote(key) + (":" + (Ser(v) + after))) == MoreMembers(Member(key, v), after)
    decreases v, 4
  {
    var rest := ":" + (Ser(v) + after);
    var s := Quote(key) + rest;
    QuoteRoundTrip(key, rest);
    assert rest[1..] == Ser(v) + after;
    ValueRoundTrip(v, after);
  }

  lemma {:induction false} MembersRoundTrip(ms: seq<Member>, rest: string)
    requires |ms| > 0
    ensures ParseMembers(SerMembers(ms) + "}" + rest) == Some((ms, rest))
    decreases ms, 0
  {
    var m := ms[0];
    var after := if |ms| == 1 then "}" + rest else "," + (SerMembers(ms[1..]) + "}" + rest);
    SerMembersHead(ms, rest);
    MemberHead(m.key, m.value, after);
    assert Member(m.key, m.value) == m;
    if |ms| == 1 {
      assert after[1..] == rest;
      assert MoreMembers(m, after) == Some(([m], rest));
      assert [m] == ms;
    } else {
      assert after[1..] == SerMembers(ms[1..]) + "}" + rest;
      MembersRoundTrip(ms[1..], rest);
      assert MoreMembers(m, after) == Some(([m] + ms[1..], rest));
      assert [m] + ms[1..] == ms;
    }
  }

  /** The serialised members start with the first key and value, followed by `}` or a `,` and the others. */
  lemma SerMembersHead(ms: seq<Member>, rest: string)
    requires |ms| > 0
    ensures SerMembers(ms) + "}" + rest == Quote(ms[0].key) + (":" + (Ser(ms[0].value) +
      (if |ms| == 1 then "}" + rest else "," + (SerMembers(ms[1..]) + "}" + rest))))
  {
    var q, v := Quote(ms[0].key), Ser(ms[0].value);
    if |ms| == 1 {
      assert SerMembers(ms) == q + ":" + v;
      Assoc5(q, ":", v, "}", rest);
    } else {
      var others := SerMembers(ms[1..]);
      var pre := q + ":" + v + ",";
      assert SerMembers(ms) == pre + others;
      Assoc4(pre, others, "}", rest);
      Assoc5(q, ":", v, ",", others + "}" + rest);
    }
  }

  lemma Assoc4(a: string, b: string, c: string, d: string)
    ensures a + b + c + d == a + (b + c + d)
  {
  }

  lemma Assoc5(a: string, b: string, c: string, d: string, e: string)
    ensures a + b + c + d + e == a + (b + (c + (d + e)))
  {
  }

  /** `JSON.parse(JSON.stringify(v))` gives `v` back. */
  lemma ParseSer(v: Json)
    ensures Parse(Ser(v)) == Some(v)
  {
    ValueRoundTrip(v, "");
    assert Ser(v) + "" == Ser(v);
  }

  // ---------------------------------------------------------------------------
  // Serialised text holds no control character, in particular no raw newline
  // ---------------------------------------------------------------------------

  predicate Printable(s: string)
  {
    forall i :: 0 <= i < |s| ==> s[i] >= ' '
  }

  lemma PrintableConcat(a: string, b: string)
    requires Printable(a) && Printable(b)
    ensures Printable(a + b)
  {
  }

  lemma {:induction false} EscapeBodyPrintable(t: string)
    ensures Printable(EscapeBody(t))
  {
    if |t| > 0 {
      EscapeBodyPrintable(t[1..]);
      PrintableConcat(EscapeChar(t[0]), EscapeBody(t[1..]));
    }
  }

  lemma {:induction false} SerPrintable(v: Json)
    ensures Printable(Ser(v))
    decreases v, 1
  {
    match v
    case JNull =>
    case JBool(_) =>
    case JStr(t) =>
      EscapeBodyPrintable(t);
    case JArr(items) =>
      ItemsPrintable(items);
    case JObj(ms) =>
      MembersPrintable(ms);
  }

  lemma {:induction false} ItemsPrintable(items: seq<Json>)
    ensures Printable(SerItems(items))
    decreases items, 0
  {
    if |items| > 0 {
      SerPrintable(items[0]);
      if |items| > 1 {
        ItemsPrintable(items[1..]);
      }
    }
  }

  lemma {:induction false} MembersPrintable(ms: seq<Member>)
    ensures Printable(SerMembers(ms))
    decreases ms, 0
  {
    if |ms| > 0 {
      EscapeBodyPrintable(ms[0].key);
      SerPrintable(ms[0].value);
      if |ms| > 1 {
        MembersPrintable(ms[1..]);
      }
    }
  }

  /** `JSON.stringify` output never contains a raw line feed. */
  lemma SerHasNoNewline(v: Json)
    ensures Lacks(Ser(v), '\n')
  {
    SerPrintable(v);
  }
}
