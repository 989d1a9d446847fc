/** The canonical JSON text that digests, token payloads and bridge frames are built from.
    A dictionary is held as its key-sorted field list, which is the order
    `json.dumps(sort_keys=True)` prints; a number is held as the text Python prints for it. */
module Json {
  import opened Wrappers

  datatype Json =
    | JNull
    | JBool(b: bool)
    | JNum(lexeme: string)
    | JStr(text: string)
    | JArr(items: Items)
    | JObj(fields: Fields)
  datatype Items = NoItem | Item(head: Json, tail: Items)
  datatype Fields = NoField | Field(key: string, value: Json, rest: Fields)

  /** `Compact` is `canonical_json`; `Spaced` is the default separators that input
      validation measures (core/contracts/validation.py:291). */
  datatype Style = Compact | Spaced

  predicate IsNumChar(c: char) {
    '0' <= c <= '9' || c == '-' || c == '+' || c == '.' || c == 'e' || c == 'E'
  }

  predicate IsLexeme(s: string) {
    s != "" && forall i :: 0 <= i < |s| ==> IsNumChar(s[i])
  }

  predicate WellFormed(v: Json) {
    match v
    case JNum(lexeme) => IsLexeme(lexeme)
    case JArr(items) => WellFormedItems(items)
    case JObj(fields) => WellFormedFields(fields)
    case _ => true
  }

  predicate WellFormedItems(items: Items) {
    items.Item? ==> WellFormed(items.head) && WellFormedItems(items.tail)
  }

  predicate WellFormedFields(fields: Fields) {
    fields.Field? ==> WellFormed(fields.value) && WellFormedFields(fields.rest)
  }

  // ---------- printing ----------

  /** A lowercase digit. */
  function HexDigit(n: int): (c: char)
    requires 0 <= n < 16
    ensures c as int == if n < 10 then '0' as int + n else 'a' as int + n - 10
  {
    "0123456789abcdef"[n]
  }

  /** Escaping of section 7 of RFC 8259 with non-ASCII characters left alone. */
  function EscapeChar(c: char): (r: string)
    ensures 1 <= |r| <= 6
  {
    if c == '"' then "\\\""
    else if c == '\\' then "\\\\"
    else if c == '\n' then "\\n"
    else if c == '\r' then "\\r"
    else if c == '\t' then "\\t"
    else if c == '\U{8}' then "\\b"
    else if c == '\U{c}' then "\\f"
    else if c as int < 32 then ['\\', 'u', '0', '0', HexDigit(c as int / 16), HexDigit(c as int % 16)]
    else [c]
  }

  function Escape(s: string): string {
    if s == "" then "" else EscapeChar(s[0]) + Escape(s[1..])
  }

  function Quote(s: string): string { "\"" + Escape(s) + "\"" }

  function Comma(style: Style): string { if style == Compact then "," else ", " }
  function Colon(style: Style): string { if style == Compact then ":" else ": " }

  function Print(v: Json, style: Style := Compact): string {
    match v
    case JNull => "null"
    case JBool(b) => if b then "true" else "false"
    case JNum(lexeme) => lexeme
    case JStr(text) => Quote(text)
    case JArr(items) => "[" + PrintItems(items, style) + "]"
    case JObj(fields) => "{" + PrintFields(fields, style) + "}"
  }

  function PrintItems(items: Items, style: Style): string {
    match items
    case NoItem => ""
    case Item(v, NoItem) => Print(v, style)
    case Item(v, tail) => Print(v, style) + Comma(style) + PrintItems(tail, style)
  }

  function PrintFields(fields: Fields, style: Style): string {
    match fields
    case NoField => ""
    case Field(k, v, NoField) => Quote(k) + Colon(style) + Print(v, style)
    case Field(k, v, rest) => Quote(k) + Colon(style) + Print(v, style) + Comma(style) + PrintFields(rest, style)
  }

  // ---------- parsing ----------

  function HexValue(c: char): Option<int> {
    if '0' <= c <= '9' then Some(c as int - '0' as int)
    else if 'a' <= c <= 'f' then Some(c as int - 'a' as int + 10)
    else if 'A' <= c <= 'F' then Some(c as int - 'A' as int + 10)
    else None
  }

  /** One character of a quoted text and the unread remainder. */
  function ParseChar(s: string): (r: Option<(char, string)>)
    ensures r.Some? ==> |r.value.1| < |s|
  {
    if s == "" || s[0] as int < 32 then None
    else if s[0] != '\\' then Some((s[0], s[1..]))
    else if |s| < 2 then None
    else
      match s[1]
      case '"' => Some(('"', s[2..]))
      case '\\' => Some(('\\', s[2..]))
      case '/' => Some(('/', s[2..]))
      case 'n' => Some(('\n', s[2..]))
      case 'r' => Some(('\r', s[2..]))
      case 't' => Some(('\t', s[2..]))
      case 'b' => Some(('\U{8}', s[2..]))
      case 'f' => Some(('\U{c}', s[2..]))
      case 'u' => ParseHex(s)
      case _ => None
  }

  function ParseHex(s: string): (r: Option<(char, string)>)
    requires |s| >= 2
    ensures r.Some? ==> |r.value.1| < |s|
  {
    if |s| < 6 then None
    else
      var a :- HexValue(s[2]);
      var b :- HexValue(s[3]);
      var c :- HexValue(s[4]);
      var d :- HexValue(s[5]);
      var n := ((a * 16 + b) * 16 + c) * 16 + d;
      if 0 <= n < 0xD800 || 0xE000 <= n < 0x1_0000 then Some((n as char, s[6..])) else None
  }

  /** The text up to the closing quote, which is consumed. */
  function ParseText(s: string): (r: Option<(string, string)>)
    ensures r.Some? ==> |r.value.1| < |s|
    decreases |s|
  {
    if s == "" then None
    else if s[0] == '"' then Some(("", s[1..]))
    else
      var (c, rest) :- ParseChar(s);
      var (text, rest') :- ParseText(rest);
      Some(([c] + text, rest'))
  }

  function NumLength(s: string): (n: nat)
    ensures n <= |s|
  {
    if s != "" && IsNumChar(s[0]) then 1 + NumLength(s[1..]) else 0
  }

  function ParseValue(s: string): (r: Option<(Json, string)>)
    ensures r.Some? ==> |r.value.1| < |s|
    decreases |s|, 1
  {
    if s == "" then None
    else if s[0] == '"' then
      var (text, rest) :- ParseText(s[1..]);
      Some((JStr(text), rest))
    else if s[0] == '[' then
      if |s| >= 2 && s[1] == ']' then Some((JArr(NoItem), s[2..]))
      else
        var (items, rest) :- ParseItems(s[1..]);
        Some((JArr(items), rest))
    else if s[0] == '{' then
      if |s| >= 2 && s[1] == '}' then Some((JObj(NoField), s[2..]))
      else
        var (fields, rest) :- ParseFields(s[1..]);
        Some((JObj(fields), rest))
    else if IsNumChar(s[0]) then
      Some((JNum(s[..NumLength(s)]), s[NumLength(s)..]))
    else if "null" <= s then Some((JNull, s[4..]))
    else if "true" <= s then Some((JBool(true), s[4..]))
    else if "false" <= s then Some((JBool(false), s[5..]))
    else None
  }

  /** Items up to the closing bracket, which is consumed. */
  function ParseItems(s: string): (r: Option<(Items, string)>)
    ensures r.Some? ==> |r.value.1| < |s|
    decreases |s|, 2
  {
    var (v, rest) :- ParseValue(s);
    if rest == "" then None
    else if rest[0] == ']' then Some((Item(v, NoItem), rest[1..]))
    else if rest[0] == ',' then
      var (tail, rest') :- ParseItems(rest[1..]);
      Some((Item(v, tail), rest'))
    else None
  }

  /** Fields up to the closing brace, which is consumed. */
  function ParseFields(s: string): (r: Option<(Fields, string)>)
    ensures r.Some? ==> |r.value.1| < |s|
    decreases |s|, 2
  {
    if s == "" || s[0] != '"' then None
    else
      var (k, colon) :- ParseText(s[1..]);
      if colon == "" || colon[0] != ':' then None
      else
        var (v, rest) :- ParseValue(colon[1..]);
        if rest == "" then None
        else if rest[0] == '}' then Some((Field(k, v, NoField), rest[1..]))
        else if rest[0] == ',' then
          var (tail, rest') :- ParseFields(rest[1..]);
          Some((Field(k, v, tail), rest'))
        else None
  }

  function Parse(s: string): Option<Json> {
    var (v, rest) :- ParseValue(s);
    if rest == "" then Some(v) else None
  }

  // ---------- parsing undoes printing ----------

  /** The canonical text of `v` put in front of `rest`: the printer in the shape the
      parser consumes it, one bracket at a time. */
  ghost function PutEscaped(s: string, rest: string): string {
    if s == "" then rest else EscapeChar(s[0]) + PutEscaped(s[1..], rest)
  }

  ghost function PutQuoted(s: string, rest: string): string {
    ['"'] + PutEscaped(s, ['"'] + rest)
  }

  ghost function Put(v: Json, rest: string): string {
    match v
    case JArr(items) => ['['] + PutItems(items, [']'] + rest)
    case JObj(fields) => ['{'] + PutFields(fields, ['}'] + rest)
    case JStr(text) => PutQuoted(text, rest)
    case _ => Print(v) + rest
  }

  ghost function PutItems(items: Items, rest: string): string {
    match items
    case NoItem => rest
    case Item(v, NoItem) => Put(v, rest)
    case Item(v, tail) => Put(v, [','] + PutItems(tail, rest))
  }

  ghost function PutFields(fields: Fields, rest: string): string {
    match fields
    case NoField => rest
    case Field(k, v, NoField) => PutQuoted(k, [':'] + Put(v, rest))
    case Field(k, v, tail) => PutQuoted(k, [':'] + Put(v, [','] + PutFields(tail, rest)))
  }

  lemma {:induction false} PutEscapedIs(s: string, rest: string)
    ensures PutEscaped(s, rest) == Escape(s) + rest
  {
    if s != "" {
      PutEscapedIs(s[1..], rest);
      assert EscapeChar(s[0]) + (Escape(s[1..]) + rest) == EscapeChar(s[0]) + Escape(s[1..]) + rest;
    }
  }

  lemma PutQuotedIs(s: string, rest: string)
    ensures PutQuoted(s, rest) == Quote(s) + rest
  {
    PutEscapedIs(s, ['"'] + rest);
    assert ['"'] + (Escape(s) + (['"'] + rest)) == "\"" + Escape(s) + "\"" + rest;
  }

  lemma {:induction false} PutIs(v: Json, rest: string)
    ensures Put(v, rest) == Print(v) + rest
    decreases v
  {
    match v
    case JArr(items) =>
      PutItemsIs(items, [']'] + rest);
      var body := PrintItems(items, Compact);
      assert ['['] + (body + ([']'] + rest)) == "[" + body + "]" + rest;
    case JObj(fields) =>
      PutFieldsIs(fields, ['}'] + rest);
      var body := PrintFields(fields, Compact);
      assert ['{'] + (body + (['}'] + rest)) == "{" + body + "}" + rest;
    case JStr(text) => PutQuotedIs(text, rest);
    case _ =>
  }

  lemma {:induction false} PutItemsIs(items: Items, rest: string)
    ensures PutItems(items, rest) == PrintItems(items, Compact) + rest
    decreases items
  {
    match items
    case NoItem =>
    case Item(v, NoItem) => PutIs(v, rest);
    case Item(v, tail) =>
      var body := PrintItems(tail, Compact);
      PutItemsIs(tail, rest);
      PutIs(v, [','] + PutItems(tail, rest));
      assert Print(v) + ([','] + (body + rest)) == Print(v) + "," + body + rest;
  }

  lemma {:induction false} PutFieldsIs(fields: Fields, rest: string)
    ensures PutFields(fields, rest) == PrintFields(fields, Compact) + rest
    decreases fields
  {
    match fields
    case NoField =>
    case Field(k, v, NoField) =>
      PutIs(v, rest);
      PutQuotedIs(k, [':'] + Put(v, rest));
      assert Quote(k) + ([':'] + (Print(v) + rest)) == Quote(k) + ":" + Print(v) + rest;
    case Field(k, v, tail) =>
      var body := PrintFields(tail, Compact);
      PutFieldsIs(tail, rest);
      PutIs(v, [','] + PutFields(tail, rest));
      PutQuotedIs(k, [':'] + Put(v, [','] + PutFields(tail, rest)));
      FieldAssoc(Quote(k), Print(v), body, rest);
  }

  lemma FieldAssoc(k: string, v: string, body: string, rest: string)
    ensures k + ([':'] + (v + ([','] + (body + rest)))) == k + ":" + v + "," + body + rest
  {
  }

  lemma ParseEscapedChar(c: char, rest: string)
    ensures EscapeChar(c)[0] != '"'
    ensures ParseChar(EscapeChar(c) + rest) == Some((c, rest))
  {
    var n := c as int;
    var s := EscapeChar(c) + rest;
    assert s[|EscapeChar(c)|..] == rest;
    if n < 32 && |EscapeChar(c)| == 6 {
      assert HexValue(HexDigit(n / 16)) == Some(n / 16);
      assert HexValue(HexDigit(n % 16)) == Some(n % 16);
      assert s[2..6] == ['0', '0', HexDigit(n / 16), HexDigit(n % 16)];
      assert s[2] == '0' && s[3] == '0' && s[4] == HexDigit(n / 16) && s[5] == HexDigit(n % 16);
      assert ParseHex(s) == Some((c, rest));
    }
  }

  lemma {:induction false} ParseQuoted(text: string, rest: string)
    ensures ParseText(PutEscaped(text, ['"'] + rest)) == Some((text, rest))
  {
    if text == "" {
      assert (['"'] + rest)[1..] == rest;
    } else {
      ParseQuoted(text[1..], rest);
      ParseEscapedChar(text[0], PutEscaped(text[1..], ['"'] + rest));
      assert [text[0]] + text[1..] == text;
    }
  }

  lemma {:induction false} NumLengthOf(lexeme: string, rest: string)
    requires forall i :: 0 <= i < |lexeme| ==> IsNumChar(lexeme[i])
    requires rest != "" ==> !IsNumChar(rest[0])
    ensures NumLength(lexeme + rest) == |lexeme|
  {
    if lexeme == "" {
      assert lexeme + rest == rest;
    } else {
      NumLengthOf(lexeme[1..], rest);
      assert (lexeme + rest)[1..] == lexeme[1..] + rest;
    }
  }

  ghost predicate Ends(v: Json, rest: string) {
    v.JNum? && rest != "" ==> !IsNumChar(rest[0])
  }

  /** The printed form is a prefix code: parsing reads back exactly the printed value
      and leaves what followed it. */
  lemma {:induction false} ParsePut(v: Json, rest: string)
    requires WellFormed(v) && Ends(v, rest)
    ensures ParseValue(Put(v, rest)) == Some((v, rest))
    decreases v, 1
  {
    match v
    case JNum(lexeme) =>
      var s := lexeme + rest;
      NumLengthOf(lexeme, rest);
      assert s[..|lexeme|] == lexeme && s[|lexeme|..] == rest && s[0] == lexeme[0];
    case JStr(text) =>
      var s := PutEscaped(text, ['"'] + rest);
      ParseQuoted(text, rest);
      assert (['"'] + s)[1..] == s;
    case JArr(items) =>
      var s := PutItems(items, [']'] + rest);
      assert (['['] + s)[1..] == s;
      if items == NoItem {
        assert (['['] + s)[2..] == rest;
      } else {
        PutItemsHead(items, [']'] + rest);
        ParsePutItems(items, rest);
      }
    case JObj(fields) =>
      var s := PutFields(fields, ['}'] + rest);
      assert (['{'] + s)[1..] == s;
      if fields == NoField {
        assert (['{'] + s)[2..] == rest;
      } else {
        ParsePutFields(fields, rest);
      }
    case _ =>
      var s := Print(v) + rest;
      assert s[|Print(v)|..] == rest && s[0] == Print(v)[0] && s[..|Print(v)|] == Print(v);
  }

  lemma PutItemsHead(items: Items, rest: string)
    requires items.Item? && WellFormedItems(items)
    ensures PutItems(items, rest) != "" && PutItems(items, rest)[0] != ']'
  {
    var after := if items.tail == NoItem then rest else [','] + PutItems(items.tail, rest);
    assert PutItems(items, rest) == Put(items.head, after);
  }

  lemma {:induction false} ParsePutItems(items: Items, rest: string)
    requires items.Item? && WellFormedItems(items)
    ensures ParseItems(PutItems(items, [']'] + rest)) == Some((items, rest))
    decreases items, 0
  {
    if items.tail == NoItem {
      ParsePut(items.head, [']'] + rest);
      assert ([']'] + rest)[1..] == rest;
    } else {
      var tail := PutItems(items.tail, [']'] + rest);
      ParsePut(items.head, [','] + tail);
      ParsePutItems(items.tail, rest);
      assert ([','] + tail)[1..] == tail;
    }
  }

  lemma {:induction false} ParsePutFields(fields: Fields, rest: string)
    requires fields.Field? && WellFormedFields(fields)
    ensures ParseFields(PutFields(fields, ['}'] + rest)) == Some((fields, rest))
    decreases fields, 0
  {
    var last := fields.rest == NoField;
    var tail := if last then "" else PutFields(fields.rest, ['}'] + rest);
    var after := if last then ['}'] + rest else [','] + tail;
    var value := Put(fields.value, after);
    assert PutFields(fields, ['}'] + rest) == PutQuoted(fields.key, [':'] + value);
    ParseKey(fields.key, [':'] + value);
    assert ([':'] + value)[1..] == value;
    ParsePut(fields.value, after);
    if last {
      assert after[1..] == rest;
    } else {
      assert after[1..] == tail;
      ParsePutFields(fields.rest, rest);
    }
  }

  lemma ParseKey(key: string, rest: string)
    ensures PutQuoted(key, rest)[0] == '"'
    ensures ParseText(PutQuoted(key, rest)[1..]) == Some((key, rest))
  {
    ParseQuoted(key, rest);
    assert PutQuoted(key, rest)[1..] == PutEscaped(key, ['"'] + rest);
  }

  lemma ParsePrint(v: Json)
    requires WellFormed(v)
    ensures Parse(Print(v)) == Some(v)
  {
    ParsePut(v, "");
    PutIs(v, "");
    assert Print(v) + "" == Print(v);
  }

  /** Nothing may follow the value. */
  lemma TrailingRejected(v: Json, rest: string)
    requires WellFormed(v) && !v.JNum? && rest != ""
    ensures Parse(Print(v) + rest).None?
  {
    ParsePut(v, rest);
    PutIs(v, rest);
  }

  /** Two values with the same canonical text are the same value, so a digest of the
      text binds the value. */
  lemma PrintInjective(v: Json, w: Json)
    requires WellFormed(v) && WellFormed(w)
    requires Print(v) == Print(w)
    ensures v == w
  {
    ParsePrint(v);
    ParsePrint(w);
  }

  // ---------- lengths and framing ----------

  lemma EscapeCharNoNewline(c: char)
    ensures '\n' !in EscapeChar(c)
  {
    var n := c as int;
    if n < 32 && |EscapeChar(c)| == 6 {
      assert HexDigit(n / 16) != '\n' && HexDigit(n % 16) != '\n';
    }
  }

  lemma NotInEither(s: string, t: string)
    requires '\n' !in s && '\n' !in t
    ensures '\n' !in s + t
  {
  }

  lemma {:induction false} EscapeNoNewline(s: string)
    ensures '\n' !in Escape(s)
  {
    if s != "" {
      EscapeNoNewline(s[1..]);
      EscapeCharNoNewline(s[0]);
      NotInEither(EscapeChar(s[0]), Escape(s[1..]));
    }
  }

  lemma LexemeNoNewline(s: string)
    requires IsLexeme(s)
    ensures '\n' !in s
  {
  }

  /** Canonical text never contains a newline, so one newline ends a frame. */
  lemma {:induction false} PrintNoNewline(v: Json)
    requires WellFormed(v)
    ensures '\n' !in Print(v)
    decreases v
  {
    match v
    case JNum(lexeme) => LexemeNoNewline(lexeme);
    case JStr(text) => EscapeNoNewline(text);
    case JArr(items) => ItemsNoNewline(items);
    case JObj(fields) => FieldsNoNewline(fields);
    case _ =>
  }

  lemma {:induction false} ItemsNoNewline(items: Items)
    requires WellFormedItems(items)
    ensures '\n' !in PrintItems(items, Compact)
    decreases items
  {
    if items.Item? {
      PrintNoNewline(items.head);
      ItemsNoNewline(items.tail);
    }
  }

  lemma {:induction false} FieldsNoNewline(fields: Fields)
    requires WellFormedFields(fields)
    ensures '\n' !in PrintFields(fields, Compact)
    decreases fields
  {
    if fields.Field? {
      EscapeNoNewline(fields.key);
      PrintNoNewline(fields.value);
      FieldsNoNewline(fields.rest);
    }
  }

  // ---------- dictionaries ----------

  function Lookup(fields: Fields, key: string): Option<Json> {
    match fields
    case NoField => None
    case Field(k, v, rest) => if k == key then Some(v) else Lookup(rest, key)
  }

  function Without(fields: Fields, key: string): Fields {
    match fields
    case NoField => NoField
    case Field(k, v, rest) => if k == key then Without(rest, key) else Field(k, v, Without(rest, key))
  }

  function Keys(fields: Fields): set<string> {
    match fields
    case NoField => {}
    case Field(k, _, rest) => {k} + Keys(rest)
  }
}
