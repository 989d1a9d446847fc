/** The credential's wire form: `aota-bridge-v1.<payload>.<mac>`, where the payload segment
    is base64url of the UTF-8 of a canonical JSON object. */
module Tokens {
  import opened Wrappers
  import opened Utf8
  import opened Json
  import Base64Url

  const TOKEN_PREFIX := "aota-bridge-v1"
  const ISSUER := "aota.trusted-opencode-plugin"
  const AUDIENCE := "aota.mcp.verify"
  const TOOL := "aota_aota_invoke"
  const CARRIER_KEY := "__aota_trusted_invocation"
  const IDENTITY_MAX_CHARS := 512
  const OPERATION_MAX_BYTES := 32
  const TOKEN_MAX_BYTES := 4096
  const TTL_SECONDS := 10
  const SKEW_SECONDS := 2

  // ---------- splitting on dots ----------

  /** `str.split(".")`. */
  function Split(s: string): (r: seq<string>)
    ensures |r| >= 1
  {
    if s == "" then [""]
    else
      var r := Split(s[1..]);
      if s[0] == '.' then [""] + r else [[s[0]] + r[0]] + r[1..]
  }

  lemma {:induction false} SplitDotless(s: string)
    requires '.' !in s
    ensures Split(s) == [s]
  {
    if s != "" {
      SplitDotless(s[1..]);
      assert [s[0]] + s[1..] == s;
    }
  }

  lemma {:induction false} SplitAt(s: string, rest: string)
    requires '.' !in s
    ensures Split(s + "." + rest) == [s] + Split(rest)
  {
    if s == "" {
      assert s + "." + rest == ['.'] + rest;
    } else {
      SplitAt(s[1..], rest);
      assert s + "." + rest == [s[0]] + (s[1..] + "." + rest);
      assert [s[0]] + s[1..] == s;
    }
  }

  /** The parts with dots between them. */
  ghost function Dotted(parts: seq<string>): string
    requires parts != []
  {
    if |parts| == 1 then parts[0] else parts[0] + "." + Dotted(parts[1..])
  }

  /** What a text splits into has no dots, and put together again is the text. */
  lemma {:induction false} SplitDotted(s: string)
    ensures Dotted(Split(s)) == s
    ensures forall k :: 0 <= k < |Split(s)| ==> '.' !in Split(s)[k]
  {
    if s != "" {
      SplitDotted(s[1..]);
      var r := Split(s[1..]);
      assert s == [s[0]] + s[1..];
      if s[0] == '.' { assert Split(s)[1..] == r; } else { assert Split(s)[1..] == r[1..]; }
    }
  }

  lemma SplitThreeExact(s: string, a: string, b: string, c: string)
    ensures Split(s) == [a, b, c] <==>
              '.' !in a && '.' !in b && '.' !in c && s == a + "." + b + "." + c
  {
    if Split(s) == [a, b, c] { SplitIsThree(s, a, b, c); }
    if '.' !in a && '.' !in b && '.' !in c && s == a + "." + b + "." + c {
      assert s == a + "." + (b + "." + c);
      SplitAt(a, b + "." + c);
      SplitAt(b, c);
      SplitDotless(c);
    }
  }

  lemma SplitIsThree(s: string, a: string, b: string, c: string)
    requires Split(s) == [a, b, c]
    ensures '.' !in a && '.' !in b && '.' !in c && s == a + "." + b + "." + c
  {
    SplitDotted(s);
    var parts := Split(s);
    assert parts[0] == a && parts[1] == b && parts[2] == c;
    assert parts[1..] == [b, c] && parts[1..][1..] == [c];
    assert Dotted([c]) == c && Dotted([b, c]) == b + "." + c;
    assert a + "." + (b + "." + c) == a + "." + b + "." + c;
  }

  // ---------- decimal integers ----------

  function Digit(n: int): (c: char)
    requires 0 <= n < 10
    ensures IsNumChar(c) && c != '-' && DigitValue(c) == Some(n)
  {
    ('0' as int + n) as char
  }

  function DigitValue(c: char): Option<int> {
    if '0' <= c <= '9' then Some(c as int - '0' as int) else None
  }

  function NatText(n: nat): (s: string)
    ensures s != ""
  {
    if n < 10 then [Digit(n)] else NatText(n / 10) + [Digit(n % 10)]
  }

  function IntText(n: int): string { if n < 0 then "-" + NatText(-n) else NatText(n) }

  function ParseNat(s: string): Option<int> {
    if s == "" then Some(0)
    else
      var high :- ParseNat(s[..|s| - 1]);
      var low :- DigitValue(s[|s| - 1]);
      Some(high * 10 + low)
  }

  /** The `int` a JSON number text denotes; a fraction or exponent makes it a float. */
  function ParseInt(s: string): Option<int> {
    if s == "" || s == "-" then None
    else if s[0] == '-' then
      var n :- ParseNat(s[1..]);
      Some(-n)
    else ParseNat(s)
  }

  lemma {:induction false} ParseNatText(n: nat)
    ensures ParseNat(NatText(n)) == Some(n)
  {
    var s := NatText(n);
    if n < 10 {
      assert s[..0] == "";
    } else {
      ParseNatText(n / 10);
      assert s[..|s| - 1] == NatText(n / 10);
    }
  }

  lemma {:induction false} NatTextIsLexeme(n: nat)
    ensures IsLexeme(NatText(n)) && NatText(n)[0] != '-'
  {
    if n >= 10 { NatTextIsLexeme(n / 10); }
  }

  lemma ParseIntText(n: int)
    ensures ParseInt(IntText(n)) == Some(n) && IsLexeme(IntText(n))
  {
    var m := if n < 0 then -n else n;
    ParseNatText(m);
    NatTextIsLexeme(m);
    if n < 0 { assert ("-" + NatText(m))[1..] == NatText(m); }
  }

  lemma {:induction false} NatIsDigits(s: string)
    requires ParseNat(s).Some?
    ensures forall i :: 0 <= i < |s| ==> '0' <= s[i] <= '9'
  {
    if s != "" { NatIsDigits(s[..|s| - 1]); }
  }

  /** Only digits behind at most one sign make an integer: a fraction or an exponent does not. */
  lemma IntIsDigits(s: string)
    requires ParseInt(s).Some?
    ensures s != "" && s != "-" && forall i :: 0 <= i < |s| ==> '0' <= s[i] <= '9' || (i == 0 && s[i] == '-')
  {
    if s[0] == '-' {
      NatIsDigits(s[1..]);
      assert forall i :: 1 <= i < |s| ==> s[i] == s[1..][i - 1];
    } else {
      NatIsDigits(s);
    }
  }

  // ---------- payload ----------

  datatype Payload = Payload(
    bridgeId: string, sessionId: string, callId: string, argsSha: string,
    nonce: string, iat: int, exp: int)

  function TextField(key: string, text: string, rest: Fields): (r: Fields)
    ensures WellFormedFields(rest) ==> WellFormedFields(r)
  {
    Field(key, JStr(text), rest)
  }

  function IntField(key: string, n: int, rest: Fields): (r: Fields)
    ensures WellFormedFields(rest) ==> WellFormedFields(r)
  {
    ParseIntText(n);
    Field(key, JNum(IntText(n)), rest)
  }

  function PayloadFields(p: Payload): (r: Fields)
    ensures WellFormedFields(r)
  {
    TextField("args_sha256", p.argsSha,
    TextField("aud", AUDIENCE,
    TextField("bridge_id", p.bridgeId,
    TextField("call_id", p.callId,
    IntField("exp", p.exp,
    IntField("iat", p.iat,
    TextField("iss", ISSUER,
    TextField("nonce", p.nonce,
    TextField("session_id", p.sessionId,
    TextField("tool", TOOL,
    IntField("v", 1, NoField)))))))))))
  }

  const PAYLOAD_KEYS := {"v", "iss", "aud", "bridge_id", "session_id", "call_id", "tool",
                         "args_sha256", "nonce", "iat", "exp"}

  function PayloadSegment(p: Payload): string {
    Base64Url.Encode(Utf8.Encode(Print(JObj(PayloadFields(p)))))
  }

  function TextOf(v: Option<Json>): Option<string> {
    match v
    case Some(JStr(s)) => Some(s)
    case _ => None
  }

  function IntOf(v: Option<Json>): Option<int> {
    match v
    case Some(JNum(s)) => ParseInt(s)
    case _ => None
  }

  /** The message under the MAC. */
  function MacInput(segment: string): string { TOKEN_PREFIX + "." + segment }

  function Assemble(segment: string, mac: seq<Byte>): string {
    TOKEN_PREFIX + "." + segment + "." + Base64Url.Encode(mac)
  }

  /** A payload segment decodes to exactly the object that was printed into it. */
  lemma SegmentDecodes(p: Payload)
    requires |PayloadSegment(p)| <= Base64Url.MAX_CHARS
    ensures var raw := Base64Url.Decode(PayloadSegment(p));
            raw.Some? && var text := Utf8.Decode(raw.value);
            text.Some? && Parse(text.value) == Some(JObj(PayloadFields(p)))
  {
    var text := Print(JObj(PayloadFields(p)));
    ParsePrint(JObj(PayloadFields(p)));
    Utf8.DecodeEncode(text);
    assert Utf8.Encode(text) != [];
    Base64Url.DecodeEncode(Utf8.Encode(text));
  }

  /** Distinct payloads never share a segment, so a MAC of the segment binds the payload. */
  lemma SegmentInjective(p: Payload, q: Payload)
    requires |PayloadSegment(p)| <= Base64Url.MAX_CHARS
    requires PayloadSegment(p) == PayloadSegment(q)
    ensures p == q
  {
    SegmentDecodes(p);
    SegmentDecodes(q);
    ParseIntText(p.iat);
    ParseIntText(p.exp);
    ParseIntText(q.iat);
    ParseIntText(q.exp);
    assert PayloadFields(p) == PayloadFields(q);
    assert PayloadFields(p).rest.rest == PayloadFields(q).rest.rest;
  }

  /** An assembled token splits into exactly the three parts it was assembled from. */
  lemma SplitAssembled(segment: string, mac: seq<Byte>)
    requires Base64Url.IsUrlText(segment)
    ensures Split(Assemble(segment, mac)) == [TOKEN_PREFIX, segment, Base64Url.Encode(mac)]
    ensures IsAscii(Assemble(segment, mac))
  {
    var tail := Base64Url.Encode(mac);
    Base64Url.EncodeShape(mac);
    Base64Url.UrlTextIsAscii(tail);
    Base64Url.UrlTextIsAscii(segment);
    assert '.' !in TOKEN_PREFIX && IsAscii(TOKEN_PREFIX);
    SplitThree(TOKEN_PREFIX, segment, tail);
  }

  lemma SplitThree(a: string, b: string, c: string)
    requires '.' !in a && '.' !in b && '.' !in c
    requires IsAscii(a) && IsAscii(b) && IsAscii(c)
    ensures Split(a + "." + b + "." + c) == [a, b, c]
    ensures IsAscii(a + "." + b + "." + c)
  {
    assert a + "." + b + "." + c == a + "." + (b + "." + c);
    SplitAt(a, b + "." + c);
    SplitAt(b, c);
    SplitDotless(c);
  }

  // ---------- carrier ----------

  /** The bridge's bounded error codes. */
  datatype Code =
    | TokenMissing | TokenMalformed | TokenForgery | TokenAudienceDenied | TokenEpochStale
    | TokenIdentityInvalid | TokenToolMismatch | TokenExpired | TokenSessionMismatch
    | TokenCallMismatch | TokenArgumentMismatch | TokenReplay | TokenTooLarge | InvocationInvalid
    | RequestInvalid  // a ValueError outside the bridge's own codes

  /** `extract_carrier`: the logical arguments without the reserved entry, and its token. */
  function ExtractCarrier(arguments: Json): Result<(Json, string), Code> {
    if !arguments.JObj? then Err(InvocationInvalid)
    else
      match Lookup(arguments.fields, CARRIER_KEY)
      case Some(JObj(carrier)) =>
        if Keys(carrier) != {"schema", "token"} then Err(TokenMalformed)
        else if Lookup(carrier, "schema") != Some(JStr(TOKEN_PREFIX)) then Err(TokenMalformed)
        else
          (match Lookup(carrier, "token")
           case Some(JStr(token)) =>
             if token == "" then Err(TokenMalformed)
             else Ok((JObj(Without(arguments.fields, CARRIER_KEY)), token))
           case _ => Err(TokenMalformed))
      case _ => Err(TokenMissing)
  }

  /** Puts a field where key order places it; an equal key is overwritten. */
  function Insert(fields: Fields, key: string, value: Json): Fields {
    match fields
    case NoField => Field(key, value, NoField)
    case Field(k, v, rest) =>
      if k == key then Field(key, value, rest)
      else if Before(key, k) then Field(key, value, fields)
      else Field(k, v, Insert(rest, key, value))
  }

  /** Python's order on strings, by code point. */
  predicate Before(s: string, t: string) {
    t != "" && (s == "" || s[0] < t[0] || (s[0] == t[0] && Before(s[1..], t[1..])))
  }

  function Carrier(token: string): Json {
    JObj(Field("schema", JStr(TOKEN_PREFIX), Field("token", JStr(token), NoField)))
  }

  /** Carrying a token and extracting it leaves the logical arguments untouched. */
  lemma ExtractInserted(fields: Fields, token: string)
    requires CARRIER_KEY !in Keys(fields) && token != ""
    ensures ExtractCarrier(JObj(Insert(fields, CARRIER_KEY, Carrier(token)))) == Ok((JObj(fields), token))
  {
    InsertLookup(fields, CARRIER_KEY, Carrier(token));
    var carrier := Carrier(token).fields;
    assert Keys(carrier.rest) == {"token"} + Keys(carrier.rest.rest);
    assert Keys(carrier) == {"schema", "token"};
    assert Lookup(carrier, "token") == Some(JStr(token));
  }

  /** Whatever is extracted came from a carrier of exactly the right shape, and everything else
      is passed on as it was. */
  lemma ExtractExact(arguments: Json, logical: Json, token: string)
    requires ExtractCarrier(arguments) == Ok((logical, token))
    ensures arguments.JObj? && logical.JObj? && CARRIER_KEY !in Keys(logical.fields) && token != ""
    ensures forall k :: k != CARRIER_KEY ==> Lookup(logical.fields, k) == Lookup(arguments.fields, k)
    ensures exists carrier :: Lookup(arguments.fields, CARRIER_KEY) == Some(JObj(carrier))
                              && Keys(carrier) == {"schema", "token"} && Lookup(carrier, "token") == Some(JStr(token))
                              && Lookup(carrier, "schema") == Some(JStr(TOKEN_PREFIX))
  {
    WithoutLookup(arguments.fields, CARRIER_KEY);
  }

  lemma {:induction false} WithoutLookup(fields: Fields, key: string)
    ensures key !in Keys(Without(fields, key))
    ensures forall k :: k != key ==> Lookup(Without(fields, key), k) == Lookup(fields, k)
  {
    if fields.Field? { WithoutLookup(fields.rest, key); }
  }

  lemma {:induction false} InsertLookup(fields: Fields, key: string, value: Json)
    requires key !in Keys(fields)
    ensures Lookup(Insert(fields, key, value), key) == Some(value)
    ensures Without(Insert(fields, key, value), key) == fields
  {
    if fields.Field? {
      InsertLookup(fields.rest, key, value);
      WithoutAbsent(fields, key);
    }
  }

  lemma {:induction false} WithoutAbsent(fields: Fields, key: string)
    requires key !in Keys(fields)
    ensures Without(fields, key) == fields
  {
    if fields.Field? { WithoutAbsent(fields.rest, key); }
  }
}
