/** What a refused credential is told: the checks of a verify and of the carrier, in their order,
    across the functions that make them. */
module BridgeAnswers {
  import opened Wrappers
  import opened Json
  import opened Tokens
  import opened Bridge

  /** `text` is what the segment carries: `fields`, and those are exactly a payload's. */
  ghost predicate Holds(segment: string, text: string, fields: Fields) {
    && Base64Url.Decode(segment) == Some(Utf8.Encode(text)) && Parse(text) == Some(JObj(fields))
    && AreEleven(Keys(fields))
  }

  ghost predicate AreEleven(keys: set<string>) {
    keys == {"v", "iss", "aud", "bridge_id", "session_id", "call_id", "tool", "args_sha256", "nonce", "iat", "exp"}
  }

  lemma PayloadKeys(keys: set<string>)
    ensures AreEleven(keys) <==> keys == PAYLOAD_KEYS
  {
  }

  lemma HeldIsRead(segment: string, text: string, fields: Fields)
    requires Holds(segment, text, fields)
    ensures PayloadObject(segment) == Ok(fields)
  {
    Utf8.DecodeExact(Utf8.Encode(text), text);
    PayloadKeys(Keys(fields));
  }

  lemma ReadIsHeld(segment: string, fields: Fields) returns (text: string)
    requires PayloadObject(segment) == Ok(fields)
    ensures Holds(segment, text, fields)
  {
    var raw := Base64Url.Decode(segment).value;
    text := Utf8.Decode(raw).value;
    Utf8.DecodeExact(raw, text);
    PayloadKeys(Keys(fields));
  }

  /** The segment passes as an object if and only if it is base64url of the one UTF-8 encoding of
      the text of an object with exactly the payload's fields. */
  lemma PayloadObjectExact(segment: string, fields: Fields)
    ensures PayloadObject(segment) == Ok(fields) <==> exists text :: Holds(segment, text, fields)
    ensures PayloadObject(segment).Err? ==> PayloadObject(segment) == Err(TokenMalformed)
  {
    if PayloadObject(segment) == Ok(fields) { var text := ReadIsHeld(segment, fields); }
    forall text | Holds(segment, text, fields) ensures PayloadObject(segment) == Ok(fields) {
      HeldIsRead(segment, text, fields);
    }
  }

  ghost predicate IsBounded(v: Option<Json>) {
    v.Some? && v.value.JStr? && 1 <= |v.value.text| <= 512 && '\0' !in v.value.text
  }

  ghost predicate IsHexOf(v: Option<Json>, n: nat) {
    v.Some? && v.value.JStr? && |v.value.text| == n
    && forall i :: 0 <= i < n ==> v.value.text[i] in "0123456789abcdef"
  }

  /** A number that is an integer; `true` and floats are none. */
  ghost function WholeNumber(v: Option<Json>): Option<int> {
    if v.Some? && v.value.JNum? then ParseInt(v.value.lexeme) else None
  }

  /** The first thing wrong with a payload in epoch `bridgeId` at clock second `now`, before the
      request is looked at. */
  ghost function PayloadCode(fields: Fields, bridgeId: string, now: int): Option<Code> {
    var iat, exp := WholeNumber(Lookup(fields, "iat")), WholeNumber(Lookup(fields, "exp"));
    if Lookup(fields, "v") !in {Some(JNum("1")), Some(JNum("1.0")), Some(JBool(true))} then Some(TokenAudienceDenied)
    else if Lookup(fields, "iss") != Some(JStr("aota.trusted-opencode-plugin")) then Some(TokenAudienceDenied)
    else if Lookup(fields, "aud") != Some(JStr("aota.mcp.verify")) then Some(TokenAudienceDenied)
    else if Lookup(fields, "bridge_id") != Some(JStr(bridgeId)) then Some(TokenEpochStale)
    else if !IsBounded(Lookup(fields, "session_id")) then Some(TokenIdentityInvalid)
    else if !IsBounded(Lookup(fields, "call_id")) then Some(TokenIdentityInvalid)
    else if Lookup(fields, "tool") != Some(JStr("aota_aota_invoke")) then Some(TokenToolMismatch)
    else if !IsHexOf(Lookup(fields, "args_sha256"), 64) then Some(TokenMalformed)
    else if !IsHexOf(Lookup(fields, "nonce"), 32) then Some(TokenMalformed)
    else if iat.None? || exp.None? || exp.value > iat.value + 10 then Some(TokenMalformed)
    else if now < iat.value - 2 || now > exp.value + 2 then Some(TokenExpired)
    else None
  }

  /** The first thing in which the request differs from the payload. */
  ghost function RequestCode(c: Crypto, fields: Fields, request: Request): Option<Code> {
    var invocation := InvocationJson(request.operation, request.arguments);
    if request.expectedSession.Some? && Lookup(fields, "session_id") != Some(JStr(request.expectedSession.value)) then
      Some(TokenSessionMismatch)
    else if request.expectedCall.Some? && Lookup(fields, "call_id") != Some(JStr(request.expectedCall.value)) then
      Some(TokenCallMismatch)
    else if request.operation == "" || !request.arguments.JObj? then Some(InvocationInvalid)
    else if Lookup(fields, "args_sha256") != Some(JStr(c.sha(Print(invocation)))) then Some(TokenArgumentMismatch)
    else None
  }

  lemma TwoFieldText(k: string, v: Json, l: string, w: Json)
    ensures Print(JObj(Field(k, v, Field(l, w, NoField))))
         == "{" + Quote(k) + ":" + Print(v) + "," + Quote(l) + ":" + Print(w) + "}"
  {
    var last := Field(l, w, NoField);
    LastField(l, w);
    FirstField(k, v, last);
    Paste(Quote(k), Print(v), Quote(l), Print(w));
  }

  lemma FirstField(k: string, v: Json, rest: Fields)
    requires rest.Field?
    ensures PrintFields(Field(k, v, rest), Compact) == Quote(k) + ":" + Print(v) + "," + PrintFields(rest, Compact)
  {
  }

  lemma LastField(k: string, v: Json)
    ensures PrintFields(Field(k, v, NoField), Compact) == Quote(k) + ":" + Print(v)
  {
  }

  lemma Paste(a: string, b: string, c: string, d: string)
    ensures "{" + (a + ":" + b + "," + (c + ":" + d)) + "}" == "{" + a + ":" + b + "," + c + ":" + d + "}"
  {
  }

  /** The text under the digest, written out, with its two keys. */
  lemma DigestedText(c: Crypto, operation: string, arguments: Json, k: string, l: string)
    requires operation != "" && arguments.JObj? && k == "arguments" && l == "operation"
    ensures InvocationDigest(c, operation, arguments)
         == Ok(c.sha("{" + Quote(k) + ":" + Print(arguments) + "," + Quote(l) + ":" + Quote(operation) + "}"))
  {
    assert InvocationJson(operation, arguments) == JObj(Field(k, arguments, Field(l, JStr(operation), NoField)));
    TwoFieldText(k, arguments, l, JStr(operation));
    TextText(operation);
  }

  lemma TextText(s: string)
    ensures Print(JStr(s)) == Quote(s)
  {
  }

  lemma HexIs(s: string)
    ensures IsHex(s) <==> forall i :: 0 <= i < |s| ==> s[i] in "0123456789abcdef"
  {
    forall i | 0 <= i < |s| ensures ('0' <= s[i] <= '9' || 'a' <= s[i] <= 'f') <==> s[i] in "0123456789abcdef" {
      HexChar(s[i]);
    }
  }

  lemma HexChar(c: char)
    ensures ('0' <= c <= '9' || 'a' <= c <= 'f') <==> c in "0123456789abcdef"
  {
    var d := "0123456789abcdef";
    if '0' <= c <= '9' { assert d[c as int - 48] == c; }
    if 'a' <= c <= 'f' { assert d[c as int - 87] == c; }
  }

  lemma IdentityAnswers(fields: Fields, bridgeId: string, now: int)
    ensures var r := CheckIdentity(fields, bridgeId);
            var code := if r.Err? then Some(r.error) else CheckTimes(fields, now);
            code == PayloadCode(fields, bridgeId, now)
  {
    var sha, nonce := TextOf(Lookup(fields, "args_sha256")), TextOf(Lookup(fields, "nonce"));
    if sha.Some? { HexIs(sha.value); }
    if nonce.Some? { HexIs(nonce.value); }
  }

  lemma RequestAnswers(c: Crypto, fields: Fields, bridgeId: string, now: int, request: Request)
    requires CheckIdentity(fields, bridgeId).Ok?
    ensures var r := CheckRequest(c, CheckIdentity(fields, bridgeId).value, request);
            (if r.Err? then Some(r.error) else None) == RequestCode(c, fields, request)
  {
  }

  /** Between the sections a verify reports the first check that fails: the payload's form, then
      what it claims, then how the request agrees. */
  lemma PayloadAnswers(c: Crypto, pending: Pending, now: int, request: Request)
    ensures var found := PayloadObject(pending.segment);
            var r := CheckPayload(c, pending, now, request);
            var code := if found.Err? then Some(TokenMalformed)
                        else if PayloadCode(found.value, pending.bridgeId, now).Some? then
                          PayloadCode(found.value, pending.bridgeId, now)
                        else RequestCode(c, found.value, request);
            (if r.Err? then Some(r.error) else None) == code
  {
    var found := PayloadObject(pending.segment);
    if found.Ok? {
      IdentityAnswers(found.value, pending.bridgeId, now);
      if CheckIdentity(found.value, pending.bridgeId).Ok? {
        RequestAnswers(c, found.value, pending.bridgeId, now, request);
      }
    }
  }

  /** The second section refuses an ended epoch first, then a spent nonce; it changes nothing but
      the consumed set, and that only when it accepts. */
  lemma CommitAnswers(b: BridgeState, pending: Pending, identity: Identity)
    ensures var (after, r) := Commit(b, pending, identity);
            && (r == Err(TokenEpochStale) <==> pending.bridgeId != b.bridgeId)
            && (r == Err(TokenReplay) <==> pending.bridgeId == b.bridgeId && identity.nonce in b.consumed)
            && (r == Ok(identity) <==> pending.bridgeId == b.bridgeId && identity.nonce !in b.consumed)
            && after.secret == b.secret && after.bridgeId == b.bridgeId
            && after.consumed == (if r.Ok? then b.consumed + {identity.nonce} else b.consumed)
  {
  }

  // ---------- the carrier ----------

  /** A reserved entry of exactly the right shape. */
  ghost predicate IsCarrier(v: Option<Json>, token: string) {
    && v.Some? && v.value.JObj? && Keys(v.value.fields) == {"schema", "token"} && token != ""
    && Lookup(v.value.fields, "schema") == Some(JStr("aota-bridge-v1"))
    && Lookup(v.value.fields, "token") == Some(JStr(token))
  }

  /** Exactly when a carrier is extracted and what is said otherwise: arguments that are no object
      are invalid, a missing reserved entry (or one that is no object) is a missing token, and an
      entry of any other shape malformed. */
  lemma ExtractAnswers(arguments: Json)
    ensures var r := ExtractCarrier(arguments);
            var entry := if arguments.JObj? then Lookup(arguments.fields, CARRIER_KEY) else None;
            && CARRIER_KEY == "__aota_trusted_invocation"
            && (r == Err(InvocationInvalid) <==> !arguments.JObj?)
            && (r == Err(TokenMissing) <==> arguments.JObj? && (entry.None? || !entry.value.JObj?))
            && (r.Ok? <==> exists token :: IsCarrier(entry, token))
            && (r.Ok? ==> IsCarrier(entry, r.value.1))
            && (r.Err? && r.error != InvocationInvalid && r.error != TokenMissing ==> r.error == TokenMalformed)
  {
    if arguments.JObj? {
      var entry := Lookup(arguments.fields, CARRIER_KEY);
      if ExtractCarrier(arguments).Ok? { assert IsCarrier(entry, ExtractCarrier(arguments).value.1); }
    }
  }
}
