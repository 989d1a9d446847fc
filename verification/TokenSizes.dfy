/** How long a credential is, and so exactly when the bridge can issue one. */
module TokenSizes {
  import opened Wrappers
  import opened Utf8
  import opened Json
  import opened Tokens
  import opened Bridge
  import opened Frames
  import opened TokenFrames

  // ---------- the size of a payload ----------

  lemma PlainBytes(s: string)
    requires IsPlain(s)
    ensures EscapedBytes(s) == |s|
  {
    PlainEscape(s);
    EscapeBytes(s);
    assert IsAscii(s);
    AsciiBytes(s);
  }

  lemma TextBytes(k: string, s: string)
    requires IsPlain(k)
    ensures KeyWeight(k, Compact) + Weight(JStr(s), Compact) == |k| + 5 + EscapedBytes(s)
  {
    PlainBytes(k);
  }

  lemma IntBytes(k: string, n: int)
    requires IsPlain(k)
    ensures KeyWeight(k, Compact) + Weight(JNum(IntText(n)), Compact) == |k| + 3 + |IntText(n)|
  {
    PlainBytes(k);
    ParseIntText(n);
    assert IsAscii(IntText(n));
    AsciiBytes(IntText(n));
  }

  /** The words of a payload that are the same in all of them.  Its size is worked out for any. */
  datatype Words = Words(
    argsSha: string, aud: string, bridgeId: string, callId: string, exp: string, iat: string, iss: string,
    nonce: string, sessionId: string, tool: string, v: string, audience: string, issuer: string, name: string)

  const WORDS := Words("args_sha256", "aud", "bridge_id", "call_id", "exp", "iat", "iss", "nonce", "session_id",
                       "tool", "v", AUDIENCE, ISSUER, TOOL)

  ghost function Ends(w: Words): Fields { TextField(w.tool, w.name, IntField(w.v, 1, NoField)) }

  ghost function Back(w: Words, p: Payload): Fields {
    IntField(w.iat, p.iat, TextField(w.iss, w.issuer, TextField(w.nonce, p.nonce,
    TextField(w.sessionId, p.sessionId, Ends(w)))))
  }

  ghost function Front(w: Words, p: Payload): Fields {
    TextField(w.argsSha, p.argsSha, TextField(w.aud, w.audience, TextField(w.bridgeId, p.bridgeId,
    TextField(w.callId, p.callId, IntField(w.exp, p.exp, Back(w, p))))))
  }

  ghost predicate PlainWords(w: Words) {
    && IsPlain(w.argsSha) && IsPlain(w.aud) && IsPlain(w.bridgeId) && IsPlain(w.callId) && IsPlain(w.exp)
    && IsPlain(w.iat) && IsPlain(w.iss) && IsPlain(w.nonce) && IsPlain(w.sessionId) && IsPlain(w.tool)
    && IsPlain(w.v) && IsPlain(w.audience) && IsPlain(w.issuer) && IsPlain(w.name)
  }

  lemma EndsWeight(w: Words)
    requires PlainWords(w)
    ensures FieldsWeight(Ends(w), Compact) == |w.tool| + |w.name| + |w.v| + 10
  {
    FieldsWeightStep(w.tool, JStr(w.name), IntField(w.v, 1, NoField));
    TextBytes(w.tool, w.name);
    PlainBytes(w.name);
    IntBytes(w.v, 1);
    assert |IntText(1)| == 1;
  }

  lemma BackWeight(w: Words, p: Payload)
    requires PlainWords(w)
    ensures FieldsWeight(Back(w, p), Compact)
         == FieldsWeight(Ends(w), Compact) + |w.iat| + |w.iss| + |w.issuer| + |w.nonce| + |w.sessionId| + 22
            + |IntText(p.iat)| + EscapedBytes(p.nonce) + EscapedBytes(p.sessionId)
  {
    FourFieldsWeight(w.iat, JNum(IntText(p.iat)), w.iss, JStr(w.issuer), w.nonce, JStr(p.nonce),
                     TextField(w.sessionId, p.sessionId, Ends(w)));
    FieldsWeightStep(w.sessionId, JStr(p.sessionId), Ends(w));
    IntBytes(w.iat, p.iat);
    TextBytes(w.iss, w.issuer);
    PlainBytes(w.issuer);
    TextBytes(w.nonce, p.nonce);
    TextBytes(w.sessionId, p.sessionId);
  }

  lemma FrontWeight(w: Words, p: Payload)
    requires PlainWords(w)
    ensures FieldsWeight(Front(w, p), Compact)
         == FieldsWeight(Back(w, p), Compact) + |w.argsSha| + |w.aud| + |w.audience| + |w.bridgeId| + |w.callId|
            + |w.exp| + 28 + EscapedBytes(p.argsSha) + EscapedBytes(p.bridgeId) + EscapedBytes(p.callId)
            + |IntText(p.exp)|
  {
    var last := IntField(w.exp, p.exp, Back(w, p));
    FourFieldsWeight(w.argsSha, JStr(p.argsSha), w.aud, JStr(w.audience), w.bridgeId, JStr(p.bridgeId),
                     TextField(w.callId, p.callId, last));
    FieldsWeightStep(w.callId, JStr(p.callId), last);
    FieldsWeightStep(w.exp, JNum(IntText(p.exp)), Back(w, p));
    TextBytes(w.argsSha, p.argsSha);
    TextBytes(w.aud, w.audience);
    PlainBytes(w.audience);
    TextBytes(w.bridgeId, p.bridgeId);
    TextBytes(w.callId, p.callId);
    IntBytes(w.exp, p.exp);
  }

  lemma ShortWords(w: Words)
    requires w == WORDS
    ensures IsPlain(w.aud) && IsPlain(w.exp) && IsPlain(w.iat) && IsPlain(w.iss) && IsPlain(w.nonce) && IsPlain(w.tool)
    ensures |w.aud| == |w.exp| == |w.iat| == |w.iss| == 3 && |w.nonce| == 5 && |w.tool| == 4
    ensures IsPlain(w.v) && |w.v| == 1
  {
  }

  lemma LongWords(w: Words)
    requires w == WORDS
    ensures IsPlain(w.argsSha) && IsPlain(w.bridgeId) && IsPlain(w.callId) && IsPlain(w.sessionId)
    ensures |w.argsSha| == 11 && |w.bridgeId| == 9 && |w.callId| == 7 && |w.sessionId| == 10
  {
  }

  lemma AudienceWord(s: string)
    requires s == AUDIENCE
    ensures IsPlain(s) && |s| == 15
  {
  }

  lemma IssuerWord(s: string)
    requires s == ISSUER
    ensures IsPlain(s) && |s| == 28
  {
  }

  lemma ToolWord(s: string)
    requires s == TOOL
    ensures IsPlain(s) && |s| == 16
  {
  }

  lemma PayloadIsFront(w: Words, p: Payload)
    requires w == WORDS
    ensures PayloadFields(p) == Front(w, p)
  {
  }

  /** What the payload's own texts take, as they are printed. */
  ghost function Filling(p: Payload): nat {
    EscapedBytes(p.argsSha) + EscapedBytes(p.bridgeId) + EscapedBytes(p.callId) + EscapedBytes(p.nonce)
    + EscapedBytes(p.sessionId) + |IntText(p.exp)| + |IntText(p.iat)|
  }

  lemma FrontBytes(w: Words, p: Payload)
    requires PlainWords(w)
    ensures Bytes(Print(JObj(Front(w, p))))
         == 62 + Filling(p) + |w.argsSha| + |w.aud| + |w.audience| + |w.bridgeId| + |w.callId| + |w.exp| + |w.iat|
            + |w.iss| + |w.issuer| + |w.nonce| + |w.sessionId| + |w.tool| + |w.name| + |w.v|
  {
    PrintWeight(JObj(Front(w, p)), Compact);
    EndsWeight(w);
    BackWeight(w, p);
    FrontWeight(w, p);
  }

  lemma PayloadBytes(w: Words, p: Payload)
    requires w == WORDS
    ensures Bytes(Print(JObj(PayloadFields(p)))) == 180 + Filling(p)
  {
    ShortWords(w);
    LongWords(w);
    AudienceWord(w.audience);
    IssuerWord(w.issuer);
    ToolWord(w.name);
    FrontBytes(w, p);
    PayloadIsFront(w, p);
  }

  // ---------- the size of a token ----------

  /** A token takes four characters for every three bytes of its payload, and 59 besides. */
  lemma TokenBytes(c: Crypto, secret: Secret, p: Payload)
    requires WellShaped(c)
    ensures Bytes(TokenFor(c, secret, p)) == 59 + (4 * (180 + Filling(p)) + 2) / 3
  {
    PayloadBytes(WORDS, p);
    AssembledBytes(PayloadSegment(p), c.mac(secret, MacInput(PayloadSegment(p))), Print(JObj(PayloadFields(p))));
  }

  lemma AssembledBytes(segment: string, mac: seq<Byte>, text: string)
    requires segment == Base64Url.Encode(Utf8.Encode(text)) && |mac| == 32
    ensures Bytes(Assemble(segment, mac)) == 59 + (4 * Bytes(text) + 2) / 3
  {
    Base64Url.EncodeShape(Utf8.Encode(text));
    Base64Url.EncodeShape(mac);
    SplitAssembled(segment, mac);
    AsciiBytes(Assemble(segment, mac));
  }

  lemma {:induction false} HexIsPlain(s: string)
    requires IsHex(s)
    ensures IsPlain(s) && EscapedBytes(s) == |s|
  {
    PlainBytes(s);
  }

  /** The bytes the three identities and the two times take in a credential. */
  ghost function IdentityBytes(bridgeId: string, session: string, call: string, now: int): nat {
    EscapedBytes(bridgeId) + EscapedBytes(session) + EscapedBytes(call) + |IntText(now)| + |IntText(now + 10)|
  }

  /** What the identities of a credential must be. */
  ghost predicate IsIdentity(s: string) { 1 <= |s| <= 512 && forall i :: 0 <= i < |s| ==> s[i] != '\0' }

  lemma IdentityIs(s: string)
    ensures IsBoundedText(s) <==> IsIdentity(s)
  {
    assert '\0' in s <==> exists i :: 0 <= i < |s| && s[i] == '\0';
  }

  lemma IssuedBytes(c: Crypto, b: BridgeState, session: string, call: string, sha: string, now: int, nonce: string)
    requires WellShaped(c) && |nonce| == 32 && IsHex(nonce) && |sha| == 64 && IsHex(sha)
    ensures Bytes(TokenFor(c, b.secret, IssuedPayload(c, b, session, call, sha, now, nonce))) <= TOKEN_MAX_BYTES
            <==> IdentityBytes(b.bridgeId, session, call, now) <= 2751
  {
    TokenBytes(c, b.secret, IssuedPayload(c, b, session, call, sha, now, nonce));
    HexIsPlain(sha);
    HexIsPlain(nonce);
  }

  /** Exactly when a credential is issued: both identities are nonempty, free of NUL and at most 512
      characters, the operation is named, the arguments are an object, and the identities and times
      take at most 2751 bytes as they are printed.  Otherwise the first of these that fails gives
      the error. */
  lemma IssueExact(c: Crypto, b: BridgeState, session: string, call: string, operation: string, arguments: Json,
                   now: int, nonce: string)
    requires WellShaped(c) && |nonce| == 32 && IsHex(nonce)
    ensures var r := Issue(c, b, session, call, operation, arguments, now, nonce);
            && (r.Ok? <==>
                  && IsIdentity(session) && IsIdentity(call) && operation != "" && arguments.JObj?
                  && IdentityBytes(b.bridgeId, session, call, now) <= 2751)
            && (r == Err(TokenIdentityInvalid) <==> !IsIdentity(session) || !IsIdentity(call))
            && (r == Err(InvocationInvalid) <==>
                  IsIdentity(session) && IsIdentity(call) && (operation == "" || !arguments.JObj?))
            && (r == Err(TokenTooLarge) <==>
                  && IsIdentity(session) && IsIdentity(call) && operation != "" && arguments.JObj?
                  && IdentityBytes(b.bridgeId, session, call, now) > 2751)
  {
    IdentityIs(session);
    IdentityIs(call);
    var sha := InvocationDigest(c, operation, arguments);
    if sha.Ok? { IssuedBytes(c, b, session, call, sha.value, now, nonce); }
  }

  /** Identities of 512 letters, digits and the like always leave room, for any bridge id of up to
      1707 bytes and any time of up to ten digits. */
  lemma PlainAlwaysIssues(c: Crypto, b: BridgeState, session: string, call: string, operation: string,
                          arguments: Json, now: int, nonce: string)
    requires WellShaped(c) && |nonce| == 32 && IsHex(nonce)
    requires IsIdentity(session) && IsIdentity(call) && IsPlain(session) && IsPlain(call)
    requires operation != "" && arguments.JObj?
    requires EscapedBytes(b.bridgeId) <= 1707 && |IntText(now)| <= 10 && |IntText(now + 10)| <= 10
    ensures Issue(c, b, session, call, operation, arguments, now, nonce).Ok?
  {
    PlainBytes(session);
    PlainBytes(call);
    IssueExact(c, b, session, call, operation, arguments, now, nonce);
  }

  /** Not every pair of admissible identities does: two of 512 characters that take three bytes
      each are refused, whatever else is asked. */
  lemma WideIdentitiesRefused(c: Crypto, b: BridgeState, operation: string, arguments: Json, now: int, nonce: string)
    requires WellShaped(c) && |nonce| == 32 && IsHex(nonce) && operation != "" && arguments.JObj?
    ensures var wide := Repeat('\U{20AC}', 512);
            IsIdentity(wide) && Issue(c, b, wide, wide, operation, arguments, now, nonce) == Err(TokenTooLarge)
  {
    var wide := Repeat('\U{20AC}', 512);
    RepeatBytes('\U{20AC}', 512);
    RepeatIs('\U{20AC}', 512);
    IssueExact(c, b, wide, wide, operation, arguments, now, nonce);
  }

  lemma {:induction false} RepeatIs(c: char, n: nat)
    ensures forall i :: 0 <= i < n ==> Repeat(c, n)[i] == c
  {
    if n > 0 { RepeatIs(c, n - 1); }
  }
}
