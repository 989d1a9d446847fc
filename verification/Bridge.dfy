/** `InvocationBridge`: issues HMAC credentials and verifies each at most once.
    The MAC and the digest are parameters; nothing is assumed of them but their output shape. */
module Bridge {
  import opened Wrappers
  import opened Utf8
  import opened Json
  import opened Tokens

  type Secret = seq<Byte>

  datatype Crypto = Crypto(mac: (Secret, string) -> seq<Byte>, sha: string -> string)

  predicate IsHex(s: string) { forall i :: 0 <= i < |s| ==> '0' <= s[i] <= '9' || 'a' <= s[i] <= 'f' }

  /** HMAC-SHA-256 gives 32 bytes and a SHA-256 hex digest is 64 lowercase characters. */
  ghost predicate WellShaped(c: Crypto) {
    (forall k, m :: |c.mac(k, m)| == 32) && (forall t :: |c.sha(t)| == 64 && IsHex(c.sha(t)))
  }

  datatype Identity = Identity(sessionId: string, callId: string, bridgeId: string, argsSha: string, nonce: string)

  datatype BridgeState = BridgeState(secret: Secret, bridgeId: string, consumed: set<string>)

  predicate IsBoundedText(s: string) { s != "" && |s| <= IDENTITY_MAX_CHARS && '\0' !in s }

  function InvocationJson(operation: string, arguments: Json): (v: Json)
    ensures WellFormed(arguments) ==> WellFormed(v)
  {
    JObj(Field("arguments", arguments, TextField("operation", operation, NoField)))
  }

  /** `invocation_digest`. */
  function InvocationDigest(c: Crypto, operation: string, arguments: Json): Result<string, Code> {
    if operation == "" || !arguments.JObj? then Err(InvocationInvalid)
    else Ok(c.sha(Print(InvocationJson(operation, arguments))))
  }

  // ---------- issue ----------

  function IssuedPayload(c: Crypto, b: BridgeState, session: string, call: string, sha: string, now: int, nonce: string)
    : Payload
  {
    Payload(b.bridgeId, session, call, sha, nonce, now, now + TTL_SECONDS)
  }

  function TokenFor(c: Crypto, secret: Secret, p: Payload): string {
    Assemble(PayloadSegment(p), c.mac(secret, MacInput(PayloadSegment(p))))
  }

  /** `now` is `int(clock())` and `nonce` the fresh `token_hex(16)`. */
  function Issue(c: Crypto, b: BridgeState, session: string, call: string, operation: string, arguments: Json,
                 now: int, nonce: string): Result<string, Code>
  {
    if !IsBoundedText(session) || !IsBoundedText(call) then Err(TokenIdentityInvalid)
    else
      var sha :- InvocationDigest(c, operation, arguments);
      var token := TokenFor(c, b.secret, IssuedPayload(c, b, session, call, sha, now, nonce));
      if |Utf8.Encode(token)| > TOKEN_MAX_BYTES then Err(TokenTooLarge) else Ok(token)
  }

  // ---------- verify, first critical section ----------

  /** A verify call between its two critical sections: the epoch it read and the segment
      whose MAC it checked under that epoch's secret. */
  datatype Pending = Pending(bridgeId: string, segment: string)

  function CheckMac(c: Crypto, b: BridgeState, token: string): Result<Pending, Code> {
    var parts := Split(token);
    if |Utf8.Encode(token)| > TOKEN_MAX_BYTES then Err(TokenMalformed)
    else if |parts| != 3 || parts[0] != TOKEN_PREFIX then Err(TokenMalformed)
    else
      match Base64Url.Decode(parts[2])
      case None => Err(TokenMalformed)
      case Some(supplied) =>
        if !IsAscii(parts[1]) then Err(RequestInvalid)
        else if supplied != c.mac(b.secret, MacInput(parts[1])) then Err(TokenForgery)
        else Ok(Pending(b.bridgeId, parts[1]))
  }

  /** The token reads `aota-bridge-v1.<segment>.<mac>`, and neither part has a dot in it. */
  ghost predicate Carries(token: string, segment: string, mac: string) {
    '.' !in segment && '.' !in mac && token == "aota-bridge-v1." + segment + "." + mac
  }

  /** A token within the size bound, made of three such parts, whose last part is base64url. */
  ghost predicate Presents(token: string, segment: string, mac: seq<Byte>) {
    |Utf8.Encode(token)| <= 4096 && exists text :: Carries(token, segment, text) && Base64Url.Decode(text) == Some(mac)
  }

  /** The MAC an epoch's bridge puts on a segment. */
  ghost function Seal(c: Crypto, secret: Secret, segment: string): seq<Byte> {
    c.mac(secret, "aota-bridge-v1." + segment)
  }

  lemma SplitCarries(token: string, segment: string, mac: string)
    ensures Split(token) == [TOKEN_PREFIX, segment, mac] <==> Carries(token, segment, mac)
  {
    SplitThreeExact(token, TOKEN_PREFIX, segment, mac);
    assert '.' !in TOKEN_PREFIX;
    assert TOKEN_PREFIX + "." + segment + "." + mac == "aota-bridge-v1." + segment + "." + mac;
  }

  /** Whoever presents a token, the first section lets a segment through if and only if it comes
      with its MAC under the secret of the epoch in force; it then passes on exactly this segment
      with this epoch's id. */
  lemma CheckMacExact(c: Crypto, b: BridgeState, token: string, pending: Pending)
    ensures CheckMac(c, b, token) == Ok(pending) <==>
              && pending.bridgeId == b.bridgeId && IsAscii(pending.segment)
              && Presents(token, pending.segment, Seal(c, b.secret, pending.segment))
  {
    var parts := Split(token);
    SealIs(c, b.secret, pending.segment);
    if |parts| == 3 && parts[0] == TOKEN_PREFIX {
      assert parts == [TOKEN_PREFIX, parts[1], parts[2]];
      SplitCarries(token, parts[1], parts[2]);
      SealIs(c, b.secret, parts[1]);
    }
    forall text | Carries(token, pending.segment, text) ensures parts == [TOKEN_PREFIX, pending.segment, text] {
      SplitCarries(token, pending.segment, text);
    }
  }

  lemma SealIs(c: Crypto, secret: Secret, segment: string)
    ensures c.mac(secret, MacInput(segment)) == Seal(c, secret, segment)
  {
    assert TOKEN_PREFIX + "." + segment == "aota-bridge-v1." + segment;
  }

  /** What a refused token is told: a wrong MAC over a segment is a forgery, a segment that is not
      ASCII an invalid request, and anything that does not have the form is malformed. */
  lemma CheckMacRefuses(c: Crypto, b: BridgeState, token: string)
    ensures CheckMac(c, b, token) == Err(TokenForgery) <==>
              exists segment, mac ::
                IsAscii(segment) && Presents(token, segment, mac) && mac != Seal(c, b.secret, segment)
    ensures CheckMac(c, b, token) == Err(RequestInvalid) <==>
              exists segment, mac :: !IsAscii(segment) && Presents(token, segment, mac)
    ensures CheckMac(c, b, token) == Err(TokenMalformed) <==> forall segment, mac :: !Presents(token, segment, mac)
  {
    var parts := Split(token);
    forall segment, mac | Presents(token, segment, mac)
      ensures |parts| == 3 && parts[0] == TOKEN_PREFIX && parts[1] == segment && Base64Url.Decode(parts[2]) == Some(mac)
      ensures c.mac(b.secret, MacInput(segment)) == Seal(c, b.secret, segment)
    {
      var text :| Carries(token, segment, text) && Base64Url.Decode(text) == Some(mac);
      SplitCarries(token, segment, text);
      SealIs(c, b.secret, segment);
    }
    if |parts| == 3 && parts[0] == TOKEN_PREFIX && |Utf8.Encode(token)| <= 4096 && Base64Url.Decode(parts[2]).Some? {
      assert parts == [TOKEN_PREFIX, parts[1], parts[2]];
      SplitCarries(token, parts[1], parts[2]);
      assert Presents(token, parts[1], Base64Url.Decode(parts[2]).value);
    }
  }

  // ---------- verify, between the sections ----------

  /** What a verify call was asked to accept. */
  datatype Request = Request(
    operation: string, arguments: Json, expectedSession: Option<string>, expectedCall: Option<string>)

  function PayloadObject(segment: string): Result<Fields, Code> {
    match Base64Url.Decode(segment)
    case None => Err(TokenMalformed)
    case Some(raw) =>
      match Utf8.Decode(raw)
      case None => Err(TokenMalformed)
      case Some(text) =>
        match Parse(text)
        case Some(JObj(fields)) => if Keys(fields) == PAYLOAD_KEYS then Ok(fields) else Err(TokenMalformed)
        case _ => Err(TokenMalformed)
  }

  /** What compares equal to the number 1: the integer, the float and `true`. */
  predicate IsOne(v: Option<Json>) {
    v == Some(JNum("1")) || v == Some(JNum("1.0")) || v == Some(JBool(true))
  }

  /** Header, epoch, identity, digest and nonce shape, in the order the code checks them. */
  function CheckIdentity(fields: Fields, bridgeId: string): Result<Identity, Code> {
    var session := TextOf(Lookup(fields, "session_id"));
    var call := TextOf(Lookup(fields, "call_id"));
    var sha := TextOf(Lookup(fields, "args_sha256"));
    var nonce := TextOf(Lookup(fields, "nonce"));
    if !IsOne(Lookup(fields, "v")) then Err(TokenAudienceDenied)
    else if Lookup(fields, "iss") != Some(JStr(ISSUER)) || Lookup(fields, "aud") != Some(JStr(AUDIENCE)) then
      Err(TokenAudienceDenied)
    else if Lookup(fields, "bridge_id") != Some(JStr(bridgeId)) then Err(TokenEpochStale)
    else if session.None? || !IsBoundedText(session.value) then Err(TokenIdentityInvalid)
    else if call.None? || !IsBoundedText(call.value) then Err(TokenIdentityInvalid)
    else if Lookup(fields, "tool") != Some(JStr(TOOL)) then Err(TokenToolMismatch)
    else if sha.None? || |sha.value| != 64 || !IsHex(sha.value) then Err(TokenMalformed)
    else if nonce.None? || |nonce.value| != 32 || !IsHex(nonce.value) then Err(TokenMalformed)
    else Ok(Identity(session.value, call.value, bridgeId, sha.value, nonce.value))
  }

  function CheckTimes(fields: Fields, now: int): Option<Code> {
    match (IntOf(Lookup(fields, "iat")), IntOf(Lookup(fields, "exp")))
    case (Some(iat), Some(exp)) =>
      if exp > iat + TTL_SECONDS then Some(TokenMalformed)
      else if now < iat - SKEW_SECONDS || now > exp + SKEW_SECONDS then Some(TokenExpired)
      else None
    case _ => Some(TokenMalformed)
  }

  function CheckRequest(c: Crypto, identity: Identity, request: Request): Result<Identity, Code> {
    if request.expectedSession.Some? && identity.sessionId != request.expectedSession.value then
      Err(TokenSessionMismatch)
    else if request.expectedCall.Some? && identity.callId != request.expectedCall.value then
      Err(TokenCallMismatch)
    else
      var sha :- InvocationDigest(c, request.operation, request.arguments);
      if sha != identity.argsSha then Err(TokenArgumentMismatch) else Ok(identity)
  }

  function CheckPayload(c: Crypto, pending: Pending, now: int, request: Request): Result<Identity, Code> {
    var fields :- PayloadObject(pending.segment);
    var identity :- CheckIdentity(fields, pending.bridgeId);
    match CheckTimes(fields, now)
    case Some(code) => Err(code)
    case None => CheckRequest(c, identity, request)
  }

  /** What a payload must claim to be accepted in epoch `bridgeId` at clock second `now`. */
  ghost predicate Claims(fields: Fields, bridgeId: string, now: int, id: Identity) {
    && IsOne(Lookup(fields, "v"))
    && Lookup(fields, "iss") == Some(JStr(ISSUER)) && Lookup(fields, "aud") == Some(JStr(AUDIENCE))
    && Lookup(fields, "tool") == Some(JStr(TOOL)) && Lookup(fields, "bridge_id") == Some(JStr(bridgeId))
    && ClaimsIdentity(fields, id) && id.bridgeId == bridgeId && ClaimsTimes(fields, now)
  }

  ghost predicate ClaimsIdentity(fields: Fields, id: Identity) {
    && Lookup(fields, "session_id") == Some(JStr(id.sessionId)) && IsBoundedText(id.sessionId)
    && Lookup(fields, "call_id") == Some(JStr(id.callId)) && IsBoundedText(id.callId)
    && Lookup(fields, "args_sha256") == Some(JStr(id.argsSha)) && |id.argsSha| == 64 && IsHex(id.argsSha)
    && Lookup(fields, "nonce") == Some(JStr(id.nonce)) && |id.nonce| == 32 && IsHex(id.nonce)
  }

  /** A lifetime of at most ten seconds, with the clock inside it up to two seconds of skew. */
  ghost predicate ClaimsTimes(fields: Fields, now: int) {
    var iat, exp := IntOf(Lookup(fields, "iat")), IntOf(Lookup(fields, "exp"));
    iat.Some? && exp.Some? && exp.value <= iat.value + 10 && iat.value - 2 <= now <= exp.value + 2
  }

  lemma CheckTimesExact(fields: Fields, now: int)
    ensures CheckTimes(fields, now).None? <==> ClaimsTimes(fields, now)
  {
  }

  lemma CheckIdentityExact(fields: Fields, bridgeId: string, now: int, id: Identity)
    requires ClaimsTimes(fields, now)
    ensures CheckIdentity(fields, bridgeId) == Ok(id) <==> Claims(fields, bridgeId, now, id)
  {
  }

  /** For any payload whatever, issued or not: it is accepted between the sections, as identity
      `id`, if and only if it decodes to exactly the payload fields, claims `id` in the epoch the
      first section read, inside its time window, and the request matches. */
  lemma CheckPayloadExact(c: Crypto, pending: Pending, now: int, request: Request, id: Identity)
    ensures CheckPayload(c, pending, now, request) == Ok(id) <==>
              && PayloadObject(pending.segment).Ok?
              && Claims(PayloadObject(pending.segment).value, pending.bridgeId, now, id)
              && Matches(c, id, request)
  {
    var fields := PayloadObject(pending.segment);
    if fields.Ok? {
      CheckTimesExact(fields.value, now);
      if ClaimsTimes(fields.value, now) {
        CheckIdentityExact(fields.value, pending.bridgeId, now, id);
        var identity := CheckIdentity(fields.value, pending.bridgeId);
        if identity.Ok? { CheckRequestExact(c, identity.value, request); }
      }
    }
  }

  /** What a request must say for a credential of `identity` to be accepted for it. */
  ghost predicate Matches(c: Crypto, identity: Identity, request: Request) {
    && InvocationDigest(c, request.operation, request.arguments) == Ok(identity.argsSha)
    && (request.expectedSession.Some? ==> request.expectedSession.value == identity.sessionId)
    && (request.expectedCall.Some? ==> request.expectedCall.value == identity.callId)
  }

  lemma CheckRequestExact(c: Crypto, identity: Identity, request: Request)
    ensures CheckRequest(c, identity, request).Ok? <==> Matches(c, identity, request)
    ensures CheckRequest(c, identity, request).Ok? ==> CheckRequest(c, identity, request).value == identity
  {
  }

  // ---------- verify, second critical section ----------

  function Commit(b: BridgeState, pending: Pending, identity: Identity): (BridgeState, Result<Identity, Code>) {
    if b.bridgeId != pending.bridgeId then (b, Err(TokenEpochStale))
    else if identity.nonce in b.consumed then (b, Err(TokenReplay))
    else (b.(consumed := b.consumed + {identity.nonce}), Ok(identity))
  }

  /** A verify call that nothing interrupts. */
  function Verify(c: Crypto, b: BridgeState, token: string, now: int, request: Request)
    : (BridgeState, Result<Identity, Code>)
  {
    match CheckMac(c, b, token)
    case Err(code) => (b, Err(code))
    case Ok(pending) =>
      match CheckPayload(c, pending, now, request)
      case Err(code) => (b, Err(code))
      case Ok(identity) => Commit(b, pending, identity)
  }

  // ---------- facts about one credential ----------

  lemma TwoFields(f: Fields)
    requires f.Field? && f.rest.Field?
    ensures Lookup(f, f.key) == Some(f.value)
    ensures f.key != f.rest.key ==> Lookup(f, f.rest.key) == Some(f.rest.value)
    ensures forall k :: k != f.key && k != f.rest.key ==> Lookup(f, k) == Lookup(f.rest.rest, k)
    ensures Keys(f) == {f.key, f.rest.key} + Keys(f.rest.rest)
  {
  }

  ghost predicate ReadsHead(fields: Fields, p: Payload) {
    && Lookup(fields, "args_sha256") == Some(JStr(p.argsSha))
    && Lookup(fields, "aud") == Some(JStr(AUDIENCE))
    && Lookup(fields, "bridge_id") == Some(JStr(p.bridgeId))
    && Lookup(fields, "call_id") == Some(JStr(p.callId))
    && IntOf(Lookup(fields, "exp")) == Some(p.exp)
  }

  ghost predicate ReadsTail(fields: Fields, p: Payload) {
    && IntOf(Lookup(fields, "iat")) == Some(p.iat)
    && Lookup(fields, "iss") == Some(JStr(ISSUER))
    && Lookup(fields, "nonce") == Some(JStr(p.nonce))
    && Lookup(fields, "session_id") == Some(JStr(p.sessionId))
    && Lookup(fields, "tool") == Some(JStr(TOOL))
    && Lookup(fields, "v") == Some(JNum("1"))
  }

  lemma PayloadReadsHead(p: Payload)
    ensures ReadsHead(PayloadFields(p), p)
  {
    var f0 := PayloadFields(p);
    TwoFields(f0);
    TwoFields(f0.rest.rest);
    TwoFields(f0.rest.rest.rest.rest);
    ParseIntText(p.exp);
  }

  ghost function Tail(p: Payload): Fields {
    IntField("iat", p.iat, TextField("iss", ISSUER, TextField("nonce", p.nonce,
    TextField("session_id", p.sessionId, TextField("tool", TOOL, IntField("v", 1, NoField))))))
  }

  lemma TailReads(p: Payload)
    ensures ReadsTail(Tail(p), p)
    ensures Keys(Tail(p)) == {"iat", "iss", "nonce", "session_id", "tool", "v"}
  {
    var f0 := Tail(p);
    TwoFields(f0);
    TwoFields(f0.rest.rest);
    TwoFields(f0.rest.rest.rest.rest);
    assert IntText(1) == "1";
    ParseIntText(p.iat);
  }

  ghost predicate IsTailKey(k: string) {
    k != "args_sha256" && k != "aud" && k != "bridge_id" && k != "call_id" && k != "exp"
  }

  lemma PayloadTail(p: Payload)
    ensures forall k :: IsTailKey(k) ==> Lookup(PayloadFields(p), k) == Lookup(Tail(p), k)
    ensures Keys(PayloadFields(p)) == {"args_sha256", "aud", "bridge_id", "call_id", "exp"} + Keys(Tail(p))
  {
    var f0 := PayloadFields(p);
    TwoFields(f0);
    TwoFields(f0.rest.rest);
    assert f0.rest.rest.rest.rest == IntField("exp", p.exp, Tail(p));
  }

  /** Reading a printed payload's fields back gives the payload. */
  lemma PayloadReads(p: Payload)
    ensures ReadsHead(PayloadFields(p), p) && ReadsTail(PayloadFields(p), p)
    ensures Keys(PayloadFields(p)) == PAYLOAD_KEYS
  {
    PayloadReadsHead(p);
    PayloadTail(p);
    TailReads(p);
    assert IsTailKey("iat") && IsTailKey("iss") && IsTailKey("nonce");
    assert IsTailKey("session_id") && IsTailKey("tool") && IsTailKey("v");
  }

  // ---------- issue, then verify ----------

  function IdentityOf(p: Payload): Identity { Identity(p.sessionId, p.callId, p.bridgeId, p.argsSha, p.nonce) }

  /** A payload `Issue` can have printed. */
  ghost predicate IsIssuable(p: Payload) {
    && IsBoundedText(p.sessionId) && IsBoundedText(p.callId)
    && |p.argsSha| == 64 && IsHex(p.argsSha) && |p.nonce| == 32 && IsHex(p.nonce)
    && p.exp == p.iat + TTL_SECONDS
    && |PayloadSegment(p)| <= Base64Url.MAX_CHARS
  }

  predicate InWindow(iat: int, now: int) { iat - SKEW_SECONDS <= now <= iat + TTL_SECONDS + SKEW_SECONDS }

  lemma CheckIssuedObject(p: Payload)
    requires IsIssuable(p)
    ensures PayloadObject(PayloadSegment(p)) == Ok(PayloadFields(p))
  {
    SegmentDecodes(p);
    PayloadReads(p);
  }

  /** Fields that read as an issuable payload pass exactly in that payload's epoch. */
  lemma CheckFields(fields: Fields, p: Payload, bridgeId: string)
    requires IsIssuable(p) && ReadsHead(fields, p) && ReadsTail(fields, p)
    ensures CheckIdentity(fields, bridgeId)
         == if bridgeId == p.bridgeId then Ok(IdentityOf(p)) else Err(TokenEpochStale)
  {
  }

  /** Between the sections an issued payload can only fail on time, epoch or the request. */
  lemma CheckIssuedPayload(c: Crypto, p: Payload, bridgeId: string, now: int, request: Request)
    requires IsIssuable(p)
    ensures CheckPayload(c, Pending(bridgeId, PayloadSegment(p)), now, request)
         == if p.bridgeId != bridgeId then Err(TokenEpochStale)
            else if !InWindow(p.iat, now) then Err(TokenExpired)
            else CheckRequest(c, IdentityOf(p), request)
  {
    CheckIssuedObject(p);
    PayloadReads(p);
    CheckFields(PayloadFields(p), p, bridgeId);
  }

  /** A token of at most 4096 bytes passes the MAC phase in any state with the same secret. */
  lemma CheckIssuedMac(c: Crypto, b: BridgeState, p: Payload)
    requires WellShaped(c) && |Utf8.Encode(TokenFor(c, b.secret, p))| <= TOKEN_MAX_BYTES
    ensures Split(TokenFor(c, b.secret, p))
         == [TOKEN_PREFIX, PayloadSegment(p), Base64Url.Encode(c.mac(b.secret, MacInput(PayloadSegment(p))))]
    ensures CheckMac(c, b, TokenFor(c, b.secret, p)) == Ok(Pending(b.bridgeId, PayloadSegment(p)))
    ensures |PayloadSegment(p)| <= Base64Url.MAX_CHARS
  {
    var segment := PayloadSegment(p);
    var mac := c.mac(b.secret, MacInput(segment));
    var token := Assemble(segment, mac);
    Base64Url.EncodeShape(Utf8.Encode(Print(JObj(PayloadFields(p)))));
    Base64Url.EncodeShape(mac);
    Base64Url.UrlTextIsAscii(segment);
    SplitAssembled(segment, mac);
    Utf8.EncodeAscii(token);
    Base64Url.DecodeEncode(mac);
  }

  lemma IssuedIsIssuable(c: Crypto, b: BridgeState, session: string, call: string, operation: string,
                         arguments: Json, now: int, nonce: string)
    requires WellShaped(c) && |nonce| == 32 && IsHex(nonce)
    requires Issue(c, b, session, call, operation, arguments, now, nonce).Ok?
    ensures var sha := InvocationDigest(c, operation, arguments);
            sha.Ok? && var p := IssuedPayload(c, b, session, call, sha.value, now, nonce);
            IsIssuable(p)
            && Issue(c, b, session, call, operation, arguments, now, nonce) == Ok(TokenFor(c, b.secret, p))
            && |Utf8.Encode(TokenFor(c, b.secret, p))| <= TOKEN_MAX_BYTES
  {
    var sha := InvocationDigest(c, operation, arguments).value;
    CheckIssuedMac(c, b, IssuedPayload(c, b, session, call, sha, now, nonce));
  }

  lemma VerifyIssued(c: Crypto, b: BridgeState, p: Payload, now: int, request: Request)
    requires WellShaped(c) && IsIssuable(p) && p.bridgeId == b.bridgeId
    requires |Utf8.Encode(TokenFor(c, b.secret, p))| <= TOKEN_MAX_BYTES
    ensures Verify(c, b, TokenFor(c, b.secret, p), now, request)
         == if !InWindow(p.iat, now) then (b, Err(TokenExpired))
            else match CheckRequest(c, IdentityOf(p), request)
                 case Err(code) => (b, Err(code))
                 case Ok(identity) => Commit(b, Pending(b.bridgeId, PayloadSegment(p)), identity)
  {
    CheckIssuedMac(c, b, p);
    CheckIssuedPayload(c, p, b.bridgeId, now, request);
  }

  lemma VerifyExact(c: Crypto, b: BridgeState, p: Payload, now: int, request: Request)
    requires WellShaped(c) && IsIssuable(p) && p.bridgeId == b.bridgeId
    requires |Utf8.Encode(TokenFor(c, b.secret, p))| <= TOKEN_MAX_BYTES
    ensures var (after, outcome) := Verify(c, b, TokenFor(c, b.secret, p), now, request);
            && (outcome.Ok? <==> p.nonce !in b.consumed && InWindow(p.iat, now) && Matches(c, IdentityOf(p), request))
            && (outcome.Ok? ==> outcome.value == IdentityOf(p) && after == b.(consumed := b.consumed + {p.nonce}))
            && (outcome.Err? ==> after == b)
  {
    VerifyIssued(c, b, p, now, request);
    CheckRequestExact(c, IdentityOf(p), request);
  }

  /** The round trip, exactly: in the epoch it was issued in, a credential verifies if and only
      if its nonce is unconsumed, the clock second lies in [iat - 2, iat + 12], and the request
      has the digest, session and call it was issued for; it then yields exactly the issued
      identity and consumes exactly its nonce.  Otherwise nothing changes. */
  lemma IssueThenVerify(c: Crypto, b: BridgeState, session: string, call: string, operation: string,
                        arguments: Json, iat: int, nonce: string, later: BridgeState, now: int, request: Request)
    requires WellShaped(c) && |nonce| == 32 && IsHex(nonce)
    requires Issue(c, b, session, call, operation, arguments, iat, nonce).Ok?
    requires later.secret == b.secret && later.bridgeId == b.bridgeId
    ensures var token := Issue(c, b, session, call, operation, arguments, iat, nonce).value;
            var sha := InvocationDigest(c, operation, arguments).value;
            var (after, outcome) := Verify(c, later, token, now, request);
            && |Split(token)| == 3
            && (outcome.Ok? <==>
                 nonce !in later.consumed && InWindow(iat, now)
                 && Matches(c, Identity(session, call, b.bridgeId, sha, nonce), request))
            && (outcome.Ok? ==> outcome.value == Identity(session, call, b.bridgeId, sha, nonce)
                                && after == later.(consumed := later.consumed + {nonce}))
            && (outcome.Err? ==> after == later)
  {
    IssuedIsIssuable(c, b, session, call, operation, arguments, iat, nonce);
    var sha := InvocationDigest(c, operation, arguments).value;
    var p := IssuedPayload(c, b, session, call, sha, iat, nonce);
    CheckIssuedMac(c, later, p);
    VerifyExact(c, later, p, now, request);
  }

  /** Two different texts with one digest. */
  ghost predicate Collision(c: Crypto, s: string, t: string) { s != t && c.sha(s) == c.sha(t) }

  function InvocationText(operation: string, arguments: Json): string { Print(InvocationJson(operation, arguments)) }

  /** Equal digests mean the same operation and the same arguments, or exhibit a collision. */
  lemma DigestBinds(c: Crypto, operation: string, arguments: Json, operation': string, arguments': Json)
    requires WellFormed(arguments) && WellFormed(arguments')
    requires InvocationDigest(c, operation, arguments).Ok?
    requires InvocationDigest(c, operation, arguments) == InvocationDigest(c, operation', arguments')
    ensures (operation == operation' && arguments == arguments')
            || Collision(c, InvocationText(operation, arguments), InvocationText(operation', arguments'))
  {
    if InvocationText(operation, arguments) == InvocationText(operation', arguments') {
      var v, w := InvocationJson(operation, arguments), InvocationJson(operation', arguments');
      PrintInjective(v, w);
      assert v.fields.value == w.fields.value && v.fields.rest.value == w.fields.rest.value;
    }
  }

  // ---------- the object ----------

  class InvocationBridge {
    const crypto: Crypto
    var secret: Secret
    var bridgeId: string
    var consumed: set<string>

    function View(): BridgeState
      reads this
    {
      BridgeState(secret, bridgeId, consumed)
    }

    constructor (crypto: Crypto, secret: Secret, bridgeId: string)
      ensures this.crypto == crypto && View() == BridgeState(secret, bridgeId, {})
    {
      this.crypto, this.secret, this.bridgeId, this.consumed := crypto, secret, bridgeId, {};
    }

    /** Starts a new epoch with freshly drawn values. */
    method Rotate(freshSecret: Secret, freshId: string) returns (id: string)
      modifies this
      ensures View() == BridgeState(freshSecret, freshId, {}) && id == freshId
    {
      secret := freshSecret;
      bridgeId := freshId;
      consumed := {};
      id := bridgeId;
    }

    method IssueToken(session: string, call: string, operation: string, arguments: Json, now: int, nonce: string)
      returns (r: Result<string, Code>)
      ensures r == Issue(crypto, View(), session, call, operation, arguments, now, nonce)
    {
      if !IsBoundedText(session) || !IsBoundedText(call) { return Err(TokenIdentityInvalid); }
      var digest := InvocationDigest(crypto, operation, arguments);
      if digest.Err? { return Err(digest.error); }
      var payload := Payload(bridgeId, session, call, digest.value, nonce, now, now + TTL_SECONDS);
      var segment := PayloadSegment(payload);
      var mac := crypto.mac(secret, MacInput(segment));
      var token := Assemble(segment, mac);
      r := if |Utf8.Encode(token)| > TOKEN_MAX_BYTES then Err(TokenTooLarge) else Ok(token);
    }

    /** The first critical section of `verify`. */
    method VerifyMac(token: string) returns (r: Result<Pending, Code>)
      ensures r == CheckMac(crypto, View(), token)
    {
      var parts := Split(token);
      if |Utf8.Encode(token)| > TOKEN_MAX_BYTES { return Err(TokenMalformed); }
      if |parts| != 3 || parts[0] != TOKEN_PREFIX { return Err(TokenMalformed); }
      var supplied := Base64Url.Decode(parts[2]);
      if supplied.None? { return Err(TokenMalformed); }
      if !IsAscii(parts[1]) { return Err(RequestInvalid); }
      if supplied.value != crypto.mac(secret, MacInput(parts[1])) { return Err(TokenForgery); }
      r := Ok(Pending(bridgeId, parts[1]));
    }

    /** The second critical section of `verify`. */
    method VerifyCommit(pending: Pending, identity: Identity) returns (r: Result<Identity, Code>)
      modifies this`consumed
      ensures (View(), r) == Commit(old(View()), pending, identity)
    {
      if bridgeId != pending.bridgeId { return Err(TokenEpochStale); }
      if identity.nonce in consumed { return Err(TokenReplay); }
      consumed := consumed + {identity.nonce};
      r := Ok(identity);
    }

    /** `verify` when no other thread runs between its sections. */
    method VerifyToken(token: string, now: int, request: Request) returns (r: Result<Identity, Code>)
      modifies this`consumed
      ensures (View(), r) == Verify(crypto, old(View()), token, now, request)
    {
      var pending := VerifyMac(token);
      if pending.Err? { return Err(pending.error); }
      var identity := CheckPayload(crypto, pending.value, now, request);
      if identity.Err? { return Err(identity.error); }
      r := VerifyCommit(pending.value, identity.value);
    }
  }
}
