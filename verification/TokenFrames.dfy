/** The credentials the bridge issues, put into the frames that carry them. */
module TokenFrames {
  import opened Json
  import opened Tokens
  import opened Bridge
  import opened Frames

  /** Characters JSON does not escape. */
  predicate IsPlain(s: string) { forall i :: 0 <= i < |s| ==> Base64Url.IsUrlChar(s[i]) || s[i] == '.' }

  lemma {:induction false} PlainEscape(s: string)
    requires IsPlain(s)
    ensures Escape(s) == s
  {
    if s != "" {
      PlainEscape(s[1..]);
      assert s == [s[0]] + s[1..];
    }
  }

  lemma PlainJoin(a: string, b: string, d: string)
    requires IsPlain(a) && Base64Url.IsUrlText(b) && Base64Url.IsUrlText(d)
    ensures IsPlain(a + "." + b + "." + d)
  {
  }

  lemma TokenIsPlain(c: Crypto, secret: Secret, p: Payload)
    ensures IsPlain(TokenFor(c, secret, p))
  {
    var segment := PayloadSegment(p);
    var mac := c.mac(secret, MacInput(segment));
    Base64Url.EncodeShape(Utf8.Encode(Print(JObj(PayloadFields(p)))));
    Base64Url.EncodeShape(mac);
    assert IsPlain(TOKEN_PREFIX);
    PlainJoin(TOKEN_PREFIX, segment, Base64Url.Encode(mac));
  }

  /** Every credential the bridge hands out can be presented: it needs no escaping, so its verify
      frame fits the socket bound for every bounded arguments object and operation name. */
  lemma IssuedTokenFits(c: Crypto, b: BridgeState, session: string, call: string, issued: string, issuedFor: Json,
                        now: int, nonce: string, n: Names, operation: string, arguments: Json)
    requires WellShaped(c) && |nonce| == 32 && IsHex(nonce)
    requires Issue(c, b, session, call, issued, issuedFor, now, nonce).Ok?
    requires Bytes(Escape(operation)) <= OPERATION_MAX_BYTES + 1 && Bounded(arguments)
    ensures var token := Issue(c, b, session, call, issued, issuedFor, now, nonce).value;
            Escape(token) == token && Bytes(Frame(VerifyFields(n, token, operation, arguments))) <= SocketMaxBytes(n)
  {
    IssuedIsIssuable(c, b, session, call, issued, issuedFor, now, nonce);
    var sha := InvocationDigest(c, issued, issuedFor).value;
    var p := IssuedPayload(c, b, session, call, sha, now, nonce);
    TokenIsPlain(c, b.secret, p);
    PlainEscape(TokenFor(c, b.secret, p));
    VerifyFrameFits(n, TokenFor(c, b.secret, p), operation, arguments);
  }
}
