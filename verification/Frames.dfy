/** The framed IPC between client and bridge: one canonical JSON object and a newline per
    direction, both bounded by BRIDGE_SOCKET_MAX_BYTES. */
module Frames {
  import opened Utf8
  import opened Json
  import opened Tokens

  function Bytes(s: string): nat { |Utf8.Encode(s)| }

  /** The key names and operation tags of the two request frames.  The bound is proved for
      any names; the bridge's are `PROTOCOL`. */
  datatype Names = Names(
    arguments: string, callId: string, op: string, operation: string, sessionId: string, token: string,
    issue: string, verify: string)

  const PROTOCOL :=
    Names("arguments", "call_id", "op", "operation", "session_id", "token", "issue", "verify")

  function IssueFields(n: Names, session: string, call: string, operation: string, arguments: Json): Fields {
    Field(n.arguments, arguments,
    Field(n.callId, JStr(call),
    Field(n.op, JStr(n.issue),
    Field(n.operation, JStr(operation),
    Field(n.sessionId, JStr(session), NoField)))))
  }

  function VerifyFields(n: Names, token: string, operation: string, arguments: Json): Fields {
    Field(n.arguments, arguments,
    Field(n.op, JStr(n.verify),
    Field(n.operation, JStr(operation),
    Field(n.token, JStr(token), NoField))))
  }

  /** The text of one frame. */
  function Frame(fields: Fields): string { Print(JObj(fields)) + "\n" }

  const MAX_TOTAL_INPUT_BYTES := 256 * 1024
  const JSON_BYTES_PER_CHAR := 6
  const EMPTY_ARGUMENTS := JObj(NoField)

  function IssueSkeletonBytes(n: Names): int { Bytes(Frame(IssueFields(n, "", "", "", EMPTY_ARGUMENTS))) }

  function VerifySkeletonBytes(n: Names): int { Bytes(Frame(VerifyFields(n, "", "", EMPTY_ARGUMENTS))) }

  function IssueEnvelopeBytes(n: Names): int {
    IssueSkeletonBytes(n) + 2 * IDENTITY_MAX_CHARS * JSON_BYTES_PER_CHAR
    + OPERATION_MAX_BYTES - Bytes(Print(EMPTY_ARGUMENTS))
  }

  function VerifyEnvelopeBytes(n: Names): int {
    VerifySkeletonBytes(n) + TOKEN_MAX_BYTES + OPERATION_MAX_BYTES - Bytes(Print(EMPTY_ARGUMENTS))
  }

  /** BRIDGE_SOCKET_MAX_BYTES. */
  function SocketMaxBytes(n: Names): int {
    MAX_TOTAL_INPUT_BYTES
    + (if IssueEnvelopeBytes(n) >= VerifyEnvelopeBytes(n) then IssueEnvelopeBytes(n) else VerifyEnvelopeBytes(n))
  }

  // ---------- byte length of printed JSON ----------

  function SeparatorBytes(style: Style): nat { if style == Compact then 1 else 2 }

  function CharBytes(c: char): nat {
    var n := c as int;
    if n < 0x80 then 1 else if n < 0x800 then 2 else if n < 0x1_0000 then 3 else 4
  }

  function EscapedCharBytes(c: char): (n: nat)
    ensures n <= JSON_BYTES_PER_CHAR
  {
    if c == '"' || c == '\\' || c == '\n' || c == '\r' || c == '\t' || c == '\U{8}' || c == '\U{c}' then 2
    else if c as int < 32 then 6
    else CharBytes(c)
  }

  /** Bytes the text takes inside quotes. */
  function EscapedBytes(s: string): (n: nat)
    ensures n <= JSON_BYTES_PER_CHAR * |s|
  {
    if s == "" then 0 else EscapedCharBytes(s[0]) + EscapedBytes(s[1..])
  }

  /** Bytes of the printed value, added up over its parts. */
  function Weight(v: Json, style: Style): nat {
    match v
    case JNull => 4
    case JBool(b) => if b then 4 else 5
    case JNum(lexeme) => Bytes(lexeme)
    case JArr(items) => 2 + ItemsWeight(items, style)
    case JObj(fields) => 2 + FieldsWeight(fields, style)
    case JStr(text) => 2 + EscapedBytes(text)
  }

  function ItemsWeight(items: Items, style: Style): nat {
    match items
    case NoItem => 0
    case Item(v, NoItem) => Weight(v, style)
    case Item(v, tail) => Weight(v, style) + SeparatorBytes(style) + ItemsWeight(tail, style)
  }

  function FieldsWeight(fields: Fields, style: Style): nat {
    match fields
    case NoField => 0
    case Field(k, v, NoField) => KeyWeight(k, style) + Weight(v, style)
    case Field(k, v, rest) => KeyWeight(k, style) + Weight(v, style) + SeparatorBytes(style) + FieldsWeight(rest, style)
  }

  function KeyWeight(key: string, style: Style): nat { 2 + EscapedBytes(key) + SeparatorBytes(style) }

  lemma BytesConcat(s: string, t: string)
    ensures Bytes(s + t) == Bytes(s) + Bytes(t)
  {
    Utf8.EncodeConcat(s, t);
  }

  lemma AsciiBytes(s: string)
    requires IsAscii(s)
    ensures Bytes(s) == |s|
  {
    Utf8.EncodeAscii(s);
  }

  lemma Wrapped(open: string, s: string, close: string)
    requires |open| == 1 && |close| == 1 && IsAscii(open) && IsAscii(close)
    ensures Bytes(open + s + close) == 2 + Bytes(s)
  {
    BytesConcat(open + s, close);
    BytesConcat(open, s);
    AsciiBytes(open);
    AsciiBytes(close);
  }

  lemma Joined(s: string, separator: string, t: string)
    requires IsAscii(separator)
    ensures Bytes(s + separator + t) == Bytes(s) + |separator| + Bytes(t)
  {
    BytesConcat(s + separator, t);
    BytesConcat(s, separator);
    AsciiBytes(separator);
  }

  lemma EscapeCharBytes(c: char)
    ensures Bytes(EscapeChar(c)) == EscapedCharBytes(c)
  {
    var n := c as int;
    if EscapeChar(c) == [c] {
      assert Utf8.Encode([c]) == Utf8.EncodeChar(c) + Utf8.Encode([c][1..]);
    } else {
      assert n < 32 && |EscapeChar(c)| == 6 ==> HexDigit(n / 16) as int < 128 && HexDigit(n % 16) as int < 128;
      AsciiBytes(EscapeChar(c));
    }
  }

  lemma {:induction false} EscapeBytes(s: string)
    ensures Bytes(Escape(s)) == EscapedBytes(s)
  {
    if s != "" {
      EscapeBytes(s[1..]);
      EscapeCharBytes(s[0]);
      BytesConcat(EscapeChar(s[0]), Escape(s[1..]));
    }
  }

  lemma QuotedBytes(s: string)
    ensures Bytes(Quote(s)) == 2 + EscapedBytes(s)
  {
    EscapeBytes(s);
    Wrapped("\"", Escape(s), "\"");
  }

  /** Printing is length-additive in both styles. */
  lemma {:induction false} PrintWeight(v: Json, style: Style)
    ensures Bytes(Print(v, style)) == Weight(v, style)
    decreases v
  {
    match v
    case JArr(items) =>
      ItemsPrintWeight(items, style);
      Wrapped("[", PrintItems(items, style), "]");
    case JObj(fields) =>
      FieldsPrintWeight(fields, style);
      Wrapped("{", PrintFields(fields, style), "}");
    case JStr(text) => QuotedBytes(text);
    case JNum(lexeme) =>
    case _ => AsciiBytes(Print(v, style));
  }

  lemma {:induction false} ItemsPrintWeight(items: Items, style: Style)
    ensures Bytes(PrintItems(items, style)) == ItemsWeight(items, style)
    decreases items
  {
    if items.Item? {
      PrintWeight(items.head, style);
      ItemsPrintWeight(items.tail, style);
      Joined(Print(items.head, style), Comma(style), PrintItems(items.tail, style));
    }
  }

  lemma {:induction false} FieldsPrintWeight(fields: Fields, style: Style)
    ensures Bytes(PrintFields(fields, style)) == FieldsWeight(fields, style)
    decreases fields
  {
    if fields.Field? {
      var entry := Quote(fields.key) + Colon(style) + Print(fields.value, style);
      PrintWeight(fields.value, style);
      QuotedBytes(fields.key);
      Joined(Quote(fields.key), Colon(style), Print(fields.value, style));
      FieldsPrintWeight(fields.rest, style);
      Joined(entry, Comma(style), PrintFields(fields.rest, style));
    }
  }

  /** The bridge's compact separators never make arguments longer than the text that
      input validation bounded. */
  lemma {:induction false} CompactIsShorter(v: Json)
    ensures Weight(v, Compact) <= Weight(v, Spaced)
    decreases v
  {
    match v
    case JArr(items) => CompactItems(items);
    case JObj(fields) => CompactFields(fields);
    case _ =>
  }

  lemma {:induction false} CompactItems(items: Items)
    ensures ItemsWeight(items, Compact) <= ItemsWeight(items, Spaced)
    decreases items
  {
    if items.Item? {
      CompactIsShorter(items.head);
      CompactItems(items.tail);
    }
  }

  lemma {:induction false} CompactFields(fields: Fields)
    ensures FieldsWeight(fields, Compact) <= FieldsWeight(fields, Spaced)
    decreases fields
  {
    if fields.Field? {
      CompactIsShorter(fields.value);
      CompactFields(fields.rest);
    }
  }

  // ---------- the bound ----------

  lemma FieldsWeightStep(k: string, v: Json, rest: Fields)
    requires rest.Field?
    ensures FieldsWeight(Field(k, v, rest), Compact)
         == KeyWeight(k, Compact) + Weight(v, Compact) + 1 + FieldsWeight(rest, Compact)
  {
  }

  lemma FrameBytes(fields: Fields)
    ensures Bytes(Frame(fields)) == 3 + FieldsWeight(fields, Compact)
  {
    PrintWeight(JObj(fields), Compact);
    BytesConcat(Print(JObj(fields)), "\n");
    AsciiBytes("\n");
  }

  lemma FourFieldsWeight(k0: string, v0: Json, k1: string, v1: Json, k2: string, v2: Json, rest: Fields)
    requires rest.Field?
    ensures FieldsWeight(Field(k0, v0, Field(k1, v1, Field(k2, v2, rest))), Compact)
         == KeyWeight(k0, Compact) + Weight(v0, Compact) + KeyWeight(k1, Compact) + Weight(v1, Compact)
            + KeyWeight(k2, Compact) + Weight(v2, Compact) + 3 + FieldsWeight(rest, Compact)
  {
    FieldsWeightStep(k2, v2, rest);
    FieldsWeightStep(k1, v1, Field(k2, v2, rest));
    FieldsWeightStep(k0, v0, Field(k1, v1, Field(k2, v2, rest)));
  }

  /** What the issue frame's fixed parts weigh. */
  ghost function IssueFixed(n: Names): int {
    KeyWeight(n.arguments, Compact) + KeyWeight(n.callId, Compact) + KeyWeight(n.op, Compact)
    + Weight(JStr(n.issue), Compact) + KeyWeight(n.operation, Compact) + KeyWeight(n.sessionId, Compact) + 13
  }

  ghost function VerifyFixed(n: Names): int {
    KeyWeight(n.arguments, Compact) + KeyWeight(n.op, Compact) + Weight(JStr(n.verify), Compact)
    + KeyWeight(n.operation, Compact) + KeyWeight(n.token, Compact) + 10
  }

  lemma IssueWeight(n: Names, session: string, call: string, operation: string, arguments: Json)
    ensures Bytes(Frame(IssueFields(n, session, call, operation, arguments)))
         == IssueFixed(n) + Weight(arguments, Compact)
            + EscapedBytes(call) + EscapedBytes(operation) + EscapedBytes(session)
  {
    var last := Field(n.sessionId, JStr(session), NoField);
    FrameBytes(IssueFields(n, session, call, operation, arguments));
    FourFieldsWeight(n.arguments, arguments, n.callId, JStr(call), n.op, JStr(n.issue),
                     Field(n.operation, JStr(operation), last));
    FieldsWeightStep(n.operation, JStr(operation), last);
  }

  lemma VerifyWeight(n: Names, token: string, operation: string, arguments: Json)
    ensures Bytes(Frame(VerifyFields(n, token, operation, arguments)))
         == VerifyFixed(n) + Weight(arguments, Compact) + EscapedBytes(operation) + EscapedBytes(token)
  {
    FrameBytes(VerifyFields(n, token, operation, arguments));
    FourFieldsWeight(n.arguments, arguments, n.op, JStr(n.verify), n.operation, JStr(operation),
                     Field(n.token, JStr(token), NoField));
  }

  lemma EmptyArguments()
    ensures Bytes(Print(EMPTY_ARGUMENTS)) == Weight(EMPTY_ARGUMENTS, Compact) == 2
  {
    PrintWeight(EMPTY_ARGUMENTS, Compact);
  }

  /** The exact size of an issue frame: its skeleton with the arguments and escaped texts put in. */
  lemma IssueFrameBytes(n: Names, session: string, call: string, operation: string, arguments: Json)
    ensures Bytes(Frame(IssueFields(n, session, call, operation, arguments)))
         == IssueSkeletonBytes(n) - 2 + Bytes(Print(arguments))
            + Bytes(Escape(call)) + Bytes(Escape(operation)) + Bytes(Escape(session))
  {
    IssueWeight(n, session, call, operation, arguments);
    IssueWeight(n, "", "", "", EMPTY_ARGUMENTS);
    PrintWeight(arguments, Compact);
    EscapeBytes(call);
    EscapeBytes(operation);
    EscapeBytes(session);
  }

  /** The exact size of a verify frame. */
  lemma VerifyFrameBytes(n: Names, token: string, operation: string, arguments: Json)
    ensures Bytes(Frame(VerifyFields(n, token, operation, arguments)))
         == VerifySkeletonBytes(n) - 2 + Bytes(Print(arguments))
            + Bytes(Escape(operation)) + Bytes(Escape(token))
  {
    VerifyWeight(n, token, operation, arguments);
    VerifyWeight(n, "", "", EMPTY_ARGUMENTS);
    PrintWeight(arguments, Compact);
    EscapeBytes(operation);
    EscapeBytes(token);
  }

  /** An arguments object within the total size limit of input validation, which measures the
      spaced text.  The limits validation puts on single keys and strings are not part of this. */
  ghost predicate Bounded(arguments: Json) {
    arguments.JObj? && Bytes(Print(arguments, Spaced)) <= MAX_TOTAL_INPUT_BYTES
  }

  /** Dropping the space after a key's colon leaves at least one byte to spare. */
  lemma BoundedCompact(arguments: Json)
    requires Bounded(arguments)
    ensures Bytes(Print(arguments)) < MAX_TOTAL_INPUT_BYTES
  {
    PrintWeight(arguments, Spaced);
    PrintWeight(arguments, Compact);
    if arguments.fields.Field? {
      CompactIsShorter(arguments.fields.value);
      CompactFields(arguments.fields.rest);
    }
  }

  /** Every verify frame fits whose token and operation name are bounded as they are escaped. */
  lemma VerifyFrameFits(n: Names, token: string, operation: string, arguments: Json)
    requires Bytes(Escape(token)) <= TOKEN_MAX_BYTES && Bytes(Escape(operation)) <= OPERATION_MAX_BYTES + 1
    requires Bounded(arguments)
    ensures Bytes(Frame(VerifyFields(n, token, operation, arguments))) <= SocketMaxBytes(n)
  {
    VerifyFrameBytes(n, token, operation, arguments);
    BoundedCompact(arguments);
    EmptyArguments();
  }

  ghost predicate VerifyFits(n: Names, token: string, operation: string, arguments: Json) {
    Bounded(arguments) ==> Bytes(Frame(VerifyFields(n, token, operation, arguments))) <= SocketMaxBytes(n)
  }

  /** The bytes the bound leaves a verify frame for its escaped token and operation name when its
      arguments are as large as they may be. */
  function VerifyRoom(n: Names): int { SocketMaxBytes(n) - VerifySkeletonBytes(n) + 2 - (MAX_TOTAL_INPUT_BYTES - 1) }

  /** The bound covers every verify frame with a given token and operation name, whatever its
      arguments, exactly when the two fit into that room as they are escaped. */
  lemma VerifyBoundExact(n: Names, token: string, operation: string)
    ensures (forall arguments :: VerifyFits(n, token, operation, arguments))
            <==> Bytes(Escape(token)) + Bytes(Escape(operation)) <= VerifyRoom(n)
  {
    forall arguments | Bounded(arguments)
      ensures Bytes(Frame(VerifyFields(n, token, operation, arguments)))
           <= VerifySkeletonBytes(n) - 2 + MAX_TOTAL_INPUT_BYTES - 1 + Bytes(Escape(operation)) + Bytes(Escape(token))
    {
      VerifyFrameBytes(n, token, operation, arguments);
      BoundedCompact(arguments);
    }
    var largest := ArgumentsOfSize(MAX_TOTAL_INPUT_BYTES - 1);
    VerifyFrameBytes(n, token, operation, largest);
    assert VerifyFits(n, token, operation, largest)
      <==> Bytes(Escape(token)) + Bytes(Escape(operation)) <= VerifyRoom(n);
  }

  /** What two keys and a tag add to the issue frame decides how much larger it is. */
  lemma RoomOf(n: Names)
    requires IssueDominates(n)
    ensures VerifyRoom(n) == IssueFixed(n) - VerifyFixed(n) + 2 * IDENTITY_MAX_CHARS * JSON_BYTES_PER_CHAR
                             + OPERATION_MAX_BYTES + 1
  {
    IssueWeight(n, "", "", "", EMPTY_ARGUMENTS);
    VerifyWeight(n, "", "", EMPTY_ARGUMENTS);
    EmptyArguments();
  }

  predicate IsName(s: string) { forall i :: 0 <= i < |s| ==> 'a' <= s[i] <= 'z' || s[i] == '_' }

  lemma {:induction false} NameBytes(s: string)
    requires IsName(s)
    ensures EscapedBytes(s) == |s|
  {
    if s != "" { NameBytes(s[1..]); }
  }

  lemma FixedDifference(n: Names)
    requires IsName(n.callId) && IsName(n.sessionId) && IsName(n.issue) && IsName(n.verify) && IsName(n.token)
    ensures IssueFixed(n) - VerifyFixed(n)
         == |n.callId| + |n.sessionId| + |n.issue| - |n.verify| - |n.token| + 6
  {
    NameBytes(n.callId);
    NameBytes(n.sessionId);
    NameBytes(n.issue);
    NameBytes(n.verify);
    NameBytes(n.token);
  }

  ghost predicate PlainNames(n: Names) {
    && IsName(n.callId) && IsName(n.sessionId) && IsName(n.issue) && IsName(n.verify) && IsName(n.token)
    && |n.token| + |n.verify| <= 64
  }

  lemma RoomOfNames(n: Names)
    requires PlainNames(n)
    ensures VerifyRoom(n) == |n.callId| + |n.sessionId| + |n.issue| - |n.verify| - |n.token| + 6183
  {
    ShortNamesDominate(n);
    RoomOf(n);
    FixedDifference(n);
  }

  lemma ProtocolRoom(n: Names)
    requires n == PROTOCOL
    ensures VerifyRoom(n) == 6194
  {
    assert PlainNames(n);
    assert |n.callId| == 7 && |n.sessionId| == 10 && |n.issue| == 5 && |n.verify| == 6 && |n.token| == 5;
    RoomOfNames(n);
  }

  lemma SocketMaxOf(n: Names)
    requires PlainNames(n) && IsName(n.arguments) && IsName(n.op) && IsName(n.operation)
    ensures SocketMaxBytes(n)
         == 268350 + |n.arguments| + |n.callId| + |n.op| + |n.issue| + |n.operation| + |n.sessionId|
  {
    ShortNamesDominate(n);
    IssueWeight(n, "", "", "", EMPTY_ARGUMENTS);
    EmptyArguments();
    FixedOf(n);
  }

  lemma FixedOf(n: Names)
    requires PlainNames(n) && IsName(n.arguments) && IsName(n.op) && IsName(n.operation)
    ensures IssueFixed(n) == 30 + |n.arguments| + |n.callId| + |n.op| + |n.issue| + |n.operation| + |n.sessionId|
  {
    NameBytes(n.arguments);
    NameBytes(n.callId);
    NameBytes(n.op);
    NameBytes(n.issue);
    NameBytes(n.operation);
    NameBytes(n.sessionId);
  }

  lemma ProtocolSocketMax(n: Names)
    requires n == PROTOCOL
    ensures SocketMaxBytes(n) == 268392
  {
    assert PlainNames(n) && IsName(n.arguments) && IsName(n.op) && IsName(n.operation);
    assert |n.arguments| == 9 && |n.callId| == 7 && |n.op| == 2 && |n.issue| == 5 && |n.operation| == 9;
    assert |n.sessionId| == 10;
    SocketMaxOf(n);
  }

  /** For the bridge's own frames the room is 6194 bytes. */
  lemma ProtocolVerifyBoundExact(token: string, operation: string)
    ensures (forall arguments :: VerifyFits(PROTOCOL, token, operation, arguments))
            <==> Bytes(Escape(token)) + Bytes(Escape(operation)) <= 6194
  {
    VerifyBoundExact(PROTOCOL, token, operation);
    ProtocolRoom(PROTOCOL);
  }

  /** So a token of 4096 bytes can be too large to present: one that is all quotation marks is,
      beside any operation name.  Nothing on the client's way to the socket bounds the token. */
  lemma QuotedTokenExceedsBound(operation: string)
    ensures var token := Repeat('"', TOKEN_MAX_BYTES);
            Bytes(token) == TOKEN_MAX_BYTES && exists arguments :: !VerifyFits(PROTOCOL, token, operation, arguments)
  {
    var token := Repeat('"', TOKEN_MAX_BYTES);
    RepeatBytes('"', TOKEN_MAX_BYTES);
    EscapeBytes(token);
    RepeatAscii('"', TOKEN_MAX_BYTES);
    AsciiBytes(token);
    ProtocolVerifyBoundExact(token, operation);
  }

  ghost predicate IssueFits(n: Names, session: string, call: string, operation: string, arguments: Json) {
    |session| <= IDENTITY_MAX_CHARS && |call| <= IDENTITY_MAX_CHARS && Bounded(arguments)
    ==> Bytes(Frame(IssueFields(n, session, call, operation, arguments))) <= SocketMaxBytes(n)
  }

  /** Every issue frame with identities of at most 512 characters and a bounded operation name fits. */
  lemma IssueFrameFits(n: Names, session: string, call: string, operation: string, arguments: Json)
    requires Bytes(Escape(operation)) <= OPERATION_MAX_BYTES + 1
    ensures IssueFits(n, session, call, operation, arguments)
  {
    if |session| <= IDENTITY_MAX_CHARS && |call| <= IDENTITY_MAX_CHARS && Bounded(arguments) {
      IssueFrameBytes(n, session, call, operation, arguments);
      BoundedCompact(arguments);
      EmptyArguments();
      EscapeBytes(session);
      EscapeBytes(call);
    }
  }

  // The bound is also tight: it is the size of an actual worst-case frame.

  function Repeat(c: char, n: nat): (s: string)
    ensures |s| == n
  {
    if n == 0 then "" else [c] + Repeat(c, n - 1)
  }

  lemma {:induction false} RepeatBytes(c: char, n: nat)
    ensures EscapedBytes(Repeat(c, n)) == n * EscapedCharBytes(c)
  {
    if n > 0 {
      RepeatBytes(c, n - 1);
      assert Repeat(c, n)[1..] == Repeat(c, n - 1);
    }
  }

  /** An arguments object whose compact and spaced texts have given sizes. */
  lemma ArgumentsOfSize(n: nat) returns (arguments: Json)
    requires n >= 7
    ensures arguments.JObj?
    ensures Bytes(Print(arguments)) == n && Bytes(Print(arguments, Spaced)) == n + 1
  {
    var value := JStr(Repeat('a', n - 7));
    arguments := JObj(Field("", value, NoField));
    RepeatBytes('a', n - 7);
    assert Weight(value, Compact) == Weight(value, Spaced) == n - 5;
    assert EscapedBytes("") == 0;
    PrintWeight(arguments, Spaced);
    PrintWeight(arguments, Compact);
  }

  ghost predicate IssueDominates(n: Names) { VerifyEnvelopeBytes(n) <= IssueEnvelopeBytes(n) }

  /** The issue frame is the larger of the two for any verify names of ordinary length. */
  lemma ShortNamesDominate(n: Names)
    requires |n.token| + |n.verify| <= 64
    ensures IssueDominates(n)
  {
    IssueWeight(n, "", "", "", EMPTY_ARGUMENTS);
    VerifyWeight(n, "", "", EMPTY_ARGUMENTS);
    EmptyArguments();
  }

  /** The bound covers every admissible issue frame for an operation name exactly when that
      name takes at most 33 bytes once escaped: the documented 32 and the spare byte of
      `BoundedCompact`.  Thirty-two ASCII characters alone are not enough. */
  lemma IssueBoundExact(n: Names, operation: string)
    requires |n.token| + |n.verify| <= 64
    ensures (forall session, call, arguments :: IssueFits(n, session, call, operation, arguments))
            <==> Bytes(Escape(operation)) <= OPERATION_MAX_BYTES + 1
  {
    ShortNamesDominate(n);
    if Bytes(Escape(operation)) <= OPERATION_MAX_BYTES + 1 {
      forall session, call, arguments
        ensures IssueFits(n, session, call, operation, arguments)
      {
        IssueFrameFits(n, session, call, operation, arguments);
      }
    } else {
      var worst := Repeat('\U{1}', IDENTITY_MAX_CHARS);
      RepeatBytes('\U{1}', IDENTITY_MAX_CHARS);
      EscapeBytes(worst);
      var arguments := ArgumentsOfSize(MAX_TOTAL_INPUT_BYTES - 1);
      EmptyArguments();
      IssueFrameBytes(n, worst, worst, operation, arguments);
      assert !IssueFits(n, worst, worst, operation, arguments);
    }
  }

  /** So it is for the bridge's own frames. */
  lemma ProtocolBoundExact(operation: string)
    ensures (forall session, call, arguments :: IssueFits(PROTOCOL, session, call, operation, arguments))
            <==> Bytes(Escape(operation)) <= OPERATION_MAX_BYTES + 1
  {
    IssueBoundExact(PROTOCOL, operation);
  }

  /** An ASCII operation name within 32 characters that the bound does not cover. */
  lemma AsciiNameExceedsBound(n: Names)
    requires |n.token| + |n.verify| <= 64
    ensures var operation := Repeat('\U{1}', OPERATION_MAX_BYTES);
            IsAscii(operation) && |operation| == OPERATION_MAX_BYTES
            && exists session, call, arguments :: !IssueFits(n, session, call, operation, arguments)
  {
    var operation := Repeat('\U{1}', OPERATION_MAX_BYTES);
    RepeatBytes('\U{1}', OPERATION_MAX_BYTES);
    EscapeBytes(operation);
    RepeatAscii('\U{1}', OPERATION_MAX_BYTES);
    IssueBoundExact(n, operation);
  }

  lemma {:induction false} RepeatAscii(c: char, n: nat)
    requires c as int < 128
    ensures IsAscii(Repeat(c, n))
  {
    if n > 0 { RepeatAscii(c, n - 1); }
  }
}
