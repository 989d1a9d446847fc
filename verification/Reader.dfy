/** The two ends of one bridge connection: the server's bounded `readline` of a request and
    the client's chunked read of a response. */
module Reader {
  import opened Wrappers
  import opened Utf8
  import opened Json

  const RECV_BYTES := 4096

  // ---------- client side ----------

  /** What precedes the first newline, or everything if there is none: `split(b"\n", 1)[0]`. */
  function FirstLine(s: seq<Byte>): (line: seq<Byte>)
    ensures |line| <= |s| && NEWLINE !in line
  {
    if s == [] || s[0] == NEWLINE then [] else [s[0]] + FirstLine(s[1..])
  }

  /** What the client should make of a whole response stream; `None` is BRIDGE_PROTOCOL_ERROR. */
  function ResponseLine(max: nat, stream: seq<Byte>): Option<seq<Byte>> {
    var line := FirstLine(stream);
    if line == [] || |line| > max then None else Some(line)
  }

  function Join(chunks: seq<seq<Byte>>): seq<Byte> {
    if chunks == [] then [] else Join(chunks[..|chunks| - 1]) + chunks[|chunks| - 1]
  }

  lemma {:induction false} LineInside(a: seq<Byte>, b: seq<Byte>)
    requires NEWLINE in a
    ensures FirstLine(a + b) == FirstLine(a)
  {
    if a[0] != NEWLINE {
      LineInside(a[1..], b);
      assert (a + b)[1..] == a[1..] + b;
    }
  }

  lemma {:induction false} LineBeyond(a: seq<Byte>, b: seq<Byte>)
    requires NEWLINE !in a
    ensures FirstLine(a + b) == a + FirstLine(b)
  {
    if a == [] {
      assert a + b == b;
    } else {
      LineBeyond(a[1..], b);
      assert (a + b)[1..] == a[1..] + b;
    }
  }

  /** `Join` reads a list of chunks from its front as well. */
  lemma {:induction false} JoinSplit(chunks: seq<seq<Byte>>, i: nat)
    requires i <= |chunks|
    ensures Join(chunks) == Join(chunks[..i]) + Join(chunks[i..])
  {
    if i == |chunks| {
      assert chunks[..i] == chunks;
    } else {
      var last := |chunks| - 1;
      JoinSplit(chunks[..last], i);
      assert chunks[..last][..i] == chunks[..i] && chunks[..last][i..] == chunks[i..][..last - i];
    }
  }

  /** The read loop.  `chunks` is what successive `recv` calls return before end of stream.
      The outcome depends on the stream's bytes alone, not on how they were cut up. */
  method ReceiveLine(max: nat, chunks: seq<seq<Byte>>) returns (raw: Option<seq<Byte>>)
    requires forall i :: 0 <= i < |chunks| ==> 1 <= |chunks[i]| <= RECV_BYTES
    ensures raw == ResponseLine(max, Join(chunks))
  {
    var received: seq<seq<Byte>> := [];
    var total := 0;
    var i := 0;
    var found := false;
    while total <= max && !found && i < |chunks|
      invariant 0 <= i <= |chunks| && received == chunks[..i]
      invariant total == |Join(received)|
      invariant found <==> NEWLINE in Join(received)
    {
      var chunk := chunks[i];
      assert chunks[..i + 1][..i] == chunks[..i];
      received := received + [chunk];
      total := total + |chunk|;
      found := NEWLINE in chunk;
      i := i + 1;
    }
    JoinSplit(chunks, i);
    assert i == |chunks| ==> chunks[i..] == [];
    if found {
      LineInside(Join(received), Join(chunks[i..]));
    } else {
      LineBeyond(Join(received), Join(chunks[i..]));
      LineBeyond(Join(received), []);
      assert Join(received) + [] == Join(received);
    }
    var line := FirstLine(Join(received));
    raw := if line == [] || |line| > max then None else Some(line);
  }

  /** The stream starts with `line`, which ends at the first newline or at the end of the stream. */
  ghost predicate Leads(line: seq<Byte>, stream: seq<Byte>) {
    NEWLINE !in line && (stream == line || line + [NEWLINE] <= stream)
  }

  lemma FirstOf(line: seq<Byte>, stream: seq<Byte>)
    requires Leads(line, stream)
    ensures if line == [] then stream == [] || stream[0] == NEWLINE
            else stream != [] && stream[0] == line[0] && line[0] != NEWLINE
  {
    if stream != line { assert (line + [NEWLINE])[0] == stream[0]; }
  }

  lemma {:induction false} LeadsExact(line: seq<Byte>, stream: seq<Byte>)
    ensures Leads(line, stream) <==> line == FirstLine(stream)
  {
    if Leads(line, stream) { FirstOf(line, stream); }
    if stream == [] || stream[0] == NEWLINE {
      if line == [] && stream != [] { assert line + [NEWLINE] == stream[..1]; }
    } else if line != [] && line[0] == stream[0] {
      LeadsExact(line[1..], stream[1..]);
      LeadsRest(line, stream);
      assert line == [line[0]] + line[1..];
    }
  }

  lemma LeadsRest(line: seq<Byte>, stream: seq<Byte>)
    requires line != [] && stream != [] && line[0] == stream[0] != NEWLINE
    ensures Leads(line, stream) <==> Leads(line[1..], stream[1..])
  {
    assert line == [line[0]] + line[1..] && stream == [stream[0]] + stream[1..];
    var longer := line + [NEWLINE];
    assert longer[1..] == line[1..] + [NEWLINE];
    assert longer <= stream <==> longer[1..] <= stream[1..];
  }

  /** What the client makes of any stream, whoever sent it: its first line, if that is not empty and
      within the bound. */
  lemma ResponseLineExact(max: nat, stream: seq<Byte>, line: seq<Byte>)
    ensures ResponseLine(max, stream) == Some(line) <==> Leads(line, stream) && 1 <= |line| <= max
  {
    LeadsExact(line, stream);
  }

  // ---------- server side ----------

  /** `readline(limit)`: through the first newline, and never more than `limit` bytes. */
  function ReadLine(s: seq<Byte>, limit: nat): seq<Byte> {
    if s == [] || limit == 0 then []
    else if s[0] == NEWLINE then [NEWLINE]
    else [s[0]] + ReadLine(s[1..], limit - 1)
  }

  /** The request object the server reads, or `None` if it refuses the frame. */
  function AcceptRequest(max: nat, stream: seq<Byte>): Option<Json> {
    var raw := ReadLine(stream, max + 1);
    if raw == [] || |raw| > max then None
    else
      var text :- Utf8.Decode(raw);
      if text != "" && text[|text| - 1] == '\n' then Parse(text[..|text| - 1]) else Parse(text)
  }

  lemma {:induction false} ReadLineOf(line: seq<Byte>, trailing: seq<Byte>, limit: nat)
    requires NEWLINE !in line
    ensures |line| < limit ==> ReadLine(line + [NEWLINE] + trailing, limit) == line + [NEWLINE]
    ensures limit <= |line| ==> |ReadLine(line + [NEWLINE] + trailing, limit)| == limit
  {
    var s := line + [NEWLINE] + trailing;
    if line == [] {
      assert s[0] == NEWLINE;
    } else if limit > 0 {
      ReadLineOf(line[1..], trailing, limit - 1);
      assert s[1..] == line[1..] + [NEWLINE] + trailing;
      assert [line[0]] + (line[1..] + [NEWLINE]) == line + [NEWLINE];
    }
  }

  /** `readline` gives the first line with its newline, cut at the limit. */
  lemma {:induction false} ReadLineExact(s: seq<Byte>, limit: nat)
    ensures var line := FirstLine(s);
            var whole := if |line| < |s| then line + [NEWLINE] else line;
            ReadLine(s, limit) == if |whole| <= limit then whole else whole[..limit]
  {
    if s != [] && limit > 0 && s[0] != NEWLINE {
      ReadLineExact(s[1..], limit - 1);
      var line := FirstLine(s[1..]);
      assert [s[0]] + (line + [NEWLINE]) == ([s[0]] + line) + [NEWLINE];
    }
  }

  /** A text's encoding ends in the newline byte exactly if the text ends in a newline. */
  lemma EndsInNewline(text: string)
    requires text != ""
    ensures var b := Utf8.Encode(text);
            && |b| > 0 && (b[|b| - 1] == NEWLINE <==> text[|text| - 1] == '\n')
            && (text[|text| - 1] == '\n' ==> b == Utf8.Encode(text[..|text| - 1]) + [NEWLINE])
  {
    var last := |text| - 1;
    assert text == text[..last] + [text[last]];
    Utf8.EncodeConcat(text[..last], [text[last]]);
    assert Utf8.Encode([text[last]]) == Utf8.EncodeChar(text[last]) + Utf8.Encode([text[last]][1..]);
    LastByte(text[last]);
  }

  lemma LastByte(c: char)
    ensures var b := Utf8.EncodeChar(c); b[|b| - 1] == NEWLINE <==> c == '\n'
  {
  }

  /** What the server makes of any stream: the object its first line is the text of, if the line
      with its newline, or all of a stream without one, is within the bound. */
  lemma AcceptExact(max: nat, stream: seq<Byte>, v: Json)
    ensures AcceptRequest(max, stream) == Some(v) <==>
              exists line, text :: && Leads(line, stream) && line == Utf8.Encode(text) && Parse(text) == Some(v)
                                   && stream != [] && |line| + (if |line| < |stream| then 1 else 0) <= max
  {
    var line := FirstLine(stream);
    var whole := if |line| < |stream| then line + [NEWLINE] else line;
    LeadsExact(line, stream);
    ReadLineExact(stream, max + 1);
    forall other | Leads(other, stream) ensures other == line { LeadsExact(other, stream); }
    if stream != [] && |whole| <= max { AcceptsWhole(max, stream, line, whole, v); }
  }

  lemma AcceptsWhole(max: nat, stream: seq<Byte>, line: seq<Byte>, whole: seq<Byte>, v: Json)
    requires stream != [] && ReadLine(stream, max + 1) == whole && 0 < |whole| <= max && NEWLINE !in line
    requires whole == line || whole == line + [NEWLINE]
    ensures AcceptRequest(max, stream) == Some(v) <==>
              exists text :: line == Utf8.Encode(text) && Parse(text) == Some(v)
  {
    forall text | line == Utf8.Encode(text) && Parse(text) == Some(v) ensures AcceptRequest(max, stream) == Some(v) {
      WholeText(line, whole, text);
      assert text + "\n" != "" && (text + "\n")[..|text|] == text;
    }
    if AcceptRequest(max, stream) == Some(v) {
      var read := Utf8.Decode(whole).value;
      var text := TextOfLine(line, whole, read);
    }
  }

  /** The text that is parsed is the line's. */
  lemma TextOfLine(line: seq<Byte>, whole: seq<Byte>, read: string) returns (text: string)
    requires Utf8.Decode(whole) == Some(read) && whole != [] && NEWLINE !in line
    requires whole == line || whole == line + [NEWLINE]
    ensures text == (if read != "" && read[|read| - 1] == '\n' then read[..|read| - 1] else read)
    ensures line == Utf8.Encode(text)
  {
    Utf8.DecodeExact(whole, read);
    EndsInNewline(read);
    text := if read[|read| - 1] == '\n' then read[..|read| - 1] else read;
    assert (line + [NEWLINE])[..|line|] == line;
  }

  lemma WholeText(line: seq<Byte>, whole: seq<Byte>, text: string)
    requires line == Utf8.Encode(text) && NEWLINE !in line && whole != []
    requires whole == line || whole == line + [NEWLINE]
    ensures Utf8.Decode(whole) == Some(if whole == line then text else text + "\n")
    ensures text != "" ==> text[|text| - 1] != '\n'
  {
    Utf8.EncodeNewline(text);
    Utf8.EncodeConcat(text, "\n");
    assert Utf8.Encode("\n") == [NEWLINE];
    Utf8.DecodeExact(whole, if whole == line then text else text + "\n");
  }

  lemma FrameOf(v: Json)
    requires WellFormed(v)
    ensures NEWLINE !in Utf8.Encode(Print(v))
    ensures Utf8.Encode(Print(v) + "\n") == Utf8.Encode(Print(v)) + [NEWLINE]
  {
    PrintNoNewline(v);
    Utf8.EncodeNewline(Print(v));
    Utf8.EncodeConcat(Print(v), "\n");
    assert Utf8.Encode("\n") == [NEWLINE];
  }

  lemma TextParses(v: Json)
    requires WellFormed(v)
    ensures var text := Print(v) + "\n";
            Utf8.Decode(Utf8.Encode(text)) == Some(text)
            && text[|text| - 1] == '\n' && Parse(text[..|text| - 1]) == Some(v)
  {
    var text := Print(v) + "\n";
    Utf8.DecodeEncode(text);
    assert text[..|text| - 1] == Print(v);
    ParsePrint(v);
  }

  /** Client and server agree on the bound: a request the client may send arrives as exactly
      the object it printed whatever follows on the connection, and a longer one is refused. */
  lemma RequestDelivered(max: nat, v: Json, trailing: seq<Byte>)
    requires WellFormed(v)
    ensures var frame := Utf8.Encode(Print(v) + "\n");
            AcceptRequest(max, frame + trailing) == if |frame| <= max then Some(v) else None
  {
    var line := Utf8.Encode(Print(v));
    FrameOf(v);
    ReadLineOf(line, trailing, max + 1);
    if |line| < max {
      TextParses(v);
      assert ReadLine(Utf8.Encode(Print(v) + "\n") + trailing, max + 1) == line + [NEWLINE];
    }
  }

  /** A response the bridge printed is recovered exactly, however the socket cuts it up;
      one over the bound is always rejected. */
  lemma ResponseDelivered(max: nat, v: Json, chunks: seq<seq<Byte>>, trailing: seq<Byte>)
    requires WellFormed(v)
    requires Join(chunks) == Utf8.Encode(Print(v) + "\n") + trailing
    ensures var line := Utf8.Encode(Print(v));
            ResponseLine(max, Join(chunks)) == (if |line| <= max then Some(line) else None)
            && Utf8.Decode(line) == Some(Print(v)) && Parse(Print(v)) == Some(v)
  {
    var line := Utf8.Encode(Print(v));
    FrameOf(v);
    assert Join(chunks) == line + ([NEWLINE] + trailing);
    LineBeyond(line, [NEWLINE] + trailing);
    Utf8.DecodeEncode(Print(v));
    ParsePrint(v);
    assert FirstLine([NEWLINE] + trailing) == [] && line + [] == line;
    assert Print(v) != "";
  }
}
