/** Unpadded base64url (section 5 of RFC 4648, padding per section 3.2), as the bridge
    writes and reads it: encode with padding and strip it; check the alphabet, restore the
    padding and decode. */
module Base64Url {
  import opened Wrappers
  import opened Utf8

  const MAX_CHARS := 4096

  predicate IsUrlChar(c: char) {
    'A' <= c <= 'Z' || 'a' <= c <= 'z' || '0' <= c <= '9' || c == '_' || c == '-'
  }

  predicate IsUrlText(s: string) { forall i :: 0 <= i < |s| ==> IsUrlChar(s[i]) }

  type Sextet = n: int | 0 <= n < 64

  function CharOf(n: Sextet): (c: char)
    ensures IsUrlChar(c)
  {
    if n < 26 then (n + 65) as char
    else if n < 52 then (n + 71) as char
    else if n < 62 then (n - 4) as char
    else if n == 62 then '-' else '_'
  }

  function ValueOf(c: char): Option<Sextet> {
    if 'A' <= c <= 'Z' then Some(c as int - 65)
    else if 'a' <= c <= 'z' then Some(c as int - 71)
    else if '0' <= c <= '9' then Some(c as int + 4)
    else if c == '-' then Some(62)
    else if c == '_' then Some(63)
    else None
  }

  lemma ValueOfCharOf(n: Sextet)
    ensures ValueOf(CharOf(n)) == Some(n)
  {
  }

  /** `base64.urlsafe_b64encode`. */
  function EncodePadded(b: seq<Byte>): string {
    if |b| == 0 then ""
    else if |b| == 1 then Pair(b[0]) + "=="
    else if |b| == 2 then Triple(b[0], b[1]) + "="
    else Quad(b[0], b[1], b[2]) + EncodePadded(b[3..])
  }

  function Pair(x: Byte): (s: string)
    ensures |s| == 2 && IsUrlText(s)
  {
    [CharOf(x / 4), CharOf(x % 4 * 16)]
  }

  function Triple(x: Byte, y: Byte): (s: string)
    ensures |s| == 3 && IsUrlText(s)
  {
    [CharOf(x / 4), CharOf(x % 4 * 16 + y / 16), CharOf(y % 16 * 4)]
  }

  function Quad(x: Byte, y: Byte, z: Byte): (s: string)
    ensures |s| == 4 && IsUrlText(s)
  {
    [CharOf(x / 4), CharOf(x % 4 * 16 + y / 16), CharOf(y % 16 * 4 + z / 64), CharOf(z % 64)]
  }

  function StripPadding(s: string): string {
    if s != "" && s[|s| - 1] == '=' then StripPadding(s[..|s| - 1]) else s
  }

  function Encode(b: seq<Byte>): string { StripPadding(EncodePadded(b)) }

  function Equals(n: nat): (s: string)
    ensures |s| == n
  {
    if n == 0 then "" else Equals(n - 1) + "="
  }

  /** `value + "=" * (-len(value) % 4)`. */
  function RestorePadding(s: string): string { s + Equals((-|s|) % 4) }

  /** `base64.b64decode`; leftover bits of a final partial group are dropped, as there. */
  function DecodePadded(s: string): Option<seq<Byte>> {
    if s == "" then Some([])
    else if |s| < 4 then None
    else
      var n0 :- ValueOf(s[0]);
      var n1 :- ValueOf(s[1]);
      if s[2..] == "==" then Some([n0 * 4 + n1 / 16])
      else
        var n2 :- ValueOf(s[2]);
        if s[3..] == "=" then Some([n0 * 4 + n1 / 16, n1 % 16 * 16 + n2 / 4])
        else
          var n3 :- ValueOf(s[3]);
          var rest :- DecodePadded(s[4..]);
          Some(ThreeBytes(n0, n1, n2, n3) + rest)
  }

  function ThreeBytes(n0: Sextet, n1: Sextet, n2: Sextet, n3: Sextet): seq<Byte> {
    [n0 * 4 + n1 / 16, n1 % 16 * 16 + n2 / 4, n2 % 4 * 64 + n3]
  }

  /** `_b64_decode`: `None` is TOKEN_MALFORMED. */
  function Decode(s: string): Option<seq<Byte>> {
    if s == "" || |s| > MAX_CHARS || !IsUrlText(s) then None
    else DecodePadded(RestorePadding(s))
  }

  // ---------- round trip ----------

  /** How many '=' `EncodePadded` appends. */
  function PadCount(n: nat): nat { if n % 3 == 0 then 0 else 3 - n % 3 }

  /** The text before the padding. */
  ghost function Body(b: seq<Byte>): string {
    if |b| == 0 then ""
    else if |b| == 1 then Pair(b[0])
    else if |b| == 2 then Triple(b[0], b[1])
    else Quad(b[0], b[1], b[2]) + Body(b[3..])
  }

  lemma {:induction false} BodyShape(b: seq<Byte>)
    ensures IsUrlText(Body(b)) && |Body(b)| == (4 * |b| + 2) / 3
  {
    if |b| >= 3 {
      BodyShape(b[3..]);
    }
  }

  lemma {:induction false} EncodedShape(b: seq<Byte>)
    ensures EncodePadded(b) == Body(b) + Equals(PadCount(|b|))
  {
    if |b| < 3 {
      ShortShape(b);
    } else {
      EncodeThree(b);
      EncodedShape(b[3..]);
      SamePad(|b|);
      Append(Quad(b[0], b[1], b[2]), Body(b[3..]), Equals(PadCount(|b|)));
    }
  }

  lemma ShortShape(b: seq<Byte>)
    requires |b| < 3
    ensures EncodePadded(b) == Body(b) + Equals(PadCount(|b|))
  {
    FewEquals();
    if |b| == 1 { OneShape(b); } else if |b| == 2 { TwoShape(b); }
  }

  lemma OneShape(b: seq<Byte>)
    requires |b| == 1
    ensures EncodePadded(b) == Body(b) + "==" && PadCount(|b|) == 2
  {
    EncodeOne(b);
  }

  lemma TwoShape(b: seq<Byte>)
    requires |b| == 2
    ensures EncodePadded(b) == Body(b) + "=" && PadCount(|b|) == 1
  {
    EncodeTwo(b);
  }

  lemma FewEquals()
    ensures Equals(0) == "" && Equals(1) == "=" && Equals(2) == "=="
  {
    assert Equals(1) == Equals(0) + "=";
  }

  lemma SamePad(n: nat)
    requires n >= 3
    ensures PadCount(n) == PadCount(n - 3)
  {
  }

  lemma Append(a: string, b: string, c: string)
    ensures a + (b + c) == a + b + c
  {
  }

  lemma {:induction false} StripEquals(s: string, n: nat)
    requires s != "" ==> s[|s| - 1] != '='
    ensures StripPadding(s + Equals(n)) == s
  {
    if n == 0 {
      assert s + Equals(0) == s;
    } else {
      StripEquals(s, n - 1);
      assert (s + Equals(n))[..|s + Equals(n)| - 1] == s + Equals(n - 1);
    }
  }

  /** The encoding is url-safe text of the minimal length, which is never 1 modulo 4. */
  lemma EncodeShape(b: seq<Byte>)
    ensures Encode(b) == Body(b) && IsUrlText(Encode(b))
    ensures |Encode(b)| == (4 * |b| + 2) / 3
    ensures |Encode(b)| % 4 != 1
  {
    EncodedShape(b);
    BodyShape(b);
    StripEquals(Body(b), PadCount(|b|));
    LengthModFour(|b|);
  }

  lemma LengthModFour(n: nat)
    ensures (4 * n + 2) / 3 % 4 != 1
    ensures (-((4 * n + 2) / 3)) % 4 == PadCount(n)
  {
    var k, r := n / 3, n % 3;
    var extra := if r == 0 then 0 else r + 1;
    assert 4 * n + 2 == 3 * (4 * k + extra) + (if r == 0 then 2 else if r == 1 then 0 else 1);
    Third(4 * k + extra, if r == 0 then 2 else if r == 1 then 0 else 1);
    Fourth(k, extra);
  }

  lemma Third(q: int, r: int)
    requires 0 <= r < 3
    ensures (3 * q + r) / 3 == q
  {
  }

  lemma Fourth(q: int, r: int)
    requires 0 <= r < 4
    ensures (4 * q + r) % 4 == r && (-(4 * q + r)) % 4 == if r == 0 then 0 else 4 - r
  {
    assert -(4 * q + r) == 4 * (-q - 1) + (4 - r);
  }

  /** The padding that decoding restores is exactly the padding that encoding stripped. */
  lemma RestoreUndoesStrip(b: seq<Byte>)
    ensures RestorePadding(Encode(b)) == EncodePadded(b)
  {
    EncodeShape(b);
    EncodedShape(b);
    LengthModFour(|b|);
  }

  lemma DecodePair(x: Byte)
    ensures DecodePadded(Pair(x) + "==") == Some([x])
  {
    var s := Pair(x) + "==";
    ValueOfCharOf(x / 4);
    ValueOfCharOf(x % 4 * 16);
    assert s[2..] == "==";
  }

  lemma DecodeTriple(x: Byte, y: Byte)
    ensures DecodePadded(Triple(x, y) + "=") == Some([x, y])
  {
    var s := Triple(x, y) + "=";
    ValueOfCharOf(x / 4);
    ValueOfCharOf(x % 4 * 16 + y / 16);
    ValueOfCharOf(y % 16 * 4);
    TwoBytesOf(x, y);
    assert s[3..] == "=" && s[2..][0] == s[2];
  }

  lemma TwoBytesOf(x: Byte, y: Byte)
    ensures x / 4 * 4 + (x % 4 * 16 + y / 16) / 16 == x
    ensures (x % 4 * 16 + y / 16) % 16 * 16 + y % 16 * 4 / 4 == y
  {
  }

  lemma ThreeBytesOf(x: Byte, y: Byte, z: Byte)
    ensures ThreeBytes(x / 4, x % 4 * 16 + y / 16, y % 16 * 4 + z / 64, z % 64) == [x, y, z]
  {
  }

  lemma DecodeQuad(x: Byte, y: Byte, z: Byte, rest: string, b: seq<Byte>)
    requires DecodePadded(rest) == Some(b)
    ensures DecodePadded(Quad(x, y, z) + rest) == Some([x, y, z] + b)
  {
    var s := Quad(x, y, z) + rest;
    ValueOfCharOf(x / 4);
    ValueOfCharOf(x % 4 * 16 + y / 16);
    ValueOfCharOf(y % 16 * 4 + z / 64);
    ValueOfCharOf(z % 64);
    assert s[2] != '=' && s[3] != '=' && s[2..][0] == s[2] && s[3..][0] == s[3] && s[4..] == rest;
    ThreeBytesOf(x, y, z);
  }

  lemma EncodeOne(b: seq<Byte>)
    requires |b| == 1
    ensures EncodePadded(b) == Pair(b[0]) + "=="
  {
  }

  lemma EncodeTwo(b: seq<Byte>)
    requires |b| == 2
    ensures EncodePadded(b) == Triple(b[0], b[1]) + "="
  {
  }

  lemma DecodeOne(b: seq<Byte>)
    requires |b| == 1
    ensures DecodePadded(EncodePadded(b)) == Some(b)
  {
    EncodeOne(b);
    DecodePair(b[0]);
    assert b == [b[0]];
  }

  lemma DecodeTwo(b: seq<Byte>)
    requires |b| == 2
    ensures DecodePadded(EncodePadded(b)) == Some(b)
  {
    EncodeTwo(b);
    DecodeTriple(b[0], b[1]);
    assert b == [b[0], b[1]];
  }

  lemma EncodeThree(b: seq<Byte>)
    requires |b| >= 3
    ensures EncodePadded(b) == Quad(b[0], b[1], b[2]) + EncodePadded(b[3..])
  {
  }

  lemma {:induction false} DecodeEncodePadded(b: seq<Byte>)
    ensures DecodePadded(EncodePadded(b)) == Some(b)
  {
    if |b| == 0 {
    } else if |b| == 1 {
      DecodeOne(b);
    } else if |b| == 2 {
      DecodeTwo(b);
    } else {
      DecodeEncodePadded(b[3..]);
      EncodeThree(b);
      DecodeQuad(b[0], b[1], b[2], EncodePadded(b[3..]), b[3..]);
      assert [b[0], b[1], b[2]] + b[3..] == b;
    }
  }

  /** Decoding inverts encoding on every nonempty byte string the decoder's bound admits. */
  lemma DecodeEncode(b: seq<Byte>)
    requires b != [] && |Encode(b)| <= MAX_CHARS
    ensures Decode(Encode(b)) == Some(b)
  {
    EncodeShape(b);
    RestoreUndoesStrip(b);
    DecodeEncodePadded(b);
  }

  // ---------- what decodes at all ----------

  lemma CharOfValueOf(c: char)
    ensures ValueOf(c).Some? <==> IsUrlChar(c)
    ensures IsUrlChar(c) ==> CharOf(ValueOf(c).value) == c
  {
  }

  /** The text `s` is the encoding of `b`, but for the bits of its last character that a partial
      group leaves over. */
  ghost predicate Spells(s: string, b: seq<Byte>) {
    && |Body(b)| == |s| && (forall i :: 0 <= i < |s| - 1 ==> Body(b)[i] == s[i])
    && (|s| % 4 == 0 ==> Body(b) == s)
  }

  lemma TwoSpell(s: string)
    requires IsUrlText(s) && |s| == 2
    ensures var r := DecodePadded(s + "=="); r.Some? && Spells(s, r.value)
  {
    CharOfValueOf(s[0]);
    CharOfValueOf(s[1]);
    TwoSpelled(s, s + "==", ValueOf(s[0]).value, ValueOf(s[1]).value);
  }

  lemma TwoSpelled(s: string, t: string, n0: int, n1: int)
    requires |s| == 2 && |t| == 4 && t[2..] == "==" && IsUrlChar(t[0]) && IsUrlChar(t[1]) && t[0] == s[0]
    requires ValueOf(t[0]) == Some(n0) && ValueOf(t[1]) == Some(n1) && CharOf(n0) == s[0]
    ensures DecodePadded(t).Some? && Spells(s, DecodePadded(t).value)
  {
    DecodesTwo(t);
    PairOfTwo(n0, n1);
    OneSpelled(s, n0 * 4 + n1 / 16);
  }

  lemma OneSpelled(s: string, x: Byte)
    requires |s| == 2 && Pair(x)[0] == s[0]
    ensures Spells(s, [x])
  {
  }

  lemma DecodesTwo(t: string)
    requires |t| == 4 && IsUrlChar(t[0]) && IsUrlChar(t[1]) && t[2..] == "=="
    ensures ValueOf(t[0]).Some? && ValueOf(t[1]).Some?
    ensures DecodePadded(t) == Some([ValueOf(t[0]).value * 4 + ValueOf(t[1]).value / 16])
  {
  }

  lemma PairOfTwo(n0: Sextet, n1: Sextet)
    ensures Pair(n0 * 4 + n1 / 16)[0] == CharOf(n0)
  {
    assert (n0 * 4 + n1 / 16) / 4 == n0;
  }

  lemma ThreeSpell(s: string)
    requires IsUrlText(s) && |s| == 3
    ensures var r := DecodePadded(s + "="); r.Some? && Spells(s, r.value)
  {
    CharOfValueOf(s[0]);
    CharOfValueOf(s[1]);
    CharOfValueOf(s[2]);
    var n0, n1, n2 := ValueOf(s[0]).value, ValueOf(s[1]).value, ValueOf(s[2]).value;
    DecodesThree(s + "=");
    TripleOfThree(n0, n1, n2);
  }

  lemma DecodesThree(t: string)
    requires |t| == 4 && IsUrlChar(t[0]) && IsUrlChar(t[1]) && IsUrlChar(t[2]) && t[3..] == "="
    ensures ValueOf(t[0]).Some? && ValueOf(t[1]).Some? && ValueOf(t[2]).Some?
    ensures DecodePadded(t) == Some(TwoBytes(ValueOf(t[0]).value, ValueOf(t[1]).value, ValueOf(t[2]).value))
  {
    assert t[2..][0] == t[2];
  }

  ghost function TwoBytes(n0: Sextet, n1: Sextet, n2: Sextet): seq<Byte> {
    [n0 * 4 + n1 / 16, n1 % 16 * 16 + n2 / 4]
  }

  lemma TripleOfThree(n0: Sextet, n1: Sextet, n2: Sextet)
    ensures var b := TwoBytes(n0, n1, n2);
            Triple(b[0], b[1])[0] == CharOf(n0) && Triple(b[0], b[1])[1] == CharOf(n1)
  {
    FirstBits(n0, n1, n2);
  }

  lemma QuadOfThree(n0: Sextet, n1: Sextet, n2: Sextet, n3: Sextet)
    ensures var b := ThreeBytes(n0, n1, n2, n3);
            Quad(b[0], b[1], b[2]) == [CharOf(n0), CharOf(n1), CharOf(n2), CharOf(n3)]
  {
    FirstBits(n0, n1, n2);
    LastBits(n1, n2, n3);
    var b := ThreeBytes(n0, n1, n2, n3);
    QuadIs(b[0], b[1], b[2], n0, n1, n2, n3);
  }

  lemma QuadIs(x: Byte, y: Byte, z: Byte, n0: Sextet, n1: Sextet, n2: Sextet, n3: Sextet)
    requires x / 4 == n0 && x % 4 * 16 + y / 16 == n1 && y % 16 * 4 + z / 64 == n2 && z % 64 == n3
    ensures Quad(x, y, z) == [CharOf(n0), CharOf(n1), CharOf(n2), CharOf(n3)]
  {
  }

  lemma FirstBits(x: int, y: int, z: int)
    requires 0 <= x < 64 && 0 <= y < 64 && 0 <= z < 64
    ensures (x * 4 + y / 16) / 4 == x && (x * 4 + y / 16) % 4 * 16 + (y % 16 * 16 + z / 4) / 16 == y
  {
  }

  lemma LastBits(y: int, z: int, u: int)
    requires 0 <= y < 64 && 0 <= z < 64 && 0 <= u < 64
    ensures (y % 16 * 16 + z / 4) % 16 * 4 + (z % 4 * 64 + u) / 64 == z && (z % 4 * 64 + u) % 64 == u
  {
  }

  /** A group of four characters, whatever follows. */
  lemma DecodesFour(t: string)
    requires |t| >= 4 && IsUrlText(t[..4])
    ensures forall i :: 0 <= i < 4 ==> ValueOf(t[i]).Some? && CharOf(ValueOf(t[i]).value) == t[i]
    ensures var rest := DecodePadded(t[4..]);
            DecodePadded(t) == if rest.None? then None
                               else Some(ThreeBytes(ValueOf(t[0]).value, ValueOf(t[1]).value, ValueOf(t[2]).value,
                                                    ValueOf(t[3]).value) + rest.value)
  {
    forall i | 0 <= i < 4 ensures ValueOf(t[i]).Some? && CharOf(ValueOf(t[i]).value) == t[i] {
      assert t[..4][i] == t[i];
      CharOfValueOf(t[i]);
    }
    assert t[..4][2] == t[2] && t[..4][3] == t[3];
    assert t[2..][0] == t[2] && t[3..][0] == t[3] && t[2] != '=' && t[3] != '=';
  }

  lemma RestoreRest(s: string)
    requires |s| >= 4
    ensures RestorePadding(s)[4..] == RestorePadding(s[4..]) && RestorePadding(s)[..4] == s[..4]
  {
    assert (-|s|) % 4 == (-(|s| - 4)) % 4;
  }

  lemma FourSpell(s: string, rest: seq<Byte>)
    requires IsUrlText(s) && |s| >= 4
    requires DecodePadded(RestorePadding(s[4..])) == Some(rest) && Spells(s[4..], rest)
    ensures var r := DecodePadded(RestorePadding(s)); r.Some? && Spells(s, r.value)
  {
    var t := RestorePadding(s);
    RestoreRest(s);
    DecodesFour(t);
    assert s[..4] == [t[0], t[1], t[2], t[3]];
    FourSpelled(s, rest, ValueOf(t[0]).value, ValueOf(t[1]).value, ValueOf(t[2]).value, ValueOf(t[3]).value);
  }

  lemma FourSpelled(s: string, rest: seq<Byte>, n0: Sextet, n1: Sextet, n2: Sextet, n3: Sextet)
    requires |s| >= 4 && s[..4] == [CharOf(n0), CharOf(n1), CharOf(n2), CharOf(n3)] && Spells(s[4..], rest)
    ensures Spells(s, ThreeBytes(n0, n1, n2, n3) + rest)
  {
    var b := ThreeBytes(n0, n1, n2, n3);
    QuadOfThree(n0, n1, n2, n3);
    BodyOfThree(b, rest);
    JoinSpells(s, Body(rest), rest, b + rest);
  }

  lemma BodyOfThree(b: seq<Byte>, rest: seq<Byte>)
    requires |b| == 3
    ensures Body(b + rest) == Quad(b[0], b[1], b[2]) + Body(rest)
  {
    assert (b + rest)[3..] == rest;
  }

  lemma JoinSpells(s: string, body: string, rest: seq<Byte>, b: seq<Byte>)
    requires |s| >= 4 && body == Body(rest) && Spells(s[4..], rest) && Body(b) == s[..4] + body
    ensures Spells(s, b)
  {
    FourOff(|s|);
    assert s == s[..4] + s[4..];
    forall i | 0 <= i < |s| - 1 ensures Body(b)[i] == s[i] {
      if i >= 4 { assert s[4..][i - 4] == s[i] && Body(b)[i] == body[i - 4]; }
    }
  }

  lemma ShortDecodes(s: string)
    requires IsUrlText(s) && |s| < 4
    ensures Reads(s, DecodePadded(RestorePadding(s)))
  {
    if |s| >= 2 { TwoOrThree(s); } else if |s| == 1 { OneFails(s); } else { EmptyDecodes(s); }
  }

  lemma EmptyDecodes(s: string)
    requires s == ""
    ensures Reads(s, DecodePadded(RestorePadding(s)))
  {
    assert RestorePadding(s) == "";
  }

  lemma TwoOrThree(s: string)
    requires IsUrlText(s) && 2 <= |s| <= 3
    ensures var r := DecodePadded(RestorePadding(s)); r.Some? && Spells(s, r.value)
  {
    FewEquals();
    if |s| == 3 {
      assert RestorePadding(s) == s + "=";
      ThreeSpell(s);
    } else {
      assert RestorePadding(s) == s + "==";
      TwoSpell(s);
    }
  }

  /** The text decodes exactly if its length is not 1 modulo 4, and then to what it spells. */
  ghost predicate Reads(s: string, r: Option<seq<Byte>>) {
    (r.Some? <==> |s| % 4 != 1) && (r.Some? ==> Spells(s, r.value))
  }

  lemma {:induction false} UrlDecodes(s: string)
    requires IsUrlText(s)
    ensures Reads(s, DecodePadded(RestorePadding(s)))
  {
    if |s| < 4 {
      ShortDecodes(s);
    } else {
      UrlDecodes(s[4..]);
      LongDecodes(s, DecodePadded(RestorePadding(s[4..])));
    }
  }

  lemma FourOff(n: int)
    ensures (n - 4) % 4 == n % 4
  {
  }

  lemma LongDecodes(s: string, rest: Option<seq<Byte>>)
    requires IsUrlText(s) && |s| >= 4 && rest == DecodePadded(RestorePadding(s[4..])) && Reads(s[4..], rest)
    ensures Reads(s, DecodePadded(RestorePadding(s)))
  {
    FourOff(|s|);
    if rest.Some? { FourSpell(s, rest.value); } else { FourFails(s); }
  }

  lemma OneFails(s: string)
    requires |s| == 1
    ensures DecodePadded(RestorePadding(s)).None?
  {
    assert Equals(3) == "===";
    var padded := RestorePadding(s);
    assert padded[1] == '=';
  }

  lemma FourFails(s: string)
    requires IsUrlText(s) && |s| >= 4 && DecodePadded(RestorePadding(s[4..])).None?
    ensures DecodePadded(RestorePadding(s)).None?
  {
    RestoreRest(s);
    DecodesFour(RestorePadding(s));
  }

  /** Exactly what the decoder takes: a nonempty text of at most 4096 characters of the alphabet
      whose length is not 1 modulo 4; and it gives the bytes that text spells. */
  lemma DecodeExact(s: string)
    ensures Decode(s).Some? <==> 1 <= |s| <= 4096 && IsUrlText(s) && |s| % 4 != 1
    ensures Decode(s).Some? ==> Spells(s, Decode(s).value)
  {
    if IsUrlText(s) { UrlDecodes(s); }
  }

  lemma UrlTextIsAscii(s: string)
    requires IsUrlText(s)
    ensures IsAscii(s) && '.' !in s
  {
    assert forall i :: 0 <= i < |s| ==> s[i] as int < 128 && s[i] != '.';
  }
}
