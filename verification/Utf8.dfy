/** UTF-8 as Python's `str.encode("utf-8")` and strict `bytes.decode("utf-8")` apply it
    to frames and token payloads.  A Dafny `char` is a Unicode scalar value, so a
    Python string with a lone surrogate (which cannot be encoded) has no counterpart. */
module Utf8 {
  import opened Wrappers

  type Byte = b: int | 0 <= b < 256

  const NEWLINE: Byte := 10

  function EncodeChar(c: char): (r: seq<Byte>)
    ensures 1 <= |r| <= 4
    ensures c as int < 128 ==> r == [c as int]
    ensures NEWLINE in r <==> c == '\n'
  {
    var n := c as int;
    if n < 0x80 then [n]
    else if n < 0x800 then [0xC0 + n / 64, 0x80 + n % 64]
    else if n < 0x1_0000 then [0xE0 + n / 4096, 0x80 + n / 64 % 64, 0x80 + n % 64]
    else [0xF0 + n / 262144, 0x80 + n / 4096 % 64, 0x80 + n / 64 % 64, 0x80 + n % 64]
  }

  function Encode(s: string): (r: seq<Byte>)
    ensures |s| <= |r| <= 4 * |s|
  {
    if s == "" then [] else EncodeChar(s[0]) + Encode(s[1..])
  }

  predicate IsTail(b: Byte) { 0x80 <= b < 0xC0 }

  predicate IsScalar(n: int) { 0 <= n < 0xD800 || 0xE000 <= n < 0x11_0000 }

  function Above(b: Byte, base: int): int { b - base }

  /** One scalar value and how many bytes it took; overlong forms and surrogates are rejected. */
  function DecodeChar(b: seq<Byte>): (r: Option<(char, nat)>)
    requires b != []
    ensures r.Some? ==> 1 <= r.value.1 <= |b|
  {
    if b[0] < 0x80 then Some((b[0] as char, 1))
    else if 0xC0 <= b[0] < 0xE0 && |b| >= 2 && IsTail(b[1]) then
      var n := Above(b[0], 0xC0) * 64 + Above(b[1], 0x80);
      if 0x80 <= n then Some((n as char, 2)) else None
    else if 0xE0 <= b[0] < 0xF0 && |b| >= 3 && IsTail(b[1]) && IsTail(b[2]) then
      var n := Above(b[0], 0xE0) * 4096 + Above(b[1], 0x80) * 64 + Above(b[2], 0x80);
      if 0x800 <= n && IsScalar(n) then Some((n as char, 3)) else None
    else if 0xF0 <= b[0] < 0xF8 && |b| >= 4 && IsTail(b[1]) && IsTail(b[2]) && IsTail(b[3]) then
      var n := Above(b[0], 0xF0) * 262144 + Above(b[1], 0x80) * 4096 + Above(b[2], 0x80) * 64 + Above(b[3], 0x80);
      if 0x1_0000 <= n && IsScalar(n) then Some((n as char, 4)) else None
    else None
  }

  function Decode(b: seq<Byte>): Option<string>
  {
    if b == [] then Some("")
    else
      var (c, n) :- DecodeChar(b);
      var rest :- Decode(b[n..]);
      Some([c] + rest)
  }

  lemma DecodeShortChar(c: char, rest: seq<Byte>)
    requires c as int < 0x800
    ensures DecodeChar(EncodeChar(c) + rest) == Some((c, |EncodeChar(c)|))
  {
    var n := c as int;
    assert n == (n / 64) * 64 + n % 64;
  }

  lemma DecodeMediumChar(c: char, rest: seq<Byte>)
    requires 0x800 <= c as int < 0x1_0000
    ensures DecodeChar(EncodeChar(c) + rest) == Some((c, |EncodeChar(c)|))
  {
    var n := c as int;
    assert n == (n / 4096) * 4096 + (n / 64 % 64) * 64 + n % 64;
  }

  lemma DecodeLongChar(c: char, rest: seq<Byte>)
    requires c as int >= 0x1_0000
    ensures DecodeChar(EncodeChar(c) + rest) == Some((c, |EncodeChar(c)|))
  {
    var n := c as int;
    assert n == (n / 262144) * 262144 + (n / 4096 % 64) * 4096 + (n / 64 % 64) * 64 + n % 64;
  }

  lemma DecodeEncodeChar(c: char, rest: seq<Byte>)
    ensures DecodeChar(EncodeChar(c) + rest) == Some((c, |EncodeChar(c)|))
  {
    if c as int < 0x800 { DecodeShortChar(c, rest); }
    else if c as int < 0x1_0000 { DecodeMediumChar(c, rest); }
    else { DecodeLongChar(c, rest); }
  }

  /** Decoding what was encoded gives the text back. */
  lemma {:induction false} DecodeEncode(s: string)
    ensures Decode(Encode(s)) == Some(s)
  {
    if s != "" {
      DecodeEncode(s[1..]);
      DecodeEncodeChar(s[0], Encode(s[1..]));
      assert Encode(s)[|EncodeChar(s[0])|..] == Encode(s[1..]);
      assert [s[0]] + s[1..] == s;
    }
  }

  lemma Associative(a: seq<Byte>, b: seq<Byte>, c: seq<Byte>)
    ensures a + (b + c) == (a + b) + c
  {
  }

  lemma FirstOfConcat(s: string, t: string)
    requires s != ""
    ensures s + t != "" && (s + t)[0] == s[0] && (s + t)[1..] == s[1..] + t
  {
  }

  lemma EncodeFirst(s: string)
    requires s != ""
    ensures Encode(s) == EncodeChar(s[0]) + Encode(s[1..])
  {
  }

  lemma {:induction false} EncodeConcat(s: string, t: string)
    ensures Encode(s + t) == Encode(s) + Encode(t)
  {
    if s == "" {
      assert s + t == t && Encode(s) == [];
    } else {
      EncodeConcat(s[1..], t);
      FirstOfConcat(s, t);
      EncodeFirst(s + t);
      EncodeFirst(s);
      Associative(EncodeChar(s[0]), Encode(s[1..]), Encode(t));
    }
  }

  // ---------- strictness ----------

  /** The digits of a number to base 64. */
  lemma TwoDigits(x: int, y: int)
    requires 0 <= y < 64
    ensures (x * 64 + y) / 64 == x && (x * 64 + y) % 64 == y
  {
  }

  lemma ThreeDigits(x: int, y: int, z: int)
    requires 0 <= y < 64 && 0 <= z < 64
    ensures var n := x * 4096 + y * 64 + z;
            n / 4096 == x && n / 64 == x * 64 + y && n / 64 % 64 == y && n % 64 == z
  {
    TwoDigits(x * 64 + y, z);
    TwoDigits(x, y);
    var n := x * 4096 + y * 64 + z;
    assert n == (x * 64 + y) * 64 + z;
  }

  lemma FourDigits(x: int, y: int, z: int, u: int)
    requires 0 <= y < 64 && 0 <= z < 64 && 0 <= u < 64
    ensures var n := x * 262144 + y * 4096 + z * 64 + u;
            n / 262144 == x && n / 4096 % 64 == y && n / 64 % 64 == z && n % 64 == u
  {
    var n, m := x * 262144 + y * 4096 + z * 64 + u, x * 4096 + y * 64 + z;
    assert n == m * 64 + u;
    TwoDigits(m, u);
    ThreeDigits(x, y, z);
  }

  lemma ShortStrict(b: seq<Byte>)
    requires |b| >= 2 && 0xC0 <= b[0] < 0xE0 && DecodeChar(b).Some?
    ensures EncodeChar(DecodeChar(b).value.0) == b[..2] && DecodeChar(b).value.1 == 2
  {
    var x: int, y: int := b[0], b[1];
    TwoDigits(x - 0xC0, y - 0x80);
  }

  lemma MediumStrict(b: seq<Byte>)
    requires |b| >= 3 && 0xE0 <= b[0] < 0xF0 && DecodeChar(b).Some?
    ensures EncodeChar(DecodeChar(b).value.0) == b[..3] && DecodeChar(b).value.1 == 3
  {
    var x: int, y: int, z: int := b[0], b[1], b[2];
    ThreeDigits(x - 0xE0, y - 0x80, z - 0x80);
  }

  lemma LongStrict(b: seq<Byte>)
    requires |b| >= 4 && 0xF0 <= b[0] && DecodeChar(b).Some?
    ensures EncodeChar(DecodeChar(b).value.0) == b[..4] && DecodeChar(b).value.1 == 4
  {
    var x: int, y: int, z: int, u: int := b[0], b[1], b[2], b[3];
    FourDigits(x - 0xF0, y - 0x80, z - 0x80, u - 0x80);
  }

  lemma DecodeCharStrict(b: seq<Byte>)
    requires b != [] && DecodeChar(b).Some?
    ensures EncodeChar(DecodeChar(b).value.0) == b[..DecodeChar(b).value.1]
  {
    if b[0] >= 0xF0 { LongStrict(b); }
    else if b[0] >= 0xE0 { MediumStrict(b); }
    else if b[0] >= 0xC0 { ShortStrict(b); }
  }

  lemma {:induction false} DecodedEncodes(b: seq<Byte>)
    requires Decode(b).Some?
    ensures Encode(Decode(b).value) == b
  {
    if b != [] {
      var (c, n) := DecodeChar(b).value;
      DecodeFirst(b);
      DecodeCharStrict(b);
      DecodedEncodes(b[n..]);
      EncodeJoin(b, n, c, Decode(b[n..]).value);
    }
  }

  lemma DecodeFirst(b: seq<Byte>)
    requires b != [] && Decode(b).Some?
    ensures DecodeChar(b).Some? && Decode(b[DecodeChar(b).value.1..]).Some?
    ensures Decode(b).value == [DecodeChar(b).value.0] + Decode(b[DecodeChar(b).value.1..]).value
  {
  }

  lemma EncodeJoin(b: seq<Byte>, n: nat, c: char, rest: string)
    requires n <= |b| && EncodeChar(c) == b[..n] && Encode(rest) == b[n..]
    ensures Encode([c] + rest) == b
  {
    EncodeFirst([c] + rest);
    assert ([c] + rest)[1..] == rest && b == b[..n] + b[n..];
  }

  /** Decoding is strict: bytes decode to a text exactly if they are its one encoding, so overlong
      forms, surrogates and stray bytes decode to none. */
  lemma DecodeExact(b: seq<Byte>, s: string)
    ensures Decode(b) == Some(s) <==> Encode(s) == b
  {
    DecodeEncode(s);
    if Decode(b) == Some(s) { DecodedEncodes(b); }
  }

  predicate IsAscii(s: string) { forall i :: 0 <= i < |s| ==> s[i] as int < 128 }

  lemma {:induction false} EncodeAscii(s: string)
    requires IsAscii(s)
    ensures |Encode(s)| == |s|
  {
    if s != "" { EncodeAscii(s[1..]); }
  }

  /** A newline byte appears in the encoding only where the text has a newline. */
  lemma {:induction false} EncodeNewline(s: string)
    ensures NEWLINE in Encode(s) <==> '\n' in s
  {
    if s != "" {
      EncodeNewline(s[1..]);
      assert s == [s[0]] + s[1..];
    }
  }
}
