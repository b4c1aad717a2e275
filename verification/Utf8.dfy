/**
 UTF-8 as Go's unicode/utf8 implements it (section 3 of RFC 3629): encoding of
 scalar values, and decoding of arbitrary bytes in which every byte that starts
 no well-formed sequence decodes, alone, to U+FFFD.
 */
module Utf8 {
  import opened Text

  /** A Unicode scalar value. */
  type Rune = r: int | 0 <= r < 0xD800 || 0xE000 <= r < 0x110000

  const REPLACEMENT: Rune := 0xFFFD

  /** utf8.RuneStart: whether b is not a continuation byte. */
  predicate RuneStart(b: Byte) { !(0x80 <= b < 0xC0) }

  function Encode(r: Rune): (s: Str)
    ensures 1 <= |s| <= 4
    ensures RuneStart(s[0])
    ensures forall i | 1 <= i < |s| :: !RuneStart(s[i])
    ensures r < 0x80 ==> s == [r]
    ensures r >= 0x80 ==> forall i | 0 <= i < |s| :: s[i] >= 0x80
  {
    if r < 0x80 then [r]
    else if r < 0x800 then [0xC0 + r / 64, 0x80 + r % 64]
    else if r < 0x10000 then [0xE0 + r / 64 / 64, 0x80 + r / 64 % 64, 0x80 + r % 64]
    else [0xF0 + r / 64 / 64 / 64, 0x80 + r / 64 / 64 % 64, 0x80 + r / 64 % 64, 0x80 + r % 64]
  }

  function EncodeAll(rs: seq<Rune>): Str
  {
    if rs == [] then [] else Encode(rs[0]) + EncodeAll(rs[1..])
  }

  /** Whether b may follow the first byte b0 of a multi-byte sequence. */
  predicate SecondByte(b0: Byte, b: Byte)
  {
    (if b0 == 0xE0 then 0xA0 else if b0 == 0xF0 then 0x90 else 0x80) <= b
    <= (if b0 == 0xED then 0x9F else if b0 == 0xF4 then 0x8F else 0xBF)
  }

  /** utf8.DecodeRuneInString: the first rune of s and its width in bytes. */
  function DecodeRune(s: Str): (d: (Rune, nat))
    requires |s| > 0
    ensures 1 <= d.1 <= |s| && d.1 <= 4
    ensures s[0] < 0x80 ==> d == (s[0], 1)
    ensures s[0] >= 0x80 ==> d.0 >= 0x80 && forall i | 0 <= i < d.1 :: s[i] >= 0x80
  {
    var b0 := s[0];
    if b0 < 0x80 then (b0, 1)
    else if 0xC2 <= b0 <= 0xDF && |s| >= 2 && SecondByte(b0, s[1]) then
      ((b0 as int - 0xC0) * 64 + (s[1] as int - 0x80), 2)
    else if 0xE0 <= b0 <= 0xEF && |s| >= 3 && SecondByte(b0, s[1]) && !RuneStart(s[2]) then
      ((b0 as int - 0xE0) * 4096 + (s[1] as int - 0x80) * 64 + (s[2] as int - 0x80), 3)
    else if 0xF0 <= b0 <= 0xF4 && |s| >= 4 && SecondByte(b0, s[1]) && !RuneStart(s[2]) && !RuneStart(s[3]) then
      ((b0 as int - 0xF0) * 262144 + (s[1] as int - 0x80) * 4096 + (s[2] as int - 0x80) * 64 + (s[3] as int - 0x80), 4)
    else (REPLACEMENT, 1)
  }

  /** The runes a Go range loop over s yields. */
  function DecodeAll(s: Str): seq<Rune>
    decreases |s|
  {
    if s == [] then []
    else
      var d := DecodeRune(s);
      [d.0] + DecodeAll(s[d.1..])
  }

  lemma Decode2(a: nat, b: nat, rest: Str)
    requires 2 <= a < 32 && b < 64
    ensures DecodeRune([0xC0 + a, 0x80 + b] + rest) == (a * 64 + b, 2)
  {
    var s := [0xC0 + a, 0x80 + b] + rest;
    assert s[0] == 0xC0 + a && s[1] == 0x80 + b;
  }

  lemma Decode3(a: nat, b: nat, c: nat, rest: Str)
    requires a < 16 && b < 64 && c < 64
    requires 0x800 <= a * 4096 + b * 64 + c && !(0xD800 <= a * 4096 + b * 64 + c < 0xE000)
    ensures DecodeRune([0xE0 + a, 0x80 + b, 0x80 + c] + rest) == (a * 4096 + b * 64 + c, 3)
  {
    var s := [0xE0 + a, 0x80 + b, 0x80 + c] + rest;
    assert s[0] == 0xE0 + a && s[1] == 0x80 + b && s[2] == 0x80 + c;
  }

  lemma Decode4(a: nat, b: nat, c: nat, d: nat, rest: Str)
    requires a < 5 && b < 64 && c < 64 && d < 64
    requires 0x10000 <= a * 262144 + b * 4096 + c * 64 + d < 0x110000
    ensures DecodeRune([0xF0 + a, 0x80 + b, 0x80 + c, 0x80 + d] + rest)
         == (a * 262144 + b * 4096 + c * 64 + d, 4)
  {
    var s := [0xF0 + a, 0x80 + b, 0x80 + c, 0x80 + d] + rest;
    assert s[0] == 0xF0 + a && s[1] == 0x80 + b && s[2] == 0x80 + c && s[3] == 0x80 + d;
  }

  lemma EncodeForm(r: Rune)
    ensures var q := r / 64;
      && (0x80 <= r < 0x800 ==> Encode(r) == [0xC0 + q, 0x80 + r % 64])
      && (0x800 <= r < 0x10000 ==> Encode(r) == [0xE0 + q / 64, 0x80 + q % 64, 0x80 + r % 64])
      && (0x10000 <= r ==> Encode(r) == [0xF0 + q / 64 / 64, 0x80 + q / 64 % 64, 0x80 + q % 64, 0x80 + r % 64])
  {
  }

  /** Decoding the encoding of one rune gives it back. */
  lemma {:induction false} DecodeEncode(r: Rune, rest: Str)
    ensures DecodeRune(Encode(r) + rest) == (r, |Encode(r)|)
  {
    hide DecodeRune, Encode;
    if r < 0x80 {
      assert (Encode(r) + rest)[0] == r;
    } else {
      EncodeForm(r);
      var d, q := r % 64, r / 64;
      var c, p := q % 64, q / 64;
      assert r == q * 64 + d && q == p * 64 + c;
      if r < 0x800 {
        Decode2(q, d, rest);
      } else if r < 0x10000 {
        Decode3(p, c, d, rest);
      } else {
        assert p == p / 64 * 64 + p % 64;
        Decode4(p / 64, p % 64, c, d, rest);
      }
    }
  }

  /** Decoding undoes encoding: valid UTF-8 keeps its runes. */
  lemma {:induction false} DecodeAllEncodeAll(rs: seq<Rune>)
    ensures DecodeAll(EncodeAll(rs)) == rs
    decreases |rs|
  {
    if rs != [] {
      var e := Encode(rs[0]);
      var rest := EncodeAll(rs[1..]);
      DecodeEncode(rs[0], rest);
      assert (e + rest)[|e|..] == rest;
      DecodeAllEncodeAll(rs[1..]);
      assert rs == [rs[0]] + rs[1..];
    }
  }

  lemma {:induction false} EncodeAllAppend(a: seq<Rune>, b: seq<Rune>)
    ensures EncodeAll(a + b) == EncodeAll(a) + EncodeAll(b)
    decreases |a|
  {
    if a == [] {
      assert a + b == b;
    } else {
      assert (a + b)[0] == a[0] && (a + b)[1..] == a[1..] + b;
      EncodeAllAppend(a[1..], b);
    }
  }

  /** The encoding around rune k. */
  lemma {:induction false} EncodeAllAt(rs: seq<Rune>, k: nat)
    requires k < |rs|
    ensures EncodeAll(rs) == EncodeAll(rs[..k]) + Encode(rs[k]) + EncodeAll(rs[k + 1..])
    ensures EncodeAll(rs[..k + 1]) == EncodeAll(rs[..k]) + Encode(rs[k])
  {
    var head, tail := rs[..k] + [rs[k]], rs[k + 1..];
    assert rs == head + tail && rs[..k + 1] == head;
    EncodeAllAppend(head, tail);
    EncodeAllAppend(rs[..k], [rs[k]]);
    EncodeOne(rs[k]);
  }

  lemma {:induction false} EncodeOne(r: Rune)
    ensures EncodeAll([r]) == Encode(r)
  {
    assert EncodeAll([]) == [];
    assert [r][1..] == [];
  }

  /** Pure ASCII decodes and encodes to itself. */
  lemma {:induction false} AsciiText(s: Str)
    requires forall i | 0 <= i < |s| :: s[i] < 0x80
    ensures |DecodeAll(s)| == |s| && forall i | 0 <= i < |s| :: DecodeAll(s)[i] == s[i]
    ensures EncodeAll(DecodeAll(s)) == s
    decreases |s|
  {
    if s != [] {
      AsciiText(s[1..]);
      assert DecodeAll(s)[1..] == DecodeAll(s[1..]);
      assert s == [s[0]] + s[1..];
    }
  }
}
