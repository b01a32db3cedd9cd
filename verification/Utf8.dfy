/** UTF-8 as section 3 of RFC 3629 defines it: a strict encoder and decoder that are
    inverse to each other, and the exact meaning of a character boundary.
    A Rust `String` is modelled by `string`; its bytes are `Encode` of it. */
module Utf8 {
  import opened Wrappers

  type byte = b: int | 0 <= b < 0x100

  predicate IsContinuation(b: byte) { 0x80 <= b < 0xC0 }

  /** How many bytes a character takes. */
  function Width(c: char): (w: nat)
    ensures 1 <= w <= 4
  {
    var n := c as int;
    if n < 0x80 then 1 else if n < 0x800 then 2 else if n < 0x10000 then 3 else 4
  }

  function EncodeChar(c: char): (bs: seq<byte>)
    ensures |bs| == Width(c)
    ensures !IsContinuation(bs[0]) && forall i | 1 <= i < |bs| :: IsContinuation(bs[i])
  {
    var n := c as int;
    if n < 0x80 then [n]
    else if n < 0x800 then [0xC0 + n / 0x40, 0x80 + n % 0x40]
    else if n < 0x10000 then [0xE0 + n / 0x1000, 0x80 + n / 0x40 % 0x40, 0x80 + n % 0x40]
    else [0xF0 + n / 0x40000, 0x80 + n / 0x1000 % 0x40, 0x80 + n / 0x40 % 0x40, 0x80 + n % 0x40]
  }

  function Encode(s: string): seq<byte> {
    if s == [] then [] else EncodeChar(s[0]) + Encode(s[1..])
  }

  /** The number of bytes the character starting with lead byte `b` takes; 0 for a byte that starts none. */
  function LeadLength(b: byte): nat {
    if b < 0x80 then 1
    else if 0xC2 <= b < 0xE0 then 2
    else if 0xE0 <= b < 0xF0 then 3
    else if 0xF0 <= b < 0xF5 then 4
    else 0
  }

  function Bits(b: byte, marker: int): int { b as int - marker }

  /** The scalar value written by a character's bytes, the payload bits in big-endian order. */
  function ScalarOf(bs: seq<byte>): int
    requires 1 <= |bs| <= 4
  {
    if |bs| == 1 then bs[0]
    else if |bs| == 2 then Bits(bs[0], 0xC0) * 0x40 + Bits(bs[1], 0x80)
    else if |bs| == 3 then Bits(bs[0], 0xE0) * 0x1000 + Bits(bs[1], 0x80) * 0x40 + Bits(bs[2], 0x80)
    else Bits(bs[0], 0xF0) * 0x40000 + Bits(bs[1], 0x80) * 0x1000 + Bits(bs[2], 0x80) * 0x40 + Bits(bs[3], 0x80)
  }

  /** Overlong forms, surrogates and values past U+10FFFF are refused. */
  predicate IsScalar(n: int, len: nat) {
    && (len == 3 ==> 0x800 <= n)
    && (len == 4 ==> 0x10000 <= n)
    && (0 <= n < 0xD800 || 0xE000 <= n <= 0x10FFFF)
  }

  /** The first character of `bs`, if one is well formed there. */
  function DecodeChar(bs: seq<byte>): Option<char> {
    if bs == [] then None else
    var len := LeadLength(bs[0]);
    if len == 0 || |bs| < len || exists i | 1 <= i < len :: !IsContinuation(bs[i]) then None else
    var n := ScalarOf(bs[..len]);
    if IsScalar(n, len) then Some(n as char) else None
  }

  lemma ScalarOfEncode(c: char)
    ensures var bs := EncodeChar(c);
      LeadLength(bs[0]) == |bs| && ScalarOf(bs) == c as int && IsScalar(c as int, |bs|)
  {
    var n := c as int;
    if 0x800 <= n < 0x10000 {
      assert n / 0x40 == n / 0x1000 * 0x40 + n / 0x40 % 0x40;
    } else if 0x10000 <= n {
      assert n / 0x40 == n / 0x1000 * 0x40 + n / 0x40 % 0x40;
      assert n / 0x1000 == n / 0x40000 * 0x40 + n / 0x1000 % 0x40;
    }
  }

  lemma EncodeOfScalar(bs: seq<byte>)
    requires bs != [] && LeadLength(bs[0]) == |bs|
    requires forall i | 1 <= i < |bs| :: IsContinuation(bs[i])
    requires IsScalar(ScalarOf(bs), |bs|)
    ensures EncodeChar(ScalarOf(bs) as char) == bs
  {
    var n := ScalarOf(bs);
    if |bs| == 3 {
      Digits(Bits(bs[0], 0xE0), Bits(bs[1], 0x80), Bits(bs[2], 0x80));
    } else if |bs| == 4 {
      Digits(Bits(bs[0], 0xF0) * 0x40 + Bits(bs[1], 0x80), Bits(bs[2], 0x80), Bits(bs[3], 0x80));
      Digits(Bits(bs[0], 0xF0), Bits(bs[1], 0x80), 0);
    }
  }

  lemma Digits(a: int, b: int, c: int)
    requires 0 <= a && 0 <= b < 0x40 && 0 <= c < 0x40
    ensures var n := a * 0x1000 + b * 0x40 + c;
      n / 0x1000 == a && n / 0x40 % 0x40 == b && n % 0x40 == c && n / 0x40 == a * 0x40 + b
  {
  }

  lemma EncodeOfDecodeChar(bs: seq<byte>)
    requires DecodeChar(bs).Some?
    ensures EncodeChar(DecodeChar(bs).value) == bs[..LeadLength(bs[0])]
    ensures |EncodeChar(DecodeChar(bs).value)| == LeadLength(bs[0]) <= |bs|
  {
    EncodeOfScalar(bs[..LeadLength(bs[0])]);
  }

  function Decode(bs: seq<byte>): Option<string> {
    if bs == [] then Some([]) else
    match DecodeChar(bs)
    case None => None
    case Some(c) =>
      match Decode(bs[LeadLength(bs[0])..])
      case None => None
      case Some(s) => Some([c] + s)
  }

  lemma DecodeCharOfEncodeChar(c: char, rest: seq<byte>)
    ensures DecodeChar(EncodeChar(c) + rest) == Some(c)
    ensures LeadLength((EncodeChar(c) + rest)[0]) == |EncodeChar(c)|
  {
    var bs := EncodeChar(c) + rest;
    ScalarOfEncode(c);
    assert bs[..|EncodeChar(c)|] == EncodeChar(c);
    assert forall i | 0 <= i < |EncodeChar(c)| :: bs[i] == EncodeChar(c)[i];
  }

  /** Decoding undoes encoding. */
  lemma {:induction false} DecodeOfEncode(s: string)
    ensures Decode(Encode(s)) == Some(s)
  {
    if s != [] {
      DecodeCharOfEncodeChar(s[0], Encode(s[1..]));
      assert Encode(s)[|EncodeChar(s[0])|..] == Encode(s[1..]);
      DecodeOfEncode(s[1..]);
      assert s == [s[0]] + s[1..];
    }
  }

  lemma EncodeCons(c: char, s: string)
    ensures Encode([c] + s) == EncodeChar(c) + Encode(s)
  {
    assert ([c] + s)[1..] == s;
  }

  lemma DecodeCons(bs: seq<byte>) returns (c: char, rest: seq<byte>)
    requires bs != [] && Decode(bs).Some?
    ensures |rest| < |bs| && Decode(rest).Some? && Decode(bs).value == [c] + Decode(rest).value
    ensures EncodeChar(c) + rest == bs
  {
    c, rest := DecodeChar(bs).value, bs[LeadLength(bs[0])..];
    EncodeOfDecodeChar(bs);
    assert bs == bs[..LeadLength(bs[0])] + rest;
  }

  /** The decoder accepts nothing but encodings. */
  lemma {:induction false} EncodeOfDecode(bs: seq<byte>)
    requires Decode(bs).Some?
    ensures Encode(Decode(bs).value) == bs
    decreases |bs|
  {
    if bs != [] {
      var c, rest := DecodeCons(bs);
      EncodeOfDecode(rest);
      EncodeCons(c, Decode(rest).value);
    }
  }

  /** `str::is_char_boundary` for an offset inside the string. */
  predicate IsBoundary(bs: seq<byte>, k: nat)
    requires k <= |bs|
  {
    k == 0 || k == |bs| || !IsContinuation(bs[k])
  }

  /** A byte offset is a boundary exactly when the bytes before it are valid UTF-8. */
  lemma {:induction false} BoundaryIffValidPrefix(s: string, k: nat)
    requires k <= |Encode(s)|
    ensures IsBoundary(Encode(s), k) <==> Decode(Encode(s)[..k]).Some?
  {
    var bs := Encode(s);
    if k == 0 || k == |bs| {
      assert k == |bs| ==> bs[..k] == bs;
      DecodeOfEncode(s);
    } else {
      var first := EncodeChar(s[0]);
      DecodeCharOfEncodeChar(s[0], Encode(s[1..]));
      if k < |first| {
        assert bs[k] == first[k] && bs[..k][0] == first[0];
      } else {
        var rest := Encode(s[1..]);
        var k' := k - |first|;
        BoundaryIffValidPrefix(s[1..], k');
        assert bs[..k] == first + rest[..k'];
        DecodeCharOfEncodeChar(s[0], rest[..k']);
        assert bs[..k][|first|..] == rest[..k'];
        assert bs[k] == rest[k'];
        if k' == 0 {
          assert rest != [];
          DecodeCharOfEncodeChar(s[1], Encode(s[1..][1..]));
        }
      }
    }
  }

  lemma {:induction false} EncodeConcat(a: string, b: string)
    ensures Encode(a + b) == Encode(a) + Encode(b)
  {
    if a == [] {
      assert a + b == b;
    } else {
      EncodeConcat(a[1..], b);
      assert (a + b)[1..] == a[1..] + b;
    }
  }
}
