/** The text check of the devicetree parser against the encoding itself (sections 3 and 4 of
    RFC 3629). */
module Utf8 {
  import opened Bytes
  import opened DeviceTree

  /** A character number UTF-8 can encode. */
  predicate Scalar(c: nat) {
    c <= 0x10_FFFF && !(0xD800 <= c <= 0xDFFF)
  }

  /** The bytes of a character: its bits, six to a byte after the first. */
  function Encoded(c: nat): (r: seq<Byte>)
    requires Scalar(c)
    ensures 0 < |r| <= 4
  {
    if c < 0x80 then [c]
    else if c < 0x800 then [0xC0 + c / 64, 0x80 + c % 64]
    else if c < 0x1_0000 then [0xE0 + c / 4096, 0x80 + c / 64 % 64, 0x80 + c % 64]
    else [0xF0 + c / 262144, 0x80 + c / 4096 % 64, 0x80 + c / 64 % 64, 0x80 + c % 64]
  }

  predicate AllScalar(cs: seq<nat>) {
    forall i :: 0 <= i < |cs| ==> Scalar(cs[i])
  }

  function EncodedAll(cs: seq<nat>): seq<Byte>
    requires AllScalar(cs)
  {
    if cs == [] then [] else Encoded(cs[0]) + EncodedAll(cs[1..])
  }

  lemma TwoBytes(c: nat)
    requires 0x80 <= c < 0x800
    ensures 0xC2 <= 0xC0 + c / 64 <= 0xDF
  {
  }

  lemma ThreeBytes(c: nat)
    requires 0x800 <= c < 0x1_0000 && Scalar(c)
    ensures var b, x := 0xE0 + c / 4096, 0x80 + c / 64 % 64;
            && 0xE0 <= b <= 0xEF && 0x80 <= x <= 0xBF
            && (b == 0xE0 ==> x >= 0xA0) && (b == 0xED ==> x <= 0x9F)
  {
    assert c == 4096 * (c / 4096) + 64 * (c / 64 % 64) + c % 64;
  }

  lemma FourBytes(c: nat)
    requires 0x1_0000 <= c && Scalar(c)
    ensures var b, x := 0xF0 + c / 262144, 0x80 + c / 4096 % 64;
            && 0xF0 <= b <= 0xF4 && 0x80 <= x <= 0xBF
            && (b == 0xF0 ==> x >= 0x90) && (b == 0xF4 ==> x <= 0x8F)
  {
    assert c / 4096 == 64 * (c / 262144) + c / 4096 % 64;
  }

  /** An encoded character is found whole at the front. */
  lemma FrontIsWhole(c: nat, rest: seq<Byte>)
    requires Scalar(c)
    ensures Encoded(c) + rest != [] && CharLength(Encoded(c) + rest) == |Encoded(c)|
  {
    if 0x80 <= c < 0x800 {
      TwoBytes(c);
    } else if 0x800 <= c < 0x1_0000 {
      ThreeBytes(c);
    } else if 0x1_0000 <= c {
      FourBytes(c);
    }
  }

  /** The character the bytes at the front stand for. */
  function Front(s: seq<Byte>): int
    requires s != [] && CharLength(s) != 0
  {
    var b: int := s[0];
    match CharLength(s)
    case 1 => b
    case 2 => 64 * (b - 0xC0) + Low(s[1])
    case 3 => 4096 * (b - 0xE0) + 64 * Low(s[1]) + Low(s[2])
    case _ => 262144 * (b - 0xF0) + 4096 * Low(s[1]) + 64 * Low(s[2]) + Low(s[3])
  }

  /** The six bits of a byte after the first. */
  function Low(b: Byte): (r: int)
    ensures Tail(b) ==> 0 <= r < 64
  {
    b as int - 0x80
  }

  lemma FrontTwo(a: nat, b: nat)
    requires 2 <= a < 32 && b < 64
    ensures var c := 64 * a + b; 0x80 <= c < 0x800 && c / 64 == a && c % 64 == b
  {
  }

  lemma FrontThree(a: nat, b: nat, d: nat)
    requires a < 16 && b < 64 && d < 64 && (a == 0 ==> b >= 32) && (a == 13 ==> b < 32)
    ensures var c := 4096 * a + 64 * b + d;
            0x800 <= c < 0x1_0000 && Scalar(c) && c / 4096 == a && c / 64 % 64 == b && c % 64 == d
  {
    var c := 4096 * a + 64 * b + d;
    assert c / 64 == 64 * a + b;
  }

  lemma FrontFour(a: nat, b: nat, d: nat, e: nat)
    requires a < 5 && b < 64 && d < 64 && e < 64 && (a == 0 ==> b >= 16) && (a == 4 ==> b < 16)
    ensures var c := 262144 * a + 4096 * b + 64 * d + e;
            0x1_0000 <= c && Scalar(c) && c / 262144 == a && c / 4096 % 64 == b && c / 64 % 64 == d && c % 64 == e
  {
    var c := 262144 * a + 4096 * b + 64 * d + e;
    assert c / 64 == 64 * (64 * a + b) + d && c / 4096 == 64 * a + b;
  }

  /** Whatever is accepted at the front is the encoding of a character. */
  lemma FrontIsEncoded(s: seq<Byte>)
    requires s != [] && CharLength(s) != 0
    ensures Front(s) >= 0 && Scalar(Front(s)) && s[..CharLength(s)] == Encoded(Front(s))
  {
    var n, b := CharLength(s), s[0] as int;
    if n == 2 {
      FrontTwo(b - 0xC0, Low(s[1]));
    } else if n == 3 {
      FrontThree(b - 0xE0, Low(s[1]), Low(s[2]));
    } else if n == 4 {
      FrontFour(b - 0xF0, Low(s[1]), Low(s[2]), Low(s[3]));
    }
  }

  lemma {:induction false} EncodedIsValid(cs: seq<nat>)
    requires AllScalar(cs)
    ensures ValidUtf8(EncodedAll(cs))
  {
    if cs != [] {
      var rest := EncodedAll(cs[1..]);
      EncodedIsValid(cs[1..]);
      FrontIsWhole(cs[0], rest);
      assert EncodedAll(cs)[|Encoded(cs[0])|..] == rest;
    }
  }

  lemma {:induction false} ValidIsEncoded(s: seq<Byte>) returns (cs: seq<nat>)
    requires ValidUtf8(s)
    ensures AllScalar(cs) && EncodedAll(cs) == s
    decreases |s|
  {
    if s == [] {
      cs := [];
    } else {
      var n := CharLength(s);
      var rest := ValidIsEncoded(s[n..]);
      FrontIsEncoded(s);
      cs := [Front(s)] + rest;
      assert cs[1..] == rest && s == s[..n] + s[n..];
    }
  }

  /** Text is accepted exactly when it is the encoding of some characters. */
  lemma ValidIff(s: seq<Byte>)
    ensures ValidUtf8(s) <==> exists cs :: AllScalar(cs) && EncodedAll(cs) == s
  {
    if ValidUtf8(s) {
      var cs := ValidIsEncoded(s);
    }
    if cs :| AllScalar(cs) && EncodedAll(cs) == s {
      EncodedIsValid(cs);
    }
  }
}
