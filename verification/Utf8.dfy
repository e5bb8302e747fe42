/**
 The strings accepted by `std::str::from_utf8`: the octet sequences generated by the grammar of
 section 4 of RFC 3629.
 */
module Utf8 {
  import opened Basics

  predicate IsTail(b: Byte) {
    0x80 <= b <= 0xBF
  }

  /** The length of the UTF8-char at the front of `s`, or 0 when `s` does not begin with one. */
  function CharLength(s: seq<Byte>): (n: nat)
    ensures n <= |s|
  {
    if |s| >= 1 && s[0] <= 0x7F then 1
    else if |s| >= 2 && 0xC2 <= s[0] <= 0xDF && IsTail(s[1]) then 2
    else if |s| >= 3 && IsTail(s[2]) && StartsThree(s[0], s[1]) then 3
    else if |s| >= 4 && IsTail(s[2]) && IsTail(s[3]) && StartsFour(s[0], s[1]) then 4
    else 0
  }

  predicate StartsThree(a: Byte, b: Byte) {
    || (a == 0xE0 && 0xA0 <= b <= 0xBF)
    || (0xE1 <= a <= 0xEC && IsTail(b))
    || (a == 0xED && 0x80 <= b <= 0x9F)
    || (0xEE <= a <= 0xEF && IsTail(b))
  }

  predicate StartsFour(a: Byte, b: Byte) {
    || (a == 0xF0 && 0x90 <= b <= 0xBF)
    || (0xF1 <= a <= 0xF3 && IsTail(b))
    || (a == 0xF4 && 0x80 <= b <= 0x8F)
  }

  predicate ValidUtf8(s: seq<Byte>)
    decreases |s|
  {
    s == [] || (CharLength(s) > 0 && ValidUtf8(s[CharLength(s)..]))
  }

  lemma {:induction false} AsciiIsValid(s: seq<Byte>)
    requires forall i :: 0 <= i < |s| ==> s[i] < 0x80
    ensures ValidUtf8(s)
  {
    if s != [] {
      assert CharLength(s) == 1;
      AsciiIsValid(s[1..]);
    }
  }

  // ---------- what the valid strings are ----------

  /** A Unicode scalar value: a code point that is not a surrogate. */
  predicate IsScalar(n: int) {
    0 <= n < 0xD800 || 0xE000 <= n < 0x11_0000
  }

  /** The bytes of a scalar value, by the table in section 3 of RFC 3629. */
  function Encode(n: int): seq<Byte>
    requires IsScalar(n)
  {
    if n < 0x80 then [n]
    else if n < 0x800 then [0xC0 + n / 0x40, 0x80 + n % 0x40]
    else if n < 0x1_0000 then [0xE0 + n / 0x1000, 0x80 + n / 0x40 % 0x40, 0x80 + n % 0x40]
    else [0xF0 + n / 0x4_0000, 0x80 + n / 0x1000 % 0x40, 0x80 + n / 0x40 % 0x40, 0x80 + n % 0x40]
  }

  ghost predicate AreScalars(ns: seq<int>) {
    forall i :: 0 <= i < |ns| ==> IsScalar(ns[i])
  }

  function EncodeAll(ns: seq<int>): seq<Byte>
    requires AreScalars(ns)
  {
    if ns == [] then [] else Encode(ns[0]) + EncodeAll(ns[1..])
  }

  lemma EncodingIsChar(n: int, tail: seq<Byte>)
    requires IsScalar(n)
    ensures CharLength(Encode(n) + tail) == |Encode(n)| > 0
  {
    var a, b, c := n / 0x40, n / 0x1000, n / 0x4_0000;
    assert b == a / 0x40 && c == b / 0x40;
  }

  lemma TwoBytes(a: Byte, b: Byte) returns (n: int)
    requires 0xC2 <= a <= 0xDF && IsTail(b)
    ensures IsScalar(n) && Encode(n) == [a, b]
  {
    n := 0x40 * (a as int - 0xC0) + (b as int - 0x80);
  }

  lemma ThreeBytes(a: Byte, b: Byte, c: Byte) returns (n: int)
    requires StartsThree(a, b) && IsTail(c)
    ensures IsScalar(n) && Encode(n) == [a, b, c]
  {
    var x, y, z: int := a as int - 0xE0, b as int - 0x80, c as int - 0x80;
    n := 0x1000 * x + 0x40 * y + z;
    assert n / 0x1000 == x && n / 0x40 == 0x40 * x + y;
  }

  lemma FourBytes(a: Byte, b: Byte, c: Byte, d: Byte) returns (n: int)
    requires StartsFour(a, b) && IsTail(c) && IsTail(d)
    ensures IsScalar(n) && Encode(n) == [a, b, c, d]
  {
    var w, x, y, z: int := a as int - 0xF0, b as int - 0x80, c as int - 0x80, d as int - 0x80;
    n := 0x4_0000 * w + 0x1000 * x + 0x40 * y + z;
    assert n / 0x4_0000 == w && n / 0x1000 == 0x40 * w + x && n / 0x40 == 0x1000 * w + 0x40 * x + y;
  }

  /** The scalar value of the character at the front. */
  lemma CharIsEncoding(s: seq<Byte>) returns (n: int)
    requires CharLength(s) > 0
    ensures IsScalar(n) && Encode(n) == s[..CharLength(s)]
  {
    if CharLength(s) == 1 {
      n := s[0];
    } else {
      hide Encode, StartsThree, StartsFour, IsTail;
      if CharLength(s) == 2 {
        n := TwoBytes(s[0], s[1]);
      } else if CharLength(s) == 3 {
        n := ThreeBytes(s[0], s[1], s[2]);
      } else {
        n := FourBytes(s[0], s[1], s[2], s[3]);
      }
    }
  }

  lemma {:induction false} EncodingIsValid(ns: seq<int>)
    requires AreScalars(ns)
    ensures ValidUtf8(EncodeAll(ns))
  {
    hide Encode, CharLength;
    if ns != [] {
      EncodingIsChar(ns[0], EncodeAll(ns[1..]));
      EncodingIsValid(ns[1..]);
      var s := EncodeAll(ns);
      assert s[CharLength(s)..] == EncodeAll(ns[1..]);
    }
  }

  lemma {:induction false} ValidIsEncoding(s: seq<Byte>) returns (ns: seq<int>)
    requires ValidUtf8(s)
    ensures AreScalars(ns) && EncodeAll(ns) == s
    decreases |s|
  {
    hide Encode, CharLength;
    if s == [] {
      ns := [];
    } else {
      var n := CharIsEncoding(s);
      var rest := ValidIsEncoding(s[CharLength(s)..]);
      ns := [n] + rest;
      assert ns[1..] == rest && s == s[..CharLength(s)] + s[CharLength(s)..];
    }
  }

  /** A string is valid exactly when it is the encodings of some scalar values, one after the other. */
  lemma ValidExactly(s: seq<Byte>)
    ensures ValidUtf8(s) <==> exists ns :: AreScalars(ns) && EncodeAll(ns) == s
  {
    if ValidUtf8(s) {
      var ns := ValidIsEncoding(s);
    }
    if ns :| AreScalars(ns) && EncodeAll(ns) == s {
      EncodingIsValid(ns);
    }
  }
}
