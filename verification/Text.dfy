/**
 UTF-8, as `from_utf8` checks it: the byte ranges of section 4 of RFC 3629, proved to be
 exactly the encodings of Unicode scalar values.
 */
module Text {
  import opened Bytes

  /** The value of a byte. */
  function Val(b: byte): int {
    b as int
  }

  predicate Continues(b: byte) {
    0x80 <= Val(b) <= 0xBF
  }

  /** Well-formed UTF-8, byte range by byte range. */
  predicate Utf8(s: seq<byte>) {
    if s == [] then true
    else
      var a := Val(s[0]);
      if a <= 0x7F then Utf8(s[1..])
      else if |s| >= 2 && 0xC2 <= a <= 0xDF then Continues(s[1]) && Utf8(s[2..])
      else if |s| >= 3 && 0xE0 <= a <= 0xEF then
        && Continues(s[1]) && Continues(s[2])
        && (a == 0xE0 ==> Val(s[1]) >= 0xA0) && (a == 0xED ==> Val(s[1]) <= 0x9F)
        && Utf8(s[3..])
      else if |s| >= 4 && 0xF0 <= a <= 0xF4 then
        && Continues(s[1]) && Continues(s[2]) && Continues(s[3])
        && (a == 0xF0 ==> Val(s[1]) >= 0x90) && (a == 0xF4 ==> Val(s[1]) <= 0x8F)
        && Utf8(s[4..])
      else false
  }

  // ---- scalar values ----

  /** A Unicode scalar value: a code point that is not a surrogate. */
  predicate IsScalar(u: int) {
    0 <= u < 0xD800 || 0xE000 <= u < 0x11_0000
  }

  function ByteOf(n: int): byte
    requires 0 <= n < 256
  {
    n as byte
  }

  /** The encoding of one scalar value in one to four bytes. */
  function EncodeScalar(u: int): (s: seq<byte>)
    requires IsScalar(u)
    ensures s != []
  {
    if u < 0x80 then [ByteOf(u)]
    else if u < 0x800 then [ByteOf(0xC0 + u / 64), ByteOf(0x80 + u % 64)]
    else if u < 0x1_0000 then [ByteOf(0xE0 + u / 4096), ByteOf(0x80 + u / 64 % 64), ByteOf(0x80 + u % 64)]
    else [ByteOf(0xF0 + u / 262144), ByteOf(0x80 + u / 4096 % 64), ByteOf(0x80 + u / 64 % 64), ByteOf(0x80 + u % 64)]
  }

  function EncodeScalars(us: seq<int>): seq<byte>
    requires forall i :: 0 <= i < |us| ==> IsScalar(us[i])
  {
    if us == [] then [] else EncodeScalar(us[0]) + EncodeScalars(us[1..])
  }

  lemma ByteOfValue(n: int)
    requires 0 <= n < 256
    ensures Val(ByteOf(n)) == n
  {
    ByteRoundTrip(n);
  }

  lemma ValueOfByte(b: byte)
    ensures 0 <= Val(b) < 256 && ByteOf(Val(b)) == b
  {
    ByteOfInt(b);
  }

  // ---- one character, by its length ----

  /** A two-byte character in front. */
  lemma TwoBytes(s: seq<byte>, b0: int, b1: int)
    requires |s| >= 2 && Val(s[0]) == b0 && Val(s[1]) == b1
    requires 0xC2 <= b0 <= 0xDF
    ensures Utf8(s) <==> 0x80 <= b1 <= 0xBF && Utf8(s[2..])
  {
  }

  lemma ThreeBytes(s: seq<byte>, b0: int, b1: int, b2: int)
    requires |s| >= 3 && Val(s[0]) == b0 && Val(s[1]) == b1 && Val(s[2]) == b2
    requires 0xE0 <= b0 <= 0xEF
    ensures Utf8(s) <==>
              && 0x80 <= b1 <= 0xBF && 0x80 <= b2 <= 0xBF && (b0 == 0xE0 ==> b1 >= 0xA0) && (b0 == 0xED ==> b1 <= 0x9F)
              && Utf8(s[3..])
  {
  }

  lemma FourBytes(s: seq<byte>, b0: int, b1: int, b2: int, b3: int)
    requires |s| >= 4 && Val(s[0]) == b0 && Val(s[1]) == b1 && Val(s[2]) == b2 && Val(s[3]) == b3
    requires 0xF0 <= b0 <= 0xF4
    ensures Utf8(s) <==>
              && 0x80 <= b1 <= 0xBF && 0x80 <= b2 <= 0xBF && 0x80 <= b3 <= 0xBF
              && (b0 == 0xF0 ==> b1 >= 0x90) && (b0 == 0xF4 ==> b1 <= 0x8F)
              && Utf8(s[4..])
  {
  }

  /** The digits of a scalar value in base 64, highest first. */
  lemma Digits64(d3: int, d2: int, d1: int, d0: int)
    requires 0 <= d3 && 0 <= d2 < 64 && 0 <= d1 < 64 && 0 <= d0 < 64
    ensures var u := d3 * 262144 + d2 * 4096 + d1 * 64 + d0;
            && u % 64 == d0 && u / 64 == d3 * 4096 + d2 * 64 + d1
            && u / 64 % 64 == d1 && u / 4096 == d3 * 64 + d2
            && u / 4096 % 64 == d2 && u / 262144 == d3
  {
  }

  lemma DivTwice64(u: int)
    requires 0 <= u
    ensures u / 64 / 64 == u / 4096
  {
  }

  lemma DivThrice64(u: int)
    requires 0 <= u
    ensures u / 4096 / 64 == u / 262144
  {
  }

  lemma AllDigits64(u: int)
    requires 0 <= u
    ensures u / 4096 == (u / 262144) * 64 + u / 4096 % 64 && u / 64 == (u / 4096) * 64 + u / 64 % 64 && u == (u / 64) * 64 + u % 64
    ensures 0 <= u % 64 < 64 && 0 <= u / 64 % 64 < 64 && 0 <= u / 4096 % 64 < 64 && 0 <= u / 262144
  {
    DivTwice64(u);
    DivThrice64(u);
    var q1, q2 := u / 64, u / 4096;
    assert q1 == (q1 / 64) * 64 + q1 % 64 && q2 == (q2 / 64) * 64 + q2 % 64;
  }

  lemma TwoByteScalar(u: int, rest: seq<byte>)
    requires 0x80 <= u < 0x800
    ensures Utf8(EncodeScalar(u) + rest) <==> Utf8(rest)
  {
    hide Val, ByteOf, Utf8;
    var s := EncodeScalar(u) + rest;
    assert s[2..] == rest;
    AllDigits64(u);
    ByteOfValue(0xC0 + u / 64);
    ByteOfValue(0x80 + u % 64);
    TwoBytes(s, 0xC0 + u / 64, 0x80 + u % 64);
  }

  lemma ThreeByteScalar(u: int, rest: seq<byte>)
    requires 0x800 <= u < 0x1_0000 && IsScalar(u)
    ensures Utf8(EncodeScalar(u) + rest) <==> Utf8(rest)
  {
    hide Val, ByteOf, Utf8;
    var s := EncodeScalar(u) + rest;
    assert s[3..] == rest;
    AllDigits64(u);
    var a, b := u / 4096, u / 64 % 64;
    ByteOfValue(0xE0 + a);
    ByteOfValue(0x80 + b);
    ByteOfValue(0x80 + u % 64);
    ThreeBytes(s, 0xE0 + a, 0x80 + b, 0x80 + u % 64);
  }

  lemma FourByteScalar(u: int, rest: seq<byte>)
    requires 0x1_0000 <= u < 0x11_0000
    ensures Utf8(EncodeScalar(u) + rest) <==> Utf8(rest)
  {
    hide Val, ByteOf, Utf8;
    var s := EncodeScalar(u) + rest;
    assert s[4..] == rest;
    AllDigits64(u);
    var a, b, c := u / 262144, u / 4096 % 64, u / 64 % 64;
    ByteOfValue(0xF0 + a);
    ByteOfValue(0x80 + b);
    ByteOfValue(0x80 + c);
    ByteOfValue(0x80 + u % 64);
    FourBytes(s, 0xF0 + a, 0x80 + b, 0x80 + c, 0x80 + u % 64);
  }

  /** The encoding of a scalar value is well-formed, and so is what follows or not. */
  lemma ScalarThen(u: int, rest: seq<byte>)
    requires IsScalar(u)
    ensures Utf8(EncodeScalar(u) + rest) <==> Utf8(rest)
  {
    hide Val, ByteOf;
    if u < 0x80 {
      ByteOfValue(u);
      assert (EncodeScalar(u) + rest)[1..] == rest;
    } else if u < 0x800 {
      hide Utf8, EncodeScalar;
      TwoByteScalar(u, rest);
    } else if u < 0x1_0000 {
      hide Utf8, EncodeScalar;
      ThreeByteScalar(u, rest);
    } else {
      hide Utf8, EncodeScalar;
      FourByteScalar(u, rest);
    }
  }

  /** A well-formed string that is not empty starts with the encoding of a scalar value. */
  lemma FirstScalar(s: seq<byte>) returns (u: int)
    requires s != [] && Utf8(s)
    ensures IsScalar(u) && EncodeScalar(u) <= s && Utf8(s[|EncodeScalar(u)|..])
  {
    hide Val, ByteOf;
    var a := Val(s[0]);
    FirstByte(s);
    hide Utf8;
    ValueOfByte(s[0]);
    if a <= 0x7F {
      u := a;
      assert EncodeScalar(u) == s[..1];
    } else if a <= 0xDF {
      u := FirstOfTwo(s, a, Val(s[1]));
    } else if a <= 0xEF {
      u := FirstOfThree(s, a, Val(s[1]), Val(s[2]));
    } else {
      u := FirstOfFour(s, a, Val(s[1]), Val(s[2]), Val(s[3]));
    }
  }

  lemma FirstByte(s: seq<byte>)
    requires s != [] && Utf8(s)
    ensures var a := Val(s[0]);
            || (a <= 0x7F && Utf8(s[1..])) || (0xC2 <= a <= 0xDF && |s| >= 2)
            || (0xE0 <= a <= 0xEF && |s| >= 3) || (0xF0 <= a <= 0xF4 && |s| >= 4)
  {
  }

  lemma FirstOfTwo(s: seq<byte>, b0: int, b1: int) returns (u: int)
    requires |s| >= 2 && Utf8(s) && Val(s[0]) == b0 && Val(s[1]) == b1 && 0xC2 <= b0 <= 0xDF
    ensures IsScalar(u) && EncodeScalar(u) <= s && Utf8(s[|EncodeScalar(u)|..])
  {
    hide Utf8, ByteOf, Val;
    TwoBytes(s, b0, b1);
    u := (b0 - 0xC0) * 64 + (b1 - 0x80);
    Digits64(0, 0, b0 - 0xC0, b1 - 0x80);
    ValueOfByte(s[0]);
    ValueOfByte(s[1]);
    assert EncodeScalar(u) == s[..2];
  }

  lemma FirstOfThree(s: seq<byte>, b0: int, b1: int, b2: int) returns (u: int)
    requires |s| >= 3 && Utf8(s) && Val(s[0]) == b0 && Val(s[1]) == b1 && Val(s[2]) == b2 && 0xE0 <= b0 <= 0xEF
    ensures IsScalar(u) && EncodeScalar(u) <= s && Utf8(s[|EncodeScalar(u)|..])
  {
    hide Utf8, ByteOf, Val;
    ThreeBytes(s, b0, b1, b2);
    u := (b0 - 0xE0) * 4096 + (b1 - 0x80) * 64 + (b2 - 0x80);
    Digits64(0, b0 - 0xE0, b1 - 0x80, b2 - 0x80);
    ValueOfByte(s[0]);
    ValueOfByte(s[1]);
    ValueOfByte(s[2]);
    assert EncodeScalar(u) == s[..3];
  }

  lemma FirstOfFour(s: seq<byte>, b0: int, b1: int, b2: int, b3: int) returns (u: int)
    requires |s| >= 4 && Utf8(s) && Val(s[0]) == b0 && Val(s[1]) == b1 && Val(s[2]) == b2 && Val(s[3]) == b3
    requires 0xF0 <= b0 <= 0xF4
    ensures IsScalar(u) && EncodeScalar(u) <= s && Utf8(s[|EncodeScalar(u)|..])
  {
    hide Utf8, ByteOf, Val;
    FourBytes(s, b0, b1, b2, b3);
    u := (b0 - 0xF0) * 262144 + (b1 - 0x80) * 4096 + (b2 - 0x80) * 64 + (b3 - 0x80);
    Digits64(b0 - 0xF0, b1 - 0x80, b2 - 0x80, b3 - 0x80);
    ValueOfByte(s[0]);
    ValueOfByte(s[1]);
    ValueOfByte(s[2]);
    ValueOfByte(s[3]);
    assert EncodeScalar(u) == s[..4];
  }

  lemma {:induction false} ScalarsAreText(us: seq<int>)
    requires forall i :: 0 <= i < |us| ==> IsScalar(us[i])
    ensures Utf8(EncodeScalars(us))
  {
    hide EncodeScalar;
    if us != [] {
      ScalarsAreText(us[1..]);
      ScalarThen(us[0], EncodeScalars(us[1..]));
    }
  }

  lemma {:induction false} TextIsScalars(s: seq<byte>) returns (us: seq<int>)
    requires Utf8(s)
    ensures forall i :: 0 <= i < |us| ==> IsScalar(us[i])
    ensures EncodeScalars(us) == s
    decreases |s|
  {
    hide EncodeScalar, Utf8;
    if s == [] {
      us := [];
    } else {
      var u := FirstScalar(s);
      var rest := s[|EncodeScalar(u)|..];
      var others := TextIsScalars(rest);
      us := [u] + others;
      assert us[1..] == others;
    }
  }

  /** Text is exactly what encodes a sequence of Unicode scalar values. */
  lemma Utf8Exactly(s: seq<byte>)
    ensures Utf8(s) <==> exists us: seq<int> :: (forall i :: 0 <= i < |us| ==> IsScalar(us[i])) && s == EncodeScalars(us)
  {
    hide Utf8, EncodeScalars, IsScalar;
    if Utf8(s) {
      var us := TextIsScalars(s);
    }
    forall us: seq<int> | (forall i :: 0 <= i < |us| ==> IsScalar(us[i])) && s == EncodeScalars(us) ensures Utf8(s) {
      ScalarsAreText(us);
    }
  }
}
