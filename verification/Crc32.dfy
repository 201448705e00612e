/**
 CRC-32/IEEE, the checksum of every log and hint record: the reflected polynomial
 0xEDB88320 with all-ones start value and final complement (section 8 of RFC 1952).
 The register is a `bv32`, so its error detection is proved and not assumed.
 */
module Crc32 {
  import opened Bytes
  import opened ShiftRegister

  const POLYNOMIAL: bv32 := 0xEDB8_8320
  const ALL_ONES: bv32 := 0xFFFF_FFFF

  /** One bit of the shift register. */
  function Shift(x: bv32): bv32 {
    if x & 1 == 1 then (x >> 1) ^ POLYNOMIAL else x >> 1
  }

  /** Only the low `n` bytes of `v` are in use. */
  predicate Fits(v: bv32, n: nat) {
    if n == 0 then v == 0
    else if n == 1 then v & 0xFFFF_FF00 == 0
    else if n == 2 then v & 0xFFFF_0000 == 0
    else n == 3 && v & 0xFF00_0000 == 0
  }

  function Xor(x: bv32, y: bv32): bv32 {
    x ^ y
  }

  function Widen(b: byte): bv32 {
    b as bv32
  }

  function Lift(v: bv32): bv32 {
    v << 8
  }

  function Pack(v: bv32, b: byte): bv32 {
    (v << 8) | (b as bv32)
  }

  function Register(): Ops<bv32> {
    Ops(Shift, 8, Xor, 0, Widen, Lift, Pack, Fits)
  }

  function Checksum(data: seq<byte>): bv32 {
    Feed(Register(), ALL_ONES, data) ^ ALL_ONES
  }

  /** The four bytes of a checksum, low byte first. */
  function ChecksumBytes(c: bv32): (s: seq<byte>)
    ensures |s| == 4
  {
    [(c & 0xFF) as byte, ((c >> 8) & 0xFF) as byte, ((c >> 16) & 0xFF) as byte, ((c >> 24) & 0xFF) as byte]
  }

  /** `crc32fast::hash`: the checksum as an unsigned 32-bit number. */
  function Hash(data: seq<byte>): (h: nat)
    ensures h < 0x1_0000_0000
  {
    Pow256Values();
    FromLe(ChecksumBytes(Checksum(data)))
  }

  lemma WordOfBytes(b3: byte, b2: byte, b1: byte, b0: byte)
    ensures (((b3 as bv32) << 24) | ((b2 as bv32) << 16) | ((b1 as bv32) << 8) | (b0 as bv32)) as int
            == 0x100_0000 * (b3 as int) + 0x1_0000 * (b2 as int) + 0x100 * (b1 as int) + (b0 as int)
  {
  }

  lemma BytesOfWord(c: bv32)
    ensures var s := ChecksumBytes(c);
            c == ((s[3] as bv32) << 24) | ((s[2] as bv32) << 16) | ((s[1] as bv32) << 8) | (s[0] as bv32)
  {
  }

  lemma FourBytes(s: seq<byte>)
    requires |s| == 4
    ensures FromLe(s) == (s[0] as int) + 0x100 * (s[1] as int) + 0x1_0000 * (s[2] as int) + 0x100_0000 * (s[3] as int)
  {
    FromLeStep(s);
    FromLeStep(s[1..]);
    FromLeStep(s[2..]);
    FromLeStep(s[3..]);
    assert s[1..][1..] == s[2..] && s[2..][1..] == s[3..] && s[3..][1..] == [];
    FromLeEmpty();
  }

  /** The hash is the register read as a number: the four bytes are in little-endian order. */
  lemma HashIsChecksum(data: seq<byte>)
    ensures Hash(data) == Checksum(data) as int
  {
    hide Feed, FromLe, ChecksumBytes;
    var c := Checksum(data);
    var s := ChecksumBytes(c);
    BytesOfWord(c);
    WordOfBytes(s[3], s[2], s[1], s[0]);
    FourBytes(s);
  }

  /** The byte loop of the checksum, proved against the recursive register. */
  method ComputeHash(data: seq<byte>) returns (h: nat)
    ensures h == Hash(data)
  {
    var o := Register();
    var register := ALL_ONES;
    var i := 0;
    while i < |data|
      invariant i <= |data|
      invariant Feed(o, register, data[i..]) == Feed(o, ALL_ONES, data)
    {
      assert data[i..][1..] == data[i + 1..];
      register := Update(o, register, data[i]);
      i := i + 1;
    }
    h := FromLe(ChecksumBytes(register ^ ALL_ONES));
  }

  // ---- bit-vector facts, one per lemma so that each stays cheap ----

  lemma ShiftInjective(x: bv32, y: bv32)
    requires Shift(x) == Shift(y)
    ensures x == y
  {
  }

  lemma XorCancels(x: bv32, y: bv32, z: bv32)
    ensures x ^ z == y ^ z ==> x == y
    ensures z ^ x == z ^ y ==> x == y
  {
    assert (x ^ z) ^ z == x && (y ^ z) ^ z == y;
    assert z ^ (z ^ x) == x && z ^ (z ^ y) == y;
  }

  lemma XorShiftRight(x: bv32, y: bv32)
    ensures (x ^ y) >> 1 == (x >> 1) ^ (y >> 1)
    ensures (x ^ y) & 1 == (x & 1) ^ (y & 1)
  {
  }

  lemma LowBit(x: bv32)
    ensures x & 1 == 0 || x & 1 == 1
  {
  }

  lemma XorRegroup(x: bv32, y: bv32, p: bv32)
    ensures (x ^ p) ^ (y ^ p) == x ^ y
    ensures (x ^ p) ^ y == (x ^ y) ^ p
    ensures x ^ (y ^ p) == (x ^ y) ^ p
  {
  }

  lemma ShiftRightBack(w: bv32)
    requires w & 0xFF00_0000 == 0
    ensures (w << 8) >> 1 == w << 7 && (w << 7) >> 1 == w << 6
    ensures (w << 6) >> 1 == w << 5 && (w << 5) >> 1 == w << 4
    ensures (w << 4) >> 1 == w << 3 && (w << 3) >> 1 == w << 2
    ensures (w << 2) >> 1 == w << 1 && (w << 1) >> 1 == w
  {
  }

  lemma LowBitsClear(w: bv32)
    ensures (w << 8) & 1 == 0 && (w << 7) & 1 == 0 && (w << 6) & 1 == 0 && (w << 5) & 1 == 0
    ensures (w << 4) & 1 == 0 && (w << 3) & 1 == 0 && (w << 2) & 1 == 0 && (w << 1) & 1 == 0
  {
  }

  lemma Regroup(x: bv32, v: bv32, b: byte)
    ensures Xor(x, Pack(v, b)) == Xor(Xor(x, Widen(b)), Lift(v))
  {
  }

  lemma Unpack(v: bv32, b: byte)
    requires v & 0xFF00_0000 == 0
    ensures ((v << 8) | (b as bv32)) >> 8 == v
    ensures ((v << 8) | (b as bv32)) & 0xFF == b as bv32
  {
  }

  lemma PackInjective(v: bv32, w: bv32, a: byte, b: byte)
    requires v & 0xFF00_0000 == 0 && w & 0xFF00_0000 == 0
    requires (v << 8) | (a as bv32) == (w << 8) | (b as bv32)
    ensures v == w && a == b
  {
    Unpack(v, a);
    Unpack(w, b);
  }

  lemma PackFits(v: bv32, b: byte)
    ensures v & 0xFFFF_0000 == 0 ==> ((v << 8) | (b as bv32)) & 0xFF00_0000 == 0
    ensures v & 0xFFFF_FF00 == 0 ==> ((v << 8) | (b as bv32)) & 0xFFFF_0000 == 0
    ensures v == 0 ==> ((v << 8) | (b as bv32)) & 0xFFFF_FF00 == 0
  {
  }

  lemma FitsWider(v: bv32)
    ensures v & 0xFFFF_0000 == 0 ==> v & 0xFF00_0000 == 0
    ensures v & 0xFFFF_FF00 == 0 ==> v & 0xFFFF_0000 == 0
    ensures v == 0 ==> v & 0xFFFF_FF00 == 0
  {
  }

  // ---- the CRC-32 register is a lawful shift register ----

  /** On an even word the step is a plain shift. */
  ghost predicate EvenAt(f: bv32 -> bv32, z: bv32, half: bv32) {
    z & 1 == 0 && z >> 1 == half ==> f(z) == half
  }

  lemma EvenLaw(z: bv32, half: bv32)
    ensures EvenAt(Shift, z, half)
  {
  }

  lemma EightEvenSteps(f: bv32 -> bv32, w: bv32)
    requires w & 0xFF00_0000 == 0
    requires forall z, half :: EvenAt(f, z, half)
    ensures Shifts(Register().(bit := f), 8, w << 8) == w
  {
    ShiftRightBack(w);
    LowBitsClear(w);
    assert EvenAt(f, w << 8, w << 7) && EvenAt(f, w << 7, w << 6) && EvenAt(f, w << 6, w << 5);
    assert EvenAt(f, w << 5, w << 4) && EvenAt(f, w << 4, w << 3) && EvenAt(f, w << 3, w << 2);
    assert EvenAt(f, w << 2, w << 1) && EvenAt(f, w << 1, w);
    EightSteps(Register().(bit := f), w << 8, w << 7, w << 6, w << 5, w << 4, w << 3, w << 2, w << 1, w);
  }

  lemma ClearLaw(w: bv32)
    requires w & 0xFF00_0000 == 0
    ensures Shifts(Register(), 8, w << 8) == w
  {
    forall z, half ensures EvenAt(Shift, z, half) {
      EvenLaw(z, half);
    }
    EightEvenSteps(Shift, w);
  }

  lemma InjectiveLaw(x: bv32, y: bv32)
    ensures BitInjectiveAt(Register(), x, y)
  {
    if Shift(x) == Shift(y) {
      ShiftInjective(x, y);
    }
  }

  ghost predicate LinearAt(f: bv32 -> bv32, x: bv32, y: bv32) {
    f(x ^ y) == f(x) ^ f(y)
  }

  lemma ShiftLinear(x: bv32, y: bv32)
    ensures LinearAt(Shift, x, y)
  {
    XorShiftRight(x, y);
    LowBit(x);
    LowBit(y);
    XorRegroup(x >> 1, y >> 1, POLYNOMIAL);
  }

  lemma LinearLift(f: bv32 -> bv32)
    requires forall x, y :: LinearAt(f, x, y)
    ensures forall x, y :: BitLinearAt(Register().(bit := f), x, y)
  {
    forall x, y ensures BitLinearAt(Register().(bit := f), x, y) {
      assert LinearAt(f, x, y);
    }
  }

  lemma LinearLaw()
    ensures forall x, y :: BitLinearAt(Register(), x, y)
  {
    forall x, y ensures LinearAt(Shift, x, y) {
      ShiftLinear(x, y);
    }
    LinearLift(Shift);
  }

  lemma BitLaws()
    ensures forall x, y :: BitInjectiveAt(Register(), x, y)
    ensures forall x, y :: BitLinearAt(Register(), x, y)
  {
    forall x, y ensures BitInjectiveAt(Register(), x, y) {
      InjectiveLaw(x, y);
    }
    LinearLaw();
  }

  lemma CancelLaws()
    ensures forall x, y, z :: XorCancelsAt(Register(), x, y, z)
  {
    forall x, y, z ensures XorCancelsAt(Register(), x, y, z) {
      XorCancels(x, y, z);
    }
  }

  lemma RegroupLaw(x: bv32, v: bv32, b: byte)
    ensures RegroupAt(Register(), x, v, b)
  {
    Regroup(x, v, b);
  }

  lemma RegroupLaws()
    ensures forall x, v, b :: RegroupAt(Register(), x, v, b)
  {
    forall x, v, b ensures RegroupAt(Register(), x, v, b) {
      RegroupLaw(x, v, b);
    }
  }

  lemma ClearLaws()
    ensures forall v :: ClearAt(Register(), v)
  {
    forall v ensures ClearAt(Register(), v) {
      if Fits(v, 3) {
        ClearLaw(v);
      }
    }
  }

  lemma PackLaw(v: bv32, w: bv32, a: byte, b: byte)
    ensures PackAt(Register(), v, w, a, b)
  {
    if Fits(v, 3) && Fits(w, 3) && Pack(v, a) == Pack(w, b) {
      PackInjective(v, w, a, b);
    }
  }

  lemma PackLaws()
    ensures forall v, w, a, b :: PackAt(Register(), v, w, a, b)
  {
    forall v, w, a, b ensures PackAt(Register(), v, w, a, b) {
      PackLaw(v, w, a, b);
    }
  }

  lemma FitsLaws()
    ensures forall v, n, b :: FitsAt(Register(), v, n, b)
    ensures forall v, n :: FitsMore(Register(), v, n)
  {
    forall v, n: nat, b ensures FitsAt(Register(), v, n, b) {
      PackFits(v, b);
    }
    forall v, n: nat ensures FitsMore(Register(), v, n) {
      FitsWider(v);
    }
  }

  lemma RegisterIsLawful()
    ensures Lawful(Register())
  {
    BitLaws();
    CancelLaws();
    RegroupLaws();
    ClearLaws();
    PackLaws();
    FitsLaws();
  }

  // ---- the checksum ----

  lemma ChecksumBytesInjective(c: bv32, d: bv32)
    requires ChecksumBytes(c) == ChecksumBytes(d)
    ensures c == d
  {
    var s, t := ChecksumBytes(c), ChecksumBytes(d);
    assert s[0] == t[0] && s[1] == t[1] && s[2] == t[2] && s[3] == t[3];
  }

  lemma FinishInjective(c: bv32, d: bv32)
    requires FromLe(ChecksumBytes(c ^ ALL_ONES)) == FromLe(ChecksumBytes(d ^ ALL_ONES))
    ensures c == d
  {
    FromLeInjective(ChecksumBytes(c ^ ALL_ONES), ChecksumBytes(d ^ ALL_ONES));
    ChecksumBytesInjective(c ^ ALL_ONES, d ^ ALL_ONES);
    XorCancels(c, d, ALL_ONES);
  }

  /** Every change confined to four consecutive bytes changes the checksum. */
  lemma BurstDetected(prefix: seq<byte>, v: seq<byte>, w: seq<byte>, suffix: seq<byte>)
    requires |v| == |w| <= 4 && v != w
    ensures Hash(prefix + v + suffix) != Hash(prefix + w + suffix)
  {
    var o := Register();
    var a, b := prefix + v + suffix, prefix + w + suffix;
    if Hash(a) == Hash(b) {
      FinishInjective(Feed(o, ALL_ONES, a), Feed(o, ALL_ONES, b));
      RegisterIsLawful();
      BurstChangesRegister(o, ALL_ONES, prefix, v, w, suffix);
    }
  }

  // ---- the published check value ----

  /** One data byte, the eight bit steps written out. */
  function ByteStep(x: bv32, b: byte): bv32 {
    Shift(Shift(Shift(Shift(Shift(Shift(Shift(Shift(x ^ (b as bv32)))))))))
  }

  lemma UpdateIsByteStep(x: bv32, b: byte)
    ensures Update(Register(), x, b) == ByteStep(x, b)
  {
    hide Shift;
    var o := Register();
    var x0 := x ^ (b as bv32);
    assert Shifts(o, 0, ByteStep(x, b)) == ByteStep(x, b);
    assert Shifts(o, 1, Shift(Shift(Shift(Shift(Shift(Shift(Shift(x0)))))))) == ByteStep(x, b);
    assert Shifts(o, 2, Shift(Shift(Shift(Shift(Shift(Shift(x0))))))) == ByteStep(x, b);
    assert Shifts(o, 3, Shift(Shift(Shift(Shift(Shift(x0)))))) == ByteStep(x, b);
    assert Shifts(o, 4, Shift(Shift(Shift(Shift(x0))))) == ByteStep(x, b);
    assert Shifts(o, 5, Shift(Shift(Shift(x0)))) == ByteStep(x, b);
    assert Shifts(o, 6, Shift(Shift(x0))) == ByteStep(x, b);
    assert Shifts(o, 7, Shift(x0)) == ByteStep(x, b);
  }

  lemma FedStep(x: bv32, b: byte, rest: seq<byte>)
    ensures Feed(Register(), x, [b] + rest) == Feed(Register(), ByteStep(x, b), rest)
  {
    hide ByteStep, Register, Update;
    UpdateIsByteStep(x, b);
    assert ([b] + rest)[1..] == rest;
  }

  lemma FedAll(x: bv32)
    ensures Feed(Register(), x, []) == x
  {
  }

  lemma CheckSteps()
    ensures ByteStep(0xFFFFFFFF, 49) == 0x7C231048
    ensures ByteStep(0x7C231048, 50) == 0xB0ACBB32
    ensures ByteStep(0xB0ACBB32, 51) == 0x77B79C2D
    ensures ByteStep(0x77B79C2D, 52) == 0x641C1F5C
    ensures ByteStep(0x641C1F5C, 53) == 0x340AC5E3
    ensures ByteStep(0x340AC5E3, 54) == 0xF68D2C9E
    ensures ByteStep(0xF68D2C9E, 55) == 0xAFFC9660
    ensures ByteStep(0xAFFC9660, 56) == 0x651F2550
    ensures ByteStep(0x651F2550, 57) == 0x340BC6D9
  {
  }

  const CHECK_INPUT: seq<byte> := [49, 50, 51, 52, 53, 54, 55, 56, 57]

  lemma FedThree(x: bv32, a: byte, b: byte, c: byte, rest: seq<byte>)
    ensures Feed(Register(), x, [a, b, c] + rest) == Feed(Register(), ByteStep(ByteStep(ByteStep(x, a), b), c), rest)
  {
    hide ByteStep, Register, Feed;
    FedStep(x, a, [b, c] + rest);
    FedStep(ByteStep(x, a), b, [c] + rest);
    FedStep(ByteStep(ByteStep(x, a), b), c, rest);
    assert [a] + ([b, c] + rest) == [a, b, c] + rest;
    assert [b] + ([c] + rest) == [b, c] + rest;
  }

  /** The checksum and the hash of the digits 1 to 9 are the published check value of CRC-32/IEEE. */
  lemma CheckValue()
    ensures Checksum(CHECK_INPUT) == 0xCBF4_3926 && Hash(CHECK_INPUT) == 0xCBF4_3926
  {
    HashIsChecksum(CHECK_INPUT);
    hide ByteStep, Register, Feed;
    CheckSteps();
    var last: seq<byte> := [55, 56, 57];
    FedThree(0xFFFF_FFFF, 49, 50, 51, [52, 53, 54] + last);
    FedThree(0x77B7_9C2D, 52, 53, 54, last);
    FedThree(0xF68D_2C9E, 55, 56, 57, []);
    FedAll(0x340B_C6D9);
    assert [49, 50, 51] + ([52, 53, 54] + last) == CHECK_INPUT;
    assert [55, 56, 57] + [] == last;
  }
}
