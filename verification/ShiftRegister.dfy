/**
 The algebra of a linear-feedback shift register, for any carrier. It is kept apart from
 the bit-vector register of `Crc32` so that these proofs never reach the bit-blaster.
 */
module ShiftRegister {
  import opened Bytes

  /** A register: its single-bit step, and how data bytes enter it. */
  datatype Ops<!R> = Ops(
    bit: R -> R,             // one bit of the shift register
    width: nat,              // bits per data byte
    xor: (R, R) -> R,
    zero: R,
    widen: byte -> R,        // a byte in the low end of a word
    lift: R -> R,            // a word moved up by one byte
    pack: (R, byte) -> R,    // a word moved up by one byte, with a new low byte
    fits: (R, nat) -> bool   // only the low `n` bytes of the word are in use
  )

  function Shifts<R>(o: Ops<R>, n: nat, x: R): R {
    if n == 0 then x else Shifts(o, n - 1, o.bit(x))
  }

  /** The register after one data byte. */
  function Update<R>(o: Ops<R>, x: R, b: byte): R {
    Shifts(o, o.width, o.xor(x, o.widen(b)))
  }

  /** The register after a run of data bytes. */
  function Feed<R>(o: Ops<R>, x: R, data: seq<byte>): R
    decreases |data|
  {
    if data == [] then x else Feed(o, Update(o, x, data[0]), data[1..])
  }

  // ---- the laws a register must satisfy, point by point ----

  ghost predicate BitInjectiveAt<R>(o: Ops<R>, x: R, y: R) {
    o.bit(x) == o.bit(y) ==> x == y
  }

  ghost predicate BitLinearAt<R>(o: Ops<R>, x: R, y: R) {
    o.bit(o.xor(x, y)) == o.xor(o.bit(x), o.bit(y))
  }

  ghost predicate XorCancelsAt<R>(o: Ops<R>, x: R, y: R, z: R) {
    && (o.xor(x, z) == o.xor(y, z) ==> x == y)
    && (o.xor(z, x) == o.xor(z, y) ==> x == y)
  }

  ghost predicate ZeroAt<R>(o: Ops<R>, x: R) {
    o.xor(x, o.zero) == x
  }

  /** A lifted word shifts down again without feedback. */
  ghost predicate ClearAt<R>(o: Ops<R>, v: R) {
    o.fits(v, 3) ==> Shifts(o, o.width, o.lift(v)) == v
  }

  ghost predicate RegroupAt<R>(o: Ops<R>, x: R, v: R, b: byte) {
    o.xor(x, o.pack(v, b)) == o.xor(o.xor(x, o.widen(b)), o.lift(v))
  }

  ghost predicate PackAt<R>(o: Ops<R>, v: R, w: R, a: byte, b: byte) {
    o.fits(v, 3) && o.fits(w, 3) && o.pack(v, a) == o.pack(w, b) ==> v == w && a == b
  }

  ghost predicate FitsAt<R>(o: Ops<R>, v: R, n: nat, b: byte) {
    n < 3 && o.fits(v, n) ==> o.fits(o.pack(v, b), n + 1)
  }

  ghost predicate FitsMore<R>(o: Ops<R>, v: R, n: nat) {
    n < 3 && o.fits(v, n) ==> o.fits(v, n + 1)
  }

  ghost predicate Lawful<R(!new)>(o: Ops<R>) {
    && (forall x, y :: BitInjectiveAt(o, x, y))
    && (forall x, y :: BitLinearAt(o, x, y))
    && (forall x, y, z :: XorCancelsAt(o, x, y, z))
    && (forall x :: ZeroAt(o, x))
    && (forall v :: ClearAt(o, v))
    && (forall x, v, b :: RegroupAt(o, x, v, b))
    && (forall v, w, a, b :: PackAt(o, v, w, a, b))
    && o.fits(o.zero, 0)
    && (forall v, n, b :: FitsAt(o, v, n, b))
    && (forall v, n :: FitsMore(o, v, n))
  }

  // ---- the register loses no information ----

  lemma {:induction false} ShiftsInjective<R(!new)>(o: Ops<R>, n: nat, x: R, y: R)
    requires Lawful(o) && Shifts(o, n, x) == Shifts(o, n, y)
    ensures x == y
    decreases n
  {
    if n != 0 {
      ShiftsInjective(o, n - 1, o.bit(x), o.bit(y));
      assert BitInjectiveAt(o, x, y);
    }
  }

  /** Two different registers stay different under the same data. */
  lemma {:induction false} FeedInjective<R(!new)>(o: Ops<R>, x: R, y: R, data: seq<byte>)
    requires Lawful(o) && Feed(o, x, data) == Feed(o, y, data)
    ensures x == y
    decreases |data|
  {
    if data != [] {
      var b := o.widen(data[0]);
      FeedInjective(o, Update(o, x, data[0]), Update(o, y, data[0]), data[1..]);
      ShiftsInjective(o, o.width, o.xor(x, b), o.xor(y, b));
      assert XorCancelsAt(o, x, y, b);
    }
  }

  lemma {:induction false} FeedConcat<R>(o: Ops<R>, x: R, a: seq<byte>, b: seq<byte>)
    ensures Feed(o, x, a + b) == Feed(o, Feed(o, x, a), b)
    decreases |a|
  {
    if a == [] {
      assert a + b == b;
    } else {
      FeedConcat(o, Update(o, x, a[0]), a[1..], b);
      assert (a + b)[1..] == a[1..] + b;
    }
  }

  // ---- up to four data bytes are absorbed reversibly ----

  lemma {:induction false} ShiftsLinear<R(!new)>(o: Ops<R>, n: nat, x: R, y: R)
    requires Lawful(o)
    ensures Shifts(o, n, o.xor(x, y)) == o.xor(Shifts(o, n, x), Shifts(o, n, y))
    decreases n
  {
    if n != 0 {
      assert BitLinearAt(o, x, y);
      ShiftsLinear(o, n - 1, o.bit(x), o.bit(y));
    }
  }

  lemma {:induction false} ShiftsAdd<R>(o: Ops<R>, m: nat, n: nat, x: R)
    ensures Shifts(o, n, Shifts(o, m, x)) == Shifts(o, m + n, x)
    decreases m
  {
    if m != 0 {
      ShiftsAdd(o, m - 1, n, o.bit(x));
    }
  }

  /** A listed run of eight single-bit steps. */
  lemma EightSteps<R>(o: Ops<R>, x8: R, x7: R, x6: R, x5: R, x4: R, x3: R, x2: R, x1: R, x0: R)
    requires o.bit(x8) == x7 && o.bit(x7) == x6 && o.bit(x6) == x5 && o.bit(x5) == x4
    requires o.bit(x4) == x3 && o.bit(x3) == x2 && o.bit(x2) == x1 && o.bit(x1) == x0
    ensures Shifts(o, 8, x8) == x0
  {
    assert Shifts(o, 1, x1) == x0;
    assert Shifts(o, 2, x2) == x0;
    assert Shifts(o, 3, x3) == x0;
    assert Shifts(o, 4, x4) == x0;
    assert Shifts(o, 6, x6) == x0;
  }

  /** The bytes as one little-endian word. */
  function Word<R>(o: Ops<R>, w: seq<byte>): R {
    if w == [] then o.zero else o.pack(Word(o, w[1..]), w[0])
  }

  lemma {:induction false} WordFits<R(!new)>(o: Ops<R>, w: seq<byte>, n: nat)
    requires Lawful(o) && |w| <= n <= 3
    ensures o.fits(Word(o, w), n)
    decreases n
  {
    if n > |w| {
      WordFits(o, w, n - 1);
      assert FitsMore(o, Word(o, w), n - 1);
    } else if w != [] {
      WordFits(o, w[1..], n - 1);
      assert FitsAt(o, Word(o, w[1..]), n - 1, w[0]);
    }
  }

  lemma {:induction false} WordInjective<R(!new)>(o: Ops<R>, v: seq<byte>, w: seq<byte>)
    requires Lawful(o) && |v| == |w| <= 4 && Word(o, v) == Word(o, w)
    ensures v == w
  {
    if v != [] {
      WordFits(o, v[1..], 3);
      WordFits(o, w[1..], 3);
      assert PackAt(o, Word(o, v[1..]), Word(o, w[1..]), v[0], w[0]);
      WordInjective(o, v[1..], w[1..]);
      assert v == [v[0]] + v[1..] && w == [w[0]] + w[1..];
    }
  }

  lemma AbsorbByte<R(!new)>(o: Ops<R>, x: R, v: R, b: byte)
    requires Lawful(o) && o.fits(v, 3)
    ensures Shifts(o, o.width, o.xor(x, o.pack(v, b))) == o.xor(Update(o, x, b), v)
  {
    assert RegroupAt(o, x, v, b);
    ShiftsLinear(o, o.width, o.xor(x, o.widen(b)), o.lift(v));
    assert ClearAt(o, v);
  }

  /** Feeding up to four bytes is xor-ing their word in and shifting it through. */
  lemma {:induction false} FeedIsShift<R(!new)>(o: Ops<R>, x: R, w: seq<byte>)
    requires Lawful(o) && |w| <= 4
    ensures Feed(o, x, w) == Shifts(o, o.width * |w|, o.xor(x, Word(o, w)))
    decreases |w|
  {
    if w == [] {
      assert ZeroAt(o, x);
    } else {
      var tail := w[1..];
      WordFits(o, tail, 3);
      FeedIsShift(o, Update(o, x, w[0]), tail);
      AbsorbByte(o, x, Word(o, tail), w[0]);
      ShiftsAdd(o, o.width, o.width * |tail|, o.xor(x, Word(o, w)));
      assert o.width + o.width * |tail| == o.width * |w|;
    }
  }

  lemma FeedWindowInjective<R(!new)>(o: Ops<R>, x: R, v: seq<byte>, w: seq<byte>)
    requires Lawful(o) && |v| == |w| <= 4 && Feed(o, x, v) == Feed(o, x, w)
    ensures v == w
  {
    FeedIsShift(o, x, v);
    FeedIsShift(o, x, w);
    ShiftsInjective(o, o.width * |v|, o.xor(x, Word(o, v)), o.xor(x, Word(o, w)));
    assert XorCancelsAt(o, Word(o, v), Word(o, w), x);
    WordInjective(o, v, w);
  }

  /** Data that differ in one window of at most four bytes leave different registers. */
  lemma BurstChangesRegister<R(!new)>(o: Ops<R>, x: R, prefix: seq<byte>, v: seq<byte>, w: seq<byte>, suffix: seq<byte>)
    requires Lawful(o) && |v| == |w| <= 4
    requires Feed(o, x, prefix + v + suffix) == Feed(o, x, prefix + w + suffix)
    ensures v == w
  {
    FeedConcat(o, x, prefix + v, suffix);
    FeedConcat(o, x, prefix + w, suffix);
    FeedConcat(o, x, prefix, v);
    FeedConcat(o, x, prefix, w);
    FeedInjective(o, Feed(o, x, prefix + v), Feed(o, x, prefix + w), suffix);
    FeedWindowInjective(o, Feed(o, x, prefix), v, w);
  }
}
