/**
 Bytes, little-endian integers and the error values shared by the codecs.
 */
module Bytes {

  type byte = bv8

  /** Largest `usize` of the 64-bit targets the store is built for. */
  const USIZE_MAX: nat := 0xFFFF_FFFF_FFFF_FFFF

  /** One more than the length of the longest slice there can be. */
  const SLICE_END: nat := 0x8000_0000_0000_0000

  datatype KvsError =
    | UnexpectedEof          // Io(UnexpectedEof): the input ends too early
    | Overflow               // Io(InvalidData): a cursor addition would overflow
    | Corruption
    | UnexpectedCommandType
    | InvalidData
    | KeyNotFound
    | BadUtf8                // Utf8: a value is not text
    | FileNotFound           // Io(NotFound): removing a file that is gone

  datatype Result<+T> = Ok(value: T) | Err(error: KvsError) {
    predicate IsFailure() {
      Err?
    }
    function PropagateFailure<U>(): Result<U>
      requires Err?
    {
      Err(error)
    }
    function Extract(): T
      requires Ok?
    {
      value
    }
  }

  datatype Option<+T> = None | Some(value: T)

  function Pow256(w: nat): (p: nat)
    ensures p > 0
  {
    if w == 0 then 1 else 256 * Pow256(w - 1)
  }

  /** `to_le_bytes` of the low `w` bytes of `n`; higher bytes are truncated away. */
  function ToLe(n: nat, w: nat): (s: seq<byte>)
    ensures |s| == w
  {
    if w == 0 then [] else [(n % 256) as byte] + ToLe(n / 256, w - 1)
  }

  /** `from_le_bytes`. */
  function FromLe(s: seq<byte>): (n: nat)
    ensures n < Pow256(|s|)
  {
    if s == [] then 0 else (s[0] as int) + 256 * FromLe(s[1..])
  }

  lemma Pow256Values()
    ensures Pow256(4) == 0x1_0000_0000
    ensures Pow256(8) == 0x1_0000_0000_0000_0000
  {
    assert Pow256(1) == 256 && Pow256(2) == 0x1_0000;
    assert Pow256(3) == 0x100_0000 && Pow256(4) == 0x1_0000_0000;
    assert Pow256(5) == 0x100_0000_0000 && Pow256(6) == 0x1_0000_0000_0000;
    assert Pow256(7) == 0x100_0000_0000_0000;
  }

  lemma FromLeEmpty()
    ensures FromLe([]) == 0
  {
  }

  lemma FromLeStep(s: seq<byte>)
    requires s != []
    ensures FromLe(s) == (s[0] as int) + 256 * FromLe(s[1..])
  {
  }

  lemma ToLeStep(n: nat, w: nat)
    requires w != 0
    ensures ToLe(n, w) == [(n % 256) as byte] + ToLe(n / 256, w - 1)
  {
  }

  lemma ByteRoundTrip(n: nat)
    requires n < 256
    ensures ((n as byte) as int) == n
  {
    // one bit length at a time: conversions between integers and bit-vectors are costly
    if n < 16 {
    } else if n < 32 {
    } else if n < 64 {
    } else if n < 128 {
    } else {
    }
  }

  lemma ByteOfInt(b: byte)
    ensures (b as int) as byte == b
  {
  }

  /** Reading back a little-endian field gives the number that was written. */
  lemma {:induction false} FromLeToLe(n: nat, w: nat)
    requires n < Pow256(w)
    ensures FromLe(ToLe(n, w)) == n
  {
    if w != 0 {
      FromLeToLe(n / 256, w - 1);
      ByteRoundTrip(n % 256);
      assert ToLe(n, w)[1..] == ToLe(n / 256, w - 1);
    }
  }

  lemma DivMod256(low: nat, high: nat)
    requires low < 256
    ensures (low + 256 * high) % 256 == low && (low + 256 * high) / 256 == high
  {
  }

  /** Writing back a number that was read gives the same bytes: the encoding is canonical. */
  lemma {:induction false} ToLeFromLe(s: seq<byte>)
    ensures ToLe(FromLe(s), |s|) == s
  {
    hide FromLe, ToLe;
    if s != [] {
      ToLeFromLe(s[1..]);
      FromLeStep(s);
      ToLeStep(FromLe(s), |s|);
      DivMod256(s[0] as int, FromLe(s[1..]));
      ByteOfInt(s[0]);
      assert s == [s[0]] + s[1..];
    }
  }

  /** Byte `i` of the field is the `i`-th digit of `n` in base 256, lowest first. */
  ghost predicate IsLe(field: seq<byte>, n: nat) {
    forall i :: 0 <= i < |field| ==> (field[i] as int) == n / Pow256(i) % 256
  }

  /** `to_le_bytes` writes the digits of the number, lowest first. */
  lemma {:induction false} ToLeDigits(n: nat, w: nat)
    ensures IsLe(ToLe(n, w), n)
  {
    if w != 0 {
      ToLeDigits(n / 256, w - 1);
      var s := ToLe(n, w);
      ByteRoundTrip(n % 256);
      assert s[1..] == ToLe(n / 256, w - 1);
      forall i | 0 <= i < w ensures (s[i] as int) == n / Pow256(i) % 256 {
        if i > 0 {
          assert s[i] == s[1..][i - 1];
          DivTwice(n, Pow256(i - 1), Pow256(i));
        }
      }
    }
  }

  lemma DivTwice(n: nat, p: nat, m: nat)
    requires p > 0 && m == 256 * p
    ensures n / 256 / p == n / m
  {
    Quotient(n, m);
    var q: int, r: int := n / m, n % m;
    MulMod(n, p, m, q, r);
  }

  lemma Quotient(n: int, m: int)
    requires m > 0
    ensures n == m * (n / m) + n % m && 0 <= n % m < m && (n >= 0 ==> n / m >= 0)
  {
  }

  lemma MulMod(n: int, p: int, m: int, q: int, r: int)
    requires p > 0 && 0 <= q && 0 <= r && m == 256 * p && n == m * q + r && r < m
    ensures n / 256 / p == q
  {
    Regroup(0, 0, p, q);
    var x := p * q;
    assert n == 256 * x + r;
    assert n / 256 == x + r / 256;
    DivUnique(x + r / 256, p, q, r / 256);
  }

  lemma DivUnique(n: int, p: int, q: int, s: int)
    requires p > 0 && 0 <= s && n == p * q + s && s < p
    ensures n / p == q
  {
    Quotient(n, p);
    SmallMultiple(p, n / p, q, s - n % p);
  }

  lemma FromLeInjective(a: seq<byte>, b: seq<byte>)
    requires |a| == |b| && FromLe(a) == FromLe(b)
    ensures a == b
  {
    ToLeFromLe(a);
    ToLeFromLe(b);
  }

  lemma Regroup(low: int, x: int, p: int, y: int)
    ensures low + 256 * (x + p * y) == (low + 256 * x) + (256 * p) * y
  {
  }

  lemma {:induction false} FromLeConcat(a: seq<byte>, b: seq<byte>)
    ensures FromLe(a + b) == FromLe(a) + Pow256(|a|) * FromLe(b)
  {
    hide FromLe;
    if a == [] {
      assert a + b == b;
      FromLeEmpty();
    } else {
      FromLeConcat(a[1..], b);
      assert (a + b)[1..] == a[1..] + b && (a + b)[0] == a[0];
      FromLeStep(a);
      FromLeStep(a + b);
      Regroup(a[0] as int, FromLe(a[1..]), Pow256(|a| - 1), FromLe(b));
    }
  }

  /**
   Changing only the high bytes of one number and only the low bytes of another never
   moves both by the same amount.
   */
  lemma HighAndLowChanges(low: seq<byte>, high: seq<byte>, high': seq<byte>, low2: seq<byte>, low2': seq<byte>, high2: seq<byte>)
    requires |low| == |low2| == |low2'|
    requires FromLe(low + high) - FromLe(low + high') == FromLe(low2 + high2) - FromLe(low2' + high2)
    ensures FromLe(low + high) == FromLe(low + high')
  {
    var p := Pow256(|low|);
    FromLeConcat(low, high);
    FromLeConcat(low, high');
    FromLeConcat(low2, high2);
    FromLeConcat(low2', high2);
    SmallMultiple(p, FromLe(high), FromLe(high'), FromLe(low2) - FromLe(low2'));
  }

  lemma MulAtLeast(p: int, d: int)
    requires p > 0 && d >= 1
    ensures p * d >= p
  {
  }

  lemma MulDistributes(p: int, x: int, y: int)
    ensures p * x - p * y == p * (x - y)
    ensures p * (y - x) == -(p * (x - y))
  {
  }

  lemma SmallMultiple(p: int, x: int, y: int, e: int)
    requires p > 0 && p * x - p * y == e && -p < e < p
    ensures x == y
  {
    MulDistributes(p, x, y);
    if x > y {
      MulAtLeast(p, x - y);
    } else if x < y {
      MulAtLeast(p, y - x);
    }
  }

  // ---- cursor readers (BytesUtil) ----

  /** The bytes `[cursor, cursor + len)` and the cursor behind them. */
  function TakeBytes(buf: seq<byte>, cursor: nat, len: nat): (r: Result<(seq<byte>, nat)>)
    ensures r.Ok? <==> cursor + len <= USIZE_MAX && cursor + len <= |buf|
    ensures r.Ok? ==> r.value.1 == cursor + len && r.value.0 == buf[cursor..cursor + len]
    ensures r.Err? ==> r.error in {Overflow, UnexpectedEof}
  {
    if cursor + len > USIZE_MAX then Err(Overflow)
    else if cursor + len > |buf| then Err(UnexpectedEof)
    else Ok((buf[cursor..cursor + len], cursor + len))
  }

  /** A `w`-byte little-endian number at `cursor` and the cursor behind it. */
  function TakeLe(buf: seq<byte>, cursor: nat, w: nat): (r: Result<(nat, nat)>)
    ensures r.Ok? <==> cursor + w <= USIZE_MAX && cursor + w <= |buf|
    ensures r.Ok? ==> r.value.1 == cursor + w && r.value.0 == FromLe(buf[cursor..cursor + w])
  {
    var (field, next) :- TakeBytes(buf, cursor, w);
    Ok((FromLe(field), next))
  }

  /** `field` sits in `buf` at position `p`. */
  ghost predicate HasAt(buf: seq<byte>, p: nat, field: seq<byte>) {
    p + |field| <= |buf| && buf[p..p + |field|] == field
  }

  lemma HasAtSplit(buf: seq<byte>, p: nat, a: seq<byte>, b: seq<byte>)
    requires HasAt(buf, p, a + b)
    ensures HasAt(buf, p, a) && HasAt(buf, p + |a|, b)
  {
    assert buf[p..p + |a|] == (a + b)[..|a|];
    assert buf[p + |a|..p + |a| + |b|] == (a + b)[|a|..];
  }

  lemma HasAtJoin(buf: seq<byte>, p: nat, a: seq<byte>, b: seq<byte>)
    requires HasAt(buf, p, a) && HasAt(buf, p + |a|, b)
    ensures HasAt(buf, p, a + b)
  {
    assert buf[p..p + |a + b|] == buf[p..p + |a|] + buf[p + |a|..p + |a| + |b|];
  }

  lemma HasAtSame(a: seq<byte>, b: seq<byte>, p: nat, field: seq<byte>)
    requires HasAt(a, p, field) && |a| == |b|
    requires forall j :: p <= j < |a| ==> a[j] == b[j]
    ensures HasAt(b, p, field)
  {
  }

  function TakeByte(buf: seq<byte>, cursor: nat): (r: Result<(byte, nat)>)
    ensures r.Ok? <==> cursor < |buf|
  {
    if cursor >= |buf| then Err(UnexpectedEof) else Ok((buf[cursor], cursor + 1))
  }

  lemma TakeLeAt(buf: seq<byte>, p: nat, field: seq<byte>)
    requires HasAt(buf, p, field) && p + |field| <= USIZE_MAX
    ensures TakeLe(buf, p, |field|) == Ok((FromLe(field), p + |field|))
  {
  }

  lemma TakeByteAt(buf: seq<byte>, p: nat, b: byte)
    requires HasAt(buf, p, [b])
    ensures TakeByte(buf, p) == Ok((b, p + 1))
  {
    assert buf[p] == buf[p..p + 1][0];
  }

  lemma DropFirst(a: seq<byte>, b: seq<byte>, c: seq<byte>)
    ensures (a + b + c)[|a|..] == b + c
  {
  }

  /**
   The `&mut usize` cursor of the decoders. A read that fails leaves it where it was.
   */
  class Cursor {
    var pos: nat

    constructor ()
      ensures pos == 0
    {
      pos := 0;
    }

    method ReadU8(buf: seq<byte>) returns (r: Result<byte>)
      modifies this
      ensures r.Ok? <==> TakeByte(buf, old(pos)).Ok?
      ensures r.Ok? ==> TakeByte(buf, old(pos)) == Ok((r.value, pos))
      ensures r.Err? ==> TakeByte(buf, old(pos)) == Err(r.error) && pos == old(pos)
    {
      if pos >= |buf| {
        return Err(UnexpectedEof);
      }
      r := Ok(buf[pos]);
      pos := pos + 1;
    }

    method ReadBytes(buf: seq<byte>, len: nat) returns (r: Result<seq<byte>>)
      modifies this
      ensures r.Ok? ==> TakeBytes(buf, old(pos), len) == Ok((r.value, pos))
      ensures r.Err? ==> TakeBytes(buf, old(pos), len) == Err(r.error) && pos == old(pos)
    {
      var end := pos + len;
      if end > USIZE_MAX {
        return Err(Overflow);
      }
      if end > |buf| {
        return Err(UnexpectedEof);
      }
      r := Ok(buf[pos..end]);
      pos := end;
    }

    /** `read_u32` (`w == 4`) and `read_u64` (`w == 8`). */
    method ReadLe(buf: seq<byte>, w: nat) returns (r: Result<nat>)
      modifies this
      ensures r.Ok? ==> TakeLe(buf, old(pos), w) == Ok((r.value, pos))
      ensures r.Err? ==> TakeLe(buf, old(pos), w) == Err(r.error) && pos == old(pos)
    {
      var field := ReadBytes(buf, w);
      r := if field.Ok? then Ok(FromLe(field.value)) else Err(field.error);
    }
  }
}
