/**
 The compact serialization: sizes and flags go to a stream of bits, payload to a stream of
 bytes. `Put...` says what a value adds in front of a stream, `Get...` what is read off it;
 the writer and the reader do this on bit arrays and buffers. Reading `None` is a panic.
 */
module Cser {
  import opened Basics
  import opened Transactions
  import opened Bits

  datatype Stream = Stream(bits: seq<bool>, bytes: seq<Byte>)

  type Parsed<T> = Option<(T, Stream)>

  function Cat(a: Stream, b: Stream): Stream {
    Stream(a.bits + b.bits, a.bytes + b.bytes)
  }

  const NIL := Stream([], [])

  lemma CatNil(s: Stream)
    ensures Cat(s, NIL) == s && Cat(NIL, s) == s
  {
  }

  // -------- raw bits and bytes --------

  function PutBits(n: nat, v: nat, rest: Stream): Stream {
    Stream(BitsOf(v, n) + rest.bits, rest.bytes)
  }

  function GetBits(n: nat, s: Stream): Parsed<nat> {
    if |s.bits| < n then None else Some((NatOf(s.bits[..n]), Stream(s.bits[n..], s.bytes)))
  }

  function PutBytes(b: seq<Byte>, rest: Stream): Stream {
    Stream(rest.bits, b + rest.bytes)
  }

  function GetBytes(n: nat, s: Stream): Parsed<seq<Byte>> {
    if |s.bytes| < n then None else Some((s.bytes[..n], Stream(s.bits, s.bytes[n..])))
  }

  lemma BitsRound(n: nat, v: nat, rest: Stream)
    requires v < Pow2(n)
    ensures GetBits(n, PutBits(n, v, rest)) == Some((v, rest))
  {
    NatOfBits(v, n);
    assert PutBits(n, v, rest).bits[..n] == BitsOf(v, n) && PutBits(n, v, rest).bits[n..] == rest.bits;
  }

  lemma BytesRound(b: seq<Byte>, rest: Stream)
    ensures GetBytes(|b|, PutBytes(b, rest)) == Some((b, rest))
  {
    assert PutBytes(b, rest).bytes[..|b|] == b && PutBytes(b, rest).bytes[|b|..] == rest.bytes;
  }

  lemma BitsBack(n: nat, s: Stream)
    requires |s.bits| >= n
    ensures PutBits(n, NatOf(s.bits[..n]), Stream(s.bits[n..], s.bytes)) == s
  {
    BitsOfNat(s.bits[..n]);
    assert s.bits[..n] + s.bits[n..] == s.bits;
  }

  // -------- numbers in little-endian bytes --------

  /** The bytes of `v` from the lowest on, at least `min` of them and no leading zero beyond that. */
  function LittleEndian(v: nat, min: nat): seq<Byte>
    decreases v, min
  {
    if min == 0 && v == 0 then [] else [v % 256] + LittleEndian(v / 256, if min == 0 then 0 else min - 1)
  }

  function FromLittleEndian(b: seq<Byte>): nat {
    if b == [] then 0 else b[0] + 256 * FromLittleEndian(b[1..])
  }

  lemma {:induction false} LittleEndianRound(v: nat, min: nat)
    ensures FromLittleEndian(LittleEndian(v, min)) == v && |LittleEndian(v, min)| >= min
    decreases v, min
  {
    if !(min == 0 && v == 0) {
      LittleEndianRound(v / 256, if min == 0 then 0 else min - 1);
      assert LittleEndian(v, min)[1..] == LittleEndian(v / 256, if min == 0 then 0 else min - 1);
    }
  }

  lemma {:induction false} LittleEndianSize(v: nat, min: nat, k: nat)
    requires v < Pow256(k) && min <= k
    ensures |LittleEndian(v, min)| <= k
    decreases k
  {
    if k > 0 && !(min == 0 && v == 0) {
      LittleEndianSize(v / 256, if min == 0 then 0 else min - 1, k - 1);
    }
  }

  /** No superfluous high byte. */
  lemma {:induction false} LittleEndianTop(v: nat, min: nat)
    ensures |LittleEndian(v, min)| > min ==> LittleEndian(v, min)[|LittleEndian(v, min)| - 1] != 0
    decreases v, min
  {
    if !(min == 0 && v == 0) {
      var b := LittleEndian(v / 256, if min == 0 then 0 else min - 1);
      LittleEndianTop(v / 256, if min == 0 then 0 else min - 1);
      assert v < 256 ==> v / 256 == 0;
    }
  }

  /** Bytes without a superfluous high one are the bytes of their value. */
  lemma {:induction false} LittleEndianBack(b: seq<Byte>, min: nat)
    requires |b| >= min && (|b| > min ==> b[|b| - 1] != 0)
    ensures LittleEndian(FromLittleEndian(b), min) == b
    decreases |b|
  {
    if b != [] {
      LittleEndianBack(b[1..], if min == 0 then 0 else min - 1);
      if min == 0 { HighByteCounts(b); }
      assert b == [b[0]] + b[1..];
    }
  }

  lemma {:induction false} HighByteCounts(b: seq<Byte>)
    requires b != [] && b[|b| - 1] != 0
    ensures FromLittleEndian(b) > 0
    decreases |b|
  {
    if |b| > 1 {
      HighByteCounts(b[1..]);
    }
  }

  lemma {:induction false} FromLittleEndianBound(b: seq<Byte>)
    ensures FromLittleEndian(b) < Pow256(|b|)
    decreases |b|
  {
    if b != [] {
      FromLittleEndianBound(b[1..]);
    }
  }

  /** A number: its bytes, and how many beyond the minimum in `width` bits. */
  function PutNum(min: nat, width: nat, v: nat, rest: Stream): Stream {
    var b := LittleEndian(v, min);
    LittleEndianRound(v, min);
    PutBits(width, |b| - min, PutBytes(b, rest))
  }

  function GetNum(min: nat, width: nat, s: Stream): Parsed<nat> {
    var size := GetBits(width, s);
    if size.None? then None else
    var buf := GetBytes(size.value.0 + min, size.value.1);
    if buf.None? then None else
    var b := buf.value.0;
    if |b| > 1 && b[|b| - 1] == 0 then None else Some((FromLittleEndian(b), buf.value.1))
  }

  lemma NumRound(min: nat, width: nat, v: nat, rest: Stream)
    requires min <= 1 && v < Pow256(Pow2(width) - 1 + min)
    ensures GetNum(min, width, PutNum(min, width, v, rest)) == Some((v, rest))
  {
    var b := LittleEndian(v, min);
    LittleEndianRound(v, min);
    LittleEndianSize(v, min, Pow2(width) - 1 + min);
    LittleEndianTop(v, min);
    BitsRound(width, |b| - min, PutBytes(b, rest));
    BytesRound(b, rest);
  }

  /** With at least one byte per number there is only one way to write each. */
  lemma NumUnique(width: nat, s: Stream)
    ensures var got := GetNum(1, width, s);
      got.Some? ==> s == PutNum(1, width, got.value.0, got.value.1) && got.value.0 < Pow256(Pow2(width))
  {
    var got := GetNum(1, width, s);
    if got.Some? {
      var size := GetBits(width, s).value;
      var b := GetBytes(size.0 + 1, size.1).value.0;
      LittleEndianBack(b, 1);
      FromLittleEndianBound(b);
      BitsBack(width, s);
      BitsOfNat(s.bits[..width]);
      assert size.1.bytes == b + got.value.1.bytes;
      PowGrows(|b|, Pow2(width));
    }
  }

  lemma {:induction false} PowGrows(i: nat, j: nat)
    requires i <= j
    ensures Pow256(i) <= Pow256(j)
    decreases j
  {
    if i < j {
      PowGrows(i, j - 1);
    }
  }

  // -------- fixed-width values --------

  type U8 = Byte
  type U16 = n: nat | n < 0x1_0000
  type U32 = n: nat | n < 0x1_0000_0000
  type U56 = n: nat | n < 0x100_0000_0000_0000
  type U64 = n: nat | n < 0x1_0000_0000_0000_0000
  type I64 = n: int | -0x8000_0000_0000_0000 <= n < 0x8000_0000_0000_0000

  lemma Widths()
    ensures Pow256(2) == 0x1_0000 && Pow256(4) == 0x1_0000_0000
    ensures Pow256(7) == 0x100_0000_0000_0000 && Pow256(8) == 0x1_0000_0000_0000_0000
    ensures Pow2(1) == 2 && Pow2(2) == 4 && Pow2(3) == 8
  {
    assert Pow256(1) == 256;
    assert Pow256(3) == 256 * Pow256(2);
    assert Pow256(5) == 256 * Pow256(4);
    assert Pow256(6) == 256 * Pow256(5);
  }

  function GetU8(s: Stream): Parsed<U8> {
    var got := GetBytes(1, s);
    if got.None? then None else Some((got.value.0[0], got.value.1))
  }

  function PutU16(v: U16, rest: Stream): Stream { PutNum(1, 1, v, rest) }
  function PutU32(v: U32, rest: Stream): Stream { PutNum(1, 2, v, rest) }
  function PutU64(v: U64, rest: Stream): Stream { PutNum(1, 3, v, rest) }
  function PutU56(v: U56, rest: Stream): Stream { PutNum(0, 3, v, rest) }

  lemma NumFits(s: Stream)
    ensures GetNum(1, 1, s).Some? ==> GetNum(1, 1, s).value.0 < 0x1_0000
    ensures GetNum(1, 2, s).Some? ==> GetNum(1, 2, s).value.0 < 0x1_0000_0000
    ensures GetNum(1, 3, s).Some? ==> GetNum(1, 3, s).value.0 < 0x1_0000_0000_0000_0000
  {
    Widths();
    NumUnique(1, s);
    NumUnique(2, s);
    NumUnique(3, s);
  }

  function GetU16(s: Stream): Parsed<U16> {
    NumFits(s);
    GetNum(1, 1, s)
  }

  function GetU32(s: Stream): Parsed<U32> {
    NumFits(s);
    GetNum(1, 2, s)
  }

  function GetU64(s: Stream): Parsed<U64> {
    NumFits(s);
    GetNum(1, 3, s)
  }

  function GetU56(s: Stream): Parsed<U56> {
    SevenBytes(s);
    GetNum(0, 3, s)
  }

  lemma U32Round(v: U32, rest: Stream)
    ensures GetU32(PutU32(v, rest)) == Some((v, rest))
  {
    Widths();
    NumRound(1, 2, v, rest);
  }

  lemma U64Round(v: U64, rest: Stream)
    ensures GetU64(PutU64(v, rest)) == Some((v, rest))
  {
    Widths();
    NumRound(1, 3, v, rest);
  }

  lemma U56Round(v: U56, rest: Stream)
    ensures GetU56(PutU56(v, rest)) == Some((v, rest))
  {
    Widths();
    NumRound(0, 3, v, rest);
  }

  /** What is accepted as a number of 16, 32 or 64 bits is written in the one way possible. */
  lemma NumbersUnique(s: Stream)
    ensures GetU16(s).Some? ==> s == PutU16(GetU16(s).value.0, GetU16(s).value.1)
    ensures GetU32(s).Some? ==> s == PutU32(GetU32(s).value.0, GetU32(s).value.1)
    ensures GetU64(s).Some? ==> s == PutU64(GetU64(s).value.0, GetU64(s).value.1)
  {
    Widths();
    NumUnique(1, s);
    NumUnique(2, s);
    NumUnique(3, s);
  }

  lemma SevenBytes(s: Stream)
    ensures GetNum(0, 3, s).Some? ==> GetNum(0, 3, s).value.0 < 0x100_0000_0000_0000
  {
    Widths();
    var got := GetNum(0, 3, s);
    if got.Some? {
      var size := GetBits(3, s).value;
      BitsOfNat(s.bits[..3]);
      var b := GetBytes(size.0, size.1).value.0;
      FromLittleEndianBound(b);
      PowGrows(|b|, 7);
    }
  }

  function PutBool(v: bool, rest: Stream): Stream { PutBits(1, if v then 1 else 0, rest) }

  function GetBool(s: Stream): Parsed<bool> {
    var got := GetBits(1, s);
    if got.None? then None else Some((got.value.0 != 0, got.value.1))
  }

  lemma BoolRound(v: bool, rest: Stream)
    ensures GetBool(PutBool(v, rest)) == Some((v, rest))
  {
    assert Pow2(1) == 2;
    BitsRound(1, if v then 1 else 0, rest);
  }

  function Abs(v: int): nat { if v < 0 then -v else v }

  /** Two's complement on 64 bits, for results that are off by at most one turn. */
  function Wrap64(v: int): I64
    requires -0x1_0000_0000_0000_0000 <= v < 0x1_0000_0000_0000_0000
  {
    if v < -0x8000_0000_0000_0000 then v + 0x1_0000_0000_0000_0000 else
    if v >= 0x8000_0000_0000_0000 then v - 0x1_0000_0000_0000_0000 else v
  }

  function PutI64(v: I64, rest: Stream): Stream {
    PutBool(v < 0, PutU64(Abs(v), rest))
  }

  function GetI64(s: Stream): Parsed<I64> {
    var neg := GetBool(s);
    if neg.None? then None else
    var abs := GetU64(neg.value.1);
    if abs.None? || (neg.value.0 && abs.value.0 == 0) then None else
    Some((if neg.value.0 then Wrap64(-(Wrap64(abs.value.0) as int)) else Wrap64(abs.value.0), abs.value.1))
  }

  /** Signed numbers survive, the lowest one included. */
  lemma I64Round(v: I64, rest: Stream)
    ensures GetI64(PutI64(v, rest)) == Some((v, rest))
  {
    BoolRound(v < 0, PutU64(Abs(v), rest));
    U64Round(Abs(v), rest);
    WrapBack(v);
  }

  lemma WrapBack(v: I64)
    ensures v >= 0 ==> Wrap64(Abs(v)) == v
    ensures v < 0 ==> Wrap64(-(Wrap64(Abs(v)) as int)) == v
  {
  }

  // -------- byte slices and big integers --------

  function PutSlice(b: seq<Byte>, rest: Stream): Stream
    requires |b| < 0x100_0000_0000_0000
  {
    PutU56(|b|, PutBytes(b, rest))
  }

  function GetSlice(s: Stream): Parsed<seq<Byte>> {
    var size := GetU56(s);
    if size.None? then None else GetBytes(size.value.0, size.value.1)
  }

  lemma SliceRound(b: seq<Byte>, rest: Stream)
    requires |b| < 0x100_0000_0000_0000
    ensures GetSlice(PutSlice(b, rest)) == Some((b, rest))
  {
    U56Round(|b|, PutBytes(b, rest));
    BytesRound(b, rest);
  }

  function Reversed<T>(s: seq<T>): (r: seq<T>)
    ensures |r| == |s| && forall i :: 0 <= i < |s| ==> r[i] == s[|s| - 1 - i]
  {
    if s == [] then [] else Reversed(s[1..]) + [s[0]]
  }

  lemma ReversedTwice<T>(s: seq<T>)
    ensures Reversed(Reversed(s)) == s
  {
  }

  lemma ReversedConcat<T>(a: seq<T>, b: seq<T>)
    ensures Reversed(a + b) == Reversed(b) + Reversed(a)
  {
  }

  /** The magnitude, highest byte first and without leading zeros. */
  function BigBytes(v: int): seq<Byte> { Reversed(LittleEndian(Abs(v), 0)) }

  function BigFrom(b: seq<Byte>): nat { FromLittleEndian(Reversed(b)) }

  lemma BigRound(v: int)
    ensures BigFrom(BigBytes(v)) == Abs(v)
  {
    ReversedTwice(LittleEndian(Abs(v), 0));
    LittleEndianRound(Abs(v), 0);
  }

  /** The sign of a big integer is not written. */
  function PutBig(v: int, rest: Stream): Stream
    requires |BigBytes(v)| < 0x100_0000_0000_0000
  {
    PutSlice(BigBytes(v), rest)
  }

  function GetBig(s: Stream): Parsed<nat> {
    var got := GetSlice(s);
    if got.None? then None else Some((BigFrom(got.value.0), got.value.1))
  }

  lemma BigIntRound(v: int, rest: Stream)
    requires |BigBytes(v)| < 0x100_0000_0000_0000
    ensures GetBig(PutBig(v, rest)) == Some((Abs(v), rest))
  {
    SliceRound(BigBytes(v), rest);
    BigRound(v);
  }
}
