/**
 Bit arrays: numbers written and read at any bit offset, lowest bit first. The writer
 appends to, and the reader takes from, one sequence of bits.
 */
module Bits {
  import opened Basics
  import opened Transactions

  type Byte = n: nat | n < 256

  function Pow2(k: nat): (p: nat)
    ensures p > 0
  {
    if k == 0 then 1 else 2 * Pow2(k - 1)
  }

  /** The `n` lowest bits of a number, lowest first. */
  function BitsOf(v: nat, n: nat): (b: seq<bool>)
    ensures |b| == n
  {
    if n == 0 then [] else [v % 2 == 1] + BitsOf(v / 2, n - 1)
  }

  function NatOf(b: seq<bool>): nat {
    if b == [] then 0 else (if b[0] then 1 else 0) + 2 * NatOf(b[1..])
  }

  lemma {:induction false} NatOfBits(v: nat, n: nat)
    requires v < Pow2(n)
    ensures NatOf(BitsOf(v, n)) == v
    decreases n
  {
    if n > 0 {
      NatOfBits(v / 2, n - 1);
      assert BitsOf(v, n)[1..] == BitsOf(v / 2, n - 1);
    }
  }

  lemma {:induction false} BitsOfNat(b: seq<bool>)
    ensures BitsOf(NatOf(b), |b|) == b && NatOf(b) < Pow2(|b|)
    decreases |b|
  {
    if b != [] {
      BitsOfNat(b[1..]);
      assert b == [b[0]] + b[1..];
    }
  }

  // -------- shifts and masks --------

  function Shr(v: nat, k: nat): nat
    decreases k
  {
    if k == 0 then v else Shr(v / 2, k - 1)
  }

  function Shl(v: nat, k: nat): nat {
    if k == 0 then v else 2 * Shl(v, k - 1)
  }

  /** Bitwise or, bit by bit. */
  function Or(a: nat, b: nat): nat {
    if a == 0 && b == 0 then 0 else (if a % 2 == 1 || b % 2 == 1 then 1 else 0) + 2 * Or(a / 2, b / 2)
  }

  /** Bitwise and, bit by bit. */
  function And(a: nat, b: nat): nat {
    if a == 0 || b == 0 then 0 else (if a % 2 == 1 && b % 2 == 1 then 1 else 0) + 2 * And(a / 2, b / 2)
  }

  lemma {:induction false} OrZero(a: nat)
    ensures Or(0, a) == a
  {
    if a > 0 {
      OrZero(a / 2);
    }
  }

  lemma OrStep(a: nat, w: nat)
    ensures Or(a, 2 * w) == a % 2 + 2 * Or(a / 2, w)
  {
  }

  lemma AndStep(v: nat, m: nat)
    ensures And(v, 2 * m + 1) == v % 2 + 2 * And(v / 2, m)
  {
  }

  /** Writing `v` above the `k` bits of `a`. */
  lemma {:induction false} JoinBits(a: nat, k: nat, v: nat, n: nat)
    requires a < Pow2(k)
    ensures BitsOf(Or(a, Shl(v, k)), k + n) == BitsOf(a, k) + BitsOf(v, n)
    ensures v < Pow2(n) ==> Or(a, Shl(v, k)) < Pow2(k + n)
    decreases k
  {
    if k == 0 {
      OrZero(v);
    } else {
      JoinBits(a / 2, k - 1, v, n);
      OrStep(a, Shl(v, k - 1));
    }
  }

  /** Cutting the bits of `v` after the lowest `k`. */
  lemma {:induction false} CutBits(v: nat, k: nat, n: nat)
    ensures BitsOf(v, k + n) == BitsOf(v, k) + BitsOf(Shr(v, k), n)
    ensures v < Pow2(k + n) ==> Shr(v, k) < Pow2(n)
    decreases k
  {
    if k > 0 {
      CutBits(v / 2, k - 1, n);
    }
  }

  /** A mask of `k` ones keeps the lowest `k` bits. */
  lemma {:induction false} MaskBits(v: nat, k: nat)
    ensures And(v, Pow2(k) - 1) < Pow2(k) && BitsOf(And(v, Pow2(k) - 1), k) == BitsOf(v, k)
    decreases k
  {
    if k > 0 {
      MaskBits(v / 2, k - 1);
      AndStep(v, Pow2(k - 1) - 1);
    }
  }

  lemma {:induction false} ShiftedOnes(j: nat, c: nat)
    ensures Shr(Pow2(j + c) - 1, c) == Pow2(j) - 1
    decreases c
  {
    if c > 0 {
      ShiftedOnes(j, c - 1);
    }
  }

  /** The highest bits of a small number are zero. */
  lemma {:induction false} HighZeros(v: nat, k: nat, n: nat)
    requires v < Pow2(k)
    ensures BitsOf(v, k + n) == BitsOf(v, k) + BitsOf(0, n)
    decreases k
  {
    if k > 0 {
      HighZeros(v / 2, k - 1, n);
    }
  }

  lemma PowByte()
    ensures Pow2(8) == 256
  {
    assert Pow2(4) == 16;
  }

  // -------- byte arrays as bits --------

  function AllBits(bytes: seq<Byte>): (b: seq<bool>)
    ensures |b| == 8 * |bytes|
  {
    if bytes == [] then [] else BitsOf(bytes[0], 8) + AllBits(bytes[1..])
  }

  lemma {:induction false} AllBitsAppend(bytes: seq<Byte>, more: seq<Byte>)
    ensures AllBits(bytes + more) == AllBits(bytes) + AllBits(more)
    decreases |bytes|
  {
    if bytes == [] {
      assert bytes + more == more;
    } else {
      AllBitsAppend(bytes[1..], more);
      assert (bytes + more)[1..] == bytes[1..] + more;
      Regroup(BitsOf(bytes[0], 8), AllBits(bytes[1..]), AllBits(more));
    }
  }

  lemma AllBitsLast(bytes: seq<Byte>, b: Byte)
    ensures AllBits(bytes + [b]) == AllBits(bytes) + BitsOf(b, 8)
  {
    AllBitsAppend(bytes, [b]);
    assert AllBits([b]) == BitsOf(b, 8) + AllBits([]);
  }

  // -------- writer --------

  /** The bits of the full bytes and the first `used` bits of the last one, if it is open. */
  ghost function Written(bytes: seq<Byte>, used: nat): seq<bool>
    requires used > 0 ==> bytes != []
  {
    if used == 0 then AllBits(bytes) else AllBits(bytes[..|bytes| - 1]) + BitsOf(bytes[|bytes| - 1], used)
  }

  /** Keeps the lowest `8 - clear` bits. */
  function ZeroTopByteBits(v: nat, clear: nat): nat {
    And(v, Shr(0xff, clear))
  }

  lemma ZeroTop(v: nat, clear: nat)
    requires clear <= 8
    ensures ZeroTopByteBits(v, clear) < Pow2(8 - clear)
    ensures BitsOf(ZeroTopByteBits(v, clear), 8 - clear) == BitsOf(v, 8 - clear)
  {
    PowByte();
    ShiftedOnes(8 - clear, clear);
    MaskBits(v, 8 - clear);
  }

  class BitWriter {
    var bytes: seq<Byte>
    var bitOffset: nat

    ghost predicate Valid()
      reads this
    {
      bitOffset < 8 && (bitOffset > 0 ==> bytes != [] && bytes[|bytes| - 1] < Pow2(bitOffset))
    }

    ghost function Contents(): seq<bool>
      requires Valid()
      reads this
    {
      Written(bytes, bitOffset)
    }

    constructor ()
      ensures Valid() && Contents() == []
    {
      bytes, bitOffset := [], 0;
    }

    /** There is an open last byte after the bits `before`. */
    ghost predicate Open(before: seq<bool>)
      reads this
    {
      && bytes != [] && bitOffset < 8 && bytes[|bytes| - 1] < Pow2(bitOffset)
      && before == AllBits(bytes[..|bytes| - 1]) + BitsOf(bytes[|bytes| - 1], bitOffset)
    }

    /** Opens a new byte when the last one is full. */
    method OpenByte()
      requires Valid()
      modifies this`bytes
      ensures Open(old(Contents()))
    {
      if bitOffset == 0 {
        bytes := bytes + [0];
      }
    }

    method WriteIntoLastByte(v: nat, ghost n: nat)
      requires bytes != [] && bytes[|bytes| - 1] < Pow2(bitOffset) && bitOffset + n <= 8 && v < Pow2(n)
      modifies this`bytes
      ensures |bytes| == |old(bytes)| && bytes[..|bytes| - 1] == old(bytes[..|bytes| - 1])
      ensures bytes[|bytes| - 1] < Pow2(bitOffset + n)
      ensures BitsOf(bytes[|bytes| - 1], bitOffset + n) == old(BitsOf(bytes[|bytes| - 1], bitOffset)) + BitsOf(v, n)
    {
      var last := |bytes| - 1;
      JoinBits(bytes[last], bitOffset, v, n);
      PowUpToByte(bitOffset + n);
      bytes := bytes[last := Or(bytes[last], Shl(v, bitOffset))];
    }

    /** Fills up to the free bits of the open byte. */
    method Fill(v: nat, n: nat, ghost before: seq<bool>)
      requires Open(before) && 0 < n <= 8 - bitOffset && v < Pow2(n)
      modifies this
      ensures Valid() && Contents() == before + BitsOf(v, n) && bitOffset == (if n == 8 - old(bitOffset) then 0 else old(bitOffset) + n)
    {
      Regroup(AllBits(bytes[..|bytes| - 1]), BitsOf(bytes[|bytes| - 1], bitOffset), BitsOf(v, n));
      WriteIntoLastByte(v, n);
      if n == 8 - bitOffset {
        AllBitsLast(bytes[..|bytes| - 1], bytes[|bytes| - 1]);
        assert bytes == bytes[..|bytes| - 1] + [bytes[|bytes| - 1]];
        bitOffset := 0;
      } else {
        bitOffset := bitOffset + n;
      }
    }

    /** Appends the `bits` lowest bits of a number that has no others. */
    method Write(bits: nat, v: nat)
      requires Valid() && 0 < bits && v < Pow2(bits)
      modifies this
      ensures Valid() && Contents() == old(Contents()) + BitsOf(v, bits)
      decreases bits
    {
      ghost var before := Contents();
      OpenByte();
      var free := 8 - bitOffset;
      if bits <= free {
        Fill(v, bits, before);
      } else {
        CarryOver(before, v, bits, bitOffset);
        Fill(ZeroTopByteBits(v, bitOffset), free, before);
        Write(bits - free, Shr(v, free));
      }
    }
  }

  /** The bytes of a writer hold its bits and fewer than eight zeros. */
  lemma Padding(bytes: seq<Byte>, used: nat)
    requires used < 8 && (used > 0 ==> bytes != [] && bytes[|bytes| - 1] < Pow2(used))
    ensures AllBits(bytes) == Written(bytes, used) + BitsOf(0, if used == 0 then 0 else 8 - used)
  {
    if used > 0 {
      var last := |bytes| - 1;
      assert bytes == bytes[..last] + [bytes[last]];
      AllBitsLast(bytes[..last], bytes[last]);
      HighZeros(bytes[last], used, 8 - used);
      Regroup(AllBits(bytes[..last]), BitsOf(bytes[last], used), BitsOf(0, 8 - used));
    }
  }

  lemma CarryOver(before: seq<bool>, v: nat, bits: nat, used: nat)
    requires used < 8 && 8 - used < bits && v < Pow2(bits)
    ensures ZeroTopByteBits(v, used) < Pow2(8 - used) && Shr(v, 8 - used) < Pow2(bits - (8 - used))
    ensures before + BitsOf(v, bits) == before + BitsOf(ZeroTopByteBits(v, used), 8 - used) + BitsOf(Shr(v, 8 - used), bits - (8 - used))
  {
    var free := 8 - used;
    ZeroTop(v, used);
    CutBits(v, free, bits - free);
    Regroup(before, BitsOf(v, free), BitsOf(Shr(v, free), bits - free));
  }

  lemma {:induction false} PowUpToByte(k: nat)
    requires k <= 8
    ensures Pow2(k) <= 256
    decreases 8 - k
  {
    if k == 8 {
      PowByte();
    } else {
      PowUpToByte(k + 1);
    }
  }

  // -------- reader --------

  /** The bits from bit `used` of byte `at` on. */
  ghost function Unread(bytes: seq<Byte>, at: nat, used: nat): (r: seq<bool>)
    requires at <= |bytes| && used < 8 && (used > 0 ==> at < |bytes|)
    ensures |r| == 8 * (|bytes| - at) - used
  {
    AllBits(bytes[at..])[used..]
  }

  lemma UnreadSplits(bytes: seq<Byte>, at: nat, used: nat)
    requires at < |bytes| && used < 8
    ensures Unread(bytes, at, used) == BitsOf(bytes[at], 8)[used..] + Unread(bytes, at + 1, 0)
  {
    assert bytes[at..][1..] == bytes[at + 1..];
  }

  /** Moving on inside a byte, or to the next one. */
  lemma UnreadMoves(bytes: seq<Byte>, at: nat, used: nat, n: nat)
    requires at < |bytes| && used + n <= 8 && used < 8
    ensures Unread(bytes, at, used)[..n] == BitsOf(bytes[at], 8)[used..used + n]
    ensures Unread(bytes, at, used)[n..] == if used + n == 8 then Unread(bytes, at + 1, 0) else Unread(bytes, at, used + n)
  {
    UnreadSplits(bytes, at, used);
    if used + n < 8 {
      UnreadSplits(bytes, at, used + n);
    }
  }

  /** Masking and shifting a byte picks out its middle bits. */
  lemma MiddleBits(b: Byte, used: nat, n: nat)
    requires used + n <= 8
    ensures Shr(ZeroTopByteBits(b, 8 - (used + n)), used) == NatOf(BitsOf(b, 8)[used..used + n])
  {
    var w := ZeroTopByteBits(b, 8 - (used + n));
    ZeroTop(b, 8 - (used + n));
    CutBits(w, used, n);
    CutBits(b, used + n, 8 - (used + n));
    assert BitsOf(b, 8)[..used + n] == BitsOf(w, used + n);
    assert BitsOf(b, 8)[used..used + n] == BitsOf(w, used + n)[used..];
    NatOfBits(Shr(w, used), n);
  }

  lemma TopBits(b: Byte, used: nat)
    requires used <= 8
    ensures Shr(b, used) == NatOf(BitsOf(b, 8)[used..])
  {
    PowByte();
    CutBits(b, used, 8 - used);
    assert BitsOf(b, 8)[used..] == BitsOf(Shr(b, used), 8 - used);
    NatOfBits(Shr(b, used), 8 - used);
  }

  lemma JoinNats(a: seq<bool>, r: seq<bool>)
    ensures Or(NatOf(a), Shl(NatOf(r), |a|)) == NatOf(a + r)
  {
    BitsOfNat(a);
    BitsOfNat(r);
    JoinBits(NatOf(a), |a|, NatOf(r), |r|);
    NatOfBits(Or(NatOf(a), Shl(NatOf(r), |a|)), |a| + |r|);
  }

  class BitReader {
    const bytes: seq<Byte>
    var byteOffset: nat
    var bitOffset: nat

    ghost predicate Valid()
      reads this
    {
      byteOffset <= |bytes| && bitOffset < 8 && (bitOffset > 0 ==> byteOffset < |bytes|)
    }

    ghost function Rest(): seq<bool>
      requires Valid()
      reads this
    {
      Unread(bytes, byteOffset, bitOffset)
    }

    constructor (bytes: seq<Byte>)
      ensures Valid() && Rest() == AllBits(bytes) && this.bytes == bytes
    {
      this.bytes, byteOffset, bitOffset := bytes, 0, 0;
      new;
      assert bytes[0..] == bytes;
    }

    /** Takes the next bits as a number; reading past the end panics. */
    method Read(bits: nat) returns (v: Option<nat>)
      requires Valid()
      modifies this
      ensures Valid() && (v.None? <==> bits > |old(Rest())|)
      ensures v.Some? ==> v.value == NatOf(old(Rest())[..bits]) && Rest() == old(Rest())[bits..]
      decreases bits
    {
      if bits == 0 {
        return Some(0);
      }
      if byteOffset == |bytes| {
        return None;
      }
      var free := 8 - bitOffset;
      if bits <= free {
        var n := ReadInByte(bits);
        v := Some(n);
      } else {
        var n := ReadToByteEnd();
        var rest := Read(bits - free);
        if rest.None? {
          return None;
        }
        ReadOn(old(Rest()), free, bits);
        v := Some(Or(n, Shl(rest.value, free)));
      }
    }

    method ReadInByte(bits: nat) returns (v: nat)
      requires Valid() && byteOffset < |bytes| && 0 < bits <= 8 - bitOffset
      modifies this
      ensures Valid() && v == NatOf(old(Rest())[..bits]) && Rest() == old(Rest())[bits..]
    {
      UnreadMoves(bytes, byteOffset, bitOffset, bits);
      MiddleBits(bytes[byteOffset], bitOffset, bits);
      v := Shr(ZeroTopByteBits(bytes[byteOffset], 8 - (bitOffset + bits)), bitOffset);
      if bits == 8 - bitOffset {
        bitOffset, byteOffset := 0, byteOffset + 1;
      } else {
        bitOffset := bitOffset + bits;
      }
    }

    method ReadToByteEnd() returns (v: nat)
      requires Valid() && byteOffset < |bytes|
      modifies this
      ensures Valid() && bitOffset == 0 && 8 - old(bitOffset) <= |old(Rest())|
      ensures v == NatOf(old(Rest())[..8 - old(bitOffset)]) && Rest() == old(Rest())[8 - old(bitOffset)..]
    {
      UnreadMoves(bytes, byteOffset, bitOffset, 8 - bitOffset);
      TopBits(bytes[byteOffset], bitOffset);
      assert BitsOf(bytes[byteOffset], 8)[bitOffset..8] == BitsOf(bytes[byteOffset], 8)[bitOffset..];
      v := Shr(bytes[byteOffset], bitOffset);
      bitOffset, byteOffset := 0, byteOffset + 1;
    }

    /** Looks at the next bits without taking them. */
    method View(bits: nat) returns (v: Option<nat>)
      requires Valid()
      ensures v.None? <==> bits > |Rest()|
      ensures v.Some? ==> v.value == NatOf(Rest()[..bits])
    {
      var copy := new BitReader(bytes);
      copy.byteOffset, copy.bitOffset := byteOffset, bitOffset;
      v := copy.Read(bits);
    }

    function NonReadBytes(): nat
      requires Valid()
      reads this
    {
      |bytes| - byteOffset
    }

    function NonReadBits(): (n: nat)
      requires Valid()
      reads this
      ensures n == |Rest()|
    {
      NonReadBytes() * 8 - bitOffset
    }
  }

  lemma ReadOn(all: seq<bool>, free: nat, bits: nat)
    requires free <= bits <= |all|
    ensures Or(NatOf(all[..free]), Shl(NatOf(all[free..][..bits - free]), free)) == NatOf(all[..bits])
    ensures all[free..][bits - free..] == all[bits..]
  {
    JoinNats(all[..free], all[free..][..bits - free]);
    assert all[..free] + all[free..][..bits - free] == all[..bits];
  }
}
