/** The writer and the reader of the compact serialization, each call measured against the streams. */
module CserIO {
  import opened Basics
  import opened Transactions
  import opened Bits
  import opened Cser
  import opened CserBinary

  class Writer {
    const bitsW: BitWriter
    var bytes: seq<Byte>

    ghost predicate Valid()
      reads this, bitsW
    {
      bitsW.Valid()
    }

    /** Everything written so far. */
    ghost function Out(): Stream
      requires Valid()
      reads this, bitsW
    {
      Stream(bitsW.Contents(), bytes)
    }

    constructor ()
      ensures Valid() && Out() == NIL && fresh(bitsW)
    {
      bitsW := new BitWriter();
      bytes := [];
    }

    method WriteBits(n: nat, v: nat)
      requires Valid() && 0 < n && v < Pow2(n)
      modifies this, bitsW
      ensures Valid() && forall after :: Cat(Out(), after) == Cat(old(Out()), PutBits(n, v, after))
    {
      bitsW.Write(n, v);
      forall after ensures Cat(Out(), after) == Cat(old(Out()), PutBits(n, v, after)) {
        Regroup(old(Out()).bits, BitsOf(v, n), after.bits);
      }
    }

    method FixedBytes(b: seq<Byte>)
      requires Valid()
      modifies this, bitsW
      ensures Valid() && forall after :: Cat(Out(), after) == Cat(old(Out()), PutBytes(b, after))
    {
      bytes := bytes + b;
      forall after ensures Cat(Out(), after) == Cat(old(Out()), PutBytes(b, after)) {
        Regroup(old(Out()).bytes, b, after.bytes);
      }
    }

    /** The bytes of a number and then, in the bits, how many there are. */
    method WriteNum(min: nat, width: nat, v: nat)
      requires Valid() && width > 0 && min <= 1 && v < Pow256(Pow2(width) - 1 + min)
      modifies this, bitsW
      ensures Valid() && forall after :: Cat(Out(), after) == Cat(old(Out()), PutNum(min, width, v, after))
    {
      var b := CompactBytes(v, min);
      SizeFits(v, min, width);
      BytesAndSize(b, width, |b| - min);
      forall after ensures Cat(Out(), after) == Cat(old(Out()), PutNum(min, width, v, after)) {
        NumParts(min, width, v, after);
      }
    }

    method BytesAndSize(b: seq<Byte>, width: nat, n: nat)
      requires Valid() && width > 0 && n < Pow2(width)
      modifies this, bitsW
      ensures Valid() && forall after :: Cat(Out(), after) == Cat(old(Out()), PutBytes(b, PutBits(width, n, after)))
    {
      FixedBytes(b);
      WriteBits(width, n);
    }

    method U8(v: U8)
      requires Valid()
      modifies this, bitsW
      ensures Valid() && forall after :: Cat(Out(), after) == Cat(old(Out()), PutBytes([v], after))
    {
      FixedBytes([v]);
    }

    method U16(v: U16)
      requires Valid()
      modifies this, bitsW
      ensures Valid() && forall after :: Cat(Out(), after) == Cat(old(Out()), PutU16(v, after))
    {
      Widths();
      WriteNum(1, 1, v);
    }

    method U32(v: U32)
      requires Valid()
      modifies this, bitsW
      ensures Valid() && forall after :: Cat(Out(), after) == Cat(old(Out()), PutU32(v, after))
    {
      Widths();
      WriteNum(1, 2, v);
    }

    method U64(v: U64)
      requires Valid()
      modifies this, bitsW
      ensures Valid() && forall after :: Cat(Out(), after) == Cat(old(Out()), PutU64(v, after))
    {
      Widths();
      WriteNum(1, 3, v);
    }

    method U56(v: U56)
      requires Valid()
      modifies this, bitsW
      ensures Valid() && forall after :: Cat(Out(), after) == Cat(old(Out()), PutU56(v, after))
    {
      Widths();
      WriteNum(0, 3, v);
    }

    method Bool(v: bool)
      requires Valid()
      modifies this, bitsW
      ensures Valid() && forall after :: Cat(Out(), after) == Cat(old(Out()), PutBool(v, after))
    {
      assert Pow2(1) == 2;
      WriteBits(1, if v then 1 else 0);
    }

    method I64(v: I64)
      requires Valid()
      modifies this, bitsW
      ensures Valid() && forall after :: Cat(Out(), after) == Cat(old(Out()), PutI64(v, after))
    {
      Bool(v < 0);
      U64(Abs(v));
    }

    method SliceBytes(b: seq<Byte>)
      requires Valid() && |b| < 0x100_0000_0000_0000
      modifies this, bitsW
      ensures Valid() && forall after :: Cat(Out(), after) == Cat(old(Out()), PutSlice(b, after))
    {
      U56(|b|);
      FixedBytes(b);
    }

    method BigInt(v: int)
      requires Valid() && |BigBytes(v)| < 0x100_0000_0000_0000
      modifies this, bitsW
      ensures Valid() && forall after :: Cat(Out(), after) == Cat(old(Out()), PutBig(v, after))
    {
      SliceBytes(if v != 0 then BigBytes(v) else []);
    }
  }

  lemma SizeFits(v: nat, min: nat, width: nat)
    requires min <= 1 && v < Pow256(Pow2(width) - 1 + min)
    ensures min <= |LittleEndian(v, min)| && |LittleEndian(v, min)| - min < Pow2(width)
  {
    LittleEndianRound(v, min);
    LittleEndianSize(v, min, Pow2(width) - 1 + min);
  }

  lemma NumParts(min: nat, width: nat, v: nat, after: Stream)
    requires min <= |LittleEndian(v, min)|
    ensures PutNum(min, width, v, after) == PutBytes(LittleEndian(v, min), PutBits(width, |LittleEndian(v, min)| - min, after))
  {
  }

  method CompactBytes(v: nat, min: nat) returns (b: seq<Byte>)
    ensures b == LittleEndian(v, min)
  {
    b := [];
    var w, size := v, 0;
    while size < min || w != 0
      invariant b + LittleEndian(w, if size < min then min - size else 0) == LittleEndian(v, min)
      decreases if size < min then min - size else 0, w
    {
      Regroup(b, [w % 256], LittleEndian(w / 256, if size + 1 < min then min - size - 1 else 0));
      b := b + [w % 256];
      w, size := w / 256, size + 1;
    }
  }

  /** A call returned what the specification reads off, and left the rest. */
  ghost predicate Took<T>(v: Option<T>, got: Parsed<T>, rest: Stream) {
    if v.None? then got.None? else got == Some((v.value, rest))
  }

  class Reader {
    const bitsR: BitReader
    const buf: seq<Byte>
    var offset: nat

    ghost predicate Valid()
      reads this, bitsR
    {
      bitsR.Valid() && offset <= |buf|
    }

    /** Everything not read yet. */
    ghost function Rest(): Stream
      requires Valid()
      reads this, bitsR
    {
      Stream(bitsR.Rest(), buf[offset..])
    }

    constructor (bits: seq<Byte>, bytes: seq<Byte>)
      ensures Valid() && Rest() == Stream(AllBits(bits), bytes) && fresh(bitsR)
    {
      bitsR := new BitReader(bits);
      buf, offset := bytes, 0;
      new;
      assert bytes[0..] == bytes;
    }

    method ReadBits(n: nat) returns (v: Option<nat>)
      requires Valid()
      modifies this, bitsR
      ensures Valid() && Took(v, GetBits(n, old(Rest())), Rest())
    {
      v := bitsR.Read(n);
    }

    method FixedBytes(n: nat) returns (b: Option<seq<Byte>>)
      requires Valid()
      modifies this, bitsR
      ensures Valid() && Took(b, GetBytes(n, old(Rest())), Rest())
    {
      if |buf| - offset < n {
        return None;
      }
      b := Some(buf[offset..offset + n]);
      assert buf[offset..][..n] == buf[offset..offset + n] && buf[offset..][n..] == buf[offset + n..];
      offset := offset + n;
    }

    method ReadNum(min: nat, width: nat) returns (v: Option<nat>)
      requires Valid()
      modifies this, bitsR
      ensures Valid() && Took(v, GetNum(min, width, old(Rest())), Rest())
    {
      ghost var s := Rest();
      var size := ReadBits(width);
      if size.None? {
        return None;
      }
      var b := FixedBytes(size.value + min);
      if b.None? {
        return None;
      }
      NumRead(min, width, s, size.value, b.value, Rest());
      if |b.value| > 1 && b.value[|b.value| - 1] == 0 {
        return None;
      }
      var n := Sum(b.value);
      v := Some(n);
    }

    method U8() returns (v: Option<U8>)
      requires Valid()
      modifies this, bitsR
      ensures Valid() && Took(v, GetU8(old(Rest())), Rest())
    {
      var b := FixedBytes(1);
      v := if b.None? then None else Some(b.value[0]);
    }

    method U16() returns (v: Option<U16>)
      requires Valid()
      modifies this, bitsR
      ensures Valid() && Took(v, GetU16(old(Rest())), Rest())
    {
      NumFits(Rest());
      v := ReadNum(1, 1);
    }

    method U32() returns (v: Option<U32>)
      requires Valid()
      modifies this, bitsR
      ensures Valid() && Took(v, GetU32(old(Rest())), Rest())
    {
      NumFits(Rest());
      v := ReadNum(1, 2);
    }

    method U64() returns (v: Option<U64>)
      requires Valid()
      modifies this, bitsR
      ensures Valid() && Took(v, GetU64(old(Rest())), Rest())
    {
      NumFits(Rest());
      v := ReadNum(1, 3);
    }

    method U56() returns (v: Option<U56>)
      requires Valid()
      modifies this, bitsR
      ensures Valid() && Took(v, GetU56(old(Rest())), Rest())
    {
      SevenBytes(Rest());
      v := ReadNum(0, 3);
    }

    method Bool() returns (v: Option<bool>)
      requires Valid()
      modifies this, bitsR
      ensures Valid() && Took(v, GetBool(old(Rest())), Rest())
    {
      var n := ReadBits(1);
      v := if n.None? then None else Some(n.value != 0);
    }

    method I64() returns (v: Option<I64>)
      requires Valid()
      modifies this, bitsR
      ensures Valid() && Took(v, GetI64(old(Rest())), Rest())
    {
      var neg := Bool();
      if neg.None? {
        return None;
      }
      var abs := U64();
      if abs.None? || (neg.value && abs.value == 0) {
        return None;
      }
      v := Some(if neg.value then Wrap64(-(Wrap64(abs.value) as int)) else Wrap64(abs.value));
    }

    method SliceBytes() returns (b: Option<seq<Byte>>)
      requires Valid()
      modifies this, bitsR
      ensures Valid() && Took(b, GetSlice(old(Rest())), Rest())
    {
      var size := U56();
      if size.None? {
        return None;
      }
      b := FixedBytes(size.value);
    }

    method BigInt() returns (v: Option<nat>)
      requires Valid()
      modifies this, bitsR
      ensures Valid() && Took(v, GetBig(old(Rest())), Rest())
    {
      var b := SliceBytes();
      v := if b.None? then None else Some(BigFrom(b.value));
    }
  }

  lemma NumRead(min: nat, width: nat, s: Stream, size: nat, b: seq<Byte>, rest: Stream)
    requires GetBits(width, s).Some? && GetBits(width, s).value.0 == size
    requires GetBytes(size + min, GetBits(width, s).value.1) == Some((b, rest))
    ensures GetNum(min, width, s) == if |b| > 1 && b[|b| - 1] == 0 then None else Some((FromLittleEndian(b), rest))
  {
  }

  /** Adds up the bytes, lowest first. */
  method Sum(b: seq<Byte>) returns (v: nat)
    ensures v == FromLittleEndian(b)
  {
    v := 0;
    var i := 0;
    while i < |b|
      invariant 0 <= i <= |b| && v == FromLittleEndian(b[..i])
    {
      NextByte(b[..i], b[i]);
      assert b[..i + 1] == b[..i] + [b[i]];
      v := Or(v, Shl(b[i], 8 * i));
      i := i + 1;
    }
    assert b[..i] == b;
  }

  /** A byte above the others is shifted into place. */
  lemma {:induction false} NextByte(a: seq<Byte>, b: Byte)
    ensures FromLittleEndian(a + [b]) == Or(FromLittleEndian(a), Shl(b, 8 * |a|))
    decreases |a|
  {
    if a == [] {
      OrZero(b);
    } else {
      NextByte(a[1..], b);
      assert (a + [b])[1..] == a[1..] + [b];
      ShlByte(b, 8 * |a[1..]|);
      OrByte(a[0], FromLittleEndian(a[1..]), Shl(b, 8 * |a[1..]|));
    }
  }

  lemma ShlByte(b: nat, k: nat)
    ensures Shl(b, k + 8) == 256 * Shl(b, k)
  {
    assert Shl(b, k + 2) == 4 * Shl(b, k);
    assert Shl(b, k + 4) == 4 * Shl(b, k + 2);
    assert Shl(b, k + 6) == 4 * Shl(b, k + 4);
    assert Shl(b, k + 8) == 4 * Shl(b, k + 6);
  }

  lemma OrTwo(a: nat, w: nat)
    ensures Or(a, 4 * w) == a % 4 + 4 * Or(a / 4, w)
  {
    OrStep(a, 2 * w);
    OrStep(a / 2, w);
  }

  lemma OrFour(a: nat, w: nat)
    ensures Or(a, 16 * w) == a % 16 + 16 * Or(a / 16, w)
  {
    OrTwo(a, 4 * w);
    OrTwo(a / 4, w);
    assert a / 16 == a / 4 / 4;
  }

  lemma OrByte(low: Byte, high: nat, w: nat)
    ensures Or(low + 256 * high, 256 * w) == low + 256 * Or(high, w)
  {
    var a := low + 256 * high;
    OrFour(a, 16 * w);
    OrFour(a / 16, w);
    assert a / 16 / 16 == high && a % 16 + 16 * (a / 16 % 16) == low;
  }
}
