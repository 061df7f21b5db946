/**
 The container: payload bytes, then the bytes of the bit array, then the length of the bit
 array in groups of seven bits, written backwards so that it can be read from the end.
 */
module CserBinary {
  import opened Transactions
  import opened Bits
  import opened Cser

  /** Groups of seven bits, lowest first; the last one carries the stop flag. */
  function Compact(v: nat): seq<Byte> {
    if v < 128 then [v + 128] else [v % 128] + Compact(v / 128)
  }

  /** The value and the number of bytes read; a superfluous last group is refused. */
  function FromCompact(b: seq<Byte>, first: bool): (r: Option<(nat, nat)>)
    ensures r.Some? ==> 0 < r.value.1 <= |b|
  {
    if b == [] then None else
    if b[0] >= 128 then (if !first && b[0] == 128 then None else Some((b[0] - 128, 1))) else
    var rest := FromCompact(b[1..], false);
    if rest.None? then None else Some((b[0] + 128 * rest.value.0, 1 + rest.value.1))
  }

  lemma {:induction false} CompactRound(v: nat, more: seq<Byte>, first: bool)
    requires !first ==> v > 0
    ensures FromCompact(Compact(v) + more, first) == Some((v, |Compact(v)|))
    decreases v
  {
    if v >= 128 {
      CompactRound(v / 128, more, false);
      assert (Compact(v) + more)[1..] == Compact(v / 128) + more;
    }
  }

  /** Each length is accepted in one form only. */
  lemma {:induction false} CompactUnique(b: seq<Byte>, first: bool)
    ensures var r := FromCompact(b, first);
      r.Some? ==> b[..r.value.1] == Compact(r.value.0) && (!first ==> r.value.0 > 0)
    decreases |b|
  {
    var r := FromCompact(b, first);
    if r.Some? && b[0] < 128 {
      CompactUnique(b[1..], false);
      var rest := FromCompact(b[1..], false).value;
      assert b[..r.value.1] == [b[0]] + b[1..][..rest.1];
      assert r.value.0 % 128 == b[0] && r.value.0 / 128 == rest.0;
    }
  }

  function Pow128(k: nat): nat {
    if k == 0 then 1 else 128 * Pow128(k - 1)
  }

  lemma {:induction false} CompactSize(v: nat, k: nat)
    requires k > 0 && v < Pow128(k)
    ensures 0 < |Compact(v)| <= k
    decreases k
  {
    if v >= 128 {
      CompactSize(v / 128, k - 1);
    }
  }

  lemma NineGroups()
    ensures Pow128(9) == 0x8000_0000_0000_0000
  {
    assert Pow128(1) == 128;
    assert Pow128(3) == 128 * Pow128(2);
    assert Pow128(5) == 128 * Pow128(4);
    assert Pow128(7) == 128 * Pow128(6);
    assert Pow128(8) == 128 * Pow128(7);
  }

  function Tail(b: seq<Byte>, n: nat): (t: seq<Byte>)
    ensures |t| <= n && |t| <= |b|
  {
    if |b| > n then b[|b| - n..] else b
  }

  function Pack(bits: seq<Byte>, bytes: seq<Byte>): seq<Byte> {
    bytes + bits + Reversed(Compact(|bits|))
  }

  /** The bytes of the bit array and the payload. */
  function Unpack(raw: seq<Byte>): Option<(seq<Byte>, seq<Byte>)> {
    var size := FromCompact(Reversed(Tail(raw, 9)), true);
    if size.None? then None else
    var body := raw[..|raw| - size.value.1];
    if |body| < size.value.0 then None else
    Some((body[|body| - size.value.0..], body[..|body| - size.value.0]))
  }

  /** Unpacking undoes packing for every array shorter than 2^63 bytes. */
  lemma PackRound(bits: seq<Byte>, bytes: seq<Byte>)
    requires |bits| < 0x8000_0000_0000_0000
    ensures Unpack(Pack(bits, bytes)) == Some((bits, bytes))
  {
    var raw, body, c := Pack(bits, bytes), bytes + bits, Compact(|bits|);
    NineGroups();
    CompactSize(|bits|, 9);
    var more := TailBackwards(body, c);
    CompactRound(|bits|, more, true);
    assert raw[..|raw| - |c|] == body;
    assert body[|bytes|..] == bits && body[..|bytes|] == bytes;
  }

  lemma TailBackwards(body: seq<Byte>, c: seq<Byte>) returns (more: seq<Byte>)
    requires |c| <= 9
    ensures Reversed(Tail(body + Reversed(c), 9)) == c + more
  {
    var raw := body + Reversed(c);
    var front := Tail(raw, 9)[..|Tail(raw, 9)| - |c|];
    assert Tail(raw, 9) == front + Reversed(c);
    ReversedConcat(front, Reversed(c));
    ReversedTwice(c);
    more := Reversed(front);
  }

  lemma LengthSuffix(raw: seq<Byte>, n: nat, v: nat)
    requires FromCompact(Reversed(Tail(raw, 9)), true) == Some((v, n))
    ensures n <= |raw| && raw[|raw| - n..] == Reversed(Compact(v))
  {
    CompactUnique(Reversed(Tail(raw, 9)), true);
    TailEnd(raw, n);
    LastReversed(Tail(raw, 9), n);
    ReversedTwice(raw[|raw| - n..]);
  }

  lemma TailEnd(raw: seq<Byte>, n: nat)
    requires n <= |Tail(raw, 9)|
    ensures raw[|raw| - n..] == Tail(raw, 9)[|Tail(raw, 9)| - n..]
  {
  }

  /** What unpacks is the packing of its parts. */
  lemma UnpackUnique(raw: seq<Byte>)
    ensures Unpack(raw).Some? ==> raw == Pack(Unpack(raw).value.0, Unpack(raw).value.1)
  {
    if Unpack(raw).Some? {
      var size := FromCompact(Reversed(Tail(raw, 9)), true).value;
      LengthSuffix(raw, size.1, size.0);
      Rejoin(raw, |raw| - size.1);
      Rejoin(raw[..|raw| - size.1], |raw| - size.1 - size.0);
    }
  }

  lemma Rejoin(b: seq<Byte>, k: nat)
    requires k <= |b|
    ensures b[..k] + b[k..] == b
  {
  }

  lemma LastReversed(b: seq<Byte>, n: nat)
    requires n <= |b|
    ensures Reversed(b)[..n] == Reversed(b[|b| - n..])
  {
    ReversedConcat(b[..|b| - n], b[|b| - n..]);
    assert b == b[..|b| - n] + b[|b| - n..];
  }

  // -------- errors --------

  datatype Error = Malformed | NonCanonical | UnknownTxType | MalformedEvent | LowGas | TooBig

  datatype Result<+T> = Ok(value: T) | Fail(error: Error)

  /** Parses a container: every panic is a malformed encoding, and everything must be read up to zero padding. */
  function Decode<T>(raw: seq<Byte>, parse: Stream -> Result<(T, Stream)>): Result<T> {
    var parts := Unpack(raw);
    if parts.None? then Fail(Malformed) else
    var got := parse(Stream(AllBits(parts.value.0), parts.value.1));
    if got.Fail? then Fail(got.error) else
    var rest := got.value.1;
    if |rest.bits| > 8 then Fail(NonCanonical) else
    if NatOf(rest.bits) != 0 then Fail(NonCanonical) else
    if rest.bytes != [] then Fail(NonCanonical) else
    Ok(got.value.0)
  }

  lemma {:induction false} ZeroBits(n: nat)
    ensures NatOf(BitsOf(0, n)) == 0
  {
    if n > 0 {
      ZeroBits(n - 1);
      assert BitsOf(0, n)[1..] == BitsOf(0, n - 1);
    }
  }

  /** A stream padded with fewer than eight zeros and packed is parsed to its value. */
  lemma DecodeRound<T>(s: Stream, bits: seq<Byte>, pad: nat, parse: Stream -> Result<(T, Stream)>, v: T)
    requires |bits| < 0x8000_0000_0000_0000 && pad < 8 && AllBits(bits) == s.bits + BitsOf(0, pad)
    requires parse(Cat(s, Stream(BitsOf(0, pad), []))) == Ok((v, Stream(BitsOf(0, pad), [])))
    ensures Decode(Pack(bits, s.bytes), parse) == Ok(v)
  {
    PackRound(bits, s.bytes);
    ZeroBits(pad);
    assert s.bytes + [] == s.bytes;
  }
}
