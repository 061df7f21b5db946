/** Transactions in the compact serialization: legacy ones as they are, typed ones behind a six-bit marker. */
module TxSerializer {
  import opened Basics
  import opened Transactions
  import opened Bits
  import opened Cser
  import opened CserBinary
  import opened CserIO

  datatype AccessTuple = AccessTuple(address: seq<Byte>, keys: seq<seq<Byte>>)

  datatype Kind = Legacy | WithAccessList(chainId: int, list: seq<AccessTuple>) | OtherType(code: U8)

  const LEGACY_TYPE: U8 := 0
  const ACCESS_LIST_TYPE: U8 := 1

  datatype Transaction = Transaction(
    kind: Kind, nonce: U64, gas: U64, gasPrice: int, value: int, to: Option<seq<Byte>>, data: seq<Byte>,
    v: int, r: int, s: int)

  predicate SmallBig(v: int) { |BigBytes(v)| < 0x100_0000_0000_0000 }

  predicate ShapedTuple(t: AccessTuple) {
    |t.address| == 20 && |t.keys| < 0x1_0000_0000 && forall i :: 0 <= i < |t.keys| ==> |t.keys[i]| == 32
  }

  predicate ShapedList(list: seq<AccessTuple>) {
    |list| < 0x1_0000_0000 && forall i :: 0 <= i < |list| ==> ShapedTuple(list[i])
  }

  /** Arrays have their fixed sizes, slices fit their length fields, other types are neither of the known ones. */
  predicate Shaped(tx: Transaction) {
    && SmallBig(tx.gasPrice) && SmallBig(tx.value) && SmallBig(tx.v) && |tx.data| < 0x100_0000_0000_0000
    && (tx.to.Some? ==> |tx.to.value| == 20)
    && (tx.kind.WithAccessList? ==> SmallBig(tx.kind.chainId) && ShapedList(tx.kind.list))
    && (tx.kind.OtherType? ==> tx.kind.code != LEGACY_TYPE && tx.kind.code != ACCESS_LIST_TYPE)
  }

  function TypeOf(kind: Kind): U8 {
    match kind
    case Legacy => LEGACY_TYPE
    case WithAccessList(_, _) => ACCESS_LIST_TYPE
    case OtherType(code) => code
  }

  // -------- signatures --------

  function Zeros(n: nat): (z: seq<Byte>)
    ensures |z| == n
  {
    seq(n, _ => 0)
  }

  /** Left-padded to 32 bytes, and cut to the first 32. */
  function Fixed32(v: int): (b: seq<Byte>)
    ensures |b| == 32
  {
    var b := BigBytes(v);
    (if |b| >= 32 then b else Zeros(32 - |b|) + b)[..32]
  }

  function EncodeSig(r: int, s: int): (b: seq<Byte>)
    ensures |b| == 64
  {
    Fixed32(r) + Fixed32(s)
  }

  /** What a signature value becomes. */
  function SigValue(v: int): nat { BigFrom(Fixed32(v)) }

  /** Signature values survive if and only if they are not negative and fit 256 bits. */
  lemma SigSurvives(v: int)
    ensures SigValue(v) == v <==> 0 <= v < Pow256(32)
  {
    var b := BigBytes(v);
    BigRound(v);
    FromLittleEndianBound(Reversed(Fixed32(v)));
    if |b| < 32 {
      ReversedConcat(Zeros(32 - |b|), b);
      ZerosAbove(Reversed(b), Reversed(Zeros(32 - |b|)));
      assert (Zeros(32 - |b|) + b)[..32] == Zeros(32 - |b|) + b;
      FromLittleEndianBound(Reversed(b));
      PowGrows(|b|, 32);
    } else if |b| == 32 {
      assert b[..32] == b;
    } else if 0 <= v < Pow256(32) {
      LittleEndianSize(v, 0, 32);
    }
  }

  lemma {:induction false} ZerosAbove(b: seq<Byte>, z: seq<Byte>)
    requires forall i :: 0 <= i < |z| ==> z[i] == 0
    ensures FromLittleEndian(b + z) == FromLittleEndian(b)
    decreases |b| + |z|
  {
    if b != [] {
      ZerosAbove(b[1..], z);
      assert (b + z)[1..] == b[1..] + z;
    } else if z != [] {
      ZerosAbove([], z[1..]);
      assert [] + z == z && [] + z[1..] == z[1..];
    }
  }

  // -------- what is written --------

  function PutKeys(keys: seq<seq<Byte>>, rest: Stream): Stream {
    if keys == [] then rest else PutBytes(keys[0], PutKeys(keys[1..], rest))
  }

  function PutTuple(tuple: AccessTuple, rest: Stream): Stream
    requires ShapedTuple(tuple)
  {
    PutBytes(tuple.address, PutU32(|tuple.keys|, PutKeys(tuple.keys, rest)))
  }

  function PutTuples(list: seq<AccessTuple>, rest: Stream): Stream
    requires forall i :: 0 <= i < |list| ==> ShapedTuple(list[i])
  {
    if list == [] then rest else PutTuple(list[0], PutTuples(list[1..], rest))
  }

  function PutKind(tx: Transaction, rest: Stream): Stream
    requires Shaped(tx)
  {
    if tx.kind.WithAccessList? then PutBig(tx.kind.chainId, PutU32(|tx.kind.list|, PutTuples(tx.kind.list, rest))) else rest
  }

  /** A flag and, if it is set, bytes of a fixed size. */
  function PutOptional(b: Option<seq<Byte>>, rest: Stream): Stream {
    PutBool(b.Some?, if b.Some? then PutBytes(b.value, rest) else rest)
  }

  function PutPayment(tx: Transaction, rest: Stream): Stream
    requires Shaped(tx)
  {
    PutU64(tx.nonce, PutU64(tx.gas, PutBig(tx.gasPrice, PutBig(tx.value, rest))))
  }

  function PutCall(tx: Transaction, rest: Stream): Stream
    requires Shaped(tx)
  {
    PutOptional(tx.to, PutSlice(tx.data, PutBig(tx.v, PutBytes(EncodeSig(tx.r, tx.s), rest))))
  }

  function PutBody(tx: Transaction, rest: Stream): Stream
    requires Shaped(tx)
  {
    PutPayment(tx, PutCall(tx, PutKind(tx, rest)))
  }

  function PutTx(tx: Transaction, rest: Stream): Stream
    requires Shaped(tx)
  {
    if tx.kind.Legacy? then PutBody(tx, rest)
    else PutBits(6, 0, PutBytes([TypeOf(tx.kind)], PutBody(tx, rest)))
  }

  /** Why a transaction is refused, if it is. */
  function Refusal(tx: Transaction): Option<Error> {
    if tx.kind.Legacy? && tx.gas <= 0xff then Some(LowGas) else
    if tx.kind.OtherType? then Some(UnknownTxType) else None
  }

  // -------- what is read --------

  /** Reads on until there are `n` keys. */
  function GetKeys(n: nat, list: seq<seq<Byte>>, s: Stream): Parsed<seq<seq<Byte>>>
    decreases n - |list|
  {
    if |list| >= n then Some((list, s)) else
    var key :- GetBytes(32, s);
    GetKeys(n, list + [key.0], key.1)
  }

  function GetTuple(s: Stream): Parsed<AccessTuple> {
    var address :- GetBytes(20, s);
    var size :- GetU32(address.1);
    var keys :- GetKeys(size.0, [], size.1);
    Some((AccessTuple(address.0, keys.0), keys.1))
  }

  function GetTuples(n: nat, list: seq<AccessTuple>, s: Stream): Parsed<seq<AccessTuple>>
    decreases n - |list|
  {
    if |list| >= n then Some((list, s)) else
    var tuple :- GetTuple(s);
    GetTuples(n, list + [tuple.0], tuple.1)
  }

  function GetOptional(size: nat, s: Stream): Parsed<Option<seq<Byte>>> {
    var exist :- GetBool(s);
    if !exist.0 then Some((None, exist.1)) else
    var b :- GetBytes(size, exist.1);
    Some((Some(b.0), b.1))
  }

  datatype Payment = Payment(nonce: U64, gas: U64, gasPrice: nat, value: nat)

  datatype Call = Call(to: Option<seq<Byte>>, data: seq<Byte>, v: nat, r: nat, s: nat)

  function GetPayment(s: Stream): Parsed<Payment> {
    var nonce :- GetU64(s);
    var gas :- GetU64(nonce.1);
    var gasPrice :- GetBig(gas.1);
    var value :- GetBig(gasPrice.1);
    Some((Payment(nonce.0, gas.0, gasPrice.0, value.0), value.1))
  }

  function GetSig(s: Stream): Parsed<(nat, nat)> {
    var sig :- GetBytes(64, s);
    Some(((BigFrom(sig.0[..32]), BigFrom(sig.0[32..64])), sig.1))
  }

  function GetCall(s: Stream): Parsed<Call> {
    var to :- GetOptional(20, s);
    var data :- GetSlice(to.1);
    var v :- GetBig(data.1);
    var sig :- GetSig(v.1);
    Some((Call(to.0, data.0, v.0, sig.0.0, sig.0.1), sig.1))
  }

  function Join(p: Payment, c: Call, kind: Kind): Transaction {
    Transaction(kind, p.nonce, p.gas, p.gasPrice, p.value, c.to, c.data, c.v, c.r, c.s)
  }

  /** The common part, as a legacy transaction. */
  function GetBody(s: Stream): Parsed<Transaction> {
    var payment :- GetPayment(s);
    var call :- GetCall(payment.1);
    Some((Join(payment.0, call.0, Legacy), call.1))
  }

  function GetList(s: Stream): Parsed<Kind> {
    var chainId :- GetBig(s);
    var size :- GetU32(chainId.1);
    var list :- GetTuples(size.0, [], size.1);
    Some((WithAccessList(chainId.0, list.0), list.1))
  }

  /** Six zero bits ahead announce a type byte. */
  function GetType(s: Stream): Parsed<U8> {
    var ahead :- GetBits(6, s);
    if ahead.0 == 0 then GetU8(ahead.1) else Some((LEGACY_TYPE, s))
  }

  function GetTx(s: Stream): Result<(Transaction, Stream)> {
    var ty := GetType(s);
    if ty.None? then Fail(Malformed) else
    var body := GetBody(ty.value.1);
    if body.None? then Fail(Malformed) else
    if ty.value.0 == LEGACY_TYPE then Ok(body.value) else
    if ty.value.0 != ACCESS_LIST_TYPE then Fail(UnknownTxType) else
    var kind := GetList(body.value.1);
    if kind.None? then Fail(Malformed) else
    Ok((body.value.0.(kind := kind.value.0), kind.value.1))
  }

  // -------- round trip --------

  lemma {:induction false} KeysRound(n: nat, list: seq<seq<Byte>>, keys: seq<seq<Byte>>, rest: Stream)
    requires n == |list| + |keys| && forall i :: 0 <= i < |keys| ==> |keys[i]| == 32
    ensures GetKeys(n, list, PutKeys(keys, rest)) == Some((list + keys, rest))
    decreases |keys|
  {
    if keys == [] {
      assert list + keys == list;
    } else {
      BytesRound(keys[0], PutKeys(keys[1..], rest));
      KeysRound(n, list + [keys[0]], keys[1..], rest);
      assert list + [keys[0]] + keys[1..] == list + keys;
    }
  }

  lemma TupleRound(tuple: AccessTuple, rest: Stream)
    requires ShapedTuple(tuple)
    ensures GetTuple(PutTuple(tuple, rest)) == Some((tuple, rest))
  {
    BytesRound(tuple.address, PutU32(|tuple.keys|, PutKeys(tuple.keys, rest)));
    U32Round(|tuple.keys|, PutKeys(tuple.keys, rest));
    KeysRound(|tuple.keys|, [], tuple.keys, rest);
    assert [] + tuple.keys == tuple.keys;
  }

  lemma {:induction false} TuplesRound(n: nat, list: seq<AccessTuple>, tuples: seq<AccessTuple>, rest: Stream)
    requires n == |list| + |tuples| && forall i :: 0 <= i < |tuples| ==> ShapedTuple(tuples[i])
    ensures GetTuples(n, list, PutTuples(tuples, rest)) == Some((list + tuples, rest))
    decreases |tuples|
  {
    if tuples == [] {
      assert list + tuples == list;
    } else {
      TupleRound(tuples[0], PutTuples(tuples[1..], rest));
      TuplesRound(n, list + [tuples[0]], tuples[1..], rest);
      Regroup(list, [tuples[0]], tuples[1..]);
      assert [tuples[0]] + tuples[1..] == tuples;
    }
  }

  lemma OptionalRound(size: nat, b: Option<seq<Byte>>, rest: Stream)
    requires b.Some? ==> |b.value| == size
    ensures GetOptional(size, PutOptional(b, rest)) == Some((b, rest))
  {
    BoolRound(b.Some?, if b.Some? then PutBytes(b.value, rest) else rest);
    if b.Some? {
      BytesRound(b.value, rest);
    }
  }

  /** What a transaction becomes: signs are lost and signature values cut to 32 bytes. */
  function Normal(tx: Transaction): Transaction {
    tx.(gasPrice := Abs(tx.gasPrice), value := Abs(tx.value), v := Abs(tx.v), r := SigValue(tx.r), s := SigValue(tx.s),
        kind := if tx.kind.WithAccessList? then tx.kind.(chainId := Abs(tx.kind.chainId)) else tx.kind)
  }

  lemma PaymentRound(tx: Transaction, rest: Stream)
    requires Shaped(tx)
    ensures GetPayment(PutPayment(tx, rest)) == Some((Payment(tx.nonce, tx.gas, Abs(tx.gasPrice), Abs(tx.value)), rest))
  {
    var s3 := PutBig(tx.value, rest);
    var s2 := PutBig(tx.gasPrice, s3);
    var s1 := PutU64(tx.gas, s2);
    U64Round(tx.nonce, s1);
    U64Round(tx.gas, s2);
    BigIntRound(tx.gasPrice, s3);
    BigIntRound(tx.value, rest);
  }

  lemma SigRound(r: int, s: int, rest: Stream)
    ensures GetSig(PutBytes(EncodeSig(r, s), rest)) == Some(((SigValue(r), SigValue(s)), rest))
  {
    var sig := EncodeSig(r, s);
    BytesRound(sig, rest);
    assert sig[..32] == Fixed32(r) && sig[32..64] == Fixed32(s);
  }

  lemma CallRound(tx: Transaction, rest: Stream)
    requires Shaped(tx)
    ensures GetCall(PutCall(tx, rest)) == Some((Call(tx.to, tx.data, Abs(tx.v), SigValue(tx.r), SigValue(tx.s)), rest))
  {
    var s3 := PutBytes(EncodeSig(tx.r, tx.s), rest);
    var s2 := PutBig(tx.v, s3);
    var s1 := PutSlice(tx.data, s2);
    OptionalRound(20, tx.to, s1);
    SliceRound(tx.data, s2);
    BigIntRound(tx.v, s3);
    SigRound(tx.r, tx.s, rest);
  }

  lemma BodyRound(tx: Transaction, rest: Stream)
    requires Shaped(tx)
    ensures GetBody(PutBody(tx, rest)) == Some((Normal(tx).(kind := Legacy), PutKind(tx, rest)))
  {
    PaymentRound(tx, PutCall(tx, PutKind(tx, rest)));
    CallRound(tx, PutKind(tx, rest));
  }

  lemma ListRound(tx: Transaction, rest: Stream)
    requires Shaped(tx) && tx.kind.WithAccessList?
    ensures GetList(PutKind(tx, rest)) == Some((Normal(tx).kind, rest))
  {
    var list := tx.kind.list;
    BigIntRound(tx.kind.chainId, PutU32(|list|, PutTuples(list, rest)));
    U32Round(|list|, PutTuples(list, rest));
    TuplesRound(|list|, [], list, rest);
    assert [] + list == list;
  }

  // -------- the marker --------

  lemma {:induction false} NoBits(a: seq<bool>, b: seq<bool>)
    ensures NatOf(a + b) == 0 <==> NatOf(a) == 0 && NatOf(b) == 0
    decreases |a|
  {
    if a == [] {
      assert a + b == b;
    } else {
      NoBits(a[1..], b);
      assert (a + b)[1..] == a[1..] + b;
    }
  }

  lemma NoSizeBits(v: U64)
    ensures |LittleEndian(v, 1)| >= 1 && (NatOf(BitsOf(|LittleEndian(v, 1)| - 1, 3)) == 0 <==> v < 256)
  {
    Widths();
    LittleEndianRound(v, 1);
    LittleEndianSize(v, 1, 8);
    NatOfBits(|LittleEndian(v, 1)| - 1, 3);
    assert |LittleEndian(v, 1)| == 1 + |LittleEndian(v / 256, 0)|;
  }

  /** The bits ahead of a legacy transaction look like the marker if and only if nonce and gas fit one byte each. */
  lemma MarkerIff(nonce: U64, gas: U64, rest: Stream)
    ensures var s := PutU64(nonce, PutU64(gas, rest)); |s.bits| >= 6 && (NatOf(s.bits[..6]) == 0 <==> nonce < 256 && gas < 256)
  {
    var s := PutU64(nonce, PutU64(gas, rest));
    var a, b := BitsOf(|LittleEndian(nonce, 1)| - 1, 3), BitsOf(|LittleEndian(gas, 1)| - 1, 3);
    NoSizeBits(nonce);
    NoSizeBits(gas);
    assert s.bits == a + (b + rest.bits);
    assert s.bits[..6] == a + b;
    NoBits(a, b);
  }

  lemma TypeRound(tx: Transaction, rest: Stream)
    requires Shaped(tx) && Refusal(tx).None?
    ensures GetType(PutTx(tx, rest)) == Some((TypeOf(tx.kind), PutBody(tx, rest)))
  {
    if tx.kind.Legacy? {
      var after := PutBig(tx.gasPrice, PutBig(tx.value, PutCall(tx, PutKind(tx, rest))));
      MarkerIff(tx.nonce, tx.gas, after);
      assert PutTx(tx, rest) == PutU64(tx.nonce, PutU64(tx.gas, after));
    } else {
      BitsRound(6, 0, PutBytes([TypeOf(tx.kind)], PutBody(tx, rest)));
      BytesRound([TypeOf(tx.kind)], PutBody(tx, rest));
    }
  }

  function NumberBytes(v: int): seq<Byte> { LittleEndian(|BigBytes(v)|, 0) + BigBytes(v) }

  lemma NumberLayout(v: int, rest: Stream)
    requires |BigBytes(v)| < 0x100_0000_0000_0000
    ensures PutBig(v, rest).bytes == NumberBytes(v) + rest.bytes
  {
    assert PutBig(v, rest).bytes == LittleEndian(|BigBytes(v)|, 0) + (BigBytes(v) + rest.bytes);
  }

  /** Nonce, gas, and the lengths and bytes of price and value. */
  function PaymentBytes(tx: Transaction): seq<Byte> {
    LittleEndian(tx.nonce, 1) + LittleEndian(tx.gas, 1) + NumberBytes(tx.gasPrice) + NumberBytes(tx.value)
  }

  lemma PaymentLayout(tx: Transaction, rest: Stream)
    requires Shaped(tx)
    ensures PutPayment(tx, rest).bytes == PaymentBytes(tx) + rest.bytes
  {
    var s3 := PutBig(tx.value, rest);
    var s2 := PutBig(tx.gasPrice, s3);
    NumberLayout(tx.value, rest);
    NumberLayout(tx.gasPrice, s3);
    Join4(LittleEndian(tx.nonce, 1), LittleEndian(tx.gas, 1), NumberBytes(tx.gasPrice), NumberBytes(tx.value), rest.bytes);
  }

  lemma Join4(a: seq<Byte>, b: seq<Byte>, c: seq<Byte>, d: seq<Byte>, e: seq<Byte>)
    ensures a + (b + (c + (d + e))) == a + b + c + d + e
  {
  }

  /** The bytes of a transaction begin with the type, unless legacy, and what it pays. */
  lemma TxLayout(tx: Transaction, rest: Stream)
    requires Shaped(tx)
    ensures (if tx.kind.Legacy? then [] else [TypeOf(tx.kind)]) + PaymentBytes(tx) <= PutTx(tx, rest).bytes
  {
    BodyLayout(tx, rest);
    var body, paid := PutBody(tx, rest), PaymentBytes(tx);
    if !tx.kind.Legacy? {
      TypeLayout(tx, rest);
      StillBegins([TypeOf(tx.kind)], paid, body.bytes);
    }
  }

  lemma BodyLayout(tx: Transaction, rest: Stream)
    requires Shaped(tx)
    ensures PaymentBytes(tx) <= PutBody(tx, rest).bytes
  {
    PaymentLayout(tx, PutCall(tx, PutKind(tx, rest)));
  }

  lemma TypeLayout(tx: Transaction, rest: Stream)
    requires Shaped(tx) && !tx.kind.Legacy?
    ensures PutTx(tx, rest).bytes == [TypeOf(tx.kind)] + PutBody(tx, rest).bytes
  {
  }

  lemma StillBegins(a: seq<Byte>, b: seq<Byte>, c: seq<Byte>)
    requires b <= c
    ensures a + b <= a + c
  {
  }

  /** Every transaction that is not refused comes back, up to what the format cannot hold. */
  lemma TxRound(tx: Transaction, rest: Stream)
    requires Shaped(tx) && Refusal(tx).None?
    ensures GetTx(PutTx(tx, rest)) == Ok((Normal(tx), rest))
  {
    TypeRound(tx, rest);
    BodyRound(tx, rest);
    if tx.kind.WithAccessList? {
      ListRound(tx, rest);
    }
  }

  /** The format holds a transaction if and only if its numbers are not negative and its signature fits. */
  lemma NormalIff(tx: Transaction)
    ensures Normal(tx) == tx <==>
      && tx.gasPrice >= 0 && tx.value >= 0 && tx.v >= 0 && (tx.kind.WithAccessList? ==> tx.kind.chainId >= 0)
      && 0 <= tx.r < Pow256(32) && 0 <= tx.s < Pow256(32)
  {
    SigSurvives(tx.r);
    SigSurvives(tx.s);
  }

  // -------- writing --------

  method MarshalPayment(w: Writer, tx: Transaction)
    requires w.Valid() && Shaped(tx)
    modifies w, w.bitsW
    ensures w.Valid() && forall after :: Cat(w.Out(), after) == Cat(old(w.Out()), PutPayment(tx, after))
  {
    w.U64(tx.nonce);
    w.U64(tx.gas);
    w.BigInt(tx.gasPrice);
    w.BigInt(tx.value);
  }

  method MarshalOptional(w: Writer, b: Option<seq<Byte>>)
    requires w.Valid()
    modifies w, w.bitsW
    ensures w.Valid() && forall after :: Cat(w.Out(), after) == Cat(old(w.Out()), PutOptional(b, after))
  {
    w.Bool(b.Some?);
    if b.Some? {
      w.FixedBytes(b.value);
    }
  }

  method MarshalCall(w: Writer, tx: Transaction)
    requires w.Valid() && Shaped(tx)
    modifies w, w.bitsW
    ensures w.Valid() && forall after :: Cat(w.Out(), after) == Cat(old(w.Out()), PutCall(tx, after))
  {
    MarshalOptional(w, tx.to);
    w.SliceBytes(tx.data);
    w.BigInt(tx.v);
    w.FixedBytes(EncodeSig(tx.r, tx.s));
  }

  method MarshalKeys(w: Writer, keys: seq<seq<Byte>>)
    requires w.Valid()
    modifies w, w.bitsW
    ensures w.Valid() && forall after :: Cat(w.Out(), after) == Cat(old(w.Out()), PutKeys(keys, after))
  {
    for i := 0 to |keys|
      invariant w.Valid()
      invariant forall after :: Cat(w.Out(), PutKeys(keys[i..], after)) == Cat(old(w.Out()), PutKeys(keys, after))
    {
      assert keys[i..][1..] == keys[i + 1..];
      w.FixedBytes(keys[i]);
    }
    assert forall after :: PutKeys(keys[|keys|..], after) == after;
  }

  method MarshalTuple(w: Writer, tuple: AccessTuple)
    requires w.Valid() && ShapedTuple(tuple)
    modifies w, w.bitsW
    ensures w.Valid() && forall after :: Cat(w.Out(), after) == Cat(old(w.Out()), PutTuple(tuple, after))
  {
    w.FixedBytes(tuple.address);
    w.U32(|tuple.keys|);
    MarshalKeys(w, tuple.keys);
  }

  method MarshalTuples(w: Writer, list: seq<AccessTuple>)
    requires w.Valid() && forall i :: 0 <= i < |list| ==> ShapedTuple(list[i])
    modifies w, w.bitsW
    ensures w.Valid() && forall after :: Cat(w.Out(), after) == Cat(old(w.Out()), PutTuples(list, after))
  {
    for i := 0 to |list|
      invariant w.Valid()
      invariant forall after :: Cat(w.Out(), PutTuples(list[i..], after)) == Cat(old(w.Out()), PutTuples(list, after))
    {
      assert list[i..][1..] == list[i + 1..];
      MarshalTuple(w, list[i]);
    }
    assert forall after :: PutTuples(list[|list|..], after) == after;
  }

  method MarshalKind(w: Writer, tx: Transaction)
    requires w.Valid() && Shaped(tx)
    modifies w, w.bitsW
    ensures w.Valid() && forall after :: Cat(w.Out(), after) == Cat(old(w.Out()), PutKind(tx, after))
  {
    if tx.kind.WithAccessList? {
      w.BigInt(tx.kind.chainId);
      w.U32(|tx.kind.list|);
      MarshalTuples(w, tx.kind.list);
    }
  }

  method MarshalTx(w: Writer, tx: Transaction) returns (err: Option<Error>)
    requires w.Valid() && Shaped(tx)
    modifies w, w.bitsW
    ensures w.Valid() && err == Refusal(tx)
    ensures err.None? ==> forall after :: Cat(w.Out(), after) == Cat(old(w.Out()), PutTx(tx, after))
  {
    if !tx.kind.Legacy? {
      w.WriteBits(6, 0);
      w.U8(TypeOf(tx.kind));
    } else if tx.gas <= 0xff {
      return Some(LowGas);
    }
    MarshalPayment(w, tx);
    MarshalCall(w, tx);
    MarshalKind(w, tx);
    err := if tx.kind.OtherType? then Some(UnknownTxType) else None;
  }

  // -------- reading --------

  method UnmarshalKeys(r: Reader, n: nat) returns (keys: Option<seq<seq<Byte>>>)
    requires r.Valid()
    modifies r, r.bitsR
    ensures r.Valid() && Took(keys, GetKeys(n, [], old(r.Rest())), r.Rest())
  {
    var list := [];
    while |list| < n
      invariant r.Valid() && GetKeys(n, [], old(r.Rest())) == GetKeys(n, list, r.Rest())
      decreases n - |list|
    {
      var key := r.FixedBytes(32);
      if key.None? {
        return None;
      }
      list := list + [key.value];
    }
    keys := Some(list);
  }

  method UnmarshalTuple(r: Reader) returns (tuple: Option<AccessTuple>)
    requires r.Valid()
    modifies r, r.bitsR
    ensures r.Valid() && Took(tuple, GetTuple(old(r.Rest())), r.Rest())
  {
    var address := r.FixedBytes(20);
    if address.None? {
      return None;
    }
    var size := r.U32();
    if size.None? {
      return None;
    }
    var keys := UnmarshalKeys(r, size.value);
    if keys.None? {
      return None;
    }
    tuple := Some(AccessTuple(address.value, keys.value));
  }

  method UnmarshalTuples(r: Reader, n: nat) returns (tuples: Option<seq<AccessTuple>>)
    requires r.Valid()
    modifies r, r.bitsR
    ensures r.Valid() && Took(tuples, GetTuples(n, [], old(r.Rest())), r.Rest())
  {
    var list := [];
    while |list| < n
      invariant r.Valid() && GetTuples(n, [], old(r.Rest())) == GetTuples(n, list, r.Rest())
      decreases n - |list|
    {
      var tuple := UnmarshalTuple(r);
      if tuple.None? {
        return None;
      }
      list := list + [tuple.value];
    }
    tuples := Some(list);
  }

  method UnmarshalPayment(r: Reader) returns (p: Option<Payment>)
    requires r.Valid()
    modifies r, r.bitsR
    ensures r.Valid() && Took(p, GetPayment(old(r.Rest())), r.Rest())
  {
    var nonce := r.U64();
    if nonce.None? {
      return None;
    }
    var gas := r.U64();
    if gas.None? {
      return None;
    }
    var gasPrice := r.BigInt();
    if gasPrice.None? {
      return None;
    }
    var value := r.BigInt();
    if value.None? {
      return None;
    }
    p := Some(Payment(nonce.value, gas.value, gasPrice.value, value.value));
  }

  method UnmarshalOptional(r: Reader, size: nat) returns (b: Option<Option<seq<Byte>>>)
    requires r.Valid()
    modifies r, r.bitsR
    ensures r.Valid() && Took(b, GetOptional(size, old(r.Rest())), r.Rest())
  {
    var exist := r.Bool();
    if exist.None? {
      return None;
    }
    if !exist.value {
      return Some(None);
    }
    var bytes := r.FixedBytes(size);
    if bytes.None? {
      return None;
    }
    b := Some(bytes);
  }

  method UnmarshalCall(r: Reader) returns (c: Option<Call>)
    requires r.Valid()
    modifies r, r.bitsR
    ensures r.Valid() && Took(c, GetCall(old(r.Rest())), r.Rest())
  {
    var to := UnmarshalOptional(r, 20);
    if to.None? {
      return None;
    }
    var data := r.SliceBytes();
    if data.None? {
      return None;
    }
    var v := r.BigInt();
    if v.None? {
      return None;
    }
    var sig := r.FixedBytes(64);
    if sig.None? {
      return None;
    }
    c := Some(Call(to.value, data.value, v.value, BigFrom(sig.value[..32]), BigFrom(sig.value[32..64])));
  }

  method UnmarshalList(r: Reader) returns (kind: Option<Kind>)
    requires r.Valid()
    modifies r, r.bitsR
    ensures r.Valid() && Took(kind, GetList(old(r.Rest())), r.Rest())
  {
    var chainId := r.BigInt();
    if chainId.None? {
      return None;
    }
    var size := r.U32();
    if size.None? {
      return None;
    }
    var list := UnmarshalTuples(r, size.value);
    kind := if list.None? then None else Some(WithAccessList(chainId.value, list.value));
  }

  method UnmarshalType(r: Reader) returns (ty: Option<U8>)
    requires r.Valid()
    modifies r, r.bitsR
    ensures r.Valid() && Took(ty, GetType(old(r.Rest())), r.Rest())
  {
    var ahead := r.bitsR.View(6);
    if ahead.None? {
      return None;
    }
    if ahead.value != 0 {
      return Some(LEGACY_TYPE);
    }
    var _ := r.ReadBits(6);
    ty := r.U8();
  }

  /** A call returned what the specification reads off, or its error. */
  ghost predicate Parsing<T>(res: Result<T>, got: Result<(T, Stream)>, rest: Stream) {
    if res.Fail? then got == Fail(res.error) else got == Ok((res.value, rest))
  }

  method UnmarshalTx(r: Reader) returns (res: Result<Transaction>)
    requires r.Valid()
    modifies r, r.bitsR
    ensures r.Valid() && Parsing(res, GetTx(old(r.Rest())), r.Rest())
  {
    var ty := UnmarshalType(r);
    if ty.None? {
      return Fail(Malformed);
    }
    var payment := UnmarshalPayment(r);
    if payment.None? {
      return Fail(Malformed);
    }
    var call := UnmarshalCall(r);
    if call.None? {
      return Fail(Malformed);
    }
    if ty.value == LEGACY_TYPE {
      return Ok(Join(payment.value, call.value, Legacy));
    }
    if ty.value != ACCESS_LIST_TYPE {
      return Fail(UnknownTxType);
    }
    var kind := UnmarshalList(r);
    res := if kind.None? then Fail(Malformed) else Ok(Join(payment.value, call.value, kind.value));
  }
}
