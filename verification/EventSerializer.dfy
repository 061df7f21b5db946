/**
 Events in the compact serialization, with their payload of transactions, and the binary
 container around it. `empty` is the hash that stands for an empty list of transactions.
 */
module EventSerializer {
  import opened Basics
  import opened Transactions
  import opened Bits
  import opened Cser
  import opened CserBinary
  import opened CserIO
  import opened TxSerializer

  /** An event identifier: epoch, Lamport time and the last 24 bytes of the hash. */
  datatype EventId = EventId(epoch: U32, lamport: U32, tail: seq<Byte>)

  datatype Index = Index(epoch: U32, lamport: U32, creator: U32, seqno: U32, frame: U32)

  datatype Times = Times(creation: U64, median: U64)

  datatype Gas = Gas(used: U64, shortLeft: U64, longLeft: U64)

  datatype Event = Event(
    index: Index, times: Times, gas: Gas, parents: seq<EventId>,
    prevEpochHash: Option<seq<Byte>>, txHash: seq<Byte>, extra: seq<Byte>)

  datatype Payload = Payload(event: Event, sig: seq<Byte>, txs: seq<Transaction>)

  /** Arrays have their fixed sizes and slices fit their length fields. */
  predicate ShapedEvent(e: Event) {
    && |e.parents| < 0x1_0000_0000 && (forall i :: 0 <= i < |e.parents| ==> |e.parents[i].tail| == 24)
    && (e.prevEpochHash.Some? ==> |e.prevEpochHash.value| == 32)
    && |e.txHash| == 32 && |e.extra| < 0x100_0000_0000_0000
  }

  predicate ShapedPayload(p: Payload) {
    && ShapedEvent(p.event) && |p.sig| == 64 && |p.txs| < 0x100_0000_0000_0000
    && forall i :: 0 <= i < |p.txs| ==> Shaped(p.txs[i])
  }

  // -------- what is written --------

  function PutIndex(x: Index, rest: Stream): Stream {
    PutU32(x.epoch, PutU32(x.lamport, PutU32(x.creator, PutU32(x.seqno, PutU32(x.frame, rest)))))
  }

  function MedianDiff(t: Times): I64 {
    Wrap64((Wrap64(t.creation) as int) - (Wrap64(t.median) as int))
  }

  /** The median time that a difference stands for. */
  function MedianFrom(creation: U64, diff: I64): U64 {
    Unsigned(Wrap64((Wrap64(creation) as int) - (diff as int)))
  }

  function PutTimes(t: Times, rest: Stream): Stream {
    PutU64(t.creation, PutI64(MedianDiff(t), rest))
  }

  function PutGas(g: Gas, rest: Stream): Stream {
    PutU64(g.used, PutU64(g.shortLeft, PutU64(g.longLeft, rest)))
  }

  predicate NotAbove(parents: seq<EventId>, lamport: U32) {
    forall i :: 0 <= i < |parents| ==> parents[i].lamport <= lamport
  }

  function LamportDiff(lamport: U32, p: EventId): U32
    requires p.lamport <= lamport
  {
    lamport - p.lamport
  }

  function PutParent(lamport: U32, p: EventId, rest: Stream): Stream
    requires p.lamport <= lamport
  {
    PutU32(LamportDiff(lamport, p), PutBytes(p.tail, rest))
  }

  function PutParents(lamport: U32, parents: seq<EventId>, rest: Stream): Stream
    requires NotAbove(parents, lamport)
  {
    if parents == [] then rest else PutParent(lamport, parents[0], PutParents(lamport, parents[1..], rest))
  }

  function TxHashField(empty: seq<Byte>, h: seq<Byte>): Option<seq<Byte>> {
    if h == empty then None else Some(h)
  }

  function PutHashes(empty: seq<Byte>, e: Event, rest: Stream): Stream
    requires |e.extra| < 0x100_0000_0000_0000
  {
    PutOptional(e.prevEpochHash, PutOptional(TxHashField(empty, e.txHash), PutSlice(e.extra, rest)))
  }

  function PutEvent(empty: seq<Byte>, e: Event, rest: Stream): Stream
    requires ShapedEvent(e) && NotAbove(e.parents, e.index.lamport)
  {
    PutIndex(e.index, PutTimes(e.times, PutGas(e.gas,
      PutU32(|e.parents|, PutParents(e.index.lamport, e.parents, PutHashes(empty, e, rest))))))
  }

  function PutTxs(txs: seq<Transaction>, rest: Stream): Stream
    requires forall i :: 0 <= i < |txs| ==> Shaped(txs[i])
  {
    if txs == [] then rest else PutTx(txs[0], PutTxs(txs[1..], rest))
  }

  function PutTxPart(empty: seq<Byte>, p: Payload, rest: Stream): Stream
    requires ShapedPayload(p)
  {
    if p.event.txHash == empty then rest else PutU56(|p.txs|, PutTxs(p.txs, rest))
  }

  function PutPayload(empty: seq<Byte>, p: Payload, rest: Stream): Stream
    requires ShapedPayload(p) && NotAbove(p.event.parents, p.event.index.lamport)
  {
    PutEvent(empty, p.event, PutBytes(p.sig, PutTxPart(empty, p, rest)))
  }

  function FirstRefusal(txs: seq<Transaction>): Option<Error> {
    if txs == [] then None else
    if Refusal(txs[0]).Some? then Refusal(txs[0]) else FirstRefusal(txs[1..])
  }

  /** Why a payload is refused, if it is. */
  function PayloadRefusal(empty: seq<Byte>, p: Payload): Option<Error> {
    if (p.event.txHash == empty) != (p.txs == []) then Some(MalformedEvent) else
    if !NotAbove(p.event.parents, p.event.index.lamport) then Some(MalformedEvent) else
    FirstRefusal(p.txs)
  }

  // -------- what is read --------

  function GetIndex(s: Stream): Parsed<Index> {
    var epoch :- GetU32(s);
    var lamport :- GetU32(epoch.1);
    var creator :- GetU32(lamport.1);
    var seqno :- GetU32(creator.1);
    var frame :- GetU32(seqno.1);
    Some((Index(epoch.0, lamport.0, creator.0, seqno.0, frame.0), frame.1))
  }

  function Unsigned(v: I64): U64 { if v < 0 then 0x1_0000_0000_0000_0000 + (v as int) else v }

  function GetTimes(s: Stream): Parsed<Times> {
    var creation :- GetU64(s);
    var diff :- GetI64(creation.1);
    Some((Times(creation.0, MedianFrom(creation.0, diff.0)), diff.1))
  }

  function GetGas(s: Stream): Parsed<Gas> {
    var used :- GetU64(s);
    var shortLeft :- GetU64(used.1);
    var longLeft :- GetU64(shortLeft.1);
    Some((Gas(used.0, shortLeft.0, longLeft.0), longLeft.1))
  }

  function Minus32(a: U32, b: U32): U32 { if b <= a then a - b else 0x1_0000_0000 + (a as int) - (b as int) }

  function GetParent(x: Index, s: Stream): Parsed<EventId> {
    var diff :- GetU32(s);
    var tail :- GetBytes(24, diff.1);
    Some((EventId(x.epoch, Minus32(x.lamport, diff.0), tail.0), tail.1))
  }

  /** Reads on until there are `n` parents. */
  function GetParents(n: nat, x: Index, list: seq<EventId>, s: Stream): Parsed<seq<EventId>>
    decreases n - |list|
  {
    if |list| >= n then Some((list, s)) else
    var parent :- GetParent(x, s);
    GetParents(n, x, list + [parent.0], parent.1)
  }

  datatype Head = Head(index: Index, times: Times, gas: Gas, parents: seq<EventId>)

  function GetHead(s: Stream): Parsed<Head> {
    var index :- GetIndex(s);
    var times :- GetTimes(index.1);
    var gas :- GetGas(times.1);
    var size :- GetU32(gas.1);
    var parents :- GetParents(size.0, index.0, [], size.1);
    Some((Head(index.0, times.0, gas.0, parents.0), parents.1))
  }

  datatype Hashes = Hashes(prevEpochHash: Option<seq<Byte>>, txHash: seq<Byte>, extra: seq<Byte>)

  function GetHashes(empty: seq<Byte>, s: Stream): Result<(Hashes, Stream)> {
    var prev := GetOptional(32, s);
    if prev.None? then Fail(Malformed) else
    var txHash := GetOptional(32, prev.value.1);
    if txHash.None? then Fail(Malformed) else
    if txHash.value.0 == Some(empty) then Fail(NonCanonical) else
    var extra := GetSlice(txHash.value.1);
    if extra.None? then Fail(Malformed) else
    Ok((Hashes(prev.value.0, if txHash.value.0.None? then empty else txHash.value.0.value, extra.value.0), extra.value.1))
  }

  function JoinEvent(h: Head, hs: Hashes): Event {
    Event(h.index, h.times, h.gas, h.parents, hs.prevEpochHash, hs.txHash, hs.extra)
  }

  function GetEvent(empty: seq<Byte>, s: Stream): Result<(Event, Stream)> {
    var head := GetHead(s);
    if head.None? then Fail(Malformed) else
    var hashes := GetHashes(empty, head.value.1);
    if hashes.Fail? then Fail(hashes.error) else
    Ok((JoinEvent(head.value.0, hashes.value.0), hashes.value.1))
  }

  /** Reads on until there are `n` transactions. */
  function GetTxs(n: nat, list: seq<Transaction>, s: Stream): Result<(seq<Transaction>, Stream)>
    decreases n - |list|
  {
    if |list| >= n then Ok((list, s)) else
    var tx := GetTx(s);
    if tx.Fail? then Fail(tx.error) else
    GetTxs(n, list + [tx.value.0], tx.value.1)
  }

  function GetTxPart(empty: seq<Byte>, e: Event, s: Stream): Result<(seq<Transaction>, Stream)> {
    if e.txHash == empty then Ok(([], s)) else
    var size := GetU56(s);
    if size.None? then Fail(Malformed) else GetTxs(size.value.0, [], size.value.1)
  }

  function GetPayload(empty: seq<Byte>, s: Stream): Result<(Payload, Stream)> {
    var event := GetEvent(empty, s);
    if event.Fail? then Fail(event.error) else
    var sig := GetBytes(64, event.value.1);
    if sig.None? then Fail(Malformed) else
    var txs := GetTxPart(empty, event.value.0, sig.value.1);
    if txs.Fail? then Fail(txs.error) else
    Ok((Payload(event.value.0, sig.value.0, txs.value.0), txs.value.1))
  }

  // -------- round trip --------

  lemma IndexRound(x: Index, rest: Stream)
    ensures GetIndex(PutIndex(x, rest)) == Some((x, rest))
  {
    var s4 := PutU32(x.frame, rest);
    var s3 := PutU32(x.seqno, s4);
    var s2 := PutU32(x.creator, s3);
    var s1 := PutU32(x.lamport, s2);
    U32Round(x.epoch, s1);
    U32Round(x.lamport, s2);
    U32Round(x.creator, s3);
    U32Round(x.seqno, s4);
    U32Round(x.frame, rest);
  }

  /** The median time survives as a wrapped difference to the creation time, whatever the two are. */
  lemma MedianBack(t: Times)
    ensures MedianFrom(t.creation, MedianDiff(t)) == t.median
  {
    DiffTwice(Wrap64(t.creation), Wrap64(t.median));
    UnsignedBack(t.median);
  }

  lemma DiffTwice(a: I64, b: I64)
    ensures Wrap64((a as int) - (Wrap64((a as int) - (b as int)) as int)) == b
  {
  }

  lemma UnsignedBack(v: U64)
    ensures Unsigned(Wrap64(v)) == v
  {
  }

  lemma TimesRound(t: Times, rest: Stream)
    ensures GetTimes(PutTimes(t, rest)) == Some((t, rest))
  {
    U64Round(t.creation, PutI64(MedianDiff(t), rest));
    I64Round(MedianDiff(t), rest);
    MedianBack(t);
  }

  lemma GasRound(g: Gas, rest: Stream)
    ensures GetGas(PutGas(g, rest)) == Some((g, rest))
  {
    U64Round(g.used, PutU64(g.shortLeft, PutU64(g.longLeft, rest)));
    U64Round(g.shortLeft, PutU64(g.longLeft, rest));
    U64Round(g.longLeft, rest);
  }

  /** The epoch of a parent is not written; it becomes the event's own. */
  function Reset(epoch: U32, parents: seq<EventId>): seq<EventId> {
    if parents == [] then [] else [parents[0].(epoch := epoch)] + Reset(epoch, parents[1..])
  }

  lemma {:induction false} ResetIff(epoch: U32, parents: seq<EventId>)
    ensures Reset(epoch, parents) == parents <==> forall i :: 0 <= i < |parents| ==> parents[i].epoch == epoch
    decreases |parents|
  {
    if parents != [] {
      ResetIff(epoch, parents[1..]);
      assert parents == [parents[0]] + parents[1..];
      assert Reset(epoch, parents)[1..] == Reset(epoch, parents[1..]) && Reset(epoch, parents)[0] == parents[0].(epoch := epoch);
      assert forall i :: 0 < i < |parents| ==> parents[i] == parents[1..][i - 1];
    }
  }

  lemma MinusBack(a: U32, b: U32)
    requires b <= a
    ensures Minus32(a, a - b) == b
  {
  }

  lemma ParentRound(x: Index, p: EventId, more: Stream)
    requires p.lamport <= x.lamport && |p.tail| == 24
    ensures GetParent(x, PutParent(x.lamport, p, more)) == Some((p.(epoch := x.epoch), more))
  {
    U32Round(LamportDiff(x.lamport, p), PutBytes(p.tail, more));
    BytesRound(p.tail, more);
    MinusBack(x.lamport, p.lamport);
  }

  lemma {:induction false} ParentsRound(n: nat, x: Index, list: seq<EventId>, parents: seq<EventId>, rest: Stream)
    requires n == |list| + |parents| && NotAbove(parents, x.lamport) && forall i :: 0 <= i < |parents| ==> |parents[i].tail| == 24
    ensures GetParents(n, x, list, PutParents(x.lamport, parents, rest)) == Some((list + Reset(x.epoch, parents), rest))
    decreases |parents|
  {
    if parents == [] {
      assert list + Reset(x.epoch, parents) == list;
    } else {
      var p := parents[0].(epoch := x.epoch);
      ParentRound(x, parents[0], PutParents(x.lamport, parents[1..], rest));
      ParentsRound(n, x, list + [p], parents[1..], rest);
      Regroup(list, [p], Reset(x.epoch, parents[1..]));
    }
  }

  lemma HeadRound(e: Event, rest: Stream)
    requires ShapedEvent(e) && NotAbove(e.parents, e.index.lamport)
    ensures GetHead(PutIndex(e.index, PutTimes(e.times, PutGas(e.gas, PutU32(|e.parents|, PutParents(e.index.lamport, e.parents, rest))))))
      == Some((Head(e.index, e.times, e.gas, Reset(e.index.epoch, e.parents)), rest))
  {
    var s4 := PutParents(e.index.lamport, e.parents, rest);
    var s3 := PutU32(|e.parents|, s4);
    var s2 := PutGas(e.gas, s3);
    IndexRound(e.index, PutTimes(e.times, s2));
    TimesRound(e.times, s2);
    GasRound(e.gas, s3);
    U32Round(|e.parents|, s4);
    ParentsRound(|e.parents|, e.index, [], e.parents, rest);
    assert [] + Reset(e.index.epoch, e.parents) == Reset(e.index.epoch, e.parents);
  }

  function NormalEvent(e: Event): Event {
    e.(parents := Reset(e.index.epoch, e.parents))
  }

  lemma HashesRound(empty: seq<Byte>, e: Event, rest: Stream)
    requires ShapedEvent(e)
    ensures GetHashes(empty, PutHashes(empty, e, rest)) == Ok((Hashes(e.prevEpochHash, e.txHash, e.extra), rest))
  {
    var field := TxHashField(empty, e.txHash);
    OptionalRound(32, e.prevEpochHash, PutOptional(field, PutSlice(e.extra, rest)));
    OptionalRound(32, field, PutSlice(e.extra, rest));
    SliceRound(e.extra, rest);
  }

  lemma EventRound(empty: seq<Byte>, e: Event, rest: Stream)
    requires ShapedEvent(e) && NotAbove(e.parents, e.index.lamport)
    ensures GetEvent(empty, PutEvent(empty, e, rest)) == Ok((NormalEvent(e), rest))
  {
    HeadRound(e, PutHashes(empty, e, rest));
    HashesRound(empty, e, rest);
  }

  function NormalTxs(txs: seq<Transaction>): seq<Transaction> {
    if txs == [] then [] else [Normal(txs[0])] + NormalTxs(txs[1..])
  }

  lemma {:induction false} TxsRound(n: nat, list: seq<Transaction>, txs: seq<Transaction>, rest: Stream)
    requires n == |list| + |txs| && (forall i :: 0 <= i < |txs| ==> Shaped(txs[i])) && FirstRefusal(txs).None?
    ensures GetTxs(n, list, PutTxs(txs, rest)) == Ok((list + NormalTxs(txs), rest))
    decreases |txs|
  {
    if txs == [] {
      assert list + NormalTxs(txs) == list;
    } else {
      TxRound(txs[0], PutTxs(txs[1..], rest));
      TxsRound(n, list + [Normal(txs[0])], txs[1..], rest);
      Regroup(list, [Normal(txs[0])], NormalTxs(txs[1..]));
    }
  }

  /** What a payload becomes. */
  function NormalPayload(p: Payload): Payload {
    Payload(NormalEvent(p.event), p.sig, NormalTxs(p.txs))
  }

  /** Every payload that is not refused comes back, up to what the format cannot hold, whatever follows it. */
  lemma PayloadRound(empty: seq<Byte>, p: Payload, rest: Stream)
    requires ShapedPayload(p) && PayloadRefusal(empty, p).None?
    ensures GetPayload(empty, PutPayload(empty, p, rest)) == Ok((NormalPayload(p), rest))
  {
    EventRound(empty, p.event, PutBytes(p.sig, PutTxPart(empty, p, rest)));
    BytesRound(p.sig, PutTxPart(empty, p, rest));
    TxPartRound(empty, p, rest);
  }

  lemma TxPartRound(empty: seq<Byte>, p: Payload, rest: Stream)
    requires ShapedPayload(p) && PayloadRefusal(empty, p).None?
    ensures GetTxPart(empty, NormalEvent(p.event), PutTxPart(empty, p, rest)) == Ok((NormalTxs(p.txs), rest))
  {
    if p.event.txHash != empty {
      U56Round(|p.txs|, PutTxs(p.txs, rest));
      TxsRound(|p.txs|, [], p.txs, rest);
      assert [] + NormalTxs(p.txs) == NormalTxs(p.txs);
    }
  }

  ghost predicate Holdable(tx: Transaction) {
    && tx.gasPrice >= 0 && tx.value >= 0 && tx.v >= 0 && (tx.kind.WithAccessList? ==> tx.kind.chainId >= 0)
    && 0 <= tx.r < Pow256(32) && 0 <= tx.s < Pow256(32)
  }

  lemma {:induction false} NormalTxsIff(txs: seq<Transaction>)
    ensures NormalTxs(txs) == txs <==> forall i :: 0 <= i < |txs| ==> Holdable(txs[i])
    decreases |txs|
  {
    if txs != [] {
      NormalIff(txs[0]);
      NormalTxsIff(txs[1..]);
      SameFront(Normal(txs[0]), NormalTxs(txs[1..]), txs);
      assert forall i :: 0 < i < |txs| ==> txs[i] == txs[1..][i - 1];
    }
  }

  lemma SameFront<T>(x: T, rest: seq<T>, s: seq<T>)
    requires s != []
    ensures [x] + rest == s <==> x == s[0] && rest == s[1..]
  {
    assert ([x] + rest)[1..] == rest && s == [s[0]] + s[1..];
  }

  /** The bytes of an event begin with epoch, Lamport time, creator, sequence number and frame, then its times, its gas power, and the number of parents. */
  lemma EventLayout(empty: seq<Byte>, e: Event, rest: Stream)
    requires ShapedEvent(e) && NotAbove(e.parents, e.index.lamport)
    ensures IndexBytes(e.index) + TimesBytes(e.times) + GasBytes(e.gas) + LittleEndian(|e.parents|, 1) <= PutEvent(empty, e, rest).bytes
  {
    var s4 := PutParents(e.index.lamport, e.parents, PutHashes(empty, e, rest));
    var s3 := PutU32(|e.parents|, s4);
    var s2 := PutGas(e.gas, s3);
    var s1 := PutTimes(e.times, s2);
    IndexLayout(e.index, s1);
    TimesLayout(e.times, s2);
    GasLayout(e.gas, s3);
    assert s3.bytes == LittleEndian(|e.parents|, 1) + s4.bytes;
    Join4(IndexBytes(e.index), TimesBytes(e.times), GasBytes(e.gas), LittleEndian(|e.parents|, 1), s4.bytes);
  }

  function IndexBytes(x: Index): seq<Byte> {
    LittleEndian(x.epoch, 1) + LittleEndian(x.lamport, 1) + LittleEndian(x.creator, 1) + LittleEndian(x.seqno, 1) + LittleEndian(x.frame, 1)
  }

  /** The creation time, and how far the median time lies from it in either direction. */
  function TimesBytes(t: Times): seq<Byte> { LittleEndian(t.creation, 1) + LittleEndian(Abs(MedianDiff(t)), 1) }

  function GasBytes(g: Gas): seq<Byte> { LittleEndian(g.used, 1) + LittleEndian(g.shortLeft, 1) + LittleEndian(g.longLeft, 1) }

  lemma IndexLayout(x: Index, rest: Stream)
    ensures PutIndex(x, rest).bytes == IndexBytes(x) + rest.bytes
  {
    var s4 := PutU32(x.frame, rest);
    var s3 := PutU32(x.seqno, s4);
    var s2 := PutU32(x.creator, s3);
    var s1 := PutU32(x.lamport, s2);
    assert s4.bytes == LittleEndian(x.frame, 1) + rest.bytes && s3.bytes == LittleEndian(x.seqno, 1) + s4.bytes;
    assert s2.bytes == LittleEndian(x.creator, 1) + s3.bytes && s1.bytes == LittleEndian(x.lamport, 1) + s2.bytes;
    assert PutU32(x.epoch, s1).bytes == LittleEndian(x.epoch, 1) + s1.bytes;
    Join5(LittleEndian(x.epoch, 1), LittleEndian(x.lamport, 1), LittleEndian(x.creator, 1), LittleEndian(x.seqno, 1), LittleEndian(x.frame, 1), rest.bytes);
  }

  lemma Join5(a: seq<Byte>, b: seq<Byte>, c: seq<Byte>, d: seq<Byte>, e: seq<Byte>, f: seq<Byte>)
    ensures a + (b + (c + (d + (e + f)))) == a + b + c + d + e + f
  {
  }

  lemma TimesLayout(t: Times, rest: Stream)
    ensures PutTimes(t, rest).bytes == TimesBytes(t) + rest.bytes
  {
    var s := PutI64(MedianDiff(t), rest);
    assert s.bytes == LittleEndian(Abs(MedianDiff(t)), 1) + rest.bytes;
    assert PutTimes(t, rest).bytes == LittleEndian(t.creation, 1) + s.bytes;
  }

  lemma GasLayout(g: Gas, rest: Stream)
    ensures PutGas(g, rest).bytes == GasBytes(g) + rest.bytes
  {
    var s2 := PutU64(g.longLeft, rest);
    var s1 := PutU64(g.shortLeft, s2);
    assert s2.bytes == LittleEndian(g.longLeft, 1) + rest.bytes && s1.bytes == LittleEndian(g.shortLeft, 1) + s2.bytes;
    assert PutU64(g.used, s1).bytes == LittleEndian(g.used, 1) + s1.bytes;
  }

  lemma {:induction false} FirstRefusalIff(txs: seq<Transaction>)
    ensures FirstRefusal(txs).None? <==> forall i :: 0 <= i < |txs| ==> !txs[i].kind.OtherType? && (txs[i].kind.Legacy? ==> txs[i].gas > 255)
  {
    if txs != [] {
      FirstRefusalIff(txs[1..]);
      assert forall i :: 0 < i < |txs| ==> txs[i] == txs[1..][i - 1];
    }
  }

  /**
   A payload can be written if and only if it says truly whether it has transactions, no parent is later than it, and
   its transactions are of known types, legacy ones with gas above 255.
   */
  lemma WritableIff(empty: seq<Byte>, p: Payload)
    ensures PayloadRefusal(empty, p).None? <==>
      && (p.event.txHash == empty <==> p.txs == [])
      && (forall i :: 0 <= i < |p.event.parents| ==> p.event.parents[i].lamport <= p.event.index.lamport)
      && (forall i :: 0 <= i < |p.txs| ==> !p.txs[i].kind.OtherType? && (p.txs[i].kind.Legacy? ==> p.txs[i].gas > 255))
  {
    FirstRefusalIff(p.txs);
  }

  /** A payload comes back unchanged if and only if all parents are in its epoch and its transactions are holdable. */
  lemma UnchangedIff(p: Payload)
    ensures NormalPayload(p) == p <==>
      && (forall i :: 0 <= i < |p.event.parents| ==> p.event.parents[i].epoch == p.event.index.epoch)
      && (forall i :: 0 <= i < |p.txs| ==> Holdable(p.txs[i]))
  {
    ResetIff(p.event.index.epoch, p.event.parents);
    NormalTxsIff(p.txs);
  }

  // -------- writing --------

  method MarshalIndex(w: Writer, x: Index)
    requires w.Valid()
    modifies w, w.bitsW
    ensures w.Valid() && forall after :: Cat(w.Out(), after) == Cat(old(w.Out()), PutIndex(x, after))
  {
    w.U32(x.epoch);
    w.U32(x.lamport);
    w.U32(x.creator);
    w.U32(x.seqno);
    w.U32(x.frame);
  }

  method MarshalTimes(w: Writer, t: Times)
    requires w.Valid()
    modifies w, w.bitsW
    ensures w.Valid() && forall after :: Cat(w.Out(), after) == Cat(old(w.Out()), PutTimes(t, after))
  {
    w.U64(t.creation);
    w.I64(MedianDiff(t));
  }

  method MarshalGas(w: Writer, g: Gas)
    requires w.Valid()
    modifies w, w.bitsW
    ensures w.Valid() && forall after :: Cat(w.Out(), after) == Cat(old(w.Out()), PutGas(g, after))
  {
    w.U64(g.used);
    w.U64(g.shortLeft);
    w.U64(g.longLeft);
  }

  method MarshalParent(w: Writer, lamport: U32, p: EventId)
    requires w.Valid() && p.lamport <= lamport
    modifies w, w.bitsW
    ensures w.Valid() && forall after :: Cat(w.Out(), after) == Cat(old(w.Out()), PutParent(lamport, p, after))
  {
    w.U32(LamportDiff(lamport, p));
    w.FixedBytes(p.tail);
  }

  /** Stops at the first parent whose Lamport time lies above the event's. */
  method MarshalParents(w: Writer, lamport: U32, parents: seq<EventId>) returns (ok: bool)
    requires w.Valid()
    modifies w, w.bitsW
    ensures w.Valid() && ok == NotAbove(parents, lamport)
    ensures ok ==> forall after :: Cat(w.Out(), after) == Cat(old(w.Out()), PutParents(lamport, parents, after))
  {
    for i := 0 to |parents|
      invariant w.Valid() && NotAbove(parents[..i], lamport)
      invariant NotAbove(parents, lamport) ==>
        forall after :: Cat(w.Out(), PutParents(lamport, parents[i..], after)) == Cat(old(w.Out()), PutParents(lamport, parents, after))
    {
      var p := parents[i];
      if lamport < p.lamport {
        return false;
      }
      assert parents[i..][1..] == parents[i + 1..];
      MarshalParent(w, lamport, p);
    }
    assert parents[..|parents|] == parents;
    ok := true;
  }

  method MarshalHashes(w: Writer, empty: seq<Byte>, e: Event)
    requires w.Valid() && |e.extra| < 0x100_0000_0000_0000
    modifies w, w.bitsW
    ensures w.Valid() && forall after :: Cat(w.Out(), after) == Cat(old(w.Out()), PutHashes(empty, e, after))
  {
    MarshalOptional(w, e.prevEpochHash);
    MarshalOptional(w, TxHashField(empty, e.txHash));
    w.SliceBytes(e.extra);
  }

  method MarshalEvent(w: Writer, empty: seq<Byte>, e: Event) returns (ok: bool)
    requires w.Valid() && ShapedEvent(e)
    modifies w, w.bitsW
    ensures w.Valid() && ok == NotAbove(e.parents, e.index.lamport)
    ensures ok ==> forall after :: Cat(w.Out(), after) == Cat(old(w.Out()), PutEvent(empty, e, after))
  {
    MarshalIndex(w, e.index);
    MarshalTimes(w, e.times);
    MarshalGas(w, e.gas);
    w.U32(|e.parents|);
    ok := MarshalParents(w, e.index.lamport, e.parents);
    if ok {
      MarshalHashes(w, empty, e);
    }
  }

  method MarshalTxs(w: Writer, txs: seq<Transaction>) returns (err: Option<Error>)
    requires w.Valid() && forall i :: 0 <= i < |txs| ==> Shaped(txs[i])
    modifies w, w.bitsW
    ensures w.Valid() && err == FirstRefusal(txs)
    ensures err.None? ==> forall after :: Cat(w.Out(), after) == Cat(old(w.Out()), PutTxs(txs, after))
  {
    for i := 0 to |txs|
      invariant w.Valid() && FirstRefusal(txs) == FirstRefusal(txs[i..])
      invariant forall after :: Cat(w.Out(), PutTxs(txs[i..], after)) == Cat(old(w.Out()), PutTxs(txs, after))
    {
      assert txs[i..][1..] == txs[i + 1..] && txs[i..][0] == txs[i];
      err := MarshalTx(w, txs[i]);
      if err.Some? {
        return;
      }
    }
    assert forall after :: PutTxs(txs[|txs|..], after) == after;
    err := None;
  }

  method MarshalPayload(w: Writer, empty: seq<Byte>, p: Payload) returns (err: Option<Error>)
    requires w.Valid() && ShapedPayload(p)
    modifies w, w.bitsW
    ensures w.Valid() && err == PayloadRefusal(empty, p)
    ensures err.None? ==> forall after :: Cat(w.Out(), after) == Cat(old(w.Out()), PutPayload(empty, p, after))
  {
    if (p.event.txHash == empty) != (|p.txs| == 0) {
      return Some(MalformedEvent);
    }
    var ok := MarshalEvent(w, empty, p.event);
    if !ok {
      return Some(MalformedEvent);
    }
    w.FixedBytes(p.sig);
    err := None;
    if p.event.txHash != empty {
      w.U56(|p.txs|);
      err := MarshalTxs(w, p.txs);
    }
  }

  function Parser(empty: seq<Byte>): Stream -> Result<(Payload, Stream)> {
    s => GetPayload(empty, s)
  }

  /** A payload in its container: refused, or readable to what the format can hold of it. */
  method MarshalBinary(empty: seq<Byte>, p: Payload) returns (res: Result<seq<Byte>>)
    requires ShapedPayload(p)
    ensures res.Fail? <==> PayloadRefusal(empty, p).Some?
    ensures res.Fail? ==> PayloadRefusal(empty, p) == Some(res.error)
    ensures res.Ok? && |res.value| < 0x8000_0000_0000_0000 ==> Decode(res.value, Parser(empty)) == Ok(NormalPayload(p))
  {
    var w := new Writer();
    var err := MarshalPayload(w, empty, p);
    if err.Some? {
      return Fail(err.value);
    }
    res := Ok(Pack(w.bitsW.bytes, w.bytes));
    Readable(empty, p, w.Out(), w.bitsW.bytes, w.bitsW.bitOffset);
  }

  lemma Readable(empty: seq<Byte>, p: Payload, out: Stream, bits: seq<Byte>, used: nat)
    requires ShapedPayload(p) && PayloadRefusal(empty, p).None?
    requires used < 8 && (used > 0 ==> bits != [] && bits[|bits| - 1] < Pow2(used)) && out.bits == Written(bits, used)
    requires forall after :: Cat(out, after) == Cat(NIL, PutPayload(empty, p, after))
    ensures |Pack(bits, out.bytes)| < 0x8000_0000_0000_0000 ==> Decode(Pack(bits, out.bytes), Parser(empty)) == Ok(NormalPayload(p))
  {
    var pad := if used == 0 then 0 else 8 - used;
    var after := Stream(BitsOf(0, pad), []);
    Padding(bits, used);
    CatNil(PutPayload(empty, p, after));
    PayloadRound(empty, p, after);
    if |Pack(bits, out.bytes)| < 0x8000_0000_0000_0000 {
      DecodeRound(out, bits, pad, Parser(empty), NormalPayload(p));
    }
  }

  // -------- reading --------

  method UnmarshalIndex(r: Reader) returns (x: Option<Index>)
    requires r.Valid()
    modifies r, r.bitsR
    ensures r.Valid() && Took(x, GetIndex(old(r.Rest())), r.Rest())
  {
    var epoch := r.U32();
    if epoch.None? {
      return None;
    }
    var lamport := r.U32();
    if lamport.None? {
      return None;
    }
    var creator := r.U32();
    if creator.None? {
      return None;
    }
    var seqno := r.U32();
    if seqno.None? {
      return None;
    }
    var frame := r.U32();
    if frame.None? {
      return None;
    }
    x := Some(Index(epoch.value, lamport.value, creator.value, seqno.value, frame.value));
  }

  method UnmarshalTimes(r: Reader) returns (t: Option<Times>)
    requires r.Valid()
    modifies r, r.bitsR
    ensures r.Valid() && Took(t, GetTimes(old(r.Rest())), r.Rest())
  {
    var creation := r.U64();
    if creation.None? {
      return None;
    }
    var diff := r.I64();
    if diff.None? {
      return None;
    }
    t := Some(Times(creation.value, MedianFrom(creation.value, diff.value)));
  }

  method UnmarshalGas(r: Reader) returns (g: Option<Gas>)
    requires r.Valid()
    modifies r, r.bitsR
    ensures r.Valid() && Took(g, GetGas(old(r.Rest())), r.Rest())
  {
    var used := r.U64();
    if used.None? {
      return None;
    }
    var shortLeft := r.U64();
    if shortLeft.None? {
      return None;
    }
    var longLeft := r.U64();
    if longLeft.None? {
      return None;
    }
    g := Some(Gas(used.value, shortLeft.value, longLeft.value));
  }

  method UnmarshalParent(r: Reader, x: Index) returns (p: Option<EventId>)
    requires r.Valid()
    modifies r, r.bitsR
    ensures r.Valid() && Took(p, GetParent(x, old(r.Rest())), r.Rest())
  {
    var diff := r.U32();
    if diff.None? {
      return None;
    }
    var tail := r.FixedBytes(24);
    if tail.None? {
      return None;
    }
    p := Some(EventId(x.epoch, Minus32(x.lamport, diff.value), tail.value));
  }

  method UnmarshalParents(r: Reader, n: nat, x: Index) returns (parents: Option<seq<EventId>>)
    requires r.Valid()
    modifies r, r.bitsR
    ensures r.Valid() && Took(parents, GetParents(n, x, [], old(r.Rest())), r.Rest())
  {
    var list := [];
    while |list| < n
      invariant r.Valid() && GetParents(n, x, [], old(r.Rest())) == GetParents(n, x, list, r.Rest())
      decreases n - |list|
    {
      var parent := UnmarshalParent(r, x);
      if parent.None? {
        return None;
      }
      list := list + [parent.value];
    }
    parents := Some(list);
  }

  method UnmarshalHead(r: Reader) returns (h: Option<Head>)
    requires r.Valid()
    modifies r, r.bitsR
    ensures r.Valid() && Took(h, GetHead(old(r.Rest())), r.Rest())
  {
    var index := UnmarshalIndex(r);
    if index.None? {
      return None;
    }
    var times := UnmarshalTimes(r);
    if times.None? {
      return None;
    }
    var gas := UnmarshalGas(r);
    if gas.None? {
      return None;
    }
    var size := r.U32();
    if size.None? {
      return None;
    }
    var parents := UnmarshalParents(r, size.value, index.value);
    h := if parents.None? then None else Some(Head(index.value, times.value, gas.value, parents.value));
  }

  method UnmarshalHashes(r: Reader, empty: seq<Byte>) returns (res: Result<Hashes>)
    requires r.Valid()
    modifies r, r.bitsR
    ensures r.Valid() && Parsing(res, GetHashes(empty, old(r.Rest())), r.Rest())
  {
    var prev := UnmarshalOptional(r, 32);
    if prev.None? {
      return Fail(Malformed);
    }
    var txHash := UnmarshalOptional(r, 32);
    if txHash.None? {
      return Fail(Malformed);
    }
    if txHash.value == Some(empty) {
      return Fail(NonCanonical);
    }
    var extra := r.SliceBytes();
    if extra.None? {
      return Fail(Malformed);
    }
    res := Ok(Hashes(prev.value, if txHash.value.None? then empty else txHash.value.value, extra.value));
  }

  method UnmarshalEvent(r: Reader, empty: seq<Byte>) returns (res: Result<Event>)
    requires r.Valid()
    modifies r, r.bitsR
    ensures r.Valid() && Parsing(res, GetEvent(empty, old(r.Rest())), r.Rest())
  {
    var head := UnmarshalHead(r);
    if head.None? {
      return Fail(Malformed);
    }
    var hashes := UnmarshalHashes(r, empty);
    res := if hashes.Fail? then Fail(hashes.error) else Ok(JoinEvent(head.value, hashes.value));
  }

  method UnmarshalTxs(r: Reader, n: nat) returns (res: Result<seq<Transaction>>)
    requires r.Valid()
    modifies r, r.bitsR
    ensures r.Valid() && Parsing(res, GetTxs(n, [], old(r.Rest())), r.Rest())
  {
    var list := [];
    while |list| < n
      invariant r.Valid() && GetTxs(n, [], old(r.Rest())) == GetTxs(n, list, r.Rest())
      decreases n - |list|
    {
      var tx := UnmarshalTx(r);
      if tx.Fail? {
        return Fail(tx.error);
      }
      list := list + [tx.value];
    }
    res := Ok(list);
  }

  method UnmarshalPayload(r: Reader, empty: seq<Byte>) returns (res: Result<Payload>)
    requires r.Valid()
    modifies r, r.bitsR
    ensures r.Valid() && Parsing(res, GetPayload(empty, old(r.Rest())), r.Rest())
  {
    var event := UnmarshalEvent(r, empty);
    if event.Fail? {
      return Fail(event.error);
    }
    var sig := r.FixedBytes(64);
    if sig.None? {
      return Fail(Malformed);
    }
    if event.value.txHash == empty {
      return Ok(Payload(event.value, sig.value, []));
    }
    var size := r.U56();
    if size.None? {
      return Fail(Malformed);
    }
    var txs := UnmarshalTxs(r, size.value);
    res := if txs.Fail? then Fail(txs.error) else Ok(Payload(event.value, sig.value, txs.value));
  }

  /** Reads a container; what is left over must be fewer than nine zero bits. */
  method UnmarshalBinary(empty: seq<Byte>, raw: seq<Byte>) returns (res: Result<Payload>)
    ensures res == Decode(raw, Parser(empty))
  {
    var parts := Unpack(raw);
    if parts.None? {
      return Fail(Malformed);
    }
    var r := new Reader(parts.value.0, parts.value.1);
    res := UnmarshalPayload(r, empty);
    if res.Fail? {
      return;
    }
    if r.bitsR.NonReadBytes() > 1 {
      return Fail(NonCanonical);
    }
    assert |r.bitsR.Rest()| == r.bitsR.NonReadBits();
    ghost var bits := r.Rest().bits;
    var tail := r.bitsR.Read(r.bitsR.NonReadBits());
    assert bits[..|bits|] == bits;
    if tail.value != 0 || r.offset != |r.buf| {
      return Fail(NonCanonical);
    }
  }
}
