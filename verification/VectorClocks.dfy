/** Vectors of the highest events observed on each branch, with their times kept in a byte-encoded vector. */
module VectorClocks {
  import opened Basics
  import opened Bits
  import opened Cser

  // -------- what is observed of a branch --------

  /** Nothing, a fork, or events from `min` up to `high`, the highest claiming `time`. */
  datatype Seen = Nothing | Fork | Events(min: nat, high: nat, time: nat)

  function High(s: Seen): nat { if s.Events? then s.high else 0 }

  /** Everything that either side observes: a fork absorbs, nothing is neutral. */
  function Join(a: Seen, b: Seen): Seen {
    if a.Fork? || b.Fork? then Fork
    else if b.Nothing? then a
    else if a.Nothing? then b
    else Events(if b.min < a.min then b.min else a.min, if a.high < b.high then b.high else a.high,
                if a.high < b.high then b.time else a.time)
  }

  /** Both sides agree on the time of the event if they have the same highest one. */
  predicate Agree(a: Seen, b: Seen) {
    a.Events? && b.Events? && a.high == b.high ==> a.time == b.time
  }

  lemma JoinLaws(a: Seen, b: Seen, c: Seen)
    ensures Join(a, a) == a
    ensures Join(Join(a, b), c) == Join(a, Join(b, c))
    ensures Join(a, b) == Join(b, a) <==> Agree(a, b)
    ensures Join(Nothing, a) == a == Join(a, Nothing) && Join(Fork, a) == Fork == Join(a, Fork)
    ensures Join(Join(a, b), a) == Join(a, b)
  {
  }

  /** What is joined spans both sides and has the time of the higher event. */
  lemma JoinSpans(a: Seen, b: Seen)
    requires a.Events? && b.Events?
    ensures Join(a, b).Events? && Join(a, b).min <= a.min && Join(a, b).min <= b.min && Join(a, b).min in {a.min, b.min}
    ensures a.high <= Join(a, b).high && b.high <= Join(a, b).high && (a.high <= Join(a, b).high == b.high || Join(a, b).high == a.high)
    ensures (a.high > b.high ==> Join(a, b).time == a.time) && (a.high < b.high ==> Join(a, b).time == b.time)
    ensures Join(a, b).time in {a.time, b.time}
  {
  }

  /** Events are known by their number on a branch. */
  ghost predicate Timed(s: Seen, clock: nat -> nat) { s.Events? ==> s.time == clock(s.high) }

  /** Joining observations one after the other. */
  function Fold(start: Seen, list: seq<Seen>): Seen {
    if list == [] then start else Join(Fold(start, list[..|list| - 1]), list[|list| - 1])
  }

  /** Any element may be joined last. */
  lemma {:induction false} FoldTake(start: Seen, list: seq<Seen>, i: nat, clock: nat -> nat)
    requires i < |list| && Timed(start, clock) && forall s :: s in list ==> Timed(s, clock)
    ensures Fold(start, list) == Join(Fold(start, list[..i] + list[i + 1..]), list[i])
  {
    var n := |list| - 1;
    if i == n {
      assert list[..i] + list[i + 1..] == list[..n];
    } else {
      var front, rest := list[..n], list[..i] + list[i + 1..];
      FoldTake(start, front, i, clock);
      assert rest[..|rest| - 1] == front[..i] + front[i + 1..] && rest[|rest| - 1] == list[n];
      var x := Fold(start, front[..i] + front[i + 1..]);
      assert Timed(list[i], clock) && Timed(list[n], clock);
      JoinLaws(x, list[i], list[n]);
      JoinLaws(x, list[n], list[i]);
      JoinLaws(list[i], list[n], x);
    }
  }

  lemma TakeSame(a: seq<Seen>, b: seq<Seen>) returns (i: nat)
    requires a != [] && multiset(a) == multiset(b)
    ensures i < |b| && b[i] == a[|a| - 1] && multiset(a[..|a| - 1]) == multiset(b[..i] + b[i + 1..])
    ensures forall s :: s in b ==> s in a
  {
    var n := |a| - 1;
    assert a == a[..n] + [a[n]];
    assert multiset(a) == multiset(a[..n]) + multiset{a[n]};
    assert a[n] in multiset(b);
    i :| 0 <= i < |b| && b[i] == a[n];
    assert b == b[..i] + [b[i]] + b[i + 1..];
    assert multiset(b) == multiset(b[..i] + b[i + 1..]) + multiset{b[i]};
    forall s | s in b ensures s in a {
      assert s in multiset(b);
      assert s in multiset(a);
    }
    assert multiset(a[..n]) == multiset(a) - multiset{a[n]} == multiset(b[..i] + b[i + 1..]);
  }

  /** Parents may be collected in any order. */
  lemma {:induction false} FoldAnyOrder(start: Seen, a: seq<Seen>, b: seq<Seen>, clock: nat -> nat)
    requires multiset(a) == multiset(b) && Timed(start, clock) && forall s :: s in a ==> Timed(s, clock)
    ensures Fold(start, a) == Fold(start, b)
    decreases |a|
  {
    if a == [] {
      assert |multiset(b)| == 0;
    } else {
      var i := TakeSame(a, b);
      FoldTake(start, b, i, clock);
      FoldAnyOrder(start, a[..|a| - 1], b[..i] + b[i + 1..], clock);
    }
  }

  // -------- times in bytes --------

  const TIME_SIZE: nat := 8

  ghost predicate Aligned(b: seq<Byte>) { |b| % TIME_SIZE == 0 }

  function SizeOf(b: seq<Byte>): nat { |b| / TIME_SIZE }

  /** The time at a position; zero beyond the end. */
  function TimeAt(b: seq<Byte>, i: nat): nat {
    if i >= SizeOf(b) then 0 else FromLittleEndian(b[i * TIME_SIZE..(i + 1) * TIME_SIZE])
  }

  lemma EightBytesOf(t: nat)
    requires t < Pow256(8)
    ensures |LittleEndian(t, 8)| == 8 && FromLittleEndian(LittleEndian(t, 8)) == t
  {
    LittleEndianRound(t, 8);
    LittleEndianSize(t, 8, 8);
  }

  lemma {:induction false} ZeroBytes(b: seq<Byte>)
    requires forall i :: 0 <= i < |b| ==> b[i] == 0
    ensures FromLittleEndian(b) == 0
  {
    if b != [] {
      ZeroBytes(b[1..]);
    }
  }

  /** A time written into its place. */
  lemma WriteTime(b: seq<Byte>, b': seq<Byte>, i: nat, t: nat)
    requires Aligned(b) && i < SizeOf(b) && t < Pow256(8)
    requires b' == b[..i * TIME_SIZE] + LittleEndian(t, 8) + b[(i + 1) * TIME_SIZE..]
    ensures Aligned(b') && SizeOf(b') == SizeOf(b)
    ensures forall j :: TimeAt(b', j) == if j == i then t else TimeAt(b, j)
  {
    EightBytesOf(t);
    assert b'[i * TIME_SIZE..(i + 1) * TIME_SIZE] == LittleEndian(t, 8);
    forall j | 0 <= j < SizeOf(b) && j != i ensures TimeAt(b', j) == TimeAt(b, j) {
      assert b'[j * TIME_SIZE..(j + 1) * TIME_SIZE] == b[j * TIME_SIZE..(j + 1) * TIME_SIZE];
    }
  }

  lemma GrowTime(b: seq<Byte>)
    requires Aligned(b)
    ensures var b' := b + [0, 0, 0, 0, 0, 0, 0, 0];
      Aligned(b') && SizeOf(b') == SizeOf(b) + 1 && forall j :: TimeAt(b', j) == TimeAt(b, j)
  {
    var n, zeros: seq<Byte> := SizeOf(b), [0, 0, 0, 0, 0, 0, 0, 0];
    var b' := b + zeros;
    assert b'[n * TIME_SIZE..(n + 1) * TIME_SIZE] == zeros;
    ZeroBytes(zeros);
    forall j | 0 <= j < n ensures TimeAt(b', j) == TimeAt(b, j) {
      assert b'[j * TIME_SIZE..(j + 1) * TIME_SIZE] == b[j * TIME_SIZE..(j + 1) * TIME_SIZE];
    }
  }

  /** A vector of times that grows on demand: a map with zero as default. */
  class TimeVector {
    var bytes: seq<Byte>

    ghost predicate Valid()
      reads this
    {
      Aligned(bytes)
    }

    constructor (size: nat)
      ensures Valid() && SizeOf(bytes) == size && forall j :: TimeAt(bytes, j) == 0
    {
      bytes := [];
      new;
      var n := 0;
      while n < size
        invariant n <= size && Valid() && SizeOf(bytes) == n && forall j :: TimeAt(bytes, j) == 0
      {
        GrowTime(bytes);
        bytes := bytes + [0, 0, 0, 0, 0, 0, 0, 0];
        n := n + 1;
      }
    }

    method Get(i: nat) returns (t: nat)
      requires Valid()
      ensures t == TimeAt(bytes, i)
    {
      if i >= |bytes| / 8 {
        return 0;
      }
      t := FromLittleEndian(bytes[i * 8..(i + 1) * 8]);
    }

    method Set(i: nat, t: nat)
      requires Valid() && t < Pow256(8)
      modifies this
      ensures Valid() && forall j :: TimeAt(bytes, j) == if j == i then t else old(TimeAt(bytes, j))
    {
      while i >= |bytes| / 8
        invariant Valid() && forall j :: TimeAt(bytes, j) == old(TimeAt(bytes, j))
        decreases i - SizeOf(bytes)
      {
        GrowTime(bytes);
        bytes := bytes + [0, 0, 0, 0, 0, 0, 0, 0];
      }
      ghost var before := bytes;
      bytes := bytes[..i * 8] + LittleEndian(t, 8) + bytes[(i + 1) * 8..];
      WriteTime(before, bytes, i, t);
    }
  }

  // -------- both vectors together --------

  /** The part kept in the other vector: a fork, or the lowest and highest event, zero for none. */
  datatype BranchSeq = ForkDetected | BranchSeq(minSeq: nat, high: nat)

  function SeenAs(b: BranchSeq, time: nat): Seen {
    if b.ForkDetected? then Fork else if b.high == 0 then Nothing else Events(b.minSeq, b.high, time)
  }

  class HighestBefore {
    var seqs: map<nat, BranchSeq>
    const times: TimeVector

    ghost predicate Valid()
      reads this, times
    {
      times.Valid() && forall i :: TimeAt(times.bytes, i) < Pow256(8)
    }

    constructor (size: nat)
      ensures Valid() && fresh(times) && forall i :: At(i) == Nothing
    {
      seqs := map[];
      times := new TimeVector(size);
      new;
      assert Pow256(8) > 0;
    }

    function SeqAt(i: nat): BranchSeq
      reads this
    {
      if i in seqs then seqs[i] else BranchSeq(0, 0)
    }

    ghost function At(i: nat): Seen
      reads this, times
    {
      SeenAs(SeqAt(i), TimeAt(times.bytes, i))
    }

    method InitWithEvent(i: nat, number: nat, time: nat)
      requires Valid() && number > 0 && time < Pow256(8)
      modifies this, times
      ensures Valid() && At(i) == Events(number, number, time) && forall j :: j != i ==> At(j) == old(At(j))
    {
      seqs := seqs[i := BranchSeq(number, number)];
      times.Set(i, time);
    }

    /** Joins what the other vector observes on the first `num` branches. */
    method CollectFrom(other: HighestBefore, num: nat)
      requires Valid() && other.Valid() && this != other && times != other.times
      modifies this, times
      ensures Valid() && forall i: nat :: At(i) == if i < num then Join(old(At(i)), other.At(i)) else old(At(i))
    {
      for b := 0 to num
        invariant Valid()
        invariant forall i: nat :: At(i) == if i < b then Join(old(At(i)), other.At(i)) else old(At(i))
      {
        CollectOne(other, b);
      }
    }

    method CollectOne(other: HighestBefore, b: nat)
      requires Valid() && other.Valid() && this != other && times != other.times
      modifies this, times
      ensures Valid() && forall i :: At(i) == if i == b then Join(old(At(i)), other.At(i)) else old(At(i))
    {
      var his := other.SeqAt(b);
      if !his.ForkDetected? && his.high == 0 {
        return;
      }
      var mine := SeqAt(b);
      if mine.ForkDetected? {
        return;
      }
      if his.ForkDetected? {
        seqs := seqs[b := ForkDetected];
        return;
      }
      if mine.high == 0 || mine.minSeq > his.minSeq {
        mine := mine.(minSeq := his.minSeq);
        seqs := seqs[b := mine];
      }
      if mine.high < his.high {
        mine := mine.(high := his.high);
        seqs := seqs[b := mine];
        var time := other.times.Get(b);
        times.Set(b, time);
      }
    }

    /** Joins what all parents observe, one after the other; `views` is what each of them observes. */
    method CollectParents(parents: seq<HighestBefore>, num: nat, ghost views: seq<nat -> Seen>)
      requires Valid() && forall k :: 0 <= k < |parents| ==> parents[k].Valid() && parents[k] != this && parents[k].times != times
      requires |views| == |parents| && forall k :: 0 <= k < |parents| ==> parents[k].Shows(views[k])
      modifies this, times
      ensures Valid() && forall i: nat :: At(i) == if i < num then Fold(old(At(i)), Column(views, i)) else old(At(i))
    {
      ghost var start := Snapshot();
      for k := 0 to |parents|
        invariant Valid() && Collected(start, views[..k], num)
        invariant forall j :: 0 <= j < |parents| ==> parents[j].Valid() && parents[j].Shows(views[j])
      {
        ghost var before := Snapshot();
        CollectFrom(parents[k], num);
        CollectedMore(start, views, k, num, before);
      }
      assert views[..|parents|] == views;
    }

    ghost predicate Shows(view: nat -> Seen)
      reads this, times
    {
      forall i: nat :: At(i) == view(i)
    }

    /** What is observed now, as a value. */
    ghost function Snapshot(): (view: nat -> Seen)
      reads this, times
      ensures Shows(view)
    {
      var s, b := seqs, times.bytes;
      (i: nat) => SeenAs(if i in s then s[i] else BranchSeq(0, 0), TimeAt(b, i))
    }

    ghost predicate Collected(start: nat -> Seen, views: seq<nat -> Seen>, num: nat)
      reads this, times
    {
      forall i: nat :: At(i) == if i < num then Fold(start(i), Column(views, i)) else start(i)
    }

    lemma CollectedMore(start: nat -> Seen, views: seq<nat -> Seen>, k: nat, num: nat, before: nat -> Seen)
      requires k < |views|
      requires forall i: nat :: before(i) == if i < num then Fold(start(i), Column(views[..k], i)) else start(i)
      requires forall i: nat :: At(i) == if i < num then Join(before(i), views[k](i)) else before(i)
      ensures Collected(start, views[..k + 1], num)
    {
      forall i: nat ensures Fold(start(i), Column(views[..k + 1], i)) == Join(Fold(start(i), Column(views[..k], i)), views[k](i)) {
        NextFold(start(i), views, k, i);
      }
    }

    /** Merges the branches of one validator: a fork if any of them is one, otherwise the highest. */
    method GatherFrom(to: nat, other: HighestBefore, from: seq<nat>)
      requires Valid() && other.Valid() && this != other && times != other.times
      modifies this, times
      ensures Valid() && forall j :: j != to ==> At(j) == old(At(j))
      ensures At(to) == Fork <==> exists k :: 0 <= k < |from| && other.At(from[k]) == Fork
      ensures At(to) == Nothing <==> forall k :: 0 <= k < |from| ==> other.At(from[k]) == Nothing
      ensures At(to).Events? ==>
        && (exists k :: 0 <= k < |from| && other.At(from[k]) == At(to))
        && forall k :: 0 <= k < |from| ==> High(other.At(from[k])) <= At(to).high
    {
      var highest, time := FindHighest(other, from);
      seqs := seqs[to := highest];
      times.Set(to, time);
    }

    method FindHighest(other: HighestBefore, from: seq<nat>) returns (highest: BranchSeq, time: nat)
      requires other.Valid()
      ensures time < Pow256(8)
      ensures var s := SeenAs(highest, time);
        && (s == Fork <==> exists k :: 0 <= k < |from| && other.At(from[k]) == Fork)
        && (s == Nothing <==> forall k :: 0 <= k < |from| ==> other.At(from[k]) == Nothing)
        && (s.Events? ==>
              && (exists k :: 0 <= k < |from| && other.At(from[k]) == s)
              && forall k :: 0 <= k < |from| ==> High(other.At(from[k])) <= s.high)
    {
      highest, time := BranchSeq(0, 0), 0;
      assert Pow256(8) > 0;
      for i := 0 to |from|
        invariant highest.BranchSeq? && time < Pow256(8)
        invariant forall k :: 0 <= k < i ==> other.At(from[k]) != Fork && High(other.At(from[k])) <= highest.high
        invariant if highest.high == 0 then highest == BranchSeq(0, 0) else exists k :: 0 <= k < i && other.At(from[k]) == SeenAs(highest, time)
      {
        var vseq := other.SeqAt(from[i]);
        var vtime := other.times.Get(from[i]);
        assert other.At(from[i]) == SeenAs(vseq, vtime);
        if vseq.ForkDetected? {
          highest := vseq;
          return;
        }
        if vseq.high > highest.high {
          highest, time := vseq, vtime;
        }
      }
    }
  }

  /** What each view shows of a branch. */
  ghost function Column(views: seq<nat -> Seen>, i: nat): seq<Seen> {
    if views == [] then [] else Column(views[..|views| - 1], i) + [views[|views| - 1](i)]
  }

  lemma NextFold(start: Seen, views: seq<nat -> Seen>, k: nat, i: nat)
    requires k < |views|
    ensures Fold(start, Column(views[..k + 1], i)) == Join(Fold(start, Column(views[..k], i)), views[k](i))
  {
    assert views[..k + 1][..k] == views[..k];
    var list := Column(views[..k], i);
    assert (list + [views[k](i)])[..|list|] == list;
  }
}
