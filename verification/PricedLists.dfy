/**
 The price heap of remote transactions. Entries of transactions that left the pool
 stay in the heap until they surface, so the heap is only an over-approximation of
 the live remote transactions in the lookup.
 */
module PricedLists {
  import opened Transactions
  import opened Totals
  import opened TxLookups
  import BinaryHeap

  /** Cheaper first; of equal price the higher nonce first. */
  predicate PriceLess(a: Tx, b: Tx) {
    a.gasPrice < b.gasPrice || (a.gasPrice == b.gasPrice && a.nonce > b.nonce)
  }

  lemma PriceOrder()
    ensures BinaryHeap.IsOrder(PriceLess)
  {
  }

  /** `x` is one of the remote transactions of the lookup. */
  predicate Live(all: Lookup, x: Tx) {
    x.hash in all.remotes && all.remotes[x.hash] == x
  }

  /** Heap entries that share a hash with a live transaction are that transaction. */
  ghost predicate Faithful(heap: seq<Tx>, all: Lookup) {
    forall x :: x in heap && x.hash in all.remotes ==> Live(all, x)
  }

  /** Every live remote transaction has a heap entry, those in `except` excepted. */
  ghost predicate Covers(heap: seq<Tx>, all: Lookup, except: set<Hash>) {
    forall h :: h in all.remotes && h !in except ==> all.remotes[h] in heap
  }

  ghost function HashesOf(s: seq<Tx>): set<Hash> {
    set x | x in s :: x.hash
  }

  function LiveSlots(all: Lookup, x: Tx): nat {
    if Live(all, x) then x.Slots() else 0
  }

  /** Slots of all live entries, an entry counted as often as it occurs. */
  ghost function LiveWeight(all: Lookup, m: multiset<Tx>): nat {
    Weight(m, x => LiveSlots(all, x))
  }

  lemma LiveWeightTake(all: Lookup, m: multiset<Tx>, x: Tx)
    requires x in m
    ensures LiveWeight(all, m) == LiveSlots(all, x) + LiveWeight(all, m - multiset{x})
  {
    WeightTake(m, x, y => LiveSlots(all, y));
  }

  lemma LiveWeightWith(all: Lookup, m: multiset<Tx>, m': multiset<Tx>, x: Tx)
    requires m' == m + multiset{x}
    ensures LiveWeight(all, m') == LiveSlots(all, x) + LiveWeight(all, m)
  {
    LiveWeightTake(all, m', x);
    assert m' - multiset{x} == m;
  }

  /** What the Discard loop keeps: nothing live is lost, drops are the cheapest, weights add up. */
  ghost predicate Discarding(all: Lookup, before: seq<Tx>, heap: seq<Tx>, drop: seq<Tx>, want: int, slots: int) {
    Weighed(all, before, heap, drop, want, slots) && Sorting(all, before, heap, drop)
  }

  ghost predicate Weighed(all: Lookup, before: seq<Tx>, heap: seq<Tx>, drop: seq<Tx>, want: int, slots: int) {
    && multiset(drop) + multiset(heap) <= multiset(before)
    && LiveWeight(all, multiset(before)) == want - slots + LiveWeight(all, multiset(heap))
    && LiveWeight(all, multiset(drop)) == want - slots
    && (drop != [] ==> LiveWeight(all, multiset(drop[..|drop| - 1])) < want)
  }

  ghost predicate Sorting(all: Lookup, before: seq<Tx>, heap: seq<Tx>, drop: seq<Tx>) {
    && (forall x :: x in drop ==> Live(all, x))
    && (forall x :: x in heap ==> x in before)
    && (forall x :: Live(all, x) && x in before ==> x in heap || x in drop)
    && (forall x, y :: x in drop && y in heap ==> !PriceLess(y, x))
    && (forall x :: x in drop ==> !PriceLess(drop[|drop| - 1], x))
  }

  /** The drops are the cheapest live entries, no more than are needed, and all other live ones stay. */
  ghost predicate Discarded(all: Lookup, before: seq<Tx>, heap: seq<Tx>, want: int, drop: seq<Tx>) {
    && Covers(heap, all, HashesOf(drop))
    && (forall x :: x in heap ==> x in before)
    && multiset(drop) <= multiset(before) && (forall x :: x in drop ==> Live(all, x))
    && (forall x, y :: x in drop && y in heap && Live(all, y) ==> !PriceLess(y, x))
    && (drop != [] ==> LiveWeight(all, multiset(drop[..|drop| - 1])) < want)
    && (forall x :: x in drop ==> !PriceLess(drop[|drop| - 1], x))
  }

  lemma DiscardStep(all: Lookup, before: seq<Tx>, heap: seq<Tx>, drop: seq<Tx>, want: int, slots: int, tx: Tx, rest: seq<Tx>)
    requires Discarding(all, before, heap, drop, want, slots) && slots > 0
    requires multiset(heap) == multiset(rest) + multiset{tx}
    requires forall y :: y in heap <==> y in rest || y == tx
    requires forall y :: y in rest ==> !PriceLess(y, tx)
    ensures !Live(all, tx) ==> Discarding(all, before, rest, drop, want, slots)
    ensures Live(all, tx) ==> Discarding(all, before, rest, drop + [tx], want, slots - tx.Slots())
  {
    DiscardWeights(all, heap, drop, tx, rest);
    if Live(all, tx) {
      DropOne(all, before, heap, drop, want, slots, tx, rest);
    }
  }

  lemma DropOne(all: Lookup, before: seq<Tx>, heap: seq<Tx>, drop: seq<Tx>, want: int, slots: int, tx: Tx, rest: seq<Tx>)
    requires Discarding(all, before, heap, drop, want, slots) && slots > 0 && Live(all, tx)
    requires multiset(heap) == multiset(rest) + multiset{tx}
    requires forall y :: y in heap <==> y in rest || y == tx
    requires forall y :: y in rest ==> !PriceLess(y, tx)
    ensures Discarding(all, before, rest, drop + [tx], want, slots - tx.Slots())
  {
    DropWeighs(all, before, heap, drop, want, slots, tx, rest);
    DropSorts(all, before, heap, drop, tx, rest);
  }

  lemma DropWeighs(all: Lookup, before: seq<Tx>, heap: seq<Tx>, drop: seq<Tx>, want: int, slots: int, tx: Tx, rest: seq<Tx>)
    requires Weighed(all, before, heap, drop, want, slots) && slots > 0 && Live(all, tx) && multiset(heap) == multiset(rest) + multiset{tx}
    ensures Weighed(all, before, rest, drop + [tx], want, slots - tx.Slots())
  {
    DiscardWeights(all, heap, drop, tx, rest);
    assert (drop + [tx])[..|drop|] == drop;
    assert multiset(drop + [tx]) == multiset(drop) + multiset{tx};
  }

  lemma DropSorts(all: Lookup, before: seq<Tx>, heap: seq<Tx>, drop: seq<Tx>, tx: Tx, rest: seq<Tx>)
    requires Sorting(all, before, heap, drop) && Live(all, tx)
    requires forall y :: y in heap <==> y in rest || y == tx
    requires forall y :: y in rest ==> !PriceLess(y, tx)
    ensures Sorting(all, before, rest, drop + [tx])
  {
    assert (drop + [tx])[|drop|] == tx;
    assert forall x :: x in drop + [tx] <==> x in drop || x == tx;
  }

  lemma DiscardWeights(all: Lookup, heap: seq<Tx>, drop: seq<Tx>, tx: Tx, rest: seq<Tx>)
    requires multiset(heap) == multiset(rest) + multiset{tx}
    ensures LiveWeight(all, multiset(heap)) == LiveSlots(all, tx) + LiveWeight(all, multiset(rest))
    ensures LiveWeight(all, multiset(drop + [tx])) == LiveWeight(all, multiset(drop)) + LiveSlots(all, tx)
  {
    LiveWeightWith(all, multiset(rest), multiset(heap), tx);
    WeightOfAppend(all, drop, tx);
  }

  lemma DiscardDone(all: Lookup, before: seq<Tx>, heap: seq<Tx>, drop: seq<Tx>, want: int, slots: int)
    requires all.Valid() && Discarding(all, before, heap, drop, want, slots) && (heap == [] || slots <= 0)
    requires Covers(before, all, {})
    ensures slots <= 0 <==> want <= LiveWeight(all, multiset(before))
    ensures Discarded(all, before, heap, want, drop)
  {
    forall h | h in all.remotes && h !in HashesOf(drop) ensures all.remotes[h] in heap {
      assert Live(all, all.remotes[h]);
    }
  }

  lemma PutBackCovers(all: Lookup, before: seq<Tx>, heap: seq<Tx>, drop: seq<Tx>, want: int, slots: int, refilled: seq<Tx>)
    requires all.Valid() && Discarding(all, before, heap, drop, want, slots) && Covers(before, all, {})
    requires multiset(refilled) == multiset(heap) + multiset(drop)
    ensures Discarded(all, before, refilled, want, [])
  {
    forall x | x in refilled ensures x in before {
      assert x in multiset(refilled);
      assert x in multiset(before);
    }
    forall h | h in all.remotes ensures all.remotes[h] in refilled {
      assert Live(all, all.remotes[h]);
      assert all.remotes[h] in multiset(heap) || all.remotes[h] in multiset(drop);
      assert all.remotes[h] in multiset(refilled);
    }
  }

  class TxPricedList {
    var remotes: seq<Tx>
    var stales: int

    ghost predicate Valid()
      reads this
    {
      BinaryHeap.IsHeap(PriceLess, remotes)
    }

    constructor ()
      ensures Valid() && remotes == [] && stales == 0
    {
      remotes, stales := [], 0;
    }

    method Put(tx: Tx, local: bool)
      requires Valid()
      modifies this
      ensures Valid() && stales == old(stales)
      ensures local ==> remotes == old(remotes)
      ensures !local ==> multiset(remotes) == multiset(old(remotes)) + multiset{tx}
    {
      if local {
        return;
      }
      PriceOrder();
      remotes := BinaryHeap.Push(PriceLess, remotes, tx);
    }

    /** Rebuilds the heap from the live remote transactions. */
    method Reheap(all: Lookup)
      requires all.Valid()
      modifies this
      ensures Valid() && stales == 0
      ensures forall x :: x in remotes <==> Live(all, x)
      ensures forall x :: multiset(remotes)[x] <= 1
    {
      PriceOrder();
      stales := 0;
      var heap := [];
      var todo := all.remotes.Keys;
      while todo != {}
        invariant todo <= all.remotes.Keys
        invariant forall x :: x in heap <==> Live(all, x) && x.hash !in todo
        invariant forall x :: multiset(heap)[x] <= 1
        decreases todo
      {
        var h :| h in todo;
        assert all.remotes[h] !in multiset(heap);
        heap, todo := heap + [all.remotes[h]], todo - {h};
      }
      remotes := BinaryHeap.Init(PriceLess, heap);
      assert forall x :: x in remotes <==> x in multiset(remotes);
    }

    method Removed(count: nat, all: Lookup)
      requires Valid() && all.Valid()
      modifies this
      ensures Valid()
      ensures old(stales) + count <= |old(remotes)| / 4 ==> remotes == old(remotes) && stales == old(stales) + count
      ensures old(stales) + count > |old(remotes)| / 4 ==> stales == 0 && forall x :: x in remotes <==> Live(all, x)
    {
      stales := stales + count;
      if stales <= |remotes| / 4 {
        return;
      }
      Reheap(all);
    }

    /** Takes the root off the heap. */
    method PopCheapest() returns (x: Tx)
      requires Valid() && remotes != []
      modifies this
      ensures Valid() && stales == old(stales)
      ensures x == old(remotes)[0] && multiset(old(remotes)) == multiset(remotes) + multiset{x}
      ensures forall y :: y in old(remotes) <==> y in remotes || y == x
      ensures forall y :: y in remotes ==> !PriceLess(y, x)
    {
      PriceOrder();
      ghost var before := remotes;
      x, remotes := BinaryHeap.Pop(PriceLess, remotes);
      forall y ensures y in before <==> y in remotes || y == x {
        assert y in before <==> y in multiset(before);
        assert y in remotes <==> y in multiset(remotes);
      }
    }

    /** Takes stale entries off the heap until a live one surfaces. */
    method PopStale(all: Lookup)
      requires Valid() && all.Valid() && Covers(remotes, all, {})
      modifies this
      ensures Valid() && Covers(remotes, all, {}) && multiset(remotes) <= multiset(old(remotes))
      ensures forall x :: x in remotes ==> x in old(remotes)
      ensures LiveWeight(all, multiset(remotes)) == LiveWeight(all, multiset(old(remotes)))
      ensures remotes != [] ==> remotes[0].hash in all.remotes
    {
      while remotes != [] && all.GetRemote(remotes[0].hash).None?
        invariant Valid() && Covers(remotes, all, {}) && multiset(remotes) <= multiset(old(remotes))
        invariant forall x :: x in remotes ==> x in old(remotes)
        invariant LiveWeight(all, multiset(remotes)) == LiveWeight(all, multiset(old(remotes)))
        decreases |remotes|
      {
        stales := stales - 1;
        ghost var was := multiset(remotes);
        var x := PopCheapest();
        LiveWeightWith(all, multiset(remotes), was, x);
        assert |multiset(remotes)| == |was| - 1;
      }
    }

    /** A transaction is underpriced when there are live remotes and none of them is cheaper. */
    method Underpriced(tx: Tx, all: Lookup) returns (under: bool)
      requires Valid() && all.Valid() && Faithful(remotes, all) && Covers(remotes, all, {})
      modifies this
      ensures Valid() && Covers(remotes, all, {}) && multiset(remotes) <= multiset(old(remotes))
      ensures forall x :: x in remotes ==> x in old(remotes)
      ensures under <==> all.remotes != map[] && forall h :: h in all.remotes ==> all.remotes[h].gasPrice >= tx.gasPrice
      ensures LiveWeight(all, multiset(remotes)) == LiveWeight(all, multiset(old(remotes)))
    {
      PopStale(all);
      if remotes == [] {
        return false;
      }
      var cheapest := remotes[0];
      assert cheapest in remotes;
      assert Live(all, cheapest);
      CheapestIsLeast();
      return cheapest.gasPrice >= tx.gasPrice;
    }

    lemma CheapestIsLeast()
      requires Valid() && remotes != []
      ensures forall x :: x in remotes ==> !PriceLess(x, remotes[0])
    {
      PriceOrder();
      forall x | x in remotes ensures !PriceLess(x, remotes[0]) {
        var k :| 0 <= k < |remotes| && remotes[k] == x;
        BinaryHeap.RootIsLeast(PriceLess, remotes, k);
      }
    }

    /** Takes out exactly the live remotes below the threshold. */
    method Cap(threshold: nat, all: Lookup) returns (drop: seq<Tx>)
      requires Valid() && all.Valid() && Faithful(remotes, all) && Covers(remotes, all, {})
      modifies this
      ensures Valid() && Covers(remotes, all, HashesOf(drop))
      ensures forall x :: x in remotes ==> x in old(remotes)
      ensures forall x :: x in drop <==> Live(all, x) && x.gasPrice < threshold
    {
      drop := [];
      while remotes != []
        invariant Valid()
        invariant forall x :: x in remotes ==> x in old(remotes)
        invariant forall x :: x in drop ==> Live(all, x) && x.gasPrice < threshold
        invariant forall x :: Live(all, x) ==> x in remotes || x in drop
        decreases |remotes|
      {
        var cheapest := remotes[0];
        assert cheapest in remotes;
        ghost var size := |multiset(remotes)|;
        if all.GetRemote(cheapest.hash).None? {
          var x := PopCheapest();
          assert |multiset(remotes)| == size - 1;
          stales := stales - 1;
          continue;
        }
        if cheapest.gasPrice >= threshold {
          CheapestIsLeast();
          break;
        }
        var x := PopCheapest();
        assert |multiset(remotes)| == size - 1;
        drop := drop + [cheapest];
      }
      assert forall h :: h in all.remotes ==> Live(all, all.remotes[h]);
    }

    /**
     Frees `want` slots by taking out the cheapest live remotes; when they cannot free that
     much and `force` is off, everything taken out is put back.
     */
    method Discard(want: int, force: bool, all: Lookup) returns (drop: seq<Tx>, ok: bool)
      requires Valid() && all.Valid() && Faithful(remotes, all) && Covers(remotes, all, {})
      modifies this
      ensures Valid() && Discarded(all, old(remotes), remotes, want, drop)
      ensures ok <==> force || want <= LiveWeight(all, multiset(old(remotes)))
      ensures !ok ==> drop == []
      ensures ok && !force ==> LiveWeight(all, multiset(drop)) >= want
      ensures ok && LiveWeight(all, multiset(drop)) < want ==> remotes == []
    {
      ghost var before := remotes;
      var slots;
      drop, slots := TakeCheapest(want, all);
      DiscardDone(all, before, remotes, drop, want, slots);
      if slots > 0 && !force {
        ghost var heap := remotes;
        PutBack(drop);
        PutBackCovers(all, before, heap, drop, want, slots, remotes);
        return [], false;
      }
      ok := true;
    }

    /** The loop of Discard: pops until enough live slots are taken or the heap is empty. */
    method TakeCheapest(want: int, all: Lookup) returns (drop: seq<Tx>, slots: int)
      requires Valid() && Faithful(remotes, all)
      modifies this
      ensures Valid() && Discarding(all, old(remotes), remotes, drop, want, slots)
      ensures remotes == [] || slots <= 0
    {
      drop := [];
      slots := want;
      ghost var before := remotes;
      while remotes != [] && slots > 0
        invariant Valid() && Discarding(all, before, remotes, drop, want, slots)
        decreases |remotes|
      {
        drop, slots := TakeOne(before, drop, want, slots, all);
      }
    }

    method TakeOne(ghost before: seq<Tx>, drop: seq<Tx>, ghost want: int, slots: int, all: Lookup) returns (drop': seq<Tx>, slots': int)
      requires Valid() && remotes != [] && slots > 0 && Faithful(before, all)
      requires Discarding(all, before, remotes, drop, want, slots)
      modifies this
      ensures Valid() && |remotes| < |old(remotes)|
      ensures Discarding(all, before, remotes, drop', want, slots')
    {
      ghost var was := remotes;
      var tx := PopCheapest();
      assert tx in before;
      assert |multiset(was)| == |multiset(remotes)| + 1;
      DiscardStep(all, before, was, drop, want, slots, tx, remotes);
      if all.GetRemote(tx.hash).None? {
        stales := stales - 1;
        return drop, slots;
      }
      return drop + [tx], slots - tx.Slots();
    }

    method PutBack(drop: seq<Tx>)
      requires Valid()
      modifies this
      ensures Valid() && multiset(remotes) == multiset(old(remotes)) + multiset(drop)
    {
      PriceOrder();
      for i := 0 to |drop|
        invariant Valid() && multiset(remotes) == multiset(old(remotes)) + multiset(drop[..i])
      {
        assert drop[..i + 1] == drop[..i] + [drop[i]];
        remotes := BinaryHeap.Push(PriceLess, remotes, drop[i]);
      }
      assert drop[..|drop|] == drop;
    }
  }

  lemma WeightOfAppend(all: Lookup, s: seq<Tx>, x: Tx)
    ensures LiveWeight(all, multiset(s + [x])) == LiveWeight(all, multiset(s)) + LiveSlots(all, x)
  {
    LiveWeightWith(all, multiset(s), multiset(s + [x]), x);
  }

  // -------- what a full pool gives up --------

  /**
   The remotes given up for `want` slots: none is dearer than one that stays, and without the dearest of them
   not enough would have been freed.
   */
  ghost predicate GaveUp(before: Lookup, after: Lookup, want: int) {
    && after.locals == before.locals && (forall h :: h in after.remotes ==> h in before.remotes && after.remotes[h] == before.remotes[h])
    && (forall h, k :: h in before.remotes && h !in after.remotes && k in after.remotes ==> !PriceLess(after.remotes[k], before.remotes[h]))
    && (after.remotes != before.remotes ==>
          exists last :: last in before.remotes && last !in after.remotes && NeededLast(before, after, want, last))
  }

  ghost predicate NeededLast(before: Lookup, after: Lookup, want: int, last: Hash)
    requires last in before.remotes
  {
    && (forall h :: h in before.remotes && h !in after.remotes ==> !PriceLess(before.remotes[last], before.remotes[h]))
    && Total(before.remotes, SlotsOf) - Total(after.remotes, SlotsOf) - before.remotes[last].Slots() < want
  }

  lemma GaveUpBy(before: Lookup, heap0: seq<Tx>, heap: seq<Tx>, drop: seq<Tx>, after: Lookup, want: int)
    requires before.Valid() && Discarded(before, heap0, heap, want, drop)
    requires after.locals == before.locals && after.remotes == before.remotes - HashesOf(drop)
    ensures GaveUp(before, after, want)
  {
    forall h | h in before.remotes && h !in after.remotes ensures before.remotes[h] in drop {
      var x :| x in drop && x.hash == h;
      assert Live(before, x);
    }
    forall k | k in after.remotes ensures after.remotes[k] in heap && Live(before, after.remotes[k]) {
    }
    NothingDropped(before, drop);
    if after.remotes != before.remotes {
      var last := drop[|drop| - 1];
      assert last in drop && Live(before, last);
      FreedWithout(before, after, drop);
      assert NeededLast(before, after, want, last.hash);
    }
  }

  lemma NothingDropped(before: Lookup, drop: seq<Tx>)
    ensures drop == [] ==> before.remotes - HashesOf(drop) == before.remotes
  {
  }

  /** Without the last drop less is freed than the drops before it weigh. */
  lemma FreedWithout(before: Lookup, after: Lookup, drop: seq<Tx>)
    requires before.Valid() && drop != [] && (forall x :: x in drop ==> Live(before, x)) && after.remotes == before.remotes - HashesOf(drop)
    ensures var last := drop[|drop| - 1];
      Total(before.remotes, SlotsOf) - Total(after.remotes, SlotsOf) - last.Slots() <= LiveWeight(before, multiset(drop[..|drop| - 1]))
  {
    var rest, last := drop[..|drop| - 1], drop[|drop| - 1];
    assert drop == rest + [last];
    var gone := map h | h in before.remotes && h in HashesOf(drop) :: before.remotes[h];
    SplitTotal(before.remotes, after.remotes, HashesOf(drop), gone);
    assert last in drop && last.hash in gone;
    TotalRemove(gone, last.hash, SlotsOf);
    OthersEntered(before, drop, gone, rest, last);
    WeightCoversTotal(before, multiset(rest), gone - {last.hash});
  }

  lemma SplitTotal(before: map<Hash, Tx>, after: map<Hash, Tx>, hs: set<Hash>, gone: map<Hash, Tx>)
    requires after == before - hs && gone == map h | h in before && h in hs :: before[h]
    ensures Total(before, SlotsOf) == Total(gone, SlotsOf) + Total(after, SlotsOf)
  {
    UnionTotal(gone, after);
    assert gone + after == before;
  }

  lemma OthersEntered(before: Lookup, drop: seq<Tx>, gone: map<Hash, Tx>, rest: seq<Tx>, last: Tx)
    requires before.Valid() && drop == rest + [last] && (forall x :: x in drop ==> Live(before, x))
    requires gone == map h | h in before.remotes && h in HashesOf(drop) :: before.remotes[h]
    ensures Entered(before, multiset(rest), gone - {last.hash})
  {
    forall h | h in gone - {last.hash} ensures gone[h].hash == h && Live(before, gone[h]) && gone[h] in multiset(rest) {
      var x :| x in drop && x.hash == h;
      assert x in rest;
    }
  }

  /** Without live repeats the heap weighs what the live remotes take. */
  lemma HonestWeight(all: Lookup, heap: seq<Tx>)
    requires all.Valid() && Covers(heap, all, {}) && NoLiveTwice(all, multiset(heap))
    ensures LiveWeight(all, multiset(heap)) == Total(all.remotes, SlotsOf)
  {
    assert forall h :: h in all.remotes ==> all.remotes[h] in multiset(heap);
    WeightCoversTotal(all, multiset(heap), all.remotes);
  }

  // -------- when the slots counted by Discard are really freed --------

  /** No live transaction has two heap entries. */
  ghost predicate NoLiveTwice(all: Lookup, m: multiset<Tx>) {
    forall x :: x in m && Live(all, x) ==> m[x] == 1
  }

  lemma {:induction false} NoLiveWeight(all: Lookup, m: multiset<Tx>)
    requires forall x :: x in m ==> !Live(all, x)
    ensures LiveWeight(all, m) == 0
    decreases |m|
  {
    if |m| > 0 {
      var x :| x in m;
      LiveWeightTake(all, m, x);
      NoLiveWeight(all, m - multiset{x});
    }
  }

  ghost predicate Entered(all: Lookup, m: multiset<Tx>, r: map<Hash, Tx>) {
    forall h :: h in r ==> r[h].hash == h && Live(all, r[h]) && r[h] in m
  }

  ghost predicate NoOthers(all: Lookup, m: multiset<Tx>, r: map<Hash, Tx>) {
    NoLiveTwice(all, m) && forall x :: x in m && Live(all, x) ==> x.hash in r
  }

  lemma TakeEntry(all: Lookup, m: multiset<Tx>, r: map<Hash, Tx>, h: Hash)
    requires Entered(all, m, r) && h in r
    ensures Entered(all, m - multiset{r[h]}, r - {h})
    ensures NoOthers(all, m, r) ==> NoOthers(all, m - multiset{r[h]}, r - {h})
  {
    var m' := m - multiset{r[h]};
    assert forall x :: x != r[h] ==> m'[x] == m[x];
    if NoOthers(all, m, r) {
      assert m[r[h]] == 1 && m'[r[h]] == 0;
      forall x | x in m' && Live(all, x) ensures x.hash in r - {h} {
        assert x in m;
      }
    }
  }

  /** Entries for all of `r` weigh at least the slots of `r`, and exactly that when there are no others. */
  lemma {:induction false} WeightCoversTotal(all: Lookup, m: multiset<Tx>, r: map<Hash, Tx>)
    requires Entered(all, m, r)
    ensures LiveWeight(all, m) >= Total(r, SlotsOf)
    ensures NoOthers(all, m, r) ==> LiveWeight(all, m) == Total(r, SlotsOf)
    decreases |r|
  {
    if r == map[] {
      if NoOthers(all, m, r) {
        NoLiveWeight(all, m);
      }
    } else {
      var h :| h in r;
      TotalRemove(r, h, SlotsOf);
      LiveWeightTake(all, m, r[h]);
      TakeEntry(all, m, r, h);
      WeightCoversTotal(all, m - multiset{r[h]}, r - {h});
    }
  }

  /**
   Discard without force succeeds for every request up to the live weight of the heap, while
   at most the slots of the live remotes can be freed. The two agree if and only if no live
   transaction sits in the heap twice; otherwise Discard promises too much.
   */
  lemma DiscardHonestIff(all: Lookup, heap: seq<Tx>)
    requires all.Valid() && Covers(heap, all, {})
    requires forall h :: h in all.remotes ==> all.remotes[h].Slots() > 0
    ensures LiveWeight(all, multiset(heap)) >= Total(all.remotes, SlotsOf)
    ensures NoLiveTwice(all, multiset(heap)) <==> LiveWeight(all, multiset(heap)) == Total(all.remotes, SlotsOf)
  {
    var m := multiset(heap);
    assert forall h :: h in all.remotes ==> all.remotes[h] in m;
    WeightCoversTotal(all, m, all.remotes);
    if x :| x in m && Live(all, x) && m[x] != 1 {
      RepeatedWeighsMore(all, m, x);
    }
  }

  lemma RepeatedWeighsMore(all: Lookup, m: multiset<Tx>, x: Tx)
    requires all.Valid() && (forall h :: h in all.remotes ==> all.remotes[h] in m)
    requires Live(all, x) && m[x] > 1 && x.Slots() > 0
    ensures LiveWeight(all, m) > Total(all.remotes, SlotsOf)
  {
    LiveWeightTake(all, m, x);
    WeightCoversTotal(all, m - multiset{x}, all.remotes);
  }

  ghost predicate Distinct(s: seq<Tx>) {
    forall i, j :: 0 <= i < j < |s| ==> s[i] != s[j]
  }

  /** What Discard takes out of a heap without live repeats has no repeats. */
  lemma DropsAreDistinct(all: Lookup, m: multiset<Tx>, drop: seq<Tx>)
    requires NoLiveTwice(all, m) && multiset(drop) <= m && forall x :: x in drop ==> Live(all, x)
    ensures Distinct(drop)
  {
    forall i, j | 0 <= i < j < |drop| ensures drop[i] != drop[j] {
      var x := drop[j];
      assert drop == drop[..j] + [x] + drop[j + 1..];
      assert multiset(drop)[x] == multiset(drop[..j])[x] + 1 + multiset(drop[j + 1..])[x];
      assert x in multiset(drop);
      assert drop[i] in drop[..j];
    }
  }

  /** Without repeats, dropping `drop` frees exactly the slots that were counted. */
  lemma {:induction false} FreedSlots(all: Lookup, drop: seq<Tx>)
    requires all.Valid() && (forall x :: x in drop ==> Live(all, x)) && Distinct(drop)
    ensures Total(all.remotes, SlotsOf) == Total(all.remotes - HashesOf(drop), SlotsOf) + LiveWeight(all, multiset(drop))
    decreases |drop|
  {
    if drop == [] {
      assert all.remotes - HashesOf(drop) == all.remotes;
    } else {
      var rest, x := drop[..|drop| - 1], drop[|drop| - 1];
      assert drop == rest + [x];
      FreedSlots(all, rest);
      WeightOfAppend(all, rest, x);
      LastHashIsNew(all, rest, x);
      TotalWithout(all.remotes, HashesOf(rest), x.hash);
    }
  }

  lemma TotalWithout(r: map<Hash, Tx>, hs: set<Hash>, h: Hash)
    requires h in r && h !in hs
    ensures Total(r - hs, SlotsOf) == Total(r - (hs + {h}), SlotsOf) + r[h].Slots()
  {
    TotalRemove(r - hs, h, SlotsOf);
    assert r - (hs + {h}) == (r - hs) - {h};
  }

  lemma LastHashIsNew(all: Lookup, rest: seq<Tx>, x: Tx)
    requires (forall y :: y in rest ==> Live(all, y)) && Live(all, x) && x !in rest
    ensures x.hash !in HashesOf(rest)
    ensures HashesOf(rest + [x]) == HashesOf(rest) + {x.hash}
  {
  }

  ghost predicate DistinctHashes(s: seq<Tx>) {
    forall i, j :: 0 <= i < j < |s| ==> s[i].hash != s[j].hash
  }

  /** The heap and the lookup hold just the remote transactions `s`. */
  ghost predicate Holding(heap: seq<Tx>, all: Lookup, s: seq<Tx>) {
    && multiset(heap) == multiset(s) && all.Valid() && all.locals == map[]
    && all.remotes.Keys == HashesOf(s) && forall x :: x in s ==> Live(all, x)
  }

  lemma HoldingMore(heap: seq<Tx>, heap': seq<Tx>, all: Lookup, s: seq<Tx>, x: Tx)
    requires Holding(heap, all, s) && x.hash !in HashesOf(s) && multiset(heap') == multiset(heap) + multiset{x}
    ensures Holding(heap', all.Add(x, false), s + [x])
  {
  }

  method PutAll(txs: seq<Tx>) returns (list: TxPricedList, all: Lookup)
    requires DistinctHashes(txs)
    ensures fresh(list) && list.Valid() && list.stales == 0 && Holding(list.remotes, all, txs)
  {
    list := new TxPricedList();
    all := Lookup(map[], map[], 0);
    for i := 0 to |txs|
      invariant fresh(list) && list.Valid() && list.stales == 0 && Holding(list.remotes, all, txs[..i])
    {
      assert txs[..i + 1] == txs[..i] + [txs[i]];
      ghost var heap := list.remotes;
      list.Put(txs[i], false);
      HoldingMore(heap, list.remotes, all, txs[..i], txs[i]);
      all := all.Add(txs[i], false);
    }
    assert txs[..|txs|] == txs;
  }

  /**
   How a live transaction comes to sit in the heap twice: one of at least four remote transactions
   leaves the pool, which is too few to rebuild the heap, and comes back. Discard then promises more
   slots than all live transactions together have.
   */
  method DiscardCountsTwice(txs: seq<Tx>, x: Tx) returns (drop: seq<Tx>, ok: bool, all: Lookup)
    requires DistinctHashes(txs) && |txs| >= 4 && x in txs && forall y :: y in txs ==> y.Slots() == 1
    ensures ok && LiveWeight(all, multiset(drop)) > Total(all.remotes, SlotsOf) == |txs|
  {
    var list;
    list, all := PutAll(txs);
    ghost var whole := all;
    assert |multiset(list.remotes)| == |txs|;
    list.Removed(1, all.Remove(x.hash));
    all := all.Remove(x.hash).Add(x, false);
    assert all.remotes == whole.remotes;
    list.Put(x, false);
    TwiceInHeap(list.remotes, all, txs, x);
    drop, ok := list.Discard(|txs| + 1, false, all);
  }

  lemma TwiceInHeap(heap: seq<Tx>, all: Lookup, txs: seq<Tx>, x: Tx)
    requires Holding(txs, all, txs) && x in txs && DistinctHashes(txs) && multiset(heap) == multiset(txs) + multiset{x}
    requires forall y :: y in txs ==> y.Slots() == 1
    ensures Faithful(heap, all) && Covers(heap, all, {})
    ensures LiveWeight(all, multiset(heap)) > Total(all.remotes, SlotsOf) == |txs|
  {
    forall y ensures y in heap <==> y in txs {
      assert y in heap <==> y in multiset(heap);
      assert y in txs <==> y in multiset(txs);
    }
    assert x in multiset(txs);
    RepeatedWeighsMore(all, multiset(heap), x);
    FreedSlots(all, txs);
    OneEach(all, txs);
    assert all.remotes - HashesOf(txs) == map[];
  }

  lemma {:induction false} OneEach(all: Lookup, s: seq<Tx>)
    requires forall x :: x in s ==> Live(all, x) && x.Slots() == 1
    ensures LiveWeight(all, multiset(s)) == |s|
  {
    if s != [] {
      var n := |s| - 1;
      OneEach(all, s[..n]);
      WeightOfAppend(all, s[..n], s[n]);
      assert s == s[..n] + [s[n]];
    }
  }
}
