/**
 The heap-indexed nonce map of the pool and the per-account list built on it. Every
 operation is measured against the plain maps and the value lists: the index stays a
 duplicate-free heap of exactly the stored nonces, and a cache, when present, is the
 nonce-sorted content.
 */
module SortedMaps {
  import opened Transactions
  import opened NonceMaps
  import opened TxLists
  import BinaryHeap
  import NatSets

  predicate NonceLess(a: nat, b: nat) { a < b }

  lemma NonceOrder()
    ensures BinaryHeap.IsOrder(NonceLess)
  {
  }

  /** A heap of exactly these nonces, each once. */
  ghost predicate Indexed(keys: set<nat>, h: seq<nat>) {
    BinaryHeap.IsHeap(NonceLess, h) && multiset(h) == multiset(keys)
  }

  /** The top of the index is the lowest nonce. */
  lemma TopIsLeast(keys: set<nat>, h: seq<nat>)
    requires Indexed(keys, h) && h != []
    ensures h[0] in keys && NatSets.Least(keys) == h[0]
  {
    NonceOrder();
    assert h[0] in multiset(h);
    forall n | n in keys ensures h[0] <= n {
      assert n in multiset(h);
      var i :| 0 <= i < |h| && h[i] == n;
      BinaryHeap.RootIsLeast(NonceLess, h, i);
    }
  }

  lemma EmptyIndex(keys: set<nat>, h: seq<nat>)
    requires Indexed(keys, h)
    ensures h == [] <==> keys == {}
  {
    assert forall n :: n in keys <==> n in multiset(keys);
    assert forall n :: n in multiset(h) <==> n in h;
    if h != [] {
      assert h[0] in keys;
    }
  }

  /** Every transaction of `m` is listed exactly once, and no other. */
  ghost predicate Enumerates(s: seq<Tx>, m: Txs) {
    forall x :: multiset(s)[x] == if x.nonce in m && m[x.nonce] == x then 1 else 0
  }

  lemma EnumeratesNext(s: seq<Tx>, m: Txs, x: Tx)
    requires Enumerates(s, m) && x.nonce !in m
    ensures Enumerates(s + [x], m[x.nonce := x])
  {
    assert multiset(s + [x]) == multiset(s) + multiset{x};
  }

  lemma EnumeratesEmpty(s: seq<Tx>, m: Txs)
    requires Filed(m) && Enumerates(s, m)
    ensures s == [] <==> m == map[]
  {
    if s != [] {
      assert multiset(s)[s[0]] > 0;
    }
    if m != map[] {
      var n :| n in m;
      assert multiset(s)[m[n]] == 1;
      assert m[n] in s;
    }
  }

  // -------- sorting --------

  ghost predicate SortedBy<T>(s: seq<T>, key: T -> nat) {
    forall i, j :: 0 <= i < j < |s| ==> key(s[i]) <= key(s[j])
  }

  method SortBy<T>(s: seq<T>, key: T -> nat) returns (r: seq<T>)
    ensures SortedBy(r, key) && multiset(r) == multiset(s)
  {
    r := [];
    for i := 0 to |s|
      invariant SortedBy(r, key) && multiset(r) == multiset(s[..i])
    {
      assert s[..i + 1] == s[..i] + [s[i]];
      r := InsertBy(r, s[i], key);
    }
    assert s[..|s|] == s;
  }

  method InsertBy<T>(s: seq<T>, x: T, key: T -> nat) returns (r: seq<T>)
    requires SortedBy(s, key)
    ensures SortedBy(r, key) && multiset(r) == multiset(s) + multiset{x}
  {
    var k := |s|;
    while k > 0 && key(s[k - 1]) > key(x)
      invariant 0 <= k <= |s|
      invariant forall i :: k <= i < |s| ==> key(s[i]) > key(x)
    {
      k := k - 1;
    }
    r := s[..k] + [x] + s[k..];
    InsertionSame(s, x, k);
    InsertionSorted(s, x, k, key, r);
  }

  lemma InsertionSame<T>(s: seq<T>, x: T, k: nat)
    requires k <= |s|
    ensures multiset(s[..k] + [x] + s[k..]) == multiset(s) + multiset{x}
  {
    assert s == s[..k] + s[k..];
  }

  lemma InsertionSorted<T>(s: seq<T>, x: T, k: nat, key: T -> nat, r: seq<T>)
    requires SortedBy(s, key) && k <= |s| && (forall i :: k <= i < |s| ==> key(s[i]) > key(x)) && (k > 0 ==> key(s[k - 1]) <= key(x))
    requires |r| == |s| + 1 && r[k] == x && (forall i :: 0 <= i < k ==> r[i] == s[i]) && (forall i :: k < i < |r| ==> r[i] == s[i - 1])
    ensures SortedBy(r, key)
  {
    forall i, j | 0 <= i < j < |r| ensures key(r[i]) <= key(r[j]) {
      if j == k {
        assert i == k - 1 || key(s[i]) <= key(s[k - 1]);
      } else if i != k {
        var i', j' := if i < k then i else i - 1, if j < k then j else j - 1;
        assert r[i] == s[i'] && r[j] == s[j'] && i' < j';
      }
    }
  }

  /** A set's sorted listing is the only sorted sequence with the same elements. */
  lemma SortedNonces(keys: set<nat>, s: seq<nat>)
    requires multiset(s) == multiset(keys) && SortedBy(s, n => n)
    ensures s == NatSets.Sorted(keys)
  {
    forall i, j | 0 <= i < j < |s| ensures s[i] < s[j] {
      TwiceInSeq(s, i, j);
      assert multiset(keys)[s[i]] <= 1;
    }
    forall n ensures n in s <==> n in NatSets.Sorted(keys) {
      assert n in s <==> n in multiset(s);
      assert n in keys <==> n in multiset(keys);
    }
    NatSets.AscendingUnique(s, NatSets.Sorted(keys));
  }

  lemma TwiceInSeq<T>(s: seq<T>, i: nat, j: nat)
    requires i < j < |s|
    ensures s[i] == s[j] ==> multiset(s)[s[i]] >= 2
  {
    assert s == s[..i] + [s[i]] + s[i + 1..j] + [s[j]] + s[j + 1..];
  }

  lemma {:induction false} SortedMultiset(keys: set<nat>)
    ensures multiset(NatSets.Sorted(keys)) == multiset(keys)
    decreases |keys|
  {
    if keys == {} {
      assert NatSets.Sorted(keys) == [];
    } else {
      var n := NatSets.Least(keys);
      var rest := NatSets.Sorted(keys - {n});
      SortedMultiset(keys - {n});
      assert NatSets.Sorted(keys) == [n] + rest;
      assert keys == (keys - {n}) + {n};
    }
  }

  lemma KeysAdd(keys: set<nat>, n: nat)
    requires n !in keys
    ensures multiset(keys + {n}) == multiset(keys) + multiset{n}
  {
  }

  lemma KeysRemove(keys: set<nat>, n: nat)
    requires n in keys
    ensures multiset(keys) == multiset(keys - {n}) + multiset{n}
  {
    assert keys == (keys - {n}) + {n};
  }

  // -------- sorted contents --------

  /** The lowest transaction from `c` on comes next in the sorted listing. */
  lemma FlatNext(m: Txs, c: nat, n: nat)
    requires n in m && c <= n && forall k :: c <= k < n ==> k !in m
    ensures Flat(Below(m, n + 1)) == Flat(Below(m, c)) + [m[n]]
    ensures From(m, n + 1) == From(m, c) - {n}
  {
    CutsAround(m, c, n);
    FlatLast(Below(m, n + 1), n);
  }

  lemma CutsAround(m: Txs, c: nat, n: nat)
    requires n in m && c <= n && forall k :: c <= k < n ==> k !in m
    ensures Below(m, n + 1) - {n} == Below(m, c)
    ensures From(m, n + 1) == From(m, c) - {n}
  {
  }

  /** The only sorted enumeration of a map is its sorted listing. */
  lemma {:induction false} FlatUnique(m: Txs, s: seq<Tx>)
    requires Filed(m) && Enumerates(s, m) && SortedBy(s, (x: Tx) => x.nonce)
    ensures s == Flat(m)
    decreases |s|
  {
    EnumeratesEmpty(s, m);
    if s != [] {
      var rest, x := TakeLast(m, s);
      FlatUnique(m - {x.nonce}, rest);
    }
  }

  lemma TakeLast(m: Txs, s: seq<Tx>) returns (rest: seq<Tx>, x: Tx)
    requires Filed(m) && Enumerates(s, m) && SortedBy(s, (x: Tx) => x.nonce) && s != []
    ensures s == rest + [x] && x.nonce in m && Flat(m) == Flat(m - {x.nonce}) + [x]
    ensures Filed(m - {x.nonce}) && Enumerates(rest, m - {x.nonce}) && SortedBy(rest, (x: Tx) => x.nonce)
  {
    rest, x := s[..|s| - 1], s[|s| - 1];
    LastIsHighest(m, s);
    FlatLast(m, x.nonce);
    WithoutLast(m, s, rest, x);
  }

  lemma LastIsHighest(m: Txs, s: seq<Tx>)
    requires Filed(m) && Enumerates(s, m) && SortedBy(s, (x: Tx) => x.nonce) && s != []
    ensures var x := s[|s| - 1]; x.nonce in m && m[x.nonce] == x && forall n :: n in m ==> n <= x.nonce
  {
    var x := s[|s| - 1];
    assert multiset(s)[x] > 0;
    forall n | n in m ensures n <= x.nonce {
      assert multiset(s)[m[n]] == 1;
      var i :| 0 <= i < |s| && s[i] == m[n];
    }
  }

  lemma WithoutLast(m: Txs, s: seq<Tx>, rest: seq<Tx>, x: Tx)
    requires Enumerates(s, m) && s == rest + [x] && x.nonce in m && m[x.nonce] == x
    ensures Enumerates(rest, m - {x.nonce})
  {
    assert multiset(s) == multiset(rest) + multiset{x};
    forall y ensures multiset(rest)[y] == if y.nonce in m - {x.nonce} && m[y.nonce] == y then 1 else 0 {
      assert multiset(s)[y] == multiset(rest)[y] + if y == x then 1 else 0;
    }
  }

  lemma NothingBetween(before: Txs, cut: nat, keys: set<nat>, index: seq<nat>)
    requires keys == From(before, cut).Keys && Indexed(keys, index) && index != []
    ensures index[0] in before && index[0] >= cut && forall k: nat :: cut <= k < index[0] ==> k !in before
  {
    TopIsLeast(keys, index);
    forall k: nat | cut <= k < index[0] ensures k !in before {
      assert k in before ==> k in keys;
    }
  }

  lemma IndexShrinks(keys: set<nat>, index: seq<nat>, n: nat, rest: seq<nat>)
    requires multiset(index) == multiset(keys) && n in keys && BinaryHeap.IsHeap(NonceLess, rest)
    requires multiset(index) == multiset(rest) + multiset{n}
    ensures Indexed(keys - {n}, rest)
  {
    KeysRemove(keys, n);
    assert multiset(rest) == multiset(index) - multiset{n};
    assert multiset(keys - {n}) == multiset(keys) - multiset{n};
  }

  lemma PopStep(before: Txs, cut: nat, items: Txs, tx: Tx)
    requires Filed(items) && items == From(before, cut) && tx.nonce in items && tx == items[tx.nonce]
    requires forall k: nat :: cut <= k < tx.nonce ==> k !in before
    ensures Filed(items - {tx.nonce}) && (items - {tx.nonce}).Keys == items.Keys - {tx.nonce}
    ensures items - {tx.nonce} == From(before, tx.nonce + 1)
    ensures Flat(Below(before, tx.nonce + 1)) == Flat(Below(before, cut)) + [tx]
  {
    FlatNext(before, cut, tx.nonce);
  }

  method PopIndex(ghost keys: set<nat>, index: seq<nat>) returns (n: nat, rest: seq<nat>)
    requires Indexed(keys, index) && index != []
    ensures n == index[0] && n in keys && Indexed(keys - {n}, rest)
  {
    NonceOrder();
    TopIsLeast(keys, index);
    n, rest := BinaryHeap.Pop(NonceLess, index);
    IndexShrinks(keys, index, n, rest);
  }

  class TxSortedMap {
    var items: Txs
    var index: seq<nat>
    var cache: Option<seq<Tx>>

    ghost predicate Valid()
      reads this
    {
      Filed(items) && Indexed(items.Keys, index) && Cached()
    }

    ghost predicate Cached()
      reads this
    {
      cache.Some? ==> cache.value == Flat(items)
    }

    constructor ()
      ensures Valid() && items == map[]
    {
      items, index, cache := map[], [], None;
    }

    method Put(tx: Tx)
      requires Valid()
      modifies this
      ensures Valid() && items == old(items)[tx.nonce := tx]
    {
      NonceOrder();
      if tx.nonce !in items {
        KeysAdd(items.Keys, tx.nonce);
        index := BinaryHeap.Push(NonceLess, index, tx.nonce);
      }
      ghost var keys := items.Keys;
      items, cache := items[tx.nonce := tx], None;
      assert items.Keys == keys + {tx.nonce};
      assert tx.nonce in keys ==> items.Keys == keys;
    }

    /** Takes the lowest entry out; everything below it must be gone already. */
    method PopLowest(ghost before: Txs, ghost cut: nat) returns (tx: Tx)
      requires Filed(items) && Indexed(items.Keys, index) && index != [] && items == From(before, cut)
      modifies this`items, this`index
      ensures Filed(items) && Indexed(items.Keys, index)
      ensures tx.nonce == old(index[0]) && tx.nonce >= cut && tx.nonce in before
      ensures items == From(before, tx.nonce + 1)
      ensures Flat(Below(before, tx.nonce + 1)) == Flat(Below(before, cut)) + [tx]
    {
      NothingBetween(before, cut, items.Keys, index);
      var nonce, rest := PopIndex(items.Keys, index);
      tx := items[nonce];
      PopStep(before, cut, items, tx);
      index := rest;
      items := items - {tx.nonce};
    }

    /** Removes everything below `t`, lowest first. */
    method Forward(t: nat) returns (removed: seq<Tx>)
      requires Valid()
      modifies this
      ensures Valid() && items == From(old(items), t) && removed == Flat(Below(old(items), t))
    {
      removed := PopBelow(t);
      FlatSplit(old(items), t);
      if cache.Some? {
        cache := Some(cache.value[|removed|..]);
      }
    }

    method PopBelow(t: nat) returns (removed: seq<Tx>)
      requires Filed(items) && Indexed(items.Keys, index)
      modifies this`items, this`index
      ensures Filed(items) && Indexed(items.Keys, index)
      ensures items == From(old(items), t) && removed == Flat(Below(old(items), t))
    {
      ghost var before := items;
      removed := [];
      ghost var cut: nat := 0;
      ForwardStart(before);
      while index != [] && index[0] < t
        invariant Filed(items) && Indexed(items.Keys, index)
        invariant items == From(before, cut) && removed == Flat(Below(before, cut)) && cut <= t
        decreases t - cut
      {
        var tx := PopLowest(before, cut);
        removed := removed + [tx];
        cut := tx.nonce + 1;
      }
      ForwardDone(before, cut, t, items.Keys, index);
    }

    /** Takes the consecutive run from the lowest nonce, if that is not above `start`. */
    method Ready(start: nat) returns (ready: seq<Tx>)
      requires Valid()
      modifies this
      ensures Valid()
      ensures old(items) == map[] || NatSets.Least(old(items.Keys)) > start ==> items == old(items) && ready == []
      ensures old(items) != map[] && NatSets.Least(old(items.Keys)) <= start ==>
        var run := RunFrom(old(items), NatSets.Least(old(items.Keys)));
        items == old(items) - run.Keys && ready == Flat(run)
    {
      EmptyIndex(items.Keys, index);
      if index != [] {
        TopIsLeast(items.Keys, index);
      }
      if index == [] || index[0] > start {
        return [];
      }
      ready := PopRun();
      cache := None;
    }

    method PopRun() returns (ready: seq<Tx>)
      requires Filed(items) && Indexed(items.Keys, index) && index != [] && items != map[] && NatSets.Least(items.Keys) == index[0]
      modifies this`items, this`index
      ensures Filed(items) && Indexed(items.Keys, index)
      ensures var run := RunFrom(old(items), NatSets.Least(old(items.Keys)));
        items == old(items) - run.Keys && ready == Flat(run)
    {
      ghost var before, lo := items, index[0];
      RunStart(before, lo);
      var next;
      ready, next := PopConsecutive(before, lo, NatSets.RunEnd(before.Keys, lo));
      RunDone(before, lo, next, items.Keys, index);
    }

    method PopConsecutive(ghost before: Txs, ghost lo: nat, ghost bound: nat) returns (ready: seq<Tx>, end: nat)
      requires Filed(items) && Indexed(items.Keys, index) && index != [] && index[0] == lo
      requires items == From(before, lo) && Flat(Below(before, lo)) == [] && lo <= bound && bound !in before
      modifies this`items, this`index
      ensures Filed(items) && Indexed(items.Keys, index) && (index == [] || index[0] != end)
      ensures items == From(before, end) && ready == Flat(Below(before, end)) && lo <= end <= bound
    {
      ready, end := [], index[0];
      while index != [] && index[0] == end
        invariant Filed(items) && Indexed(items.Keys, index)
        invariant items == From(before, end) && ready == Flat(Below(before, end)) && lo <= end <= bound
        decreases bound - end
      {
        var tx := PopLowest(before, end);
        NotTheBound(before, tx.nonce, bound);
        ready, end := ready + [tx], tx.nonce + 1;
      }
    }

    /** Drops what `drop` selects, leaving the index for a later reheap. */
    method Sift(drop: Tx -> bool) returns (removed: seq<Tx>)
      requires Filed(items) && Cached()
      modifies this`items, this`cache
      ensures Filed(items) && Cached()
      ensures items == Kept(old(items), drop) && Enumerates(removed, Gone(old(items), drop))
    {
      ghost var before := items;
      var todo := items.Keys;
      removed := [];
      SiftStart(before, drop);
      while todo != {}
        invariant Sifting(before, drop, todo, items, removed) && cache == old(cache)
        decreases todo
      {
        var n :| n in todo;
        SiftStep(before, drop, todo, items, removed, n);
        if drop(items[n]) {
          removed := removed + [items[n]];
          items := items - {n};
        }
        todo := todo - {n};
      }
      SiftDone(before, drop, items, removed);
      if removed != [] {
        cache := None;
      }
    }

    method Reheap()
      requires Filed(items)
      modifies this`index, this`cache
      ensures Valid()
    {
      NonceOrder();
      var listed := List(items.Keys);
      index := BinaryHeap.Init(NonceLess, listed);
      cache := None;
    }

    method Filter(drop: Tx -> bool) returns (removed: seq<Tx>)
      requires Valid()
      modifies this
      ensures Valid() && items == Kept(old(items), drop) && Enumerates(removed, Gone(old(items), drop))
    {
      removed := Sift(drop);
      if removed != [] {
        Reheap();
      } else {
        NothingGone(old(items), drop, removed);
      }
    }

    /** Keeps the `k` lowest entries; the others are returned from the highest down. */
    method Cap(k: nat) returns (drops: seq<Tx>)
      requires Valid()
      modifies this
      ensures Valid() && items == Lowest(old(items), k)
      ensures |drops| == |old(items)| - |items| && FromTheTop(drops, Flat(old(items)))
    {
      LowestSize(items, k);
      if |items| <= k {
        return [];
      }
      var sorted := SortIndex(items, index, k);
      drops := CutTop(k, sorted, Flat(items));
      index := CutIndex(items.Keys, k, sorted);
      FlatLowest(old(items), k);
      if cache.Some? {
        cache := Some(cache.value[..|cache.value| - |drops|]);
      }
    }

    method CutTop(k: nat, sorted: seq<nat>, ghost flat: seq<Tx>) returns (drops: seq<Tx>)
      requires Filed(items) && k < |items| && Tops(items, sorted, flat)
      modifies this`items
      ensures Filed(items) && items == Lowest(old(items), k)
      ensures |drops| == |old(items)| - k && FromTheTop(drops, flat)
    {
      ghost var before := items;
      LowestSize(before, |before|);
      drops := [];
      var size := |items|;
      while size > k
        invariant k <= size <= |before| && items == Lowest(before, size)
        invariant |drops| == |before| - size && FromTheTop(drops, flat)
      {
        var n := sorted[size - 1];
        drops := drops + [items[n]];
        items := items - {n};
        size := size - 1;
      }
    }

    method Remove(nonce: nat) returns (found: bool)
      requires Valid()
      modifies this
      ensures Valid() && items == old(items) - {nonce} && found == (nonce in old(items))
    {
      found := nonce in items;
      if !found {
        assert items - {nonce} == items;
        return;
      }
      var rest := RemoveIndex(items.Keys, index, nonce);
      index := rest;
      ghost var keys := items.Keys;
      items, cache := items - {nonce}, None;
      assert items.Keys == keys - {nonce};
    }

    /** The contents by increasing nonce, sorted only when no sorting is at hand. */
    method Flatten() returns (txs: seq<Tx>)
      requires Valid()
      modifies this`cache
      ensures Valid() && txs == Flat(items)
    {
      if cache.None? {
        var sorted := Sorted(items);
        cache := Some(sorted);
      }
      txs := cache.value;
    }

    method LastElement() returns (tx: Tx)
      requires Valid() && items != map[]
      modifies this`cache
      ensures Valid() && tx == items[NatSets.Greatest(items.Keys)]
    {
      var txs := Flatten();
      tx := txs[|txs| - 1];
    }
  }

  lemma ForwardStart(m: Txs)
    ensures From(m, 0) == m && Flat(Below(m, 0)) == []
  {
    assert Below(m, 0) == map[];
  }

  lemma ForwardDone(m: Txs, cut: nat, t: nat, keys: set<nat>, index: seq<nat>)
    requires keys == From(m, cut).Keys && cut <= t && Indexed(keys, index) && (index == [] || index[0] >= t)
    ensures From(m, cut) == From(m, t) && Flat(Below(m, cut)) == Flat(Below(m, t))
  {
    EmptyIndex(keys, index);
    if index != [] {
      TopIsLeast(keys, index);
    }
    forall n | n in m && n >= cut ensures n >= t {
      assert n in keys;
    }
    assert Below(m, cut) == Below(m, t);
  }

  lemma NotTheBound(m: Txs, n: nat, bound: nat)
    requires n in m && bound !in m
    ensures n != bound
  {
  }

  lemma RunStart(m: Txs, lo: nat)
    requires m != map[] && NatSets.Least(m.Keys) == lo
    ensures From(m, lo) == m && Flat(Below(m, lo)) == []
  {
    assert NatSets.IsLeast(m.Keys, lo);
    assert Below(m, lo) == map[];
  }

  lemma RunDone(m: Txs, lo: nat, next: nat, keys: set<nat>, index: seq<nat>)
    requires m != map[] && NatSets.Least(m.Keys) == lo && lo <= next <= NatSets.RunEnd(m.Keys, lo)
    requires keys == From(m, next).Keys && Indexed(keys, index) && (index == [] || index[0] != next)
    ensures From(m, next) == m - RunFrom(m, lo).Keys && Flat(Below(m, next)) == Flat(RunFrom(m, lo))
  {
    EmptyIndex(keys, index);
    if index != [] {
      TopIsLeast(keys, index);
      assert NatSets.IsLeast(keys, index[0]) && index[0] >= next;
    }
    assert next in m ==> next in keys;
    assert NatSets.IsLeast(m.Keys, lo);
    assert Below(m, next) == RunFrom(m, lo);
  }

  function Kept(m: Txs, drop: Tx -> bool): Txs { map n | n in m && !drop(m[n]) :: m[n] }

  function Gone(m: Txs, drop: Tx -> bool): Txs { map n | n in m && drop(m[n]) :: m[n] }

  /** The entries with nonce in `todo` are still to be looked at. */
  ghost predicate Sifting(before: Txs, drop: Tx -> bool, todo: set<nat>, items: Txs, removed: seq<Tx>) {
    && todo <= before.Keys && Filed(before)
    && items == (map n | n in before && (n in todo || !drop(before[n])) :: before[n])
    && Enumerates(removed, map n | n in before && n !in todo && drop(before[n]) :: before[n])
  }

  lemma SiftStart(before: Txs, drop: Tx -> bool)
    requires Filed(before)
    ensures Sifting(before, drop, before.Keys, before, [])
  {
  }

  lemma SiftStep(before: Txs, drop: Tx -> bool, todo: set<nat>, items: Txs, removed: seq<Tx>, n: nat)
    requires Sifting(before, drop, todo, items, removed) && n in todo
    ensures n in items
    ensures drop(items[n]) ==> Sifting(before, drop, todo - {n}, items - {n}, removed + [items[n]])
    ensures !drop(items[n]) ==> Sifting(before, drop, todo - {n}, items, removed)
  {
    SiftMaps(before, drop, todo, n);
    if drop(before[n]) {
      EnumeratesNext(removed, map k | k in before && k !in todo && drop(before[k]) :: before[k], before[n]);
    }
  }

  lemma SiftMaps(before: Txs, drop: Tx -> bool, todo: set<nat>, n: nat)
    requires n in before && n in todo
    ensures var gone := map k | k in before && k !in todo && drop(before[k]) :: before[k];
      (map k | k in before && k !in todo - {n} && drop(before[k]) :: before[k]) == if drop(before[n]) then gone[n := before[n]] else gone
    ensures var kept := map k | k in before && (k in todo || !drop(before[k])) :: before[k];
      (map k | k in before && (k in todo - {n} || !drop(before[k])) :: before[k]) == if drop(before[n]) then kept - {n} else kept
  {
  }

  lemma SiftDone(before: Txs, drop: Tx -> bool, items: Txs, removed: seq<Tx>)
    requires Sifting(before, drop, {}, items, removed)
    ensures Filed(items) && items == Kept(before, drop) && Enumerates(removed, Gone(before, drop))
    ensures removed == [] ==> items == before
  {
    assert Gone(before, drop) == map n | n in before && n !in {} && drop(before[n]) :: before[n];
    EnumeratesEmpty(removed, Gone(before, drop));
  }

  lemma NothingGone(before: Txs, drop: Tx -> bool, removed: seq<Tx>)
    requires Filed(before) && Enumerates(removed, Gone(before, drop)) && removed == []
    ensures Kept(before, drop) == before
  {
    EnumeratesEmpty(removed, Gone(before, drop));
  }

  method List(keys: set<nat>) returns (s: seq<nat>)
    ensures multiset(s) == multiset(keys)
  {
    s := [];
    var todo := keys;
    while todo != {}
      invariant todo <= keys && multiset(s) == multiset(keys - todo)
      decreases todo
    {
      var n :| n in todo;
      KeysAdd(keys - todo, n);
      assert keys - (todo - {n}) == keys - todo + {n};
      s, todo := s + [n], todo - {n};
    }
    assert keys - todo == keys;
  }

  method RemoveIndex(ghost keys: set<nat>, index: seq<nat>, n: nat) returns (rest: seq<nat>)
    requires Indexed(keys, index) && n in keys
    ensures Indexed(keys - {n}, rest)
  {
    NonceOrder();
    assert n in multiset(index);
    var i := 0;
    while index[i] != n
      invariant 0 <= i < |index| && n !in index[..i]
      decreases |index| - i
    {
      assert index == index[..i + 1] + index[i + 1..];
      i := i + 1;
    }
    var _, h := BinaryHeap.Remove(NonceLess, index, i);
    rest := h;
    IndexShrinks(keys, index, n, rest);
  }

  method Sorted(items: Txs) returns (s: seq<Tx>)
    requires Filed(items)
    ensures s == Flat(items)
  {
    var all := ListTxs(items);
    s := SortBy(all, (x: Tx) => x.nonce);
    FlatUnique(items, s);
  }

  method ListTxs(items: Txs) returns (s: seq<Tx>)
    requires Filed(items)
    ensures Enumerates(s, items)
  {
    s := [];
    var todo := items.Keys;
    ghost var done: Txs := map[];
    while todo != {}
      invariant todo <= items.Keys && done == items - todo && Enumerates(s, done)
      decreases todo
    {
      var n :| n in todo;
      EnumeratesNext(s, done, items[n]);
      assert items - (todo - {n}) == done[n := items[n]];
      s, done, todo := s + [items[n]], done[n := items[n]], todo - {n};
    }
    assert done == items;
  }

  /** The last entries of `flat`, from the end. */
  ghost predicate FromTheTop(drops: seq<Tx>, flat: seq<Tx>) {
    |drops| <= |flat| && forall i :: 0 <= i < |drops| ==> drops[i] == flat[|flat| - 1 - i]
  }

  /** Entry `i` of the sorted nonces is the highest of the lowest `i + 1`. */
  ghost predicate Tops(m: Txs, sorted: seq<nat>, flat: seq<Tx>) {
    && |sorted| == |m| == |flat|
    && forall i {:trigger sorted[i]} :: 0 <= i < |m| ==>
         sorted[i] in m && m[sorted[i]] == flat[i] && sorted[i] in Lowest(m, i + 1) && Lowest(m, i + 1) - {sorted[i]} == Lowest(m, i)
  }

  lemma SortedTops(m: Txs, sorted: seq<nat>)
    requires sorted == NatSets.Sorted(m.Keys)
    ensures Tops(m, sorted, Flat(m))
  {
    forall i | 0 <= i < |m|
      ensures sorted[i] in m && m[sorted[i]] == Flat(m)[i] && sorted[i] in Lowest(m, i + 1) && Lowest(m, i + 1) - {sorted[i]} == Lowest(m, i)
    {
      CapKeys(m, i, sorted[i]);
      CapFlat(m, i, sorted[i]);
    }
  }

  lemma CapKeys(m: Txs, i: nat, n: nat)
    requires i < |m| && n == NatSets.Sorted(m.Keys)[i]
    ensures n in m && NatSets.IsGreatest(Lowest(m, i + 1).Keys, n) && Lowest(m, i + 1) - {n} == Lowest(m, i)
  {
    NatSets.LowestStep(m.Keys, i, n);
    SameWithout(m, Lowest(m, i + 1), Lowest(m, i), n);
  }

  lemma SameWithout(m: Txs, a: Txs, b: Txs, n: nat)
    requires (forall k :: k in a ==> k in m && a[k] == m[k]) && (forall k :: k in b ==> k in m && b[k] == m[k])
    requires a.Keys - {n} == b.Keys
    ensures a - {n} == b
  {
    assert forall k :: k in a - {n} <==> k in a.Keys - {n};
  }

  lemma CapFlat(m: Txs, i: nat, n: nat)
    requires i < |m| && n in m && NatSets.IsGreatest(Lowest(m, i + 1).Keys, n)
    ensures Flat(m)[i] == m[n]
  {
    FlatLowest(m, i + 1);
    LowestSize(m, i + 1);
    LastOf(Lowest(m, i + 1), n);
  }

  lemma LastOf(m: Txs, n: nat)
    requires NatSets.IsGreatest(m.Keys, n)
    ensures |Flat(m)| == |m| > 0 && Flat(m)[|m| - 1] == m[n]
  {
    FlatLast(m, n);
  }

  method SortIndex(ghost m: Txs, index: seq<nat>, ghost k: nat) returns (sorted: seq<nat>)
    requires Indexed(m.Keys, index) && k <= |m|
    ensures Tops(m, sorted, Flat(m)) && multiset(sorted[..k]) == multiset(Lowest(m, k).Keys)
  {
    sorted := SortBy(index, n => n);
    SortedNonces(m.Keys, sorted);
    SortedTops(m, sorted);
    NatSets.LowestIsPrefix(m.Keys, k);
    SortedMultiset(Lowest(m, k).Keys);
  }

  method CutIndex(ghost keys: set<nat>, k: nat, sorted: seq<nat>) returns (index: seq<nat>)
    requires k <= |sorted| && multiset(sorted[..k]) == multiset(keys)
    ensures Indexed(keys, index)
  {
    NonceOrder();
    index := BinaryHeap.Init(NonceLess, sorted[..k]);
  }

  // -------- the per-account list --------

  function Higher(n: nat): Tx -> bool { (x: Tx) => x.nonce > n }

  function Unpayable(costLimit: int, gasLimit: nat): Tx -> bool { (x: Tx) => TooExpensive(x, costLimit, gasLimit) }

  /** The list of one account: each operation is the one on value lists. */
  class AccountList {
    const strict: bool
    const txs: TxSortedMap
    var costcap: int
    var gascap: nat

    ghost function Value(): TxList
      reads this, txs
    {
      TxList(strict, txs.items, costcap, gascap)
    }

    ghost predicate Valid()
      reads this, txs
    {
      txs.Valid() && Value().Valid()
    }

    constructor (strict: bool)
      ensures Valid() && Value() == TxList.Empty(strict) && fresh(txs)
    {
      this.strict := strict;
      txs := new TxSortedMap();
      costcap, gascap := 0, 0;
    }

    method Add(tx: Tx, bump: nat) returns (ok: bool, prev: Option<Tx>)
      requires Valid()
      modifies this, txs
      ensures Valid() && (Value(), ok, prev) == old(Value()).Add(tx, bump)
    {
      prev := if tx.nonce in txs.items then Some(txs.items[tx.nonce]) else None;
      if prev.Some? && !CanReplace(prev.value, tx, bump) {
        return false, None;
      }
      txs.Put(tx);
      if costcap < tx.cost {
        costcap := tx.cost;
      }
      if gascap < tx.gas {
        gascap := tx.gas;
      }
      ok := true;
    }

    method Forward(t: nat) returns (removed: seq<Tx>)
      requires Valid()
      modifies txs
      ensures Valid() && Value() == old(Value()).Forward(t) && removed == Flat(Below(old(txs.items), t))
    {
      removed := txs.Forward(t);
    }

    /** Drops the unpayable transactions, and from a strict list everything above the lowest of them. */
    method Filter(costLimit: int, gasLimit: nat) returns (removed: seq<Tx>, invalids: seq<Tx>)
      requires Valid()
      modifies this, txs
      ensures Valid() && Value() == old(Value()).Filter(costLimit, gasLimit).0
      ensures Enumerates(removed, old(Value()).Filter(costLimit, gasLimit).1)
      ensures Enumerates(invalids, old(Value()).Filter(costLimit, gasLimit).2)
    {
      ghost var before := Value();
      if costcap <= costLimit && gascap <= gasLimit {
        return [], [];
      }
      costcap, gascap := costLimit, gasLimit;
      removed, invalids := Purge(costLimit, gasLimit);
      PurgedIsFiltered(before, costLimit, gasLimit, txs.items, removed, invalids);
    }

    /** Drops the unpayable transactions without looking at the caps. */
    method Purge(costLimit: int, gasLimit: nat) returns (removed: seq<Tx>, invalids: seq<Tx>)
      requires txs.Valid()
      modifies txs
      ensures txs.Valid()
      ensures Purged(strict, old(txs.items), costLimit, gasLimit, txs.items, removed, invalids)
    {
      ghost var before := txs.items;
      removed := txs.Filter(Unpayable(costLimit, gasLimit));
      ExpensiveAreGone(before, costLimit, gasLimit, removed);
      if removed == [] {
        return [], [];
      }
      if strict {
        var lowest := LowestNonce(removed, Expensive(before, costLimit, gasLimit));
        AboveLowest(before, costLimit, gasLimit, lowest);
        invalids := txs.Sift(Higher(lowest));
      } else {
        invalids := [];
      }
      txs.Reheap();
    }

    method Cap(k: nat) returns (drops: seq<Tx>)
      requires Valid()
      modifies txs
      ensures Valid() && Value() == old(Value()).Cap(k)
      ensures |drops| == |old(txs.items)| - |txs.items| && FromTheTop(drops, Flat(old(txs.items)))
    {
      LowestSize(txs.items, k);
      drops := txs.Cap(k);
    }

    method Remove(tx: Tx) returns (found: bool, invalids: seq<Tx>)
      requires Valid()
      modifies txs
      ensures Valid() && Value() == old(Value()).Remove(tx.nonce).0 && found == old(Value()).Remove(tx.nonce).1
      ensures Enumerates(invalids, old(Value()).Remove(tx.nonce).2)
    {
      var nonce := tx.nonce;
      found := txs.Remove(nonce);
      if !found {
        assert old(txs.items) - {nonce} == old(txs.items);
        return found, [];
      }
      if strict {
        AboveNonce(txs.items, nonce);
        invalids := txs.Filter(Higher(nonce));
      } else {
        invalids := [];
      }
    }

    method Ready(start: nat) returns (ready: seq<Tx>)
      requires Valid()
      modifies txs
      ensures Valid() && Value() == old(Value()).Ready(start).0 && ready == Flat(old(Value()).Ready(start).1)
    {
      ready := txs.Ready(start);
    }
  }

  ghost predicate Purged(strict: bool, m: Txs, costLimit: int, gasLimit: nat, rest: Txs, removed: seq<Tx>, invalids: seq<Tx>) {
    var gone := Expensive(m, costLimit, gasLimit);
    && Enumerates(removed, gone)
    && (if strict && gone != map[] then
          var lowest := NatSets.Least(gone.Keys);
          rest == Below(m - gone.Keys, lowest) && Enumerates(invalids, Above(m - gone.Keys, lowest))
        else rest == m - gone.Keys && Enumerates(invalids, map[]))
  }

  lemma PurgedIsFiltered(l: TxList, costLimit: int, gasLimit: nat, rest: Txs, removed: seq<Tx>, invalids: seq<Tx>)
    requires l.Valid() && !(l.costcap <= costLimit && l.gascap <= gasLimit)
    requires Purged(l.strict, l.txs, costLimit, gasLimit, rest, removed, invalids)
    ensures l.Filter(costLimit, gasLimit).0 == TxList(l.strict, rest, costLimit, gasLimit) && l.Filter(costLimit, gasLimit).0.Valid()
    ensures Enumerates(removed, l.Filter(costLimit, gasLimit).1) && Enumerates(invalids, l.Filter(costLimit, gasLimit).2)
  {
    FilterIsNaive(l, costLimit, gasLimit);
    assert Expensive(l.txs, costLimit, gasLimit) == map[] ==> l.txs - Expensive(l.txs, costLimit, gasLimit).Keys == l.txs;
  }

  lemma ExpensiveAreGone(m: Txs, costLimit: int, gasLimit: nat, removed: seq<Tx>)
    requires Filed(m) && Enumerates(removed, Gone(m, Unpayable(costLimit, gasLimit)))
    ensures Gone(m, Unpayable(costLimit, gasLimit)) == Expensive(m, costLimit, gasLimit)
    ensures Kept(m, Unpayable(costLimit, gasLimit)) == m - Expensive(m, costLimit, gasLimit).Keys
    ensures removed == [] <==> Expensive(m, costLimit, gasLimit) == map[]
  {
    assert Gone(m, Unpayable(costLimit, gasLimit)) == Expensive(m, costLimit, gasLimit);
    EnumeratesEmpty(removed, Expensive(m, costLimit, gasLimit));
  }

  lemma AboveNonce(kept: Txs, nonce: nat)
    requires Filed(kept) && nonce !in kept
    ensures Kept(kept, Higher(nonce)) == Below(kept, nonce)
    ensures Gone(kept, Higher(nonce)) == Above(kept, nonce)
  {
  }

  lemma AboveLowest(m: Txs, costLimit: int, gasLimit: nat, lowest: nat)
    requires Filed(m) && lowest in Expensive(m, costLimit, gasLimit)
    ensures var kept := m - Expensive(m, costLimit, gasLimit).Keys;
      && Kept(kept, Higher(lowest)) == Below(kept, lowest)
      && Gone(kept, Higher(lowest)) == Above(kept, lowest)
  {
    AboveNonce(m - Expensive(m, costLimit, gasLimit).Keys, lowest);
  }

  /** The lowest nonce of a non-empty enumeration. */
  method LowestNonce(txs: seq<Tx>, ghost m: Txs) returns (lowest: nat)
    requires txs != [] && Filed(m) && Enumerates(txs, m)
    ensures m != map[] && lowest == NatSets.Least(m.Keys)
  {
    lowest := txs[0].nonce;
    for i := 1 to |txs|
      invariant exists j :: 0 <= j < i && txs[j].nonce == lowest
      invariant forall j :: 0 <= j < i ==> lowest <= txs[j].nonce
    {
      if lowest > txs[i].nonce {
        lowest := txs[i].nonce;
      }
    }
    LowestOfEnumeration(txs, m, lowest);
  }

  lemma LowestOfEnumeration(txs: seq<Tx>, m: Txs, lowest: nat)
    requires Filed(m) && Enumerates(txs, m)
    requires (exists j :: 0 <= j < |txs| && txs[j].nonce == lowest) && forall j :: 0 <= j < |txs| ==> lowest <= txs[j].nonce
    ensures m != map[] && lowest == NatSets.Least(m.Keys)
  {
    var j :| 0 <= j < |txs| && txs[j].nonce == lowest;
    assert multiset(txs)[txs[j]] > 0;
    assert lowest in m.Keys;
    forall n | n in m.Keys ensures lowest <= n {
      assert multiset(txs)[m[n]] == 1;
      var i :| 0 <= i < |txs| && txs[i] == m[n];
    }
    assert NatSets.IsLeast(m.Keys, lowest);
  }
}
