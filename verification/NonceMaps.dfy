/**
 Plain nonce-to-transaction maps and their cuts: the reference that the
 heap-indexed, cached txSortedMap is measured against.
 */
module NonceMaps {
  import opened Basics
  import opened Transactions
  import NatSets

  type Txs = map<nat, Tx>

  function Below(m: Txs, t: nat): Txs { map n | n in m && n < t :: m[n] }

  function From(m: Txs, t: nat): Txs { map n | n in m && n >= t :: m[n] }

  function Above(m: Txs, t: nat): Txs { map n | n in m && n > t :: m[n] }

  /** Every transaction is filed under its own nonce. */
  ghost predicate Filed(m: Txs) {
    forall n :: n in m ==> m[n].nonce == n
  }

  /** The contents by increasing nonce. */
  ghost function Flat(m: Txs): (s: seq<Tx>)
    ensures |s| == |m|
    decreases |m|
  {
    if m == map[] then [] else
    var n := NatSets.Greatest(m.Keys);
    SizeWithout(m, n);
    Flat(m - {n}) + [m[n]]
  }

  lemma SizeWithout(m: Txs, n: nat)
    requires n in m
    ensures |m - {n}| == |m| - 1
  {
    assert (m - {n}).Keys == m.Keys - {n};
    assert |m - {n}| == |(m - {n}).Keys| && |m| == |m.Keys|;
  }

  /** The highest entry comes last. */
  lemma FlatLast(m: Txs, n: nat)
    requires n in m && forall k :: k in m ==> k <= n
    ensures Flat(m) == Flat(m - {n}) + [m[n]]
  {
    assert NatSets.IsGreatest(m.Keys, n);
    var g := NatSets.Greatest(m.Keys);
    assert NatSets.IsGreatest(m.Keys, g) && g == n;
  }

  /** Sorting splits at every threshold. */
  lemma {:induction false} FlatSplit(m: Txs, t: nat)
    ensures Flat(m) == Flat(Below(m, t)) + Flat(From(m, t))
    decreases |m|
  {
    if m == map[] {
      assert Below(m, t) == map[] && From(m, t) == map[];
    } else {
      var n := NatSets.Greatest(m.Keys);
      SizeWithout(m, n);
      FlatSplit(m - {n}, t);
      SplitLast(m, n, t);
    }
  }

  lemma SplitLast(m: Txs, n: nat, t: nat)
    requires NatSets.IsGreatest(m.Keys, n) && Flat(m - {n}) == Flat(Below(m - {n}, t)) + Flat(From(m - {n}, t))
    ensures Flat(m) == Flat(Below(m, t)) + Flat(From(m, t))
  {
    FlatLast(m, n);
    CutsWithout(m, n, t);
    if n < t {
      FlatLast(Below(m, t), n);
      assert Flat(Below(m - {n}, t)) + [] == Flat(Below(m - {n}, t));
      assert Flat(Below(m, t)) + [] == Flat(Below(m, t));
    } else {
      FlatLast(From(m, t), n);
      Regroup(Flat(Below(m, t)), Flat(From(m - {n}, t)), [m[n]]);
    }
  }

  lemma CutsWithout(m: Txs, n: nat, t: nat)
    requires n in m && forall k :: k in m ==> k <= n
    ensures n < t ==> Below(m - {n}, t) == Below(m, t) - {n} && n in Below(m, t) && From(m, t) == map[] && From(m - {n}, t) == map[]
    ensures n >= t ==> Below(m - {n}, t) == Below(m, t) && From(m - {n}, t) == From(m, t) - {n} && n in From(m, t)
  {
  }

  /** The `k` entries of lowest nonce. */
  function Lowest(m: Txs, k: nat): (r: Txs)
    ensures r.Keys == NatSets.Lowest(m.Keys, k)
  {
    map n | n in m && n in NatSets.Lowest(m.Keys, k) :: m[n]
  }

  lemma {:induction false} FlatLowest(m: Txs, k: nat)
    requires k <= |m|
    ensures Flat(Lowest(m, k)) == Flat(m)[..k]
    decreases |m|
  {
    if k == |m| {
      LowestSize(m, k);
    } else {
      var n := NatSets.Greatest(m.Keys);
      SizeWithout(m, n);
      FlatLowest(m - {n}, k);
      LowestWithout(m, k, n);
    }
  }

  lemma LowestWithout(m: Txs, k: nat, n: nat)
    requires NatSets.IsGreatest(m.Keys, n) && k < |m|
    ensures Lowest(m - {n}, k) == Lowest(m, k)
  {
    assert |m| == |m.Keys| && (m - {n}).Keys == m.Keys - {n};
    NatSets.LowestWithout(m.Keys, k, n);
  }

  lemma LowestSize(m: Txs, k: nat)
    ensures |Lowest(m, k)| == if k <= |m| then k else |m|
    ensures |m| <= k ==> Lowest(m, k) == m
  {
    NatSets.LowestSize(m.Keys, k);
    if |m| <= k {
      NatSets.LowestIsAll(m.Keys, k);
    }
    assert |Lowest(m, k)| == |Lowest(m, k).Keys|;
  }

  lemma LowestOfLowest(m: Txs, k: nat, j: nat)
    requires j <= k
    ensures Lowest(Lowest(m, k), j) == Lowest(m, j)
  {
    NatSets.LowestOfLowest(m.Keys, k, j);
  }

  /** Entries of the maximal consecutive run that starts at `lo`. */
  function RunFrom(m: Txs, lo: nat): Txs {
    Below(From(m, lo), NatSets.RunEnd(m.Keys, lo))
  }
}
