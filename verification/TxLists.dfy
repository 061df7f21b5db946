/** The per-account transaction list of the pool as a value, operation by operation. */
module TxLists {
  import opened Transactions
  import opened NonceMaps
  import NatSets

  /** Lowest price that may replace a transaction priced `prev`. */
  function BumpThreshold(prev: nat, bump: nat): nat {
    prev * (100 + bump) / 100
  }

  predicate CanReplace(prev: Tx, tx: Tx, bump: nat) {
    prev.gasPrice < tx.gasPrice && tx.gasPrice >= BumpThreshold(prev.gasPrice, bump)
  }

  /** A replacement is dearer, and by no less than the bump in per cent, less a rounding. */
  lemma ReplaceIff(prev: Tx, tx: Tx, bump: nat)
    ensures CanReplace(prev, tx, bump) <==>
      tx.gasPrice > prev.gasPrice && 100 * (tx.gasPrice - prev.gasPrice) > prev.gasPrice * bump - 100
  {
    var x := prev.gasPrice * (100 + bump);
    assert x == 100 * prev.gasPrice + prev.gasPrice * bump;
    assert (x / 100) * 100 <= x < (x / 100) * 100 + 100;
  }

  predicate TooExpensive(tx: Tx, costLimit: int, gasLimit: nat) {
    tx.gas > gasLimit || tx.cost > costLimit
  }

  function Expensive(m: Txs, costLimit: int, gasLimit: nat): Txs {
    map n | n in m && TooExpensive(m[n], costLimit, gasLimit) :: m[n]
  }

  /**
   An account's transactions by nonce. `strict` lists hold executable transactions
   and drop everything above a removed one; `costcap` and `gascap` are the cached
   upper bounds that let Filter return early.
   */
  datatype TxList = TxList(strict: bool, txs: Txs, costcap: int, gascap: nat) {

    ghost predicate Valid() {
      && Filed(txs)
      && forall n :: n in txs ==> txs[n].cost <= costcap && txs[n].gas <= gascap
    }

    static function Empty(strict: bool): TxList {
      TxList(strict, map[], 0, 0)
    }

    function Add(tx: Tx, bump: nat): (r: (TxList, bool, Option<Tx>)) {
      var prev := if tx.nonce in txs then Some(txs[tx.nonce]) else None;
      if prev.Some? && !CanReplace(prev.value, tx, bump) then (this, false, None) else
      (this.(txs := txs[tx.nonce := tx],
             costcap := if costcap < tx.cost then tx.cost else costcap,
             gascap := if gascap < tx.gas then tx.gas else gascap),
       true, prev)
    }

    function Forward(t: nat): TxList {
      this.(txs := From(txs, t))
    }

    /** Remaining list, unpayable transactions, and the payable ones dropped with them. */
    function Filter(costLimit: int, gasLimit: nat): (TxList, Txs, Txs) {
      if costcap <= costLimit && gascap <= gasLimit then (this, map[], map[]) else
      var capped := this.(costcap := costLimit, gascap := gasLimit);
      var removed := Expensive(txs, costLimit, gasLimit);
      if removed == map[] then (capped, map[], map[]) else
      var kept := txs - removed.Keys;
      if !strict then (capped.(txs := kept), removed, map[]) else
      var lowest := NatSets.Least(removed.Keys);
      (capped.(txs := Below(kept, lowest)), removed, Above(kept, lowest))
    }

    function Cap(k: nat): TxList {
      if |txs| <= k then this else this.(txs := Lowest(txs, k))
    }

    /** Remaining list, whether the nonce was there, and what a strict list drops above it. */
    function Remove(nonce: nat): (TxList, bool, Txs) {
      if nonce !in txs then (this, false, map[]) else
      var kept := txs - {nonce};
      if strict then (this.(txs := Below(kept, nonce)), true, Above(kept, nonce))
      else (this.(txs := kept), true, map[])
    }

    /** Takes the consecutive run from the lowest nonce, if that is not above `start`. */
    function Ready(start: nat): (TxList, Txs) {
      if txs == map[] || NatSets.Least(txs.Keys) > start then (this, map[]) else
      var run := RunFrom(txs, NatSets.Least(txs.Keys));
      (this.(txs := txs - run.Keys), run)
    }
  }

  /** A strict list is a gap-free run of nonces. */
  ghost predicate Contiguous(m: Txs, lo: nat, hi: nat) {
    forall n :: n in m <==> lo <= n < hi
  }

  /** The caps bound every stored transaction, so the early return never changes what Filter does. */
  lemma FilterIsNaive(l: TxList, costLimit: int, gasLimit: nat)
    requires l.Valid()
    ensures var (rest, removed, invalids) := l.Filter(costLimit, gasLimit);
      && rest.Valid() && rest.strict == l.strict
      && removed == Expensive(l.txs, costLimit, gasLimit)
      && (!l.strict ==> invalids == map[] && rest.txs == l.txs - removed.Keys)
      && (l.strict && removed == map[] ==> invalids == map[] && rest.txs == l.txs)
      && (l.strict && removed != map[] ==>
            var lowest := NatSets.Least(removed.Keys);
            rest.txs == Below(l.txs, lowest) && invalids == Above(l.txs, lowest) - removed.Keys)
  {
    var removed := Expensive(l.txs, costLimit, gasLimit);
    assert l.costcap <= costLimit && l.gascap <= gasLimit ==> removed == map[];
    assert forall n :: n in l.txs && n !in removed ==> !TooExpensive(l.txs[n], costLimit, gasLimit);
    if removed != map[] && l.strict {
      var lowest := NatSets.Least(removed.Keys);
      assert Below(l.txs - removed.Keys, lowest) == Below(l.txs, lowest);
    }
  }

  /** Filter, Remove, Forward and Cap account for every transaction exactly once. */
  lemma FilterConserves(l: TxList, costLimit: int, gasLimit: nat)
    requires l.Valid()
    ensures var (rest, removed, invalids) := l.Filter(costLimit, gasLimit);
      && rest.txs.Keys !! removed.Keys && rest.txs.Keys !! invalids.Keys && removed.Keys !! invalids.Keys
      && l.txs == rest.txs + removed + invalids
  {
    FilterIsNaive(l, costLimit, gasLimit);
    var (rest, removed, invalids) := l.Filter(costLimit, gasLimit);
    assert forall n :: n in l.txs ==> n in rest.txs || n in removed || n in invalids;
  }

  /** A strict list keeps what is below a removed nonce and hands back what is above. */
  lemma RemoveStrict(l: TxList, nonce: nat)
    requires l.Valid() && l.strict && nonce in l.txs
    ensures var (rest, removed, invalids) := l.Remove(nonce);
      rest.Valid() && rest.strict && removed && rest.txs == Below(l.txs, nonce) && invalids == Above(l.txs, nonce)
  {
  }

  /** On a contiguous strict list every removal leaves a contiguous list. */
  lemma StrictStaysContiguous(l: TxList, lo: nat, hi: nat, costLimit: int, gasLimit: nat, nonce: nat, k: nat)
    requires l.Valid() && l.strict && lo <= hi && Contiguous(l.txs, lo, hi)
    ensures exists mid :: lo <= mid <= hi && Contiguous(l.Filter(costLimit, gasLimit).0.txs, lo, mid)
    ensures exists mid :: lo <= mid <= hi && Contiguous(l.Remove(nonce).0.txs, lo, mid)
    ensures Contiguous(l.Forward(k).txs, if k < lo then lo else k, hi)
    ensures Contiguous(l.Cap(k).txs, lo, if hi - lo < k then hi else lo + k)
  {
    FilterIsNaive(l, costLimit, gasLimit);
    var removed := Expensive(l.txs, costLimit, gasLimit);
    var fmid := if removed == map[] then hi else NatSets.Least(removed.Keys);
    assert removed != map[] ==> fmid in removed;
    assert Contiguous(l.Filter(costLimit, gasLimit).0.txs, lo, fmid);
    var rmid := if nonce in l.txs then nonce else hi;
    assert Contiguous(l.Remove(nonce).0.txs, lo, rmid);
    CapOfInterval(l, lo, hi, k);
  }

  lemma CapOfInterval(l: TxList, lo: nat, hi: nat, k: nat)
    requires lo <= hi && Contiguous(l.txs, lo, hi)
    ensures |l.txs| == hi - lo
    ensures Contiguous(l.Cap(k).txs, lo, if hi - lo < k then hi else lo + k)
  {
    IntervalSize(l.txs.Keys, lo, hi);
    assert |l.txs| == |l.txs.Keys|;
    if k < |l.txs| {
      forall n | n in l.txs ensures NatSets.Rank(l.txs.Keys, n) == n - lo {
        IntervalSize(NatSets.Below(l.txs.Keys, n), lo, n);
      }
    }
  }

  lemma {:induction false} IntervalSize(a: set<nat>, lo: nat, hi: nat)
    requires lo <= hi && forall n :: n in a <==> lo <= n < hi
    ensures |a| == hi - lo
    decreases hi - lo
  {
    if lo == hi {
      assert a == {};
    } else {
      IntervalSize(a - {hi - 1}, lo, hi - 1);
    }
  }
}
