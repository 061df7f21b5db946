/**
 One account through a pool run: what promotion takes from its queue, what demotion takes
 from its pending list, and that the nonce discipline comes out again.
 */
module PoolRuns {
  import opened Transactions
  import opened NonceMaps
  import opened TxLists
  import opened PoolBooks
  import opened PoolNonces
  import NatSets

  // -------- promotion --------

  /** The payable part of a queue from the state nonce on. */
  function Payable(l: TxList, s: nat, balance: nat, maxGas: nat): TxList {
    l.Forward(s).Filter(balance, maxGas).0
  }

  lemma PayableIs(l: TxList, s: nat, balance: nat, maxGas: nat)
    requires l.Valid() && !l.strict
    ensures Payable(l, s, balance, maxGas).Valid() && !Payable(l, s, balance, maxGas).strict
    ensures Submap(Payable(l, s, balance, maxGas).txs, From(l.txs, s))
    ensures AllPayable(Payable(l, s, balance, maxGas).txs, balance, maxGas)
  {
    FilterIsNaive(l.Forward(s), balance, maxGas);
  }

  /** Ready takes the maximal consecutive run from the lowest nonce, when that is not above `v`. */
  lemma ReadyTakesRun(l: TxList, v: nat)
    ensures var (rest, run) := l.Ready(v);
      && Submap(run, l.txs) && rest == l.(txs := l.txs - run.Keys)
      && (run == map[] ==> rest == l && AllFrom(l.txs, v + 1))
      && (run != map[] ==>
            var lo := NatSets.Least(l.txs.Keys);
            var hi := NatSets.RunEnd(l.txs.Keys, lo);
            lo <= v && lo < hi && Contiguous(run, lo, hi) && AllFrom(l.txs, lo) && AllFrom(rest.txs, hi + 1))
  {
    if l.txs != map[] && NatSets.Least(l.txs.Keys) <= v {
      var lo := NatSets.Least(l.txs.Keys);
      var hi := NatSets.RunEnd(l.txs.Keys, lo);
      assert lo in l.txs.Keys;
      assert lo in RunFrom(l.txs, lo);
    }
  }

  lemma CapKeepsLowest(l: TxList, k: nat)
    requires l.Valid()
    ensures l.Cap(k).Valid() && l.Cap(k).strict == l.strict && Submap(l.Cap(k).txs, l.txs)
  {
  }

  /** The virtual nonce after `run` was promoted: one past its end. */
  ghost predicate RunEndsAt(run: Txs, v: nat, v': nat) {
    if run == map[] then v' == v else exists lo: nat :: lo < v' && Contiguous(run, lo, v')
  }

  /** Dropping queued transactions keeps an account in order. */
  lemma QueueShrinks(p: Txs, q: Txs, q': Txs, s: nat, v: nat, balance: nat, maxGas: nat)
    requires NonceOk(p, q, s, v, balance, maxGas) && Submap(q', q)
    ensures NonceOk(p, q', s, v, balance, maxGas)
  {
  }

  /** Promotion in an account that is in order leaves it in order. */
  lemma ReadyInOrder(p: Txs, l: TxList, s: nat, v: nat, v': nat, balance: nat, maxGas: nat)
    requires NonceOk(p, l.txs, s, v, balance, maxGas) && AllPayable(l.txs, balance, maxGas)
    requires RunEndsAt(l.Ready(v).1, v, v')
    ensures NonceOk(p + l.Ready(v).1, l.Ready(v).0.txs, s, v', balance, maxGas)
  {
    ReadyTakesRun(l, v);
    var (rest, run) := l.Ready(v);
    if run != map[] {
      var lo := NatSets.Least(l.txs.Keys);
      var hi := NatSets.RunEnd(l.txs.Keys, lo);
      assert lo in l.txs.Keys;
      assert lo == v;
      SameRun(run, lo, hi, v');
    }
  }

  lemma SameRun(run: Txs, lo: nat, hi: nat, v': nat)
    requires lo < hi && Contiguous(run, lo, hi) && RunEndsAt(run, 0, v')
    ensures v' == hi
  {
    assert lo in run && hi - 1 in run;
    var lo': nat :| lo' < v' && Contiguous(run, lo', v');
    assert v' - 1 in run;
  }

  /** Adding one more transaction of a run to what is already there. */
  lemma RunStep(p: Txs, run: Txs, lo: nat, hi: nat, n: nat)
    requires lo <= n < hi && Contiguous(run, lo, hi) && Disjoint(run, p)
    ensures n in run && n !in p + Below(run, n)
    ensures (p + Below(run, n))[n := run[n]] == p + Below(run, n + 1)
  {
    assert Below(run, n + 1) == Below(run, n)[n := run[n]];
  }

  lemma RunEnds(p: Txs, run: Txs, lo: nat, hi: nat)
    requires lo <= hi && Contiguous(run, lo, hi)
    ensures p + Below(run, lo) == p && p + Below(run, hi) == p + run
  {
    assert Below(run, lo) == map[] && Below(run, hi) == run;
  }

  /** First nonce and end of the run that Ready takes. */
  function ReadyBounds(l: TxList, v: nat): (nat, nat) {
    if l.txs == map[] || NatSets.Least(l.txs.Keys) > v then (v, v) else
    var lo := NatSets.Least(l.txs.Keys);
    (lo, NatSets.RunEnd(l.txs.Keys, lo))
  }

  lemma ReadyBoundsAre(l: TxList, v: nat)
    requires l.Valid()
    ensures var (rest, run) := l.Ready(v);
      var (lo, hi) := ReadyBounds(l, v);
      && lo <= hi && Contiguous(run, lo, hi) && Filed(run) && (lo == hi <==> run == map[])
      && Submap(run, l.txs) && rest.Valid() && rest.strict == l.strict && rest.txs == l.txs - run.Keys
      && RunEndsAt(run, v, hi)
  {
    ReadyTakesRun(l, v);
    var (lo, hi) := ReadyBounds(l, v);
    assert lo < hi ==> lo in l.Ready(v).1;
  }

  /** The noncer after the nonces from `lo` below `n` were promoted. */
  function Advanced(noncer: Noncer, a: Address, lo: nat, n: nat): Noncer {
    if lo == n then noncer else noncer.Set(a, n)
  }

  lemma AdvancedStep(noncer: Noncer, a: Address, lo: nat, n: nat)
    requires lo <= n
    ensures Advanced(noncer, a, lo, n).Set(a, n + 1) == Advanced(noncer, a, lo, n + 1)
  {
  }

  /** How the pool changes when account `a` is promoted. */
  ghost predicate PromotedFrom(a: Address, head: Head, cap: Option<nat>, pending: Lists, queue: Lists, noncer: Noncer,
                               pending': Lists, queue': Lists, noncer': Noncer) {
    && SameElsewhere(a, pending, pending') && SameElsewhere(a, queue, queue')
    && (a !in queue ==> pending' == pending && queue' == queue && noncer' == noncer)
    && (a in queue ==>
          var pay := Payable(queue[a], head.nonce(a), head.balance(a), head.maxGas);
          var (rest, run) := pay.Ready(noncer.Get(a));
          var (lo, hi) := ReadyBounds(pay, noncer.Get(a));
          && At(pending', a) == At(pending, a) + run
          && At(queue', a) == (if cap.Some? then rest.Cap(cap.value) else rest).txs
          && noncer' == Advanced(noncer, a, lo, hi))
  }

  lemma PromotedBy(a: Address, head: Head, cap: Option<nat>, pending: Lists, queue: Lists, noncer: Noncer,
                   pay: TxList, rest: TxList, run: Txs, pending': Lists, queue1: Lists, queue2: Lists, queue3: Lists, noncer': Noncer)
    requires a in queue && pay == Payable(queue[a], head.nonce(a), head.balance(a), head.maxGas)
    requires (rest, run) == pay.Ready(noncer.Get(a))
    requires SameElsewhere(a, pending, pending') && At(pending', a) == At(pending, a) + run
    requires queue1 == queue[a := pay] && queue2 == queue1[a := rest]
    requires queue3 == Capped(queue2, a, rest, cap)
    requires noncer' == Advanced(noncer, a, ReadyBounds(pay, noncer.Get(a)).0, ReadyBounds(pay, noncer.Get(a)).1)
    ensures PromotedFrom(a, head, cap, pending, queue, noncer, pending', queue3, noncer')
  {
    CappedEffect(queue, a, pay, rest, cap);
  }

  /** The lists with the queue of `a` set to `rest`, capped. */
  function Capped(queue: Lists, a: Address, rest: TxList, cap: Option<nat>): Lists {
    if cap.Some? then queue[a := rest.Cap(cap.value)] else queue
  }

  lemma CappedEffect(queue: Lists, a: Address, pay: TxList, rest: TxList, cap: Option<nat>)
    ensures var queue3 := Capped(queue[a := pay][a := rest], a, rest, cap);
      && SameElsewhere(a, queue, queue3)
      && At(queue3, a) == (if cap.Some? then rest.Cap(cap.value) else rest).txs
  {
  }

  lemma PromotedSame(a: Address, head: Head, cap: Option<nat>, pending: Lists, queue: Lists, noncer: Noncer,
                     pending': Lists, queue': Lists, noncer': Noncer, queue'': Lists)
    requires PromotedFrom(a, head, cap, pending, queue, noncer, pending', queue', noncer')
    requires a in queue && forall b :: At(queue'', b) == At(queue', b)
    ensures PromotedFrom(a, head, cap, pending, queue, noncer, pending', queue'', noncer')
  {
  }

  // -------- demotion --------

  lemma FilterSplits(l: TxList, balance: nat, maxGas: nat)
    requires l.Valid() && l.strict
    ensures var (rest, drops, invalids) := l.Filter(balance, maxGas);
      rest.Valid() && rest.strict && Splits(l.txs, rest.txs, drops, invalids)
  {
    FilterIsNaive(l, balance, maxGas);
  }

  /** What demotion leaves pending and what it sends back to the queue. */
  function Demotion(l: TxList, s: nat, balance: nat, maxGas: nat): (TxList, Txs) {
    var (rest, drops, invalids) := l.Forward(s).Filter(balance, maxGas);
    if Gapped(rest, s) then (rest.(txs := map[]), invalids + rest.txs) else (rest, invalids)
  }

  /** There are transactions, but not the one the account needs first. */
  predicate Gapped(l: TxList, s: nat) {
    l.txs != map[] && s !in l.txs
  }

  /** Demotion finds a gap in front of an account's pending transactions. */
  ghost predicate GappedAt(pending: Lists, a: Address, head: Head)
    requires a in pending
  {
    Gapped(pending[a].Forward(head.nonce(a)).Filter(head.balance(a), head.maxGas).0, head.nonce(a))
  }

  /** How the pool changes when account `a` is demoted. */
  ghost predicate DemotedFrom(a: Address, head: Head, pending: Lists, queue: Lists, pending': Lists, queue': Lists) {
    && SameElsewhere(a, pending, pending') && SameElsewhere(a, queue, queue')
    && (a !in pending ==> pending' == pending && queue' == queue)
    && (a in pending ==>
          var (rest, moved) := Demotion(pending[a], head.nonce(a), head.balance(a), head.maxGas);
          At(pending', a) == rest.txs && At(queue', a) == At(queue, a) + moved)
  }

  lemma DemotedBy(a: Address, head: Head, pending: Lists, queue: Lists, rest: TxList, invalids: Txs,
                  pending1: Lists, queue1: Lists, pending2: Lists, queue2: Lists, pending3: Lists)
    requires a in pending
    requires rest == pending[a].Forward(head.nonce(a)).Filter(head.balance(a), head.maxGas).0
    requires invalids == pending[a].Forward(head.nonce(a)).Filter(head.balance(a), head.maxGas).2
    requires SameElsewhere(a, pending, pending1) && SameElsewhere(a, queue, queue1)
    requires At(pending1, a) == rest.txs && At(queue1, a) == At(queue, a) + invalids
    requires SameElsewhere(a, pending1, pending2) && SameElsewhere(a, queue1, queue2)
    requires Gapped(rest, head.nonce(a)) ==> At(pending2, a) == map[] && At(queue2, a) == At(queue1, a) + rest.txs
    requires !Gapped(rest, head.nonce(a)) ==> At(pending2, a) == At(pending1, a) && At(queue2, a) == At(queue1, a)
    requires forall b :: At(pending3, b) == At(pending2, b)
    ensures DemotedFrom(a, head, pending, queue, pending3, queue2)
  {
    assert At(queue, a) + invalids + rest.txs == At(queue, a) + (invalids + rest.txs);
  }

  lemma ForwardSplits(l: TxList, s: nat)
    requires l.Valid()
    ensures l.Forward(s).Valid() && Splits(l.txs, l.Forward(s).txs, Below(l.txs, s), map[])
  {
  }

  lemma CapSplits(l: TxList, k: nat)
    requires l.Valid()
    ensures l.Cap(k).Valid() && Splits(l.txs, l.Cap(k).txs, l.txs - l.Cap(k).txs.Keys, map[])
  {
  }

  // -------- the nonce discipline through a run --------

  /** A new head moved the state nonce to `s`; pending and queue are still those of the old head. */
  ghost predicate Waiting(p: Txs, q: Txs) {
    exists s0: nat, v0: nat :: s0 <= v0 && Contiguous(p, s0, v0) && AllFrom(q, v0)
  }

  /** Promoted but not yet demoted: either nothing was promoted, or the run from `s` up to `v` was. */
  ghost predicate Mid(p: Txs, q: Txs, s: nat, v: nat, balance: nat, maxGas: nat) {
    || (Waiting(p, q) && AllFrom(q, s) && v == s)
    || (s < v && Contiguous(From(p, s), s, v) && AllFrom(q, v) && AllPayable(From(p, s), balance, maxGas))
  }

  /** In order except that the virtual nonce of an account with pending transactions is not yet updated. */
  ghost predicate Near(p: Txs, q: Txs, s: nat, v: nat, balance: nat, maxGas: nat) {
    exists hi: nat :: s <= hi && Contiguous(p, s, hi) && AllFrom(q, hi) && AllPayable(p, balance, maxGas) && (hi == s ==> v == s)
  }

  lemma OrderIsMid(p: Txs, q: Txs, s: nat, v: nat, balance: nat, maxGas: nat)
    requires NonceOk(p, q, s, v, balance, maxGas)
    ensures Mid(p, q, s, v, balance, maxGas) && Near(p, q, s, v, balance, maxGas)
  {
    if v == s {
      assert Waiting(p, q);
    } else {
      assert From(p, s) == p;
    }
  }

  /** Promotion at a new head. */
  lemma ReadyAtNewHead(p: Txs, q: Txs, l: TxList, s: nat, v': nat, balance: nat, maxGas: nat)
    requires Waiting(p, q) && Submap(l.txs, q) && AllFrom(l.txs, s) && AllPayable(l.txs, balance, maxGas)
    requires RunEndsAt(l.Ready(s).1, s, v')
    ensures Mid(p + l.Ready(s).1, l.Ready(s).0.txs, s, v', balance, maxGas)
  {
    ReadyTakesRun(l, s);
    var (rest, run) := l.Ready(s);
    var s0: nat, v0: nat :| s0 <= v0 && Contiguous(p, s0, v0) && AllFrom(q, v0);
    if run == map[] {
      assert p + run == p;
      assert AllFrom(rest.txs, v0);
    } else {
      var lo := NatSets.Least(l.txs.Keys);
      var hi := NatSets.RunEnd(l.txs.Keys, lo);
      assert lo in l.txs.Keys;
      assert lo == s && v0 <= s;
      SameRun(run, lo, hi, v');
      assert From(p + run, s) == run;
    }
  }

  lemma MidShrinks(p: Txs, q: Txs, q': Txs, s: nat, v: nat, balance: nat, maxGas: nat)
    requires Mid(p, q, s, v, balance, maxGas) && Submap(q', q)
    ensures Mid(p, q', s, v, balance, maxGas)
  {
    if Waiting(p, q) && AllFrom(q, s) && v == s {
      var s0: nat, v0: nat :| s0 <= v0 && Contiguous(p, s0, v0) && AllFrom(q, v0);
      assert AllFrom(q', v0);
    }
  }

  /** With nothing pending, an account between promotion and demotion is as good as demoted. */
  lemma MidEmptyIsNear(q: Txs, s: nat, v: nat, balance: nat, maxGas: nat)
    requires Mid(map[], q, s, v, balance, maxGas)
    ensures Near(map[], q, s, v, balance, maxGas)
  {
    assert Contiguous(map[], s, s);
    var none: Txs := map[];
    assert From(none, s) == map[];
    assert Contiguous(From(none, s), s, v) && s < v ==> s in From(none, s);
  }

  /** Demotion finishes the job wherever the new state nonce lies. */
  lemma DemotionNear(l: TxList, q: Txs, s: nat, v: nat, balance: nat, maxGas: nat)
    requires l.Valid() && l.strict && Mid(l.txs, q, s, v, balance, maxGas)
    ensures var (rest, moved) := Demotion(l, s, balance, maxGas);
      Near(rest.txs, q + moved, s, v, balance, maxGas)
  {
    if Waiting(l.txs, q) && AllFrom(q, s) && v == s {
      var s0: nat, v0: nat :| s0 <= v0 && Contiguous(l.txs, s0, v0) && AllFrom(q, v0);
      if s < s0 {
        DemotionBehind(l, q, s, balance, maxGas);
      } else {
        DemotionOfRun(l, q, s, if v0 < s then s else v0, v, balance, maxGas);
      }
    } else {
      assert s in From(l.txs, s);
      DemotionOfRun(l, q, s, v, v, balance, maxGas);
    }
  }

  /** Demotion of an account whose pending run reaches down to the state nonce: no gap appears in front. */
  lemma DemotionOfRun(l: TxList, q: Txs, s: nat, hi: nat, v: nat, balance: nat, maxGas: nat)
    requires l.Valid() && l.strict && s <= hi && Contiguous(From(l.txs, s), s, hi) && AllFrom(q, hi)
    requires v == s || (s in l.txs && !TooExpensive(l.txs[s], balance, maxGas))
    ensures !Gapped(l.Forward(s).Filter(balance, maxGas).0, s)
    ensures var (rest, moved) := Demotion(l, s, balance, maxGas);
      Near(rest.txs, q + moved, s, v, balance, maxGas)
  {
    var fwd := l.Forward(s);
    FilterIsNaive(fwd, balance, maxGas);
    var removed := Expensive(fwd.txs, balance, maxGas);
    var mid := if removed == map[] then hi else NatSets.Least(removed.Keys);
    assert removed != map[] ==> mid in removed;
    var (rest, drops, invalids) := fwd.Filter(balance, maxGas);
    assert Contiguous(rest.txs, s, mid);
    assert AllFrom(invalids, mid) && AllFrom(q + invalids, mid);
    assert mid == s ==> v == s;
  }

  /** When the state nonce went back, the gap in front sends everything pending to the queue. */
  lemma DemotionBehind(l: TxList, q: Txs, s: nat, balance: nat, maxGas: nat)
    requires l.Valid() && l.strict && AllFrom(l.txs, s + 1) && AllFrom(q, s)
    ensures var (rest, moved) := Demotion(l, s, balance, maxGas);
      Near(rest.txs, q + moved, s, s, balance, maxGas)
  {
    var fwd := l.Forward(s);
    FilterIsNaive(fwd, balance, maxGas);
    var (rest, moved) := Demotion(l, s, balance, maxGas);
    assert rest.txs == map[];
    assert Contiguous(rest.txs, s, s) && AllFrom(q + moved, s);
  }
}
