/** The nonce discipline of the whole pool through the phases of a run. */
module PoolOrder {
  import opened Transactions
  import opened NonceMaps
  import opened TxLists
  import opened PoolBooks
  import opened PoolNonces
  import opened PoolRuns
  import opened Leveling
  import NatSets

  /** The accounts in `todo` still wait for promotion, the others had it. */
  ghost predicate Midway(pending: Lists, queue: Lists, head: Head, noncer: Noncer, todo: set<Address>) {
    && noncer.fallback == head.nonce
    && forall a {:trigger noncer.Get(a)} ::
         if a in todo then Waiting(At(pending, a), At(queue, a)) && noncer.Get(a) == head.nonce(a)
         else Mid(At(pending, a), At(queue, a), head.nonce(a), noncer.Get(a), head.balance(a), head.maxGas)
  }

  /** The accounts in `todo` still wait for demotion, the others had it. */
  ghost predicate Almost(pending: Lists, queue: Lists, head: Head, noncer: Noncer, todo: set<Address>) {
    && noncer.fallback == head.nonce
    && forall a {:trigger noncer.Get(a)} ::
         if a in todo then Mid(At(pending, a), At(queue, a), head.nonce(a), noncer.Get(a), head.balance(a), head.maxGas)
         else Near(At(pending, a), At(queue, a), head.nonce(a), noncer.Get(a), head.balance(a), head.maxGas)
  }

  /** A new head puts all accounts with a queue on the list for promotion. */
  lemma NewHead(pending: Lists, queue: Lists, prev: Head, noncer0: Noncer, head: Head)
    requires InOrder(pending, queue, prev, noncer0)
    ensures Midway(pending, queue, head, Noncer(head.nonce, map[]), queue.Keys)
  {
    var noncer := Noncer(head.nonce, map[]);
    forall a ensures
      if a in queue.Keys then Waiting(At(pending, a), At(queue, a)) && noncer.Get(a) == head.nonce(a)
      else Mid(At(pending, a), At(queue, a), head.nonce(a), noncer.Get(a), head.balance(a), head.maxGas)
    {
      assert NonceOk(At(pending, a), At(queue, a), prev.nonce(a), noncer0.Get(a), prev.balance(a), prev.maxGas);
      assert Waiting(At(pending, a), At(queue, a));
    }
  }

  lemma OrderIsMidway(pending: Lists, queue: Lists, head: Head, noncer: Noncer)
    requires InOrder(pending, queue, head, noncer)
    ensures Midway(pending, queue, head, noncer, {}) && Almost(pending, queue, head, noncer, {})
  {
    forall a
      ensures Mid(At(pending, a), At(queue, a), head.nonce(a), noncer.Get(a), head.balance(a), head.maxGas)
      ensures Near(At(pending, a), At(queue, a), head.nonce(a), noncer.Get(a), head.balance(a), head.maxGas)
    {
      OrderIsMid(At(pending, a), At(queue, a), head.nonce(a), noncer.Get(a), head.balance(a), head.maxGas);
    }
  }

  // -------- promotion --------

  /** The account's own part of a promotion. */
  lemma PromotedAccount(a: Address, head: Head, cap: Option<nat>, pending: Lists, queue: Lists, noncer: Noncer,
                        pending': Lists, queue': Lists, noncer': Noncer)
    requires PromotedFrom(a, head, cap, pending, queue, noncer, pending', queue', noncer')
    requires a in queue && queue[a].Valid() && !queue[a].strict
    ensures var pay := Payable(queue[a], head.nonce(a), head.balance(a), head.maxGas);
      var (rest, run) := pay.Ready(noncer.Get(a));
      && At(pending', a) == At(pending, a) + run && Submap(At(queue', a), rest.txs)
      && RunEndsAt(run, noncer.Get(a), noncer'.Get(a)) && noncer'.fallback == noncer.fallback
      && (forall b :: b != a ==> noncer'.Get(b) == noncer.Get(b))
  {
    PayableIs(queue[a], head.nonce(a), head.balance(a), head.maxGas);
    var pay := Payable(queue[a], head.nonce(a), head.balance(a), head.maxGas);
    ReadyBoundsAre(pay, noncer.Get(a));
    if cap.Some? {
      CapKeepsLowest(pay.Ready(noncer.Get(a)).0, cap.value);
    }
  }

  lemma PromotionKeepsOrder(a: Address, head: Head, cap: Option<nat>, pending: Lists, queue: Lists, noncer: Noncer,
                            pending': Lists, queue': Lists, noncer': Noncer)
    requires InOrder(pending, queue, head, noncer) && Shelved(queue, false)
    requires PromotedFrom(a, head, cap, pending, queue, noncer, pending', queue', noncer')
    ensures InOrder(pending', queue', head, noncer')
  {
    if a in queue {
      PromotedAccount(a, head, cap, pending, queue, noncer, pending', queue', noncer');
      forall b ensures NonceOk(At(pending', b), At(queue', b), head.nonce(b), noncer'.Get(b), head.balance(b), head.maxGas) {
        assert NonceOk(At(pending, b), At(queue, b), head.nonce(b), noncer.Get(b), head.balance(b), head.maxGas);
        if b == a {
          PromotedInOrder(At(pending, a), queue[a], head.nonce(a), noncer.Get(a), noncer'.Get(a), head.balance(a), head.maxGas, At(pending', a), At(queue', a));
        }
      }
    }
  }

  lemma PromotedInOrder(p: Txs, l: TxList, s: nat, v: nat, v': nat, balance: nat, maxGas: nat, p': Txs, q': Txs)
    requires l.Valid() && !l.strict && NonceOk(p, l.txs, s, v, balance, maxGas)
    requires var (rest, run) := Payable(l, s, balance, maxGas).Ready(v);
      p' == p + run && Submap(q', rest.txs) && RunEndsAt(run, v, v')
    ensures NonceOk(p', q', s, v', balance, maxGas)
  {
    var pay := Payable(l, s, balance, maxGas);
    PayableIs(l, s, balance, maxGas);
    QueueShrinks(p, l.txs, pay.txs, s, v, balance, maxGas);
    ReadyInOrder(p, pay, s, v, v', balance, maxGas);
    QueueShrinks(p', pay.Ready(v).0.txs, q', s, v', balance, maxGas);
  }

  lemma PromotionMidway(a: Address, head: Head, cap: Option<nat>, pending: Lists, queue: Lists, noncer: Noncer,
                        pending': Lists, queue': Lists, noncer': Noncer, todo: set<Address>)
    requires Midway(pending, queue, head, noncer, todo) && Shelved(queue, false) && a in todo
    requires PromotedFrom(a, head, cap, pending, queue, noncer, pending', queue', noncer')
    ensures Midway(pending', queue', head, noncer', todo - {a})
  {
    if a !in queue {
      NothingToPromote(a, head, pending, queue, noncer, todo);
      return;
    }
    PromotedAccount(a, head, cap, pending, queue, noncer, pending', queue', noncer');
    forall b ensures
      if b in todo - {a} then Waiting(At(pending', b), At(queue', b)) && noncer'.Get(b) == head.nonce(b)
      else Mid(At(pending', b), At(queue', b), head.nonce(b), noncer'.Get(b), head.balance(b), head.maxGas)
    {
      var v := noncer.Get(b);
      if b == a {
        PromotedMid(At(pending, a), queue[a], head.nonce(a), noncer'.Get(a), head.balance(a), head.maxGas, At(pending', a), At(queue', a));
      }
    }
  }

  lemma NothingToPromote(a: Address, head: Head, pending: Lists, queue: Lists, noncer: Noncer, todo: set<Address>)
    requires Midway(pending, queue, head, noncer, todo) && a in todo && a !in queue
    ensures Midway(pending, queue, head, noncer, todo - {a})
  {
    forall b ensures
      if b in todo - {a} then Waiting(At(pending, b), At(queue, b)) && noncer.Get(b) == head.nonce(b)
      else Mid(At(pending, b), At(queue, b), head.nonce(b), noncer.Get(b), head.balance(b), head.maxGas)
    {
      var v := noncer.Get(b);
    }
  }

  lemma PromotedMid(p: Txs, l: TxList, s: nat, v': nat, balance: nat, maxGas: nat, p': Txs, q': Txs)
    requires l.Valid() && !l.strict && Waiting(p, l.txs)
    requires var (rest, run) := Payable(l, s, balance, maxGas).Ready(s);
      p' == p + run && Submap(q', rest.txs) && RunEndsAt(run, s, v')
    ensures Mid(p', q', s, v', balance, maxGas)
  {
    var pay := Payable(l, s, balance, maxGas);
    PayableIs(l, s, balance, maxGas);
    ReadyAtNewHead(p, l.txs, pay, s, v', balance, maxGas);
    MidShrinks(p', pay.Ready(s).0.txs, q', s, v', balance, maxGas);
  }

  // -------- demotion --------

  lemma DemotionStarts(pending: Lists, queue: Lists, head: Head, noncer: Noncer)
    requires Midway(pending, queue, head, noncer, {})
    ensures Almost(pending, queue, head, noncer, pending.Keys)
  {
    forall a ensures
      if a in pending.Keys then Mid(At(pending, a), At(queue, a), head.nonce(a), noncer.Get(a), head.balance(a), head.maxGas)
      else Near(At(pending, a), At(queue, a), head.nonce(a), noncer.Get(a), head.balance(a), head.maxGas)
    {
      var v := noncer.Get(a);
      if a !in pending.Keys {
        MidEmptyIsNear(At(queue, a), head.nonce(a), v, head.balance(a), head.maxGas);
      }
    }
  }

  lemma DemotionStep(a: Address, pending: Lists, queue: Lists, head: Head, noncer: Noncer, pending': Lists, queue': Lists, todo: set<Address>)
    requires Almost(pending, queue, head, noncer, todo) && Shelved(pending, true) && a in todo
    requires DemotedFrom(a, head, pending, queue, pending', queue')
    ensures Almost(pending', queue', head, noncer, todo - {a})
  {
    forall b ensures
      if b in todo - {a} then Mid(At(pending', b), At(queue', b), head.nonce(b), noncer.Get(b), head.balance(b), head.maxGas)
      else Near(At(pending', b), At(queue', b), head.nonce(b), noncer.Get(b), head.balance(b), head.maxGas)
    {
      var v := noncer.Get(b);
      if b == a && a !in pending {
        MidEmptyIsNear(At(queue, a), head.nonce(a), v, head.balance(a), head.maxGas);
      } else if b == a {
        DemotionNear(pending[a], At(queue, a), head.nonce(a), v, head.balance(a), head.maxGas);
      }
    }
  }

  // -------- limits and the last pass --------

  /** Cutting a run from the top leaves a run, and not an empty one. */
  lemma NearCut(l: TxList, q: Txs, s: nat, v: nat, v': nat, balance: nat, maxGas: nat, k: nat)
    requires l.Valid() && Near(l.txs, q, s, v, balance, maxGas) && k >= 1
    requires v' == v || |l.Cap(k).txs| < |l.txs|
    ensures Near(l.Cap(k).txs, q, s, v', balance, maxGas)
  {
    CapKeepsLowest(l, k);
    var hi: nat :| s <= hi && Contiguous(l.txs, s, hi) && AllFrom(q, hi) && AllPayable(l.txs, balance, maxGas) && (hi == s ==> v == s);
    IntervalSize(l.txs.Keys, s, hi);
    if k < |l.txs| {
      CapOfInterval(l, s, hi, k);
      assert Contiguous(l.Cap(k).txs, s, s + k);
    }
  }

  lemma LevelKeepsOrder(before: Lists, queue: Lists, head: Head, noncer0: Noncer, locals: set<Address>, level: nat, noncer: Noncer)
    requires Almost(before, queue, head, noncer0, {}) && Shelved(before, true) && level >= 1
    requires noncer.fallback == noncer0.fallback
    requires forall a {:trigger noncer.Get(a)} ::
               || noncer.Get(a) == noncer0.Get(a)
               || (a in before && |Level(before, locals, {}, level)[a].txs| < |before[a].txs|)
    ensures Almost(Level(before, locals, {}, level), queue, head, noncer, {})
  {
    var after := Level(before, locals, {}, level);
    forall a ensures Near(At(after, a), At(queue, a), head.nonce(a), noncer.Get(a), head.balance(a), head.maxGas) {
      var v := noncer0.Get(a);
      if a in before && a !in locals {
        NearCut(before[a], At(queue, a), head.nonce(a), v, noncer.Get(a), head.balance(a), head.maxGas, level);
      }
    }
  }

  lemma QueueCutKeepsOrder(pending: Lists, before: Lists, queue: Lists, head: Head, noncer: Noncer, locals: set<Address>, beats: map<Address, int>)
    requires Almost(pending, before, head, noncer, {}) && QueueCut(before, queue, locals, beats)
    ensures Almost(pending, queue, head, noncer, {})
  {
    forall a ensures Near(At(pending, a), At(queue, a), head.nonce(a), noncer.Get(a), head.balance(a), head.maxGas) {
      var v := noncer.Get(a);
      assert LowestPart(At(queue, a), At(before, a));
      NearShrinks(At(pending, a), At(before, a), At(queue, a), head.nonce(a), v, head.balance(a), head.maxGas);
    }
  }

  lemma NearShrinks(p: Txs, q: Txs, q': Txs, s: nat, v: nat, balance: nat, maxGas: nat)
    requires Near(p, q, s, v, balance, maxGas) && LowestPart(q', q)
    ensures Near(p, q', s, v, balance, maxGas)
  {
    var hi: nat :| s <= hi && Contiguous(p, s, hi) && AllFrom(q, hi) && AllPayable(p, balance, maxGas) && (hi == s ==> v == s);
    assert AllFrom(q', hi);
  }

  /** The virtual nonce after the last pass: one above the highest pending nonce. */
  ghost predicate Renonced(pending: Lists, noncer: Noncer, noncer': Noncer, done: set<Address>) {
    && noncer'.fallback == noncer.fallback
    && forall a {:trigger noncer'.Get(a)} ::
         noncer'.Get(a) == if a in done && a in pending && pending[a].txs != map[] then NatSets.Greatest(pending[a].txs.Keys) + 1 else noncer.Get(a)
  }

  lemma RenonceStep(pending: Lists, noncer: Noncer, noncer': Noncer, done: set<Address>, a: Address)
    requires Renonced(pending, noncer, noncer', done) && a in pending && pending[a].txs != map[]
    ensures Renonced(pending, noncer, noncer'.Set(a, NatSets.Greatest(pending[a].txs.Keys) + 1), done + {a})
  {
    var next := noncer'.Set(a, NatSets.Greatest(pending[a].txs.Keys) + 1);
    assert forall b :: b != a ==> next.Get(b) == noncer'.Get(b);
  }

  /** The last pass of a run over the accounts with pending transactions. */
  method AfterLast(pending: Lists, noncer: Noncer) returns (noncer': Noncer)
    requires NoneEmpty(pending)
    ensures Renonced(pending, noncer, noncer', pending.Keys)
  {
    noncer' := noncer;
    var todo := pending.Keys;
    while todo != {}
      invariant todo <= pending.Keys
      invariant Renonced(pending, noncer, noncer', pending.Keys - todo)
      decreases todo
    {
      var a :| a in todo;
      RenonceStep(pending, noncer, noncer', pending.Keys - todo, a);
      noncer' := noncer'.Set(a, NatSets.Greatest(pending[a].txs.Keys) + 1);
      assert pending.Keys - (todo - {a}) == pending.Keys - todo + {a};
      todo := todo - {a};
    }
  }

  lemma LastPass(pending: Lists, queue: Lists, head: Head, noncer: Noncer, noncer': Noncer)
    requires Almost(pending, queue, head, noncer, {}) && Renonced(pending, noncer, noncer', pending.Keys)
    ensures InOrder(pending, queue, head, noncer')
  {
    forall a ensures NonceOk(At(pending, a), At(queue, a), head.nonce(a), noncer'.Get(a), head.balance(a), head.maxGas) {
      var v := noncer.Get(a);
      NearEnd(At(pending, a), At(queue, a), head.nonce(a), v, head.balance(a), head.maxGas);
    }
  }

  lemma NearEnd(p: Txs, q: Txs, s: nat, v: nat, balance: nat, maxGas: nat)
    requires Near(p, q, s, v, balance, maxGas)
    ensures NonceOk(p, q, s, if p == map[] then v else NatSets.Greatest(p.Keys) + 1, balance, maxGas)
  {
    var hi: nat :| s <= hi && Contiguous(p, s, hi) && AllFrom(q, hi) && AllPayable(p, balance, maxGas) && (hi == s ==> v == s);
    if hi == s {
      assert p == map[];
    } else {
      assert hi - 1 in p && s in p;
      assert NatSets.Greatest(p.Keys) in p.Keys;
    }
  }

  // -------- reinjected transactions --------

  /**
   After reinjection the queue may hold nonces below the pending run. There is a hole ahead if the
   run ready at the state nonce ends short of the pending run and the first pending transaction is payable.
   */
  ghost predicate HoleAhead(p: Txs, q: TxList, s: nat, balance: nat, maxGas: nat) {
    p != map[] &&
    var first := NatSets.Least(p.Keys);
    s < ReadyBounds(Payable(q, s, balance, maxGas), s).1 < first && !TooExpensive(p[first], balance, maxGas)
  }

  /** Pending is the run of the old head, queue anything else; then the ready run is added to pending. */
  ghost predicate Readied(p: Txs, q: TxList, s0: nat, v0: nat, s: nat, balance: nat, maxGas: nat, l: TxList, q': Txs, v: nat) {
    && s0 <= v0 && Contiguous(p, s0, v0) && q.Valid() && !q.strict && Disjoint(p, q.txs)
    && l.Valid() && l.strict
    && var (rest, run) := Payable(q, s, balance, maxGas).Ready(s);
      l.txs == p + run && Submap(q', rest.txs) && v == ReadyBounds(Payable(q, s, balance, maxGas), s).1
  }

  /**
   When the discipline survives a new head with reinjected transactions: exactly if there is no
   hole ahead. Demotion only looks for a gap in front, so with a hole no queue and no virtual
   nonce would put the account in order.
   */
  lemma OrderedIffNoHole(p: Txs, q: TxList, s0: nat, v0: nat, s: nat, balance: nat, maxGas: nat, l: TxList, q': Txs, v: nat)
    requires Readied(p, q, s0, v0, s, balance, maxGas, l, q', v)
    ensures var (rest, moved) := Demotion(l, s, balance, maxGas);
      && (Near(rest.txs, q' + moved, s, v, balance, maxGas) <==> !HoleAhead(p, q, s, balance, maxGas))
      && (HoleAhead(p, q, s, balance, maxGas) ==> forall hi, q'' :: !NonceOk(rest.txs, q'', s, hi, balance, maxGas))
  {
    ReadyRun(p, q, s0, v0, s, balance, maxGas, l, q', v);
    var run := Payable(q, s, balance, maxGas).Ready(s).1;
    if HoleAhead(p, q, s, balance, maxGas) {
      HoleStays(p, run, s0, v0, s, v, balance, maxGas, l);
    } else if s < s0 < v0 && v == s {
      DemotionBehind(l, q', s, balance, maxGas);
    } else if s < v < s0 < v0 {
      UnpayableRunGoes(p, run, s0, v0, s, v, balance, maxGas, l, q');
    } else {
      WholeRun(p, run, s0, v0, s, v, balance, maxGas, l, q');
    }
  }

  /** The bounds of what was promoted, next to the pending run. */
  lemma ReadyRun(p: Txs, q: TxList, s0: nat, v0: nat, s: nat, balance: nat, maxGas: nat, l: TxList, q': Txs, v: nat)
    requires Readied(p, q, s0, v0, s, balance, maxGas, l, q', v)
    ensures s0 < v0 <==> p != map[]
    ensures s0 < v0 ==> s0 in p && NatSets.Least(p.Keys) == s0
    ensures var run := Payable(q, s, balance, maxGas).Ready(s).1;
      && s <= v && Contiguous(run, s, v) && AllPayable(run, balance, maxGas) && l.txs == p + run && Disjoint(p, run)
    ensures AllFrom(q', s) && (s < v ==> AllFrom(q', v)) && Disjoint(p, q') && (s < v && s < s0 < v0 ==> v <= s0)
  {
    PayableIs(q, s, balance, maxGas);
    var pay := Payable(q, s, balance, maxGas);
    ReadyBoundsAre(pay, s);
    ReadyTakesRun(pay, s);
    assert s0 < v0 ==> s0 in p;
    var run := pay.Ready(s).1;
    assert run != map[] ==> s in run;
  }

  lemma HoleStays(p: Txs, run: Txs, s0: nat, v0: nat, s: nat, e: nat, balance: nat, maxGas: nat, l: TxList)
    requires l.Valid() && l.strict && s < e < s0 < v0 && Contiguous(p, s0, v0) && !TooExpensive(p[s0], balance, maxGas)
    requires Contiguous(run, s, e) && AllPayable(run, balance, maxGas) && l.txs == p + run && Disjoint(p, run)
    ensures forall hi :: !Contiguous(Demotion(l, s, balance, maxGas).0.txs, s, hi)
  {
    assert s0 in p && s in run && e !in run && e !in p;
    FilterIsNaive(l.Forward(s), balance, maxGas);
    var removed := Expensive(l.Forward(s).txs, balance, maxGas);
    forall n | n in removed ensures n > s0 {
      assert n !in run;
    }
    assert removed != map[] ==> NatSets.Least(removed.Keys) in removed;
    var rest := Demotion(l, s, balance, maxGas).0.txs;
    assert s in rest && s0 in rest && e !in rest;
  }

  lemma UnpayableRunGoes(p: Txs, run: Txs, s0: nat, v0: nat, s: nat, e: nat, balance: nat, maxGas: nat, l: TxList, q: Txs)
    requires l.Valid() && l.strict && s < e < s0 < v0 && Contiguous(p, s0, v0) && TooExpensive(p[s0], balance, maxGas) && AllFrom(q, e)
    requires Contiguous(run, s, e) && AllPayable(run, balance, maxGas) && l.txs == p + run && Disjoint(p, run)
    ensures var (rest, moved) := Demotion(l, s, balance, maxGas);
      Near(rest.txs, q + moved, s, e, balance, maxGas)
  {
    FilterIsNaive(l.Forward(s), balance, maxGas);
    var removed := Expensive(l.Forward(s).txs, balance, maxGas);
    assert s in run && s0 in p && s0 in removed;
    forall n | n in removed ensures n >= s0 {
      assert n !in run;
    }
    assert NatSets.Least(removed.Keys) == s0;
    var (rest, moved) := Demotion(l, s, balance, maxGas);
    assert Contiguous(rest.txs, s, e);
    assert AllFrom(moved, e) && AllFrom(q + moved, e);
  }

  /** What was promoted joins the pending run, or the pending run lies below the state nonce or covers it. */
  lemma WholeRun(p: Txs, run: Txs, s0: nat, v0: nat, s: nat, e: nat, balance: nat, maxGas: nat, l: TxList, q: Txs)
    requires l.Valid() && l.strict && s0 <= v0 && s <= e && Contiguous(p, s0, v0)
    requires Contiguous(run, s, e) && AllPayable(run, balance, maxGas) && l.txs == p + run && Disjoint(p, run)
    requires AllFrom(q, s) && (s < e ==> AllFrom(q, e)) && Disjoint(p, q) && (s < s0 < v0 ==> e == s0)
    ensures var (rest, moved) := Demotion(l, s, balance, maxGas);
      Near(rest.txs, q + moved, s, e, balance, maxGas)
  {
    assert s < e ==> s in run && s !in p;
    var hi := if s0 < v0 && s < v0 then v0 else e;
    assert Contiguous(From(l.txs, s), s, hi);
    assert AllFrom(q, hi);
    DemotionOfRun(l, q, s, hi, e, balance, maxGas);
  }

  /**
   An example of a hole. The state nonce went back from 3 to 1 and only the transaction with nonce 1
   came back: promotion puts it in front of the pending one with nonce 3, and the hole stays.
   */
  lemma ReinjectionMayLeaveHole(l: TxList, q: TxList, t1: Tx, t3: Tx, balance: nat, maxGas: nat)
    requires t1.nonce == 1 && t3.nonce == 3 && !TooExpensive(t1, balance, maxGas) && !TooExpensive(t3, balance, maxGas)
    requires q.Valid() && !q.strict && q.txs == map[1 := t1]
    requires l.Valid() && l.strict && l.txs == map[3 := t3] + Payable(q, 1, balance, maxGas).Ready(1).1
    ensures NonceOk(map[3 := t3], map[], 3, 4, balance, maxGas)
    ensures forall hi, q'' :: !NonceOk(Demotion(l, 1, balance, maxGas).0.txs, q'', 1, hi, balance, maxGas)
  {
    var p: Txs := map[3 := t3];
    OneIsReady(q, 1, t1, balance, maxGas);
    assert 3 in p.Keys && NatSets.Least(p.Keys) in p.Keys;
    OrderedIffNoHole(p, q, 3, 4, 1, balance, maxGas, l, map[], 2);
  }

  lemma OneIsReady(q: TxList, n: nat, tx: Tx, balance: nat, maxGas: nat)
    requires q.Valid() && !q.strict && q.txs == map[n := tx] && !TooExpensive(tx, balance, maxGas)
    ensures ReadyBounds(Payable(q, n, balance, maxGas), n) == (n, n + 1)
    ensures Payable(q, n, balance, maxGas).Ready(n).1 == map[n := tx]
  {
    FilterIsNaive(q.Forward(n), balance, maxGas);
    var pay := Payable(q, n, balance, maxGas);
    assert pay.txs == q.txs;
    ReadyBoundsAre(pay, n);
    assert n in pay.txs.Keys && n + 1 !in pay.txs.Keys;
    ReadyTakesRun(pay, n);
    assert pay.Ready(n).1 != map[];
    assert n in pay.Ready(n).1;
  }

  // -------- gaps in front --------

  /** No account misses its state nonce while it has higher pending ones. */
  ghost predicate Unbroken(pending: Lists, head: Head) {
    forall a {:trigger At(pending, a)} :: RunsFrom(At(pending, a), head.nonce(a))
  }

  ghost predicate UnbrokenIn(pending: Lists, head: Head, todo: set<Address>) {
    forall a :: a in todo ==> RunsFrom(At(pending, a), head.nonce(a))
  }

  ghost predicate NoncesGrow(prev: Head, head: Head) {
    forall a :: prev.nonce(a) <= head.nonce(a)
  }

  ghost predicate RunsFrom(p: Txs, s: nat) {
    exists hi: nat :: s <= hi && Contiguous(From(p, s), s, hi)
  }

  lemma OrderIsUnbroken(pending: Lists, queue: Lists, prev: Head, noncer: Noncer, head: Head)
    requires InOrder(pending, queue, prev, noncer) && NoncesGrow(prev, head)
    ensures Unbroken(pending, head)
  {
    forall a ensures RunsFrom(At(pending, a), head.nonce(a)) {
      var v := noncer.Get(a);
      assert NonceOk(At(pending, a), At(queue, a), prev.nonce(a), v, prev.balance(a), prev.maxGas);
      assert Contiguous(From(At(pending, a), head.nonce(a)), head.nonce(a), if v < head.nonce(a) then head.nonce(a) else v);
    }
  }

  lemma PromotionUnbroken(a: Address, head: Head, cap: Option<nat>, pending: Lists, queue: Lists, noncer: Noncer,
                          pending': Lists, queue': Lists, noncer': Noncer, todo: set<Address>)
    requires Midway(pending, queue, head, noncer, todo) && Shelved(queue, false) && a in todo && Unbroken(pending, head)
    requires PromotedFrom(a, head, cap, pending, queue, noncer, pending', queue', noncer')
    ensures Unbroken(pending', head)
  {
    if a in queue {
      PromotedAccount(a, head, cap, pending, queue, noncer, pending', queue', noncer');
      var v := noncer.Get(a);
      ReadyUnbroken(At(pending, a), queue[a], head.nonce(a), head.balance(a), head.maxGas);
    }
    forall b ensures RunsFrom(At(pending', b), head.nonce(b)) {
      assert RunsFrom(At(pending, b), head.nonce(b));
    }
  }

  lemma ReadyUnbroken(p: Txs, l: TxList, s: nat, balance: nat, maxGas: nat)
    requires l.Valid() && !l.strict && Waiting(p, l.txs) && RunsFrom(p, s)
    ensures RunsFrom(p + Payable(l, s, balance, maxGas).Ready(s).1, s)
  {
    PayableIs(l, s, balance, maxGas);
    var pay := Payable(l, s, balance, maxGas);
    ReadyBoundsAre(pay, s);
    var run, e := pay.Ready(s).1, ReadyBounds(pay, s).1;
    if run == map[] {
      assert p + run == p;
    } else {
      ReadyAtNewHead(p, l.txs, pay, s, e, balance, maxGas);
      assert s in p + run;
      ReadyTakesRun(pay, s);
      assert Contiguous(From(p + run, s), s, e);
    }
  }

  lemma UnbrokenNotGapped(l: TxList, s: nat, balance: nat, maxGas: nat)
    requires l.Valid() && l.strict && RunsFrom(l.txs, s)
    ensures !Gapped(l.Forward(s).Filter(balance, maxGas).0, s)
  {
    var hi: nat :| s <= hi && Contiguous(From(l.txs, s), s, hi);
    DemotionOfRun(l, map[], s, hi, s, balance, maxGas);
  }

  lemma UnbrokenStep(a: Address, head: Head, pending: Lists, queue: Lists, pending': Lists, queue': Lists, todo: set<Address>)
    requires UnbrokenIn(pending, head, todo) && a in todo && Shelved(pending, true) && DemotedFrom(a, head, pending, queue, pending', queue')
    ensures a in pending ==> !GappedAt(pending, a, head)
    ensures UnbrokenIn(pending', head, todo - {a})
  {
    if a in pending {
      UnbrokenNotGapped(pending[a], head.nonce(a), head.balance(a), head.maxGas);
    }
  }
}
