/** Applying the transactions of a block, and what receipts and skipped indices then say about it. */
module BlockProcessing {
  import opened Transactions
  import opened GasPower
  import opened GasAccounting

  /** A transaction with what it carries. */
  datatype Item = Item(tx: Tx, payload: Payload)

  datatype Receipt = Receipt(txHash: Hash, index: nat, failed: bool, gasUsed: nat, cumulative: nat)

  /** An internal transaction comes from the zero address and its nonce is not checked. */
  function AsMessage(it: Item, internal: bool): Message {
    if internal then Message(ZERO_ADDRESS, it.tx.nonce, false, it.tx.gasPrice, it.tx.gas, it.tx.value, it.payload)
    else Message(it.tx.sender, it.tx.nonce, true, it.tx.gasPrice, it.tx.gas, it.tx.value, it.payload)
  }

  // ---------------------------------------------------------------- skipped indices

  ghost predicate Ascending(skipped: seq<nat>, bound: nat) {
    && (forall i, j :: 0 <= i < j < |skipped| ==> skipped[i] < skipped[j])
    && forall i :: 0 <= i < |skipped| ==> skipped[i] < bound
  }

  /** The items whose index is not skipped. */
  ghost function Kept<T>(items: seq<T>, skipped: seq<nat>): (r: seq<T>)
    ensures |r| <= |items|
  {
    if items == [] then [] else
    var n := |items| - 1;
    var front := Kept(items[..n], skipped);
    if n in skipped then front else front + [items[n]]
  }

  /** Indices beyond the items do not matter. */
  lemma {:induction false} KeptAgree<T>(items: seq<T>, s: seq<nat>, s': seq<nat>)
    requires forall i :: 0 <= i < |items| ==> (i in s <==> i in s')
    ensures Kept(items, s) == Kept(items, s')
  {
    if items != [] {
      KeptAgree(items[..|items| - 1], s, s');
    }
  }

  lemma KeptNext<T>(items: seq<T>, skipped: seq<nat>, i: nat)
    requires i < |items|
    ensures Kept(items[..i + 1], skipped) == if i in skipped then Kept(items[..i], skipped) else Kept(items[..i], skipped) + [items[i]]
  {
    assert items[..i + 1][..i] == items[..i];
  }

  /** How far the skipped indices are used up before index `i`. */
  ghost predicate Cursor(skipped: seq<nat>, count: nat, i: nat) {
    && count <= |skipped|
    && (forall k :: 0 <= k < count ==> skipped[k] < i)
    && forall k :: count <= k < |skipped| ==> i <= skipped[k]
  }

  lemma CursorStep(skipped: seq<nat>, count: nat, i: nat, bound: nat)
    requires Ascending(skipped, bound) && Cursor(skipped, count, i)
    ensures i in skipped <==> count < |skipped| && skipped[count] == i
    ensures Cursor(skipped, if i in skipped then count + 1 else count, i + 1)
  {
    if i in skipped {
      var k :| 0 <= k < |skipped| && skipped[k] == i;
      assert k >= count;
      assert skipped[count] >= i;
    }
  }

  /** The single scan over ascending indices keeps exactly what is not skipped. */
  method FilterSkippedTxs<T>(txs: seq<T>, skipped: seq<nat>) returns (r: seq<T>)
    requires Ascending(skipped, |txs|)
    ensures r == Kept(txs, skipped)
  {
    if |skipped| == 0 {
      KeepsAll(txs);
      return txs;
    }
    var count := 0;
    r := [];
    for i := 0 to |txs|
      invariant Cursor(skipped, count, i)
      invariant r == Kept(txs[..i], skipped)
    {
      CursorStep(skipped, count, i, |txs|);
      KeptNext(txs, skipped, i);
      if count < |skipped| && skipped[count] == i {
        count := count + 1;
      } else {
        r := r + [txs[i]];
      }
    }
    assert txs[..|txs|] == txs;
  }

  lemma {:induction false} KeepsAll<T>(items: seq<T>)
    ensures Kept(items, []) == items
  {
    if items != [] {
      KeepsAll(items[..|items| - 1]);
    }
  }

  function Shifted(skipped: seq<nat>, offset: nat): (r: seq<nat>)
    ensures |r| == |skipped| && forall i :: 0 <= i < |r| ==> r[i] == skipped[i] + offset
  {
    seq(|skipped|, i requires 0 <= i < |skipped| => skipped[i] + offset)
  }

  lemma ShiftedIn(skipped: seq<nat>, offset: nat, n: nat)
    ensures n + offset in Shifted(skipped, offset) <==> n in skipped
  {
    var r := Shifted(skipped, offset);
    if n in skipped {
      var i :| 0 <= i < |skipped| && skipped[i] == n;
      assert r[i] == n + offset;
    }
  }

  /** Two batches one after the other, the indices of the second moved up. */
  lemma {:induction false} KeptConcat<T>(a: seq<T>, s: seq<nat>, b: seq<T>, s': seq<nat>)
    requires forall i :: 0 <= i < |s| ==> s[i] < |a|
    ensures Kept(a + b, s + Shifted(s', |a|)) == Kept(a, s) + Kept(b, s')
    decreases |b|
  {
    var all := s + Shifted(s', |a|);
    if b == [] {
      assert a + b == a;
      forall i | 0 <= i < |a| ensures i in all <==> i in s {
      }
      KeptAgree(a, s, all);
    } else {
      var n := |b| - 1;
      KeptConcat(a, s, b[..n], s');
      assert (a + b)[..|a| + n] == a + b[..n];
      ShiftedIn(s', |a|, n);
      assert |a| + n in all <==> n in s';
    }
  }

  lemma AscendingConcat(s: seq<nat>, bound: nat, s': seq<nat>, bound': nat)
    requires Ascending(s, bound) && Ascending(s', bound')
    ensures Ascending(s + Shifted(s', bound), bound + bound')
  {
  }

  // ---------------------------------------------------------------- a run over a batch

  /** The state in the middle of a batch. */
  datatype Book = Book(world: World, pool: nat, used: nat, receipts: seq<Receipt>, skipped: seq<nat>)

  function Entry(it: Item, i: nat, used: nat, failed: bool, before: nat): Receipt {
    Receipt(it.tx.hash, i, failed, used, Wrap(before + used))
  }

  function Record(b: Book, it: Item, i: nat, c: Change): Book {
    match c
    case Skipped(_, w, pool) => Book(w, pool, b.used, b.receipts, b.skipped + [i])
    case Applied(used, failed, w, pool) =>
      Book(w, pool, Wrap(b.used + used), b.receipts + [Entry(it, i, used, failed, b.used)], b.skipped)
  }

  ghost function Next(run: Machine, b: Book, it: Item, i: nat, internal: bool): Book
    requires Honest(run)
  {
    Record(b, it, i, Apply(run, b.world, b.pool, AsMessage(it, internal)))
  }

  /** The book after the first `n` items. */
  ghost function After(run: Machine, w: World, limit: nat, used: nat, items: seq<Item>, internal: bool, n: nat): Book
    requires Honest(run) && n <= |items|
  {
    if n == 0 then Book(w, limit, used, [], []) else
    Next(run, After(run, w, limit, used, items, internal, n - 1), items[n - 1], n - 1, internal)
  }

  /** All items can be sent as messages. */
  predicate Signed(items: seq<Item>, internal: bool) {
    internal || forall i :: 0 <= i < |items| ==> items[i].tx.signed
  }

  method ApplyTransaction(run: Machine, gp: GasPool, db: StateDb, it: Item, i: nat, used: nat, internal: bool) returns (r: Option<Receipt>, total: nat)
    requires Honest(run) && gp.gas < WORD
    modifies gp, db
    ensures gp.gas < WORD
    ensures var c := Apply(run, old(db.world), old(gp.gas), AsMessage(it, internal));
      && db.world == c.world && gp.gas == c.pool
      && match c {
        case Skipped(_, _, _) => r == None && total == used
        case Applied(gas, failed, _, _) => r == Some(Entry(it, i, gas, failed, used)) && total == Wrap(used + gas)
      }
  {
    var st := new StateTransition(run, AsMessage(it, internal), gp, db);
    var res := st.TransitionDb();
    if res.Err? {
      return None, used;
    }
    total := Wrap(used + res.value.0);
    r := Some(Receipt(it.tx.hash, i, res.value.1, res.value.0, total));
  }

  /** Applies the items in order; `None` if one of them has no valid signature. */
  method Process(run: Machine, db: StateDb, limit: nat, items: seq<Item>, used: nat, internal: bool)
    returns (r: Option<(seq<Receipt>, seq<nat>)>, total: nat)
    requires Honest(run) && limit < WORD
    modifies db
    ensures r.Some? <==> Signed(items, internal)
    ensures r.Some? ==>
      var b := After(run, old(db.world), limit, used, items, internal, |items|);
      r.value == (b.receipts, b.skipped) && total == b.used && db.world == b.world
  {
    var gp := new GasPool(limit);
    total := used;
    var receipts: seq<Receipt>, skipped: seq<nat> := [], [];
    ghost var w0, book := db.world, Book(db.world, limit, used, [], []);
    for i := 0 to |items|
      invariant gp.gas < WORD && forall j :: 0 <= j < i ==> internal || items[j].tx.signed
      invariant Reached(run, w0, limit, used, items, internal, i, book)
      invariant book == Book(db.world, gp.gas, total, receipts, skipped)
    {
      if !internal && !items[i].tx.signed {
        return None, total;
      }
      ReachNext(run, w0, limit, used, items, internal, i, book);
      total, receipts, skipped := ProcessOne(run, gp, db, items[i], i, total, internal, receipts, skipped);
      book := Next(run, book, items[i], i, internal);
    }
    return Some((receipts, skipped)), total;
  }

  /** The book after the first `i` items. */
  ghost predicate Reached(run: Machine, w: World, limit: nat, used: nat, items: seq<Item>, internal: bool, i: nat, book: Book)
    requires Honest(run)
  {
    i <= |items| && book == After(run, w, limit, used, items, internal, i)
  }

  lemma ReachNext(run: Machine, w: World, limit: nat, used: nat, items: seq<Item>, internal: bool, i: nat, book: Book)
    requires Honest(run) && i < |items| && Reached(run, w, limit, used, items, internal, i, book)
    ensures Reached(run, w, limit, used, items, internal, i + 1, Next(run, book, items[i], i, internal))
  {
  }

  method ProcessOne(run: Machine, gp: GasPool, db: StateDb, it: Item, i: nat, used: nat, internal: bool, receipts: seq<Receipt>, skipped: seq<nat>)
    returns (total: nat, receipts': seq<Receipt>, skipped': seq<nat>)
    requires Honest(run) && gp.gas < WORD
    modifies gp, db
    ensures gp.gas < WORD
    ensures Book(db.world, gp.gas, total, receipts', skipped') == Next(run, Book(old(db.world), old(gp.gas), used, receipts, skipped), it, i, internal)
  {
    var receipt;
    receipt, total := ApplyTransaction(run, gp, db, it, i, used, internal);
    if receipt.None? {
      receipts', skipped' := receipts, skipped + [i];
    } else {
      receipts', skipped' := receipts + [receipt.value], skipped;
    }
  }

  // ---------------------------------------------------------------- what a run keeps

  /** Receipts stand one-to-one for the kept items, in order. */
  ghost predicate Matches(items: seq<Item>, receipts: seq<Receipt>) {
    && |receipts| == |items|
    && forall j :: 0 <= j < |items| ==> receipts[j].txHash == items[j].tx.hash && receipts[j].gasUsed <= items[j].tx.gas
  }

  /** Gas used by the first `n` receipts. */
  function GasOf(receipts: seq<Receipt>, n: nat): nat
    requires n <= |receipts|
  {
    if n == 0 then 0 else GasOf(receipts, n - 1) + receipts[n - 1].gasUsed
  }

  /** Gas used so far, counted from `start`, cut to the word. */
  function Running(receipts: seq<Receipt>, start: nat, n: nat): nat
    requires n <= |receipts|
  {
    Wrap(start + GasOf(receipts, n))
  }

  /** Cumulative gas is the prefix sum. */
  ghost predicate Cumulative(receipts: seq<Receipt>, start: nat) {
    forall j :: 0 <= j < |receipts| ==> receipts[j].cumulative == Running(receipts, start, j + 1) && receipts[j].gasUsed < WORD
  }

  ghost function FeesOf(items: seq<Item>, receipts: seq<Receipt>): nat
    requires |items| == |receipts|
  {
    if items == [] then 0 else
    var n := |items| - 1;
    FeesOf(items[..n], receipts[..n]) + Cost(receipts[n].gasUsed, items[n].tx.gasPrice)
  }

  lemma MatchesMore(items: seq<Item>, receipts: seq<Receipt>, it: Item, r: Receipt)
    requires Matches(items, receipts) && r.txHash == it.tx.hash && r.gasUsed <= it.tx.gas
    ensures Matches(items + [it], receipts + [r])
    ensures FeesOf(items + [it], receipts + [r]) == FeesOf(items, receipts) + Cost(r.gasUsed, it.tx.gasPrice)
  {
    assert (items + [it])[..|items|] == items;
    assert (receipts + [r])[..|receipts|] == receipts;
  }

  lemma {:induction false} SamePrefix(receipts: seq<Receipt>, more: seq<Receipt>, n: nat)
    requires n <= |receipts|
    ensures GasOf(receipts + more, n) == GasOf(receipts, n)
  {
    if n > 0 {
      SamePrefix(receipts, more, n - 1);
    }
  }

  lemma RunningMore(receipts: seq<Receipt>, start: nat, r: Receipt)
    ensures GasOf(receipts + [r], |receipts| + 1) == GasOf(receipts, |receipts|) + r.gasUsed
    ensures Running(receipts + [r], start, |receipts| + 1) == Wrap(Running(receipts, start, |receipts|) + r.gasUsed)
  {
    SamePrefix(receipts, [r], |receipts|);
    WrapTwice(start + GasOf(receipts, |receipts|), r.gasUsed);
  }

  lemma CumulativeMore(receipts: seq<Receipt>, start: nat, r: Receipt)
    requires Cumulative(receipts, start) && r.gasUsed < WORD
    requires r.cumulative == Wrap(Running(receipts, start, |receipts|) + r.gasUsed)
    ensures Cumulative(receipts + [r], start)
    ensures Running(receipts + [r], start, |receipts| + 1) == r.cumulative
    ensures GasOf(receipts + [r], |receipts| + 1) == GasOf(receipts, |receipts|) + r.gasUsed
  {
    var n := |receipts|;
    RunningMore(receipts, start, r);
    forall j | 0 <= j < n ensures receipts[j].cumulative == Running(receipts + [r], start, j + 1) {
      SamePrefix(receipts, [r], j + 1);
    }
  }

  /** Every item carries at least its intrinsic gas, as the basic checks of events demand. */
  ghost predicate Funded(items: seq<Item>, internal: bool) {
    forall i :: 0 <= i < |items| ==> LateRefusal(AsMessage(items[i], internal)).None?
  }

  /** The book tells what happened to the items so far. */
  ghost predicate Tells(b: Book, items: seq<Item>, used: nat) {
    && Ascending(b.skipped, |items|)
    && Matches(Kept(items, b.skipped), b.receipts)
    && b.used == Running(b.receipts, used, |b.receipts|) && Cumulative(b.receipts, used)
  }

  lemma KeptLast<T>(items: seq<T>, n: nat, skipped: seq<nat>)
    requires n < |items| && Ascending(skipped, n)
    ensures Kept(items[..n + 1], skipped) == Kept(items[..n], skipped) + [items[n]]
    ensures Kept(items[..n + 1], skipped + [n]) == Kept(items[..n], skipped)
    ensures Ascending(skipped + [n], n + 1) && Ascending(skipped, n + 1)
  {
    KeptNext(items, skipped, n);
    KeptNext(items, skipped + [n], n);
    assert (skipped + [n])[|skipped|] == n;
    forall i | 0 <= i < n ensures i in skipped + [n] <==> i in skipped {
    }
    KeptAgree(items[..n], skipped, skipped + [n]);
  }

  lemma TellsNothing(b: Book, items: seq<Item>)
    requires b.receipts == [] && b.skipped == [] && items == [] && b.used < WORD
    ensures Tells(b, items, b.used)
  {
    WrapTwice(b.used, 0);
  }

  lemma TellsSkipped(b: Book, items: seq<Item>, n: nat, used: nat, c: Change)
    requires n < |items| && Tells(b, items[..n], used) && c.Skipped?
    ensures Tells(Record(b, items[n], n, c), items[..n + 1], used)
  {
    KeptLast(items, n, b.skipped);
  }

  lemma TellsApplied(b: Book, items: seq<Item>, n: nat, used: nat, c: Change)
    requires n < |items| && Tells(b, items[..n], used) && c.Applied? && c.used <= items[n].tx.gas < WORD
    ensures Tells(Record(b, items[n], n, c), items[..n + 1], used)
  {
    var e := Entry(items[n], n, c.used, c.failed, b.used);
    MatchesApplied(b.receipts, b.skipped, items, n, e);
    CumulativeMore(b.receipts, used, e);
  }

  lemma MatchesApplied(receipts: seq<Receipt>, skipped: seq<nat>, items: seq<Item>, n: nat, e: Receipt)
    requires n < |items| && Ascending(skipped, n) && Matches(Kept(items[..n], skipped), receipts)
    requires e.txHash == items[n].tx.hash && e.gasUsed <= items[n].tx.gas
    ensures Ascending(skipped, n + 1) && Matches(Kept(items[..n + 1], skipped), receipts + [e])
  {
    KeptLast(items, n, skipped);
    MatchesMore(Kept(items[..n], skipped), receipts, items[n], e);
  }

  lemma TellsMore(b: Book, items: seq<Item>, n: nat, used: nat, c: Change)
    requires n < |items| && Tells(b, items[..n], used) && (c.Applied? ==> c.used <= items[n].tx.gas < WORD)
    ensures Tells(Record(b, items[n], n, c), items[..n + 1], used)
  {
    if c.Applied? {
      TellsApplied(b, items, n, used, c);
    } else {
      TellsSkipped(b, items, n, used, c);
    }
  }

  /** Receipts and skipped indices describe the run, whatever the transactions and the machine do. */
  lemma {:induction false} RunTells(run: Machine, w: World, limit: nat, used: nat, items: seq<Item>, internal: bool, n: nat)
    requires Honest(run) && n <= |items| && used < WORD && forall i :: 0 <= i < |items| ==> items[i].tx.gas < WORD
    ensures Tells(After(run, w, limit, used, items, internal, n), items[..n], used)
  {
    if n == 0 {
      TellsNothing(After(run, w, limit, used, items, internal, 0), items[..0]);
    } else {
      var m := n - 1;
      RunTells(run, w, limit, used, items, internal, m);
      var b := After(run, w, limit, used, items, internal, m);
      var msg := AsMessage(items[m], internal);
      var c := Apply(run, b.world, b.pool, msg);
      if c.Applied? {
        SenderPays(run, b.world, b.pool, msg, 0);
      }
      TellsMore(b, items, m, used, c);
    }
  }

  // ---------------------------------------------------------------- conservation

  /** Gas bought by a message that is then skipped all the same; nothing is given back for it. */
  function LostBy(w: World, pool: nat, msg: Message): nat {
    if Refusal(w, pool, msg).None? && LateRefusal(msg).Some? then msg.gas else 0
  }

  ghost function Lost(run: Machine, w: World, limit: nat, used: nat, items: seq<Item>, internal: bool, n: nat): nat
    requires Honest(run) && n <= |items|
  {
    if n == 0 then 0 else
    var b := After(run, w, limit, used, items, internal, n - 1);
    Lost(run, w, limit, used, items, internal, n - 1) + LostBy(b.world, b.pool, AsMessage(items[n - 1], internal))
  }

  ghost function Held(b: Book): nat { b.pool + GasOf(b.receipts, |b.receipts|) }

  lemma HeldStep(run: Machine, b: Book, it: Item, i: nat, internal: bool)
    requires Honest(run)
    ensures Held(Next(run, b, it, i, internal)) + LostBy(b.world, b.pool, AsMessage(it, internal)) == Held(b)
  {
    var msg := AsMessage(it, internal);
    var c := Apply(run, b.world, b.pool, msg);
    if c.Applied? {
      SenderPays(run, b.world, b.pool, msg, 0);
      SamePrefix(b.receipts, [Entry(it, i, c.used, c.failed, b.used)], |b.receipts|);
    }
  }

  /** No gas appears or disappears: the pool, the receipts and what skipped items lost make up the limit. */
  lemma {:induction false} GasIsConserved(run: Machine, w: World, limit: nat, used: nat, items: seq<Item>, internal: bool, n: nat)
    requires Honest(run) && n <= |items|
    ensures Held(After(run, w, limit, used, items, internal, n)) + Lost(run, w, limit, used, items, internal, n) == limit
  {
    if n > 0 {
      GasIsConserved(run, w, limit, used, items, internal, n - 1);
      HeldStep(run, After(run, w, limit, used, items, internal, n - 1), items[n - 1], n - 1, internal);
    }
  }

  /**
   Without the intrinsic gas rule a skipped transaction may lose gas: a signed transfer with 20999 gas,
   the right nonce and enough money is skipped, and its sender has paid for all of it.
   */
  lemma SkipMayCharge(run: Machine, w: World, limit: nat, it: Item)
    requires Honest(run) && limit >= 20999 && it.tx.gas == 20999 && it.tx.signed && it.payload == Payload(Some(2), [], None)
    requires w.Nonce(it.tx.sender) == it.tx.nonce && w.Balance(it.tx.sender) >= Cost(20999, it.tx.gasPrice)
    ensures var b := After(run, w, limit, 0, [it], false, 1);
      b.skipped == [0] && b.receipts == [] && b.pool == limit - 20999 && b.world == w.Debit(it.tx.sender, Cost(20999, it.tx.gasPrice))
    ensures Lost(run, w, limit, 0, [it], false, 1) == 20999
  {
    WrapTwice(TX_GAS, 0);
    assert LateRefusal(AsMessage(it, false)) == Some(BelowIntrinsicGas);
    assert After(run, w, limit, 0, [it], false, 0) == Book(w, limit, 0, [], []);
    assert Lost(run, w, limit, 0, [it], false, 0) == 0;
  }

  /** With the intrinsic gas rule nothing is lost, so the pool drops by exactly the gas of the receipts. */
  lemma {:induction false} NothingLost(run: Machine, w: World, limit: nat, used: nat, items: seq<Item>, internal: bool, n: nat)
    requires Honest(run) && n <= |items| && Funded(items, internal)
    ensures Lost(run, w, limit, used, items, internal, n) == 0
  {
    if n > 0 {
      NothingLost(run, w, limit, used, items, internal, n - 1);
    }
  }

  ghost predicate FeesPaid(b: Book, items: seq<Item>, supply: nat) {
    && |Kept(items, b.skipped)| == |b.receipts|
    && Supply(b.world) + FeesOf(Kept(items, b.skipped), b.receipts) == supply
  }

  lemma FeesMore(run: Machine, b: Book, items: seq<Item>, m: nat, internal: bool, used: nat, supply: nat)
    requires Honest(run) && KeepsSupply(run) && m < |items| && LateRefusal(AsMessage(items[m], internal)).None?
    requires Tells(b, items[..m], used) && FeesPaid(b, items[..m], supply)
    ensures FeesPaid(Next(run, b, items[m], m, internal), items[..m + 1], supply)
  {
    var msg := AsMessage(items[m], internal);
    var c := Apply(run, b.world, b.pool, msg);
    KeptLast(items, m, b.skipped);
    if c.Applied? {
      SenderPays(run, b.world, b.pool, msg, 0);
      FeesLeave(run, b.world, b.pool, msg);
      MatchesMore(Kept(items[..m], b.skipped), b.receipts, items[m], Entry(items[m], m, c.used, c.failed, b.used));
    }
  }

  /** Money is conserved: the supply drops by the gas of each receipt at its transaction's price. */
  lemma {:induction false} FeesAreConserved(run: Machine, w: World, limit: nat, used: nat, items: seq<Item>, internal: bool, n: nat)
    requires Honest(run) && KeepsSupply(run) && Funded(items, internal)
    requires n <= |items| && used < WORD && forall i :: 0 <= i < |items| ==> items[i].tx.gas < WORD
    ensures FeesPaid(After(run, w, limit, used, items, internal, n), items[..n], Supply(w))
  {
    if n > 0 {
      FeesAreConserved(run, w, limit, used, items, internal, n - 1);
      RunTells(run, w, limit, used, items, internal, n - 1);
      FeesMore(run, After(run, w, limit, used, items, internal, n - 1), items, n - 1, internal, used, Supply(w));
    }
  }

  // ---------------------------------------------------------------- nonces

  /** What happens to item `k` of a run. */
  ghost function Fate(run: Machine, w: World, limit: nat, used: nat, items: seq<Item>, internal: bool, k: nat): Change
    requires Honest(run) && k < |items|
  {
    var b := After(run, w, limit, used, items, internal, k);
    Apply(run, b.world, b.pool, AsMessage(items[k], internal))
  }

  lemma {:induction false} SkippedIff(run: Machine, w: World, limit: nat, used: nat, items: seq<Item>, internal: bool, n: nat, k: nat)
    requires Honest(run) && k < n <= |items|
    ensures k in After(run, w, limit, used, items, internal, n).skipped <==> Fate(run, w, limit, used, items, internal, k).Skipped?
    ensures forall j :: j in After(run, w, limit, used, items, internal, n).skipped ==> j < n
  {
    SkippedBelow(run, w, limit, used, items, internal, n);
    SkippedBelow(run, w, limit, used, items, internal, n - 1);
    SkippedLast(run, After(run, w, limit, used, items, internal, n - 1), items[n - 1], n - 1, internal, k);
    if k < n - 1 {
      SkippedIff(run, w, limit, used, items, internal, n - 1, k);
    }
  }

  lemma SkippedLast(run: Machine, b: Book, it: Item, i: nat, internal: bool, k: nat)
    requires Honest(run) && forall j :: j in b.skipped ==> j < i
    ensures k < i ==> (k in Next(run, b, it, i, internal).skipped <==> k in b.skipped)
    ensures i in Next(run, b, it, i, internal).skipped <==> Apply(run, b.world, b.pool, AsMessage(it, internal)).Skipped?
  {
  }

  lemma {:induction false} SkippedBelow(run: Machine, w: World, limit: nat, used: nat, items: seq<Item>, internal: bool, n: nat)
    requires Honest(run) && n <= |items|
    ensures forall j :: j in After(run, w, limit, used, items, internal, n).skipped ==> j < n
  {
    if n > 0 {
      SkippedBelow(run, w, limit, used, items, internal, n - 1);
    }
  }

  /** Over a run no nonce goes back, and an applied call leaves its sender's nonce above its own. */
  lemma {:induction false} NoncesAdvance(run: Machine, w: World, limit: nat, used: nat, items: seq<Item>, internal: bool, k: nat, n: nat, a: Address)
    requires Honest(run) && KeepsNonces(run) && k <= n <= |items|
    ensures After(run, w, limit, used, items, internal, k).world.Nonce(a) <= After(run, w, limit, used, items, internal, n).world.Nonce(a)
    decreases n
  {
    if k < n {
      NoncesAdvance(run, w, limit, used, items, internal, k, n - 1, a);
      var b := After(run, w, limit, used, items, internal, n - 1);
      NoncesRise(run, b.world, b.pool, AsMessage(items[n - 1], internal), a);
    }
  }

  /** The transactions a block applies for a sender have rising nonces, after a call strictly so: no call is applied twice. */
  lemma AppliedInNonceOrder(run: Machine, w: World, limit: nat, used: nat, items: seq<Item>, i: nat, j: nat)
    requires Honest(run) && KeepsNonces(run) && i < j < |items| && items[i].tx.sender == items[j].tx.sender
    requires i !in After(run, w, limit, used, items, false, |items|).skipped && j !in After(run, w, limit, used, items, false, |items|).skipped
    ensures items[i].tx.nonce <= items[j].tx.nonce && (items[i].payload.to.Some? ==> items[i].tx.nonce < items[j].tx.nonce)
  {
    SkippedIff(run, w, limit, used, items, false, |items|, i);
    SkippedIff(run, w, limit, used, items, false, |items|, j);
    RaisedBy(run, w, limit, used, items, i);
    NoncesAdvance(run, w, limit, used, items, false, i + 1, j, items[i].tx.sender);
    Due(run, w, limit, used, items, j);
  }

  lemma RaisedBy(run: Machine, w: World, limit: nat, used: nat, items: seq<Item>, i: nat)
    requires Honest(run) && KeepsNonces(run) && i < |items| && Fate(run, w, limit, used, items, false, i).Applied?
    ensures items[i].tx.nonce + (if items[i].payload.to.Some? then 1 else 0) <= After(run, w, limit, used, items, false, i + 1).world.Nonce(items[i].tx.sender)
  {
    Due(run, w, limit, used, items, i);
    var b := After(run, w, limit, used, items, false, i);
    NoncesRise(run, b.world, b.pool, AsMessage(items[i], false), items[i].tx.sender);
  }

  lemma Due(run: Machine, w: World, limit: nat, used: nat, items: seq<Item>, k: nat)
    requires Honest(run) && k < |items| && Fate(run, w, limit, used, items, false, k).Applied?
    ensures After(run, w, limit, used, items, false, k).world.Nonce(items[k].tx.sender) == items[k].tx.nonce
  {
  }

  /** Internal transactions are sent by the zero address, are never refused for their nonce and keep the tenth. */
  lemma InternalFate(run: Machine, w: World, limit: nat, used: nat, items: seq<Item>, k: nat, a: Address)
    requires Honest(run) && k < |items|
    ensures var c, b := Fate(run, w, limit, used, items, true, k), After(run, w, limit, used, items, true, k);
      && (c.Skipped? ==> c.error != NonceTooHigh && c.error != NonceTooLow && (a != 0 ==> c.world.Balance(a) == b.world.Balance(a)))
      && (c.Applied? ==>
            var m := AsMessage(items[k], true); var out := Ran(run, b.world, m);
            c.used == m.gas - out.left - Min((m.gas - out.left) / 2, out.refund))
  {
    var b := After(run, w, limit, used, items, true, k);
    if Fate(run, w, limit, used, items, true, k).Applied? {
      ChargeIs(run, b.world, b.pool, AsMessage(items[k], true));
    }
  }

  // ---------------------------------------------------------------- receipts read back

  /** Gas used is not stored; it is rebuilt as the difference of cumulative gas, in 64-bit arithmetic. */
  method GetReceipts(stored: seq<Receipt>) returns (r: seq<Receipt>)
    ensures |r| == |stored|
    ensures forall j :: 0 <= j < |stored| ==> r[j] == stored[j].(gasUsed := Back(stored, j))
  {
    r := stored;
    for i := 0 to |stored|
      invariant |r| == |stored|
      invariant forall j :: 0 <= j < i ==> r[j] == stored[j].(gasUsed := Back(stored, j))
      invariant forall j :: i <= j < |stored| ==> r[j] == stored[j]
    {
      var prev := 0;
      if i != 0 {
        prev := r[i - 1].cumulative;
      }
      r := r[i := r[i].(gasUsed := Minus(r[i].cumulative, prev))];
    }
  }

  /** 64-bit difference. */
  function Minus(a: nat, b: nat): nat { (a - b) % WORD }

  function Back(stored: seq<Receipt>, j: nat): nat
    requires j < |stored|
  {
    Minus(stored[j].cumulative, if j == 0 then 0 else stored[j - 1].cumulative)
  }

  lemma MinusWrap(sum: nat, d: nat)
    requires d < WORD
    ensures Minus(Wrap(sum + d), Wrap(sum)) == d
  {
    var q, q' := sum / WORD, (sum + d) / WORD;
    assert Wrap(sum + d) - Wrap(sum) == d + (q - q') * WORD;
  }

  /** The rebuilt gas is the gas used, even where the cumulative sum wrapped, if counting started from zero. */
  lemma RebuildsGas(receipts: seq<Receipt>, j: nat)
    requires Cumulative(receipts, 0) && j < |receipts|
    ensures Back(receipts, j) == receipts[j].gasUsed
  {
    MinusWrap(GasOf(receipts, j), receipts[j].gasUsed);
    assert receipts[j].cumulative == Running(receipts, 0, j + 1);
    if j > 0 {
      assert receipts[j - 1].cumulative == Running(receipts, 0, j);
    }
  }

  // ---------------------------------------------------------------- several batches in one block

  lemma MatchesConcat(items: seq<Item>, receipts: seq<Receipt>, items': seq<Item>, receipts': seq<Receipt>)
    requires Matches(items, receipts) && Matches(items', receipts')
    ensures Matches(items + items', receipts + receipts')
  {
  }

  lemma {:induction false} RunningConcat(receipts: seq<Receipt>, start: nat, more: seq<Receipt>, n: nat)
    requires n <= |more|
    ensures Running(receipts + more, start, |receipts| + n) == Running(more, Running(receipts, start, |receipts|), n)
  {
    GasConcat(receipts, more, n);
    WrapTwice(start + GasOf(receipts, |receipts|), GasOf(more, n));
  }

  lemma {:induction false} GasConcat(receipts: seq<Receipt>, more: seq<Receipt>, n: nat)
    requires n <= |more|
    ensures GasOf(receipts + more, |receipts| + n) == GasOf(receipts, |receipts|) + GasOf(more, n)
  {
    if n == 0 {
      SamePrefix(receipts, more, |receipts|);
    } else {
      GasConcat(receipts, more, n - 1);
    }
  }

  lemma CumulativeConcat(receipts: seq<Receipt>, start: nat, more: seq<Receipt>)
    requires Cumulative(receipts, start) && Cumulative(more, Running(receipts, start, |receipts|))
    ensures Cumulative(receipts + more, start)
  {
    var all, n := receipts + more, |receipts|;
    forall j | 0 <= j < |all| ensures all[j].cumulative == Running(all, start, j + 1) && all[j].gasUsed < WORD {
      if j < n {
        assert receipts[j].cumulative == Running(receipts, start, j + 1);
        SamePrefix(receipts, more, j + 1);
      } else {
        assert more[j - n].cumulative == Running(more, Running(receipts, start, n), j - n + 1);
        RunningConcat(receipts, start, more, j - n + 1);
      }
    }
  }

  /** The records of a batch appended to those before it, its indices moved up, tell of both. */
  lemma TellsConcat(b: Book, items: seq<Item>, b': Book, items': seq<Item>)
    requires Tells(b, items, 0) && Tells(b', items', b.used)
    ensures Tells(Book(b'.world, b'.pool, b'.used, b.receipts + b'.receipts, b.skipped + Shifted(b'.skipped, |items|)), items + items', 0)
  {
    AscendingConcat(b.skipped, |items|, b'.skipped, |items'|);
    KeptConcat(items, b.skipped, items', b'.skipped);
    MatchesConcat(Kept(items, b.skipped), b.receipts, Kept(items', b'.skipped), b'.receipts);
    RunningConcat(b.receipts, 0, b'.receipts, |b'.receipts|);
    CumulativeConcat(b.receipts, 0, b'.receipts);
  }

  class EvmProcessor {
    const run: Machine
    const db: StateDb
    var gasUsed: nat
    var incoming: seq<Item>
    var skipped: seq<nat>
    var receipts: seq<Receipt>

    constructor (run: Machine, db: StateDb)
      ensures Valid() && this.run == run && this.db == db && incoming == [] && receipts == []
    {
      this.run, this.db, gasUsed, incoming, skipped, receipts := run, db, 0, [], [], [];
      new;
      TellsNothing(Book(db.world, 0, gasUsed, receipts, skipped), incoming);
    }

    /** Whatever batches were executed, the records tell of all of them. */
    ghost predicate Valid()
      reads this, db
    {
      Tells(Book(db.world, 0, gasUsed, receipts, skipped), incoming, 0)
    }

    /** Executes a batch; an invalid signature stops the node, so it is required not to occur. */
    method Execute(items: seq<Item>, internal: bool) returns (batch: seq<Receipt>)
      requires Valid() && Honest(run) && Signed(items, internal) && forall i :: 0 <= i < |items| ==> items[i].tx.gas < WORD
      modifies this, db
      ensures Valid() && incoming == old(incoming) + items && receipts == old(receipts) + batch && old(skipped) <= skipped
      ensures var b := After(run, old(db.world), WORD - 1, old(gasUsed), items, internal, |items|);
        batch == b.receipts && db.world == b.world && skipped == old(skipped) + Shifted(b.skipped, |old(incoming)|)
    {
      ghost var before := Book(db.world, 0, gasUsed, receipts, skipped);
      ghost var b := After(run, db.world, WORD - 1, gasUsed, items, internal, |items|);
      RunTells(run, db.world, WORD - 1, gasUsed, items, internal, |items|);
      assert items[..|items|] == items;
      var r, total := Process(run, db, WORD - 1, items, gasUsed, internal);
      gasUsed := total;
      TellsConcat(before, incoming, b, items);
      var moved := Shifted(r.value.1, |incoming|);
      incoming, skipped, receipts := incoming + items, skipped + moved, receipts + r.value.0;
      batch := r.value.0;
    }

    /** The block's transactions stand one-to-one with its receipts, from which their gas can be read back. */
    method Finalize() returns (txs: seq<Item>, left: seq<nat>, all: seq<Receipt>)
      requires Valid()
      ensures all == receipts && left == skipped && txs == Kept(incoming, skipped)
      ensures Matches(txs, all) && Cumulative(all, 0)
      ensures forall j :: 0 <= j < |all| ==> Back(all, j) == all[j].gasUsed
    {
      txs := FilterSkippedTxs(incoming, skipped);
      left, all := skipped, receipts;
      forall j | 0 <= j < |all| ensures Back(all, j) == all[j].gasUsed {
        RebuildsGas(all, j);
      }
    }
  }
}
