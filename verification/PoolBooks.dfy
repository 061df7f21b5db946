/**
 The bookkeeping invariant of the transaction pool, account by account: which
 transactions are filed where, and that the lookup knows exactly those.
 */
module PoolBooks {
  import opened Transactions
  import opened NonceMaps
  import opened TxLists

  type Lists = map<Address, TxList>

  type Ledger = map<Hash, Tx>

  /** An account's transactions; an absent list is an empty one. */
  function At(lists: Lists, a: Address): Txs {
    if a in lists then lists[a].txs else map[]
  }

  predicate Holds(m: Txs, tx: Tx) {
    tx.nonce in m && m[tx.nonce] == tx
  }

  /** The ledger without the transactions in `gone`. */
  function Drop(known: Ledger, gone: Txs): Ledger {
    map h | h in known && !Holds(gone, known[h]) :: known[h]
  }

  ghost predicate Keyed(known: Ledger) {
    forall h :: h in known ==> known[h].hash == h
  }

  ghost predicate Home(tx: Tx, a: Address, n: nat, known: Ledger) {
    tx.sender == a && tx.nonce == n && tx.hash in known && known[tx.hash] == tx
  }

  /** Everything filed in `m` belongs to account `a` and is known. */
  ghost predicate FiledFor(a: Address, m: Txs, known: Ledger) {
    forall n :: n in m ==> Home(m[n], a, n, known)
  }

  ghost predicate Disjoint(p: Txs, q: Txs) {
    forall n :: n in p ==> n !in q
  }

  ghost predicate Apart(l: Txs, m: Txs) {
    forall n :: n in l ==> !Holds(m, l[n])
  }

  ghost predicate Complete(a: Address, p: Txs, q: Txs, l: Txs, known: Ledger) {
    forall h :: h in known && known[h].sender == a ==> Holds(p, known[h]) || Holds(q, known[h]) || Holds(l, known[h])
  }

  /**
   The books of one account: pending `p` and queue `q` with disjoint nonces, holding exactly
   the known transactions of the account, save those in limbo `l`, which an operation in
   progress has taken out of a list and not yet filed again or forgotten.
   */
  ghost predicate AccountOk(a: Address, p: Txs, q: Txs, l: Txs, known: Ledger) {
    && FiledFor(a, p, known) && FiledFor(a, q, known) && FiledFor(a, l, known)
    && Disjoint(p, q) && Apart(l, p) && Apart(l, q)
    && Complete(a, p, q, l, known)
  }

  function LimboOf(owner: Address, l: Txs, b: Address): Txs {
    if b == owner then l else map[]
  }

  /** The books of all accounts, of which only `owner` may have transactions in limbo. */
  ghost predicate Booked(pending: Lists, queue: Lists, known: Ledger, owner: Address, l: Txs) {
    && Keyed(known)
    && forall b {:trigger LimboOf(owner, l, b)} :: AccountOk(b, At(pending, b), At(queue, b), LimboOf(owner, l, b), known)
  }

  lemma OfAccount(pending: Lists, queue: Lists, known: Ledger, a: Address, l: Txs)
    requires Booked(pending, queue, known, a, l)
    ensures AccountOk(a, At(pending, a), At(queue, a), l, known)
  {
    assert LimboOf(a, l, a) == l;
  }

  /** Lists are valid and of the right kind. */
  ghost predicate Shelved(lists: Lists, strict: bool) {
    forall a :: a in lists ==> lists[a].Valid() && lists[a].strict == strict
  }

  ghost predicate NoneEmpty(lists: Lists) {
    forall a :: a in lists ==> lists[a].txs != map[]
  }

  ghost predicate SameElsewhere(a: Address, lists: Lists, lists': Lists) {
    forall b :: b != a ==> At(lists', b) == At(lists, b)
  }

  /** The two ledgers agree on everybody's transactions but those of `a`. */
  ghost predicate SameBut(a: Address, known: Ledger, known': Ledger) {
    && (forall h :: h in known && known[h].sender != a ==> h in known' && known'[h] == known[h])
    && (forall h :: h in known' && known'[h].sender != a ==> h in known && known'[h] == known[h])
  }

  lemma AccountFrame(a: Address, b: Address, p: Txs, q: Txs, known: Ledger, known': Ledger)
    requires b != a && AccountOk(b, p, q, map[], known) && SameBut(a, known, known')
    ensures AccountOk(b, p, q, map[], known')
  {
  }

  /** After changing one account's lists and ledger entries only that account needs checking. */
  lemma Rebook(a: Address, pending: Lists, queue: Lists, known: Ledger, l: Txs,
               pending': Lists, queue': Lists, known': Ledger, l': Txs)
    requires Booked(pending, queue, known, a, l)
    requires SameElsewhere(a, pending, pending') && SameElsewhere(a, queue, queue') && SameBut(a, known, known')
    requires Keyed(known') && AccountOk(a, At(pending', a), At(queue', a), l', known')
    ensures Booked(pending', queue', known', a, l')
  {
    forall b ensures AccountOk(b, At(pending', b), At(queue', b), LimboOf(a, l', b), known') {
      assert AccountOk(b, At(pending, b), At(queue, b), LimboOf(a, l, b), known);
      if b != a {
        AccountFrame(a, b, At(pending, b), At(queue, b), known, known');
      }
    }
  }

  /** With nothing in limbo the owner is of no interest. */
  lemma NoLimbo(pending: Lists, queue: Lists, known: Ledger, a: Address, b: Address)
    requires Booked(pending, queue, known, a, map[])
    ensures Booked(pending, queue, known, b, map[])
  {
    forall c ensures AccountOk(c, At(pending, c), At(queue, c), LimboOf(b, map[], c), known) {
      assert AccountOk(c, At(pending, c), At(queue, c), LimboOf(a, map[], c), known);
    }
  }

  /** Of `gone`, all but `todo` has been dropped from the ledger `before`. */
  ghost predicate Forgetting(before: Ledger, now: Ledger, gone: Txs, todo: Txs) {
    Submap(todo, gone) && now == Drop(before, gone - todo.Keys)
  }

  lemma ForgettingStart(before: Ledger, gone: Txs)
    ensures Forgetting(before, before, gone, gone)
  {
    assert gone - gone.Keys == map[];
  }

  lemma ForgettingStep(before: Ledger, now: Ledger, gone: Txs, todo: Txs, n: nat)
    requires Forgetting(before, now, gone, todo) && n in todo && todo[n].nonce == n
    requires Keyed(before) && (todo[n].hash in before ==> before[todo[n].hash] == todo[n])
    ensures Forgetting(before, now - {todo[n].hash}, gone, todo - {n})
  {
    assert gone - (todo - {n}).Keys == (gone - todo.Keys)[n := todo[n]];
    DropOneMore(before, gone - todo.Keys, todo[n]);
  }

  lemma ForgettingEnd(before: Ledger, now: Ledger, gone: Txs)
    requires Forgetting(before, now, gone, map[])
    ensures now == Drop(before, gone)
  {
    var none: Txs := map[];
    assert gone - none.Keys == gone;
  }

  lemma DropOneMore(known: Ledger, done: Txs, tx: Tx)
    requires Keyed(known) && (tx.hash in known ==> known[tx.hash] == tx) && tx.nonce !in done
    ensures Drop(known, done) - {tx.hash} == Drop(known, done[tx.nonce := tx])
  {
  }

  /** Adds a transaction to an account's list, which is created when missing. */
  function FileTx(lists: Lists, strict: bool, a: Address, tx: Tx, bump: nat): (Lists, bool, Option<Tx>) {
    var list := if a in lists then lists[a] else TxList.Empty(strict);
    var (list', inserted, prev) := list.Add(tx, bump);
    if inserted then (lists[a := list'], true, prev) else (lists, false, None)
  }

  lemma FileTxEffect(lists: Lists, strict: bool, a: Address, tx: Tx, bump: nat)
    requires Shelved(lists, strict)
    ensures var (lists', inserted, prev) := FileTx(lists, strict, a, tx, bump);
      var m := At(lists, a);
      && Shelved(lists', strict) && SameElsewhere(a, lists, lists')
      && (NoneEmpty(lists) ==> NoneEmpty(lists'))
      && (inserted <==> tx.nonce in m ==> CanReplace(m[tx.nonce], tx, bump))
      && At(lists', a) == (if inserted then m[tx.nonce := tx] else m)
      && prev == (if inserted && tx.nonce in m then Some(m[tx.nonce]) else None)
      && lists'.Keys == (if inserted then lists.Keys + {a} else lists.Keys)
  {
  }

  // -------- one account, one step --------

  /** The books treat the two lists alike. */
  lemma Swapped(a: Address, p: Txs, q: Txs, l: Txs, known: Ledger)
    requires AccountOk(a, p, q, l, known)
    ensures AccountOk(a, q, p, l, known)
  {
  }

  ghost predicate Submap(s: Txs, m: Txs) {
    forall n :: n in s ==> n in m && m[n] == s[n]
  }

  /** Taking transactions out of the queue puts them into limbo. */
  lemma TakeStep(a: Address, p: Txs, q: Txs, known: Ledger, kept: Txs)
    requires AccountOk(a, p, q, map[], known) && Submap(kept, q)
    ensures AccountOk(a, p, kept, q - kept.Keys, known)
  {
  }

  /** Transactions in limbo can be forgotten. */
  lemma ForgetStep(a: Address, p: Txs, q: Txs, l: Txs, known: Ledger, gone: Txs)
    requires AccountOk(a, p, q, l, known) && Submap(gone, l)
    ensures AccountOk(a, p, q, l - gone.Keys, Drop(known, gone))
    ensures SameBut(a, known, Drop(known, gone))
  {
    assert forall n :: n in p ==> !Holds(gone, p[n]);
    assert forall n :: n in q ==> !Holds(gone, q[n]);
  }

  /** Transactions in limbo can be filed in the queue, under free nonces. */
  lemma RequeueStep(a: Address, p: Txs, q: Txs, l: Txs, known: Ledger, moved: Txs)
    requires AccountOk(a, p, q, l, known) && Submap(moved, l) && Disjoint(moved, p) && Disjoint(moved, q)
    ensures AccountOk(a, p, q + moved, l - moved.Keys, known)
  {
    assert forall n :: n in p ==> n !in q + moved;
  }

  /** A new transaction enters the lookup and, for the moment, limbo. */
  lemma LearnStep(a: Address, p: Txs, q: Txs, known: Ledger, tx: Tx)
    requires AccountOk(a, p, q, map[], known) && tx.hash !in known && tx.sender == a
    ensures AccountOk(a, p, q, map[tx.nonce := tx], known[tx.hash := tx])
    ensures SameBut(a, known, known[tx.hash := tx])
  {
  }

  // -------- removing one transaction --------

  lemma DropSingle(known: Ledger, tx: Tx)
    requires Keyed(known) && tx.hash in known && known[tx.hash] == tx
    ensures Drop(known, map[tx.nonce := tx]) == known - {tx.hash}
  {
  }

  /** Nonces tell which list a known transaction is in. */
  lemma WhichList(a: Address, p: Txs, q: Txs, known: Ledger, tx: Tx)
    requires AccountOk(a, p, q, map[], known) && Home(tx, a, tx.nonce, known)
    ensures tx.nonce in p ==> p[tx.nonce] == tx && tx.nonce !in q
    ensures tx.nonce !in p ==> tx.nonce in q && q[tx.nonce] == tx
  {
    assert Holds(p, known[tx.hash]) || Holds(q, known[tx.hash]);
  }

  /** Removing a pending transaction moves everything above it to the queue; nothing is lost. */
  lemma RemovePendingStep(a: Address, p: Txs, q: Txs, known: Ledger, tx: Tx)
    requires AccountOk(a, p, q, map[], known) && Keyed(known) && Holds(p, tx)
    ensures AccountOk(a, Below(p, tx.nonce), q + Above(p, tx.nonce), map[], known - {tx.hash})
    ensures SameBut(a, known, known - {tx.hash}) && Keyed(known - {tx.hash})
    ensures FiledFor(a, Above(p, tx.nonce), known - {tx.hash})
  {
    var n := tx.nonce;
    var kept, rest, one := Below(p, n), Above(p, n), map[n := tx];
    Swapped(a, p, q, map[], known);
    TakeStep(a, q, p, known, kept);
    ForgetStep(a, q, kept, p - kept.Keys, known, one);
    DropSingle(known, tx);
    assert p - kept.Keys - one.Keys == rest;
    Swapped(a, q, kept, rest, known - {tx.hash});
    RequeueStep(a, kept, q, rest, known - {tx.hash}, rest);
    assert rest - rest.Keys == map[];
  }

  lemma RemoveQueuedStep(a: Address, p: Txs, q: Txs, known: Ledger, tx: Tx)
    requires AccountOk(a, p, q, map[], known) && Keyed(known) && Holds(q, tx)
    ensures AccountOk(a, p, q - {tx.nonce}, map[], known - {tx.hash})
    ensures SameBut(a, known, known - {tx.hash}) && Keyed(known - {tx.hash})
  {
    var kept, one := q - {tx.nonce}, map[tx.nonce := tx];
    TakeStep(a, p, q, known, kept);
    assert q - kept.Keys == one;
    ForgetStep(a, p, kept, one, known, one);
    DropSingle(known, tx);
    assert one - one.Keys == map[];
  }

  // -------- the same for the books as a whole --------

  ghost predicate Settled(pending: Lists, queue: Lists, known: Ledger) {
    Booked(pending, queue, known, 0, map[])
  }

  lemma SettledFor(pending: Lists, queue: Lists, known: Ledger, a: Address)
    requires Settled(pending, queue, known)
    ensures Booked(pending, queue, known, a, map[])
    ensures AccountOk(a, At(pending, a), At(queue, a), map[], known)
  {
    NoLimbo(pending, queue, known, 0, a);
    OfAccount(pending, queue, known, a, map[]);
  }

  /** A known transaction is in exactly one list of its sender, and its nonce tells which. */
  lemma FiledOnce(pending: Lists, queue: Lists, known: Ledger, tx: Tx)
    requires Settled(pending, queue, known) && tx.hash in known && known[tx.hash] == tx
    ensures Holds(At(pending, tx.sender), tx) <==> tx.nonce in At(pending, tx.sender)
    ensures Holds(At(queue, tx.sender), tx) <==> tx.nonce !in At(pending, tx.sender)
    ensures tx.nonce in At(queue, tx.sender) <==> tx.nonce !in At(pending, tx.sender)
  {
    SettledFor(pending, queue, known, tx.sender);
    WhichList(tx.sender, At(pending, tx.sender), At(queue, tx.sender), known, tx);
  }

  lemma QueuedIsKnown(pending: Lists, queue: Lists, known: Ledger, a: Address, n: nat)
    requires Settled(pending, queue, known) && n in At(queue, a)
    ensures n !in At(pending, a) && Home(At(queue, a)[n], a, n, known)
  {
    SettledFor(pending, queue, known, a);
  }

  lemma PostponedAreFree(pending: Lists, queue: Lists, known: Ledger, tx: Tx)
    requires Settled(pending, queue, known) && Holds(At(pending, tx.sender), tx)
    ensures FiledFor(tx.sender, Above(At(pending, tx.sender), tx.nonce), known - {tx.hash})
    ensures Disjoint(Above(At(pending, tx.sender), tx.nonce), At(queue, tx.sender))
  {
    SettledFor(pending, queue, known, tx.sender);
    RemovePendingStep(tx.sender, At(pending, tx.sender), At(queue, tx.sender), known, tx);
  }

  lemma SettledWithoutPending(pending: Lists, queue: Lists, known: Ledger, tx: Tx, pending': Lists, queue': Lists)
    requires Settled(pending, queue, known) && Holds(At(pending, tx.sender), tx)
    requires SameElsewhere(tx.sender, pending, pending') && SameElsewhere(tx.sender, queue, queue')
    requires At(pending', tx.sender) == Below(At(pending, tx.sender), tx.nonce)
    requires At(queue', tx.sender) == At(queue, tx.sender) + Above(At(pending, tx.sender), tx.nonce)
    ensures Settled(pending', queue', known - {tx.hash})
  {
    SettledFor(pending, queue, known, tx.sender);
    RemovePendingStep(tx.sender, At(pending, tx.sender), At(queue, tx.sender), known, tx);
    Rebook(tx.sender, pending, queue, known, map[], pending', queue', known - {tx.hash}, map[]);
    NoLimbo(pending', queue', known - {tx.hash}, tx.sender, 0);
  }

  lemma SettledWithoutQueued(pending: Lists, queue: Lists, known: Ledger, tx: Tx, queue': Lists)
    requires Settled(pending, queue, known) && Holds(At(queue, tx.sender), tx)
    requires SameElsewhere(tx.sender, queue, queue') && At(queue', tx.sender) == At(queue, tx.sender) - {tx.nonce}
    ensures Settled(pending, queue', known - {tx.hash})
  {
    SettledFor(pending, queue, known, tx.sender);
    RemoveQueuedStep(tx.sender, At(pending, tx.sender), At(queue, tx.sender), known, tx);
    Rebook(tx.sender, pending, queue, known, map[], pending, queue', known - {tx.hash}, map[]);
    NoLimbo(pending, queue', known - {tx.hash}, tx.sender, 0);
  }

  /** Cutting a queue down and forgetting what was cut off. */
  lemma SettledAfterCut(pending: Lists, queue: Lists, known: Ledger, a: Address, queue': Lists)
    requires Settled(pending, queue, known)
    requires SameElsewhere(a, queue, queue') && Submap(At(queue', a), At(queue, a))
    ensures var gone := At(queue, a) - At(queue', a).Keys;
      FiledFor(a, gone, known) && Settled(pending, queue', Drop(known, gone))
  {
    var p, q, kept := At(pending, a), At(queue, a), At(queue', a);
    var gone := q - kept.Keys;
    SettledFor(pending, queue, known, a);
    TakeStep(a, p, q, known, kept);
    ForgetStep(a, p, kept, gone, known, gone);
    assert gone - gone.Keys == map[];
    Rebook(a, pending, queue, known, map[], pending, queue', Drop(known, gone), map[]);
    NoLimbo(pending, queue', Drop(known, gone), a, 0);
  }

  /** Moving transactions from the queue to pending. */
  lemma SettledAfterMove(pending: Lists, queue: Lists, known: Ledger, a: Address, run: Txs, pending': Lists, queue': Lists)
    requires Settled(pending, queue, known) && Submap(run, At(queue, a))
    requires SameElsewhere(a, pending, pending') && At(pending', a) == At(pending, a) + run
    requires SameElsewhere(a, queue, queue') && At(queue', a) == At(queue, a) - run.Keys
    ensures Settled(pending', queue', known)
  {
    var p, q := At(pending, a), At(queue, a);
    var kept := q - run.Keys;
    SettledFor(pending, queue, known, a);
    TakeStep(a, p, q, known, kept);
    assert q - kept.Keys == run;
    Swapped(a, p, kept, run, known);
    RequeueStep(a, kept, p, run, known, run);
    assert run - run.Keys == map[];
    Swapped(a, kept, p + run, map[], known);
    Rebook(a, pending, queue, known, map[], pending', queue', known, map[]);
    NoLimbo(pending', queue', known, a, 0);
  }

  /** Cutting a pending list: some transactions are forgotten, others go back to the queue. */
  lemma SettledAfterDemotion(pending: Lists, queue: Lists, known: Ledger, a: Address, drops: Txs, moved: Txs, pending': Lists, queue': Lists)
    requires Settled(pending, queue, known)
    requires Splits(At(pending, a), At(pending', a), drops, moved)
    requires SameElsewhere(a, pending, pending') && SameElsewhere(a, queue, queue') && At(queue', a) == At(queue, a) + moved
    ensures Settled(pending', queue', Drop(known, drops))
  {
    SettledFor(pending, queue, known, a);
    DemotionStep(a, At(pending, a), At(queue, a), known, At(pending', a), drops, moved);
    Rebook(a, pending, queue, known, map[], pending', queue', Drop(known, drops), map[]);
    NoLimbo(pending', queue', Drop(known, drops), a, 0);
  }

  lemma DemotionStep(a: Address, p: Txs, q: Txs, known: Ledger, kept: Txs, drops: Txs, moved: Txs)
    requires AccountOk(a, p, q, map[], known) && Keyed(known) && Splits(p, kept, drops, moved)
    ensures AccountOk(a, kept, q + moved, map[], Drop(known, drops))
    ensures SameBut(a, known, Drop(known, drops)) && Keyed(Drop(known, drops))
  {
    var known' := Drop(known, drops);
    Swapped(a, p, q, map[], known);
    TakeStep(a, q, p, known, kept);
    ForgetStep(a, q, kept, p - kept.Keys, known, drops);
    SplitRest(p, kept, drops, moved);
    Swapped(a, q, kept, moved, known');
    RequeueStep(a, kept, q, moved, known', moved);
    assert moved - moved.Keys == map[];
  }

  lemma SplitRest(m: Txs, x: Txs, y: Txs, z: Txs)
    requires Splits(m, x, y, z)
    ensures m - x.Keys - y.Keys == z && Submap(y, m - x.Keys)
  {
  }

  lemma DemotedAreFree(pending: Lists, queue: Lists, known: Ledger, a: Address, drops: Txs, moved: Txs)
    requires Settled(pending, queue, known) && Submap(drops, At(pending, a)) && Submap(moved, At(pending, a)) && Disjoint(moved, drops)
    ensures FiledFor(a, drops, known) && FiledFor(a, moved, Drop(known, drops)) && Disjoint(moved, At(queue, a))
  {
    SettledFor(pending, queue, known, a);
  }

  /** `m` is the disjoint union of three parts. */
  ghost predicate Splits(m: Txs, x: Txs, y: Txs, z: Txs) {
    && Submap(x, m) && Submap(y, m) && Submap(z, m)
    && Disjoint(x, y) && Disjoint(x, z) && Disjoint(z, y)
    && forall n :: n in m ==> n in x || n in y || n in z
  }

  lemma ListsAreDisjoint(pending: Lists, queue: Lists, known: Ledger, a: Address)
    requires Settled(pending, queue, known)
    ensures Disjoint(At(pending, a), At(queue, a)) && Disjoint(At(queue, a), At(pending, a))
    ensures FiledFor(a, At(pending, a), known) && FiledFor(a, At(queue, a), known)
  {
    SettledFor(pending, queue, known, a);
  }

  lemma SettledSame(pending: Lists, queue: Lists, known: Ledger, queue': Lists)
    requires Settled(pending, queue, known) && forall b :: At(queue', b) == At(queue, b)
    ensures Settled(pending, queue', known)
  {
    forall b ensures AccountOk(b, At(pending, b), At(queue', b), LimboOf(0, map[], b), known) {
      assert AccountOk(b, At(pending, b), At(queue, b), LimboOf(0, map[], b), known);
    }
  }

  lemma SettledSamePending(pending: Lists, queue: Lists, known: Ledger, pending': Lists)
    requires Settled(pending, queue, known) && forall b :: At(pending', b) == At(pending, b)
    ensures Settled(pending', queue, known)
  {
    forall b ensures AccountOk(b, At(pending', b), At(queue, b), LimboOf(0, map[], b), known) {
      assert AccountOk(b, At(pending, b), At(queue, b), LimboOf(0, map[], b), known);
    }
  }

  /** No list but that of `a` is empty. */
  ghost predicate NoneEmptyBut(a: Address, lists: Lists) {
    forall b :: b in lists && b != a ==> lists[b].txs != map[]
  }

  lemma SetListEffect(lists: Lists, strict: bool, a: Address, list: TxList)
    requires Shelved(lists, strict) && list.Valid() && list.strict == strict && NoneEmptyBut(a, lists)
    ensures Shelved(lists[a := list], strict) && SameElsewhere(a, lists, lists[a := list]) && NoneEmptyBut(a, lists[a := list])
    ensures At(lists[a := list], a) == list.txs
  {
  }

  /** A new transaction takes a free or taken nonce in the queue. */
  lemma SettledWithArrival(pending: Lists, queue: Lists, known: Ledger, tx: Tx, queue': Lists)
    requires Settled(pending, queue, known) && tx.hash !in known
    requires tx.nonce !in At(pending, tx.sender)
    requires SameElsewhere(tx.sender, queue, queue') && At(queue', tx.sender) == At(queue, tx.sender)[tx.nonce := tx]
    ensures Settled(pending, queue', Replaced(known, At(queue, tx.sender), tx)[tx.hash := tx])
  {
    var a := tx.sender;
    var p, q, known' := At(pending, a), At(queue, a), Replaced(known, At(queue, tx.sender), tx);
    SettledFor(pending, queue, known, a);
    if tx.nonce in q {
      RemoveQueuedStep(a, p, q, known, q[tx.nonce]);
    } else {
      assert q - {tx.nonce} == q;
    }
    ArrivalStep(a, p, q - {tx.nonce}, known', tx);
    assert (q - {tx.nonce})[tx.nonce := tx] == q[tx.nonce := tx];
    Rebook(a, pending, queue, known, map[], pending, queue', known'[tx.hash := tx], map[]);
    NoLimbo(pending, queue', known'[tx.hash := tx], a, 0);
  }

  /** A new transaction takes the place of a pending one with its nonce. */
  lemma SettledWithReplacement(pending: Lists, queue: Lists, known: Ledger, tx: Tx, pending': Lists)
    requires Settled(pending, queue, known) && tx.hash !in known
    requires tx.nonce in At(pending, tx.sender)
    requires SameElsewhere(tx.sender, pending, pending') && At(pending', tx.sender) == At(pending, tx.sender)[tx.nonce := tx]
    ensures Settled(pending', queue, Replaced(known, At(pending, tx.sender), tx)[tx.hash := tx])
  {
    var a := tx.sender;
    var p, q, known' := At(pending, a), At(queue, a), Replaced(known, At(pending, tx.sender), tx);
    SettledFor(pending, queue, known, a);
    Swapped(a, p, q, map[], known);
    RemoveQueuedStep(a, q, p, known, p[tx.nonce]);
    ArrivalStep(a, q, p - {tx.nonce}, known', tx);
    assert (p - {tx.nonce})[tx.nonce := tx] == p[tx.nonce := tx];
    Swapped(a, q, p[tx.nonce := tx], map[], known'[tx.hash := tx]);
    Rebook(a, pending, queue, known, map[], pending', queue, known'[tx.hash := tx], map[]);
    NoLimbo(pending', queue, known'[tx.hash := tx], a, 0);
  }

  lemma ArrivalStep(a: Address, p: Txs, q: Txs, known: Ledger, tx: Tx)
    requires AccountOk(a, p, q, map[], known) && Keyed(known) && tx.hash !in known && tx.sender == a
    requires tx.nonce !in p && tx.nonce !in q
    ensures AccountOk(a, p, q[tx.nonce := tx], map[], known[tx.hash := tx])
    ensures SameBut(a, known, known[tx.hash := tx]) && Keyed(known[tx.hash := tx])
  {
    var one: Txs := map[tx.nonce := tx];
    LearnStep(a, p, q, known, tx);
    RequeueStep(a, p, q, one, known[tx.hash := tx], one);
    assert q + one == q[tx.nonce := tx] && one - one.Keys == map[];
  }

  /** The ledger after `tx` took the place of what `m` had under its nonce. */
  ghost function Replaced(known: Ledger, m: Txs, tx: Tx): Ledger {
    if tx.nonce in m then known - {m[tx.nonce].hash} else known
  }

  predicate SameSlot(x: Tx, tx: Tx) { x.sender == tx.sender && x.nonce == tx.nonce }

  /** The known transactions without those that share sender and nonce with `tx`. */
  ghost function Others(known: Ledger, tx: Tx): Ledger {
    map h | h in known && !SameSlot(known[h], tx) :: known[h]
  }

  ghost predicate Rivalled(known: Ledger, tx: Tx) {
    exists h :: h in known && SameSlot(known[h], tx)
  }

  /** At most one known transaction has a given sender and nonce, and it is in one of the sender's lists. */
  lemma SlotHolder(tx: Tx, p: Txs, q: Txs, known: Ledger)
    requires AccountOk(tx.sender, p, q, map[], known) && Keyed(known)
    ensures tx.nonce in p ==> Rivalled(known, tx) && Replaced(known, p, tx) == Others(known, tx) && forall h :: h in known && SameSlot(known[h], tx) ==> known[h] == p[tx.nonce]
    ensures tx.nonce !in p && tx.nonce in q ==> Rivalled(known, tx) && forall h :: h in known && SameSlot(known[h], tx) ==> known[h] == q[tx.nonce]
    ensures tx.nonce !in p ==> Replaced(known, q, tx) == Others(known, tx)
    ensures tx.nonce !in p && tx.nonce !in q ==> !Rivalled(known, tx)
  {
    forall h | h in known && SameSlot(known[h], tx) ensures Holds(p, known[h]) || Holds(q, known[h]) {
    }
    if tx.nonce in p {
      assert Home(p[tx.nonce], tx.sender, tx.nonce, known);
      assert SameSlot(known[p[tx.nonce].hash], tx);
    }
    if tx.nonce in q {
      assert Home(q[tx.nonce], tx.sender, tx.nonce, known);
      assert SameSlot(known[q[tx.nonce].hash], tx);
    }
  }

  /** Stores a list back, or deletes the entry when the list became empty. */
  function PutList(lists: Lists, a: Address, list: TxList): Lists {
    if list.txs == map[] then lists - {a} else lists[a := list]
  }

  lemma PutListEffect(lists: Lists, strict: bool, a: Address, list: TxList)
    requires Shelved(lists, strict) && list.Valid() && list.strict == strict
    ensures var lists' := PutList(lists, a, list);
      && Shelved(lists', strict) && SameElsewhere(a, lists, lists') && At(lists', a) == list.txs
      && (NoneEmpty(lists) ==> NoneEmpty(lists'))
  {
  }

  // -------- filing a batch, transaction by transaction --------

  /** Of `moved`, all but `todo` has been added to `before`. */
  ghost predicate Filing(before: Txs, now: Txs, moved: Txs, todo: Txs) {
    Submap(todo, moved) && Disjoint(moved, before) && now == before + (moved - todo.Keys)
  }

  lemma FilingStart(before: Txs, moved: Txs)
    requires Disjoint(moved, before)
    ensures Filing(before, before, moved, moved)
  {
    assert moved - moved.Keys == map[];
  }

  lemma FilingStep(before: Txs, now: Txs, moved: Txs, todo: Txs, n: nat)
    requires Filing(before, now, moved, todo) && n in todo
    ensures n !in now
    ensures Filing(before, now[n := todo[n]], moved, todo - {n})
  {
    assert moved - (todo - {n}).Keys == (moved - todo.Keys)[n := todo[n]];
  }

  lemma FilingEnd(before: Txs, now: Txs, moved: Txs)
    requires Filing(before, now, moved, map[])
    ensures now == before + moved
  {
    var none: Txs := map[];
    assert moved - none.Keys == moved;
  }

  // -------- trimming a list, transaction by transaction --------

  /** Of `gone`, all but `todo` has been taken out of `before`. */
  ghost predicate Trimming(before: Txs, now: Txs, gone: Txs, todo: Txs) {
    Submap(gone, before) && Submap(todo, gone) && now == before - (gone.Keys - todo.Keys)
  }

  lemma TrimmingStart(before: Txs, gone: Txs)
    requires Submap(gone, before)
    ensures Trimming(before, before, gone, gone)
  {
  }

  lemma TrimmingStep(before: Txs, now: Txs, gone: Txs, todo: Txs, n: nat)
    requires Trimming(before, now, gone, todo) && n in todo
    ensures n in now && now[n] == todo[n]
    ensures Trimming(before, now - {n}, gone, todo - {n})
  {
    assert (todo - {n}).Keys == todo.Keys - {n};
    assert gone.Keys - (todo.Keys - {n}) == gone.Keys - todo.Keys + {n};
  }

  lemma TrimmingEnd(before: Txs, now: Txs, gone: Txs)
    requires Trimming(before, now, gone, map[])
    ensures now == before - gone.Keys
  {
    var none: Txs := map[];
    assert gone.Keys - none.Keys == gone.Keys;
  }

  /** The lists of the accounts in `gone` are empty, the others are as before. */
  ghost predicate Emptied(before: Lists, now: Lists, gone: set<Address>) {
    forall a :: At(now, a) == if a in gone then map[] else At(before, a)
  }

  lemma EmptiedStep(before: Lists, mid: Lists, now: Lists, gone: set<Address>, a: Address)
    requires Emptied(before, mid, gone) && SameElsewhere(a, mid, now) && At(now, a) == map[]
    ensures Emptied(before, now, gone + {a})
  {
  }
}
