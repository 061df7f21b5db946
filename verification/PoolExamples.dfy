/** Runs of the pool that end where one would not expect it. */
module PoolExamples {
  import opened Transactions
  import opened NonceMaps
  import opened TxLists
  import opened TxLookups
  import opened PoolBooks
  import opened PoolNonces
  import opened PoolStages
  import opened TxPools
  import Basics

  const DEFAULTS := Config(10, 16, 1024, 32, 256)

  /** An ordinary transaction that can be executed on the chain, now or later. */
  predicate Sendable(tx: Tx, head: Head, chain: Chain) {
    && tx.signed && !tx.typed && tx.size <= TX_MAX_SIZE && tx.value >= 0 && tx.gas <= head.maxGas && tx.gasPrice >= 1
    && tx.nonce >= head.nonce(tx.sender) && tx.cost <= head.balance(tx.sender)
    && tx.intrinsic.Some? && tx.intrinsic.value <= tx.gas && chain.minGasPrice <= tx.gasPrice && !chain.txExists(tx.hash)
  }

  lemma SendableIsValid(pool: TxPool, tx: Tx, isLocal: bool, chain: Chain)
    requires Sendable(tx, pool.head, chain) && pool.gasPrice == 1
    ensures pool.Validate(tx, isLocal, chain) == None
  {
  }

  lemma SlotsOfSendable(tx: Tx, head: Head, chain: Chain)
    requires Sendable(tx, head, chain)
    ensures tx.Slots() <= 4 && !TooExpensive(tx, head.balance(tx.sender), head.maxGas)
  {
  }

  lemma FewKnown(all: Lookup, h: Hash)
    requires all.Valid() && forall x :: all.Has(x) ==> x == h
    ensures all.Count() <= 1
  {
    forall x | x in all.locals.Keys ensures x == h { assert all.Has(x); }
    forall x | x in all.remotes.Keys ensures x == h { assert all.Has(x); }
    Basics.SubsetSize(all.locals.Keys + all.remotes.Keys, {h});
    assert all.locals.Keys !! all.remotes.Keys;
    assert |all.locals.Keys + all.remotes.Keys| == |all.locals.Keys| + |all.remotes.Keys|;
  }

  /** Adds an ordinary transaction to a pool with room for it. */
  method AddSendable(pool: TxPool, tx: Tx, local: bool, chain: Chain, now: int)
    requires pool.Sound({}) && pool.names(tx.hash) == tx && !pool.Full(tx) && !pool.all.Has(tx.hash) && pool.gasPrice == 1
    requires Sendable(tx, pool.head, chain) && pool.Admissible(tx, pool.P(tx.sender), pool.Q(tx.sender))
    modifies pool`locals, pool`pending, pool`queue, pool`beats, pool`all, pool`noncer, pool.priced
    ensures pool.Sound({}) && pool.noncer == old(pool.noncer) && (old(pool.Ordered()) ==> pool.Ordered())
    ensures pool.FiledNew(tx, local, old(pool.locals), old(pool.P(tx.sender)), old(pool.Q(tx.sender)), old(pool.all).slots)
    ensures (forall h :: pool.all.Has(h) ==> old(pool.all).Has(h) || h == tx.hash) && (!local ==> pool.locals == old(pool.locals))
    ensures tx.hash in pool.all.Known() && pool.all.Known()[tx.hash] == tx
  {
    SendableIsValid(pool, tx, local || (tx.signed && tx.sender in pool.locals), chain);
    var _, err, _ := pool.Add(tx, local, chain, now);
  }

  /** A pool with just one transaction, which is remote. */
  ghost predicate Lone(pool: TxPool, config: Config, tx: Tx, head: Head, names: Hash -> Tx)
    reads pool, pool.priced
  {
    && pool.Sound({}) && pool.Ordered() && pool.names == names && pool.config == config && pool.head == head && pool.gasPrice == 1
    && pool.locals == {} && pool.all.Valid() && forall h :: pool.all.Has(h) ==> h == tx.hash
  }

  method OneQueued(config: Config, tx: Tx, ghost names: Hash -> Tx, head: Head, chain: Chain, now: int) returns (pool: TxPool)
    requires names(tx.hash) == tx && Sendable(tx, head, chain) && config.Sane() && tx.Slots() <= config.globalSlots + config.globalQueue
    ensures fresh(pool) && fresh(pool.priced) && Lone(pool, config, tx, head, names) && pool.all.slots == tx.Slots()
    ensures tx.hash in pool.all.Known() && pool.all.Known()[tx.hash] == tx
    ensures pool.Q(tx.sender) == map[tx.nonce := tx] && pool.P(tx.sender) == map[] && pool.noncer.Get(tx.sender) == head.nonce(tx.sender)
  {
    pool := new TxPool(config, 1, {}, head, names);
    EmptyIsOrdered(pool);
    AddFirst(pool, tx, chain, now);
    pool.Shape(tx.sender);
  }

  lemma EmptyIsOrdered(pool: TxPool)
    requires pool.pending == map[] && pool.queue == map[] && pool.noncer == Noncer(pool.head.nonce, map[])
    ensures pool.Ordered()
  {
  }

  method AddFirst(pool: TxPool, tx: Tx, chain: Chain, now: int)
    requires pool.Sound({}) && pool.Ordered() && pool.pending == map[] && pool.queue == map[] && pool.all == Lookup(map[], map[], 0)
    requires pool.names(tx.hash) == tx && Sendable(tx, pool.head, chain) && pool.gasPrice == 1 && tx.Slots() <= pool.Limit()
    modifies pool`locals, pool`pending, pool`queue, pool`beats, pool`all, pool`noncer, pool.priced
    ensures pool.Sound({}) && pool.Ordered() && pool.noncer == old(pool.noncer) && pool.locals == old(pool.locals) && pool.all.slots == tx.Slots()
    ensures pool.Q(tx.sender) == map[tx.nonce := tx] && pool.P(tx.sender) == map[]
    ensures tx.hash in pool.all.Known() && pool.all.Known()[tx.hash] == tx && forall h :: pool.all.Has(h) ==> h == tx.hash
  {
    assert pool.P(tx.sender) == map[] && pool.Q(tx.sender) == map[] && !pool.Full(tx);
    AddSendable(pool, tx, false, chain, now);
  }

  method OnePending(tx: Tx, ghost names: Hash -> Tx, head: Head, chain: Chain, now: int) returns (pool: TxPool)
    requires names(tx.hash) == tx && Sendable(tx, head, chain) && tx.nonce == head.nonce(tx.sender)
    ensures fresh(pool) && fresh(pool.priced) && Lone(pool, DEFAULTS, tx, head, names)
    ensures pool.P(tx.sender) == map[tx.nonce := tx] && pool.Q(tx.sender) == map[] && pool.noncer.Get(tx.sender) == tx.nonce + 1
  {
    SlotsOfSendable(tx, head, chain);
    pool := OneQueued(DEFAULTS, tx, names, head, chain, now);
    PromoteLone(pool, tx, now);
    pool.Shape(tx.sender);
  }

  method PromoteLone(pool: TxPool, tx: Tx, now: int)
    requires pool.Sound({}) && pool.Ordered() && pool.Q(tx.sender) == map[tx.nonce := tx] && pool.P(tx.sender) == map[]
    requires tx.nonce == pool.head.nonce(tx.sender) == pool.noncer.Get(tx.sender)
    requires !TooExpensive(tx, pool.head.balance(tx.sender), pool.head.maxGas)
    modifies pool`pending, pool`queue, pool`all, pool`noncer, pool`beats, pool.priced
    ensures pool.Sound({}) && pool.Ordered() && forall h :: pool.all.Has(h) ==> old(pool.all).Has(h)
    ensures pool.P(tx.sender) == map[tx.nonce := tx] && pool.Q(tx.sender) == map[] && pool.noncer.Get(tx.sender) == tx.nonce + 1
  {
    var a := tx.sender;
    ghost var start := pool.Now();
    pool.PromoteExecutables({a}, now);
    ghost var cap := CapOf(pool.locals, pool.config.accountQueue, a);
    assert PromotedIf(true, a, pool.head, cap, start, pool.Now()) by {
      var v := pool.Now().noncer.Get(a);
    }
    LonePromoted(tx, tx.nonce, pool.head.balance(a), pool.head.maxGas, cap, pool.P(a), pool.Q(a), pool.noncer.Get(a));
  }

  /**
   Local transactions that do not mark their sender as local: a remote transaction is promoted, and a local one
   that is better by the price bump takes its place.
   */
  method LocalReplacementUnmarked(remote: Tx, tx: Tx, ghost names: Hash -> Tx, head: Head, chain: Chain, now: int)
    returns (pool: TxPool)
    requires names(remote.hash) == remote && names(tx.hash) == tx && Sendable(remote, head, chain) && Sendable(tx, head, chain)
    requires tx.sender == remote.sender && tx.nonce == remote.nonce == head.nonce(tx.sender)
    requires tx.hash != remote.hash && CanReplace(remote, tx, DEFAULTS.priceBump)
    ensures fresh(pool) && pool.Sound({})
    ensures pool.P(tx.sender) == map[tx.nonce := tx] && tx.sender !in pool.locals
  {
    pool := OnePending(remote, names, head, chain, now);
    MayReplace(pool, remote, tx);
    ReplaceLone(pool, remote, tx, chain, now);
  }

  lemma MayReplace(pool: TxPool, remote: Tx, tx: Tx)
    requires pool.config == DEFAULTS && pool.P(tx.sender) == map[tx.nonce := remote] && CanReplace(remote, tx, DEFAULTS.priceBump)
    ensures pool.Admissible(tx, pool.P(tx.sender), pool.Q(tx.sender))
  {
  }

  method ReplaceLone(pool: TxPool, remote: Tx, tx: Tx, chain: Chain, now: int)
    requires Lone(pool, DEFAULTS, remote, pool.head, pool.names) && pool.P(tx.sender) == map[tx.nonce := remote]
    requires pool.names(tx.hash) == tx && Sendable(tx, pool.head, chain) && tx.hash != remote.hash && pool.Admissible(tx, pool.P(tx.sender), pool.Q(tx.sender))
    modifies pool`locals, pool`pending, pool`queue, pool`beats, pool`all, pool`noncer, pool.priced
    ensures pool.Sound({}) && pool.P(tx.sender) == map[tx.nonce := tx] && tx.sender !in pool.locals
  {
    HasRoom(pool, remote, tx, chain);
    Overwritten(tx.nonce, remote, tx);
    AddSendable(pool, tx, true, chain, now);
  }

  lemma HasRoom(pool: TxPool, remote: Tx, tx: Tx, chain: Chain)
    requires Lone(pool, DEFAULTS, remote, pool.head, pool.names) && Sendable(tx, pool.head, chain)
    ensures !pool.Full(tx)
  {
    FewKnown(pool.all, remote.hash);
    SlotsOfSendable(tx, pool.head, chain);
  }

  lemma Overwritten(n: nat, remote: Tx, tx: Tx)
    ensures map[n := remote][n := tx] == map[n := tx]
  {
  }

  /**
   A ready transaction that a reset leaves in the queue: the one before it is pending, and a run with a reset, even
   to the same head, looks for ready transactions only from the state nonce on.
   */
  method ResetLeavesReady(first: Tx, second: Tx, ghost names: Hash -> Tx, head: Head, chain: Chain, now: int)
    returns (pool: TxPool, ghost demoted: Stage)
    requires names(first.hash) == first && names(second.hash) == second && Sendable(first, head, chain) && Sendable(second, head, chain)
    requires first.sender == second.sender && first.nonce == head.nonce(first.sender) && second.nonce == first.nonce + 1 && first.hash != second.hash
    ensures fresh(pool) && pool.Sound({}) && pool.Ordered()
    ensures Contiguous(At(demoted.pending, first.sender), first.nonce, second.nonce) && second.nonce in At(demoted.queue, first.sender)
  {
    pool := TwoInLine(first, second, names, head, chain, now);
    demoted := ResetToSame(pool, first.sender, chain, now);
  }

  /** The first transaction is pending, the second queued. */
  method TwoInLine(first: Tx, second: Tx, ghost names: Hash -> Tx, head: Head, chain: Chain, now: int) returns (pool: TxPool)
    requires names(first.hash) == first && names(second.hash) == second && Sendable(first, head, chain) && Sendable(second, head, chain)
    requires first.sender == second.sender && first.nonce == head.nonce(first.sender) && second.nonce == first.nonce + 1 && first.hash != second.hash
    ensures fresh(pool) && fresh(pool.priced) && pool.Sound({}) && pool.Ordered() && pool.head == head && pool.noncer.Get(first.sender) == second.nonce
    ensures LeftBehindAt(first.sender, head, head, pool.Now())
  {
    pool := OnePending(first, names, head, chain, now);
    FewKnown(pool.all, first.hash);
    SlotsOfSendable(first, head, chain);
    SlotsOfSendable(second, head, chain);
    assert !pool.Full(second) && pool.Admissible(second, pool.P(first.sender), pool.Q(first.sender));
    AddSendable(pool, second, false, chain, now);
    BothPayable(first, second, head, pool.P(first.sender), pool.Q(first.sender));
  }

  lemma BothPayable(first: Tx, second: Tx, head: Head, p: Txs, q: Txs)
    requires first.nonce == head.nonce(first.sender) && second.nonce == first.nonce + 1 && p == map[first.nonce := first] && q == map[second.nonce := second]
    requires !TooExpensive(first, head.balance(first.sender), head.maxGas) && !TooExpensive(second, head.balance(first.sender), head.maxGas)
    ensures LeftBehind(p, q, first.nonce, second.nonce, first.nonce, head.balance(first.sender), head.maxGas)
  {
  }

  method ResetToSame(pool: TxPool, a: Address, chain: Chain, now: int) returns (ghost demoted: Stage)
    requires pool.Sound({}) && pool.Ordered() && LeftBehindAt(a, pool.head, pool.head, pool.Now())
    modifies pool, pool.priced
    ensures pool.Sound({}) && pool.Ordered() && StillQueued(a, old(pool.head), old(pool.Now()), demoted)
  {
    var gaps, course := pool.RunReorg(ResetTo(pool.head, []), {a}, chain, now);
    demoted := course.demoted;
  }

  lemma ReadyPairExists(head: Head, chain: Chain) returns (first: Tx, second: Tx)
    requires head.nonce(7) == 0 && head.balance(7) >= 2_100_000 && head.maxGas >= TX_GAS
    requires chain.minGasPrice <= 100 && !chain.txExists(1) && !chain.txExists(2)
    ensures Sendable(first, head, chain) && Sendable(second, head, chain)
    ensures first.sender == second.sender && first.nonce == head.nonce(first.sender) && second.nonce == first.nonce + 1 && first.hash != second.hash
  {
    first := Tx(1, 7, true, false, 0, 100, TX_GAS, 0, 2_100_000, 100, Some(TX_GAS));
    second := first.(hash := 2, nonce := 1);
  }

  /**
   A pool over its limit in slots: with one big transaction it is far from full by number, and accepts a further
   one that does not fit by slots.
   */
  method NotFullButOverLimit(big: Tx, tx: Tx, ghost names: Hash -> Tx, head: Head, chain: Chain, now: int) returns (pool: TxPool)
    requires names(big.hash) == big && names(tx.hash) == tx && Sendable(big, head, chain) && Sendable(tx, head, chain)
    requires tx.sender != big.sender && tx.hash != big.hash && big.Slots() == 4 && tx.Slots() == 1
    ensures fresh(pool) && pool.Sound({}) && pool.Limit() == 4 && pool.all.slots == 5
  {
    pool := OneQueued(Config(10, 1, 2, 1, 2), big, names, head, chain, now);
    FewKnown(pool.all, big.hash);
    pool.Shape(tx.sender);
    OnlyOneSender(pool, big, tx.sender);
    assert !pool.Full(tx) && pool.Admissible(tx, pool.P(tx.sender), pool.Q(tx.sender));
    AddSendable(pool, tx, false, chain, now);
  }

  /** Accounts without known transactions have none in their lists. */
  lemma OnlyOneSender(pool: TxPool, tx: Tx, a: Address)
    requires pool.Sound({}) && a != tx.sender
    requires tx.hash in pool.all.Known() && pool.all.Known()[tx.hash] == tx && forall h :: pool.all.Has(h) ==> h == tx.hash
    ensures pool.P(a) == map[] && pool.Q(a) == map[]
  {
    pool.Parts({});
    SettledFor(pool.pending, pool.queue, pool.all.Known(), a);
    forall h | h in pool.all.Known() ensures h == tx.hash {
      assert pool.all.Has(h);
    }
    assert pool.all.Known() == map[tx.hash := tx];
    NothingFiled(a, pool.P(a), pool.all.Known(), tx);
    NothingFiled(a, pool.Q(a), pool.all.Known(), tx);
  }

  lemma NothingFiled(a: Address, m: Txs, known: Ledger, tx: Tx)
    requires FiledFor(a, m, known) && a != tx.sender && known == map[tx.hash := tx]
    ensures m == map[]
  {
    assert forall n :: n in m ==> Home(m[n], a, n, known);
    assert forall n :: n !in m;
  }

  lemma BigOneExists(head: Head, chain: Chain) returns (big: Tx, tx: Tx)
    requires head.nonce(7) == head.nonce(8) == 0 && head.balance(7) >= 2_100_000 && head.balance(8) >= 2_100_000 && head.maxGas >= TX_GAS
    requires chain.minGasPrice <= 100 && !chain.txExists(1) && !chain.txExists(2)
    ensures Sendable(big, head, chain) && Sendable(tx, head, chain)
    ensures tx.sender != big.sender && tx.hash != big.hash && big.Slots() == 4 && tx.Slots() == 1
  {
    tx := Tx(1, 7, true, false, 0, 100, TX_GAS, 0, 2_100_000, 100, Some(TX_GAS));
    big := tx.(hash := 2, sender := 8, size := TX_MAX_SIZE);
  }

  lemma ReplacementExists(head: Head, chain: Chain) returns (remote: Tx, tx: Tx)
    requires head.nonce(7) == 0 && head.balance(7) >= 4_200_000 && head.maxGas >= TX_GAS
    requires chain.minGasPrice <= 100 && !chain.txExists(1) && !chain.txExists(2)
    ensures Sendable(remote, head, chain) && Sendable(tx, head, chain)
    ensures tx.sender == remote.sender && tx.nonce == remote.nonce == head.nonce(tx.sender)
    ensures tx.hash != remote.hash && CanReplace(remote, tx, DEFAULTS.priceBump)
  {
    remote := Tx(1, 7, true, false, 0, 100, TX_GAS, 0, 2_100_000, 100, Some(TX_GAS));
    tx := remote.(hash := 2, gasPrice := 200, cost := 4_200_000);
  }
}
