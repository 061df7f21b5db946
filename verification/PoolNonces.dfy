/**
 The nonce discipline of the pool between runs: every pending list is the gap-free run of
 affordable transactions from the account's state nonce up to its virtual nonce, and the
 queue starts at or above the virtual nonce.
 */
module PoolNonces {
  import opened Transactions
  import opened NonceMaps
  import opened TxLists
  import opened PoolBooks

  /** What the pool reads from the chain head: account state, block gas limit, fork flag. */
  datatype Head = Head(nonce: Address -> nat, balance: Address -> nat, maxGas: nat, eip2718: bool)

  /** Virtual nonces on top of the account state. */
  datatype Noncer = Noncer(fallback: Address -> nat, nonces: map<Address, nat>) {
    function Get(a: Address): nat {
      if a in nonces then nonces[a] else fallback(a)
    }

    function Set(a: Address, n: nat): Noncer {
      this.(nonces := nonces[a := n])
    }

    function SetIfLower(a: Address, n: nat): Noncer {
      if Get(a) <= n then this.(nonces := nonces[a := Get(a)]) else this.(nonces := nonces[a := n])
    }
  }

  ghost predicate AllPayable(m: Txs, balance: nat, maxGas: nat) {
    forall n :: n in m ==> !TooExpensive(m[n], balance, maxGas)
  }

  ghost predicate AllFrom(m: Txs, t: nat) {
    forall n :: n in m ==> n >= t
  }

  /** One account: state nonce `s`, virtual nonce `v`. */
  ghost predicate NonceOk(p: Txs, q: Txs, s: nat, v: nat, balance: nat, maxGas: nat) {
    s <= v && Contiguous(p, s, v) && AllFrom(q, v) && AllPayable(p, balance, maxGas)
  }

  ghost predicate InOrder(pending: Lists, queue: Lists, head: Head, noncer: Noncer) {
    && noncer.fallback == head.nonce
    && forall a {:trigger noncer.Get(a)} ::
         NonceOk(At(pending, a), At(queue, a), head.nonce(a), noncer.Get(a), head.balance(a), head.maxGas)
  }

  /** The account's state after a removal; see removeTx. */
  ghost predicate RemovedFrom(tx: Tx, pending: Lists, queue: Lists, noncer: Noncer, pending': Lists, queue': Lists, noncer': Noncer) {
    var a, p, q := tx.sender, At(pending, tx.sender), At(queue, tx.sender);
    && SameElsewhere(a, pending, pending') && SameElsewhere(a, queue, queue')
    && (tx.nonce in p ==>
          && At(pending', a) == Below(p, tx.nonce)
          && At(queue', a) == q + Above(p, tx.nonce)
          && noncer' == noncer.SetIfLower(a, tx.nonce))
    && (tx.nonce !in p ==> pending' == pending && At(queue', a) == q - {tx.nonce} && noncer' == noncer)
  }

  lemma RemovalInOrder(tx: Tx, pending: Lists, queue: Lists, head: Head, noncer: Noncer, pending': Lists, queue': Lists, noncer': Noncer)
    requires InOrder(pending, queue, head, noncer)
    requires RemovedFrom(tx, pending, queue, noncer, pending', queue', noncer')
    ensures InOrder(pending', queue', head, noncer')
  {
    forall b
      ensures NonceOk(At(pending', b), At(queue', b), head.nonce(b), noncer'.Get(b), head.balance(b), head.maxGas)
    {
      var v := noncer.Get(b);
      assert NonceOk(At(pending, b), At(queue, b), head.nonce(b), v, head.balance(b), head.maxGas);
      assert b != tx.sender ==> noncer'.Get(b) == v;
    }
  }

  /** A transaction that fits the account state may replace a pending one or join the queue. */
  lemma ReplacementInOrder(tx: Tx, pending: Lists, queue: Lists, head: Head, noncer: Noncer, pending': Lists)
    requires InOrder(pending, queue, head, noncer) && tx.nonce in At(pending, tx.sender)
    requires !TooExpensive(tx, head.balance(tx.sender), head.maxGas)
    requires SameElsewhere(tx.sender, pending, pending') && At(pending', tx.sender) == At(pending, tx.sender)[tx.nonce := tx]
    ensures InOrder(pending', queue, head, noncer)
  {
    forall b
      ensures NonceOk(At(pending', b), At(queue, b), head.nonce(b), noncer.Get(b), head.balance(b), head.maxGas)
    {
      assert NonceOk(At(pending, b), At(queue, b), head.nonce(b), noncer.Get(b), head.balance(b), head.maxGas);
    }
  }

  lemma ArrivalInOrder(tx: Tx, pending: Lists, queue: Lists, head: Head, noncer: Noncer, queue': Lists)
    requires InOrder(pending, queue, head, noncer) && tx.nonce !in At(pending, tx.sender)
    requires tx.nonce >= head.nonce(tx.sender)
    requires SameElsewhere(tx.sender, queue, queue') && At(queue', tx.sender) == At(queue, tx.sender)[tx.nonce := tx]
    ensures InOrder(pending, queue', head, noncer)
  {
    forall b
      ensures NonceOk(At(pending, b), At(queue', b), head.nonce(b), noncer.Get(b), head.balance(b), head.maxGas)
    {
      assert NonceOk(At(pending, b), At(queue, b), head.nonce(b), noncer.Get(b), head.balance(b), head.maxGas);
    }
  }
}
