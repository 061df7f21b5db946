/**
 The transaction pool: executable transactions per account in `pending`, the others
 in `queue`, all of them in the lookup `all`, remote ones in the price heap as well.
 */
module TxPools {
  import opened Transactions
  import opened NonceMaps
  import opened TxLists
  import opened TxLookups
  import opened PricedLists
  import opened PoolBooks
  import opened PoolNonces
  import opened PoolRuns
  import opened Leveling
  import opened PoolOrder
  import opened PoolStages
  import NatSets
  import Totals

  datatype Config = Config(priceBump: nat, accountSlots: nat, globalSlots: nat, accountQueue: nat, globalQueue: nat) {
    /** Zero settings fall back to the defaults. */
    function Sanitize(): (c: Config)
      ensures c.Sane()
      ensures Sane() ==> c == this
    {
      Config(if priceBump < 1 then 10 else priceBump, if accountSlots < 1 then 16 else accountSlots,
             if globalSlots < 1 then 1024 else globalSlots, if accountQueue < 1 then 32 else accountQueue,
             if globalQueue < 1 then 256 else globalQueue)
    }

    predicate Sane() {
      priceBump >= 1 && accountSlots >= 1 && globalSlots >= 1 && accountQueue >= 1 && globalQueue >= 1
    }
  }

  /** What the pool's invariant is made of. */
  datatype Aspect = SettingsSane | ListsBooked | SlotsCounted | PricesIndexed

  /** What the pool asks the chain while validating. */
  datatype Chain = Chain(minGasPrice: nat, txExists: Hash -> bool)

  datatype Error =
    | AlreadyKnown | TxTypeNotSupported | OversizedData | NegativeValue | GasLimit | InvalidSender
    | Underpriced | NonceTooLow | InsufficientFunds | GasUintOverflow | IntrinsicGas
    | TxPoolOverflow | ReplaceUnderpriced

  /** What a run knows about the chain: no news, a head that cannot be read, or a new head and the transactions that fell out of the chain. */
  datatype Reset = NoReset | ResetFailed | ResetTo(head: Head, reinject: seq<Tx>)

  /** Everything that is asked of a transaction at a head, with the given accounts local and the given minimum price for others. */
  ghost predicate IsValid(tx: Tx, head: Head, locals: set<Address>, gasPrice: nat, chain: Chain) {
    && Fit(tx) && tx.nonce >= head.nonce(tx.sender) && !TooExpensive(tx, head.balance(tx.sender), head.maxGas)
    && (tx.typed ==> head.eip2718) && !chain.txExists(tx.hash)
    && chain.minGasPrice <= tx.gasPrice && (tx.sender in locals || gasPrice <= tx.gasPrice)
  }

  /** Signed, not too big, of no negative value, and with enough gas for what it carries. */
  predicate Fit(tx: Tx) {
    tx.signed && tx.size <= TX_MAX_SIZE && tx.value >= 0 && tx.intrinsic.Some? && tx.intrinsic.value <= tx.gas
  }

  /** The course of a run: the lookups while transactions are reinjected, the lists after each phase, and the level of the pending limit. */
  datatype Course = Course(trace: seq<Lookup>, start: Stage, promoted: Stage, demoted: Stage, level: nat)

  datatype Seal = Seal

  /** The screening of a lookup, out of sight where it is not needed; `Unseal` and `Reseal` open and close it. */
  ghost predicate Sealed(all: Lookup, floor: nat) {
    forall s: Seal {:trigger Sifted(s, all, floor)} :: Sifted(s, all, floor)
  }

  ghost predicate Sifted(s: Seal, all: Lookup, floor: nat) {
    match s case Seal => AllFit(all, floor)
  }

  ghost predicate AllFit(all: Lookup, floor: nat) {
    && (forall h :: h in all.locals ==> Fit(all.locals[h]))
    && (forall h :: h in all.remotes ==> Fit(all.remotes[h]) && all.remotes[h].gasPrice >= floor)
  }

  lemma Unseal(all: Lookup, floor: nat)
    requires Sealed(all, floor)
    ensures AllFit(all, floor)
  {
    assert Sifted(Seal, all, floor);
  }

  lemma Reseal(all: Lookup, floor: nat)
    requires AllFit(all, floor)
    ensures Sealed(all, floor)
  {
  }

  /** Forgetting transactions keeps a lookup screened. */
  lemma SealedPart(before: Lookup, after: Lookup, floor: nat)
    requires Sealed(before, floor) && before.Valid() && after.Valid()
    requires (forall h :: h in after.Known() ==> h in before.Known() && after.Known()[h] == before.Known()[h])
    requires forall h :: h in after.remotes ==> h in before.remotes
    ensures Sealed(after, floor)
  {
    Unseal(before, floor);
    forall h | h in after.locals ensures Fit(after.locals[h]) {
      assert after.Known()[h] == after.locals[h] && before.Known()[h] == after.locals[h];
    }
    forall h | h in after.remotes ensures Fit(after.remotes[h]) && after.remotes[h].gasPrice >= floor {
      assert after.Known()[h] == after.remotes[h] && before.Known()[h] == before.remotes[h];
    }
    Reseal(after, floor);
  }

  lemma SealedAdd(all: Lookup, tx: Tx, local: bool, floor: nat)
    requires Sealed(all, floor) && Fit(tx) && (local || tx.gasPrice >= floor)
    ensures Sealed(all.Add(tx, local), floor)
  {
    Unseal(all, floor);
    Reseal(all.Add(tx, local), floor);
  }

  lemma SealedLower(all: Lookup, floor: nat, lower: nat)
    requires Sealed(all, floor) && lower <= floor
    ensures Sealed(all, lower)
  {
    Unseal(all, floor);
    Reseal(all, lower);
  }

  class TxPool {
    const config: Config
    ghost const names: Hash -> Tx  // the one transaction behind each hash
    const priced: TxPricedList
    var head: Head
    var noncer: Noncer
    var locals: set<Address>
    var gasPrice: nat
    var pending: Lists
    var queue: Lists
    var beats: map<Address, int>
    var all: Lookup
    ghost var floor: nat  // no remote transaction is cheaper

    // -------- invariants --------

    /**
     Every known transaction is filed in exactly one list of its sender, under its nonce, and
     nothing else is filed.
     */
    ghost predicate Books()
      reads this`all, this`pending, this`queue
    {
      all.Valid() && Shelves() && Settled(pending, queue, all.Known())
    }

    ghost predicate Shelves()
      reads this`pending, this`queue
    {
      Shelved(pending, true) && Shelved(queue, false) && NoneEmpty(pending) && NoneEmpty(queue)
    }

    /** The slot counter equals the slots of all known transactions. */
    ghost predicate Counted()
      reads this`all
    {
      all.SlotsExact()
    }

    /** Every known transaction is fit, and no remote one is below the floor. */
    ghost predicate Screened()
      reads this`all, this`floor, this`gasPrice
    {
      floor <= gasPrice && Sealed(all, floor)
    }

    /** The price heap has every live remote transaction outside `except`. */
    ghost predicate PriceIndex(except: set<Hash>)
      reads this`all, this`floor, this`gasPrice, priced
    {
      && priced.Valid() && Screened()
      && Covers(priced.remotes, all, except)
      && (forall x :: x in priced.remotes ==> names(x.hash) == x)
      && (forall h :: h in all.remotes ==> names(h) == all.remotes[h])
    }

    /** All of the above, stated aspect by aspect; `Parts` takes them out. */
    ghost predicate Sound(except: set<Hash>)
      reads this`all, this`pending, this`queue, this`floor, this`gasPrice, priced
    {
      forall x: Aspect {:trigger Meets(x, except)} :: Meets(x, except)
    }

    ghost predicate Meets(x: Aspect, except: set<Hash>)
      reads this`all, this`pending, this`queue, this`floor, this`gasPrice, priced
    {
      match x
      case SettingsSane => config.Sane()
      case ListsBooked => Books()
      case SlotsCounted => Counted()
      case PricesIndexed => PriceIndex(except)
    }

    lemma Whole(except: set<Hash>)
      requires config.Sane() && Books() && Counted() && PriceIndex(except)
      ensures Sound(except)
    {
    }

    lemma Parts(except: set<Hash>)
      requires Sound(except)
      ensures config.Sane() && Books() && Counted() && PriceIndex(except)
    {
      assert Meets(SettingsSane, except) && Meets(ListsBooked, except) && Meets(SlotsCounted, except) && Meets(PricesIndexed, except);
    }

    /** What is known of an account's lists. */
    lemma Shape(a: Address)
      requires Sound({})
      ensures all.Valid() && all.SlotsExact()
      ensures a in queue ==> queue[a].Valid() && !queue[a].strict
    {
      Parts({});
    }

    lemma Screening()
      requires Sound({})
      ensures floor <= gasPrice && AllFit(all, floor)
    {
      Parts({});
      Unseal(all, floor);
    }

    /** The nonce discipline between runs. */
    ghost predicate Ordered()
      reads this`pending, this`queue, this`head, this`noncer
    {
      InOrder(pending, queue, head, noncer)
    }

    /** An account's pending and queued transactions. */
    ghost function P(a: Address): Txs
      reads this`pending
    {
      At(pending, a)
    }

    ghost function Q(a: Address): Txs
      reads this`queue
    {
      At(queue, a)
    }

    constructor (config: Config, priceLimit: nat, accounts: set<Address>, head: Head, ghost names: Hash -> Tx)
      ensures Sound({})
      ensures this.config == config.Sanitize() && this.head == head && locals == accounts && this.names == names
      ensures pending == map[] && queue == map[] && noncer == Noncer(head.nonce, map[]) && all == Lookup(map[], map[], 0)
      ensures gasPrice == floor == if priceLimit < 1 then 1 else priceLimit
      ensures fresh(priced)
    {
      this.config := config.Sanitize();
      this.names := names;
      this.head := head;
      noncer := Noncer(head.nonce, map[]);
      locals := accounts;
      gasPrice := if priceLimit < 1 then 1 else priceLimit;
      floor := if priceLimit < 1 then 1 else priceLimit;
      pending, queue, beats := map[], map[], map[];
      all := Lookup(map[], map[], 0);
      priced := new TxPricedList();
    }

    // -------- the lookup --------

    /** Removes the transactions of `gone` from the lookup, in any order. */
    method Forget(ghost a: Address, gone: Txs)
      requires all.Valid() && Counted() && FiledFor(a, gone, all.Known())
      modifies this`all
      ensures all.Valid() && Counted()
      ensures all.Known() == Drop(old(all.Known()), gone) && all.remotes == Drop(old(all.remotes), gone)
      ensures old(Sealed(all, floor)) ==> Sealed(all, floor)
    {
      ForgetEach(a, gone);
      if old(Sealed(all, floor)) {
        SealedPart(old(all), all, floor);
      }
    }

    method ForgetEach(ghost a: Address, gone: Txs)
      requires all.Valid() && Counted() && FiledFor(a, gone, all.Known())
      modifies this`all
      ensures all.Valid() && Counted()
      ensures all.Known() == Drop(old(all.Known()), gone) && all.remotes == Drop(old(all.remotes), gone)
    {
      var todo := gone;
      ForgettingStart(all.Known(), gone);
      ForgettingStart(all.remotes, gone);
      while todo != map[]
        invariant all.Valid() && Counted()
        invariant Forgetting(old(all.Known()), all.Known(), gone, todo)
        invariant Forgetting(old(all.remotes), all.remotes, gone, todo)
        decreases |todo|
      {
        var n :| n in todo;
        ForgettingStep(old(all.Known()), all.Known(), gone, todo, n);
        ForgettingStep(old(all.remotes), all.remotes, gone, todo, n);
        ForgetOne(todo[n]);
        todo := todo - {n};
      }
      ForgettingEnd(old(all.Known()), all.Known(), gone);
      ForgettingEnd(old(all.remotes), all.remotes, gone);
    }

    method ForgetOne(tx: Tx)
      requires all.Valid() && Counted()
      modifies this`all
      ensures all.Valid() && Counted()
      ensures all.Known() == old(all.Known()) - {tx.hash} && all.remotes == old(all.remotes) - {tx.hash}
      ensures all == old(all).Remove(tx.hash) && (old(Sealed(all, floor)) ==> Sealed(all, floor))
    {
      RemoveKnown(all, tx.hash);
      RemoveSlots(all, tx.hash);
      if Sealed(all, floor) {
        SealedPart(all, all.Remove(tx.hash), floor);
      }
      all := all.Remove(tx.hash);
    }

    /** Tells the price heap about transactions that left the lookup. */
    method MarkStale(count: nat, ghost except: set<Hash>)
      requires all.Valid() && PriceIndex(except)
      modifies priced
      ensures PriceIndex(except)
    {
      priced.Removed(count, all);
    }

    /** A replaced transaction leaves the lookup. */
    method Supersede(prev: Tx, ghost except: set<Hash>)
      requires all.Valid() && Counted() && PriceIndex(except)
      modifies this`all, priced
      ensures all.Valid() && Counted() && PriceIndex(except)
      ensures all.Known() == old(all.Known()) - {prev.hash}
    {
      ForgetOne(prev);
      MarkStale(1, except);
    }

    /** A transaction that may enter, as a local or a remote one. */
    ghost predicate Welcome(tx: Tx, isLocal: bool)
      reads this`floor
    {
      Fit(tx) && (isLocal || tx.gasPrice >= floor)
    }

    /** A new transaction enters the lookup and, if remote, the price heap. */
    method Learn(tx: Tx, local: bool, ghost except: set<Hash>)
      requires all.Valid() && Counted() && PriceIndex(except) && !all.Has(tx.hash) && names(tx.hash) == tx && Welcome(tx, local)
      modifies this`all, priced
      ensures all.Valid() && Counted() && PriceIndex(except)
      ensures all.Known() == old(all.Known())[tx.hash := tx]
    {
      AddKnown(all, tx, local);
      AddSlots(all, tx, local);
      SealedAdd(all, tx, local, floor);
      all := all.Add(tx, local);
      ghost var before := priced.remotes;
      priced.Put(tx, local);
      forall x ensures x in priced.remotes <==> x in before || (!local && x == tx) {
        assert x in priced.remotes <==> x in multiset(priced.remotes);
        assert x in before <==> x in multiset(before);
      }
    }

    /** The lookup after `tx` was filed in place of `prev`. */
    method Record(tx: Tx, prev: Option<Tx>, local: bool, addAll: bool, ghost except: set<Hash>)
      requires all.Valid() && Counted() && PriceIndex(except)
      requires addAll ==> !all.Has(tx.hash) && names(tx.hash) == tx && Welcome(tx, local)
      modifies this`all, priced
      ensures all.Valid() && Counted() && PriceIndex(except)
      ensures var base := if prev.Some? then old(all.Known()) - {prev.value.hash} else old(all.Known());
        all.Known() == if addAll then base[tx.hash := tx] else base
      ensures !addAll && prev.None? ==> all == old(all)
    {
      if prev.Some? {
        Supersede(prev.value, except);
      }
      if addAll {
        Learn(tx, local, except);
      }
    }

    // -------- filing transactions --------

    method EnqueueTx(tx: Tx, local: bool, addAll: bool, now: int, ghost except: set<Hash>) returns (replaced: bool, err: Option<Error>)
      requires all.Valid() && Counted() && Shelved(queue, false) && PriceIndex(except)
      requires addAll ==> !all.Has(tx.hash) && names(tx.hash) == tx && Welcome(tx, local)
      modifies this`queue, this`all, this`beats, priced
      ensures all.Valid() && Counted() && Shelved(queue, false) && PriceIndex(except)
      ensures SameElsewhere(tx.sender, old(queue), queue) && (old(NoneEmpty(queue)) ==> NoneEmpty(queue))
      ensures var q := old(At(queue, tx.sender));
        && (err.Some? <==> tx.nonce in q && !CanReplace(q[tx.nonce], tx, config.priceBump))
        && (err.Some? ==> err.value == ReplaceUnderpriced && queue == old(queue) && all == old(all) && !replaced)
        && (err.None? ==>
              && replaced == (tx.nonce in q)
              && At(queue, tx.sender) == q[tx.nonce := tx]
              && var base := Replaced(old(all.Known()), q, tx);
                 all.Known() == if addAll then base[tx.hash := tx] else base)
      ensures !addAll && tx.nonce !in old(At(queue, tx.sender)) ==> all == old(all)
    {
      var a := tx.sender;
      FileTxEffect(queue, false, a, tx, config.priceBump);
      var (queue', inserted, prev) := FileTx(queue, false, a, tx, config.priceBump);
      if !inserted {
        return false, Some(ReplaceUnderpriced);
      }
      queue := queue';
      Record(tx, prev, local, addAll, except);
      if a !in beats {
        beats := beats[a := now];
      }
      return prev.Some?, None;
    }

    /** Adds a transaction to the pending list of `a` and moves the virtual nonce behind it. */
    method PromoteTx(a: Address, tx: Tx, now: int) returns (ok: bool)
      requires all.Valid() && Counted() && Shelved(pending, true) && PriceIndex({})
      modifies this`pending, this`all, this`noncer, this`beats, priced
      ensures all.Valid() && Counted() && Shelved(pending, true) && PriceIndex({})
      ensures SameElsewhere(a, old(pending), pending) && (old(NoneEmpty(pending)) ==> NoneEmpty(pending))
      ensures var p := old(At(pending, a));
        && (ok <==> (tx.nonce in p ==> CanReplace(p[tx.nonce], tx, config.priceBump)))
        && At(pending, a) == (if ok then p[tx.nonce := tx] else p)
        && all.Known() == (if ok then Replaced(old(all.Known()), p, tx) else old(all.Known()) - {tx.hash})
      ensures noncer == if ok then old(noncer).Set(a, tx.nonce + 1) else old(noncer)
      ensures tx.nonce !in old(At(pending, a)) ==> all == old(all)
    {
      FileTxEffect(pending, true, a, tx, config.priceBump);
      var (pending', inserted, prev) := FileTx(pending, true, a, tx, config.priceBump);
      if !inserted {
        Supersede(tx, {});
        return false;
      }
      pending := pending';
      if prev.Some? {
        Supersede(prev.value, {});
      }
      noncer := noncer.Set(a, tx.nonce + 1);
      beats := beats[a := now];
      return true;
    }

    /** Moves transactions without a list back into the queue; none is refused or replaces another. */
    method Postpone(a: Address, moved: Txs, now: int, ghost except: set<Hash>)
      requires all.Valid() && Counted() && Shelved(queue, false) && PriceIndex(except)
      requires FiledFor(a, moved, all.Known()) && Disjoint(moved, At(queue, a))
      modifies this`queue, this`all, this`beats, priced
      ensures all.Valid() && Counted() && Shelved(queue, false) && PriceIndex(except)
      ensures SameElsewhere(a, old(queue), queue) && (old(NoneEmpty(queue)) ==> NoneEmpty(queue))
      ensures At(queue, a) == old(At(queue, a)) + moved
      ensures all == old(all) && (moved == map[] ==> queue == old(queue))
    {
      var todo := moved;
      FilingStart(At(queue, a), moved);
      while todo != map[]
        invariant all.Valid() && Counted() && Shelved(queue, false) && PriceIndex(except)
        invariant SameElsewhere(a, old(queue), queue) && (old(NoneEmpty(queue)) ==> NoneEmpty(queue))
        invariant Filing(old(At(queue, a)), At(queue, a), moved, todo)
        invariant all == old(all) && (moved == map[] ==> queue == old(queue) && todo == map[])
        decreases |todo|
      {
        var n :| n in todo;
        FilingStep(old(At(queue, a)), At(queue, a), moved, todo, n);
        var replaced, err := EnqueueTx(todo[n], false, false, now, except);
        todo := todo - {n};
      }
      FilingEnd(old(At(queue, a)), At(queue, a), moved);
    }

    // -------- removal --------

    /**
     Removes one transaction. It is looked for by nonce, in pending first; what a removal leaves
     non-executable goes back to the queue.
     */
    method RemoveTx(h: Hash, outOfBound: bool, now: int, ghost except: set<Hash>)
      requires Sound(except)
      modifies this`pending, this`queue, this`beats, this`all, this`noncer, priced
      ensures Sound(except)
      ensures all.Known() == old(all.Known()) - {h} && all == old(all).Remove(h)
      ensures h !in old(all.Known()) ==> pending == old(pending) && queue == old(queue) && noncer == old(noncer)
      ensures old(Ordered()) ==> Ordered()
      ensures h in old(all.Known()) ==> RemovedFrom(old(all.Known())[h], old(pending), old(queue), old(noncer), pending, queue, noncer)
    {
      Parts(except);
      var got := all.Get(h);
      if got.None? {
        assert all.Known() - {h} == all.Known();
        return;
      }
      var tx := got.value;
      ghost var known := all.Known();
      assert known[h] == tx;
      ForgetOne(tx);
      if outOfBound {
        MarkStale(1, except);
      }
      Unfile(tx, now, except, known);
    }

    /** Takes a transaction that already left the lookup out of its list. */
    method Unfile(tx: Tx, now: int, ghost except: set<Hash>, ghost known: Ledger)
      requires config.Sane() && all.Valid() && Counted() && PriceIndex(except) && all.Known() == known - {tx.hash}
      requires Shelves() && Settled(pending, queue, known) && tx.hash in known && known[tx.hash] == tx
      modifies this`pending, this`queue, this`beats, this`all, this`noncer, priced
      ensures Sound(except) && all == old(all)
      ensures RemovedFrom(tx, old(pending), old(queue), old(noncer), pending, queue, noncer)
      ensures old(Ordered()) ==> Ordered()
    {
      var a := tx.sender;
      FiledOnce(pending, queue, known, tx);
      if a in pending && tx.nonce in pending[a].txs {
        RemoveFromPending(tx, now, except, known);
      } else if a in queue {
        RemoveFromQueue(tx, except, known);
      }
      if old(Ordered()) {
        RemovalInOrder(tx, old(pending), old(queue), head, old(noncer), pending, queue, noncer);
      }
    }

    method RemoveFromPending(tx: Tx, now: int, ghost except: set<Hash>, ghost known: Ledger)
      requires config.Sane() && all.Valid() && Counted() && PriceIndex(except) && all.Known() == known - {tx.hash}
      requires Shelves() && Settled(pending, queue, known) && Holds(P(tx.sender), tx)
      modifies this`pending, this`queue, this`beats, this`all, this`noncer, priced
      ensures Sound(except) && all == old(all)
      ensures RemovedFrom(tx, old(pending), old(queue), old(noncer), pending, queue, noncer)
    {
      var a := tx.sender;
      PostponedAreFree(pending, queue, known, tx);
      var (list, removed, invalids) := pending[a].Remove(tx.nonce);
      RemoveStrict(pending[a], tx.nonce);
      PutListEffect(pending, true, a, list);
      pending := PutList(pending, a, list);
      Postpone(a, invalids, now, except);
      noncer := noncer.SetIfLower(a, tx.nonce);
      SettledWithoutPending(old(pending), old(queue), known, tx, pending, queue);
      Whole(except);
    }

    method RemoveFromQueue(tx: Tx, ghost except: set<Hash>, ghost known: Ledger)
      requires config.Sane() && all.Valid() && Counted() && PriceIndex(except) && all.Known() == known - {tx.hash}
      requires Shelves() && Settled(pending, queue, known) && Holds(Q(tx.sender), tx)
      modifies this`queue, this`beats
      ensures Sound(except)
      ensures SameElsewhere(tx.sender, old(queue), queue) && Q(tx.sender) == old(Q(tx.sender)) - {tx.nonce}
    {
      var a := tx.sender;
      var (list, removed, _) := queue[a].Remove(tx.nonce);
      PutListEffect(queue, false, a, list);
      queue := PutList(queue, a, list);
      if list.txs == map[] {
        beats := beats - {a};
      }
      SettledWithoutQueued(pending, old(queue), known, tx, queue);
      Whole(except);
    }

    /** Removes what the price heap gave up, which makes the heap complete again. */
    method RemoveAll(drop: seq<Tx>, now: int)
      requires Sound(HashesOf(drop))
      modifies this`pending, this`queue, this`beats, this`all, this`noncer, priced
      ensures Sound({}) && (old(Ordered()) ==> Ordered())
      ensures Without(old(all.locals), HashesOf(drop), all.locals) && Without(old(all.remotes), HashesOf(drop), all.remotes)
    {
      for i := 0 to |drop|
        invariant Sound(HashesOf(drop)) && (old(Ordered()) ==> Ordered())
        invariant Without(old(all.locals), HashesOf(drop[..i]), all.locals)
        invariant Without(old(all.remotes), HashesOf(drop[..i]), all.remotes)
      {
        Parts(HashesOf(drop));
        WithoutStep(old(all), drop, i, all);
        RemoveTx(drop[i].hash, false, now, HashesOf(drop));
      }
      assert drop[..|drop|] == drop;
      Parts(HashesOf(drop));
      Whole({});
    }

    static lemma WithoutStep(before: Lookup, drop: seq<Tx>, i: nat, mid: Lookup)
      requires i < |drop| && mid.Valid()
      requires Without(before.locals, HashesOf(drop[..i]), mid.locals) && Without(before.remotes, HashesOf(drop[..i]), mid.remotes)
      ensures Without(before.locals, HashesOf(drop[..i + 1]), mid.Remove(drop[i].hash).locals)
      ensures Without(before.remotes, HashesOf(drop[..i + 1]), mid.Remove(drop[i].hash).remotes)
    {
      RemoveKnown(mid, drop[i].hash);
      assert drop[..i + 1] == drop[..i] + [drop[i]];
      assert HashesOf(drop[..i + 1]) == HashesOf(drop[..i]) + {drop[i].hash};
    }

    /** `after` is `before` without the entries of `gone`. */
    static ghost predicate Without(before: Ledger, gone: set<Hash>, after: Ledger) {
      && (forall h :: h in after <==> h in before && h !in gone)
      && (forall h :: h in after ==> after[h] == before[h])
    }

    /** Sets the minimum price and drops exactly the remote transactions below `cap`. */
    method SetGasPriceWithCap(price: nat, cap: nat, now: int)
      requires Sound({})
      modifies this`gasPrice, this`floor, this`pending, this`queue, this`beats, this`all, this`noncer, priced
      ensures Sound({}) && (old(Ordered()) ==> Ordered()) && gasPrice == price && floor == if price <= cap then price else cap
      ensures all.locals == old(all.locals)
      ensures all.remotes == map h | h in old(all.remotes) && old(all.remotes)[h].gasPrice >= cap :: old(all.remotes)[h]
    {
      Parts({});
      gasPrice := price;
      SealedLower(all, floor, if floor <= price then floor else price);
      floor := if floor <= price then floor else price;
      var drop := priced.Cap(cap, all);
      ghost var before := all;
      Whole(HashesOf(drop));
      RemoveAll(drop, now);
      CheapOnes(before, drop, cap, all);
      RaiseFloor(if price <= cap then price else cap);
    }

    ghost method RaiseFloor(price: nat)
      requires Sound({}) && price <= gasPrice && forall h :: h in all.remotes ==> all.remotes[h].gasPrice >= price
      modifies this`floor
      ensures Sound({}) && floor == price
    {
      Parts({});
      Unseal(all, floor);
      floor := price;
      Reseal(all, floor);
      Whole({});
    }

    lemma CheapOnes(before: Lookup, drop: seq<Tx>, cap: nat, after: Lookup)
      requires before.Valid() && forall x :: x in drop <==> Live(before, x) && x.gasPrice < cap
      requires Without(before.locals, HashesOf(drop), after.locals) && Without(before.remotes, HashesOf(drop), after.remotes)
      ensures after.locals == before.locals
      ensures after.remotes == map h | h in before.remotes && before.remotes[h].gasPrice >= cap :: before.remotes[h]
    {
      forall h | h in before.remotes && before.remotes[h].gasPrice < cap ensures h in HashesOf(drop) {
        assert Live(before, before.remotes[h]);
      }
    }

    // -------- arrivals --------

    /** The first check that a transaction fails, if any. */
    function Validate(tx: Tx, isLocal: bool, chain: Chain): (e: Option<Error>)
      reads this
      ensures e.None? <==>
        && Fit(tx) && Acceptable(tx) && (tx.typed ==> head.eip2718) && !chain.txExists(tx.hash)
        && chain.minGasPrice <= tx.gasPrice && (isLocal || tx.sender in locals || gasPrice <= tx.gasPrice)
    {
      if !head.eip2718 && tx.typed then Some(TxTypeNotSupported)
      else if tx.size > TX_MAX_SIZE then Some(OversizedData)
      else if tx.value < 0 then Some(NegativeValue)
      else if head.maxGas < tx.gas then Some(GasLimit)
      else if !tx.signed then Some(InvalidSender)
      else if !(isLocal || tx.sender in locals) && tx.gasPrice < gasPrice then Some(Underpriced)
      else if head.nonce(tx.sender) > tx.nonce then Some(NonceTooLow)
      else if head.balance(tx.sender) < tx.cost then Some(InsufficientFunds)
      else if tx.intrinsic.None? then Some(GasUintOverflow)
      else if tx.gas < tx.intrinsic.value then Some(IntrinsicGas)
      else if chain.minGasPrice > tx.gasPrice then Some(Underpriced)
      else if chain.txExists(tx.hash) then Some(Underpriced)
      else None
    }

    /** The transaction can be executed now or later in the current state. */
    predicate Acceptable(tx: Tx)
      reads this`head
    {
      tx.nonce >= head.nonce(tx.sender) && !TooExpensive(tx, head.balance(tx.sender), head.maxGas)
    }

    function Limit(): nat { config.globalSlots + config.globalQueue }

    predicate Full(tx: Tx)
      reads this`all
    {
      all.Count() + tx.Slots() > Limit()
    }

    /** What is asked of the price heap when the pool is full. */
    function Wanted(tx: Tx): int
      reads this`all
    {
      all.slots - Limit() + tx.Slots()
    }

    /**
     The pool is full by the number of transactions, while room is made by slots. A full pool always wants
     slots; the two tests disagree exactly when the new transaction fits by number but not by slots.
     */
    lemma FullWantsSlots(tx: Tx)
      requires all.SlotsExact()
      requires (forall h :: h in all.locals ==> all.locals[h].Slots() > 0) && forall h :: h in all.remotes ==> all.remotes[h].Slots() > 0
      ensures Full(tx) ==> Wanted(tx) > 0
      ensures (Full(tx) <==> Wanted(tx) > 0) <==> !(all.Count() + tx.Slots() <= Limit() < all.slots + tx.Slots())
    {
      CountWithinSlots(all);
    }

    /** There are remotes, and none of them is cheaper. */
    ghost predicate Undercut(tx: Tx)
      reads this`all
    {
      all.remotes != map[] && forall h :: h in all.remotes ==> all.remotes[h].gasPrice >= tx.gasPrice
    }

    /** The live entries of the price heap take fewer slots than are wanted. */
    ghost predicate Short(tx: Tx)
      reads this`all, priced
    {
      LiveWeight(all, multiset(priced.remotes)) < Wanted(tx)
    }

    /** That is, the live remotes do, unless one of them sits in the heap twice. */
    lemma ShortIff(tx: Tx)
      requires Sound({}) && NoLiveTwice(all, multiset(priced.remotes))
      ensures Short(tx) <==> Totals.Total(all.remotes, SlotsOf) < Wanted(tx)
    {
      Parts({});
      HonestWeight(all, priced.remotes);
    }

    /** Drops the cheapest remote transactions of a full pool, or refuses the new one. */
    method MakeRoom(tx: Tx, isLocal: bool, now: int) returns (err: Option<Error>)
      requires Sound({}) && !all.Has(tx.hash)
      modifies this`pending, this`queue, this`beats, this`all, this`noncer, priced
      ensures Sound({}) && !all.Has(tx.hash) && (old(Ordered()) ==> Ordered())
      ensures err.Some? <==> !isLocal && old(Undercut(tx) || Short(tx))
      ensures err.Some? ==> err.value == if old(Undercut(tx)) then Underpriced else TxPoolOverflow
      ensures err.Some? ==> pending == old(pending) && queue == old(queue) && all == old(all) && noncer == old(noncer)
      ensures err.None? ==> GaveUp(old(all), all, old(Wanted(tx)))
      ensures err.None? && NoLiveTwice(old(all), multiset(old(priced.remotes))) ==>
        all.slots + tx.Slots() <= Limit() || (isLocal && all.remotes == map[])
      ensures forall h :: all.Has(h) ==> old(all).Has(h)
    {
      if !isLocal {
        var under := CheaperThanAll(tx);
        if under {
          return Some(Underpriced);
        }
      }
      var success := Evict(Wanted(tx), isLocal, now);
      if !isLocal && !success {
        return Some(TxPoolOverflow);
      }
      return None;
    }

    method CheaperThanAll(tx: Tx) returns (under: bool)
      requires Sound({})
      modifies priced
      ensures Sound({}) && multiset(priced.remotes) <= multiset(old(priced.remotes))
      ensures NoLiveTwice(all, multiset(old(priced.remotes))) ==> NoLiveTwice(all, multiset(priced.remotes))
      ensures under <==> Undercut(tx)
      ensures Short(tx) <==> old(Short(tx))
    {
      Parts({});
      under := priced.Underpriced(tx, all);
      Whole({});
    }

    /** Frees slots by dropping the cheapest remotes; without force it is all or nothing. */
    method Evict(want: int, force: bool, now: int) returns (success: bool)
      requires Sound({})
      modifies this`pending, this`queue, this`beats, this`all, this`noncer, priced
      ensures Sound({}) && (old(Ordered()) ==> Ordered())
      ensures success <==> force || want <= LiveWeight(old(all), multiset(old(priced.remotes)))
      ensures !success ==> pending == old(pending) && queue == old(queue) && all == old(all) && noncer == old(noncer)
      ensures forall h :: all.Has(h) ==> old(all).Has(h)
      ensures all.locals == old(all.locals)
      ensures success && NoLiveTwice(old(all), multiset(old(priced.remotes))) ==>
        all.slots <= old(all).slots - want || (force && all.remotes == map[])
      ensures success ==> GaveUp(old(all), all, want)
    {
      Parts({});
      ghost var before, heap0 := all, priced.remotes;
      var drop;
      drop, success := priced.Discard(want, force, all);
      ghost var heap := priced.remotes;
      Whole(HashesOf(drop));
      if !success {
        assert HashesOf(drop) == {};
        return;
      }
      RemoveAll(drop, now);
      Parts({});
      Unlisted(before, drop, all);
      GaveUpBy(before, heap0, heap, drop, all, want);
      if LiveWeight(before, multiset(drop)) >= want {
        if NoLiveTwice(before, multiset(heap0)) {
          RoomMade(before, multiset(heap0), drop, all, want);
        }
      } else {
        NoneLeft(before, drop, all);
      }
    }

    lemma NoneLeft(before: Lookup, drop: seq<Tx>, after: Lookup)
      requires Covers([], before, HashesOf(drop)) && after.remotes == before.remotes - HashesOf(drop)
      ensures after.remotes == map[]
    {
      assert forall h :: h in before.remotes ==> h in HashesOf(drop);
    }

    lemma Unlisted(before: Lookup, drop: seq<Tx>, after: Lookup)
      requires before.Valid() && forall x :: x in drop ==> Live(before, x)
      requires Without(before.locals, HashesOf(drop), after.locals) && Without(before.remotes, HashesOf(drop), after.remotes)
      ensures after.locals == before.locals && after.remotes == before.remotes - HashesOf(drop)
    {
    }

    /** What Discard counted has really left the pool. */
    lemma RoomMade(before: Lookup, heap: multiset<Tx>, drop: seq<Tx>, after: Lookup, want: int)
      requires before.Valid() && before.SlotsExact() && after.SlotsExact()
      requires NoLiveTwice(before, heap) && multiset(drop) <= heap && forall x :: x in drop ==> Live(before, x)
      requires after.locals == before.locals && after.remotes == before.remotes - HashesOf(drop)
      requires LiveWeight(before, multiset(drop)) >= want
      ensures after.slots <= before.slots - want
    {
      DropsAreDistinct(before, heap, drop);
      FreedSlots(before, drop);
    }

    /**
     Where a transaction went, given the sender's lists and the state before: in place of the pending one with its
     nonce, or in the queue. Only in the queue does a local transaction mark its sender as local.
     */
    ghost predicate FiledNew(tx: Tx, local: bool, locals0: set<Address>, p: Txs, q: Txs, slots: int)
      reads this`pending, this`queue, this`locals, this`all
    {
      && (if tx.nonce in p then P(tx.sender) == p[tx.nonce := tx] else P(tx.sender) == p && Q(tx.sender) == q[tx.nonce := tx])
      && (local ==> (tx.sender in locals <==> tx.sender in locals0 || tx.nonce !in p))
      && all.slots <= slots + tx.Slots() && (tx.nonce !in p && tx.nonce !in q ==> all.slots == slots + tx.Slots())
    }

    /** The transaction is better by the price bump than the one it would replace, if any. */
    ghost predicate Admissible(tx: Tx, p: Txs, q: Txs) {
      if tx.nonce in p then CanReplace(p[tx.nonce], tx, config.priceBump) else
      tx.nonce in q ==> CanReplace(q[tx.nonce], tx, config.priceBump)
    }

    /** The transaction beats every known one with its sender and nonce. */
    ghost predicate Beats(tx: Tx, known: Ledger) {
      forall h :: h in known && SameSlot(known[h], tx) ==> CanReplace(known[h], tx, config.priceBump)
    }

    /** An account's lists hold the known transactions of the account, so either may be asked. */
    lemma ListsAndLedger(tx: Tx)
      requires Sound({})
      ensures Admissible(tx, P(tx.sender), Q(tx.sender)) <==> Beats(tx, all.Known())
      ensures tx.nonce in P(tx.sender) ==> Replaced(all.Known(), P(tx.sender), tx) == Others(all.Known(), tx)
      ensures tx.nonce !in P(tx.sender) ==> Replaced(all.Known(), Q(tx.sender), tx) == Others(all.Known(), tx)
      ensures tx.nonce in P(tx.sender) || tx.nonce in Q(tx.sender) <==> Rivalled(all.Known(), tx)
    {
      Parts({});
      SettledFor(pending, queue, all.Known(), tx.sender);
      SlotHolder(tx, P(tx.sender), Q(tx.sender), all.Known());
    }

    /**
     How a valid new transaction fares, from the pool before. `room` is the lookup once room was made: a full pool
     refuses a remote transaction that is underpriced or for which it cannot free the slots; otherwise, and if not
     full, the transaction gets in if and only if it beats what it would replace.
     */
    ghost predicate Decided(tx: Tx, isLocal: bool, full: bool, undercut: bool, short: bool, before: Lookup, want: int,
                            room: Lookup, err: Option<Error>)
    {
      if full && !isLocal && undercut then err == Some(Underpriced)
      else if full && !isLocal && short then err == Some(TxPoolOverflow)
      else
        && (if full then GaveUp(before, room, want) else room == before)
        && err == if Beats(tx, room.Known()) then None else Some(ReplaceUnderpriced)
    }

    /** Validates a transaction and files it: in place of a pending one with its nonce, or in the queue. */
    method Add(tx: Tx, local: bool, chain: Chain, now: int) returns (replaced: bool, err: Option<Error>, ghost room: Lookup)
      requires Sound({}) && names(tx.hash) == tx
      modifies this`locals, this`pending, this`queue, this`beats, this`all, this`noncer, priced
      ensures Sound({}) && (old(Ordered()) ==> Ordered())
      ensures err.None? ==> tx.hash in all.Known() && all.Known()[tx.hash] == tx
      ensures !old(Full(tx)) ==> noncer == old(noncer)
      ensures err.None? ==> !old(all).Has(tx.hash) && old(Validate(tx, local || (tx.signed && tx.sender in locals), chain)) == None
      ensures old(all).Has(tx.hash) ==> err == Some(AlreadyKnown)
      ensures !old(all).Has(tx.hash) ==>
        var isLocal := local || (tx.signed && tx.sender in old(locals)); var invalid := old(Validate(tx, local || (tx.signed && tx.sender in locals), chain));
        if invalid.Some? then err == invalid
        else Decided(tx, isLocal, old(Full(tx)), old(Undercut(tx)), old(Short(tx)), old(all), old(Wanted(tx)), room, err)
      ensures err.None? ==> all.Known() == Others(room.Known(), tx)[tx.hash := tx] && (replaced <==> Rivalled(room.Known(), tx))
      ensures err == Some(ReplaceUnderpriced) ==> all == room
      ensures err.None? && local ==> (tx.sender in locals <==> tx.sender in old(locals) || tx.nonce !in P(tx.sender))
      ensures !old(Full(tx)) && !old(all).Has(tx.hash) && old(Validate(tx, local || (tx.signed && tx.sender in locals), chain)) == None ==>
        (err.None? <==> Admissible(tx, old(P(tx.sender)), old(Q(tx.sender))))
      ensures err.None? && !old(Full(tx)) ==> FiledNew(tx, local, old(locals), old(P(tx.sender)), old(Q(tx.sender)), old(all).slots)
      ensures forall h :: all.Has(h) ==> old(all).Has(h) || h == tx.hash
      ensures err.None? && old(Full(tx)) && !local && tx.sender !in old(locals) && NoLiveTwice(old(all), multiset(old(priced.remotes))) ==>
        all.slots <= Limit()
      ensures old(locals) <= locals <= old(locals) + {tx.sender} && (!local || err.Some? ==> locals == old(locals))
      ensures err.Some? && err.value != ReplaceUnderpriced ==>
        pending == old(pending) && queue == old(queue) && all == old(all) && noncer == old(noncer)
    {
      room := all;
      if all.Has(tx.hash) {
        return false, Some(AlreadyKnown), room;
      }
      var isLocal := local || (tx.signed && tx.sender in locals);
      err := Validate(tx, isLocal, chain);
      if err.Some? {
        return false, err, room;
      }
      Screening();
      replaced, err, room := AddValid(tx, isLocal, local, now);
    }

    method AddValid(tx: Tx, isLocal: bool, local: bool, now: int) returns (replaced: bool, err: Option<Error>, ghost room: Lookup)
      requires Sound({}) && !all.Has(tx.hash) && names(tx.hash) == tx && Acceptable(tx) && Welcome(tx, isLocal)
      modifies this`locals, this`pending, this`queue, this`beats, this`all, this`noncer, priced
      ensures Sound({}) && (old(Ordered()) ==> Ordered())
      ensures err.None? ==> tx.hash in all.Known() && all.Known()[tx.hash] == tx
      ensures err.None? && local ==> (tx.sender in locals <==> tx.sender in old(locals) || tx.nonce !in P(tx.sender))
      ensures !old(Full(tx)) ==> noncer == old(noncer)
      ensures Decided(tx, isLocal, old(Full(tx)), old(Undercut(tx)), old(Short(tx)), old(all), old(Wanted(tx)), room, err)
      ensures err.None? ==> all.Known() == Others(room.Known(), tx)[tx.hash := tx] && (replaced <==> Rivalled(room.Known(), tx))
      ensures err == Some(ReplaceUnderpriced) ==> all == room
      ensures !old(Full(tx)) ==> (err.None? <==> Admissible(tx, old(P(tx.sender)), old(Q(tx.sender))))
      ensures err.None? && !old(Full(tx)) ==> FiledNew(tx, local, old(locals), old(P(tx.sender)), old(Q(tx.sender)), old(all).slots)
      ensures forall h :: all.Has(h) ==> old(all).Has(h) || h == tx.hash
      ensures err.None? && old(Full(tx)) && !isLocal && NoLiveTwice(old(all), multiset(old(priced.remotes))) ==> all.slots <= Limit()
      ensures old(locals) <= locals <= old(locals) + {tx.sender} && (!local || err.Some? ==> locals == old(locals))
      ensures err.Some? && err.value != ReplaceUnderpriced ==>
        pending == old(pending) && queue == old(queue) && all == old(all) && noncer == old(noncer)
    {
      replaced := false;
      err := RoomFor(tx, isLocal, now);
      room := all;
      if err.None? {
        replaced, err := Admit(tx, isLocal, local, now);
      }
    }

    /** Makes room if the pool is full. */
    method RoomFor(tx: Tx, isLocal: bool, now: int) returns (err: Option<Error>)
      requires Sound({}) && !all.Has(tx.hash)
      modifies this`pending, this`queue, this`beats, this`all, this`noncer, priced
      ensures Sound({}) && !all.Has(tx.hash) && (old(Ordered()) ==> Ordered())
      ensures err == if !old(Full(tx)) || isLocal then None else if old(Undercut(tx)) then Some(Underpriced) else if old(Short(tx)) then Some(TxPoolOverflow) else None
      ensures err.Some? || !old(Full(tx)) ==> pending == old(pending) && queue == old(queue) && all == old(all) && noncer == old(noncer)
      ensures err.None? && old(Full(tx)) ==> GaveUp(old(all), all, old(Wanted(tx)))
      ensures err.None? && old(Full(tx)) && NoLiveTwice(old(all), multiset(old(priced.remotes))) ==>
        all.slots + tx.Slots() <= Limit() || (isLocal && all.remotes == map[])
      ensures forall h :: all.Has(h) ==> old(all).Has(h)
    {
      err := None;
      if Full(tx) {
        err := MakeRoom(tx, isLocal, now);
      }
    }

    /** Files a valid transaction for which there is room. */
    method Admit(tx: Tx, isLocal: bool, local: bool, now: int) returns (replaced: bool, err: Option<Error>)
      requires Sound({}) && !all.Has(tx.hash) && names(tx.hash) == tx && Acceptable(tx) && Welcome(tx, isLocal)
      modifies this`locals, this`pending, this`queue, this`beats, this`all, priced
      ensures Sound({}) && (old(Ordered()) ==> Ordered())
      ensures err.None? ==> tx.hash in all.Known() && all.Known()[tx.hash] == tx
      ensures err.None? <==> Admissible(tx, old(P(tx.sender)), old(Q(tx.sender)))
      ensures err.None? <==> Beats(tx, old(all.Known()))
      ensures err.None? ==> all.Known() == Others(old(all.Known()), tx)[tx.hash := tx] && (replaced <==> Rivalled(old(all.Known()), tx))
      ensures err.None? ==> FiledNew(tx, local, old(locals), old(P(tx.sender)), old(Q(tx.sender)), old(all).slots)
      ensures forall h :: all.Has(h) ==> old(all).Has(h) || h == tx.hash
      ensures err.None? && local ==> (tx.sender in locals <==> tx.sender in old(locals) || tx.nonce !in P(tx.sender))
      ensures old(locals) <= locals <= old(locals) + {tx.sender} && (!local || err.Some? ==> locals == old(locals))
      ensures err.Some? ==> err.value == ReplaceUnderpriced && pending == old(pending) && queue == old(queue) && all == old(all)
    {
      ListsAndLedger(tx);
      if tx.sender in pending && tx.nonce in pending[tx.sender].txs {
        replaced, err := AdmitPending(tx, isLocal, now);
      } else {
        replaced, err := AdmitQueued(tx, isLocal, local, now);
      }
    }

    method AdmitPending(tx: Tx, isLocal: bool, now: int) returns (replaced: bool, err: Option<Error>)
      requires Sound({}) && !all.Has(tx.hash) && names(tx.hash) == tx && Acceptable(tx) && Welcome(tx, isLocal) && tx.nonce in P(tx.sender)
      modifies this`pending, this`beats, this`all, priced
      ensures Sound({}) && (old(Ordered()) ==> Ordered())
      ensures err.None? ==> tx.hash in all.Known() && all.Known()[tx.hash] == tx
      ensures err.None? <==> Admissible(tx, old(P(tx.sender)), old(Q(tx.sender)))
      ensures err.None? ==> all.Known() == Replaced(old(all.Known()), old(P(tx.sender)), tx)[tx.hash := tx] && replaced
      ensures err.None? ==> FiledNew(tx, false, locals, old(P(tx.sender)), old(Q(tx.sender)), old(all).slots)
      ensures forall h :: all.Has(h) ==> old(all).Has(h) || h == tx.hash
      ensures err.Some? ==> err.value == ReplaceUnderpriced && pending == old(pending) && all == old(all)
    {
      Shape(tx.sender);
      ghost var before, p := all, P(tx.sender);
      replaced, err := ReplacePending(tx, isLocal, now);
      if err.None? {
        SlotsAfter(before, p, tx);
      }
    }

    method AdmitQueued(tx: Tx, isLocal: bool, local: bool, now: int) returns (replaced: bool, err: Option<Error>)
      requires Sound({}) && !all.Has(tx.hash) && names(tx.hash) == tx && Acceptable(tx) && Welcome(tx, isLocal) && tx.nonce !in P(tx.sender)
      modifies this`locals, this`queue, this`beats, this`all, priced
      ensures Sound({}) && (old(Ordered()) ==> Ordered())
      ensures err.None? ==> tx.hash in all.Known() && all.Known()[tx.hash] == tx
      ensures err.None? <==> Admissible(tx, old(P(tx.sender)), old(Q(tx.sender)))
      ensures err.None? ==> all.Known() == Replaced(old(all.Known()), old(Q(tx.sender)), tx)[tx.hash := tx] && (replaced <==> tx.nonce in old(Q(tx.sender)))
      ensures err.None? ==> FiledNew(tx, local, old(locals), old(P(tx.sender)), old(Q(tx.sender)), old(all).slots)
      ensures forall h :: all.Has(h) ==> old(all).Has(h) || h == tx.hash
      ensures locals == if err.None? && local then old(locals) + {tx.sender} else old(locals)
      ensures err.Some? ==> err.value == ReplaceUnderpriced && queue == old(queue) && all == old(all)
    {
      Shape(tx.sender);
      ghost var before, q := all, Q(tx.sender);
      replaced, err := Arrive(tx, isLocal, now);
      if err.None? {
        SlotsAfter(before, q, tx);
        if local && tx.sender !in locals {
          locals := locals + {tx.sender};
          AdoptLocals();
        }
      }
    }

    lemma SlotsAfter(before: Lookup, m: Txs, tx: Tx)
      requires Sound({}) && before.Valid() && before.SlotsExact() && !before.Has(tx.hash)
      requires all.Known() == Replaced(before.Known(), m, tx)[tx.hash := tx]
      ensures all.slots <= before.slots + tx.Slots() && (tx.nonce !in m ==> all.slots == before.slots + tx.Slots())
      ensures forall h :: all.Has(h) ==> before.Has(h) || h == tx.hash
    {
      Parts({});
      if tx.nonce !in m {
        assert before.Known() - {} == before.Known();
      }
      FilingSlots(before, all, if tx.nonce in m then {m[tx.nonce].hash} else {}, tx);
    }

    method ReplacePending(tx: Tx, isLocal: bool, now: int) returns (replaced: bool, err: Option<Error>)
      requires Sound({}) && !all.Has(tx.hash) && names(tx.hash) == tx && tx.nonce in P(tx.sender) && Acceptable(tx) && Welcome(tx, isLocal)
      modifies this`pending, this`beats, this`all, priced
      ensures Sound({}) && (old(Ordered()) ==> Ordered())
      ensures err.None? <==> CanReplace(old(P(tx.sender))[tx.nonce], tx, config.priceBump)
      ensures err.Some? ==> err.value == ReplaceUnderpriced && pending == old(pending) && all == old(all)
      ensures err.None? ==> replaced
      ensures err.None? ==> P(tx.sender) == old(P(tx.sender))[tx.nonce := tx] && tx.hash in all.Known() && all.Known()[tx.hash] == tx
      ensures err.None? ==> all.Known() == Replaced(old(all.Known()), old(P(tx.sender)), tx)[tx.hash := tx]
    {
      Parts({});
      replaced, err := SwapPending(tx, isLocal, now);
      if err.None? {
        SettledWithReplacement(old(pending), queue, old(all.Known()), tx, pending);
        if old(Ordered()) {
          ReplacementInOrder(tx, old(pending), queue, head, noncer, pending);
        }
      }
      Whole({});
    }

    method SwapPending(tx: Tx, isLocal: bool, now: int) returns (replaced: bool, err: Option<Error>)
      requires all.Valid() && Counted() && Shelved(pending, true) && PriceIndex({})
      requires !all.Has(tx.hash) && names(tx.hash) == tx && tx.nonce in P(tx.sender) && Welcome(tx, isLocal)
      modifies this`pending, this`beats, this`all, priced
      ensures all.Valid() && Counted() && Shelved(pending, true) && PriceIndex({})
      ensures SameElsewhere(tx.sender, old(pending), pending) && (old(NoneEmpty(pending)) ==> NoneEmpty(pending))
      ensures err.None? <==> CanReplace(old(P(tx.sender))[tx.nonce], tx, config.priceBump)
      ensures err.Some? ==> err.value == ReplaceUnderpriced && pending == old(pending) && all == old(all)
      ensures err.None? ==> replaced
      ensures err.None? ==> P(tx.sender) == old(P(tx.sender))[tx.nonce := tx]
      ensures err.None? ==> all.Known() == Replaced(old(all.Known()), old(P(tx.sender)), tx)[tx.hash := tx]
    {
      FileTxEffect(pending, true, tx.sender, tx, config.priceBump);
      var (pending', inserted, prev) := FileTx(pending, true, tx.sender, tx, config.priceBump);
      if !inserted {
        return false, Some(ReplaceUnderpriced);
      }
      pending := pending';
      Record(tx, prev, isLocal, true, {});
      beats := beats[tx.sender := now];
      return prev.Some?, None;
    }

    method Arrive(tx: Tx, isLocal: bool, now: int) returns (replaced: bool, err: Option<Error>)
      requires Sound({}) && !all.Has(tx.hash) && names(tx.hash) == tx && tx.nonce !in P(tx.sender) && Acceptable(tx) && Welcome(tx, isLocal)
      modifies this`queue, this`beats, this`all, priced
      ensures Sound({}) && (old(Ordered()) ==> Ordered())
      ensures err.Some? <==> tx.nonce in old(Q(tx.sender)) && !CanReplace(old(Q(tx.sender))[tx.nonce], tx, config.priceBump)
      ensures err.Some? ==> err.value == ReplaceUnderpriced && queue == old(queue) && all == old(all)
      ensures err.None? ==> (replaced <==> tx.nonce in old(Q(tx.sender)))
      ensures err.None? ==> Q(tx.sender) == old(Q(tx.sender))[tx.nonce := tx] && tx.hash in all.Known() && all.Known()[tx.hash] == tx
      ensures err.None? ==> all.Known() == Replaced(old(all.Known()), old(Q(tx.sender)), tx)[tx.hash := tx]
    {
      Parts({});
      replaced, err := EnqueueTx(tx, isLocal, true, now, {});
      if err.None? {
        SettledWithArrival(pending, old(queue), old(all.Known()), tx, queue);
        if old(Ordered()) {
          ArrivalInOrder(tx, pending, old(queue), head, noncer, queue);
        }
      }
      Whole({});
    }

    /** Transactions of an account that became local move out of the price heap's sight. */
    method AdoptLocals()
      requires Sound({})
      modifies this`all, priced
      ensures Sound({}) && all.Known() == old(all.Known()) && all.slots == old(all).slots
      ensures forall h :: h in all.remotes <==> h in old(all.remotes) && old(all.remotes)[h].sender !in locals
    {
      Parts({});
      ghost var before := all;
      var migrated := MigrateLocals();
      StillIndexed(before);
      MarkStale(migrated, {});
      Whole({});
    }

    method MigrateLocals() returns (migrated: nat)
      requires all.Valid() && Counted()
      modifies this`all
      ensures all.Valid() && Counted() && all.Known() == old(all.Known()) && all.slots == old(all).slots
      ensures all.remotes == map h | h in old(all.remotes) && old(all.remotes)[h].sender !in locals :: old(all.remotes)[h]
    {
      all, migrated := RemoteToLocals(all, locals);
    }

    /** Fewer remotes are still covered and above the floor. */
    lemma StillIndexed(before: Lookup)
      requires priced.Valid() && Covers(priced.remotes, before, {}) && floor <= gasPrice
      requires (forall x :: x in priced.remotes ==> names(x.hash) == x) && (forall h :: h in before.remotes ==> names(h) == before.remotes[h])
      requires before.Valid() && all.Valid() && Sealed(before, floor)
      requires all.Known() == before.Known() && forall h :: h in all.remotes ==> h in before.remotes && all.remotes[h] == before.remotes[h]
      ensures PriceIndex({})
    {
      SealedPart(before, all, floor);
    }

    /** Drops the queues of accounts that were silent for too long, locals excepted. */
    method EvictExpired(expired: set<Address>, now: int)
      requires Sound({})
      modifies this`pending, this`queue, this`beats, this`all, this`noncer, priced
      ensures Sound({}) && (old(Ordered()) ==> Ordered())
      ensures pending == old(pending) && noncer == old(noncer)
      ensures Emptied(old(queue), queue, expired - locals)
    {
      var todo := expired;
      ghost var done: set<Address> := {};
      while todo != {}
        invariant Sound({}) && (old(Ordered()) ==> Ordered())
        invariant pending == old(pending) && noncer == old(noncer)
        invariant done + (todo - locals) == expired - locals && Emptied(old(queue), queue, done)
        decreases todo
      {
        var a :| a in todo;
        todo := todo - {a};
        if a !in locals {
          ghost var mid := queue;
          DropQueued(a, At(queue, a), now);
          EmptiedStep(old(queue), mid, queue, done, a);
          done := done + {a};
        }
      }
    }

    /** Removes some queued transactions of one account, each by its hash. */
    method DropQueued(a: Address, gone: Txs, now: int)
      requires Sound({}) && Submap(gone, Q(a))
      modifies this`pending, this`queue, this`beats, this`all, this`noncer, priced
      ensures Sound({}) && (old(Ordered()) ==> Ordered())
      ensures pending == old(pending) && noncer == old(noncer)
      ensures SameElsewhere(a, old(queue), queue) && Q(a) == old(Q(a)) - gone.Keys
    {
      var todo := gone;
      TrimmingStart(Q(a), gone);
      while todo != map[]
        invariant Sound({}) && (old(Ordered()) ==> Ordered())
        invariant pending == old(pending) && noncer == old(noncer)
        invariant SameElsewhere(a, old(queue), queue) && Trimming(old(Q(a)), Q(a), gone, todo)
        decreases |todo|
      {
        var n :| n in todo;
        TrimmingStep(old(Q(a)), Q(a), gone, todo, n);
        DropOneQueued(a, n, now);
        todo := todo - {n};
      }
      TrimmingEnd(old(Q(a)), Q(a), gone);
    }

    method DropOneQueued(a: Address, n: nat, now: int)
      requires Sound({}) && n in Q(a)
      modifies this`pending, this`queue, this`beats, this`all, this`noncer, priced
      ensures Sound({}) && (old(Ordered()) ==> Ordered())
      ensures pending == old(pending) && noncer == old(noncer)
      ensures SameElsewhere(a, old(queue), queue) && Q(a) == old(Q(a)) - {n}
    {
      Parts({});
      QueuedIsKnown(pending, queue, all.Known(), a, n);
      RemoveTx(queue[a].txs[n].hash, true, now, {});
    }

    // -------- promotion --------

    /** Sound, except that the queue of `a`, which is being worked on, may be empty. */
    ghost predicate Busy(a: Address)
      reads this`all, this`pending, this`queue, this`floor, this`gasPrice, priced
    {
      && config.Sane() && all.Valid() && Counted() && PriceIndex({})
      && Shelved(pending, true) && Shelved(queue, false) && NoneEmpty(pending) && NoneEmptyBut(a, queue)
      && Settled(pending, queue, all.Known())
    }

    /** Replaces a queue by a part of it and forgets the rest. */
    method ShrinkQueue(a: Address, list: TxList) returns (count: nat)
      requires Busy(a) && a in queue && list.Valid() && !list.strict && Submap(list.txs, queue[a].txs)
      modifies this`queue, this`all
      ensures Busy(a) && queue == old(queue)[a := list] && count == |old(queue)[a].txs - list.txs.Keys|
      ensures forall h :: all.Has(h) ==> old(all).Has(h)
    {
      ghost var known, queue0 := all.Known(), queue;
      var gone := queue[a].txs - list.txs.Keys;
      SetListEffect(queue, false, a, list);
      queue := queue[a := list];
      SettledAfterCut(pending, queue0, known, a, queue);
      Forget(a, gone);
      count := |gone|;
    }

    /** Moves a consecutive run of transactions from limbo into pending, lowest nonce first. */
    method PromoteRun(a: Address, run: Txs, lo: nat, hi: nat, now: int)
      requires all.Valid() && Counted() && Shelved(pending, true) && PriceIndex({})
      requires lo <= hi && Contiguous(run, lo, hi) && Filed(run) && Disjoint(run, P(a))
      modifies this`pending, this`all, this`noncer, this`beats, priced
      ensures all.Valid() && Counted() && Shelved(pending, true) && PriceIndex({})
      ensures all == old(all) && noncer == Advanced(old(noncer), a, lo, hi)
      ensures SameElsewhere(a, old(pending), pending) && P(a) == old(P(a)) + run
      ensures old(NoneEmpty(pending)) ==> NoneEmpty(pending)
    {
      var n := lo;
      RunEnds(P(a), run, lo, hi);
      while n < hi
        invariant lo <= n <= hi
        invariant all.Valid() && Counted() && Shelved(pending, true) && PriceIndex({})
        invariant all == old(all) && noncer == Advanced(old(noncer), a, lo, n)
        invariant SameElsewhere(a, old(pending), pending) && P(a) == old(P(a)) + Below(run, n)
        invariant old(NoneEmpty(pending)) ==> NoneEmpty(pending)
      {
        AdvancedStep(old(noncer), a, lo, n);
        PromoteNext(a, run, lo, hi, n, now, old(P(a)));
        n := n + 1;
      }
    }

    method PromoteNext(a: Address, run: Txs, ghost lo: nat, ghost hi: nat, n: nat, now: int, ghost before: Txs)
      requires all.Valid() && Counted() && Shelved(pending, true) && PriceIndex({})
      requires lo <= n < hi && Contiguous(run, lo, hi) && Filed(run) && Disjoint(run, before) && P(a) == before + Below(run, n)
      modifies this`pending, this`all, this`noncer, this`beats, priced
      ensures all.Valid() && Counted() && Shelved(pending, true) && PriceIndex({})
      ensures all == old(all) && noncer == old(noncer).Set(a, n + 1)
      ensures SameElsewhere(a, old(pending), pending) && P(a) == before + Below(run, n + 1)
      ensures old(NoneEmpty(pending)) ==> NoneEmpty(pending)
    {
      RunStep(before, run, lo, hi, n);
      var ok := PromoteTx(a, run[n], now);
    }

    /** Promotes the executable transactions of one account's queue. */
    method PromoteReady(a: Address, now: int)
      requires Busy(a) && a in queue
      modifies this`pending, this`queue, this`all, this`noncer, this`beats, priced
      ensures Busy(a) && all == old(all)
      ensures var (rest, run) := old(queue)[a].Ready(old(noncer).Get(a));
        && queue == old(queue)[a := rest]
        && SameElsewhere(a, old(pending), pending) && P(a) == old(P(a)) + run
      ensures var (lo, hi) := ReadyBounds(old(queue)[a], old(noncer).Get(a));
        noncer == Advanced(old(noncer), a, lo, hi)
    {
      var v := noncer.Get(a);
      var (rest, run) := queue[a].Ready(v);
      var (lo, hi) := ReadyBounds(queue[a], v);
      ReadyBoundsAre(queue[a], v);
      ListsAreDisjoint(pending, queue, all.Known(), a);
      queue := queue[a := rest];
      PromoteRun(a, run, lo, hi, now);
      QueueStays(old(pending), old(queue), all.Known(), a, run, pending, queue, rest);
    }

    /** The books after `run` went from the queue, now `rest`, to pending. */
    static lemma QueueStays(pending: Lists, queue: Lists, known: Ledger, a: Address, run: Txs, pending': Lists, queue': Lists, rest: TxList)
      requires Settled(pending, queue, known) && Shelved(queue, false) && NoneEmptyBut(a, queue)
      requires a in queue && Submap(run, queue[a].txs) && rest.Valid() && !rest.strict && rest.txs == queue[a].txs - run.Keys
      requires SameElsewhere(a, pending, pending') && At(pending', a) == At(pending, a) + run
      requires queue' == queue[a := rest]
      ensures Settled(pending', queue', known) && Shelved(queue', false) && NoneEmptyBut(a, queue')
    {
      SettledAfterMove(pending, queue, known, a, run, pending', queue');
    }

    /** Promotes one account: drop old and unpayable queued transactions, promote the ready ones, cap the rest. */
    method PromoteAccount(a: Address, now: int)
      requires Sound({})
      modifies this`pending, this`queue, this`all, this`noncer, this`beats, priced
      ensures Sound({})
      ensures PromotedFrom(a, head, QueueCap(a), old(pending), old(queue), old(noncer), pending, queue, noncer)
      ensures forall h :: all.Has(h) ==> old(all).Has(h)
    {
      Parts({});
      if a !in queue {
        return;
      }
      var count := PromoteStages(a, now);
      MarkStale(count, {});
      ghost var queue1 := queue;
      TidyQueue(a);
      PromotedSame(a, head, QueueCap(a), old(pending), old(queue), old(noncer), pending, queue1, noncer, queue);
    }

    method PromoteStages(a: Address, now: int) returns (count: nat)
      requires Busy(a) && a in queue
      modifies this`pending, this`queue, this`all, this`noncer, this`beats, priced
      ensures Busy(a) && a in queue
      ensures PromotedFrom(a, head, QueueCap(a), old(pending), old(queue), old(noncer), pending, queue, noncer)
      ensures forall h :: all.Has(h) ==> old(all).Has(h)
    {
      count := DropUnpayable(a);
      ghost var queue1 := queue;
      PromoteReady(a, now);
      ghost var queue2 := queue;
      var caps := CapQueue(a);
      count := count + caps;
      ghost var (rest, run) := queue1[a].Ready(old(noncer).Get(a));
      PromotedBy(a, head, QueueCap(a), old(pending), old(queue), old(noncer), queue1[a], rest, run,
                 pending, queue1, queue2, queue, noncer);
    }

    /** Deletes a queue that became empty. */
    method TidyQueue(a: Address)
      requires Busy(a) && a in queue
      modifies this`queue, this`beats
      ensures Sound({}) && forall b :: At(queue, b) == old(At(queue, b))
    {
      ghost var queue0 := queue;
      if queue[a].txs == map[] {
        queue, beats := queue - {a}, beats - {a};
      }
      SettledSame(pending, queue0, all.Known(), queue);
      Whole({});
    }

    /** The limit on an account's queue; local accounts have none. */
    function QueueCap(a: Address): Option<nat>
      reads this`locals
    {
      if a in locals then None else Some(config.accountQueue)
    }

    method DropUnpayable(a: Address) returns (count: nat)
      requires Busy(a) && a in queue
      modifies this`queue, this`all
      ensures Busy(a) && queue == old(queue)[a := Payable(old(queue)[a], head.nonce(a), head.balance(a), head.maxGas)]
      ensures forall h :: all.Has(h) ==> old(all).Has(h)
    {
      var list := queue[a].Forward(head.nonce(a));
      var olds := ShrinkQueue(a, list);
      FilterIsNaive(list, head.balance(a), head.maxGas);
      var drops := ShrinkQueue(a, list.Filter(head.balance(a), head.maxGas).0);
      count := olds + drops;
    }

    method CapQueue(a: Address) returns (count: nat)
      requires Busy(a) && a in queue
      modifies this`queue, this`all
      ensures Busy(a)
      ensures queue == if a in locals then old(queue) else old(queue)[a := old(queue)[a].Cap(config.accountQueue)]
      ensures forall h :: all.Has(h) ==> old(all).Has(h)
    {
      count := 0;
      if a !in locals {
        CapKeepsLowest(queue[a], config.accountQueue);
        count := ShrinkQueue(a, queue[a].Cap(config.accountQueue));
      }
    }

    // -------- demotion --------

    /** Sound, except that the pending list of `a`, which is being worked on, may be empty. */
    ghost predicate BusyPending(a: Address)
      reads this`all, this`pending, this`queue, this`floor, this`gasPrice, priced
    {
      && config.Sane() && all.Valid() && Counted() && PriceIndex({})
      && Shelved(pending, true) && Shelved(queue, false) && NoneEmptyBut(a, pending) && NoneEmpty(queue)
      && Settled(pending, queue, all.Known())
    }

    /** Replaces a pending list by a part of it; `drops` are forgotten, `moved` go back to the queue. */
    method CutPending(a: Address, list: TxList, drops: Txs, moved: Txs, now: int)
      requires BusyPending(a) && a in pending && list.Valid() && list.strict && Splits(pending[a].txs, list.txs, drops, moved)
      modifies this`pending, this`queue, this`all, this`beats, priced
      ensures BusyPending(a) && pending == old(pending)[a := list]
      ensures SameElsewhere(a, old(queue), queue) && Q(a) == old(Q(a)) + moved && (moved == map[] ==> queue == old(queue))
      ensures all.Known() == Drop(old(all.Known()), drops) && all.remotes == Drop(old(all.remotes), drops)
    {
      ghost var known := all.Known();
      DemotedAreFree(pending, queue, known, a, drops, moved);
      SetListEffect(pending, true, a, list);
      pending := pending[a := list];
      Forget(a, drops);
      Postpone(a, moved, now, {});
      SettledAfterDemotion(old(pending), old(queue), known, a, drops, moved, pending, queue);
    }

    /** Demotes one account: drop old and unpayable pending transactions, queue what they leave non-executable. */
    method DemoteAccount(a: Address, now: int) returns (gap: bool)
      requires Sound({})
      modifies this`pending, this`queue, this`all, this`beats, priced
      ensures Sound({})
      ensures DemotedFrom(a, head, old(pending), old(queue), pending, queue)
      ensures gap <==> a in old(pending) && old(GappedAt(pending, a, head))
    {
      Parts({});
      if a !in pending {
        return false;
      }
      DropAndPostpone(a, now);
      ghost var pending1, queue1 := pending, queue;
      gap := CloseGap(a, now);
      ghost var pending2 := pending;
      TidyPending(a);
      DemotedBy(a, head, old(pending), old(queue), pending1[a], old(pending)[a].Forward(head.nonce(a)).Filter(head.balance(a), head.maxGas).2,
                pending1, queue1, pending2, queue, pending);
    }

    method DropAndPostpone(a: Address, now: int)
      requires BusyPending(a) && a in pending
      modifies this`pending, this`queue, this`all, this`beats, priced
      ensures BusyPending(a) && a in pending
      ensures var (rest, drops, invalids) := old(pending)[a].Forward(head.nonce(a)).Filter(head.balance(a), head.maxGas);
        && pending[a] == rest && SameElsewhere(a, old(pending), pending)
        && SameElsewhere(a, old(queue), queue) && Q(a) == old(Q(a)) + invalids
    {
      var olds := DropOldPending(a, now);
      ghost var pending1, queue1 := pending, queue;
      var drops := PostponeUnpayable(a, now);
      MarkStale(olds + drops, {});
      assert SameElsewhere(a, old(pending), pending) && SameElsewhere(a, old(queue), queue);
    }

    method DropOldPending(a: Address, now: int) returns (count: nat)
      requires BusyPending(a) && a in pending
      modifies this`pending, this`queue, this`all, this`beats, priced
      ensures BusyPending(a) && pending == old(pending)[a := old(pending)[a].Forward(head.nonce(a))]
      ensures SameElsewhere(a, old(queue), queue) && Q(a) == old(Q(a))
    {
      var olds := Below(pending[a].txs, head.nonce(a));
      ForwardSplits(pending[a], head.nonce(a));
      CutPending(a, pending[a].Forward(head.nonce(a)), olds, map[], now);
      count := |olds|;
    }

    method PostponeUnpayable(a: Address, now: int) returns (count: nat)
      requires BusyPending(a) && a in pending
      modifies this`pending, this`queue, this`all, this`beats, priced
      ensures BusyPending(a) && pending == old(pending)[a := old(pending)[a].Filter(head.balance(a), head.maxGas).0]
      ensures SameElsewhere(a, old(queue), queue) && Q(a) == old(Q(a)) + old(pending)[a].Filter(head.balance(a), head.maxGas).2
    {
      var (rest, drops, invalids) := pending[a].Filter(head.balance(a), head.maxGas);
      FilterSplits(pending[a], head.balance(a), head.maxGas);
      CutPending(a, rest, drops, invalids, now);
      count := |drops|;
    }

    /** A list without its first nonce goes back to the queue as a whole, which is reported as an error. */
    method CloseGap(a: Address, now: int) returns (gap: bool)
      requires BusyPending(a) && a in pending
      modifies this`pending, this`queue, this`all, this`beats, priced
      ensures BusyPending(a) && a in pending
      ensures SameElsewhere(a, old(pending), pending) && SameElsewhere(a, old(queue), queue)
      ensures Gapped(old(pending)[a], head.nonce(a)) ==> P(a) == map[] && Q(a) == old(Q(a)) + old(P(a))
      ensures !Gapped(old(pending)[a], head.nonce(a)) ==> P(a) == old(P(a)) && Q(a) == old(Q(a))
      ensures gap <==> Gapped(old(pending)[a], head.nonce(a))
    {
      var list := pending[a];
      gap := list.txs != map[] && head.nonce(a) !in list.txs;
      if gap {
        CutPending(a, list.(txs := map[]), map[], list.txs, now);
      }
    }

    method TidyPending(a: Address)
      requires BusyPending(a) && a in pending
      modifies this`pending
      ensures Sound({}) && forall b :: At(pending, b) == old(At(pending, b))
    {
      ghost var pending0 := pending;
      if pending[a].txs == map[] {
        pending := pending - {a};
      }
      SettledSamePending(pending0, queue, all.Known(), pending);
      Whole({});
    }

    // -------- the pending limit --------

    /** Drops the highest pending transaction of an account and lowers its virtual nonce to it. */
    method DropLast(a: Address, now: int)
      requires Sound({}) && a in pending && |pending[a].txs| > 1
      modifies this`pending, this`queue, this`all, this`noncer, this`beats, priced
      ensures Sound({}) && queue == old(queue)
      ensures pending == old(pending)[a := old(pending)[a].Cap(|old(pending)[a].txs| - 1)]
      ensures noncer.fallback == old(noncer).fallback && forall b :: b != a ==> noncer.Get(b) == old(noncer).Get(b)
    {
      var caps := CapPending(a, |pending[a].txs| - 1, now);
      LowerNonce(a, caps);
      Parts({});
      MarkStale(|caps|, {});
      Whole({});
    }

    method CapPending(a: Address, k: nat, now: int) returns (caps: Txs)
      requires Sound({}) && a in pending && 0 < k < |pending[a].txs|
      modifies this`pending, this`queue, this`all, this`beats, priced
      ensures Sound({}) && queue == old(queue)
      ensures pending == old(pending)[a := old(pending)[a].Cap(k)] && caps == old(pending)[a].txs - pending[a].txs.Keys
    {
      Parts({});
      var list := pending[a].Cap(k);
      caps := pending[a].txs - list.txs.Keys;
      CapSplits(pending[a], k);
      CapCap(pending[a], k, k);
      CutPending(a, list, caps, map[], now);
      Whole({});
    }

    method LowerNonce(a: Address, caps: Txs)
      modifies this`noncer
      ensures noncer.fallback == old(noncer).fallback && forall b :: b != a ==> noncer.Get(b) == old(noncer).Get(b)
      ensures forall n :: n in caps ==> noncer.Get(a) <= n
      ensures noncer.Get(a) == old(noncer).Get(a) || (noncer.Get(a) in caps && noncer.Get(a) < old(noncer).Get(a))
    {
      var todo := caps.Keys;
      while todo != {}
        invariant todo <= caps.Keys
        invariant noncer.fallback == old(noncer).fallback && forall b :: b != a ==> noncer.Get(b) == old(noncer).Get(b)
        invariant forall n :: n in caps && n !in todo ==> noncer.Get(a) <= n
        invariant noncer.Get(a) == old(noncer).Get(a) || (noncer.Get(a) in caps && noncer.Get(a) < old(noncer).Get(a))
        decreases todo
      {
        var n :| n in todo;
        noncer := noncer.SetIfLower(a, n);
        todo := todo - {n};
      }
    }

    /** Virtual nonces change only for accounts that lost transactions. */
    ghost predicate NoncesKept(before: Lists, noncer0: Noncer)
      reads this`pending, this`noncer
    {
      && noncer.fallback == noncer0.fallback
      && forall a {:trigger noncer.Get(a)} :: noncer.Get(a) == noncer0.Get(a) || (a in before && a in pending && |pending[a].txs| < |before[a].txs|)
    }

    /** Filling from the lists `before`: the level reached and the running count. */
    ghost predicate Filled(before: Lists, noncer0: Noncer, level: nat, count: nat)
      reads this, priced
    {
      && Sound({}) && Shelved(before, true)
      && pending == Level(before, locals, {}, level) && count == Count(pending) && NoncesKept(before, noncer0)
    }

    /** One round over the tall lists: each loses its highest transaction. */
    method LowerAll(tall: seq<Address>, count: nat, now: int, ghost before: Lists, ghost noncer0: Noncer, ghost level: nat) returns (count': nat)
      requires Filled(before, noncer0, level, count) && level > 1
      requires NoRepeats(tall) && Tall(before, locals, SetOf(tall), level)
      modifies this`pending, this`queue, this`all, this`noncer, this`beats, priced
      ensures Filled(before, noncer0, level - 1, count') && count == count' + |tall| && queue == old(queue)
    {
      count' := count;
      RoundEdges(before, locals, tall, level);
      for i := 0 to |tall|
        invariant Lowering(before, noncer0, tall, i, level, count') && queue == old(queue) && count == count' + i
      {
        count' := LowerOne(tall, i, count', now, before, noncer0, level);
      }
    }

    ghost predicate Lowering(before: Lists, noncer0: Noncer, tall: seq<Address>, i: nat, level: nat, count: nat)
      requires i <= |tall|
      reads this, priced
    {
      && Sound({}) && Shelved(before, true)
      && pending == Level(before, locals, SetOf(tall[..i]), level) && count == Count(pending) && NoncesKept(before, noncer0)
    }

    method LowerOne(tall: seq<Address>, i: nat, count: nat, now: int, ghost before: Lists, ghost noncer0: Noncer, ghost level: nat) returns (count': nat)
      requires i < |tall| && Lowering(before, noncer0, tall, i, level, count) && level > 1
      requires NoRepeats(tall) && Tall(before, locals, SetOf(tall), level)
      modifies this`pending, this`queue, this`all, this`noncer, this`beats, priced
      ensures Lowering(before, noncer0, tall, i + 1, level, count') && queue == old(queue) && count == count' + 1
    {
      var a := tall[i];
      NextTall(before, locals, tall, i, level);
      CountStep(pending, a, level);
      DropLast(a, now);
      return count - 1;
    }

    /** Lowers the tall lists together until the pool fits or they reach `low`. */
    method Drain(tall: seq<Address>, low: nat, count: nat, now: int, ghost before: Lists, ghost noncer0: Noncer, ghost level: nat)
      returns (count': nat, ghost level': nat)
      requires Filled(before, noncer0, level, count) && tall != [] && low >= 1 && Tower(before, locals, tall, low, level)
      modifies this`pending, this`queue, this`all, this`noncer, this`beats, priced
      ensures Filled(before, noncer0, level', count') && queue == old(queue) && low <= level' <= level
      ensures count' > config.globalSlots ==> level' == low
      ensures Tight(before, level') || level' == level
    {
      count', level' := count, level;
      var last := tall[|tall| - 1];
      LevelLength(before, locals, tall, low, level', last);
      while count' > config.globalSlots && |pending[last].txs| > low
        invariant Draining(before, noncer0, tall, low, level', count') && queue == old(queue) && level' <= level
        invariant Tight(before, level') || level' == level
        decreases level'
      {
        count' := Round(tall, low, count', now, before, noncer0, level');
        level' := level' - 1;
      }
    }

    ghost predicate Draining(before: Lists, noncer0: Noncer, tall: seq<Address>, low: nat, level: nat, count: nat)
      reads this, priced
    {
      && Filled(before, noncer0, level, count) && Tower(before, locals, tall, low, level) && low >= 1 && tall != []
      && tall[|tall| - 1] in pending && |pending[tall[|tall| - 1]].txs| == level
    }

    method Round(tall: seq<Address>, ghost low: nat, count: nat, now: int, ghost before: Lists, ghost noncer0: Noncer, ghost level: nat) returns (count': nat)
      requires Draining(before, noncer0, tall, low, level, count) && level > low && count > config.globalSlots
      modifies this`pending, this`queue, this`all, this`noncer, this`beats, priced
      ensures Draining(before, noncer0, tall, low, level - 1, count') && queue == old(queue) && Tight(before, level - 1)
    {
      RoundFacts(before, locals, tall, low, level);
      count' := LowerAll(tall, count, now, before, noncer0, level);
    }

    /** Lowers the lists popped before to the length of `last`, or until the pool fits. */
    method Equalize(others: seq<Address>, last: Address, count: nat, now: int, ghost before: Lists, ghost noncer0: Noncer,
                    ghost spammers: set<Address>, ghost level: nat)
      returns (count': nat, ghost level': nat)
      requires Filled(before, noncer0, level, count) && count > config.globalSlots
      requires last in before && last !in others && last !in locals && AtLevel(before, others, level) && |before[last].txs| <= level
      requires Ranked(before, locals, config.accountSlots, others + [last], spammers, |before[last].txs|)
      requires Tight(before, level) || pending == before
      requires others == [] ==> pending == before
      modifies this`pending, this`queue, this`all, this`noncer, this`beats, priced
      ensures Filled(before, noncer0, level', count') && queue == old(queue) && level' >= |before[last].txs|
      ensures count' > config.globalSlots ==> level' == |before[last].txs|
      ensures Tight(before, level') || pending == before
    {
      if others == [] {
        assert [] + [last] == [last];
        RankedFirst(before, locals, config.accountSlots, last, spammers);
        count', level' := count, |before[last].txs|;
        return;
      }
      LengthOf(before, locals, level, last);
      RankedTower(before, locals, config.accountSlots, others, spammers, level, last);
      count', level' := Drain(others, |pending[last].txs|, count, now, before, noncer0, level);
    }

    /** One level more would not fit. */
    ghost predicate Tight(before: Lists, level: nat)
      reads this`locals
    {
      Count(Level(before, locals, {}, level + 1)) > config.globalSlots
    }

    /** Water-filling: the level is the highest one that fits, but never below the guaranteed slots. */
    ghost predicate WaterFilled(before: Lists, level: nat)
      reads this`pending, this`locals
    {
      && level >= config.accountSlots
      && pending == Level(before, locals, {}, level)
      && (Count(pending) <= config.globalSlots || level == config.accountSlots)
      && (NoneHigher(before, level) || pending == before)
    }

    /** No higher level would fit. */
    ghost predicate NoneHigher(before: Lists, level: nat)
      reads this`locals
    {
      forall k: nat {:trigger Level(before, locals, {}, k)} :: k > level ==> Count(Level(before, locals, {}, k)) > config.globalSlots
    }

    lemma TightIsHighest(before: Lists, level: nat)
      requires Shelved(before, true) && Tight(before, level)
      ensures NoneHigher(before, level)
    {
      forall k: nat | k > level ensures Count(Level(before, locals, {}, k)) > config.globalSlots {
        LevelGrows(before, locals, level + 1, k);
      }
    }

    /**
     Brings the number of pending transactions under the global limit by lowering the longest
     non-local lists together, never below the slots guaranteed to each account.
     */
    method TruncatePending(now: int) returns (ghost level: nat)
      requires Sound({})
      modifies this`pending, this`queue, this`all, this`noncer, this`beats, priced
      ensures Sound({}) && queue == old(queue)
      ensures WaterFilled(old(pending), level) && NoncesKept(old(pending), old(noncer))
    {
      Parts({});
      ghost var before, noncer0 := pending, noncer;
      var count := CountLists(pending);
      level := Highest(pending, count);
      if count <= config.globalSlots {
        return;
      }
      var offenders;
      count, offenders, level := PenalizeLargest(count, now, before, noncer0, level);
      if count > config.globalSlots && offenders != [] {
        RankedDone(before, locals, config.accountSlots, offenders, level);
        count, level := Drain(offenders, config.accountSlots, count, now, before, noncer0, level);
      } else if offenders == [] {
        level := config.accountSlots;
      }
      if Tight(before, level) {
        TightIsHighest(before, level);
      }
    }

    /** A level that leaves all lists as they are. */
    lemma Highest(lists: Lists, count: nat) returns (level: nat)
      requires count == Count(lists)
      ensures level == count + config.accountSlots && Level(lists, locals, {}, level) == lists
      ensures forall a :: a in lists ==> |lists[a].txs| <= level
    {
      level := count + config.accountSlots;
      forall a | a in lists ensures |lists[a].txs| <= level { LengthAtMostCount(lists, a); }
      LevelAbove(lists, locals, level);
    }

    /** Pops the longest lists one by one, lowering those popped before to the length of the next. */
    method PenalizeLargest(count: nat, now: int, ghost before: Lists, ghost noncer0: Noncer, ghost level: nat)
      returns (count': nat, offenders: seq<Address>, ghost level': nat)
      requires Sound({}) && pending == before && noncer == noncer0 && count == Count(pending) > config.globalSlots
      requires level >= config.accountSlots && Level(before, locals, {}, level) == before && forall a :: a in before ==> |before[a].txs| <= level
      modifies this`pending, this`queue, this`all, this`noncer, this`beats, priced
      ensures Filled(before, noncer0, level', count') && queue == old(queue)
      ensures level' >= config.accountSlots && (Tight(before, level') || pending == before)
      ensures count' > config.globalSlots ==>
        AtLevel(before, offenders, level') && Ranked(before, locals, config.accountSlots, offenders, {}, level')
      ensures offenders == [] ==> count' > config.globalSlots && pending == before && Level(before, locals, {}, config.accountSlots) == before
    {
      Parts({});
      var spammers := set a | a in pending && a !in locals && |pending[a].txs| > config.accountSlots;
      count', offenders, level' := count, [], level;
      RankedStart(before, locals, config.accountSlots, spammers, level);
      while count' > config.globalSlots && spammers != {}
        invariant Penalizing(before, noncer0, offenders, spammers, level', count') && queue == old(queue)
        decreases spammers
      {
        var offender;
        offender, count', level' := PenalizeNext(offenders, spammers, count', now, before, noncer0, level');
        offenders, spammers := offenders + [offender], spammers - {offender};
      }
      if offenders == [] {
        NobodyTall(before, locals, config.accountSlots, level', spammers);
      }
    }

    ghost predicate Penalizing(before: Lists, noncer0: Noncer, offenders: seq<Address>, spammers: set<Address>, level: nat, count: nat)
      reads this, priced
    {
      && Filled(before, noncer0, level, count) && (Tight(before, level) || pending == before)
      && level >= config.accountSlots && (offenders == [] ==> pending == before && count > config.globalSlots)
      && (count > config.globalSlots ==>
            AtLevel(before, offenders, level) && Ranked(before, locals, config.accountSlots, offenders, spammers, level))
    }

    /** A longest of the lists not popped yet; none of them has been lowered. */
    method PopLargest(spammers: set<Address>, ghost before: Lists, ghost level: nat) returns (a: Address)
      requires spammers != {} && Shelved(before, true) && pending == Level(before, locals, {}, level)
      requires forall b :: b in spammers ==> b in before && b !in locals && |before[b].txs| <= level
      ensures a in spammers && forall b :: b in spammers ==> |before[b].txs| <= |before[a].txs|
    {
      ghost var longest := LongestExists(pending, spammers);
      a :| a in spammers && forall b :: b in spammers ==> b in pending && a in pending && |pending[b].txs| <= |pending[a].txs|;
      forall b | b in spammers ensures |pending[b].txs| == |before[b].txs| { LengthOf(before, locals, level, b); }
    }

    method PenalizeNext(offenders: seq<Address>, spammers: set<Address>, count: nat, now: int,
                        ghost before: Lists, ghost noncer0: Noncer, ghost level: nat)
      returns (offender: Address, count': nat, ghost level': nat)
      requires Penalizing(before, noncer0, offenders, spammers, level, count) && count > config.globalSlots && spammers != {}
      modifies this`pending, this`queue, this`all, this`noncer, this`beats, priced
      ensures Penalizing(before, noncer0, offenders + [offender], spammers - {offender}, level', count')
      ensures offender in spammers && queue == old(queue)
    {
      offender := PopLargest(spammers, before, level);
      count', level' := Penalize(offenders, offender, spammers, count, now, before, noncer0, level);
    }

    method Penalize(offenders: seq<Address>, offender: Address, ghost spammers: set<Address>, count: nat, now: int,
                    ghost before: Lists, ghost noncer0: Noncer, ghost level: nat)
      returns (count': nat, ghost level': nat)
      requires Penalizing(before, noncer0, offenders, spammers, level, count) && count > config.globalSlots
      requires offender in spammers && forall b :: b in spammers ==> |before[b].txs| <= |before[offender].txs|
      modifies this`pending, this`queue, this`all, this`noncer, this`beats, priced
      ensures Penalizing(before, noncer0, offenders + [offender], spammers - {offender}, level', count') && queue == old(queue)
    {
      RankedPop(before, locals, config.accountSlots, offenders, spammers, level, offender);
      RankedAll(before, offenders, offender, level);
      count', level' := Equalize(offenders, offender, count, now, before, noncer0, spammers - {offender}, level);
    }

    // -------- the queue limit --------

    /**
     Brings the number of queued transactions down to the global limit, as far as non-local
     accounts allow. The most recently active accounts lose their queues first.
     */
    method TruncateQueue(now: int)
      requires Sound({})
      modifies this`pending, this`queue, this`beats, this`all, this`noncer, priced
      ensures Sound({}) && (old(Ordered()) ==> Ordered()) && pending == old(pending) && noncer == old(noncer)
      ensures QueueCut(old(queue), queue, locals, old(beats))
      ensures Count(old(queue)) <= config.globalQueue ==> Count(queue) == Count(old(queue))
      ensures Count(old(queue)) > config.globalQueue ==>
        Count(queue) == config.globalQueue || (Count(queue) > config.globalQueue && forall a :: a in queue ==> a in locals)
    {
      ghost var before := queue;
      var order := beats;
      var count := CountLists(queue);
      var todo := set a | a in queue && a !in locals;
      CuttingStart(before, locals, order, todo);
      CuttingEnd(before, queue, locals, order, todo);
      var drop: nat := if count > config.globalQueue then count - config.globalQueue else 0;
      while drop > 0 && todo != {}
        invariant Sound({}) && (old(Ordered()) ==> Ordered()) && pending == old(pending) && noncer == old(noncer)
        invariant QueueCut(before, queue, locals, order) && (drop > 0 ==> Cutting(before, queue, locals, order, todo))
        invariant Count(before) > config.globalQueue ==> Count(queue) == drop + config.globalQueue
        invariant Count(before) <= config.globalQueue ==> drop == 0 && queue == before
        decreases todo
      {
        todo, drop := CutLatest(before, order, todo, drop, now);
      }
      if drop > 0 {
        OnlyLocals(before, locals, order, todo);
      }
    }

    /** Takes up to `drop` transactions from the queue of the most recently active account in `todo`. */
    method CutLatest(ghost before: Lists, order: map<Address, int>, todo: set<Address>, drop: nat, now: int) returns (todo': set<Address>, drop': nat)
      requires Sound({}) && Cutting(before, queue, locals, order, todo) && drop > 0 && todo != {}
      modifies this`pending, this`queue, this`beats, this`all, this`noncer, priced
      ensures Sound({}) && (old(Ordered()) ==> Ordered()) && pending == old(pending) && noncer == old(noncer)
      ensures todo' < todo && drop' <= drop && Count(queue) + drop == Count(old(queue)) + drop'
      ensures QueueCut(before, queue, locals, order) && (drop' > 0 ==> Cutting(before, queue, locals, order, todo'))
    {
      ghost var latest := LatestExists(order, todo);
      var a :| a in todo && forall b :: b in todo ==> Beat(order, b) <= Beat(order, a);
      ghost var mid := queue;
      CuttingMember(before, queue, locals, order, todo, a);
      todo' := todo - {a};
      if |At(queue, a)| > drop {
        CutOneQueue(a, |At(queue, a)| - drop, now);
        CuttingLast(before, mid, locals, order, todo, a, |At(mid, a)| - drop, queue);
        return todo', 0;
      }
      drop' := drop - |At(queue, a)|;
      CutOneQueue(a, 0, now);
      CuttingStep(before, mid, locals, order, todo, a, queue);
      CuttingEnd(before, queue, locals, order, todo');
    }

    /** Removes all but the `k` lowest transactions of a queue. */
    method CutOneQueue(a: Address, k: nat, now: int)
      requires Sound({}) && k <= |Q(a)|
      modifies this`pending, this`queue, this`beats, this`all, this`noncer, priced
      ensures Sound({}) && (old(Ordered()) ==> Ordered()) && pending == old(pending) && noncer == old(noncer)
      ensures SameElsewhere(a, old(queue), queue) && At(queue, a) == Lowest(old(At(queue, a)), k)
      ensures Count(queue) == Count(old(queue)) - (|old(At(queue, a))| - k)
    {
      var m := At(queue, a);
      CutSize(m, k);
      DropQueued(a, m - Lowest(m, k).Keys, now);
      CountChange(old(queue), queue, a);
    }

    lemma OnlyLocals(before: Lists, accounts: set<Address>, order: map<Address, int>, todo: set<Address>)
      requires Sound({}) && Cutting(before, queue, accounts, order, todo)
      ensures todo == {} ==> forall a :: a in queue ==> a in accounts
    {
      Parts({});
      if todo == {} {
        forall a | a in queue ensures a in accounts {
          assert At(queue, a) != map[];
          assert a in before || At(queue, a) == At(before, a);
        }
      }
    }

    // -------- runs --------

    /** Lists and virtual nonces as they are now. */
    ghost function Now(): Stage
      reads this`pending, this`queue, this`noncer
    {
      Stage(pending, queue, noncer)
    }

    /** Promotes the given accounts, in any order. */
    method PromoteExecutables(accounts: set<Address>, now: int)
      requires Sound({})
      modifies this`pending, this`queue, this`all, this`noncer, this`beats, priced
      ensures Sound({}) && (old(Ordered()) ==> Ordered())
      ensures old(Midway(pending, queue, head, noncer, accounts)) ==> Midway(pending, queue, head, noncer, {})
      ensures old(Midway(pending, queue, head, noncer, accounts) && Unbroken(pending, head)) ==> Unbroken(pending, head)
      ensures AllPromoted(accounts, head, locals, config.accountQueue, old(Now()), Now())
      ensures forall h :: all.Has(h) ==> old(all).Has(h)
    {
      var todo := accounts;
      ghost var start := Now();
      NonePromoted(head, locals, config.accountQueue, start);
      assert accounts - todo == {};
      while todo != {}
        invariant Sound({}) && (old(Ordered()) ==> Ordered())
        invariant old(Midway(pending, queue, head, noncer, accounts)) ==> Midway(pending, queue, head, noncer, todo)
        invariant old(Midway(pending, queue, head, noncer, accounts) && Unbroken(pending, head)) ==> Unbroken(pending, head)
        invariant AllPromoted(accounts - todo, head, locals, config.accountQueue, start, Now())
        invariant forall h :: all.Has(h) ==> old(all).Has(h)
        decreases todo
      {
        var a :| a in todo;
        PromoteOne(a, now, todo, start, accounts - todo);
        assert accounts - todo + {a} == accounts - (todo - {a});
        todo := todo - {a};
      }
      assert accounts - todo == accounts;
    }

    method PromoteOne(a: Address, now: int, ghost todo: set<Address>, ghost start: Stage, ghost done: set<Address>)
      requires Sound({}) && a in todo && a !in done && AllPromoted(done, head, locals, config.accountQueue, start, Now())
      modifies this`pending, this`queue, this`all, this`noncer, this`beats, priced
      ensures Sound({}) && (old(Ordered()) ==> Ordered())
      ensures old(Midway(pending, queue, head, noncer, todo)) ==> Midway(pending, queue, head, noncer, todo - {a})
      ensures old(Midway(pending, queue, head, noncer, todo) && Unbroken(pending, head)) ==> Unbroken(pending, head)
      ensures AllPromoted(done + {a}, head, locals, config.accountQueue, start, Now())
      ensures forall h :: all.Has(h) ==> old(all).Has(h)
    {
      Parts({});
      PromoteAccount(a, now);
      PromotedOneMore(a, done, head, locals, config.accountQueue, start, old(Now()), Now());
      if old(Ordered()) {
        PromotionKeepsOrder(a, head, QueueCap(a), old(pending), old(queue), old(noncer), pending, queue, noncer);
      }
      if old(Midway(pending, queue, head, noncer, todo)) {
        PromotionMidway(a, head, QueueCap(a), old(pending), old(queue), old(noncer), pending, queue, noncer, todo);
        if old(Unbroken(pending, head)) {
          PromotionUnbroken(a, head, QueueCap(a), old(pending), old(queue), old(noncer), pending, queue, noncer, todo);
        }
      }
    }

    ghost predicate AlmostOrdered(todo: set<Address>)
      reads this`pending, this`queue, this`head, this`noncer
    {
      Almost(pending, queue, head, noncer, todo)
    }

    /** Demotes every account with pending transactions; `gaps` are those that missed their state nonce. */
    method DemoteUnexecutables(now: int) returns (gaps: set<Address>)
      requires Sound({})
      modifies this`pending, this`queue, this`all, this`beats, priced
      ensures Sound({})
      ensures old(Midway(pending, queue, head, noncer, {})) ==> AlmostOrdered({})
      ensures old(Unbroken(pending, head)) ==> gaps == {}
      ensures AllDemoted(old(pending.Keys), head, old(Now()), Now())
    {
      var todo := pending.Keys;
      ghost var start, accounts := Now(), pending.Keys;
      NoneDemoted(head, start);
      assert accounts - todo == {};
      gaps := {};
      if old(Midway(pending, queue, head, noncer, {})) {
        DemotionStarts(pending, queue, head, noncer);
      }
      while todo != {}
        invariant Sound({}) && todo <= accounts
        invariant old(Midway(pending, queue, head, noncer, {})) ==> AlmostOrdered(todo)
        invariant old(Unbroken(pending, head)) ==> gaps == {} && UnbrokenIn(pending, head, todo)
        invariant AllDemoted(accounts - todo, head, start, Now())
        decreases todo
      {
        var a :| a in todo;
        var gap := DemoteOne(a, now, todo, start, accounts - todo);
        assert todo <= accounts ==> accounts - todo + {a} == accounts - (todo - {a});
        if gap {
          gaps := gaps + {a};
        }
        todo := todo - {a};
      }
      assert accounts - todo == accounts;
    }

    method DemoteOne(a: Address, now: int, ghost todo: set<Address>, ghost start: Stage, ghost done: set<Address>) returns (gap: bool)
      requires Sound({}) && a in todo && a !in done && AllDemoted(done, head, start, Now())
      modifies this`pending, this`queue, this`all, this`beats, priced
      ensures Sound({})
      ensures old(AlmostOrdered(todo)) ==> AlmostOrdered(todo - {a})
      ensures old(UnbrokenIn(pending, head, todo)) ==> !gap && UnbrokenIn(pending, head, todo - {a})
      ensures AllDemoted(done + {a}, head, start, Now())
    {
      Parts({});
      gap := DemoteAccount(a, now);
      DemotedOneMore(a, done, head, start, old(Now()), Now());
      if old(AlmostOrdered(todo)) {
        PoolOrder.DemotionStep(a, old(pending), old(queue), head, noncer, pending, queue, todo);
      }
      if old(UnbrokenIn(pending, head, todo)) {
        UnbrokenStep(a, head, old(pending), old(queue), pending, queue, todo);
      }
    }

    /** How one reinjected transaction changes the lookup. */
    ghost predicate Fed(tx: Tx, valid: bool, before: Lookup, after: Lookup) {
      if before.Has(tx.hash) || !valid then after == before
      else if before.Count() + tx.Slots() <= Limit() then FedInto(tx, before, after)
      else after == before || exists room :: GaveUp(before, room, before.slots - Limit() + tx.Slots()) && FedInto(tx, room, after)
    }

    /** With room for it, it enters if and only if it beats what it would replace. */
    ghost predicate FedInto(tx: Tx, room: Lookup, after: Lookup) {
      if Beats(tx, room.Known()) then after.Known() == Others(room.Known(), tx)[tx.hash := tx] else after == room
    }

    ghost predicate AllFed(txs: seq<Tx>, at: Head, accounts: set<Address>, price: nat, chain: Chain, trace: seq<Lookup>) {
      && |trace| == |txs| + 1
      && forall i :: 0 <= i < |txs| ==> Fed(txs[i], IsValid(txs[i], at, accounts, price, chain), trace[i], trace[i + 1])
    }

    method Reinject(tx: Tx, chain: Chain, now: int)
      requires Sound({}) && names(tx.hash) == tx
      modifies this`locals, this`pending, this`queue, this`beats, this`all, this`noncer, priced
      ensures Sound({}) && locals == old(locals)
      ensures Fed(tx, IsValid(tx, head, locals, gasPrice, chain), old(all), all)
    {
      ghost var before, full, undercut, short, want := all, Full(tx), Undercut(tx), Short(tx), Wanted(tx);
      ghost var isLocal := tx.signed && tx.sender in locals;
      ghost var invalid := Validate(tx, isLocal, chain);
      ghost var valid := IsValid(tx, head, locals, gasPrice, chain);
      assert valid <==> invalid.None?;
      assert full <==> before.Count() + tx.Slots() > Limit();
      assert want == before.slots - Limit() + tx.Slots();
      var _, err, room := Add(tx, false, chain, now);
      assert valid == IsValid(tx, head, locals, gasPrice, chain);
      DecidedFeeds(tx, isLocal, invalid, full, undercut, short, before, want, room, err, all);
    }

    lemma DecidedFeeds(tx: Tx, isLocal: bool, invalid: Option<Error>, full: bool, undercut: bool, short: bool, before: Lookup, want: int,
                       room: Lookup, err: Option<Error>, after: Lookup)
      requires full <==> before.Count() + tx.Slots() > Limit()
      requires want == before.slots - Limit() + tx.Slots()
      requires before.Has(tx.hash) ==> err == Some(AlreadyKnown)
      requires !before.Has(tx.hash) ==>
        if invalid.Some? then err == invalid && err.value != ReplaceUnderpriced
        else Decided(tx, isLocal, full, undercut, short, before, want, room, err)
      requires err.None? ==> after.Known() == Others(room.Known(), tx)[tx.hash := tx]
      requires err == Some(ReplaceUnderpriced) ==> after == room
      requires err.Some? && err.value != ReplaceUnderpriced ==> after == before
      ensures Fed(tx, invalid.None?, before, after)
    {
      if !before.Has(tx.hash) && invalid.None? && (err.None? || err == Some(ReplaceUnderpriced)) {
        assert (if full then GaveUp(before, room, want) else room == before) && FedInto(tx, room, after);
      }
    }

    method ReinjectAll(reinject: seq<Tx>, chain: Chain, now: int) returns (ghost trace: seq<Lookup>)
      requires Sound({}) && forall i :: 0 <= i < |reinject| ==> names(reinject[i].hash) == reinject[i]
      modifies this`locals, this`pending, this`queue, this`beats, this`all, this`noncer, priced
      ensures Sound({}) && locals == old(locals)
      ensures AllFed(reinject, head, locals, gasPrice, chain, trace) && trace[0] == old(all) && trace[|reinject|] == all
      ensures reinject == [] ==> pending == old(pending) && queue == old(queue) && noncer == old(noncer)
    {
      trace := [all];
      for i := 0 to |reinject|
        invariant Sound({}) && locals == old(locals)
        invariant AllFed(reinject[..i], head, locals, gasPrice, chain, trace) && trace[0] == old(all) && trace[i] == all
        invariant reinject == [] ==> pending == old(pending) && queue == old(queue) && noncer == old(noncer)
      {
        ghost var before := all;
        Reinject(reinject[i], chain, now);
        FedMore(reinject, i, chain, trace, before, all);
        trace := trace + [all];
      }
      assert reinject[..|reinject|] == reinject;
    }

    lemma FedMore(txs: seq<Tx>, i: nat, chain: Chain, trace: seq<Lookup>, before: Lookup, after: Lookup)
      requires i < |txs| && AllFed(txs[..i], head, locals, gasPrice, chain, trace) && trace[i] == before
      requires Fed(txs[i], IsValid(txs[i], head, locals, gasPrice, chain), before, after)
      ensures AllFed(txs[..i + 1], head, locals, gasPrice, chain, trace + [after])
    {
      var trace' := trace + [after];
      forall j | 0 <= j < i + 1 ensures Fed(txs[..i + 1][j], IsValid(txs[..i + 1][j], head, locals, gasPrice, chain), trace'[j], trace'[j + 1]) {
        if j < i {
          assert txs[..i][j] == txs[..i + 1][j];
        }
      }
    }

    /** Moves to a new head; transactions that fell out of the chain come back as remote ones, checked under the old fork rules. */
    method ResetHead(next: Head, reinject: seq<Tx>, chain: Chain, now: int) returns (ghost trace: seq<Lookup>)
      requires Sound({}) && forall i :: 0 <= i < |reinject| ==> names(reinject[i].hash) == reinject[i]
      modifies this
      modifies priced
      ensures Sound({}) && head == next && locals == old(locals) && gasPrice == old(gasPrice) && floor == old(floor)
      ensures reinject == [] ==> Now() == old(Now()).(noncer := Noncer(next.nonce, map[]))
      ensures AllFed(reinject, next.(eip2718 := old(head).eip2718), locals, gasPrice, chain, trace) && trace[0] == old(all) && trace[|reinject|] == all
      ensures old(Ordered()) && reinject == [] ==> Midway(pending, queue, head, noncer, queue.Keys)
      ensures old(Ordered()) && reinject == [] && NoncesGrow(old(head), head) ==> Unbroken(pending, head)
    {
      MoveHead(next.(eip2718 := head.eip2718), Noncer(next.nonce, map[]));
      trace := ReinjectAll(reinject, chain, now);
      MoveHead(next, noncer);
      if old(Ordered()) && reinject == [] {
        NewHead(pending, queue, old(head), old(noncer), head);
        if NoncesGrow(old(head), head) {
          OrderIsUnbroken(pending, queue, old(head), old(noncer), head);
        }
      }
    }

    method MoveHead(next: Head, nonces: Noncer)
      requires Sound({})
      modifies this`head, this`noncer
      ensures Sound({}) && head == next && noncer == nonces
    {
      Parts({});
      head, noncer := next, nonces;
      Whole({});
    }

    /** Gives every account with pending transactions the nonce after its last one. */
    method UpdateNonces()
      requires Sound({})
      modifies this`head, this`noncer
      ensures Sound({}) && head == old(head) && Renonced(pending, old(noncer), noncer, pending.Keys)
    {
      Parts({});
      var nonces := AfterLast(pending, noncer);
      MoveHead(head, nonces);
    }

    /** Over the limit only as far as the slots guaranteed to each account and the local accounts make it so. */
    ghost predicate PendingLimited()
      reads this`pending, this`locals
    {
      Count(pending) <= config.globalSlots || forall a :: a in pending && a !in locals ==> |pending[a].txs| <= config.accountSlots
    }

    ghost predicate QueueLimited()
      reads this`queue, this`locals
    {
      Count(queue) <= config.globalQueue || forall a :: a in queue ==> a in locals
    }

    /** The queue lost only what the limit takes, from the top of non-local queues. */
    ghost predicate QueueTrimmed(before: Lists)
      reads this`queue, this`locals
    {
      && (forall a :: LowestPart(At(queue, a), At(before, a)))
      && (forall a :: a in locals ==> At(queue, a) == At(before, a))
      && (Count(before) <= config.globalQueue ==> Count(queue) == Count(before))
      && (Count(before) > config.globalQueue ==>
            Count(queue) == config.globalQueue || (Count(queue) > config.globalQueue && forall a :: a in queue ==> a in locals))
    }

    /** Virtual nonces stand behind the pending transactions, and stay as they were where there are none. */
    ghost predicate NoncesBehind(before: Noncer)
      reads this`pending, this`noncer
    {
      forall a {:trigger noncer.Get(a)} ::
        noncer.Get(a) == if At(pending, a) != map[] then NatSets.Greatest(At(pending, a).Keys) + 1 else before.Get(a)
    }

    /** Enforces both limits and brings the virtual nonces up to date. */
    method EnforceLimits(now: int) returns (ghost level: nat)
      requires Sound({})
      modifies this`head, this`pending, this`queue, this`all, this`noncer, this`beats, priced
      ensures Sound({}) && PendingLimited() && QueueLimited() && head == old(head)
      ensures WaterFilled(old(pending), level) && QueueTrimmed(old(queue)) && NoncesBehind(old(noncer))
      ensures old(AlmostOrdered({})) ==> Ordered()
    {
      level := LimitPending(now);
      LimitQueue(now);
      FinishNonces(old(pending), old(noncer));
    }

    method FinishNonces(ghost before: Lists, ghost noncer0: Noncer)
      requires Sound({}) && NoncesKept(before, noncer0)
      modifies this`head, this`noncer
      ensures Sound({}) && head == old(head) && NoncesBehind(noncer0)
      ensures old(AlmostOrdered({})) ==> Ordered()
    {
      UpdateNonces();
      Behind(before, noncer0, old(noncer));
      if old(AlmostOrdered({})) {
        LastPass(pending, queue, head, old(noncer), noncer);
      }
    }

    lemma Behind(before: Lists, noncer0: Noncer, noncer1: Noncer)
      requires Sound({}) && Renonced(pending, noncer1, noncer, pending.Keys)
      requires noncer1.fallback == noncer0.fallback
      requires forall a {:trigger noncer1.Get(a)} :: noncer1.Get(a) == noncer0.Get(a) || a in pending
      ensures NoncesBehind(noncer0)
    {
      Parts({});
      forall a ensures noncer.Get(a) == if At(pending, a) != map[] then NatSets.Greatest(At(pending, a).Keys) + 1 else noncer0.Get(a) {
        var v := noncer1.Get(a);
      }
    }

    method LimitPending(now: int) returns (ghost level: nat)
      requires Sound({})
      modifies this`pending, this`queue, this`all, this`noncer, this`beats, priced
      ensures Sound({}) && PendingLimited() && queue == old(queue)
      ensures WaterFilled(old(pending), level) && NoncesKept(old(pending), old(noncer))
      ensures old(AlmostOrdered({})) ==> AlmostOrdered({})
    {
      Parts({});
      level := TruncatePending(now);
      LevelCaps(old(pending), locals, level);
      if old(AlmostOrdered({})) {
        LevelKeepsOrder(old(pending), queue, head, old(noncer), locals, level, noncer);
      }
    }

    method LimitQueue(now: int)
      requires Sound({})
      modifies this`pending, this`queue, this`all, this`noncer, this`beats, priced
      ensures Sound({}) && QueueLimited() && pending == old(pending) && noncer == old(noncer) && QueueTrimmed(old(queue))
      ensures old(AlmostOrdered({})) ==> AlmostOrdered({})
    {
      TruncateQueue(now);
      if old(AlmostOrdered({})) {
        QueueCutKeepsOrder(pending, old(queue), queue, head, noncer, locals, old(beats));
      }
    }

    /**
     The phases of a run: a new head, if there is one, and its reinjected transactions; the dirty accounts, or after
     a reset all accounts with a queue, are promoted; after a reset all accounts with pending transactions are demoted.
     */
    ghost predicate Phases(reset: Reset, dirty: set<Address>, chain: Chain, prev: Head, all0: Lookup, before: Stage, course: Course)
      reads this`head, this`locals, this`gasPrice
    {
      && Begun(reset, chain, prev, all0, before, course)
      && AllPromoted(if reset.NoReset? then dirty else course.start.queue.Keys, head, locals, config.accountQueue, course.start, course.promoted)
      && (if reset.NoReset? then course.demoted == course.promoted else AllDemoted(course.promoted.pending.Keys, head, course.promoted, course.demoted))
    }

    /** At the start the lists hold exactly the transactions known after the reinjection. */
    ghost predicate Begun(reset: Reset, chain: Chain, prev: Head, all0: Lookup, before: Stage, course: Course)
      reads this`head, this`locals, this`gasPrice
    {
      if reset.ResetTo? then
        && AllFed(reset.reinject, head.(eip2718 := prev.eip2718), locals, gasPrice, chain, course.trace) && course.trace[0] == all0
        && Settled(course.start.pending, course.start.queue, course.trace[|reset.reinject|].Known())
        && (reset.reinject == [] ==> course.start == before.(noncer := Noncer(head.nonce, map[])))
      else course.start == before
    }

    /** The phases before the limits. */
    method Reorganize(reset: Reset, dirty: set<Address>, chain: Chain, now: int) returns (gaps: set<Address>, ghost course: Course)
      requires Sound({})
      requires reset.ResetTo? ==> forall i :: 0 <= i < |reset.reinject| ==> names(reset.reinject[i].hash) == reset.reinject[i]
      modifies this
      modifies priced
      ensures Sound({})
      ensures head == (if reset.ResetTo? then reset.head else old(head)) && locals == old(locals) && gasPrice == old(gasPrice) && floor == old(floor)
      ensures Phases(reset, dirty, chain, old(head), old(all), old(Now()), course) && course.demoted == Now()
      ensures old(Ordered()) && (reset.ResetTo? ==> reset.reinject == []) ==> AlmostOrdered({})
      ensures old(Ordered()) && (reset.ResetTo? ==> reset.reinject == []) && NoncesGrow(old(head), head) ==> gaps == {}
    {
      gaps := {};
      ghost var quiet := old(Ordered()) && (reset.ResetTo? ==> reset.reinject == []);
      ghost var trace := Begin(reset, chain, now);
      ghost var start := Now();
      PromoteExecutables(if reset.NoReset? then dirty else queue.Keys, now);
      ghost var promoted := Now();
      if quiet && !reset.ResetTo? {
        OrderIsMidway(pending, queue, head, noncer);
        OrderIsUnbroken(pending, queue, head, noncer, head);
      }
      if !reset.NoReset? {
        gaps := DemoteUnexecutables(now);
      }
      course := Course(trace, start, promoted, Now(), 0);
    }

    method Begin(reset: Reset, chain: Chain, now: int) returns (ghost trace: seq<Lookup>)
      requires Sound({})
      requires reset.ResetTo? ==> forall i :: 0 <= i < |reset.reinject| ==> names(reset.reinject[i].hash) == reset.reinject[i]
      modifies this
      modifies priced
      ensures Sound({})
      ensures head == (if reset.ResetTo? then reset.head else old(head)) && locals == old(locals) && gasPrice == old(gasPrice) && floor == old(floor)
      ensures !reset.ResetTo? ==> Now() == old(Now())
      ensures reset.ResetTo? ==>
        && AllFed(reset.reinject, head.(eip2718 := old(head).eip2718), locals, gasPrice, chain, trace) && trace[0] == old(all)
        && Settled(pending, queue, trace[|reset.reinject|].Known())
        && (reset.reinject == [] ==> Now() == old(Now()).(noncer := Noncer(head.nonce, map[])))
      ensures reset.ResetTo? && old(Ordered()) && reset.reinject == [] ==> Midway(pending, queue, head, noncer, queue.Keys)
      ensures reset.ResetTo? && old(Ordered()) && reset.reinject == [] && NoncesGrow(old(head), head) ==> Unbroken(pending, head)
    {
      trace := [];
      if reset.ResetTo? {
        trace := ResetHead(reset.head, reset.reinject, chain, now);
        Parts({});
      }
    }

    /**
     One run: move to a new head if there is one, promote, demote after a reset, enforce the limits. The course tells
     what happened to every account on the way. Without reinjected transactions the nonce discipline survives,
     wherever the new state nonces lie, and unless some state nonce went back no account misses its state nonce on
     the way. Nothing ready stays in the queue of a dirty account, nor after a reset in any other, except for what
     the new head left behind.
     */
    method RunReorg(reset: Reset, dirty: set<Address>, chain: Chain, now: int) returns (gaps: set<Address>, ghost course: Course)
      requires Sound({})
      requires reset.ResetTo? ==> forall i :: 0 <= i < |reset.reinject| ==> names(reset.reinject[i].hash) == reset.reinject[i]
      modifies this
      modifies priced
      ensures Sound({}) && PendingLimited() && QueueLimited()
      ensures head == (if reset.ResetTo? then reset.head else old(head)) && locals == old(locals) && gasPrice == old(gasPrice) && floor == old(floor)
      ensures Phases(reset, dirty, chain, old(head), old(all), old(Now()), course)
      ensures WaterFilled(course.demoted.pending, course.level) && QueueTrimmed(course.demoted.queue) && NoncesBehind(course.demoted.noncer)
      ensures old(Ordered()) && (reset.ResetTo? ==> reset.reinject == []) ==> Ordered()
      ensures old(Ordered()) && (reset.ResetTo? ==> reset.reinject == []) && NoncesGrow(old(head), head) ==> gaps == {}
      ensures old(Ordered()) && reset.NoReset? ==> forall a :: a in dirty ==> noncer.Get(a) !in Q(a)
      ensures old(Ordered()) && reset.ResetFailed? ==> forall a :: noncer.Get(a) !in Q(a)
      ensures old(Ordered()) && reset.ResetTo? && reset.reinject == [] ==>
        forall a :: if LeftBehindAt(a, old(head), head, old(Now())) then StillQueued(a, head, old(Now()), course.demoted) else noncer.Get(a) !in Q(a)
    {
      ghost var before, all0 := Now(), all;
      gaps, course := Reorganize(reset, dirty, chain, now);
      ghost var level := EnforceLimits(now);
      course := course.(level := level);
      if old(Ordered()) && (reset.ResetTo? ==> reset.reinject == []) {
        Parts({});
        NothingReadyQueued(reset, dirty, chain, old(head), all0, before, course);
      }
    }

    lemma NothingReadyQueued(reset: Reset, dirty: set<Address>, chain: Chain, prev: Head, all0: Lookup, before: Stage, course: Course)
      requires config.Sane() && Ordered() && Phases(reset, dirty, chain, prev, all0, before, course) && InOrder(before.pending, before.queue, prev, before.noncer)
      requires WaterFilled(course.demoted.pending, course.level) && QueueTrimmed(course.demoted.queue)
      requires (reset.ResetTo? ==> reset.reinject == []) && (!reset.ResetTo? ==> head == prev)
      ensures reset.NoReset? ==> forall a :: a in dirty ==> noncer.Get(a) !in Q(a)
      ensures reset.ResetFailed? ==> forall a :: noncer.Get(a) !in Q(a)
      ensures reset.ResetTo? ==>
        forall a :: if LeftBehindAt(a, prev, head, before) then StillQueued(a, head, before, course.demoted) else noncer.Get(a) !in Q(a)
    {
      if reset.ResetTo? {
        forall a | LeftBehindAt(a, prev, head, before) ensures StillQueued(a, head, before, course.demoted) {
          NewHeadDryIff(a, prev, before, head, locals, config.accountQueue, course.promoted, course.demoted);
        }
      }
      forall a | (reset.NoReset? ==> a in dirty) && !(reset.ResetTo? && LeftBehindAt(a, prev, head, before)) ensures noncer.Get(a) !in Q(a) {
        DryOnTheWay(reset, dirty, chain, prev, all0, before, course, a);
        CutFromTop(course.demoted.pending, course.demoted.queue, course.level, a);
        var v := noncer.Get(a);
        StaysDry(At(course.demoted.pending, a), At(course.demoted.queue, a), head.nonce(a), P(a), Q(a), v, head.balance(a), head.maxGas);
      }
    }

    lemma CutFromTop(pending0: Lists, queue0: Lists, level: nat, a: Address)
      requires WaterFilled(pending0, level) && QueueTrimmed(queue0)
      ensures Submap(P(a), At(pending0, a)) && Submap(Q(a), At(queue0, a))
    {
      assert LowestPart(At(queue, a), At(queue0, a));
    }

    lemma DryOnTheWay(reset: Reset, dirty: set<Address>, chain: Chain, prev: Head, all0: Lookup, before: Stage, course: Course, a: Address)
      requires config.Sane() && Phases(reset, dirty, chain, prev, all0, before, course) && InOrder(before.pending, before.queue, prev, before.noncer)
      requires (reset.ResetTo? ==> reset.reinject == []) && (!reset.ResetTo? ==> head == prev)
      requires (reset.NoReset? ==> a in dirty) && !(reset.ResetTo? && LeftBehindAt(a, prev, head, before))
      ensures DryAt(a, head, course.demoted)
    {
      var k := config.accountQueue;
      match reset {
        case ResetTo(_, _) =>
          NewHeadDryIff(a, prev, before, head, locals, k, course.promoted, course.demoted);
        case NoReset =>
          var v := course.promoted.noncer.Get(a);
          PromotedIsDry(a, head, CapOf(locals, k, a), course.start, course.promoted);
        case ResetFailed =>
          PromotedAnyway(a, head, locals, k, course.start, course.promoted);
          PromotedIsDry(a, head, CapOf(locals, k, a), course.start, course.promoted);
          DemotedAnyway(a, head, course.promoted, course.demoted);
          DemotedStaysDry(a, head, course.promoted, course.demoted);
      }
    }
  }

  /** One call on the pool, made at some time. */
  datatype Call =
    | AddTx(tx: Tx, local: bool, chain: Chain)
    | Reprice(price: nat, cap: nat)
    | Expire(accounts: set<Address>)
    | Run(reset: Reset, dirty: set<Address>, chain: Chain)
  {
    ghost predicate Named(names: Hash -> Tx) {
      && (AddTx? ==> names(tx.hash) == tx)
      && (Run? && reset.ResetTo? ==> forall i :: 0 <= i < |reset.reinject| ==> names(reset.reinject[i].hash) == reset.reinject[i])
    }

    /** A new minimum price comes with a cap that is not below it. */
    predicate Lowers() {
      Reprice? && cap < price
    }

    predicate Reinjects() {
      Run? && reset.ResetTo? && reset.reinject != []
    }
  }

  method Perform(pool: TxPool, call: Call, now: int)
    requires pool.Sound({}) && call.Named(pool.names)
    modifies pool, pool.priced
    ensures pool.Sound({}) && (old(pool.Ordered()) && !call.Reinjects() ==> pool.Ordered())
    ensures call.Run? ==> pool.PendingLimited() && pool.QueueLimited()
    ensures old(pool.floor == pool.gasPrice) && !call.Lowers() ==> pool.floor == pool.gasPrice
  {
    match call
    case AddTx(tx, local, chain) => var _, _, _ := pool.Add(tx, local, chain, now);
    case Reprice(price, cap) => pool.SetGasPriceWithCap(price, cap, now);
    case Expire(accounts) => pool.EvictExpired(accounts, now);
    case Run(reset, dirty, chain) => var _, _ := pool.RunReorg(reset, dirty, chain, now);
  }

  /** Any sequence of calls on a new pool: the books stay sound, and without reinjection the nonces stay in order. */
  method Replay(config: Config, priceLimit: nat, accounts: set<Address>, head: Head, ghost names: Hash -> Tx, calls: seq<Call>, times: seq<int>)
    returns (pool: TxPool)
    requires |times| == |calls| && forall i :: 0 <= i < |calls| ==> calls[i].Named(names)
    ensures fresh(pool) && pool.Sound({})
    ensures (forall i :: 0 <= i < |calls| ==> !calls[i].Reinjects()) ==> pool.Ordered()
    ensures calls != [] && calls[|calls| - 1].Run? ==> pool.PendingLimited() && pool.QueueLimited()
    ensures forall h :: h in pool.all.Known() ==> Fit(pool.all.Known()[h])
    ensures (forall i :: 0 <= i < |calls| ==> !calls[i].Lowers()) ==>
      forall h :: h in pool.all.remotes ==> pool.all.remotes[h].gasPrice >= pool.gasPrice
  {
    pool := new TxPool(config, priceLimit, accounts, head, names);
    for i := 0 to |calls|
      invariant fresh(pool) && fresh(pool.priced) && pool.names == names && After(pool, calls[..i])
    {
      assert calls[..i + 1] == calls[..i] + [calls[i]];
      PerformNext(pool, calls[..i], calls[i], times[i]);
    }
    assert calls[..|calls|] == calls;
    pool.Screening();
  }

  /** What holds after some calls. */
  ghost predicate After(pool: TxPool, calls: seq<Call>)
    reads pool, pool.priced
  {
    && pool.Sound({})
    && ((forall i :: 0 <= i < |calls| ==> !calls[i].Reinjects()) ==> pool.Ordered())
    && ((forall i :: 0 <= i < |calls| ==> !calls[i].Lowers()) ==> pool.floor == pool.gasPrice)
    && (calls != [] && calls[|calls| - 1].Run? ==> pool.PendingLimited() && pool.QueueLimited())
  }

  method PerformNext(pool: TxPool, ghost calls: seq<Call>, call: Call, now: int)
    requires After(pool, calls) && call.Named(pool.names)
    modifies pool, pool.priced
    ensures After(pool, calls + [call])
  {
    ghost var more := calls + [call];
    assert forall i :: 0 <= i < |calls| ==> more[i] == calls[i];
    assert more[|calls|] == call;
    Perform(pool, call, now);
  }
}
