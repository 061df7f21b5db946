/** What the phases of a run do to every account, in terms of its transactions alone. */
module PoolStages {
  import opened Transactions
  import opened NonceMaps
  import opened TxLists
  import opened PoolBooks
  import opened PoolNonces
  import opened PoolRuns
  import NatSets

  /** Lists and virtual nonces at some point of a run. */
  datatype Stage = Stage(pending: Lists, queue: Lists, noncer: Noncer)

  // -------- promotion --------

  /** The payable transactions from a nonce on. */
  ghost function PayableFrom(q: Txs, s: nat, balance: nat, maxGas: nat): Txs {
    map n | n in q && n >= s && !TooExpensive(q[n], balance, maxGas) :: q[n]
  }

  ghost function Between(m: Txs, lo: nat, hi: nat): Txs { map n | n in m && lo <= n < hi :: m[n] }

  ghost function Outside(m: Txs, lo: nat, hi: nat): Txs { map n | n in m && !(lo <= n < hi) :: m[n] }

  ghost function Trimmed(m: Txs, cap: Option<nat>): Txs {
    if cap.Some? && |m| > cap.value then Lowest(m, cap.value) else m
  }

  /** The consecutive run from the lowest nonce, if that is not above `v`. */
  ghost function RunBounds(m: Txs, v: nat): (nat, nat) {
    if m == map[] || NatSets.Least(m.Keys) > v then (v, v) else
    (NatSets.Least(m.Keys), NatSets.RunEnd(m.Keys, NatSets.Least(m.Keys)))
  }

  /** When nothing lies below `v`, the run starts there. */
  lemma RunFromNonce(m: Txs, v: nat) returns (hi: nat)
    requires AllFrom(m, v)
    ensures RunBounds(m, v) == (v, hi) && v <= hi && hi !in m && forall n :: v <= n < hi ==> n in m
  {
    hi := RunBounds(m, v).1;
    if m != map[] {
      assert NatSets.Least(m.Keys) in m.Keys;
      assert v in m.Keys ==> NatSets.Least(m.Keys) == v;
    }
  }

  /** Promotion of an account with state nonce `s` and virtual nonce `v`: unpayable and old queued transactions go, the ready run becomes pending. */
  ghost predicate AccountPromoted(p: Txs, q: Txs, v: nat, s: nat, balance: nat, maxGas: nat, cap: Option<nat>, p': Txs, q': Txs, v': nat) {
    var m := PayableFrom(q, s, balance, maxGas);
    var (lo, hi) := RunBounds(m, v);
    p' == p + Between(m, lo, hi) && q' == Trimmed(Outside(m, lo, hi), cap) && v' == hi
  }

  lemma PromotedAccountIs(a: Address, head: Head, cap: Option<nat>, pending: Lists, queue: Lists, noncer: Noncer,
                          pending': Lists, queue': Lists, noncer': Noncer)
    requires PromotedFrom(a, head, cap, pending, queue, noncer, pending', queue', noncer')
    requires a in queue ==> queue[a].Valid() && !queue[a].strict
    ensures AccountPromoted(At(pending, a), At(queue, a), noncer.Get(a), head.nonce(a), head.balance(a), head.maxGas, cap,
                            At(pending', a), At(queue', a), noncer'.Get(a))
    ensures noncer'.fallback == noncer.fallback && forall b :: b != a ==> noncer'.Get(b) == noncer.Get(b)
  {
    if a in queue {
      var pay := Payable(queue[a], head.nonce(a), head.balance(a), head.maxGas);
      PayableIsFrom(queue[a], head.nonce(a), head.balance(a), head.maxGas);
      ReadyIsBetween(pay, noncer.Get(a));
      CapIsTrimmed(pay.Ready(noncer.Get(a)).0, cap);
    } else {
      EmptyPromoted(At(pending, a), noncer.Get(a), head.nonce(a), head.balance(a), head.maxGas, cap);
    }
  }

  lemma CapIsTrimmed(l: TxList, cap: Option<nat>)
    ensures (if cap.Some? then l.Cap(cap.value) else l).txs == Trimmed(l.txs, cap)
  {
  }

  lemma EmptyPromoted(p: Txs, v: nat, s: nat, balance: nat, maxGas: nat, cap: Option<nat>)
    ensures AccountPromoted(p, map[], v, s, balance, maxGas, cap, p, map[], v)
  {
    var m := PayableFrom(map[], s, balance, maxGas);
    assert m == map[];
    assert Between(m, v, v) == map[] && Outside(m, v, v) == map[] && p + map[] == p;
  }

  lemma PayableIsFrom(l: TxList, s: nat, balance: nat, maxGas: nat)
    requires l.Valid() && !l.strict
    ensures Payable(l, s, balance, maxGas).txs == PayableFrom(l.txs, s, balance, maxGas)
  {
    FilterIsNaive(l.Forward(s), balance, maxGas);
  }

  lemma ReadyIsBetween(l: TxList, v: nat)
    ensures var (lo, hi) := RunBounds(l.txs, v);
      && l.Ready(v).1 == Between(l.txs, lo, hi) && l.Ready(v).0.txs == Outside(l.txs, lo, hi) && ReadyBounds(l, v) == (lo, hi)
  {
  }

  function CapOf(locals: set<Address>, k: nat, a: Address): Option<nat> {
    if a in locals then None else Some(k)
  }

  /** Exactly the given accounts were promoted. */
  ghost predicate AllPromoted(accounts: set<Address>, head: Head, locals: set<Address>, k: nat, from: Stage, to: Stage) {
    && to.noncer.fallback == from.noncer.fallback
    && forall a {:trigger to.noncer.Get(a)} :: PromotedIf(a in accounts, a, head, CapOf(locals, k, a), from, to)
  }

  ghost predicate PromotedIf(yes: bool, a: Address, head: Head, cap: Option<nat>, from: Stage, to: Stage) {
    if yes then
      AccountPromoted(At(from.pending, a), At(from.queue, a), from.noncer.Get(a), head.nonce(a), head.balance(a), head.maxGas, cap,
                      At(to.pending, a), At(to.queue, a), to.noncer.Get(a))
    else SameAt(a, from, to)
  }

  ghost predicate SameAt(a: Address, from: Stage, to: Stage) {
    At(to.pending, a) == At(from.pending, a) && At(to.queue, a) == At(from.queue, a) && to.noncer.Get(a) == from.noncer.Get(a)
  }

  lemma NonePromoted(head: Head, locals: set<Address>, k: nat, stage: Stage)
    ensures AllPromoted({}, head, locals, k, stage, stage)
  {
    var none: set<Address> := {};
    forall a ensures PromotedIf(a in none, a, head, CapOf(locals, k, a), stage, stage) {
      assert PromotedIf(false, a, head, CapOf(locals, k, a), stage, stage);
    }
  }

  lemma PromotedOneMore(a: Address, done: set<Address>, head: Head, locals: set<Address>, k: nat, from: Stage, mid: Stage, to: Stage)
    requires AllPromoted(done, head, locals, k, from, mid) && a !in done && Shelved(mid.queue, false)
    requires PromotedFrom(a, head, CapOf(locals, k, a), mid.pending, mid.queue, mid.noncer, to.pending, to.queue, to.noncer)
    ensures AllPromoted(done + {a}, head, locals, k, from, to)
  {
    PromotedAccountIs(a, head, CapOf(locals, k, a), mid.pending, mid.queue, mid.noncer, to.pending, to.queue, to.noncer);
    forall b ensures PromotedIf(b in done + {a}, b, head, CapOf(locals, k, b), from, to) {
      assert PromotedIf(b in done, b, head, CapOf(locals, k, b), from, mid) by {
        var v := mid.noncer.Get(b);
      }
    }
  }

  /** A single payable transaction with the state nonce is promoted. */
  lemma LonePromoted(tx: Tx, n: nat, balance: nat, maxGas: nat, cap: Option<nat>, p': Txs, q': Txs, v': nat)
    requires !TooExpensive(tx, balance, maxGas) && AccountPromoted(map[], map[n := tx], n, n, balance, maxGas, cap, p', q', v')
    ensures p' == map[n := tx] && v' == n + 1 && q' == map[]
  {
    var q: Txs := map[n := tx];
    PromotedRun(map[], q, n, n, balance, maxGas, cap, p', q', v');
    assert n in q && v' != n;
    assert n + 1 < v' ==> n + 1 in q;
    PromotedAt(map[], q, n, n, balance, maxGas, cap, p', q', v');
    assert Outside(PayableFrom(q, n, balance, maxGas), n, n + 1) == map[];
  }

  /** For an account in order the promoted run is the longest payable one from the virtual nonce, and nothing ready stays queued. */
  lemma PromotedRun(p: Txs, q: Txs, v: nat, s: nat, balance: nat, maxGas: nat, cap: Option<nat>, p': Txs, q': Txs, v': nat)
    requires NonceOk(p, q, s, v, balance, maxGas) && AccountPromoted(p, q, v, s, balance, maxGas, cap, p', q', v')
    ensures v <= v' && (forall n :: v <= n < v' ==> n in q && !TooExpensive(q[n], balance, maxGas))
    ensures !(v' in q && !TooExpensive(q[v'], balance, maxGas))
    ensures p' == p + Between(q, v, v')
    ensures v' !in q' && NonceOk(p', q', s, v', balance, maxGas)
  {
    PromotedAt(p, q, v, s, balance, maxGas, cap, p', q', v');
    RunJoins(p, q, v, s, balance, maxGas, PayableFrom(q, s, balance, maxGas), p', q', v');
  }

  /** The run from `v` to `v'` in `m`, which ends there. */
  ghost predicate WholeRun(m: Txs, v: nat, v': nat) {
    v <= v' && v' !in m && forall n :: v <= n < v' ==> n in m
  }

  lemma PromotedAt(p: Txs, q: Txs, v: nat, s: nat, balance: nat, maxGas: nat, cap: Option<nat>, p': Txs, q': Txs, v': nat)
    requires AllFrom(PayableFrom(q, s, balance, maxGas), v) && AccountPromoted(p, q, v, s, balance, maxGas, cap, p', q', v')
    ensures var m := PayableFrom(q, s, balance, maxGas);
      WholeRun(m, v, v') && p' == p + Between(m, v, v') && q' == Trimmed(Outside(m, v, v'), cap) && Submap(q', Outside(m, v, v'))
  {
    var hi := RunFromNonce(PayableFrom(q, s, balance, maxGas), v);
  }

  lemma RunJoins(p: Txs, q: Txs, v: nat, s: nat, balance: nat, maxGas: nat, m: Txs, p': Txs, q': Txs, v': nat)
    requires NonceOk(p, q, s, v, balance, maxGas) && m == PayableFrom(q, s, balance, maxGas)
    requires WholeRun(m, v, v') && p' == p + Between(m, v, v') && Submap(q', Outside(m, v, v'))
    ensures (forall n :: v <= n < v' ==> n in q && !TooExpensive(q[n], balance, maxGas))
    ensures !(v' in q && !TooExpensive(q[v'], balance, maxGas))
    ensures p' == p + Between(q, v, v')
    ensures v' !in q' && NonceOk(p', q', s, v', balance, maxGas)
  {
    forall n | v <= n < v' ensures n in q && !TooExpensive(q[n], balance, maxGas) {
      assert n in m;
    }
    assert Between(m, v, v') == Between(q, v, v');
    assert forall n :: n in q' ==> n in m && n > v';
  }

  // -------- demotion --------

  /** Demotion: pending keeps the payable run from the state nonce; what lies above an unpayable one, or behind a gap in front, is queued again. */
  ghost predicate AccountDemoted(p: Txs, q: Txs, s: nat, balance: nat, maxGas: nat, p': Txs, q': Txs) {
    var m := From(p, s);
    var bad := Expensive(m, balance, maxGas);
    var keep := if bad == map[] then m else Below(m, NatSets.Least(bad.Keys));
    var back := if bad == map[] then map[] else Above(m, NatSets.Least(bad.Keys)) - bad.Keys;
    if keep != map[] && s !in keep then p' == map[] && q' == q + (back + keep) else p' == keep && q' == q + back
  }

  lemma DemotedAccountIs(a: Address, head: Head, pending: Lists, queue: Lists, pending': Lists, queue': Lists)
    requires DemotedFrom(a, head, pending, queue, pending', queue') && (a in pending ==> pending[a].Valid() && pending[a].strict)
    ensures AccountDemoted(At(pending, a), At(queue, a), head.nonce(a), head.balance(a), head.maxGas, At(pending', a), At(queue', a))
  {
    if a in pending {
      FilterIsNaive(pending[a].Forward(head.nonce(a)), head.balance(a), head.maxGas);
    } else {
      var none: Txs := map[];
      assert From(none, head.nonce(a)) == map[];
      assert At(queue, a) + none == At(queue, a);
    }
  }

  ghost predicate AllDemoted(accounts: set<Address>, head: Head, from: Stage, to: Stage) {
    && to.noncer == from.noncer
    && forall a {:trigger At(to.pending, a)} :: DemotedIf(a in accounts, a, head, from, to)
  }

  ghost predicate DemotedIf(yes: bool, a: Address, head: Head, from: Stage, to: Stage) {
    if yes then AccountDemoted(At(from.pending, a), At(from.queue, a), head.nonce(a), head.balance(a), head.maxGas, At(to.pending, a), At(to.queue, a))
    else At(to.pending, a) == At(from.pending, a) && At(to.queue, a) == At(from.queue, a)
  }

  lemma NoneDemoted(head: Head, stage: Stage)
    ensures AllDemoted({}, head, stage, stage)
  {
    var none: set<Address> := {};
    forall a ensures DemotedIf(a in none, a, head, stage, stage) {
      assert DemotedIf(false, a, head, stage, stage);
    }
  }

  lemma DemotedOneMore(a: Address, done: set<Address>, head: Head, from: Stage, mid: Stage, to: Stage)
    requires AllDemoted(done, head, from, mid) && a !in done && Shelved(mid.pending, true) && to.noncer == mid.noncer
    requires DemotedFrom(a, head, mid.pending, mid.queue, to.pending, to.queue)
    ensures AllDemoted(done + {a}, head, from, to)
  {
    DemotedAccountIs(a, head, mid.pending, mid.queue, to.pending, to.queue);
    forall b ensures DemotedIf(b in done + {a}, b, head, from, to) {
      DemotedElse(b, done, head, from, mid);
    }
  }

  lemma DemotedElse(b: Address, done: set<Address>, head: Head, from: Stage, mid: Stage)
    requires AllDemoted(done, head, from, mid)
    ensures DemotedIf(b in done, b, head, from, mid)
  {
    var p := At(mid.pending, b);
  }

  // -------- nothing ready stays queued --------

  /** Pending is a run from the state nonce, and the nonce after it is not queued. */
  ghost predicate Dry(p: Txs, q: Txs, s: nat) {
    exists hi: nat :: s <= hi && Contiguous(p, s, hi) && AllFrom(q, hi) && hi !in q
  }

  /**
   What a new head leaves behind: the state nonce lies within the old pending run, all of the run from there on is still
   payable, and the transaction that follows the run is queued and payable. Promotion after a reset starts from the state
   nonce and does not look behind the pending run.
   */
  ghost predicate LeftBehind(p: Txs, q: Txs, s0: nat, v0: nat, s: nat, balance: nat, maxGas: nat) {
    && s0 <= s < v0 && v0 in q && !TooExpensive(q[v0], balance, maxGas)
    && forall n :: n in p && n >= s ==> !TooExpensive(p[n], balance, maxGas)
  }

  /** After a reset without reinjection an account ends with nothing ready in its queue if and only if nothing was left behind. */
  lemma DryIffNotLeftBehind(p: Txs, q: Txs, s0: nat, v0: nat, balance0: nat, maxGas0: nat, s: nat, balance: nat, maxGas: nat, cap: Option<nat>,
                            p1: Txs, q1: Txs, v1: nat, p2: Txs, q2: Txs)
    requires NonceOk(p, q, s0, v0, balance0, maxGas0) && (cap.Some? ==> cap.value > 0)
    requires AccountPromoted(p, q, s, s, balance, maxGas, cap, p1, q1, v1) && AccountDemoted(p1, q1, s, balance, maxGas, p2, q2)
    ensures Dry(p2, q2, s) <==> !LeftBehind(p, q, s0, v0, s, balance, maxGas)
    ensures LeftBehind(p, q, s0, v0, s, balance, maxGas) ==> Contiguous(p2, s, v0) && v0 in q2
  {
    var m := PayableFrom(q, s, balance, maxGas);
    if s0 < v0 && s < v0 {
      NothingPromoted(p, q, v0, s, balance, maxGas, cap, p1, q1, v1);
      if s < s0 {
        BehindIsDry(p, s0, v0, s, balance, maxGas, q1, p2, q2);
      } else {
        WithinRun(p, s0, v0, s, balance, maxGas, q, m, cap, q1, p2, q2);
      }
    } else {
      FreshRun(p, q, v0, s, balance, maxGas, cap, p1, q1, v1, p2, q2);
    }
  }

  /** A queue that starts above the state nonce promotes nothing. */
  lemma NothingPromoted(p: Txs, q: Txs, v0: nat, s: nat, balance: nat, maxGas: nat, cap: Option<nat>, p1: Txs, q1: Txs, v1: nat)
    requires AllFrom(q, v0) && s < v0 && AccountPromoted(p, q, s, s, balance, maxGas, cap, p1, q1, v1)
    ensures p1 == p && q1 == Trimmed(PayableFrom(q, s, balance, maxGas), cap)
  {
    var m := PayableFrom(q, s, balance, maxGas);
    PromotedAt(p, q, s, s, balance, maxGas, cap, p1, q1, v1);
    NoRun(p, m, s, v1);
  }

  lemma NoRun(p: Txs, m: Txs, s: nat, v1: nat)
    requires s !in m && WholeRun(m, s, v1)
    ensures v1 == s && p + Between(m, s, v1) == p && Outside(m, s, v1) == m
  {
    assert s < v1 ==> s in m;
  }

  /** The state nonce went back behind the pending run: everything is queued, above the state nonce. */
  lemma BehindIsDry(p: Txs, s0: nat, v0: nat, s: nat, balance: nat, maxGas: nat, q1: Txs, p2: Txs, q2: Txs)
    requires s < s0 < v0 && Contiguous(p, s0, v0) && AllFrom(q1, v0) && AccountDemoted(p, q1, s, balance, maxGas, p2, q2)
    ensures Dry(p2, q2, s)
  {
    assert p2 == map[];
    assert forall n :: n in q2 ==> n in q1 || n in p;
    assert Contiguous(p2, s, s);
  }

  lemma WithinRun(p: Txs, s0: nat, v0: nat, s: nat, balance: nat, maxGas: nat, q: Txs, m: Txs, cap: Option<nat>, q1: Txs, p2: Txs, q2: Txs)
    requires s0 <= s < v0 && Contiguous(p, s0, v0) && AllFrom(q, v0) && m == PayableFrom(q, s, balance, maxGas) && (cap.Some? ==> cap.value > 0)
    requires q1 == Trimmed(m, cap) && AccountDemoted(p, q1, s, balance, maxGas, p2, q2)
    ensures Dry(p2, q2, s) <==> !LeftBehind(p, q, s0, v0, s, balance, maxGas)
    ensures LeftBehind(p, q, s0, v0, s, balance, maxGas) ==> Contiguous(p2, s, v0) && v0 in q2
  {
    LowestStays(m, cap, v0);
    var bad := Expensive(From(p, s), balance, maxGas);
    if bad == map[] {
      RunKept(p, s0, v0, s, balance, maxGas, q1, p2, q2);
    } else {
      RunCut(p, s0, v0, s, balance, maxGas, q1, p2, q2);
      assert NatSets.Least(bad.Keys) in bad.Keys;
    }
  }

  lemma RunKept(p: Txs, s0: nat, v0: nat, s: nat, balance: nat, maxGas: nat, q1: Txs, p2: Txs, q2: Txs)
    requires s0 <= s < v0 && Contiguous(p, s0, v0) && AllFrom(q1, v0)
    requires Expensive(From(p, s), balance, maxGas) == map[] && AccountDemoted(p, q1, s, balance, maxGas, p2, q2)
    ensures Dry(p2, q2, s) <==> v0 !in q1
    ensures Contiguous(p2, s, v0) && q2 == q1
    ensures forall n :: n in p && n >= s ==> !TooExpensive(p[n], balance, maxGas)
  {
    var r := From(p, s);
    assert s in r;
    assert p2 == r && q2 == q1 + map[] == q1;
    assert Contiguous(p2, s, v0);
    forall n | n in p && n >= s ensures !TooExpensive(p[n], balance, maxGas) {
      assert n in r && n !in Expensive(r, balance, maxGas);
    }
    forall hi: nat | s <= hi && Contiguous(p2, s, hi) ensures hi == v0 {
      SameEnd(p2, s, hi, v0);
    }
  }

  lemma RunCut(p: Txs, s0: nat, v0: nat, s: nat, balance: nat, maxGas: nat, q1: Txs, p2: Txs, q2: Txs)
    requires s0 <= s < v0 && Contiguous(p, s0, v0) && AllFrom(q1, v0)
    requires Expensive(From(p, s), balance, maxGas) != map[] && AccountDemoted(p, q1, s, balance, maxGas, p2, q2)
    ensures Dry(p2, q2, s)
  {
    var r := From(p, s);
    var bad := Expensive(r, balance, maxGas);
    var mid := NatSets.Least(bad.Keys);
    assert mid in bad.Keys && mid in r;
    assert s in r;
    assert Contiguous(p2, s, mid);
    assert forall n :: n in q2 ==> n in q1 || (n in r && n > mid);
    assert AllFrom(q2, mid) && mid !in q2;
  }

  lemma SameEnd(p: Txs, s: nat, a: nat, b: nat)
    requires s <= a && s <= b && Contiguous(p, s, a) && Contiguous(p, s, b)
    ensures a == b
  {
    assert a in p <==> a < b;
    assert b in p <==> b < a;
  }

  /** Trimming keeps the lowest nonce. */
  lemma LowestStays(m: Txs, cap: Option<nat>, v0: nat)
    requires AllFrom(m, v0) && (cap.Some? ==> cap.value > 0)
    ensures AllFrom(Trimmed(m, cap), v0) && (v0 in Trimmed(m, cap) <==> v0 in m)
  {
    if cap.Some? && |m| > cap.value && v0 in m {
      assert NatSets.Below(m.Keys, v0) == {};
    }
  }

  /** The old pending run lies below the state nonce: what is pending now was just promoted. */
  lemma FreshRun(p: Txs, q: Txs, v0: nat, s: nat, balance: nat, maxGas: nat, cap: Option<nat>, p1: Txs, q1: Txs, v1: nat, p2: Txs, q2: Txs)
    requires (forall n :: n in p ==> n < s) && AccountPromoted(p, q, s, s, balance, maxGas, cap, p1, q1, v1)
    requires AccountDemoted(p1, q1, s, balance, maxGas, p2, q2)
    ensures Dry(p2, q2, s)
  {
    var m := PayableFrom(q, s, balance, maxGas);
    PromotedAt(p, q, s, s, balance, maxGas, cap, p1, q1, v1);
    FreshIsRun(p, m, s, v1, balance, maxGas, p1, q1);
    KeptWhole(Between(m, s, v1), q1, s, v1, balance, maxGas, p1, p2, q2);
  }

  lemma FreshIsRun(p: Txs, m: Txs, s: nat, hi: nat, balance: nat, maxGas: nat, p1: Txs, q1: Txs)
    requires (forall n :: n in p ==> n < s) && AllPayable(m, balance, maxGas) && AllFrom(m, s) && WholeRun(m, s, hi)
    requires p1 == p + Between(m, s, hi) && Submap(q1, Outside(m, s, hi))
    ensures From(p1, s) == Between(m, s, hi) && Contiguous(Between(m, s, hi), s, hi) && AllPayable(Between(m, s, hi), balance, maxGas)
    ensures AllFrom(q1, hi) && hi !in q1
  {
  }

  lemma KeptWhole(run: Txs, q1: Txs, s: nat, hi: nat, balance: nat, maxGas: nat, p1: Txs, p2: Txs, q2: Txs)
    requires From(p1, s) == run && s <= hi && Contiguous(run, s, hi) && AllPayable(run, balance, maxGas) && AllFrom(q1, hi) && hi !in q1
    requires AccountDemoted(p1, q1, s, balance, maxGas, p2, q2)
    ensures Dry(p2, q2, s)
  {
    assert Expensive(run, balance, maxGas) == map[];
    assert run != map[] ==> s in run;
    assert p2 == run && q2 == q1 + map[] == q1;
  }

  /** The limits do not change that: they cut pending and queue from the top. */
  lemma StaysDry(p: Txs, q: Txs, s: nat, p': Txs, q': Txs, v: nat, balance: nat, maxGas: nat)
    requires Dry(p, q, s) && NonceOk(p', q', s, v, balance, maxGas) && Submap(p', p) && Submap(q', q)
    ensures v !in q'
  {
    var hi: nat :| s <= hi && Contiguous(p, s, hi) && AllFrom(q, hi) && hi !in q;
    if v > hi {
      assert hi in p';
    }
  }

  // -------- whole runs --------

  lemma EmptyDemoted(q: Txs, s: nat, balance: nat, maxGas: nat)
    ensures AccountDemoted(map[], q, s, balance, maxGas, map[], q)
  {
    var none: Txs := map[];
    assert From(none, s) == map[] && q + none == q;
  }

  lemma PromotedAnyway(a: Address, head: Head, locals: set<Address>, k: nat, from: Stage, to: Stage)
    requires AllPromoted(from.queue.Keys, head, locals, k, from, to)
    ensures PromotedIf(true, a, head, CapOf(locals, k, a), from, to)
  {
    var v := to.noncer.Get(a);
    if a !in from.queue {
      EmptyPromoted(At(from.pending, a), from.noncer.Get(a), head.nonce(a), head.balance(a), head.maxGas, CapOf(locals, k, a));
    }
  }

  lemma DemotedAnyway(a: Address, head: Head, from: Stage, to: Stage)
    requires AllDemoted(from.pending.Keys, head, from, to)
    ensures DemotedIf(true, a, head, from, to)
  {
    DemotedElse(a, from.pending.Keys, head, from, to);
    if a !in from.pending {
      EmptyDemoted(At(from.queue, a), head.nonce(a), head.balance(a), head.maxGas);
    }
  }

  ghost predicate DryAt(a: Address, head: Head, stage: Stage) {
    Dry(At(stage.pending, a), At(stage.queue, a), head.nonce(a))
  }

  ghost predicate LeftBehindAt(a: Address, prev: Head, head: Head, before: Stage) {
    LeftBehind(At(before.pending, a), At(before.queue, a), prev.nonce(a), before.noncer.Get(a), head.nonce(a), head.balance(a), head.maxGas)
  }

  /** What is pending reaches up to the old virtual nonce, and the transaction with that nonce is still queued. */
  ghost predicate StillQueued(a: Address, head: Head, before: Stage, demoted: Stage) {
    Contiguous(At(demoted.pending, a), head.nonce(a), before.noncer.Get(a)) && before.noncer.Get(a) in At(demoted.queue, a)
  }

  /** Promoted and in order, an account has nothing ready in its queue. */
  lemma PromotedIsDry(a: Address, head: Head, cap: Option<nat>, from: Stage, to: Stage)
    requires InOrder(from.pending, from.queue, head, from.noncer) && PromotedIf(true, a, head, cap, from, to)
    ensures DryAt(a, head, to) && AllPayable(At(to.pending, a), head.balance(a), head.maxGas)
  {
    var v := from.noncer.Get(a);
    PromotedRun(At(from.pending, a), At(from.queue, a), v, head.nonce(a), head.balance(a), head.maxGas, cap,
                At(to.pending, a), At(to.queue, a), to.noncer.Get(a));
  }

  /** Demotion of an account that is dry and payable changes nothing. */
  lemma DemotedStaysDry(a: Address, head: Head, from: Stage, to: Stage)
    requires DryAt(a, head, from) && AllPayable(At(from.pending, a), head.balance(a), head.maxGas) && DemotedIf(true, a, head, from, to)
    ensures DryAt(a, head, to)
  {
    var p, q, s := At(from.pending, a), At(from.queue, a), head.nonce(a);
    var hi: nat :| s <= hi && Contiguous(p, s, hi) && AllFrom(q, hi) && hi !in q;
    assert From(p, s) == p;
    KeptWhole(p, q, s, hi, head.balance(a), head.maxGas, p, At(to.pending, a), At(to.queue, a));
  }

  /** After a new head an account is dry if and only if nothing of it was left behind. */
  lemma NewHeadDryIff(a: Address, prev: Head, before: Stage, head: Head, locals: set<Address>, k: nat, promoted: Stage, demoted: Stage)
    requires InOrder(before.pending, before.queue, prev, before.noncer) && k > 0
    requires AllPromoted(before.queue.Keys, head, locals, k, before.(noncer := Noncer(head.nonce, map[])), promoted)
    requires AllDemoted(promoted.pending.Keys, head, promoted, demoted)
    ensures DryAt(a, head, demoted) <==> !LeftBehindAt(a, prev, head, before)
    ensures LeftBehindAt(a, prev, head, before) ==> StillQueued(a, head, before, demoted)
  {
    var from := before.(noncer := Noncer(head.nonce, map[]));
    var v := before.noncer.Get(a);
    PromotedAnyway(a, head, locals, k, from, promoted);
    DemotedAnyway(a, head, promoted, demoted);
    DryIffNotLeftBehind(At(before.pending, a), At(before.queue, a), prev.nonce(a), v, prev.balance(a), prev.maxGas,
                        head.nonce(a), head.balance(a), head.maxGas, CapOf(locals, k, a),
                        At(promoted.pending, a), At(promoted.queue, a), promoted.noncer.Get(a), At(demoted.pending, a), At(demoted.queue, a));
  }
}
