/** Gas and money when the transactions of a block are applied. The virtual machine itself is a parameter. */
module GasAccounting {
  import opened Basics
  import opened Transactions
  import opened GasPower
  import Bits
  import Totals

  const TX_GAS_CREATION: nat := 53000
  const NONZERO_GAS: nat := 16
  const ZERO_GAS: nat := 4
  const ACCESS_ADDRESS_GAS: nat := 2400
  const ACCESS_KEY_GAS: nat := 1900
  const ZERO_ADDRESS: Address := 0

  datatype Error = NonceTooHigh | NonceTooLow | InsufficientFunds | GasLimitReached | OutOfGas | GasUintOverflow | BelowIntrinsicGas

  datatype Result<+T> = Ok(value: T) | Err(error: Error)

  // ---------------------------------------------------------------- intrinsic gas

  /** What a message carries; the access list as the numbers of its addresses and of its storage keys. */
  datatype Payload = Payload(to: Option<Address>, data: seq<Bits.Byte>, access: Option<(nat, nat)>)

  function Nonzero(data: seq<Bits.Byte>): (n: nat)
    ensures n <= |data|
  {
    if data == [] then 0 else Nonzero(data[..|data| - 1]) + if data[|data| - 1] != 0 then 1 else 0
  }

  function BaseGas(p: Payload): nat { if p.to.None? then TX_GAS_CREATION else TX_GAS }

  function DataGas(data: seq<Bits.Byte>): nat { NONZERO_GAS * Nonzero(data) + ZERO_GAS * (|data| - Nonzero(data)) }

  function AccessGas(p: Payload): nat {
    if p.access.None? then 0 else p.access.value.0 * ACCESS_ADDRESS_GAS + p.access.value.1 * ACCESS_KEY_GAS
  }

  /** Gas for the data is guarded against overflow of the word; gas for the access list is not. */
  function Intrinsic(p: Payload): Result<nat> {
    if BaseGas(p) + NONZERO_GAS * Nonzero(p.data) >= WORD then Err(OutOfGas)
    else if BaseGas(p) + DataGas(p.data) >= WORD then Err(GasUintOverflow)
    else Ok(Wrap(BaseGas(p) + DataGas(p.data) + AccessGas(p)))
  }

  /** A call starts at 21000 and a creation at 53000; each byte adds 16, or 4 if it is zero; each listed address adds 2400 and each key 1900. */
  lemma IntrinsicSteps(p: Payload, b: Bits.Byte, addresses: nat, keys: nat)
    requires Intrinsic(p).Ok? && BaseGas(p) + DataGas(p.data) + AccessGas(p) < WORD - 16 - addresses * 2400 - keys * 1900
    ensures p.data == [] && p.access.None? ==> Intrinsic(p).value == if p.to.Some? then 21000 else 53000
    ensures Intrinsic(p.(data := p.data + [b])) == Ok(Intrinsic(p).value + if b == 0 then 4 else 16)
    ensures p.access.None? ==> Intrinsic(p.(access := Some((addresses, keys)))) == Ok(Intrinsic(p).value + addresses * 2400 + keys * 1900)
  {
    assert (p.data + [b])[..|p.data|] == p.data;
    WrapTwice(BaseGas(p) + DataGas(p.data), AccessGas(p));
    var q := p.(data := p.data + [b]);
    assert DataGas(q.data) == DataGas(p.data) + if b == 0 then 4 else 16;
    WrapTwice(BaseGas(q) + DataGas(q.data), AccessGas(q));
    if p.access.None? {
      var x := p.(access := Some((addresses, keys)));
      WrapTwice(BaseGas(x) + DataGas(x.data), AccessGas(x));
    }
  }

  method IntrinsicGas(p: Payload) returns (r: Result<nat>)
    ensures r == Intrinsic(p)
  {
    var gas := if p.to.None? then TX_GAS_CREATION else TX_GAS;
    if |p.data| > 0 {
      var nz := CountNonzero(p.data);
      if (WORD - 1 - gas) / NONZERO_GAS < nz {
        return Err(OutOfGas);
      }
      gas := gas + nz * NONZERO_GAS;
      var z := |p.data| - nz;
      if (WORD - 1 - gas) / ZERO_GAS < z {
        return Err(GasUintOverflow);
      }
      gas := gas + z * ZERO_GAS;
    }
    gas := AddAccess(gas, p);
    return Ok(gas);
  }

  method CountNonzero(data: seq<Bits.Byte>) returns (nz: nat)
    ensures nz == Nonzero(data)
  {
    nz := 0;
    for i := 0 to |data|
      invariant nz == Nonzero(data[..i])
    {
      assert data[..i + 1][..i] == data[..i];
      if data[i] != 0 {
        nz := nz + 1;
      }
    }
    assert data[..|data|] == data;
  }

  method AddAccess(gas: nat, p: Payload) returns (r: nat)
    requires gas < WORD
    ensures r == Wrap(gas + AccessGas(p))
  {
    r := gas;
    if p.access.Some? {
      WrapTwice(gas + p.access.value.0 * ACCESS_ADDRESS_GAS, p.access.value.1 * ACCESS_KEY_GAS);
      r := Wrap(r + p.access.value.0 * ACCESS_ADDRESS_GAS);
      r := Wrap(r + p.access.value.1 * ACCESS_KEY_GAS);
    } else {
      WrapTwice(gas, 0);
    }
  }

  // ---------------------------------------------------------------- the state and the machine

  /** Balances and nonces; `rest` stands for code and storage. */
  datatype World = World(balances: map<Address, nat>, nonces: map<Address, nat>, rest: map<Address, Hash>) {
    function Balance(a: Address): nat { if a in balances then balances[a] else 0 }

    function Nonce(a: Address): nat { if a in nonces then nonces[a] else 0 }

    function Debit(a: Address, amount: nat): World
      requires amount <= Balance(a)
    {
      this.(balances := balances[a := Balance(a) - amount])
    }

    function Credit(a: Address, amount: nat): World {
      this.(balances := balances[a := Balance(a) + amount])
    }

    function SetNonce(a: Address, nonce: nat): World {
      this.(nonces := nonces[a := nonce])
    }
  }

  function Coins(n: nat): nat { n }

  /** All money there is. */
  ghost function Supply(w: World): nat { Totals.Total(w.balances, Coins) }

  lemma SupplyMoves(w: World, a: Address, amount: nat)
    ensures amount <= w.Balance(a) ==> Supply(w.Debit(a, amount)) + amount == Supply(w)
    ensures Supply(w.Credit(a, amount)) == Supply(w) + amount
  {
    Totals.TotalUpdate<Address, nat>(w.balances, a, w.Balance(a) + amount, Coins);
    if amount <= w.Balance(a) {
      Totals.TotalUpdate<Address, nat>(w.balances, a, w.Balance(a) - amount, Coins);
    }
  }

  function Cost(gas: nat, price: nat): nat { gas * price }

  lemma CostSplits(used: nat, back: nat, price: nat)
    ensures Cost(used, price) + Cost(back, price) == Cost(used + back, price)
  {
    Distribute(used, back, price);
  }

  datatype Message = Message(from: Address, nonce: nat, checkNonce: bool, gasPrice: nat, gas: nat, value: int, payload: Payload)

  /** What the machine leaves: the state, unused gas and the refund counter. */
  datatype Outcome = Outcome(world: World, left: nat, refund: nat, failed: bool)

  /** The virtual machine: runs a call or a creation with some gas. */
  type Machine = (World, Message, nat) -> Outcome

  ghost predicate Honest(run: Machine) {
    forall w, m, g :: run(w, m, g).left <= g
  }

  ghost predicate KeepsSupply(run: Machine) {
    forall w, m, g :: Supply(run(w, m, g).world) == Supply(w)
  }

  // ---------------------------------------------------------------- one message

  /** Why a message is refused before it buys gas. */
  function Refusal(w: World, pool: nat, m: Message): Option<Error> {
    if m.checkNonce && w.Nonce(m.from) < m.nonce then Some(NonceTooHigh)
    else if m.checkNonce && w.Nonce(m.from) > m.nonce then Some(NonceTooLow)
    else if w.Balance(m.from) < Cost(m.gas, m.gasPrice) then Some(InsufficientFunds)
    else if pool < m.gas then Some(GasLimitReached)
    else None
  }

  /** Why a message is refused after it bought gas. */
  function LateRefusal(m: Message): Option<Error> {
    var need := Intrinsic(m.payload);
    if need.Err? then Some(need.error) else if m.gas < need.value then Some(BelowIntrinsicGas) else None
  }

  /** The state in which the machine starts: gas is paid for and the nonce of a plain call is raised. */
  function Started(w: World, m: Message): World
    requires Cost(m.gas, m.gasPrice) <= w.Balance(m.from)
  {
    var paid := w.Debit(m.from, Cost(m.gas, m.gasPrice));
    if m.payload.to.None? then paid else paid.SetNonce(m.from, paid.Nonce(m.from) + 1)
  }

  function Ran(run: Machine, w: World, m: Message): Outcome
    requires Cost(m.gas, m.gasPrice) <= w.Balance(m.from) && LateRefusal(m).None?
  {
    run(Started(w, m), m, m.gas - Intrinsic(m.payload).value)
  }

  /** A tenth of what is unused is kept, except for internal messages. */
  function Unused(from: Address, left: nat): (n: nat)
    ensures n <= left
  {
    if from == ZERO_ADDRESS then left else left - left / 10
  }

  /** Refunds are capped to half of what is used. */
  function Refund(gas: nat, unused: nat, counter: nat): (n: nat)
    requires unused <= gas
    ensures n <= gas - unused
  {
    Min((gas - unused) / 2, counter)
  }

  /** Gas given back. */
  function GivenBack(m: Message, left: nat, refund: nat): nat
    requires left <= m.gas
  {
    Unused(m.from, left) + Refund(m.gas, Unused(m.from, left), refund)
  }

  /** A message is never charged more than it bought, nor less than half of what was used, and without refunds all of it. */
  lemma ChargeBounds(m: Message, left: nat, refund: nat)
    requires left <= m.gas
    ensures GivenBack(m, left, refund) <= m.gas
    ensures 2 * (m.gas - GivenBack(m, left, refund)) >= m.gas - left
    ensures refund == 0 ==> m.gas - left <= m.gas - GivenBack(m, left, refund) <= m.gas - left + left / 10
  {
  }

  datatype Change = Skipped(error: Error, world: World, pool: nat) | Applied(used: nat, failed: bool, world: World, pool: nat)

  function Apply(run: Machine, w: World, pool: nat, m: Message): Change
    requires forall w, m, g :: run(w, m, g).left <= g
  {
    if Refusal(w, pool, m).Some? then Skipped(Refusal(w, pool, m).value, w, pool) else
    if LateRefusal(m).Some? then Skipped(LateRefusal(m).value, w.Debit(m.from, Cost(m.gas, m.gasPrice)), pool - m.gas) else
    var out := Ran(run, w, m);
    var back := GivenBack(m, out.left, out.refund);
    ChargeBounds(m, out.left, out.refund);
    Applied(m.gas - back, out.failed, out.world.Credit(m.from, Cost(back, m.gasPrice)), pool - m.gas + back)
  }

  /** A message is applied if and only if its nonce is due, it can be paid, the block has the gas, and it buys its intrinsic gas. */
  lemma AppliedIff(run: Machine, w: World, pool: nat, m: Message)
    requires Honest(run)
    ensures Apply(run, w, pool, m).Applied? <==>
      && (m.checkNonce ==> m.nonce == w.Nonce(m.from))
      && m.gas * m.gasPrice <= w.Balance(m.from) && m.gas <= pool
      && Intrinsic(m.payload).Ok? && Intrinsic(m.payload).value <= m.gas
  {
  }

  /** Why a message is skipped: the nonce is looked at first, then money, then the gas of the block, then intrinsic gas. */
  lemma SkippedWhy(run: Machine, w: World, pool: nat, m: Message)
    requires Honest(run) && Apply(run, w, pool, m).Skipped?
    ensures var e := Apply(run, w, pool, m).error;
      if m.checkNonce && m.nonce != w.Nonce(m.from) then e == if m.nonce < w.Nonce(m.from) then NonceTooLow else NonceTooHigh
      else if m.gas * m.gasPrice > w.Balance(m.from) then e == InsufficientFunds
      else if m.gas > pool then e == GasLimitReached
      else if Intrinsic(m.payload).Err? then e == Intrinsic(m.payload).error
      else e == BelowIntrinsicGas && m.gas < Intrinsic(m.payload).value
  {
  }

  /**
   The machine gets what the message bought less its intrinsic gas; a tenth of what it leaves is charged, but not to
   internal messages, and refunds pay at most half.
   */
  lemma ChargeIs(run: Machine, w: World, pool: nat, m: Message)
    requires Honest(run) && Apply(run, w, pool, m).Applied?
    ensures var out := run(Started(w, m), m, m.gas - Intrinsic(m.payload).value);
      var u := m.gas - out.left + (if m.from == 0 then 0 else out.left / 10);
      Apply(run, w, pool, m).used == u - Min(u / 2, out.refund)
  {
    var out := Ran(run, w, m);
    assert out.left <= m.gas;
  }

  /** The machine never takes a nonce back. */
  ghost predicate KeepsNonces(run: Machine) {
    forall w: World, m, g, a :: w.Nonce(a) <= run(w, m, g).world.Nonce(a)
  }

  /** Applying a message takes no nonce back, and a call raises the sender's. */
  lemma NoncesRise(run: Machine, w: World, pool: nat, m: Message, a: Address)
    requires Honest(run) && KeepsNonces(run)
    ensures var c := Apply(run, w, pool, m);
      && w.Nonce(a) <= c.world.Nonce(a)
      && (c.Applied? && m.payload.to.Some? ==> w.Nonce(m.from) + 1 <= c.world.Nonce(m.from))
  {
    if Refusal(w, pool, m).None? && LateRefusal(m).None? {
      var s := Started(w, m);
      assert s.Nonce(a) <= run(s, m, m.gas - Intrinsic(m.payload).value).world.Nonce(a);
      assert s.Nonce(m.from) <= run(s, m, m.gas - Intrinsic(m.payload).value).world.Nonce(m.from);
    }
  }

  ghost predicate SameMoney(w: World, w': World) {
    forall a :: w.Balance(a) == w'.Balance(a)
  }

  /** A skipped message changes nothing exactly if it was refused before it bought gas, or bought none. */
  lemma SkipIsCleanIff(run: Machine, w: World, pool: nat, m: Message)
    requires Honest(run)
    ensures var c := Apply(run, w, pool, m);
      c.Skipped? ==>
        ((c.pool == pool && SameMoney(w, c.world)) <==> (Refusal(w, pool, m).Some? || m.gas == 0))
        && (Refusal(w, pool, m).Some? ==> c.world == w)
  {
  }

  /** The sender pays the used gas, on top of what the machine did to its balance; nobody else pays. */
  lemma SenderPays(run: Machine, w: World, pool: nat, m: Message, a: Address)
    requires Honest(run) && Apply(run, w, pool, m).Applied?
    ensures var c := Apply(run, w, pool, m); var out := Ran(run, w, m);
      && c.world.Balance(m.from) - w.Balance(m.from) == out.world.Balance(m.from) - Started(w, m).Balance(m.from) - Cost(c.used, m.gasPrice)
      && (a != m.from ==> c.world.Balance(a) - w.Balance(a) == out.world.Balance(a) - Started(w, m).Balance(a))
      && c.pool + c.used == pool && c.used <= m.gas
  {
    var out := Ran(run, w, m);
    var back := GivenBack(m, out.left, out.refund);
    ChargeBounds(m, out.left, out.refund);
    CostSplits(m.gas - back, back, m.gasPrice);
  }

  /** Fees leave the supply and nothing else does. */
  lemma FeesLeave(run: Machine, w: World, pool: nat, m: Message)
    requires Honest(run) && KeepsSupply(run) && Apply(run, w, pool, m).Applied?
    ensures Supply(Apply(run, w, pool, m).world) + Cost(Apply(run, w, pool, m).used, m.gasPrice) == Supply(w)
  {
    var out := Ran(run, w, m);
    var back := GivenBack(m, out.left, out.refund);
    ChargeBounds(m, out.left, out.refund);
    SupplyMoves(w, m.from, Cost(m.gas, m.gasPrice));
    SupplyMoves(out.world, m.from, Cost(back, m.gasPrice));
    assert Supply(Started(w, m)) == Supply(w.Debit(m.from, Cost(m.gas, m.gasPrice)));
    CostSplits(m.gas - back, back, m.gasPrice);
  }

  // ---------------------------------------------------------------- the transition, step by step

  class GasPool {
    var gas: nat

    constructor (gas: nat)
      ensures this.gas == gas
    {
      this.gas := gas;
    }

    /** Pushing the pool above the word is a panic, so it is required not to happen. */
    method AddGas(amount: nat)
      requires gas + amount < WORD
      modifies this
      ensures gas == old(gas) + amount
    {
      gas := gas + amount;
    }

    method SubGas(amount: nat) returns (ok: bool)
      modifies this
      ensures ok <==> amount <= old(gas)
      ensures gas == if ok then old(gas) - amount else old(gas)
    {
      if gas < amount {
        return false;
      }
      gas := gas - amount;
      return true;
    }
  }

  class StateDb {
    var world: World

    constructor (w: World)
      ensures world == w
    {
      world := w;
    }
  }

  class StateTransition {
    const gp: GasPool
    const db: StateDb
    const run: Machine
    const msg: Message
    var gas: nat
    var initialGas: nat

    constructor (run: Machine, msg: Message, gp: GasPool, db: StateDb)
      ensures this.gp == gp && this.db == db && this.run == run && this.msg == msg && gas == 0 && initialGas == 0
    {
      this.gp, this.db, this.run, this.msg, gas, initialGas := gp, db, run, msg, 0, 0;
    }

    method BuyGas() returns (err: Option<Error>)
      requires gas == 0
      modifies this, gp, db
      ensures err == if old(db.world.Balance(msg.from)) < Cost(msg.gas, msg.gasPrice) then Some(InsufficientFunds)
                     else if old(gp.gas) < msg.gas then Some(GasLimitReached) else None
      ensures err.Some? ==> gp.gas == old(gp.gas) && db.world == old(db.world)
      ensures err.None? ==>
        && gas == msg.gas == initialGas && gp.gas == old(gp.gas) - msg.gas
        && db.world == old(db.world).Debit(msg.from, Cost(msg.gas, msg.gasPrice))
    {
      var price := Cost(msg.gas, msg.gasPrice);
      if db.world.Balance(msg.from) < price {
        return Some(InsufficientFunds);
      }
      var ok := gp.SubGas(msg.gas);
      if !ok {
        return Some(GasLimitReached);
      }
      gas := gas + msg.gas;
      initialGas := msg.gas;
      db.world := db.world.Debit(msg.from, price);
      return None;
    }

    method PreCheck() returns (err: Option<Error>)
      requires gas == 0
      modifies this, gp, db
      ensures err == Refusal(old(db.world), old(gp.gas), msg)
      ensures err.Some? ==> gp.gas == old(gp.gas) && db.world == old(db.world)
      ensures err.None? ==>
        && gas == msg.gas == initialGas && gp.gas == old(gp.gas) - msg.gas
        && db.world == old(db.world).Debit(msg.from, Cost(msg.gas, msg.gasPrice))
    {
      if msg.checkNonce {
        var nonce := db.world.Nonce(msg.from);
        if nonce < msg.nonce {
          return Some(NonceTooHigh);
        } else if nonce > msg.nonce {
          return Some(NonceTooLow);
        }
      }
      err := BuyGas();
    }

    /** Uses up a tenth of the gas that is left. */
    method KeepTenth()
      modifies this`gas
      ensures gas == Unused(msg.from, old(gas))
    {
      if msg.from != ZERO_ADDRESS {
        gas := gas - gas / 10;
      }
    }

    method RefundGas(refundCounter: nat)
      requires gas <= initialGas == msg.gas && gp.gas + msg.gas < WORD
      modifies this`gas, gp, db
      ensures gas == old(gas) + Refund(msg.gas, old(gas), refundCounter) <= msg.gas
      ensures db.world == old(db.world).Credit(msg.from, Cost(gas, msg.gasPrice))
      ensures gp.gas == old(gp.gas) + gas
    {
      var refund := (initialGas - gas) / 2;
      if refund > refundCounter {
        refund := refundCounter;
      }
      gas := gas + refund;
      db.world := db.world.Credit(msg.from, Cost(gas, msg.gasPrice));
      gp.AddGas(gas);
    }

    /** Applies the message; the pool never overflows, since no more gas comes back than was taken. */
    method TransitionDb() returns (r: Result<(nat, bool)>)
      requires Honest(run) && gas == 0 && gp.gas < WORD
      modifies this, gp, db
      ensures gp.gas < WORD
      ensures var c := Apply(run, old(db.world), old(gp.gas), msg);
        && db.world == c.world && gp.gas == c.pool
        && r == match c { case Skipped(e, _, _) => Err(e) case Applied(used, failed, _, _) => Ok((used, failed)) }
    {
      var err := PreCheck();
      if err.Some? {
        return Err(err.value);
      }
      r := Conclude();
    }

    /** The rest of the transition, once gas is bought. */
    method Conclude() returns (r: Result<(nat, bool)>)
      requires Honest(run) && gas == msg.gas == initialGas && gp.gas + msg.gas < WORD
      modifies this, gp, db
      ensures LateRefusal(msg).Some? ==> r == Err(LateRefusal(msg).value) && db.world == old(db.world) && gp.gas == old(gp.gas)
      ensures LateRefusal(msg).None? ==>
        var started := if msg.payload.to.None? then old(db.world) else old(db.world).SetNonce(msg.from, old(db.world).Nonce(msg.from) + 1);
        var out := run(started, msg, msg.gas - Intrinsic(msg.payload).value);
        var back := GivenBack(msg, out.left, out.refund);
        && back <= msg.gas && r == Ok((msg.gas - back, out.failed))
        && db.world == out.world.Credit(msg.from, Cost(back, msg.gasPrice)) && gp.gas == old(gp.gas) + back
    {
      var need := IntrinsicGas(msg.payload);
      if need.Err? {
        return Err(need.error);
      }
      if gas < need.value {
        return Err(BelowIntrinsicGas);
      }
      var used, failed := Execute(need.value);
      return Ok((used, failed));
    }

    /** Runs the machine with the gas bought less the intrinsic gas, and settles the rest. */
    method Execute(need: nat) returns (used: nat, failed: bool)
      requires Honest(run) && need <= gas == msg.gas == initialGas && gp.gas + msg.gas < WORD
      modifies this, gp, db
      ensures
        var started := if msg.payload.to.None? then old(db.world) else old(db.world).SetNonce(msg.from, old(db.world).Nonce(msg.from) + 1);
        var out := run(started, msg, msg.gas - need);
        var back := GivenBack(msg, out.left, out.refund);
        && used + back == msg.gas && failed == out.failed
        && db.world == out.world.Credit(msg.from, Cost(back, msg.gasPrice)) && gp.gas == old(gp.gas) + back
    {
      gas := gas - need;
      if msg.payload.to.Some? {
        db.world := db.world.SetNonce(msg.from, db.world.Nonce(msg.from) + 1);
      }
      var out := run(db.world, msg, gas);
      db.world, gas := out.world, out.left;
      KeepTenth();
      RefundGas(out.refund);
      return initialGas - gas, out.failed;
    }
  }
}
