/** Emitting an event: its gas power is set from what the validator has, then transactions are added to it. */
module Emitter {
  import opened Transactions
  import opened GasPower
  import Totals
  import Turns = TxTurns
  import WeightedShuffle

  datatype Rules = Rules(
    maxEventGas: nat, eventGas: nat, parentGas: nat, extraDataGas: nat, maxFreeParents: nat,
    maxBlockGas: nat, minGasPrice: nat, berlin: bool, longAllocPerSec: nat)
  {
    predicate Allows(tx: Tx) {
      (tx.typed ==> berlin) && minGasPrice <= tx.gasPrice
    }
  }

  function Least(g: Powers): nat { Min(g[0], g[1]) }

  method MinOf(g: Powers) returns (m: nat)
    ensures m == Least(g)
  {
    m := g[0];
    for i := 0 to WINDOWS
      invariant m <= g[0] && m in g
      invariant i == 2 ==> m <= g[1]
    {
      if m > g[i] {
        m := g[i];
      }
    }
  }

  method Sub(g: Powers, diff: nat) returns (r: Powers)
    requires diff <= Least(g)
    ensures forall k :: 0 <= k < WINDOWS ==> r[k] + diff == g[k]
  {
    r := g;
    for i := 0 to WINDOWS
      invariant forall k :: 0 <= k < i ==> r[k] + diff == g[k]
      invariant forall k :: i <= k < WINDOWS ==> r[k] == g[k]
    {
      r := r[i := r[i] - diff];
    }
  }

  // ---------------------------------------------------------------- gas used by an event

  function TxsGas(txs: seq<Tx>): nat {
    if txs == [] then 0 else TxsGas(txs[..|txs| - 1]) + txs[|txs| - 1].gas
  }

  /** Gas of an event apart from its transactions. */
  function Overhead(rules: Rules, parents: nat, extra: nat): nat {
    var parents := parents % 0x1_0000_0000;
    (if parents > rules.maxFreeParents then (parents - rules.maxFreeParents) * rules.parentGas else 0)
    + extra * rules.extraDataGas + rules.eventGas
  }

  /** An event costs its base gas; parents are free up to a number, each further one and each byte of extra data costs. */
  lemma OverheadSteps(rules: Rules, parents: nat, extra: nat)
    requires parents + 1 < 0x1_0000_0000
    ensures parents <= rules.maxFreeParents ==> Overhead(rules, parents, 0) == rules.eventGas
    ensures Overhead(rules, parents + 1, extra) == Overhead(rules, parents, extra) + if parents < rules.maxFreeParents then 0 else rules.parentGas
    ensures Overhead(rules, parents, extra + 1) == Overhead(rules, parents, extra) + rules.extraDataGas
  {
    if parents >= rules.maxFreeParents {
      assert (parents + 1 - rules.maxFreeParents) * rules.parentGas == (parents - rules.maxFreeParents) * rules.parentGas + rules.parentGas;
    }
    assert (extra + 1) * rules.extraDataGas == extra * rules.extraDataGas + rules.extraDataGas;
  }

  function UsedBy(rules: Rules, parents: nat, extra: nat, txs: seq<Tx>): nat {
    Wrap(TxsGas(txs) + Overhead(rules, parents, extra))
  }

  method CalcGasPowerUsed(rules: Rules, parents: nat, extra: nat, txs: seq<Tx>) returns (gas: nat)
    ensures gas == UsedBy(rules, parents, extra, txs)
  {
    var txsGas := 0;
    for i := 0 to |txs|
      invariant txsGas == Wrap(TxsGas(txs[..i]))
    {
      assert txs[..i + 1][..i] == txs[..i];
      WrapTwice(TxsGas(txs[..i]), txs[i].gas);
      txsGas := AddWords(txsGas, txs[i].gas);
    }
    assert txs[..|txs|] == txs;
    var count := parents % 0x1_0000_0000;
    var parentsGas := if count > rules.maxFreeParents then (count - rules.maxFreeParents) * rules.parentGas else 0;
    var extraGas := extra * rules.extraDataGas;
    WrapSum(txsGas, TxsGas(txs), parentsGas, extraGas, rules.eventGas);
    gas := AddWords(AddWords(AddWords(txsGas, Wrap(parentsGas)), Wrap(extraGas)), Wrap(rules.eventGas));
  }

  /** The sum of two words. */
  function AddWords(a: nat, b: nat): nat { Wrap(a + b) }

  lemma AddWordsIs(a: nat, b: nat, x: nat, y: nat)
    requires a == Wrap(x) && b == Wrap(y)
    ensures AddWords(a, b) == Wrap(x + y)
  {
    WrapTwice(x, b);
    WrapTwice(y, x);
  }

  /** Cutting every term and every sum to the word is cutting once. */
  lemma WrapSum(sum: nat, txs: nat, parents: nat, extra: nat, event: nat)
    requires sum == Wrap(txs)
    ensures AddWords(AddWords(AddWords(sum, Wrap(parents)), Wrap(extra)), Wrap(event)) == Wrap(txs + parents + extra + event)
  {
    var two := AddWords(sum, Wrap(parents));
    AddWordsIs(sum, Wrap(parents), txs, parents);
    var three := AddWords(two, Wrap(extra));
    AddWordsIs(two, Wrap(extra), txs + parents, extra);
    AddWordsIs(three, Wrap(event), txs + parents + extra, event);
  }

  /** One more transaction adds its gas, as long as the sum stays within the word. */
  lemma UsedByMore(rules: Rules, parents: nat, extra: nat, txs: seq<Tx>, tx: Tx)
    requires UsedBy(rules, parents, extra, txs) + tx.gas < WORD
    ensures UsedBy(rules, parents, extra, txs + [tx]) == UsedBy(rules, parents, extra, txs) + tx.gas
  {
    assert (txs + [tx])[..|txs|] == txs;
    WrapTwice(TxsGas(txs) + Overhead(rules, parents, extra), tx.gas);
    WrapTwice(UsedBy(rules, parents, extra, txs), tx.gas);
  }

  // ---------------------------------------------------------------- the gas an event may use

  /** Spend freely above the upper threshold, half as fast down to the lower one. */
  function Throttled(power: nat, most: nat, down: nat, up: nat): nat {
    var after := if power > most then power - most else 0;
    var x1, x2 := Max(after, down), Min(power, up);
    (if power > x2 then power - x2 else 0) + (if x2 > x1 then x2 - x1 else 0) / 2
  }

  /** Throttling never spends the reserve and never slows down a validator rich enough. */
  lemma ThrottleKeepsReserve(power: nat, most: nat, down: nat, up: nat)
    requires down < up
    ensures down <= power ==> power - Min(most, Throttled(power, most, down, up)) >= down
    ensures up + most <= power ==> most <= Throttled(power, most, down, up)
    ensures power < up && 2 <= most && down + 1 < power ==> Throttled(power, most, down, up) < most
  {
  }

  /** In numbers: everything above the upper threshold, half of what lies between the thresholds, nothing below. */
  lemma ThrottleIs(power: nat, most: nat, down: nat, up: nat)
    requires down < up && most <= power
    ensures up <= power - most ==> Throttled(power, most, down, up) == power - up >= most
    ensures down <= power - most && power <= up ==> Throttled(power, most, down, up) == most / 2
    ensures down <= power - most <= up <= power ==> Throttled(power, most, down, up) == (power - up) + (up - (power - most)) / 2
    ensures power - most <= down <= power <= up ==> Throttled(power, most, down, up) == (power - down) / 2
    ensures power - most <= down && up <= power ==> Throttled(power, most, down, up) == (power - up) + (up - down) / 2
  {
  }

  /** More gas power never means less gas to use. */
  lemma ThrottleMonotone(power: nat, power': nat, most: nat, down: nat, up: nat)
    requires down < up && power <= power'
    ensures Min(most, Throttled(power, most, down, up)) <= Min(most, Throttled(power', most, down, up))
  {
    var a, b := Max(if power > most then power - most else 0, down), Max(if power' > most then power' - most else 0, down);
    assert a <= b <= a + (power' - power);
  }

  // ---------------------------------------------------------------- events being built

  class MutableEvent {
    const epoch: nat
    const creator: nat
    const hasParent: bool
    const parents: nat  // how many
    const extra: nat  // length of the extra data
    const creationTime: nat
    const median: nat
    var used: nat
    var left: Powers
    var txs: seq<Tx>

    constructor (epoch: nat, creator: nat, hasParent: bool, parents: nat, extra: nat, creationTime: nat, median: nat)
      ensures txs == [] && this.epoch == epoch && this.creator == creator && this.hasParent == hasParent
      ensures this.parents == parents && this.extra == extra && this.creationTime == creationTime && this.median == median
    {
      this.epoch, this.creator, this.hasParent, this.parents := epoch, creator, hasParent, parents;
      this.extra, this.creationTime, this.median := extra, creationTime, median;
      used, left, txs := 0, [0, 0], [];
    }

    function Header(): Event
      reads this
    {
      Event(epoch, creator, hasParent, median, used, left)
    }

    /** The gas declared is the gas its contents take. */
    ghost predicate Declared(rules: Rules)
      reads this
    {
      used == UsedBy(rules, parents, extra, txs)
    }

    /** The gas power available is split into used and left, in both windows. */
    ghost predicate Splits(power: Powers)
      reads this
    {
      forall k :: 0 <= k < WINDOWS ==> left[k] + used == power[k] < WORD
    }
  }

  /** What is left of the power in both windows. */
  function Rest(power: Powers, used: nat): Powers
    requires used <= Least(power)
  {
    [power[0] - used, power[1] - used]
  }

  datatype BuildError = EpochChanged | NotEnoughGasPower

  /** The available gas power in both windows. */
  function PowersOf(ctx: Context, e: Event, parent: Option<Event>): Powers
    requires ctx.Suits(e, parent)
  {
    [ctx.PowerOf(e, parent, 0), ctx.PowerOf(e, parent, 1)]
  }

  /** What is available does not depend on what the event uses. */
  lemma PowersFit(ctx: Context, e: Event, parent: Option<Event>, used: nat, left: Powers)
    requires ctx.Suits(e, parent)
    ensures forall k :: 0 <= k < WINDOWS ==> PowersOf(ctx, e, parent)[k] < WORD
    ensures PowersOf(ctx, e.(used := used, left := left), parent) == PowersOf(ctx, e, parent)
  {
  }

  /** Set the gas power of a new event, if there is enough of it for the event itself. */
  method Build(ctx: Context, rules: Rules, e: MutableEvent, parent: Option<Event>) returns (err: Option<BuildError>)
    requires ctx.Suits(e.Header(), parent)
    modifies e
    ensures e.txs == old(e.txs) && e.Declared(rules)
    ensures err == Some(EpochChanged) <==> ctx.epoch != e.epoch
    ensures err == Some(NotEnoughGasPower) <==> ctx.epoch == e.epoch && Least(PowersOf(ctx, old(e.Header()), parent)) < e.used
    ensures err.None? ==> e.Splits(PowersOf(ctx, old(e.Header()), parent))
  {
    e.used := CalcGasPowerUsed(rules, e.parents, e.extra, e.txs);
    PowersFit(ctx, old(e.Header()), parent, e.used, e.left);
    var available := CalcGasPower(ctx, e.Header(), parent);
    if available.None? {
      return Some(EpochChanged);
    }
    assert available.value == PowersOf(ctx, old(e.Header()), parent);
    var least := MinOf(available.value);
    if e.used > least {
      return Some(NotEnoughGasPower);
    }
    e.left := Sub(available.value, e.used);
    return None;
  }

  // ---------------------------------------------------------------- adding transactions

  datatype Config = Thresholds(noTxsThreshold: nat, limitedTpsThreshold: nat)

  /** The transactions offered, by sender and each sender's in nonce order. */
  type Offer = map<Address, seq<Tx>>

  ghost predicate Proper(offer: Offer) {
    forall a :: a in offer ==> offer[a] != [] && forall i :: 0 <= i < |offer[a]| ==> offer[a][i].sender == a
  }

  function Length(txs: seq<Tx>): nat { |txs| }

  /** The head with the highest price comes first. */
  predicate IsTop(offer: Offer, a: Address)
    requires a in offer && forall b :: b in offer ==> offer[b] != []
  {
    forall b :: b in offer ==> offer[b][0].gasPrice <= offer[a][0].gasPrice
  }

  lemma {:induction false} TopExists(offer: Offer)
    requires offer != map[] && forall b :: b in offer ==> offer[b] != []
    ensures exists a :: a in offer && IsTop(offer, a)
    decreases |offer|
  {
    var a :| a in offer;
    var rest := offer - {a};
    if rest == map[] {
      forall b | b in offer ensures b == a {
        assert b != a ==> b in rest;
      }
      assert IsTop(offer, a);
    } else {
      TopExists(rest);
      var c :| c in rest && IsTop(rest, c);
      assert forall b :: b in offer ==> b == a || b in rest;
      assert IsTop(offer, if offer[a][0].gasPrice < offer[c][0].gasPrice then c else a);
    }
  }

  /** The next transactions of the same sender move up. */
  function Shift(offer: Offer, a: Address): Offer
    requires a in offer && offer[a] != []
  {
    if |offer[a]| == 1 then offer - {a} else offer[a := offer[a][1..]]
  }

  lemma OfferShrinks(offer: Offer, a: Address)
    requires Proper(offer) && a in offer
    ensures Proper(Shift(offer, a)) && Proper(offer - {a})
    ensures Totals.Total(Shift(offer, a), Length) < Totals.Total(offer, Length)
    ensures Totals.Total(offer - {a}, Length) < Totals.Total(offer, Length)
  {
    Totals.TotalRemove(offer, a, Length);
    Totals.TotalUpdate(offer, a, offer[a][1..], Length);
  }

  /** The transactions of one sender. */
  function Of(txs: seq<Tx>, a: Address): seq<Tx> {
    if txs == [] then [] else
    var front := Of(txs[..|txs| - 1], a);
    if txs[|txs| - 1].sender == a then front + [txs[|txs| - 1]] else front
  }

  lemma OfMore(txs: seq<Tx>, tx: Tx, a: Address)
    ensures Of(txs + [tx], a) == if tx.sender == a then Of(txs, a) + [tx] else Of(txs, a)
  {
    assert (txs + [tx])[..|txs|] == txs;
  }

  /** Every sender's transactions were taken from the front of its queue, and what is offered still is the rest. */
  ghost predicate Taken(all: Offer, offer: Offer, txs: seq<Tx>) {
    && (forall a :: a in offer ==> a in all && Of(txs, a) + offer[a] == all[a])
    && (forall a :: a in all ==> Of(txs, a) <= all[a])
    && (forall a :: a !in all ==> Of(txs, a) == [])
  }

  lemma TakenPop(all: Offer, offer: Offer, txs: seq<Tx>, a: Address)
    requires Taken(all, offer, txs)
    ensures Taken(all, offer - {a}, txs)
  {
  }

  lemma MoveOver<T>(front: seq<T>, back: seq<T>)
    requires back != []
    ensures (front + [back[0]]) + back[1..] == front + back && front + [back[0]] <= front + back
    ensures |back| == 1 ==> front + [back[0]] == front + back
  {
    assert [back[0]] + back[1..] == back;
  }

  lemma TakenShift(all: Offer, offer: Offer, txs: seq<Tx>, a: Address)
    requires Taken(all, offer, txs) && Proper(offer) && a in offer
    ensures Taken(all, Shift(offer, a), txs + [offer[a][0]])
  {
    var tx := offer[a][0];
    assert tx.sender == a;
    MoveOver(Of(txs, a), offer[a]);
    forall b ensures Of(txs + [tx], b) == if b == a then Of(txs, b) + [tx] else Of(txs, b) {
      OfMore(txs, tx, b);
    }
  }

  lemma Overflows(a: nat, b: nat)
    requires a < WORD && b < WORD
    ensures Wrap(a + b) == if a + b < WORD then a + b else a + b - WORD
  {
  }

  /** There is gas for one more transaction when `used` of the power is used. */
  predicate Room(power: Powers, used: nat, gas: nat, max: nat) {
    used + gas < Least(power) && used + gas < max
  }

  /** First-seen times are never forgotten or changed. */
  ghost predicate Keeps(times: map<Hash, int>, times': map<Hash, int>) {
    forall h :: h in times ==> h in times' && times'[h] == times[h]
  }

  /** The readings of the clock were made one after the other, each for one sender. */
  ghost predicate Readings(asked: map<Address, nat>, n: nat) {
    (forall a :: a in asked ==> asked[a] < n) && Apart(asked)
  }

  ghost predicate Apart(asked: map<Address, nat>) {
    forall a, b :: a in asked && b in asked && a != b ==> asked[a] != asked[b]
  }

  lemma MoreReadings(asked: map<Address, nat>, n: nat, a: Address)
    requires Readings(asked, n)
    ensures Readings(asked, n + 1) && Readings(asked[a := n], n + 1)
  {
  }

  /** Sender `a` has no transaction from position `i` on. */
  ghost predicate AbsentFrom(txs: seq<Tx>, i: nat, a: Address) {
    forall k :: i <= k < |txs| ==> txs[k].sender != a
  }

  /** The highest price first: a transaction is no dearer than any before it, unless one of its own sender stands between them. */
  ghost predicate Greedy(txs: seq<Tx>) {
    forall i: nat, j: nat :: i < j < |txs| && AbsentFrom(txs[..j], i, txs[j].sender) ==> txs[j].gasPrice <= txs[i].gasPrice
  }

  /** Nor is the next transaction of a sender on offer. */
  ghost predicate GreedySoFar(txs: seq<Tx>, offer: Offer) {
    && Greedy(txs)
    && forall i: nat, a {:trigger AbsentFrom(txs, i, a)} :: i < |txs| && a in offer && offer[a] != [] && AbsentFrom(txs, i, a) ==> offer[a][0].gasPrice <= txs[i].gasPrice
  }

  lemma GreedyPop(txs: seq<Tx>, offer: Offer, a: Address)
    requires GreedySoFar(txs, offer)
    ensures GreedySoFar(txs, offer - {a})
  {
  }

  lemma GreedyAdd(txs: seq<Tx>, offer: Offer, a: Address)
    requires GreedySoFar(txs, offer) && Proper(offer) && a in offer && IsTop(offer, a)
    ensures GreedySoFar(txs + [offer[a][0]], Shift(offer, a))
  {
    var tx, n := offer[a][0], |txs|;
    var txs' := txs + [tx];
    var offer': Offer := Shift(offer, a);
    assert tx.sender == a && txs'[n] == tx;
    forall i: nat, j: nat | i < j < |txs'| && AbsentFrom(txs'[..j], i, txs'[j].sender) ensures txs'[j].gasPrice <= txs'[i].gasPrice {
      if j < n {
        assert txs'[..j] == txs[..j];
      } else {
        assert txs'[..j] == txs;
      }
    }
    forall i: nat, b: Address | i < |txs'| && b in offer' && offer'[b] != [] && AbsentFrom(txs', i, b) ensures offer'[b][0].gasPrice <= txs'[i].gasPrice {
      assert b != a;
      if i < n {
        assert AbsentFrom(txs, i, b) by {
          forall k | i <= k < n ensures txs[k].sender != b { assert txs'[k] == txs[k]; }
        }
      }
    }
  }

  datatype Choice = Stop | Pop | Add

  class TxEmitter {
    const config: Config
    const rules: Rules
    const council: Turns.Council
    const validators: seq<Validator>
    const epoch: nat
    const softGasPriceLimit: nat
    const originated: Address -> nat  // transactions of a sender in unconfirmed events
    const inPool: Hash -> bool
    var pendingGas: nat
    var txTime: map<Hash, int>

    constructor (config: Config, rules: Rules, council: Turns.Council, validators: seq<Validator>, epoch: nat,
                 softGasPriceLimit: nat, originated: Address -> nat, inPool: Hash -> bool)
      ensures pendingGas == 0 && txTime == map[] && this.config == config && this.rules == rules && this.council == council
      ensures this.validators == validators && this.epoch == epoch && this.softGasPriceLimit == softGasPriceLimit
      ensures this.originated == originated && this.inPool == inPool
    {
      this.config, this.rules, this.council, this.validators, this.epoch := config, rules, council, validators, epoch;
      this.softGasPriceLimit, this.originated, this.inPool := softGasPriceLimit, originated, inPool;
      pendingGas, txTime := 0, map[];
    }

    function MaxPendingGas(): nat {
      Max(Wrap(rules.maxBlockGas * 3) / 5, Wrap(rules.maxEventGas + rules.eventGas * |validators|))
    }

    /** What the validator is expected to gain until the event is created, from four fifths of the allocation. */
    function Estimated(e: MutableEvent): nat {
      var c := GasPower.Config(Wrap(rules.longAllocPerSec * 4) / 5, 60 * SECOND, 0, 0, 0);
      Available(BucketOf(validators, e.creator, c), !e.hasParent, e.creationTime, e.median, 0)
    }

    /** It is what four fifths of the allocation grant in the time since the median, a minute at most. */
    lemma EstimatedIs(e: MutableEvent)
      requires e.median <= e.creationTime && StakeOf(validators, e.creator) > 0 && rules.longAllocPerSec * 4 < WORD
      requires var rate := RateOf(rules.longAllocPerSec * 4 / 5, StakeOf(validators, e.creator), TotalWeight(validators));
        Grant(rate, 60 * SECOND) < WORD && Grant(rate, e.creationTime - e.median) < WORD
      ensures var rate := RateOf(rules.longAllocPerSec * 4 / 5, StakeOf(validators, e.creator), TotalWeight(validators));
        Estimated(e) == Min(Grant(rate, e.creationTime - e.median), Grant(rate, 60 * SECOND))
    {
      var c := GasPower.Config(rules.longAllocPerSec * 4 / 5, 60 * SECOND, 0, 0, 0);
      WrapTwice(rules.longAllocPerSec * 4, 0);
      var b := BucketOf(validators, e.creator, c);
      NoGrant(b.rate);
      BucketIs(validators, e.creator, c);
      WrapTwice(Grant(b.rate, e.creationTime - e.median), 0);
    }

    predicate Smooths() { config.limitedTpsThreshold > config.noTxsThreshold }

    /** The power seen by the smoothing, when `left` is left. */
    function Prospect(e: MutableEvent, left: Powers): nat {
      Wrap(Least(left) + Estimated(e))
    }

    /** No transactions at all. */
    predicate Refrains(e: MutableEvent, left: Powers)
      reads this
    {
      || (Smooths() && Prospect(e, left) < config.noTxsThreshold)
      || MaxPendingGas() <= pendingGas
      || Least(left) <= config.noTxsThreshold
    }

    /** The limit on one event, smoothed. */
    function Smoothed(e: MutableEvent, left: Powers): (m: nat)
      ensures m <= rules.maxEventGas && m <= Least(left)
    {
      var most := Min(rules.maxEventGas, Least(left));
      if Smooths() then Min(most, Throttled(Prospect(e, left), most, config.noTxsThreshold, config.limitedTpsThreshold)) else most
    }

    /** What keeps `base + m` within the limit; a sum that wraps around the word goes unnoticed. */
    static function CutAt(base: nat, m: nat, limit: nat): (r: nat)
      requires base < limit
      ensures r <= m
    {
      if base + m < WORD then Min(m, limit - base) else m
    }

    /** The limit with regard to pending gas. */
    function WithPending(e: MutableEvent, left: Powers): (m: nat)
      requires !Refrains(e, left)
      reads this
      ensures m <= Smoothed(e, left)
    {
      CutAt(pendingGas, Smoothed(e, left), MaxPendingGas())
    }

    /** The gas an event may use. */
    function MostGas(e: MutableEvent, left: Powers): (m: nat)
      reads this
      ensures m <= rules.maxEventGas && m <= Least(left)
    {
      if Refrains(e, left) then 0 else CutAt(config.noTxsThreshold, WithPending(e, left), Least(left))
    }

    /** Where no sum wraps around the word, that is the least of all limits. */
    lemma MostGasIsLeast(e: MutableEvent, left: Powers)
      requires !Refrains(e, left) && pendingGas + rules.maxEventGas < WORD && config.noTxsThreshold + rules.maxEventGas < WORD
      ensures MostGas(e, left) == Min(Smoothed(e, left), Min(MaxPendingGas() - pendingGas, Least(left) - config.noTxsThreshold))
    {
    }

    /** A validator with ample power may fill an event: nothing pending, the reserve out of reach, and no smoothing or power above it. */
    lemma AmpleFills(e: MutableEvent, left: Powers)
      requires config.noTxsThreshold + rules.maxEventGas < Least(left) < WORD && pendingGas + rules.maxEventGas < MaxPendingGas()
      requires Smooths() ==> config.limitedTpsThreshold + rules.maxEventGas <= Prospect(e, left)
      ensures MostGas(e, left) == rules.maxEventGas
    {
      if Smooths() {
        ThrottleIs(Prospect(e, left), rules.maxEventGas, config.noTxsThreshold, config.limitedTpsThreshold);
      }
      PendingFits();
    }

    /** Without a block limit in the way, pending gas has room for one full event and an empty one of every validator. */
    lemma PendingRoom()
      requires rules.maxEventGas + rules.eventGas * |validators| < WORD && rules.maxBlockGas * 3 < WORD
      ensures MaxPendingGas() >= rules.maxEventGas + rules.eventGas * |validators| && 5 * MaxPendingGas() >= 3 * rules.maxBlockGas - 4
      ensures MaxPendingGas() == rules.maxEventGas + rules.eventGas * |validators| || 5 * MaxPendingGas() <= 3 * rules.maxBlockGas
    {
      WrapTwice(rules.maxEventGas + rules.eventGas * |validators|, 0);
      WrapTwice(rules.maxBlockGas * 3, 0);
    }

    /** The sum compared for the reserve does not wrap. */
    predicate ReserveSafe(e: MutableEvent, left: Powers)
      reads this
    {
      !Refrains(e, left) ==> config.noTxsThreshold + WithPending(e, left) < WORD
    }

    /** The sum compared for pending gas does not wrap, or the reserve cuts deep enough. */
    predicate PendingSafe(e: MutableEvent, left: Powers)
      reads this
    {
      !Refrains(e, left) ==>
        || pendingGas + Smoothed(e, left) < WORD
        || (config.noTxsThreshold + Smoothed(e, left) < WORD && pendingGas + Least(left) - config.noTxsThreshold <= MaxPendingGas())
    }

    /** When the gas an event may use leaves the reserve, and when it keeps pending gas within its limit. */
    lemma SafeIff(e: MutableEvent, left: Powers)
      requires !Refrains(e, left) && Least(left) < WORD
      ensures config.noTxsThreshold + MostGas(e, left) <= Least(left) <==> ReserveSafe(e, left)
      ensures pendingGas + MostGas(e, left) <= MaxPendingGas() <==> PendingSafe(e, left)
    {
      PendingFits();
    }

    lemma PendingFits()
      ensures MaxPendingGas() < WORD
    {
      WrapTwice(rules.maxBlockGas * 3, 0);
      WrapTwice(rules.maxEventGas + rules.eventGas * |validators|, 0);
    }

    method MaxGasPowerToUse(e: MutableEvent) returns (m: nat)
      requires Least(e.left) < WORD
      ensures m == MostGas(e, e.left)
    {
      m := rules.maxEventGas;
      var least := MinOf(e.left);
      if m > least {
        m := least;
      }
      var poor;
      poor, m := SmoothRate(e, least, m);
      if poor {
        return 0;
      }
      // pending gas should be below the gas of a block
      PendingFits();
      var maxPendingGas := MaxPendingGas();
      if maxPendingGas <= pendingGas {
        return 0;
      }
      m := Cut(pendingGas, m, maxPendingGas);
      // no transactions if power is low
      if least <= config.noTxsThreshold {
        return 0;
      }
      m := Cut(config.noTxsThreshold, m, least);
    }

    /** Smooth the rate if power is not big; `poor` if there is not even the reserve. */
    method SmoothRate(e: MutableEvent, least: nat, most: nat) returns (poor: bool, m: nat)
      requires least == Least(e.left) && most == Min(rules.maxEventGas, least)
      ensures poor <==> Smooths() && Prospect(e, e.left) < config.noTxsThreshold
      ensures !poor ==> m == Smoothed(e, e.left)
    {
      poor, m := false, most;
      if Smooths() {
        var power := Wrap(least + Estimated(e));
        if power < config.noTxsThreshold {
          return true, 0;
        }
        m := Smooth(power, most);
      }
    }

    static method Cut(base: nat, m: nat, limit: nat) returns (r: nat)
      requires base < limit < WORD && m < WORD
      ensures r == CutAt(base, m, limit)
    {
      Overflows(base, m);
      r := m;
      if limit < Wrap(base + m) {
        r := limit - base;
      }
    }

    /** Smooth the use of gas if power is not big. */
    method Smooth(power: nat, most: nat) returns (m: nat)
      ensures m == Min(most, Throttled(power, most, config.noTxsThreshold, config.limitedTpsThreshold))
    {
      var after := 0;
      if power > most {
        after := power - most;
      }
      var x1, x2 := after, power;
      if x1 < config.noTxsThreshold {
        x1 := config.noTxsThreshold;
      }
      if x2 > config.limitedTpsThreshold {
        x2 := config.limitedTpsThreshold;
      }
      var trespassing := if x2 > x1 then x2 - x1 else 0;
      var healthy := if power > x2 then power - x2 else 0;
      var smooth := healthy + trespassing / 2;
      m := if most > smooth then smooth else most;
    }

    /** A transaction that may be originated now, by this validator. */
    ghost predicate Eligible(tx: Tx, me: nat, now: int)
      requires council.Valid()
      reads this
    {
      && rules.Allows(tx) && softGasPriceLimit <= tx.gasPrice && originated(tx.sender) == 0 && inPool(tx.hash)
      && Turns.HasTurn(council, tx.sender, tx.nonce, epoch, now, if tx.hash in txTime then txTime[tx.hash] else now, me)
    }

    /** A reason to pass over a transaction: against the rules, too big, already on its way, or not its turn when it was looked at. */
    ghost predicate Refused(tx: Tx, me: nat, used: nat, power: Powers, max: nat, times: map<Hash, int>, now: int)
      requires council.Valid()
    {
      || !rules.Allows(tx) || tx.gasPrice < softGasPriceLimit || originated(tx.sender) != 0 || !inPool(tx.hash)
      || !Room(power, used, tx.gas, max)
      || (tx.hash in times && !Turns.HasTurn(council, tx.sender, tx.nonce, epoch, now, times[tx.hash], me))
    }

    lemma StaysRefused(tx: Tx, me: nat, used: nat, used': nat, power: Powers, max: nat, times: map<Hash, int>, times': map<Hash, int>, now: int)
      requires council.Valid() && Refused(tx, me, used, power, max, times, now) && used <= used' && Keeps(times, times')
      ensures Refused(tx, me, used', power, max, times', now)
    {
    }

    /**
     Every sender that is no longer offered has nothing left or is stuck at a transaction that was refused when it
     was looked at; `asked` says at which reading of the clock.
     */
    ghost predicate Settled(all: Offer, offer: Offer, txs: seq<Tx>, me: nat, used: nat, power: Powers, max: nat, times: map<Hash, int>,
                            clock: nat -> int, asked: map<Address, nat>)
      requires council.Valid()
    {
      forall a :: a in all && a !in offer && |Of(txs, a)| < |all[a]| ==>
        a in asked && Refused(all[a][|Of(txs, a)|], me, used, power, max, times, clock(asked[a]))
    }

    lemma SettledPop(all: Offer, offer: Offer, txs: seq<Tx>, a: Address, me: nat, used: nat, power: Powers, max: nat,
                     times: map<Hash, int>, times': map<Hash, int>, clock: nat -> int, asked: map<Address, nat>, i: nat)
      requires council.Valid() && Settled(all, offer, txs, me, used, power, max, times, clock, asked)
      requires Taken(all, offer, txs) && Proper(offer) && a in offer && Keeps(times, times')
      requires Refused(offer[a][0], me, used, power, max, times', clock(i))
      ensures Settled(all, offer - {a}, txs, me, used, power, max, times', clock, asked[a := i])
    {
      forall b | b in all && b !in offer && |Of(txs, b)| < |all[b]|
        ensures Refused(all[b][|Of(txs, b)|], me, used, power, max, times', clock(asked[b]))
      {
        StaysRefused(all[b][|Of(txs, b)|], me, used, used, power, max, times, times', clock(asked[b]));
      }
      assert all[a][|Of(txs, a)|] == offer[a][0];
    }

    lemma SettledShift(all: Offer, offer: Offer, txs: seq<Tx>, a: Address, me: nat, used: nat, used': nat, power: Powers, max: nat,
                       times: map<Hash, int>, times': map<Hash, int>, clock: nat -> int, asked: map<Address, nat>)
      requires council.Valid() && Settled(all, offer, txs, me, used, power, max, times, clock, asked)
      requires Taken(all, offer, txs) && Proper(offer) && a in offer && used <= used' && Keeps(times, times')
      ensures Settled(all, Shift(offer, a), txs + [offer[a][0]], me, used', power, max, times', clock, asked)
    {
      var tx := offer[a][0];
      assert tx.sender == a;
      OfMore(txs, tx, a);
      forall b | b in all && b !in Shift(offer, a) && |Of(txs + [tx], b)| < |all[b]|
        ensures b in asked && Refused(all[b][|Of(txs + [tx], b)|], me, used', power, max, times', clock(asked[b]))
      {
        OfMore(txs, tx, b);
        assert b != a;
        StaysRefused(all[b][|Of(txs, b)|], me, used, used', power, max, times, times', clock(asked[b]));
      }
    }

    /** Nothing more could be added: not even an empty transaction fits, or every sender is settled. */
    ghost predicate Complete(all: Offer, e: MutableEvent, power: Powers, max: nat, clock: nat -> int, asked: map<Address, nat>)
      requires council.Valid()
      reads this, e
    {
      !Room(power, e.used, TX_GAS, max) || Settled(all, map[], e.txs, e.creator, e.used, power, max, txTime, clock, asked)
    }

    predicate Fits(e: MutableEvent, gas: nat, max: nat)
      reads e
    {
      gas < Least(e.left) && e.used + gas < max
    }

    method Consider(e: MutableEvent, tx: Tx, max: nat, now: int) returns (c: Choice)
      requires council.Valid() && Least(e.left) + e.used < WORD
      modifies this`txTime
      ensures c.Add? <==> Fits(e, tx.gas, max) && old(Eligible(tx, e.creator, now))
      ensures c.Stop? <==> rules.Allows(tx) && softGasPriceLimit <= tx.gasPrice && !Fits(e, tx.gas, max) && !Fits(e, TX_GAS, max)
      ensures Keeps(old(txTime), txTime)
      ensures c.Pop? ==>
        || !rules.Allows(tx) || tx.gasPrice < softGasPriceLimit || originated(tx.sender) != 0 || !inPool(tx.hash) || !Fits(e, tx.gas, max)
        || (tx.hash in txTime && !Turns.HasTurn(council, tx.sender, tx.nonce, epoch, now, txTime[tx.hash], e.creator))
    {
      if !rules.Allows(tx) || tx.gasPrice < softGasPriceLimit {
        return Pop;
      }
      var least := MinOf(e.left);
      if tx.gas >= least || Wrap(e.used + tx.gas) >= max {
        if TX_GAS >= least || Wrap(e.used + TX_GAS) >= max {
          return Stop;
        }
        return Pop;
      }
      if originated(tx.sender) != 0 {
        return Pop;
      }
      if tx.hash !in txTime {
        txTime := txTime[tx.hash := now];
      }
      var turn := Turns.IsMyTxTurn(council, tx.sender, tx.nonce, epoch, now, txTime[tx.hash], e.creator);
      if !turn || !inPool(tx.hash) {
        return Pop;
      }
      return Add;
    }

    /** Each transaction passes the epoch's rules and was not in an unconfirmed event. */
    ghost predicate Clean(txs: seq<Tx>) {
      forall i :: 0 <= i < |txs| ==>
        rules.Allows(txs[i]) && softGasPriceLimit <= txs[i].gasPrice && originated(txs[i].sender) == 0 && inPool(txs[i].hash)
    }

    /** Put one transaction into the event. */
    method Include(e: MutableEvent, tx: Tx, max: nat, ghost power: Powers)
      requires e.Splits(power) && e.Declared(rules) && Fits(e, tx.gas, max)
      modifies e
      ensures e.Splits(power) && e.Declared(rules) && e.used < max && e.txs == old(e.txs) + [tx]
    {
      UsedByMore(rules, e.parents, e.extra, e.txs, tx);
      var left := Sub(e.left, tx.gas);
      e.used := e.used + tx.gas;
      e.left := left;
      e.txs := e.txs + [tx];
    }

    /** Add transactions as long as gas power allows, the highest price first; `clock` gives the times read on the way. */
    method AddTxs(e: MutableEvent, all: Offer, clock: nat -> int, ghost power: Powers)
      returns (ghost max: nat, ghost asked: map<Address, nat>)
      requires council.Valid() && Proper(all) && e.txs == []
      requires e.Splits(power) && e.Declared(rules)
      modifies this`txTime, e
      ensures e.Splits(power) && e.Declared(rules) && Clean(e.txs)
      ensures Taken(all, map[], e.txs) && Greedy(e.txs)
      ensures max == MostGas(e, old(e.left))
      ensures if e.txs == [] then e.Header() == old(e.Header()) else e.used < max
      ensures old(e.used) < max ==> Complete(all, e, power, max, clock, asked) && Apart(asked)
    {
      var m := MaxGasPowerToUse(e);
      max, asked := m, map[];
      forall a ensures Of(e.txs, a) == [] {
      }
      if m <= e.used {
        return;
      }
      asked := AddEach(e, all, clock, m, power, e.Header());
    }

    /** Between two transactions: `before` is the event without any. */
    ghost predicate Filling(e: MutableEvent, max: nat, power: Powers, before: Event)
      reads e
    {
      && e.Splits(power) && e.Declared(rules) && Clean(e.txs)
      && if e.txs == [] then e.Header() == before else e.used < max
    }

    method AddOne(e: MutableEvent, tx: Tx, max: nat, clock: nat -> int, i: nat, ghost power: Powers, ghost before: Event) returns (c: Choice)
      requires council.Valid() && Filling(e, max, power, before)
      modifies this`txTime, e
      ensures Filling(e, max, power, before) && Keeps(old(txTime), txTime)
      ensures if c.Add? then e.txs == old(e.txs) + [tx] && old(e.used) <= e.used else e.txs == old(e.txs) && e.used == old(e.used)
      ensures c.Stop? ==> !Room(power, e.used, TX_GAS, max)
      ensures c.Pop? ==> Refused(tx, e.creator, e.used, power, max, txTime, clock(i))
    {
      c := Judge(e, tx, max, clock, i, power);
      if c.Add? {
        Include(e, tx, max, power);
      }
    }

    /** Consider a transaction, with the reasons in terms of the power available. */
    method Judge(e: MutableEvent, tx: Tx, max: nat, clock: nat -> int, i: nat, ghost power: Powers) returns (c: Choice)
      requires council.Valid() && e.Splits(power)
      modifies this`txTime
      ensures Keeps(old(txTime), txTime)
      ensures c.Add? ==> Fits(e, tx.gas, max) && Clean([tx])
      ensures c.Stop? ==> !Room(power, e.used, TX_GAS, max)
      ensures c.Pop? ==> Refused(tx, e.creator, e.used, power, max, txTime, clock(i))
    {
      RoomIsFit(e, tx.gas, max, power);
      RoomIsFit(e, TX_GAS, max, power);
      c := Consider(e, tx, max, clock(i));
    }

    lemma RoomIsFit(e: MutableEvent, gas: nat, max: nat, power: Powers)
      requires e.Splits(power)
      ensures Fits(e, gas, max) <==> Room(power, e.used, gas, max)
    {
    }

    method AddEach(e: MutableEvent, all: Offer, clock: nat -> int, max: nat, ghost power: Powers, ghost before: Event)
      returns (ghost asked: map<Address, nat>)
      requires council.Valid() && Proper(all) && e.txs == [] && Filling(e, max, power, before)
      modifies this`txTime, e
      ensures Filling(e, max, power, before)
      ensures Taken(all, map[], e.txs) && Greedy(e.txs) && Complete(all, e, power, max, clock, asked) && Apart(asked)
    {
      asked := map[];
      var offer, i := all, 0;
      while offer != map[]
        invariant Proper(offer) && Taken(all, offer, e.txs) && GreedySoFar(e.txs, offer)
        invariant Filling(e, max, power, before)
        invariant Settled(all, offer, e.txs, e.creator, e.used, power, max, txTime, clock, asked) && Readings(asked, i)
        decreases Totals.Total(offer, Length)
      {
        TopExists(offer);
        var a :| a in offer && IsTop(offer, a);
        ghost var txs, used, times := e.txs, e.used, txTime;
        var choice := AddOne(e, offer[a][0], max, clock, i, power, before);
        OfferShrinks(offer, a);
        MoreReadings(asked, i, a);
        match choice {
          case Stop => break;
          case Pop =>
            TakenPop(all, offer, txs, a);
            GreedyPop(txs, offer, a);
            SettledPop(all, offer, txs, a, e.creator, used, power, max, times, txTime, clock, asked, i);
            asked := asked[a := i];
            offer := offer - {a};
          case Add =>
            TakenShift(all, offer, txs, a);
            GreedyAdd(txs, offer, a);
            SettledShift(all, offer, txs, a, e.creator, used, e.used, power, max, times, txTime, clock, asked);
            offer := Shift(offer, a);
        }
        i := i + 1;
      }
    }

    /** The checks on gas that every node makes on an event of the epoch. */
    ghost predicate PassesGasChecks(ctx: Context, e: MutableEvent, parent: Option<Event>)
      requires ctx.Suits(e.Header(), parent)
      reads e
    {
      && e.used <= rules.maxEventGas && e.Declared(rules)
      && WordBalanced(ctx, e.Header(), parent)
    }

    lemma SplitIsBalanced(ctx: Context, e: MutableEvent, parent: Option<Event>, before: Event)
      requires ctx.Suits(before, parent) && before.(used := e.used, left := e.left) == e.Header()
      requires e.Splits(PowersOf(ctx, before, parent))
      ensures WordBalanced(ctx, e.Header(), parent)
    {
      PowersFit(ctx, before, parent, e.used, e.left);
      TrueBalance(ctx, e.Header(), parent);
    }

    /**
     Build the event and add transactions. With any transaction in it the event passes the gas checks. Its creator
     keeps more than the threshold, and pending gas stays within its limit, where the compared sums do not wrap.
     */
    method CreateEvent(ctx: Context, e: MutableEvent, parent: Option<Event>, all: Offer, clock: nat -> int)
      returns (err: Option<BuildError>, ghost asked: map<Address, nat>)
      requires council.Valid() && Proper(all) && e.txs == [] && ctx.Suits(e.Header(), parent)
      modifies this`txTime, e
      ensures err == Some(EpochChanged) <==> ctx.epoch != e.epoch
      ensures err.None? ==> e.Declared(rules) && WordBalanced(ctx, e.Header(), parent) && Clean(e.txs) && Taken(all, map[], e.txs) && Greedy(e.txs)
      ensures err.None? && e.txs != [] ==> PassesGasChecks(ctx, e, parent)
      ensures err.None? ==> UsedBy(rules, e.parents, e.extra, []) <= Least(PowersOf(ctx, old(e.Header()), parent))
      ensures err.None? ==>
        var power := PowersOf(ctx, old(e.Header()), parent);
        var base := UsedBy(rules, e.parents, e.extra, []);
        base < MostGas(e, Rest(power, base)) ==> Complete(all, e, power, MostGas(e, Rest(power, base)), clock, asked)
      ensures err.None? && e.txs != [] ==>
        var left := Rest(PowersOf(ctx, old(e.Header()), parent), UsedBy(rules, e.parents, e.extra, []));
        && !Refrains(e, left)
        && (ReserveSafe(e, left) ==> Least(e.left) > config.noTxsThreshold)
        && (PendingSafe(e, left) ==> pendingGas + e.used < MaxPendingGas())
    {
      ghost var before := e.Header();
      ghost var power := PowersOf(ctx, before, parent);
      err := Build(ctx, rules, e, parent);
      asked := map[];
      if err.None? {
        ghost var left := e.left;
        assert left == Rest(power, e.used);
        ghost var max, readings := AddTxs(e, all, clock, power);
        asked := readings;
        SplitIsBalanced(ctx, e, parent, before);
        if e.txs != [] {
          SafeIff(e, left);
        }
      }
    }
  }

  // ---------------------------------------------------------------- a reserve that is spent

  /** The only validator always has the turn. */
  lemma AloneHasTurn(c: Turns.Council, sender: Address, nonce: nat, epoch: nat, now: int, txTime: int)
    requires c.Valid() && |c.ids| == 1
    ensures Turns.HasTurn(c, sender, nonce, epoch, now, txTime, c.ids[0])
  {
    var seed := c.Seed(sender, nonce, epoch);
    WeightedShuffle.DrawsPermute(c.sha, c.weights, seed);
    var p := WeightedShuffle.Draws(c.sha, c.weights, seed, 1);
    assert p[0] in WeightedShuffle.Drawn(p);
    assert WeightedShuffle.UpTo(1) == {0};
  }

  const HALF: nat := 0x8000_0000_0000_0000
  const LAVISH := Rules(WORD - 1, 0, 0, 0, 0, 0, 0, false, 0)

  /** A transaction that takes half of the word in gas. */
  predicate Costly(tx: Tx) { tx.gas == HALF && !tx.typed }

  lemma LavishLimit(em: TxEmitter, e: MutableEvent)
    requires em.config == Thresholds(HALF, 0) && em.rules == LAVISH && em.validators == [] && em.pendingGas == 0
    ensures var left := [WORD - 4, WORD - 4];
      !em.Refrains(e, left) && em.MostGas(e, left) == WORD - 4 && !em.ReserveSafe(e, left)
  {
    WrapTwice(WORD - 1, 0);
    assert em.MaxPendingGas() == WORD - 1;
  }

  /**
   An event that leaves less than the reserve: the reserve is half of the word, the limit on an event nearly all of
   it, and their sum wraps around.
   */
  method ReserveMayBreak(tx: Tx, council: Turns.Council, clock: nat -> int) returns (em: TxEmitter, e: MutableEvent)
    requires Costly(tx) && council.Valid() && |council.ids| == 1
    ensures e.txs == [tx] && Least(e.left) < em.config.noTxsThreshold
  {
    em, e := Lavish(tx, council);
    var all: Offer := map[tx.sender := [tx]];
    ghost var power: Powers := [WORD - 4, WORD - 4];
    LavishLimit(em, e);
    LavishGas(tx);
    ghost var max, asked := em.AddTxs(e, all, clock, power);
    SoleIsTaken(em, e, tx, power, max, clock, asked);
  }

  method Lavish(tx: Tx, council: Turns.Council) returns (em: TxEmitter, e: MutableEvent)
    requires Costly(tx) && council.Valid() && |council.ids| == 1
    ensures fresh(em) && fresh(e) && em.config == Thresholds(HALF, 0) && em.rules == LAVISH && em.validators == [] && em.pendingGas == 0
    ensures em.council == council && em.softGasPriceLimit == 0 && em.originated(tx.sender) == 0 && em.inPool(tx.hash)
    ensures e.creator == council.ids[0] && e.parents == 0 && e.extra == 0 && e.txs == [] && e.used == 0 && e.left == [WORD - 4, WORD - 4]
  {
    em := new TxEmitter(Thresholds(HALF, 0), LAVISH, council, [], 0, 0, _ => 0, _ => true);
    e := new MutableEvent(0, council.ids[0], false, 0, 0, 0, 0);
    e.used, e.left := 0, [WORD - 4, WORD - 4];
  }

  lemma LavishGas(tx: Tx)
    requires Costly(tx)
    ensures UsedBy(LAVISH, 0, 0, []) == 0 && UsedBy(LAVISH, 0, 0, [tx]) == HALF && LAVISH.Allows(tx)
  {
    assert Overhead(LAVISH, 0, 0) == 0;
    assert [] + [tx] == [tx];
    UsedByMore(LAVISH, 0, 0, [], tx);
  }

  /** Nor does pending gas stay within its limit where it is itself close to the word. */
  lemma PendingMayBreak(em: TxEmitter, e: MutableEvent)
    requires em.config == Thresholds(0, 0) && em.rules == LAVISH && em.validators == [] && em.pendingGas == WORD - 3
    ensures var left := [WORD - 4, WORD - 4];
      !em.Refrains(e, left) && !em.PendingSafe(e, left) && em.pendingGas + em.MostGas(e, left) > em.MaxPendingGas()
  {
    WrapTwice(WORD - 1, 0);
    assert em.MaxPendingGas() == WORD - 1;
    em.SafeIff(e, [WORD - 4, WORD - 4]);
  }

  lemma SoleIsTaken(em: TxEmitter, e: MutableEvent, tx: Tx, power: Powers, max: nat, clock: nat -> int, asked: map<Address, nat>)
    requires em.council.Valid() && |em.council.ids| == 1 && e.creator == em.council.ids[0]
    requires em.rules.Allows(tx) && em.softGasPriceLimit <= tx.gasPrice && em.originated(tx.sender) == 0 && em.inPool(tx.hash)
    requires Taken(map[tx.sender := [tx]], map[], e.txs) && em.Complete(map[tx.sender := [tx]], e, power, max, clock, asked)
    requires e.txs == [] ==> Room(power, e.used, tx.gas, max) && Room(power, e.used, TX_GAS, max)
    ensures e.txs == [tx]
  {
    var all: Offer := map[tx.sender := [tx]];
    if e.txs == [] {
      assert tx.sender in all && |Of(e.txs, tx.sender)| < |all[tx.sender]|;
      AloneHasTurn(em.council, tx.sender, tx.nonce, em.epoch, clock(asked[tx.sender]), em.txTime[tx.hash]);
    }
    OnlyFrom(e.txs, all, tx);
  }

  /** With one transaction offered, there is at most that one. */
  lemma {:induction false} OnlyFrom(txs: seq<Tx>, all: Offer, tx: Tx)
    requires all == map[tx.sender := [tx]] && Taken(all, map[], txs)
    ensures txs == [] || txs == [tx]
  {
    forall i | 0 <= i < |txs| ensures txs[i].sender == tx.sender {
      HasOwn(txs, i);
    }
    OfAll(txs, tx.sender);
  }

  lemma {:induction false} HasOwn(txs: seq<Tx>, i: nat)
    requires i < |txs|
    ensures Of(txs, txs[i].sender) != []
  {
    if i < |txs| - 1 {
      HasOwn(txs[..|txs| - 1], i);
    }
  }

  lemma {:induction false} OfAll(txs: seq<Tx>, a: Address)
    requires forall i :: 0 <= i < |txs| ==> txs[i].sender == a
    ensures Of(txs, a) == txs
  {
    if txs != [] {
      OfAll(txs[..|txs| - 1], a);
    }
  }
}
