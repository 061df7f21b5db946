/** Whose turn it is to originate a transaction: validators take rounds in the order of a weighted permutation. */
module TxTurns {
  import opened Transactions
  import opened Bits
  import opened WeightedShuffle

  // in nanoseconds
  const TX_TURN_PERIOD: nat := 8_000_000_000
  const TX_TURN_LATENCY: nat := 1_000_000_000
  const TX_TURN_NONCES: nat := 32

  /** Rounds that have passed since the transaction was first seen. */
  function Rounds(now: int, txTime: int): nat {
    (if now < txTime then 0 else now - txTime) / TX_TURN_PERIOD
  }

  function RoundIndex(now: int, txTime: int, n: nat): nat
    requires n > 0
  {
    Rounds(now, txTime) % n
  }

  /** The validators of an epoch, sorted, and how seeds and permutations are made. */
  datatype Council = Council(ids: seq<nat>, weights: seq<nat>, sha: seq<Byte> -> seq<Byte>, seedOf: (Address, nat, nat) -> seq<Byte>) {
    ghost predicate Valid() {
      && |ids| == |weights| > 0 && NoRepeats(ids) && Positive(weights) && Total(weights, {}, 0) < 0x1_0000_0000
      && IsHash(sha) && forall a, k, e :: |seedOf(a, k, e)| == 32
    }

    /** The seed is shared by the nonces of a group, an account and an epoch. */
    function Seed(sender: Address, nonce: nat, epoch: nat): seq<Byte> {
      seedOf(sender, nonce / TX_TURN_NONCES, epoch)
    }

    /** Who is scheduled in a round. */
    ghost function Scheduled(sender: Address, nonce: nat, epoch: nat, round: nat): nat
      requires Valid()
    {
      ids[Draws(sha, weights, Seed(sender, nonce, epoch), |ids|)[round % |ids|]]
    }
  }

  /** It is my turn in the current round, and still will be after the latency. */
  method IsMyTxTurn(c: Council, sender: Address, nonce: nat, epoch: nat, now: int, txTime: int, me: nat) returns (turn: bool)
    requires c.Valid()
    ensures turn <==> HasTurn(c, sender, nonce, epoch, now, txTime, me)
  {
    var n := |c.ids|;
    var round := RoundIndex(now, txTime, n);
    if round != RoundIndex(now + TX_TURN_LATENCY, txTime, n) {
      return false;
    }
    var seed := c.Seed(sender, nonce, epoch);
    var rounds := WeightedPermutation(c.sha, round + 1, c.weights, seed);
    DrawsPrefix(c.sha, c.weights, seed, round + 1, n);
    SameRound(Rounds(now, txTime), n);
    turn := c.ids[rounds.value[round]] == me;
  }

  ghost predicate HasTurn(c: Council, sender: Address, nonce: nat, epoch: nat, now: int, txTime: int, me: nat)
    requires c.Valid()
  {
    && RoundIndex(now, txTime, |c.ids|) == RoundIndex(now + TX_TURN_LATENCY, txTime, |c.ids|)
    && c.Scheduled(sender, nonce, epoch, Rounds(now, txTime)) == me
  }

  lemma SameRound(k: nat, n: nat)
    requires n > 0
    ensures (k % n) % n == k % n
  {
  }

  /** In any `n` consecutive rounds every one of the `n` validators is scheduled exactly once. */
  lemma EveryoneOnce(c: Council, sender: Address, nonce: nat, epoch: nat, first: nat, v: nat) returns (round: nat)
    requires c.Valid() && v < |c.ids|
    ensures first <= round < first + |c.ids| && c.Scheduled(sender, nonce, epoch, round) == c.ids[v]
    ensures forall other: nat :: first <= other < first + |c.ids| && c.Scheduled(sender, nonce, epoch, other) == c.ids[v] ==> other == round
  {
    var n, seed := |c.ids|, c.Seed(sender, nonce, epoch);
    var p := Draws(c.sha, c.weights, seed, n);
    DrawsPermute(c.sha, c.weights, seed);
    assert v in UpTo(n);
    assert v in p;
    var k: nat :| k < n && p[k] == v;
    round := RoundWithIndex(first, n, k);
    forall other: nat | first <= other < first + n && c.Scheduled(sender, nonce, epoch, other) == c.ids[v] ensures other == round {
      assert p[other % n] == v;
      OneRound(first, n, other, round);
    }
  }

  lemma RoundWithIndex(first: nat, n: nat, k: nat) returns (round: nat)
    requires n > 0 && k < n
    ensures first <= round < first + n && round % n == k
  {
    round := RoundFrom(first, n, k, first / n, first % n);
  }

  lemma RoundFrom(first: nat, n: nat, k: nat, q: nat, r: nat) returns (round: nat)
    requires n > 0 && k < n && r < n && first == q * n + r
    ensures first <= round < first + n && round % n == k
  {
    if k >= r {
      round := first - r + k;
      Quotient(round, n, q, k);
    } else {
      round := first - r + n + k;
      assert (q + 1) * n == q * n + n;
      Quotient(round, n, q + 1, k);
    }
  }

  lemma Multiple(d: int, n: int)
    requires n > 0
    ensures d > 0 ==> d * n >= n
    ensures d < 0 ==> d * n <= -n
  {
    assert (d - 1) * n == d * n - n && (d + 1) * n == d * n + n;
    if d > 0 {
      NotNegative(d - 1, n);
    } else if d < 0 {
      NotNegative(-d - 1, n);
      assert (-d - 1) * n == -(d * n) - n;
    }
  }

  lemma NotNegative(a: nat, b: nat)
    ensures a * b >= 0
  {
  }

  lemma Quotient(v: nat, n: nat, m: nat, k: nat)
    requires n > 0 && k < n && v == m * n + k
    ensures v % n == k && v / n == m
  {
    var d := v / n - m;
    assert v == (v / n) * n + v % n;
    assert d * n == k - v % n;
    Multiple(d, n);
  }

  lemma OneRound(first: nat, n: nat, a: nat, b: nat)
    requires n > 0 && first <= a < first + n && first <= b < first + n && a % n == b % n
    ensures a == b
  {
    var d := a / n - b / n;
    assert a == (a / n) * n + a % n && b == (b / n) * n + b % n;
    assert a - b == d * n;
    Multiple(d, n);
  }

  /** Two validators whose clocks differ by no more than the latency never both have the turn. */
  lemma OneTurn(c: Council, sender: Address, nonce: nat, epoch: nat, now: int, now': int, txTime: int, a: nat, b: nat)
    requires c.Valid() && now <= now' <= now + TX_TURN_LATENCY
    requires HasTurn(c, sender, nonce, epoch, now, txTime, a) && HasTurn(c, sender, nonce, epoch, now', txTime, b)
    ensures a == b
  {
    var n := |c.ids|;
    var k, k', k'' := Rounds(now, txTime), Rounds(now', txTime), Rounds(now + TX_TURN_LATENCY, txTime);
    assert k <= k' <= k'' <= k + 1;
    if k'' == k + 1 {
      Neighbours(k, n);
    }
    assert n == 1 || k == k';
  }

  lemma Neighbours(k: nat, n: nat)
    requires n > 0
    ensures n > 1 ==> k % n != (k + 1) % n
    ensures n == 1 ==> k % n == 0
  {
    if n > 1 {
      Quotient(k, n, k / n, k % n);
      if k % n + 1 < n {
        Quotient(k + 1, n, k / n, k % n + 1);
      } else {
        assert k + 1 == (k / n + 1) * n + 0;
        Quotient(k + 1, n, k / n + 1, 0);
      }
    }
  }

  /** Nonces of a group of 32 share their order of validators. */
  lemma GroupShares(c: Council, sender: Address, nonce: nat, other: nat, epoch: nat, round: nat)
    requires c.Valid() && nonce / 32 == other / 32
    ensures c.Scheduled(sender, nonce, epoch, round) == c.Scheduled(sender, other, epoch, round)
  {
  }

  /** Whoever is scheduled in a round has the turn in all but its last second. */
  lemma TurnLasts(c: Council, sender: Address, nonce: nat, epoch: nat, txTime: int, round: nat, late: nat)
    requires c.Valid() && late < TX_TURN_PERIOD - TX_TURN_LATENCY
    ensures HasTurn(c, sender, nonce, epoch, txTime + round * TX_TURN_PERIOD + late, txTime, c.Scheduled(sender, nonce, epoch, round))
  {
    InRound(round, late);
    InRound(round, late + TX_TURN_LATENCY);
  }

  lemma InRound(round: nat, late: nat)
    requires late < TX_TURN_PERIOD
    ensures (round * TX_TURN_PERIOD + late) / TX_TURN_PERIOD == round
  {
    Quotient(round * TX_TURN_PERIOD + late, TX_TURN_PERIOD, round, late);
  }

  /** Every validator gets the turn within as many periods as there are validators, from any round on. */
  lemma TurnComes(c: Council, sender: Address, nonce: nat, epoch: nat, txTime: int, first: nat, v: nat) returns (now: int)
    requires c.Valid() && v < |c.ids|
    ensures txTime + first * TX_TURN_PERIOD <= now < txTime + (first + |c.ids|) * TX_TURN_PERIOD
    ensures HasTurn(c, sender, nonce, epoch, now, txTime, c.ids[v])
  {
    var round := EveryoneOnce(c, sender, nonce, epoch, first, v);
    now := txTime + round * TX_TURN_PERIOD + 0;
    TurnLasts(c, sender, nonce, epoch, txTime, round, 0);
  }
}
