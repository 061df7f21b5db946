/**
 The weighted shuffle: an implicit binary tree over the weights, each node with the weight
 left in itself and in its two subtrees, from which entries are drawn without replacement.
 */
module WeightedShuffle {
  import opened Basics
  import opened Transactions
  import opened Bits
  import opened Cser

  /** The seed bytes not used yet; `sha` is the hash that renews them. */
  datatype Rng = Rng(seed: seq<Byte>, at: nat) {
    ghost predicate Valid() { |seed| == 32 && at in {0, 4, 8, 12, 16, 20, 24, 28, 32} }

    function Renew(sha: seq<Byte> -> seq<Byte>): Rng {
      if at == 32 then Rng(sha(seed), 0) else this
    }
  }

  ghost predicate IsHash(sha: seq<Byte> -> seq<Byte>) { forall b :: |sha(b)| == 32 }

  /** The next 32 random bits. */
  ghost function Next(sha: seq<Byte> -> seq<Byte>, g: Rng): (r: (nat, Rng))
    requires IsHash(sha) && g.Valid()
    ensures r.1.Valid()
  {
    var h := g.Renew(sha);
    (FromLittleEndian(h.seed[h.at..h.at + 4]), Rng(h.seed, h.at + 4))
  }

  // -------- remaining weights --------

  function LeftIndex(i: nat): nat { i * 2 + 1 }

  function RightIndex(i: nat): nat { i * 2 + 2 }

  /** What entry `j` still weighs once the entries in `gone` were drawn. */
  ghost function Left(ws: seq<nat>, gone: set<nat>, j: nat): nat {
    if j < |ws| && j !in gone then ws[j] else 0
  }

  /** What the subtree at `i` still weighs. */
  ghost function Total(ws: seq<nat>, gone: set<nat>, i: nat): nat
    decreases |ws| - i
  {
    if i >= |ws| then 0 else Left(ws, gone, i) + Total(ws, gone, LeftIndex(i)) + Total(ws, gone, RightIndex(i))
  }

  /** Entry `j` lies in the subtree at `i`. */
  ghost predicate Under(i: nat, j: nat)
    decreases j
  {
    j == i || (j > i && Under(i, (j - 1) / 2))
  }

  lemma {:induction false} UnderChildren(i: nat, j: nat)
    ensures Under(i, j) <==> j == i || Under(LeftIndex(i), j) || Under(RightIndex(i), j)
    ensures !(Under(LeftIndex(i), j) && Under(RightIndex(i), j))
    ensures Under(LeftIndex(i), j) || Under(RightIndex(i), j) ==> j > i
    decreases j
  {
    if j > i {
      UnderChildren(i, (j - 1) / 2);
    }
  }

  /** A subtree is its root and the two subtrees below, which do not overlap. */
  lemma Family(i: nat)
    ensures forall j: nat :: Under(i, j) <==> j == i || Under(LeftIndex(i), j) || Under(RightIndex(i), j)
    ensures forall j: nat :: Under(LeftIndex(i), j) ==> !Under(RightIndex(i), j)
    ensures !Under(LeftIndex(i), i) && !Under(RightIndex(i), i)
  {
    forall j: nat
      ensures Under(i, j) <==> j == i || Under(LeftIndex(i), j) || Under(RightIndex(i), j)
      ensures !(Under(LeftIndex(i), j) && Under(RightIndex(i), j))
    {
      UnderChildren(i, j);
    }
    UnderChildren(i, i);
  }

  lemma {:induction false} AllUnderRoot(j: nat)
    ensures Under(0, j)
    decreases j
  {
    if j > 0 {
      AllUnderRoot((j - 1) / 2);
    }
  }

  /** Drawing `c` takes its weight from exactly the subtrees that hold it. */
  lemma {:induction false} TotalAfter(ws: seq<nat>, gone: set<nat>, i: nat, c: nat)
    requires c < |ws| && c !in gone
    ensures Under(i, c) ==> ws[c] <= Total(ws, gone, i) && Total(ws, gone + {c}, i) == Total(ws, gone, i) - ws[c]
    ensures !Under(i, c) ==> Total(ws, gone + {c}, i) == Total(ws, gone, i)
    decreases |ws| - i
  {
    if i < |ws| {
      TotalAfter(ws, gone, LeftIndex(i), c);
      TotalAfter(ws, gone, RightIndex(i), c);
      UnderChildren(i, c);
    }
  }

  ghost predicate Positive(ws: seq<nat>) { forall j :: 0 <= j < |ws| ==> ws[j] > 0 }

  /** Something is left as long as not everything was drawn. */
  lemma {:induction false} SomethingLeft(ws: seq<nat>, gone: set<nat>, c: nat)
    requires Positive(ws) && c < |ws| && c !in gone
    ensures Total(ws, gone, 0) > 0
  {
    AllUnderRoot(c);
    TotalAfter(ws, gone, 0, c);
  }

  // -------- drawing --------

  /** The entry drawn from the subtree at `i`. */
  ghost function Pick(sha: seq<Byte> -> seq<Byte>, ws: seq<nat>, gone: set<nat>, i: nat, g: Rng): (r: (nat, Rng))
    requires IsHash(sha) && g.Valid() && Total(ws, gone, i) > 0
    ensures r.1.Valid() && r.0 < |ws| && r.0 !in gone && Under(i, r.0)
    decreases |ws| - i
  {
    var (word, h) := Next(sha, g);
    var r := word % Total(ws, gone, i);
    UnderChildren(i, i);
    assert forall j :: Under(LeftIndex(i), j) || Under(RightIndex(i), j) ==> Under(i, j) by {
      forall j: nat | Under(LeftIndex(i), j) || Under(RightIndex(i), j) ensures Under(i, j) { UnderChildren(i, j); }
    }
    if r < Left(ws, gone, i) then (i, h)
    else if r < Left(ws, gone, i) + Total(ws, gone, LeftIndex(i)) then Pick(sha, ws, gone, LeftIndex(i), h)
    else Pick(sha, ws, gone, RightIndex(i), h)
  }

  // -------- words --------

  /** The generator after `n` words. */
  ghost function Skip(sha: seq<Byte> -> seq<Byte>, g: Rng, n: nat): (h: Rng)
    requires IsHash(sha) && g.Valid()
    ensures h.Valid()
  {
    if n == 0 then g else Next(sha, Skip(sha, g, n - 1)).1
  }

  ghost function Hashed(sha: seq<Byte> -> seq<Byte>, seed: seq<Byte>, n: nat): (s: seq<Byte>)
    requires IsHash(sha) && |seed| == 32
    ensures |s| == 32
  {
    if n == 0 then seed else sha(Hashed(sha, seed, n - 1))
  }

  lemma {:induction false} SkipIs(sha: seq<Byte> -> seq<Byte>, seed: seq<Byte>, q: nat, r: nat)
    requires IsHash(sha) && |seed| == 32 && r <= 8 && (r == 0 ==> q == 0)
    ensures Skip(sha, Rng(seed, 0), 8 * q + r) == Rng(Hashed(sha, seed, q), 4 * r)
    decreases q, r
  {
    if r == 1 && q > 0 {
      SkipIs(sha, seed, q - 1, 8);
    } else if r > 0 {
      SkipIs(sha, seed, q, r - 1);
    }
  }

  function Word(a: int, b: int, c: int, d: int): int { a + 0x100 * b + 0x1_0000 * c + 0x100_0000 * d }

  /** The words of a seed are its eight pieces of four bytes, lowest byte first, then those of its hash, and so on. */
  lemma WordsOfSeed(sha: seq<Byte> -> seq<Byte>, seed: seq<Byte>, n: nat)
    requires IsHash(sha) && |seed| == 32
    ensures var s, k := Hashed(sha, seed, n / 8), n % 8;
      Next(sha, Skip(sha, Rng(seed, 0), n)).0 == Word(s[4 * k], s[4 * k + 1], s[4 * k + 2], s[4 * k + 3])
  {
    NthWord(sha, seed, n / 8, n % 8);
  }

  lemma NthWord(sha: seq<Byte> -> seq<Byte>, seed: seq<Byte>, q: nat, k: nat)
    requires IsHash(sha) && |seed| == 32 && k < 8
    ensures var s := Hashed(sha, seed, q);
      Next(sha, Skip(sha, Rng(seed, 0), 8 * q + k)).0 == Word(s[4 * k], s[4 * k + 1], s[4 * k + 2], s[4 * k + 3])
  {
    if k == 0 && q > 0 {
      SkipIs(sha, seed, q - 1, 8);
    } else {
      SkipIs(sha, seed, q, k);
    }
    var s := Hashed(sha, seed, q);
    FourBytes(s[4 * k..4 * k + 4]);
  }

  lemma FourBytes(b: seq<Byte>)
    requires |b| == 4
    ensures FromLittleEndian(b) == Word(b[0], b[1], b[2], b[3])
  {
    assert FromLittleEndian(b[1..]) == b[1] + 256 * FromLittleEndian(b[1..][1..]);
    assert b[1..][1..] == b[2..];
    assert FromLittleEndian(b[2..]) == b[2] + 256 * FromLittleEndian(b[2..][1..]);
    assert b[2..][1..] == b[3..];
    assert FromLittleEndian(b[3..]) == b[3] + 256 * FromLittleEndian(b[3..][1..]);
  }

  /** Levels between a node and an entry below it. */
  ghost function Depth(i: nat, j: nat): nat
    requires Under(i, j)
    decreases j
  {
    if j == i then 0 else Depth(i, (j - 1) / 2) + 1
  }

  lemma {:induction false} DepthBelow(i: nat, child: nat, j: nat)
    requires (child == LeftIndex(i) || child == RightIndex(i)) && Under(child, j)
    ensures Under(i, j) && Depth(i, j) == Depth(child, j) + 1
    decreases j
  {
    UnderChildren(i, j);
    if j != child {
      DepthBelow(i, child, (j - 1) / 2);
    }
  }

  lemma {:induction false} SkipOn(sha: seq<Byte> -> seq<Byte>, g: Rng, n: nat)
    requires IsHash(sha) && g.Valid()
    ensures Skip(sha, Next(sha, g).1, n) == Skip(sha, g, n + 1)
  {
    if n > 0 {
      SkipOn(sha, g, n - 1);
    } else {
      assert Skip(sha, g, 0) == g;
    }
  }

  /** A draw uses one word for every level it goes down, and one to stay. */
  lemma {:induction false} PickUses(sha: seq<Byte> -> seq<Byte>, ws: seq<nat>, gone: set<nat>, i: nat, g: Rng)
    requires IsHash(sha) && g.Valid() && Total(ws, gone, i) > 0
    ensures Pick(sha, ws, gone, i, g).1 == Skip(sha, g, Words(i, Pick(sha, ws, gone, i, g).0))
    decreases |ws| - i
  {
    var (c, after) := Pick(sha, ws, gone, i, g);
    if c == i {
      StaysHere(sha, ws, gone, i, g);
    } else {
      var child := GoesDown(sha, ws, gone, i, g);
      PickUses(sha, ws, gone, child, Next(sha, g).1);
      WordsBelow(i, child, c);
      SkipNext(sha, g, Words(child, c), Words(i, c));
    }
  }

  /** The words used to go to an entry: one for every level, and one to stay. */
  ghost function Words(i: nat, c: nat): nat
    requires Under(i, c)
  {
    Depth(i, c) + 1
  }

  lemma WordsBelow(i: nat, child: nat, c: nat)
    requires (child == LeftIndex(i) || child == RightIndex(i)) && Under(child, c)
    ensures Under(i, c) && Words(i, c) == Words(child, c) + 1
  {
    DepthBelow(i, child, c);
  }

  lemma SkipNext(sha: seq<Byte> -> seq<Byte>, g: Rng, n: nat, m: nat)
    requires IsHash(sha) && g.Valid() && m == n + 1
    ensures Skip(sha, Next(sha, g).1, n) == Skip(sha, g, m)
  {
    SkipOn(sha, g, n);
  }

  lemma StaysHere(sha: seq<Byte> -> seq<Byte>, ws: seq<nat>, gone: set<nat>, i: nat, g: Rng)
    requires IsHash(sha) && g.Valid() && Total(ws, gone, i) > 0 && Pick(sha, ws, gone, i, g).0 == i
    ensures Pick(sha, ws, gone, i, g).1 == Skip(sha, g, 1)
  {
    UnderChildren(i, i);
    assert Skip(sha, g, 0) == g;
  }

  lemma GoesDown(sha: seq<Byte> -> seq<Byte>, ws: seq<nat>, gone: set<nat>, i: nat, g: Rng) returns (child: nat)
    requires IsHash(sha) && g.Valid() && Total(ws, gone, i) > 0 && Pick(sha, ws, gone, i, g).0 != i
    ensures (child == LeftIndex(i) || child == RightIndex(i)) && Total(ws, gone, child) > 0
    ensures Pick(sha, ws, gone, i, g) == Pick(sha, ws, gone, child, Next(sha, g).1)
  {
    var r := Next(sha, g).0 % Total(ws, gone, i);
    child := if r < Left(ws, gone, i) + Total(ws, gone, LeftIndex(i)) then LeftIndex(i) else RightIndex(i);
  }

  // -------- shares --------

  /** A generator whose next word is `v`. */
  ghost predicate Says(sha: seq<Byte> -> seq<Byte>, g: Rng, v: nat)
    requires IsHash(sha)
  {
    g.Valid() && Next(sha, g).0 == v
  }

  /** Every word can come next, whatever follows it. */
  lemma WordCanCome(sha: seq<Byte> -> seq<Byte>, v: nat, rest: seq<Byte>) returns (g: Rng)
    requires IsHash(sha) && v < 0x1_0000_0000 && |rest| == 28
    ensures Says(sha, g, v) && Next(sha, g).1 == Rng(g.seed, 4) && g.seed[4..] == rest
  {
    LittleEndianRound(v, 4);
    FourthPower();
    LittleEndianSize(v, 4, 4);
    g := Rng(LittleEndian(v, 4) + rest, 0);
    assert g.seed[0..4] == LittleEndian(v, 4);
  }

  lemma FourthPower()
    ensures Pow256(4) == 0x1_0000_0000
  {
    assert Pow256(1) == 256;
    assert Pow256(3) == 256 * Pow256(2);
  }

  /** The numbers `v` below the weight of a subtree for which a draw with next word `v` ends in `place`. */
  ghost function Sends(sha: seq<Byte> -> seq<Byte>, ws: seq<nat>, gone: set<nat>, i: nat, place: set<nat>): set<nat>
    requires IsHash(sha) && Total(ws, gone, i) > 0
  {
    set v: nat | v < Total(ws, gone, i) && SentTo(sha, ws, gone, i, v, place)
  }

  ghost predicate SentTo(sha: seq<Byte> -> seq<Byte>, ws: seq<nat>, gone: set<nat>, i: nat, v: nat, place: set<nat>)
    requires IsHash(sha) && Total(ws, gone, i) > 0
  {
    forall g :: Says(sha, g, v) ==> Pick(sha, ws, gone, i, g).0 in place
  }

  /** The entries below a node. */
  ghost function Below(n: nat, i: nat): set<nat> { set j | j in UpTo(n) && Under(i, j) }

  lemma {:induction false} Numbers(s: set<nat>, lo: nat, hi: nat)
    requires lo <= hi && forall v :: v in s <==> lo <= v < hi
    ensures |s| == hi - lo
    decreases hi - lo
  {
    if lo == hi {
      assert s == {};
    } else {
      Numbers(s - {lo}, lo + 1, hi);
    }
  }

  lemma WhereTo(sha: seq<Byte> -> seq<Byte>, ws: seq<nat>, gone: set<nat>, i: nat, g: Rng, v: nat)
    requires IsHash(sha) && Total(ws, gone, i) > 0 && Says(sha, g, v) && v < Total(ws, gone, i)
    ensures var c := Pick(sha, ws, gone, i, g).0;
      && c < |ws|
      && (c == i <==> v < Left(ws, gone, i))
      && (Under(LeftIndex(i), c) <==> Left(ws, gone, i) <= v < Left(ws, gone, i) + Total(ws, gone, LeftIndex(i)))
      && (Under(RightIndex(i), c) <==> Left(ws, gone, i) + Total(ws, gone, LeftIndex(i)) <= v)
  {
    Remainder(v, Total(ws, gone, i));
    var c := Pick(sha, ws, gone, i, g).0;
    UnderChildren(i, i);
    UnderChildren(i, c);
    if v >= Left(ws, gone, i) {
      var child := if v < Left(ws, gone, i) + Total(ws, gone, LeftIndex(i)) then LeftIndex(i) else RightIndex(i);
      assert c == Pick(sha, ws, gone, child, Next(sha, g).1).0;
    }
  }

  lemma Remainder(v: nat, n: nat)
    requires v < n
    ensures v % n == v
  {
  }

  /**
   The share law at a node: of the numbers below its weight exactly as many stay as its entry weighs, exactly as many
   go left as the left subtree weighs, and right as the right one weighs; the words that follow have no say in it.
   */
  lemma NodeShares(sha: seq<Byte> -> seq<Byte>, ws: seq<nat>, gone: set<nat>, i: nat)
    requires IsHash(sha) && 0 < Total(ws, gone, i) < 0x1_0000_0000
    ensures |Sends(sha, ws, gone, i, {i})| == Left(ws, gone, i)
    ensures |Sends(sha, ws, gone, i, Below(|ws|, LeftIndex(i)))| == Total(ws, gone, LeftIndex(i))
    ensures |Sends(sha, ws, gone, i, Below(|ws|, RightIndex(i)))| == Total(ws, gone, RightIndex(i))
  {
    var own, left, total := Left(ws, gone, i), Total(ws, gone, LeftIndex(i)), Total(ws, gone, i);
    forall v: nat | v < total
      ensures v in Sends(sha, ws, gone, i, {i}) <==> v < own
      ensures v in Sends(sha, ws, gone, i, Below(|ws|, LeftIndex(i))) <==> own <= v < own + left
      ensures v in Sends(sha, ws, gone, i, Below(|ws|, RightIndex(i))) <==> own + left <= v
    {
      SentWhere(sha, ws, gone, i, v);
    }
    Numbers(Sends(sha, ws, gone, i, {i}), 0, own);
    Numbers(Sends(sha, ws, gone, i, Below(|ws|, LeftIndex(i))), own, own + left);
    Numbers(Sends(sha, ws, gone, i, Below(|ws|, RightIndex(i))), own + left, total);
  }

  lemma SentWhere(sha: seq<Byte> -> seq<Byte>, ws: seq<nat>, gone: set<nat>, i: nat, v: nat)
    requires IsHash(sha) && v < Total(ws, gone, i) < 0x1_0000_0000
    ensures SentTo(sha, ws, gone, i, v, {i}) <==> v < Left(ws, gone, i)
    ensures SentTo(sha, ws, gone, i, v, Below(|ws|, LeftIndex(i))) <==> Left(ws, gone, i) <= v < Left(ws, gone, i) + Total(ws, gone, LeftIndex(i))
    ensures SentTo(sha, ws, gone, i, v, Below(|ws|, RightIndex(i))) <==> Left(ws, gone, i) + Total(ws, gone, LeftIndex(i)) <= v
  {
    var g := WordCanCome(sha, v, seq(28, _ => 0));
    forall g | Says(sha, g, v)
      ensures var c := Pick(sha, ws, gone, i, g).0;
        && (c in {i} <==> v < Left(ws, gone, i))
        && (c in Below(|ws|, LeftIndex(i)) <==> Left(ws, gone, i) <= v < Left(ws, gone, i) + Total(ws, gone, LeftIndex(i)))
        && (c in Below(|ws|, RightIndex(i)) <==> Left(ws, gone, i) + Total(ws, gone, LeftIndex(i)) <= v)
    {
      WhereTo(sha, ws, gone, i, g, v);
    }
  }

  ghost function Towards(i: nat, c: nat): nat { if Under(LeftIndex(i), c) then LeftIndex(i) else RightIndex(i) }

  /** In how many ways the numbers on the path to an entry, each below the weight of its node, can be chosen. */
  ghost function AllWays(ws: seq<nat>, gone: set<nat>, i: nat, c: nat): nat
    requires c < |ws| && Under(i, c)
    decreases |ws| - i
  {
    UnderChildren(i, c);
    Total(ws, gone, i) * if c == i then 1 else AllWays(ws, gone, Towards(i, c), c)
  }

  /** In how many of them the draw goes all the way to the entry. */
  ghost function WaysTo(sha: seq<Byte> -> seq<Byte>, ws: seq<nat>, gone: set<nat>, i: nat, c: nat): nat
    requires IsHash(sha) && c < |ws| && c !in gone && ws[c] > 0 && Under(i, c)
    decreases |ws| - i
  {
    TotalAfter(ws, gone, i, c);
    UnderChildren(i, c);
    if c == i then |Sends(sha, ws, gone, i, {i})|
    else |Sends(sha, ws, gone, i, Below(|ws|, Towards(i, c)))| * WaysTo(sha, ws, gone, Towards(i, c), c)
  }

  /** Along the whole path an entry is drawn in as large a share of the ways as its weight has in the weight of all that is left. */
  lemma {:induction false} DrawnByWeight(sha: seq<Byte> -> seq<Byte>, ws: seq<nat>, gone: set<nat>, i: nat, c: nat)
    requires IsHash(sha) && c < |ws| && c !in gone && ws[c] > 0 && Under(i, c) && Total(ws, {}, 0) < 0x1_0000_0000
    ensures WaysTo(sha, ws, gone, i, c) * Total(ws, gone, i) == ws[c] * AllWays(ws, gone, i, c)
    decreases |ws| - i
  {
    TotalAfter(ws, gone, i, c);
    TotalBound(ws, gone, i);
    NodeShares(sha, ws, gone, i);
    UnderChildren(i, c);
    if c != i {
      var child := Towards(i, c);
      DrawnByWeight(sha, ws, gone, child, c);
      Telescope(Total(ws, gone, i), Total(ws, gone, child), ws[c], WaysTo(sha, ws, gone, child, c), AllWays(ws, gone, child, c));
    }
  }

  lemma Telescope(total: nat, part: nat, w: nat, ways: nat, all: nat)
    requires ways * part == w * all
    ensures (part * ways) * total == w * (total * all)
  {
    assert (part * ways) * total == (ways * part) * total;
    assert (w * all) * total == w * (all * total);
    assert all * total == total * all;
  }

  ghost function Drawn(p: seq<nat>): set<nat> { set j | j in p }

  /** Entries drawn one after the other until there are `k`. */
  ghost function DrawOn(sha: seq<Byte> -> seq<Byte>, ws: seq<nat>, p: seq<nat>, g: Rng, k: nat): (r: seq<nat>)
    requires IsHash(sha) && g.Valid() && Positive(ws) && |p| <= k <= |ws| && Distinct(p, |ws|)
    ensures |r| == k && Distinct(r, |ws|) && r[..|p|] == p
    decreases k - |p|
  {
    if |p| == k then p else
    OneLeft(ws, p);
    var (c, h) := Pick(sha, ws, Drawn(p), 0, g);
    DrawOn(sha, ws, p + [c], h, k)
  }

  /** The first `k` entries drawn with a seed. */
  ghost function Draws(sha: seq<Byte> -> seq<Byte>, ws: seq<nat>, seed: seq<Byte>, k: nat): (r: seq<nat>)
    requires IsHash(sha) && |seed| == 32 && Positive(ws) && k <= |ws|
    ensures |r| == k && Distinct(r, |ws|)
  {
    DrawOn(sha, ws, [], Rng(seed, 0), k)
  }

  ghost predicate Distinct(p: seq<nat>, n: nat) {
    NoRepeats(p) && forall j :: 0 <= j < |p| ==> p[j] < n
  }

  ghost predicate NoRepeats(p: seq<nat>) { forall i, j :: 0 <= i < j < |p| ==> p[i] != p[j] }

  lemma OneLeft(ws: seq<nat>, p: seq<nat>)
    requires Positive(ws) && |p| < |ws|
    ensures Total(ws, Drawn(p), 0) > 0
  {
    FewDrawn(p);
    if UpTo(|ws|) <= Drawn(p) {
      SubsetSize(UpTo(|ws|), Drawn(p));
    }
    var c :| c in UpTo(|ws|) && c !in Drawn(p);
    SomethingLeft(ws, Drawn(p), c);
  }

  lemma {:induction false} FewDrawn(p: seq<nat>)
    ensures |Drawn(p)| <= |p|
  {
    if p != [] {
      var q, x := p[..|p| - 1], p[|p| - 1];
      FewDrawn(q);
      assert Drawn(p) == Drawn(q) + {x};
    }
  }

  ghost function UpTo(n: nat): (s: set<nat>)
    ensures |s| == n && forall j :: j in s <==> 0 <= j < n
  {
    if n == 0 then {} else UpTo(n - 1) + {n - 1}
  }

  lemma {:induction false} DrawOnPrefix(sha: seq<Byte> -> seq<Byte>, ws: seq<nat>, p: seq<nat>, g: Rng, k: nat, n: nat)
    requires IsHash(sha) && g.Valid() && Positive(ws) && |p| <= k <= n <= |ws| && Distinct(p, |ws|)
    ensures DrawOn(sha, ws, p, g, k) == DrawOn(sha, ws, p, g, n)[..k]
    decreases k - |p|
  {
    if |p| < k {
      OneLeft(ws, p);
      var (c, h) := Pick(sha, ws, Drawn(p), 0, g);
      DrawOnPrefix(sha, ws, p + [c], h, k, n);
    }
  }

  /** Fewer draws are the first of more draws. */
  lemma DrawsPrefix(sha: seq<Byte> -> seq<Byte>, ws: seq<nat>, seed: seq<Byte>, k: nat, n: nat)
    requires IsHash(sha) && |seed| == 32 && Positive(ws) && k <= n <= |ws|
    ensures Draws(sha, ws, seed, k) == Draws(sha, ws, seed, n)[..k]
  {
    DrawOnPrefix(sha, ws, [], Rng(seed, 0), k, n);
  }

  lemma {:induction false} SkipAdd(sha: seq<Byte> -> seq<Byte>, g: Rng, a: nat, b: nat)
    requires IsHash(sha) && g.Valid()
    ensures Skip(sha, Skip(sha, g, a), b) == Skip(sha, g, a + b)
    decreases b
  {
    if b > 0 {
      SkipAdd(sha, g, a, b - 1);
    }
  }

  /** Words used up by some draws. */
  ghost function Used(p: seq<nat>): nat {
    if p == [] then 0 else
    AllUnderRoot(p[|p| - 1]);
    Used(p[..|p| - 1]) + Words(0, p[|p| - 1])
  }

  /** `r` is `q` and one draw more, from what `q` left and with the words it left unused. */
  ghost predicate OneMore(sha: seq<Byte> -> seq<Byte>, ws: seq<nat>, seed: seq<Byte>, q: seq<nat>, r: seq<nat>)
    requires IsHash(sha) && |seed| == 32
  {
    Total(ws, Drawn(q), 0) > 0 && r == q + [Pick(sha, ws, Drawn(q), 0, Skip(sha, Rng(seed, 0), Used(q))).0]
  }

  lemma {:induction false} NextDrawOn(sha: seq<Byte> -> seq<Byte>, ws: seq<nat>, p: seq<nat>, g: Rng, seed: seq<Byte>, k: nat)
    requires IsHash(sha) && |seed| == 32 && Positive(ws) && |p| <= k < |ws| && Distinct(p, |ws|) && g == Skip(sha, Rng(seed, 0), Used(p))
    ensures OneMore(sha, ws, seed, DrawOn(sha, ws, p, g, k), DrawOn(sha, ws, p, g, k + 1))
    decreases k - |p|
  {
    OneLeft(ws, p);
    var (c, h) := Pick(sha, ws, Drawn(p), 0, g);
    if |p| == k {
      assert DrawOn(sha, ws, p, g, k) == p;
      assert DrawOn(sha, ws, p + [c], h, k + 1) == p + [c];
    } else {
      UsedMore(sha, ws, p, g, seed);
      NextDrawOn(sha, ws, p + [c], h, seed, k);
    }
  }

  lemma UsedMore(sha: seq<Byte> -> seq<Byte>, ws: seq<nat>, p: seq<nat>, g: Rng, seed: seq<Byte>)
    requires IsHash(sha) && |seed| == 32 && Total(ws, Drawn(p), 0) > 0 && g == Skip(sha, Rng(seed, 0), Used(p))
    ensures Pick(sha, ws, Drawn(p), 0, g).1 == Skip(sha, Rng(seed, 0), Used(p + [Pick(sha, ws, Drawn(p), 0, g).0]))
  {
    var (c, after) := Pick(sha, ws, Drawn(p), 0, g);
    PickUses(sha, ws, Drawn(p), 0, g);
    AfterOne(sha, seed, p, c, g, after);
  }

  lemma AfterOne(sha: seq<Byte> -> seq<Byte>, seed: seq<Byte>, p: seq<nat>, c: nat, g: Rng, after: Rng)
    requires IsHash(sha) && |seed| == 32 && Under(0, c) && g == Skip(sha, Rng(seed, 0), Used(p)) && after == Skip(sha, g, Words(0, c))
    ensures after == Skip(sha, Rng(seed, 0), Used(p + [c]))
  {
    UsedAppend(p, c);
    SkipBoth(sha, Rng(seed, 0), Used(p), Words(0, c), Used(p + [c]));
  }

  lemma UsedAppend(p: seq<nat>, c: nat)
    requires Under(0, c)
    ensures Used(p + [c]) == Used(p) + Words(0, c)
  {
    assert (p + [c])[..|p|] == p;
  }

  lemma SkipBoth(sha: seq<Byte> -> seq<Byte>, g: Rng, a: nat, b: nat, c: nat)
    requires IsHash(sha) && g.Valid() && c == a + b
    ensures Skip(sha, Skip(sha, g, a), b) == Skip(sha, g, c)
  {
    SkipAdd(sha, g, a, b);
  }

  /** Each draw is from what the draws before it left, with the words they left unused. */
  lemma NextDraw(sha: seq<Byte> -> seq<Byte>, ws: seq<nat>, seed: seq<Byte>, k: nat)
    requires IsHash(sha) && |seed| == 32 && Positive(ws) && k < |ws|
    ensures OneMore(sha, ws, seed, Draws(sha, ws, seed, k), Draws(sha, ws, seed, k + 1))
  {
    NextDrawOn(sha, ws, [], Rng(seed, 0), seed, k);
  }

  /** Every number below `n` stands at exactly one position. */
  ghost predicate IsPermutation(p: seq<nat>, n: nat) {
    |p| == n && NoRepeats(p) && Drawn(p) == UpTo(n)
  }

  /** Drawing everything gives a permutation. */
  lemma DrawsPermute(sha: seq<Byte> -> seq<Byte>, ws: seq<nat>, seed: seq<Byte>)
    requires IsHash(sha) && |seed| == 32 && Positive(ws)
    ensures IsPermutation(Draws(sha, ws, seed, |ws|), |ws|)
  {
    AllPresent(Draws(sha, ws, seed, |ws|), |ws|);
  }

  lemma AllPresent(p: seq<nat>, n: nat)
    requires |p| == n && Distinct(p, n)
    ensures Drawn(p) == UpTo(n)
  {
    ManyDrawn(p);
    SameSize(Drawn(p), UpTo(n));
  }

  lemma {:induction false} ManyDrawn(p: seq<nat>)
    requires NoRepeats(p)
    ensures |Drawn(p)| == |p|
  {
    if p != [] {
      var q, x := p[..|p| - 1], p[|p| - 1];
      ManyDrawn(q);
      assert Drawn(p) == Drawn(q) + {x};
    }
  }

  lemma SameSize(a: set<nat>, b: set<nat>)
    requires a <= b && |a| == |b|
    ensures a == b
  {
    SubsetSize(b - a, b);
    assert b == a + (b - a);
  }

  // -------- the tree --------

  datatype Node = Node(own: nat, left: nat, right: nat)

  ghost function NodeAt(ws: seq<nat>, gone: set<nat>, j: nat): Node {
    Node(Left(ws, gone, j), Total(ws, gone, LeftIndex(j)), Total(ws, gone, RightIndex(j)))
  }

  /** Addition on 32 bits, where nothing may wrap around. */
  function Sum32(a: nat, b: nat, c: nat): nat
    requires a + b + c < 0x1_0000_0000
  {
    a + b + c
  }

  /** No subtree weighs more than everything. */
  lemma TotalBound(ws: seq<nat>, gone: set<nat>, i: nat)
    ensures Total(ws, gone, i) <= Total(ws, {}, 0)
  {
    DrawnWeighLess(ws, gone, i);
    SubtreesWeighLess(ws, i);
  }

  lemma {:induction false} DrawnWeighLess(ws: seq<nat>, gone: set<nat>, i: nat)
    ensures Total(ws, gone, i) <= Total(ws, {}, i)
    decreases |ws| - i
  {
    if i < |ws| {
      DrawnWeighLess(ws, gone, LeftIndex(i));
      DrawnWeighLess(ws, gone, RightIndex(i));
    }
  }

  lemma {:induction false} SubtreesWeighLess(ws: seq<nat>, i: nat)
    ensures Total(ws, {}, i) <= Total(ws, {}, 0)
    decreases i
  {
    if i > 0 {
      var p := (i - 1) / 2;
      SubtreesWeighLess(ws, p);
      assert i == LeftIndex(p) || i == RightIndex(p);
    }
  }

  class Tree {
    const sha: seq<Byte> -> seq<Byte>
    const weights: seq<nat>
    const nodes: array<Node>
    var seed: seq<Byte>
    var seedIndex: nat

    ghost function G(): Rng
      reads this
    {
      Rng(seed, seedIndex)
    }

    /** Sizes fit, and all sums of weights fit 32 bits. */
    ghost predicate Valid()
      reads this
    {
      IsHash(sha) && G().Valid() && nodes.Length == |weights| && Total(weights, {}, 0) < 0x1_0000_0000
    }

    /** The nodes in the subtree at `i` show what is left after `gone` were drawn. */
    ghost predicate Shows(i: nat, gone: set<nat>)
      requires nodes.Length == |weights|
      reads this, nodes
    {
      forall j :: 0 <= j < |weights| && Under(i, j) ==> nodes[j] == NodeAt(weights, gone, j)
    }

    constructor (sha: seq<Byte> -> seq<Byte>, weights: seq<nat>, seed: seq<Byte>)
      requires IsHash(sha) && |seed| == 32 && Total(weights, {}, 0) < 0x1_0000_0000
      ensures Valid() && fresh(nodes) && this.sha == sha && this.weights == weights && G() == Rng(seed, 0)
    {
      this.sha, this.weights, this.seed, seedIndex := sha, weights, seed, 0;
      nodes := new Node[|weights|](_ => Node(0, 0, 0));
    }

    method Rand32() returns (r: nat)
      requires Valid()
      modifies this`seed, this`seedIndex
      ensures Valid() && (r, G()) == Next(sha, old(G()))
    {
      if seedIndex == 32 {
        seed, seedIndex := sha(seed), 0;
      }
      r := FromLittleEndian(seed[seedIndex..seedIndex + 4]);
      seedIndex := seedIndex + 4;
    }

    /** Fills in the subtree at `i`; fails on a weight that is not positive. */
    method Build(i: nat) returns (w: Option<nat>)
      requires Valid()
      modifies nodes
      ensures w.None? <==> exists j :: 0 <= j < |weights| && Under(i, j) && weights[j] == 0
      ensures w.Some? ==> w.value == Total(weights, {}, i) && Shows(i, {})
      ensures forall j :: 0 <= j < |weights| && !Under(i, j) ==> nodes[j] == old(nodes[j])
      decreases |weights| - i
    {
      if i >= |weights| {
        return Some(0);
      }
      Family(i);
      var left := Build(LeftIndex(i));
      if left.None? {
        return None;
      }
      var right := Build(RightIndex(i));
      if right.None? {
        return None;
      }
      if weights[i] == 0 {
        return None;
      }
      nodes[i] := Node(weights[i], left.value, right.value);
      TotalBound(weights, {}, i);
      w := Some(Sum32(weights[i], left.value, right.value));
    }

    /** Draws one entry from the subtree at `i` and takes its weight off the nodes above it. */
    method Retrieve(i: nat, ghost gone: set<nat>) returns (c: nat)
      requires Valid() && Total(weights, gone, i) > 0 && Shows(i, gone)
      modifies nodes, this`seed, this`seedIndex
      ensures Valid() && (c, G()) == Pick(sha, weights, gone, i, old(G()))
      ensures Shows(i, gone + {c})
      ensures forall j :: 0 <= j < |weights| && !Under(i, j) ==> nodes[j] == old(nodes[j])
      decreases |weights| - i
    {
      Family(i);
      var node := nodes[i];
      TotalBound(weights, gone, i);
      var total := Sum32(node.right, node.left, node.own);
      var word := Rand32();
      var r := word % total;
      if r < node.own {
        c := i;
        Elsewhere(weights, gone, LeftIndex(i), c);
        Elsewhere(weights, gone, RightIndex(i), c);
        NodeChange(weights, gone, i, c);
        nodes[i] := node.(own := 0);
      } else if r < node.own + node.left {
        c := Retrieve(LeftIndex(i), gone);
        Elsewhere(weights, gone, RightIndex(i), c);
        NodeChange(weights, gone, i, c);
        nodes[i] := node.(left := node.left - weights[c]);
      } else {
        c := Retrieve(RightIndex(i), gone);
        Elsewhere(weights, gone, LeftIndex(i), c);
        NodeChange(weights, gone, i, c);
        nodes[i] := node.(right := node.right - weights[c]);
      }
    }

    method BuildAll() returns (ok: bool)
      requires Valid()
      modifies nodes
      ensures ok == Positive(weights) && (ok ==> Shows(0, {}))
    {
      var w := Build(0);
      ok := w.Some?;
      if ok {
        forall j | 0 <= j < |weights| ensures weights[j] > 0 { AllUnderRoot(j); }
      }
    }

    /** Draws entries from the root until there are `size`. */
    method DrawAll(size: nat) returns (p: seq<nat>)
      requires Valid() && Positive(weights) && Shows(0, {}) && size <= |weights|
      modifies nodes, this`seed, this`seedIndex
      ensures p == DrawOn(sha, weights, [], old(G()), size)
    {
      p := [];
      assert Drawn(p) == {};
      while |p| < size
        invariant |p| <= size && Valid() && Distinct(p, |weights|) && Shows(0, Drawn(p))
        invariant DrawOn(sha, weights, [], old(G()), size) == DrawOn(sha, weights, p, G(), size)
        decreases size - |p|
      {
        OneLeft(weights, p);
        var c := Retrieve(0, Drawn(p));
        assert Drawn(p + [c]) == Drawn(p) + {c};
        p := p + [c];
      }
    }
  }

  lemma {:induction false} UnderTransitive(a: nat, b: nat, c: nat)
    requires Under(a, b) && Under(b, c)
    ensures Under(a, c)
    decreases c
  {
    if c != b {
      UnderTransitive(a, b, (c - 1) / 2);
    }
  }

  /** Drawing `c` changes no node of a subtree that does not hold it. */
  lemma Elsewhere(ws: seq<nat>, gone: set<nat>, k: nat, c: nat)
    requires c < |ws| && c !in gone && !Under(k, c)
    ensures forall j: nat :: Under(k, j) ==> NodeAt(ws, gone + {c}, j) == NodeAt(ws, gone, j)
  {
    forall j: nat | Under(k, j) ensures NodeAt(ws, gone + {c}, j) == NodeAt(ws, gone, j) {
      OneElsewhere(ws, gone, k, j, c);
    }
  }

  lemma OneElsewhere(ws: seq<nat>, gone: set<nat>, k: nat, j: nat, c: nat)
    requires c < |ws| && c !in gone && !Under(k, c) && Under(k, j)
    ensures NodeAt(ws, gone + {c}, j) == NodeAt(ws, gone, j)
  {
    UnderChildren(j, c);
    if Under(j, c) {
      UnderTransitive(k, j, c);
    }
    TotalAfter(ws, gone, LeftIndex(j), c);
    TotalAfter(ws, gone, RightIndex(j), c);
  }

  /** How drawing `c` changes a node above it. */
  lemma NodeChange(ws: seq<nat>, gone: set<nat>, i: nat, c: nat)
    requires c < |ws| && c !in gone && Under(i, c)
    ensures c == i ==> NodeAt(ws, gone + {c}, i) == NodeAt(ws, gone, i).(own := 0)
    ensures Under(LeftIndex(i), c) ==>
      && ws[c] <= Total(ws, gone, LeftIndex(i))
      && NodeAt(ws, gone + {c}, i) == NodeAt(ws, gone, i).(left := Total(ws, gone, LeftIndex(i)) - ws[c])
    ensures Under(RightIndex(i), c) ==>
      && ws[c] <= Total(ws, gone, RightIndex(i))
      && NodeAt(ws, gone + {c}, i) == NodeAt(ws, gone, i).(right := Total(ws, gone, RightIndex(i)) - ws[c])
  {
    UnderChildren(i, c);
    TotalAfter(ws, gone, LeftIndex(i), c);
    TotalAfter(ws, gone, RightIndex(i), c);
  }

  /** Draws `size` entries; fails when there are not as many, or when a weight is not positive. */
  method WeightedPermutation(sha: seq<Byte> -> seq<Byte>, size: nat, weights: seq<nat>, seed: seq<Byte>) returns (perm: Option<seq<nat>>)
    requires IsHash(sha) && |seed| == 32 && Total(weights, {}, 0) < 0x1_0000_0000
    ensures perm.None? <==> size > |weights| || !Positive(weights)
    ensures perm.Some? ==> perm.value == Draws(sha, weights, seed, size)
  {
    if |weights| < size {
      return None;
    }
    if |weights| == 0 {
      perm := EmptyPermutation(sha, weights, seed, size);
      return;
    }
    perm := ShuffleTree(sha, size, weights, seed);
  }

  method EmptyPermutation(sha: seq<Byte> -> seq<Byte>, weights: seq<nat>, seed: seq<Byte>, size: nat) returns (perm: Option<seq<nat>>)
    requires IsHash(sha) && |seed| == 32 && weights == [] && size == 0
    ensures perm.Some? && Positive(weights) && perm.value == Draws(sha, weights, seed, size)
  {
    perm := Some([]);
  }

  method ShuffleTree(sha: seq<Byte> -> seq<Byte>, size: nat, weights: seq<nat>, seed: seq<Byte>) returns (perm: Option<seq<nat>>)
    requires IsHash(sha) && |seed| == 32 && Total(weights, {}, 0) < 0x1_0000_0000 && size <= |weights|
    ensures perm.None? <==> !Positive(weights)
    ensures perm.Some? ==> perm.value == Draws(sha, weights, seed, size)
  {
    var tree := new Tree(sha, weights, seed);
    var ok := tree.BuildAll();
    perm := None;
    if ok {
      var p := tree.DrawAll(size);
      perm := Some(p);
    }
  }
}
