/**
 Weighted random selection: a tree of nodes with eight branches that keeps the sum of the
 weights in every branch, and grows a new root when it is full. A node is read as the
 sequence of its leaves, free or holding an item with its weight.
 */
module RandSelect {
  import opened Basics
  import opened Transactions

  type Item = nat

  datatype Slot = Free | Holds(item: Item) | Sub(node: Node)

  datatype Node = Node(items: seq<Slot>, weights: seq<nat>, sumWeight: nat, level: nat, itemCnt: nat, maxItems: nat)

  type Leaf = Option<(Item, nat)>

  // -------- sequences of leaves --------

  function WeightOf(l: Leaf): nat { if l.None? then 0 else l.value.1 }

  ghost function Sum(s: seq<Leaf>): nat {
    if s == [] then 0 else WeightOf(s[0]) + Sum(s[1..])
  }

  ghost function Count(s: seq<Leaf>): nat {
    if s == [] then 0 else (if s[0].Some? then 1 else 0) + Count(s[1..])
  }

  lemma {:induction false} SumConcat(a: seq<Leaf>, b: seq<Leaf>)
    ensures Sum(a + b) == Sum(a) + Sum(b) && Count(a + b) == Count(a) + Count(b)
    decreases |a|
  {
    if a == [] {
      assert a + b == b;
    } else {
      SumConcat(a[1..], b);
      assert (a + b)[1..] == a[1..] + b;
    }
  }

  lemma SumUpdate(s: seq<Leaf>, i: nat, l: Leaf)
    requires i < |s|
    ensures Sum(s[i := l]) + WeightOf(s[i]) == Sum(s) + WeightOf(l)
    ensures Count(s[i := l]) + (if s[i].Some? then 1 else 0) == Count(s) + (if l.Some? then 1 else 0)
  {
    var a, b := s[..i], s[i + 1..];
    assert s == a + ([s[i]] + b) && s[i := l] == a + ([l] + b);
    SumConcat(a, [s[i]] + b);
    SumConcat(a, [l] + b);
    SumConcat([s[i]], b);
    SumConcat([l], b);
  }

  lemma {:induction false} CountBound(s: seq<Leaf>)
    ensures Count(s) <= |s| && (Count(s) == |s| <==> forall i :: 0 <= i < |s| ==> s[i].Some?)
    decreases |s|
  {
    if s != [] {
      CountBound(s[1..]);
      assert forall i :: 0 < i < |s| ==> s[i] == s[1..][i - 1];
    }
  }

  ghost function Nones(n: nat): (s: seq<Leaf>)
    ensures |s| == n && Sum(s) == 0 && Count(s) == 0 && forall i :: 0 <= i < n ==> s[i] == None
  {
    if n == 0 then [] else [None] + Nones(n - 1)
  }

  // -------- blocks of equal length --------

  ghost function Flatten(blocks: seq<seq<Leaf>>): seq<Leaf> {
    if blocks == [] then [] else blocks[0] + Flatten(blocks[1..])
  }

  ghost predicate Even(blocks: seq<seq<Leaf>>, size: nat) {
    forall b :: 0 <= b < |blocks| ==> |blocks[b]| == size
  }

  lemma {:induction false} FlattenLength(blocks: seq<seq<Leaf>>, size: nat)
    requires Even(blocks, size)
    ensures |Flatten(blocks)| == |blocks| * size
    decreases |blocks|
  {
    if blocks != [] {
      FlattenLength(blocks[1..], size);
      assert |blocks| * size == size + (|blocks| - 1) * size;
    }
  }

  /** What comes before block `b`, the block itself, and what comes after it. */
  lemma {:induction false} FlattenSplit(blocks: seq<seq<Leaf>>, b: nat)
    requires b < |blocks|
    ensures Flatten(blocks) == Flatten(blocks[..b]) + (blocks[b] + Flatten(blocks[b + 1..]))
    decreases b
  {
    if b > 0 {
      FlattenSplit(blocks[1..], b - 1);
      assert blocks[1..][..b - 1] == blocks[..b][1..] && blocks[1..][b - 1 + 1..] == blocks[b + 1..];
      assert blocks[..b][0] == blocks[0];
      Regroup(blocks[0], Flatten(blocks[..b][1..]), blocks[b] + Flatten(blocks[b + 1..]));
    } else {
      assert blocks[..0] == [];
      assert [] + (blocks[0] + Flatten(blocks[1..])) == blocks[0] + Flatten(blocks[1..]);
    }
  }

  lemma {:induction false} FlattenSums(blocks: seq<seq<Leaf>>)
    ensures Sum(Flatten(blocks)) == Sums(blocks) && Count(Flatten(blocks)) == Counts(blocks)
    decreases |blocks|
  {
    if blocks != [] {
      FlattenSums(blocks[1..]);
      SumConcat(blocks[0], Flatten(blocks[1..]));
    }
  }

  ghost function Sums(blocks: seq<seq<Leaf>>): nat {
    if blocks == [] then 0 else Sum(blocks[0]) + Sums(blocks[1..])
  }

  ghost function Counts(blocks: seq<seq<Leaf>>): nat {
    if blocks == [] then 0 else Count(blocks[0]) + Counts(blocks[1..])
  }

  /** The position of leaf `j` of block `b`. */
  function Pos(size: nat, b: nat, j: nat): nat { size * b + j }

  /** Changing one leaf of one block changes one leaf of the whole. */
  lemma FlattenUpdate(blocks: seq<seq<Leaf>>, size: nat, b: nat, j: nat, l: Leaf)
    requires Even(blocks, size) && b < |blocks| && j < size
    ensures Pos(size, b, j) < |Flatten(blocks)| && Flatten(blocks)[Pos(size, b, j)] == blocks[b][j]
    ensures Flatten(blocks[b := blocks[b][j := l]]) == Flatten(blocks)[Pos(size, b, j) := l]
  {
    var blocks' := blocks[b := blocks[b][j := l]];
    FlattenSplit(blocks, b);
    FlattenSplit(blocks', b);
    assert blocks'[..b] == blocks[..b] && blocks'[b + 1..] == blocks[b + 1..];
    FlattenLength(blocks[..b], size);
    UpdateMiddle(Flatten(blocks[..b]), blocks[b], Flatten(blocks[b + 1..]), j, l);
  }

  lemma UpdateMiddle(a: seq<Leaf>, m: seq<Leaf>, c: seq<Leaf>, j: nat, l: Leaf)
    requires j < |m|
    ensures (a + (m + c))[|a| + j] == m[j]
    ensures a + (m[j := l] + c) == (a + (m + c))[|a| + j := l]
  {
  }

  // -------- nodes --------

  ghost function SubSize(level: nat): nat {
    if level == 0 then 1 else Cap(level - 1)
  }

  /** The leaves of a node. */
  ghost function Cap(level: nat): nat {
    if level == 0 then 8 else 8 * Cap(level - 1)
  }

  lemma CapIs(level: nat)
    ensures Cap(level) == 8 * SubSize(level) && Cap(level) / 8 == SubSize(level) && SubSize(level) > 0
    decreases level
  {
    if level > 0 {
      CapIs(level - 1);
    }
  }

  ghost predicate Shaped(n: Node)
    decreases n.level
  {
    && |n.items| == |n.weights| == 8 && n.maxItems == Cap(n.level)
    && (forall b :: 0 <= b < 8 && n.items[b].Holds? ==> n.level == 0)
    && (forall b :: 0 <= b < 8 && n.items[b].Sub? ==> n.level > 0 && n.items[b].node.level == n.level - 1 && Shaped(n.items[b].node))
  }

  ghost function Block(n: Node, b: nat): (s: seq<Leaf>)
    requires Shaped(n) && b < 8
    ensures |s| == SubSize(n.level)
    decreases n.level, 0
  {
    match n.items[b]
    case Free => Nones(SubSize(n.level))
    case Holds(item) => [Some((item, n.weights[b]))]
    case Sub(c) => Leaves(c)
  }

  ghost function Blocks(n: Node): (s: seq<seq<Leaf>>)
    requires Shaped(n)
    ensures |s| == 8 && Even(s, SubSize(n.level)) && forall b :: 0 <= b < 8 ==> s[b] == Block(n, b)
    decreases n.level, 1
  {
    seq(8, b requires 0 <= b < 8 => Block(n, b))
  }

  ghost function Leaves(n: Node): (s: seq<Leaf>)
    requires Shaped(n)
    ensures |s| == Cap(n.level)
    decreases n.level, 2
  {
    CapIs(n.level);
    FlattenLength(Blocks(n), SubSize(n.level));
    Flatten(Blocks(n))
  }

  /** Sums and counts are those of the leaves, at every level. */
  ghost predicate Good(n: Node)
    decreases n.level, 1
  {
    Shaped(n) && GoodTotals(n) && forall b :: 0 <= b < 8 ==> GoodSlot(n.items[b], n.weights[b], Block(n, b), n.level)
  }

  ghost predicate GoodSlot(slot: Slot, weight: nat, block: seq<Leaf>, level: nat)
    decreases level, 0
  {
    && weight == Sum(block) && (slot.Holds? ==> weight > 0)
    && (slot.Sub? ==> level > 0 && slot.node.level == level - 1 && Good(slot.node))
  }

  ghost predicate GoodTotals(n: Node)
    requires Shaped(n)
  {
    n.sumWeight == Sum(Leaves(n)) && n.itemCnt == Count(Leaves(n))
  }

  /** The nodes differ in branch `b` only. */
  ghost predicate SameBut(n: Node, n': Node, b: nat) {
    && Shaped(n) && Shaped(n') && n'.level == n.level && b < 8
    && forall k :: 0 <= k < 8 && k != b ==> n'.items[k] == n.items[k] && n'.weights[k] == n.weights[k]
  }

  /** A node after branch `b` was replaced and one leaf of that branch changed. */
  lemma BranchUpdate(n: Node, n': Node, b: nat, j: nat, l: Leaf)
    requires SameBut(n, n', b) && j < SubSize(n.level) && Block(n', b) == Block(n, b)[j := l]
    ensures Pos(SubSize(n.level), b, j) < |Leaves(n)| && Leaves(n)[Pos(SubSize(n.level), b, j)] == Block(n, b)[j]
    ensures Leaves(n') == Leaves(n)[Pos(SubSize(n.level), b, j) := l]
  {
    BlocksUpdate(n, n', b, j, l);
    FlattenUpdate(Blocks(n), SubSize(n.level), b, j, l);
  }

  lemma BlocksUpdate(n: Node, n': Node, b: nat, j: nat, l: Leaf)
    requires SameBut(n, n', b) && j < SubSize(n.level) && Block(n', b) == Block(n, b)[j := l]
    ensures Blocks(n') == Blocks(n)[b := Blocks(n)[b][j := l]]
  {
    OtherBlocks(n, n', b);
    SameBlocks(Blocks(n), Blocks(n'), b, Block(n, b)[j := l]);
  }

  lemma SameBlocks(bs: seq<seq<Leaf>>, bs': seq<seq<Leaf>>, b: nat, x: seq<Leaf>)
    requires |bs| == |bs'| == 8 && b < 8 && bs'[b] == x && forall k :: 0 <= k < 8 && k != b ==> bs'[k] == bs[k]
    ensures bs' == bs[b := x]
  {
  }

  lemma OtherBlocks(n: Node, n': Node, b: nat)
    requires SameBut(n, n', b)
    ensures forall k :: 0 <= k < 8 && k != b ==> Block(n', k) == Block(n, k)
  {
  }

  /** Sums and counts stay right when the node follows the change of the leaf. */
  lemma GoodAfter(n: Node, n': Node, b: nat, j: nat, l: Leaf)
    requires Good(n) && SameBut(n, n', b) && j < SubSize(n.level) && Block(n', b) == Block(n, b)[j := l]
    requires n'.items[b].Holds? ==> n'.weights[b] > 0
    requires n'.items[b].Sub? ==> Good(n'.items[b].node)
    requires Moved(n.weights[b], n'.weights[b], Block(n, b)[j], l) && Moved(n.sumWeight, n'.sumWeight, Block(n, b)[j], l)
    requires Counted(n.itemCnt, n'.itemCnt, Block(n, b)[j], l)
    ensures Good(n') && Pos(SubSize(n.level), b, j) < |Leaves(n)| && Leaves(n)[Pos(SubSize(n.level), b, j)] == Block(n, b)[j]
    ensures Leaves(n') == Leaves(n)[Pos(SubSize(n.level), b, j) := l]
  {
    BranchUpdate(n, n', b, j, l);
    TotalsAfter(n, n', Pos(SubSize(n.level), b, j), l);
    SlotsAfter(n, n', b, j, l);
  }

  /** A sum that follows a leaf. */
  ghost predicate Moved(sum: nat, sum': nat, l: Leaf, l': Leaf) { sum' + WeightOf(l) == sum + WeightOf(l') }

  ghost predicate Counted(cnt: nat, cnt': nat, l: Leaf, l': Leaf) {
    cnt' + (if l.Some? then 1 else 0) == cnt + (if l'.Some? then 1 else 0)
  }

  lemma TotalsAfter(n: Node, n': Node, i: nat, l: Leaf)
    requires Shaped(n) && Shaped(n') && GoodTotals(n) && i < |Leaves(n)| && Leaves(n') == Leaves(n)[i := l]
    requires Moved(n.sumWeight, n'.sumWeight, Leaves(n)[i], l) && Counted(n.itemCnt, n'.itemCnt, Leaves(n)[i], l)
    ensures GoodTotals(n')
  {
    SumUpdate(Leaves(n), i, l);
  }

  lemma SlotsAfter(n: Node, n': Node, b: nat, j: nat, l: Leaf)
    requires Good(n) && SameBut(n, n', b) && j < SubSize(n.level) && Block(n', b) == Block(n, b)[j := l]
    requires n'.items[b].Holds? ==> n'.weights[b] > 0
    requires n'.items[b].Sub? ==> Good(n'.items[b].node)
    requires Moved(n.weights[b], n'.weights[b], Block(n, b)[j], l)
    ensures forall k :: 0 <= k < 8 ==> GoodSlot(n'.items[k], n'.weights[k], Block(n', k), n'.level)
  {
    OtherBlocks(n, n', b);
    SumUpdate(Block(n, b), j, l);
    forall k | 0 <= k < 8 ensures GoodSlot(n'.items[k], n'.weights[k], Block(n', k), n'.level) {
      assert GoodSlot(n.items[k], n.weights[k], Block(n, k), n.level);
    }
  }

  /** No room in any branch means the node is full. */
  lemma AllFull(n: Node)
    requires Good(n) && forall b :: 0 <= b < 8 ==> Count(Block(n, b)) == SubSize(n.level)
    ensures n.itemCnt == n.maxItems
  {
    CapIs(n.level);
    FlattenSums(Blocks(n));
    var bs := Blocks(n);
    assert forall b :: 0 <= b < 8 ==> Count(bs[b]) == SubSize(n.level);
    EqualCounts(bs, SubSize(n.level));
  }

  lemma {:induction false} EqualCounts(blocks: seq<seq<Leaf>>, k: nat)
    requires forall b :: 0 <= b < |blocks| ==> Count(blocks[b]) == k
    ensures Counts(blocks) == |blocks| * k
    decreases |blocks|
  {
    if blocks != [] {
      EqualCounts(blocks[1..], k);
      assert |blocks| * k == k + (|blocks| - 1) * k;
    }
  }

  predicate Taken(n: Node, b: nat)
    requires |n.items| == 8 && b < 8
  {
    n.items[b] != Free && (n.level == 0 || (n.items[b].Sub? && n.items[b].node.itemCnt == n.items[b].node.maxItems))
  }

  /** The first branch with room; there is one in a node that is not full. */
  method FindRoom(n: Node) returns (branch: nat)
    requires Good(n) && n.itemCnt < n.maxItems
    ensures branch < 8 && !Taken(n, branch)
  {
    branch := 0;
    while branch < 8 && Taken(n, branch)
      invariant branch <= 8 && forall b :: 0 <= b < branch ==> Taken(n, b)
    {
      branch := branch + 1;
    }
    if branch == 8 {
      forall b | 0 <= b < 8 ensures Count(Block(n, b)) == SubSize(n.level) { TakenIsFull(n, b); }
      AllFull(n);
      assert false;
    }
  }

  lemma TotalsOf(n: Node)
    requires Good(n)
    ensures GoodTotals(n) && n.maxItems == Cap(n.level)
  {
  }

  lemma TakenIsFull(n: Node, b: nat)
    requires Good(n) && b < 8 && Taken(n, b)
    ensures Count(Block(n, b)) == SubSize(n.level)
  {
    assert GoodSlot(n.items[b], n.weights[b], Block(n, b), n.level);
    if n.items[b].Sub? {
      TotalsOf(n.items[b].node);
    } else {
      assert Block(n, b) == [Some((n.items[b].item, n.weights[b]))];
    }
  }

  function NewNode(level: nat, maxItems: nat): Node {
    Node([Free, Free, Free, Free, Free, Free, Free, Free], [0, 0, 0, 0, 0, 0, 0, 0], 0, level, 0, maxItems)
  }

  lemma NewNodeGood(level: nat)
    ensures Good(NewNode(level, Cap(level))) && Leaves(NewNode(level, Cap(level))) == Nones(Cap(level))
  {
    var n := NewNode(level, Cap(level));
    NewNodeBlocks(n, level);
    NewNodeLeaves(n, level);
  }

  lemma NewNodeLeaves(n: Node, level: nat)
    requires Shaped(n) && n.level == level && forall b :: 0 <= b < 8 ==> Block(n, b) == Nones(SubSize(level))
    ensures Leaves(n) == Nones(Cap(level))
  {
    AllNone(Blocks(n), SubSize(level));
    OnlyNones(Leaves(n));
  }

  lemma NewNodeBlocks(n: Node, level: nat)
    requires n == NewNode(level, Cap(level))
    ensures Shaped(n) && forall b :: 0 <= b < 8 ==> Block(n, b) == Nones(SubSize(level))
  {
    assert forall b :: 0 <= b < 8 ==> n.items[b] == Free;
  }

  lemma {:induction false} AllNone(blocks: seq<seq<Leaf>>, size: nat)
    requires forall b :: 0 <= b < |blocks| ==> blocks[b] == Nones(size)
    ensures Sums(blocks) == 0 && Counts(blocks) == 0 && forall i :: 0 <= i < |Flatten(blocks)| ==> Flatten(blocks)[i] == None
    decreases |blocks|
  {
    if blocks != [] {
      AllNone(blocks[1..], size);
    }
  }

  lemma OnlyNones(s: seq<Leaf>)
    requires forall i :: 0 <= i < |s| ==> s[i] == None
    ensures s == Nones(|s|)
  {
  }

  // -------- inserting --------

  /** Puts a new item on a free leaf and returns its index. */
  method Insert(n: Node, item: Item, weight: nat) returns (n': Node, idx: nat)
    requires Good(n) && n.itemCnt < n.maxItems && weight > 0
    ensures Good(n') && n'.level == n.level && n'.maxItems == n.maxItems
    ensures idx < |Leaves(n)| && Leaves(n)[idx].None? && Leaves(n') == Leaves(n)[idx := Some((item, weight))]
    decreases n.level
  {
    var branch := FindRoom(n);
    if n.level == 0 {
      n' := n.(items := n.items[branch := Holds(item)], weights := n.weights[branch := n.weights[branch] + weight],
               sumWeight := n.sumWeight + weight, itemCnt := n.itemCnt + 1);
      idx := branch;
      InsertHere(n, n', branch, item, weight);
    } else {
      CapIs(n.level);
      var sub := BranchNode(n, branch);
      var sub', subIdx := Insert(sub, item, weight);
      n' := n.(items := n.items[branch := Sub(sub')], weights := n.weights[branch := n.weights[branch] + weight],
               sumWeight := n.sumWeight + weight, itemCnt := n.itemCnt + 1);
      idx := Pos(sub.maxItems, branch, subIdx);
      InsertBelow(n, n', branch, sub, sub', subIdx, item, weight);
    }
  }

  /** The node at a branch with room, a new one if there is none yet. */
  method BranchNode(n: Node, branch: nat) returns (sub: Node)
    requires Good(n) && n.level > 0 && branch < 8 && !Taken(n, branch)
    ensures Good(sub) && sub.level == n.level - 1 && sub.itemCnt < sub.maxItems && Leaves(sub) == Block(n, branch)
  {
    CapIs(n.level);
    CapIs(n.level - 1);
    if n.items[branch] == Free {
      NewNodeGood(n.level - 1);
      sub := NewNode(n.level - 1, n.maxItems / 8);
    } else {
      sub := n.items[branch].node;
      CountBound(Leaves(sub));
    }
  }

  lemma InsertHere(n: Node, n': Node, b: nat, item: Item, weight: nat)
    requires Good(n) && n.level == 0 && b < 8 && n.items[b] == Free && weight > 0
    requires n' == n.(items := n.items[b := Holds(item)], weights := n.weights[b := n.weights[b] + weight],
                      sumWeight := n.sumWeight + weight, itemCnt := n.itemCnt + 1)
    ensures Good(n') && b < |Leaves(n)| && Leaves(n)[b].None? && Leaves(n') == Leaves(n)[b := Some((item, weight))]
  {
    var l: Leaf := Some((item, weight));
    assert n.weights[b] == 0;
    assert Block(n', b) == [l] && Block(n, b) == [None];
    assert Block(n, b)[0 := l] == [l];
    GoodAfter(n, n', b, 0, l);
    assert Pos(SubSize(0), b, 0) == b;
  }

  lemma InsertBelow(n: Node, n': Node, b: nat, sub: Node, sub': Node, j: nat, item: Item, weight: nat)
    requires Good(n) && n.level > 0 && b < 8 && Good(sub) && Good(sub') && sub.level == sub'.level == n.level - 1
    requires Block(n, b) == Leaves(sub) && j < |Leaves(sub)| && Leaves(sub)[j].None? && Leaves(sub') == Leaves(sub)[j := Some((item, weight))]
    requires n' == n.(items := n.items[b := Sub(sub')], weights := n.weights[b := n.weights[b] + weight],
                      sumWeight := n.sumWeight + weight, itemCnt := n.itemCnt + 1)
    ensures Good(n') && Pos(sub.maxItems, b, j) < |Leaves(n)| && Leaves(n)[Pos(sub.maxItems, b, j)].None?
    ensures Leaves(n') == Leaves(n)[Pos(sub.maxItems, b, j) := Some((item, weight))]
  {
    assert sub.maxItems == SubSize(n.level);
    assert Block(n', b) == Leaves(sub');
    GoodAfter(n, n', b, j, Some((item, weight)));
  }

  // -------- changing weights --------

  function NewLeaf(item: Item, weight: nat): Leaf { if weight == 0 then None else Some((item, weight)) }

  /** Where leaf `j` of branch `b` stands. */
  lemma LeafAt(n: Node, b: nat, j: nat)
    requires Shaped(n) && b < 8 && j < SubSize(n.level)
    ensures Pos(SubSize(n.level), b, j) < |Leaves(n)| && Leaves(n)[Pos(SubSize(n.level), b, j)] == Block(n, b)[j]
  {
    FlattenUpdate(Blocks(n), SubSize(n.level), b, j, None);
  }

  /** The branch of an index and the index in it. */
  method Locate(n: Node, idx: nat) returns (b: nat, j: nat)
    requires Shaped(n) && idx < |Leaves(n)|
    ensures b < 8 && j < SubSize(n.level) && idx == Pos(SubSize(n.level), b, j) && Leaves(n)[idx] == Block(n, b)[j]
  {
    CapIs(n.level);
    b, j := Split(idx, n.maxItems / 8);
    LeafAt(n, b, j);
  }

  method Split(idx: nat, branchItems: nat) returns (b: nat, j: nat)
    requires branchItems > 0 && idx < 8 * branchItems
    ensures b < 8 && j < branchItems && idx == Pos(branchItems, b, j)
  {
    b := idx / branchItems;
    Divide(idx, branchItems, b, idx - b * branchItems);
    j := idx - b * branchItems;
  }

  lemma Divide(v: nat, size: nat, b: int, j: int)
    requires size > 0 && v < 8 * size && b == v / size && j == v - b * size
    ensures 0 <= b < 8 && 0 <= j < size && v == Pos(size, b, j)
  {
    assert v == b * size + v % size;
    assert b >= 8 ==> (b - 8) * size >= 0;
    assert (b - 8) * size == b * size - 8 * size;
  }

  /** Changes the weight of the item at an index, zero removes it; returns the difference. */
  method SetWeight(n: Node, idx: nat, weight: nat) returns (n': Node, diff: int)
    requires Good(n) && idx < |Leaves(n)| && Leaves(n)[idx].Some?
    ensures Good(n') && n'.level == n.level && n'.maxItems == n.maxItems
    ensures Leaves(n') == Leaves(n)[idx := NewLeaf(Leaves(n)[idx].value.0, weight)]
    ensures diff == weight - Leaves(n)[idx].value.1
    decreases n.level
  {
    var b, j := Locate(n, idx);
    if n.level == 0 {
      diff := weight - n.weights[b];
      SumAtLeast(n, b, j, idx);
      n' := n.(items := if weight == 0 then n.items[b := Free] else n.items, weights := n.weights[b := weight],
               sumWeight := n.sumWeight + diff, itemCnt := if weight == 0 then n.itemCnt - 1 else n.itemCnt);
      SetHere(n, n', b, weight);
    } else {
      var sub := n.items[b].node;
      var sub';
      sub', diff := SetWeight(sub, j, weight);
      SumAtLeast(n, b, j, idx);
      n' := n.(items := n.items[b := Sub(sub')], weights := n.weights[b := n.weights[b] + diff],
               sumWeight := n.sumWeight + diff, itemCnt := if weight == 0 then n.itemCnt - 1 else n.itemCnt);
      SetBelow(n, n', b, j, sub', weight);
    }
  }

  /** Sums and counts are large enough to take a leaf away. */
  lemma SumAtLeast(n: Node, b: nat, j: nat, idx: nat)
    requires Good(n) && b < 8 && j < SubSize(n.level) && idx < |Leaves(n)| && Leaves(n)[idx] == Block(n, b)[j] && Leaves(n)[idx].Some?
    ensures n.sumWeight >= Leaves(n)[idx].value.1 && n.weights[b] >= Leaves(n)[idx].value.1 && n.itemCnt >= 1
  {
    SumUpdate(Leaves(n), idx, None);
    SumUpdate(Block(n, b), j, None);
  }

  lemma SetHere(n: Node, n': Node, b: nat, weight: nat)
    requires Good(n) && n.level == 0 && b < 8 && n.items[b].Holds? && n.sumWeight >= n.weights[b] && n.itemCnt >= 1
    requires n' == n.(items := if weight == 0 then n.items[b := Free] else n.items, weights := n.weights[b := weight],
                      sumWeight := n.sumWeight + weight - n.weights[b], itemCnt := if weight == 0 then n.itemCnt - 1 else n.itemCnt)
    ensures Good(n') && Pos(1, b, 0) < |Leaves(n)| && Leaves(n') == Leaves(n)[Pos(1, b, 0) := NewLeaf(n.items[b].item, weight)]
  {
    var l := NewLeaf(n.items[b].item, weight);
    assert Nones(1) == [None];
    assert Block(n', b) == [l] && Block(n, b) == [Some((n.items[b].item, n.weights[b]))];
    assert Block(n, b)[0 := l] == [l];
    GoodAfter(n, n', b, 0, l);
  }

  lemma SetBelow(n: Node, n': Node, b: nat, j: nat, sub': Node, weight: nat)
    requires Good(n) && n.level > 0 && b < 8 && n.items[b].Sub? && j < SubSize(n.level) && Block(n, b)[j].Some?
    requires Good(sub') && sub'.level == n.level - 1 && Leaves(sub') == Block(n, b)[j := NewLeaf(Block(n, b)[j].value.0, weight)]
    requires var diff := weight - Block(n, b)[j].value.1;
      && n.weights[b] + diff >= 0 && n.sumWeight + diff >= 0 && n.itemCnt >= 1
      && n' == n.(items := n.items[b := Sub(sub')], weights := n.weights[b := n.weights[b] + diff],
                  sumWeight := n.sumWeight + diff, itemCnt := if weight == 0 then n.itemCnt - 1 else n.itemCnt)
    ensures Good(n') && Pos(SubSize(n.level), b, j) < |Leaves(n)|
    ensures Leaves(n') == Leaves(n)[Pos(SubSize(n.level), b, j) := NewLeaf(Block(n, b)[j].value.0, weight)]
  {
    assert Block(n', b) == Leaves(sub');
    GoodAfter(n, n', b, j, NewLeaf(Block(n, b)[j].value.0, weight));
  }

  // -------- choosing --------

  /** The number `val` falls into the share of leaf `i`: it lies past all leaves before it but not past it. */
  ghost predicate Hits(s: seq<Leaf>, i: nat, val: nat) {
    i < |s| && s[i].Some? && Sum(s[..i]) <= val < Sum(s[..i]) + s[i].value.1
  }

  lemma PrefixSum(n: Node, b: nat, j: nat)
    requires Shaped(n) && b < 8 && j < SubSize(n.level)
    ensures Pos(SubSize(n.level), b, j) < |Leaves(n)|
    ensures Sum(Leaves(n)[..Pos(SubSize(n.level), b, j)]) == Sums(Blocks(n)[..b]) + Sum(Block(n, b)[..j])
  {
    var bs := Blocks(n);
    LeafAt(n, b, j);
    FlattenSplit(bs, b);
    FlattenLength(bs[..b], SubSize(n.level));
    FlattenSums(bs[..b]);
    PrefixCut(Flatten(bs[..b]), bs[b], Flatten(bs[b + 1..]), j);
    SumConcat(Flatten(bs[..b]), bs[b][..j]);
    assert SubSize(n.level) * b == b * SubSize(n.level);
  }

  lemma PrefixCut(a: seq<Leaf>, m: seq<Leaf>, c: seq<Leaf>, j: nat)
    requires j < |m|
    ensures (a + (m + c))[..|a| + j] == a + m[..j]
  {
  }

  /** A hit in a branch is a hit in the node. */
  lemma HitBelow(n: Node, b: nat, j: nat, rest: nat, val: nat)
    requires Shaped(n) && b < 8 && Hits(Block(n, b), j, rest) && val == Sums(Blocks(n)[..b]) + rest
    ensures Hits(Leaves(n), Pos(SubSize(n.level), b, j), val)
    ensures Leaves(n)[Pos(SubSize(n.level), b, j)] == Block(n, b)[j]
  {
    LeafAt(n, b, j);
    PrefixSum(n, b, j);
  }

  lemma NextSums(blocks: seq<seq<Leaf>>, i: nat)
    requires i < |blocks|
    ensures Sums(blocks[..i + 1]) == Sums(blocks[..i]) + Sum(blocks[i])
  {
    FlattenSums(blocks[..i + 1]);
    FlattenSums(blocks[..i]);
    FlattenSplit(blocks[..i + 1], i);
    assert blocks[..i + 1][..i] == blocks[..i] && blocks[..i + 1][i + 1..] == [];
    SumConcat(Flatten(blocks[..i]), blocks[i] + []);
    assert blocks[i] + [] == blocks[i];
  }

  /** The branch into which `val` falls, and what is left of it there; there always is one. */
  method FindBranch(n: Node, val: nat) returns (b: nat, rest: nat)
    requires Good(n) && val < n.sumWeight
    ensures b < 8 && rest < n.weights[b] && val == Sums(Blocks(n)[..b]) + rest
  {
    b, rest := 0, val;
    FlattenSums(Blocks(n));
    assert Blocks(n)[..8] == Blocks(n) && Blocks(n)[..0] == [];
    while b < 8 && rest >= n.weights[b]
      invariant b <= 8 && val == Sums(Blocks(n)[..b]) + rest
    {
      NextSums(Blocks(n), b);
      b, rest := b + 1, rest - n.weights[b];
    }
  }

  /** The item into whose share `val` falls, with its weight. */
  method Choose(n: Node, val: nat) returns (item: Item, weight: nat, ghost idx: nat)
    requires Good(n) && val < n.sumWeight
    ensures Hits(Leaves(n), idx, val) && Leaves(n)[idx] == Some((item, weight))
    ensures forall x :: Picks(Leaves(n), val, x) <==> x == item
    decreases n.level
  {
    var b, rest := FindBranch(n, val);
    if n.level == 0 {
      item, weight := n.items[b].item, n.weights[b];
      assert Block(n, b)[..0] == [];
      HitBelow(n, b, 0, rest, val);
      idx := Pos(SubSize(n.level), b, 0);
    } else {
      ghost var j;
      item, weight, j := Choose(n.items[b].node, rest);
      HitBelow(n, b, j, rest, val);
      idx := Pos(SubSize(n.level), b, j);
    }
    OnePick(Leaves(n), idx, val);
  }

  lemma SharesApart(s: seq<Leaf>, i: nat, j: nat)
    requires i < j <= |s|
    ensures Sum(s[..i]) + WeightOf(s[i]) <= Sum(s[..j])
  {
    assert s[..j] == s[..i] + ([s[i]] + s[i + 1..j]);
    SumConcat(s[..i], [s[i]] + s[i + 1..j]);
    SumConcat([s[i]], s[i + 1..j]);
  }

  /** No number falls into two shares. */
  lemma OneHit(s: seq<Leaf>, i: nat, j: nat, val: nat)
    requires Hits(s, i, val) && Hits(s, j, val)
    ensures i == j
  {
    if i < j {
      SharesApart(s, i, j);
    } else if j < i {
      SharesApart(s, j, i);
    }
  }

  ghost function HitsOf(s: seq<Leaf>, i: nat, k: nat): set<nat> { set v | 0 <= v < k && Hits(s, i, v) }

  /** `val` falls to `item`. */
  ghost predicate Picks(s: seq<Leaf>, val: nat, item: Item) {
    exists i :: 0 <= i < |s| && Hits(s, i, val) && s[i].value.0 == item
  }

  /** A number falls to one item only. */
  lemma OnePick(s: seq<Leaf>, i: nat, val: nat)
    requires Hits(s, i, val)
    ensures forall x :: Picks(s, val, x) <==> x == s[i].value.0
  {
    forall x | Picks(s, val, x) ensures x == s[i].value.0 {
      var j :| 0 <= j < |s| && Hits(s, j, val) && s[j].value.0 == x;
      OneHit(s, i, j, val);
    }
  }

  /** As many of the numbers below the total fall to a leaf as its weight says. */
  lemma LeafShare(s: seq<Leaf>, i: nat)
    requires i < |s| && s[i].Some?
    ensures |HitsOf(s, i, Sum(s))| == s[i].value.1
  {
    SharesApart(s, i, |s|);
    assert s[..|s|] == s;
    Interval(HitsOf(s, i, Sum(s)), Sum(s[..i]), s[i].value.1);
  }

  lemma {:induction false} Interval(a: set<nat>, lo: nat, k: nat)
    requires forall v :: v in a <==> lo <= v < lo + k
    ensures |a| == k
    decreases k
  {
    if k == 0 {
      assert a == {};
    } else {
      Interval(a - {lo + k - 1}, lo, k - 1);
    }
  }

  // -------- the set --------

  /** Every item of the index stands on its leaf, and every occupied leaf is in the index. */
  ghost predicate Indexed(s: seq<Leaf>, idx: map<Item, nat>) {
    && (forall x :: x in idx ==> idx[x] < |s| && s[idx[x]].Some? && s[idx[x]].value.0 == x)
    && (forall i :: 0 <= i < |s| && s[i].Some? ==> s[i].value.0 in idx && idx[s[i].value.0] == i)
  }

  ghost function WeightsOf(s: seq<Leaf>, idx: map<Item, nat>): map<Item, nat>
    requires Indexed(s, idx)
  {
    map x | x in idx :: s[idx[x]].value.1
  }

  lemma IndexChange(s: seq<Leaf>, idx: map<Item, nat>, item: Item, weight: nat)
    requires Indexed(s, idx) && item in idx
    ensures weight > 0 ==> var s' := s[idx[item] := Some((item, weight))];
      Indexed(s', idx) && WeightsOf(s', idx) == WeightsOf(s, idx)[item := weight]
    ensures weight == 0 ==> var s' := s[idx[item] := None];
      Indexed(s', idx - {item}) && WeightsOf(s', idx - {item}) == WeightsOf(s, idx) - {item}
  {
  }

  lemma IndexNew(s: seq<Leaf>, idx: map<Item, nat>, item: Item, i: nat, weight: nat)
    requires Indexed(s, idx) && item !in idx && i < |s| && s[i].None?
    ensures var s', idx' := s[i := Some((item, weight))], idx[item := i];
      Indexed(s', idx') && WeightsOf(s', idx') == WeightsOf(s, idx)[item := weight]
  {
  }

  /** A root above the old one, which becomes its first branch. */
  function Grown(root: Node): Node {
    Node([Sub(root), Free, Free, Free, Free, Free, Free, Free], [root.sumWeight, 0, 0, 0, 0, 0, 0, 0],
         root.sumWeight, root.level + 1, root.itemCnt, root.maxItems * 8)
  }

  lemma GrownGood(root: Node)
    requires Good(root)
    ensures Good(Grown(root)) && Leaves(Grown(root)) == Leaves(root) + Nones(7 * Cap(root.level))
  {
    var n := Grown(root);
    GrownBlocks(root, n);
    GrownTotals(root, n);
    GrownSlots(root, n);
  }

  lemma GrownTotals(root: Node, n: Node)
    requires Good(root) && Shaped(n) && n.level == root.level + 1 && n.sumWeight == root.sumWeight && n.itemCnt == root.itemCnt
    requires Block(n, 0) == Leaves(root) && forall b :: 0 < b < 8 ==> Block(n, b) == Nones(Cap(root.level))
    ensures GoodTotals(n) && Leaves(n) == Leaves(root) + Nones(7 * Cap(root.level))
  {
    GrownLeaves(Blocks(n), Leaves(root), Cap(root.level));
    SumConcat(Leaves(root), Nones(7 * Cap(root.level)));
  }

  lemma GrownSlots(root: Node, n: Node)
    requires Good(root) && n == Grown(root) && Shaped(n)
    requires Block(n, 0) == Leaves(root) && forall b :: 0 < b < 8 ==> Block(n, b) == Nones(Cap(root.level))
    ensures forall b :: 0 <= b < 8 ==> GoodSlot(n.items[b], n.weights[b], Block(n, b), n.level)
  {
    forall b | 0 <= b < 8 ensures GoodSlot(n.items[b], n.weights[b], Block(n, b), n.level) {
      if b > 0 {
        assert n.items[b] == Free && n.weights[b] == 0;
      }
    }
  }

  lemma GrownBlocks(root: Node, n: Node)
    requires Good(root) && n == Grown(root)
    ensures Shaped(n) && Block(n, 0) == Leaves(root) && forall b :: 0 < b < 8 ==> Block(n, b) == Nones(Cap(root.level))
  {
    forall b | 0 < b < 8 ensures n.items[b] == Free && n.weights[b] == 0 {
      GrownSlot(root, b);
    }
  }

  lemma GrownSlot(root: Node, b: nat)
    requires 0 < b < 8
    ensures Grown(root).items[b] == Free && Grown(root).weights[b] == 0
  {
  }

  lemma GrownLeaves(bs: seq<seq<Leaf>>, first: seq<Leaf>, size: nat)
    requires |bs| == 8 && bs[0] == first && forall b :: 0 < b < 8 ==> bs[b] == Nones(size)
    ensures Flatten(bs) == first + Nones(7 * size)
  {
    assert forall b :: 0 <= b < 7 ==> bs[1..][b] == Nones(size);
    FlattenLength(bs[1..], size);
    AllNone(bs[1..], size);
    OnlyNones(Flatten(bs[1..]));
  }

  lemma GrownIndex(s: seq<Leaf>, idx: map<Item, nat>, k: nat)
    requires Indexed(s, idx)
    ensures Indexed(s + Nones(k), idx) && WeightsOf(s + Nones(k), idx) == WeightsOf(s, idx)
  {
  }

  class WeightedRandomSelect {
    var root: Node
    var idx: map<Item, nat>

    ghost predicate Valid()
      reads this
    {
      Good(root) && Indexed(Leaves(root), idx)
    }

    /** The items and their weights. */
    ghost function Weights(): map<Item, nat>
      requires Valid()
      reads this
    {
      WeightsOf(Leaves(root), idx)
    }

    constructor ()
      ensures Valid() && Weights() == map[]
    {
      NewNodeGood(0);
      root, idx := NewNode(0, 8), map[];
    }

    /** Adds an item, changes its weight, or removes it with weight zero. */
    method SetItem(item: Item, weight: nat)
      requires Valid()
      modifies this
      ensures Valid() && Weights() == if weight == 0 then old(Weights()) - {item} else old(Weights())[item := weight]
    {
      if item in idx {
        IndexChange(Leaves(root), idx, item, weight);
        var n, _ := SetWeight(root, idx[item], weight);
        root := n;
        if weight == 0 {
          idx := idx - {item};
        }
      } else if weight != 0 {
        MakeRoom();
        var n, i := Insert(root, item, weight);
        IndexNew(Leaves(root), idx, item, i, weight);
        root, idx := n, idx[item := i];
      } else {
        assert Weights() - {item} == Weights();
      }
    }

    /** Adds a level when the tree is full. */
    method MakeRoom()
      requires Valid()
      modifies this`root
      ensures Valid() && Weights() == old(Weights()) && root.itemCnt < root.maxItems
    {
      CountBound(Leaves(root));
      if root.itemCnt == root.maxItems {
        CapIs(root.level);
        GrownGood(root);
        GrownIndex(Leaves(root), idx, 7 * Cap(root.level));
        root := Grown(root);
      }
    }

    /** Of the numbers below the total weight exactly as many are answered with an item as its weight says. */
    lemma ShareIsWeight(item: Item)
      requires Valid() && item in Weights()
      ensures |set v | 0 <= v < root.sumWeight && Picks(Leaves(root), v, item)| == Weights()[item]
    {
      var s, i := Leaves(root), idx[item];
      LeafShare(s, i);
      forall v: nat ensures Picks(s, v, item) <==> Hits(s, i, v) {
      }
      assert HitsOf(s, i, Sum(s)) == set v | 0 <= v < root.sumWeight && Picks(s, v, item);
    }

    /** One pass of the choice: the item hit by `val` gets its present weight, and is kept with the chance that it still has. */
    method ChooseOnce(val: nat, coin: nat, weight: Item -> nat) returns (choice: Option<Item>, ghost hit: Item)
      requires Valid() && val < root.sumWeight
      modifies this
      ensures Valid() && hit in old(Weights()) && forall x :: old(Picks(Leaves(root), val, x)) <==> x == hit
      ensures Weights() == if weight(hit) == 0 then old(Weights()) - {hit} else old(Weights())[hit := weight(hit)]
      ensures choice == if weight(hit) >= old(Weights())[hit] || coin < weight(hit) then Some(hit) else None
    {
      var item, last, _ := Choose(root, val);
      hit := item;
      var now := weight(item);
      assert Weights()[item] == last;
      if now != last {
        SetItem(item, now);
      } else {
        assert Weights()[item := now] == Weights();
      }
      choice := if now >= last || coin < now then Some(item) else None;
    }
  }
}
