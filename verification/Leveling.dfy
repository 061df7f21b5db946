/** Water-filling of pending lists: every non-local account is cut to the same level. */
module Leveling {
  import opened Transactions
  import opened NonceMaps
  import opened TxLists
  import opened PoolBooks
  import opened Totals

  function Length(l: TxList): nat { |l.txs| }

  ghost function Count(lists: Lists): nat { Total(lists, Length) }

  function CutTo(l: TxList, local: bool, k: nat): TxList {
    if local then l else l.Cap(k)
  }

  /** Every non-local list cut to its `k` lowest nonces, those in `lowered` to one less. */
  function Level(lists: Lists, locals: set<Address>, lowered: set<Address>, k: nat): Lists {
    map a | a in lists :: CutTo(lists[a], a in locals, if a in lowered && k > 0 then k - 1 else k)
  }

  /** Non-local lists longer than `k` are exactly those in `tall`. */
  ghost predicate Tall(lists: Lists, locals: set<Address>, tall: set<Address>, k: nat) {
    && (forall a :: a in tall ==> a in lists && a !in locals && |lists[a].txs| >= k)
    && (forall a :: a in lists && a !in locals && a !in tall ==> |lists[a].txs| < k)
  }

  lemma CapCap(l: TxList, k: nat, j: nat)
    requires l.Valid() && j <= k
    ensures l.Cap(k).Cap(j) == l.Cap(j)
    ensures |l.Cap(k).txs| == if |l.txs| <= k then |l.txs| else k
  {
    LowestSize(l.txs, k);
    LowestSize(l.txs, j);
    LowestSize(Lowest(l.txs, k), j);
    LowestOfLowest(l.txs, k, j);
  }

  /** A level no list reaches changes nothing. */
  lemma LevelAbove(lists: Lists, locals: set<Address>, k: nat)
    requires forall a :: a in lists && a !in locals ==> |lists[a].txs| <= k
    ensures Level(lists, locals, {}, k) == lists
  {
  }

  /** A higher level never leaves fewer transactions. */
  lemma {:induction false} LevelGrows(lists: Lists, locals: set<Address>, j: nat, k: nat)
    requires Shelved(lists, true) && j <= k
    ensures Count(Level(lists, locals, {}, j)) <= Count(Level(lists, locals, {}, k))
    decreases |lists|
  {
    if lists != map[] {
      var a :| a in lists;
      LevelWithout(lists, locals, j, a);
      LevelWithout(lists, locals, k, a);
      LevelGrows(lists - {a}, locals, j, k);
      CapCap(lists[a], j, j);
      CapCap(lists[a], k, k);
    }
  }

  lemma LevelWithout(lists: Lists, locals: set<Address>, k: nat, a: Address)
    requires a in lists
    ensures Count(Level(lists, locals, {}, k)) == Length(CutTo(lists[a], a in locals, k)) + Count(Level(lists - {a}, locals, {}, k))
  {
    var cut := Level(lists, locals, {}, k);
    TotalRemove(cut, a, Length);
    LevelOfRest(lists, locals, k, a);
  }

  lemma LevelOfRest(lists: Lists, locals: set<Address>, k: nat, a: Address)
    ensures Level(lists, locals, {}, k) - {a} == Level(lists - {a}, locals, {}, k)
  {
  }

  lemma LevelUpdate(lists: Lists, locals: set<Address>, lowered: set<Address>, k: nat, a: Address)
    requires a in lists && a !in locals && k > 0
    ensures Level(lists, locals, lowered, k)[a := lists[a].Cap(k - 1)] == Level(lists, locals, lowered + {a}, k)
  {
  }

  /** Once all tall lists are lowered, the level is one lower. */
  lemma LevelDown(lists: Lists, locals: set<Address>, tall: set<Address>, k: nat)
    requires Tall(lists, locals, tall, k) && k > 0
    ensures Level(lists, locals, tall, k) == Level(lists, locals, {}, k - 1)
  {
  }

  lemma CountStep(lists: Lists, a: Address, k: nat)
    requires a in lists && lists[a].Valid() && |lists[a].txs| == k > 0
    ensures Count(lists[a := lists[a].Cap(k - 1)]) == Count(lists) - 1
  {
    var cut := lists[a].Cap(k - 1);
    CapCap(lists[a], k - 1, k - 1);
    TotalUpdate(lists, a, cut, Length);
    assert Length(cut) == k - 1 && Length(lists[a]) == k;
  }

  lemma LengthOf(lists: Lists, locals: set<Address>, k: nat, a: Address)
    requires Shelved(lists, true) && a in lists && a !in locals
    ensures |Level(lists, locals, {}, k)[a].txs| == if |lists[a].txs| <= k then |lists[a].txs| else k
  {
    CapCap(lists[a], k, k);
  }

  ghost function SetOf(s: seq<Address>): set<Address> { set a | a in s }

  ghost predicate NoRepeats(s: seq<Address>) {
    forall i, j :: 0 <= i < j < |s| ==> s[i] != s[j]
  }

  /** Who was popped from the spammer queue and who is still in it, while filling to level `k`. */
  ghost predicate Ranked(lists: Lists, locals: set<Address>, guaranteed: nat, offenders: seq<Address>, spammers: set<Address>, k: nat) {
    && k >= guaranteed && NoRepeats(offenders)
    && (forall a :: a in offenders ==> a in lists && a !in locals && a !in spammers && |lists[a].txs| > guaranteed)
    && (forall a :: a in spammers ==> a in lists && a !in locals && guaranteed < |lists[a].txs| <= k)
    && (forall a :: a in lists && a !in locals && |lists[a].txs| > guaranteed ==> a in offenders || a in spammers)
    && (offenders != [] ==> k > guaranteed)
  }

  /** All popped lists reach the level. */
  ghost predicate AtLevel(lists: Lists, offenders: seq<Address>, k: nat) {
    forall a :: a in offenders ==> a in lists && |lists[a].txs| >= k
  }

  /** Popping a longest list makes its length a possible next level. */
  lemma RankedPop(lists: Lists, locals: set<Address>, guaranteed: nat, offenders: seq<Address>, spammers: set<Address>, k: nat, a: Address)
    requires Ranked(lists, locals, guaranteed, offenders, spammers, k) && a in spammers
    requires forall b :: b in spammers ==> |lists[b].txs| <= |lists[a].txs|
    ensures Ranked(lists, locals, guaranteed, offenders + [a], spammers - {a}, k)
    ensures Ranked(lists, locals, guaranteed, offenders + [a], spammers - {a}, |lists[a].txs|)
  {
  }

  /** The lists in `tall` reach `high`, all other non-local ones end at `low` or below. */
  ghost predicate Tower(lists: Lists, locals: set<Address>, tall: seq<Address>, low: nat, high: nat) {
    && NoRepeats(tall) && low <= high
    && (forall a :: a in tall ==> a in lists && a !in locals && |lists[a].txs| >= high)
    && (forall a :: a in lists && a !in locals && a !in tall ==> |lists[a].txs| <= low)
  }

  lemma TowerIsTall(lists: Lists, locals: set<Address>, tall: seq<Address>, low: nat, high: nat)
    requires Tower(lists, locals, tall, low, high) && low < high
    ensures Tall(lists, locals, SetOf(tall), high)
    ensures Tower(lists, locals, tall, low, high - 1)
  {
  }

  /** While filling down to the length of the last popped list, the others popped tower over the rest. */
  lemma RankedTower(lists: Lists, locals: set<Address>, guaranteed: nat, offenders: seq<Address>, spammers: set<Address>, k: nat, a: Address)
    requires a in lists && Ranked(lists, locals, guaranteed, offenders + [a], spammers, |lists[a].txs|)
    requires AtLevel(lists, offenders, k) && k >= |lists[a].txs|
    ensures Tower(lists, locals, offenders, |lists[a].txs|, k)
  {
    assert forall b :: b in offenders ==> b in offenders + [a];
    assert forall b :: b in offenders + [a] ==> b in offenders || b == a;
    assert offenders == (offenders + [a])[..|offenders|];
  }

  /** With the spammer queue empty, the popped lists tower over the rest. */
  lemma RankedDone(lists: Lists, locals: set<Address>, guaranteed: nat, offenders: seq<Address>, k: nat)
    requires Ranked(lists, locals, guaranteed, offenders, {}, k) && AtLevel(lists, offenders, k)
    ensures Tower(lists, locals, offenders, guaranteed, k)
  {
  }

  /** A longest list among some. */
  lemma {:induction false} LongestExists(lists: Lists, some: set<Address>) returns (a: Address)
    requires some != {} && forall b :: b in some ==> b in lists
    ensures a in some && forall b :: b in some ==> |lists[b].txs| <= |lists[a].txs|
    decreases |some|
  {
    a :| a in some;
    var rest := some - {a};
    assert forall b :: b in some ==> b == a || b in rest;
    if rest != {} {
      var c := LongestExists(lists, rest);
      if |lists[a].txs| < |lists[c].txs| {
        a := c;
      }
    }
  }

  lemma LengthAtMostCount(lists: Lists, a: Address)
    requires a in lists
    ensures |lists[a].txs| <= Count(lists)
  {
    TotalRemove(lists, a, Length);
    assert Length(lists[a]) == |lists[a].txs|;
  }

  /** Adds up the lengths of all lists. */
  method CountLists(lists: Lists) returns (count: nat)
    ensures count == Count(lists)
  {
    var todo := lists;
    count := 0;
    while todo != map[]
      invariant count + Count(todo) == Count(lists)
      decreases |todo|
    {
      var a :| a in todo;
      TotalRemove(todo, a, Length);
      count := count + Length(todo[a]);
      todo := todo - {a};
    }
  }

  /** The next tall list in a round still has full level. */
  lemma NextTall(lists: Lists, locals: set<Address>, tall: seq<Address>, i: nat, k: nat)
    requires i < |tall| && NoRepeats(tall) && Tall(lists, locals, SetOf(tall), k) && k > 0 && Shelved(lists, true)
    ensures var now := Level(lists, locals, SetOf(tall[..i]), k);
      && tall[i] in now && |now[tall[i]].txs| == k
      && now[tall[i] := now[tall[i]].Cap(k - 1)] == Level(lists, locals, SetOf(tall[..i + 1]), k)
      && |lists[tall[i]].txs| >= k && now[tall[i]].Valid() && |now[tall[i]].Cap(k - 1).txs| == k - 1
  {
    var a := tall[i];
    assert a in SetOf(tall);
    assert a !in tall[..i];
    assert tall[..i + 1] == tall[..i] + [a];
    assert SetOf(tall[..i + 1]) == SetOf(tall[..i]) + {a};
    assert a !in SetOf(tall[..i]);
    NextLevel(lists, locals, SetOf(tall[..i]), k, a);
  }

  /** Lowering one more of the tall lists by one transaction. */
  lemma NextLevel(lists: Lists, locals: set<Address>, lowered: set<Address>, k: nat, a: Address)
    requires a in lists && a !in locals && a !in lowered && |lists[a].txs| >= k > 0 && Shelved(lists, true)
    ensures var now := Level(lists, locals, lowered, k);
      && a in now && |now[a].txs| == k && now[a].Valid() && |now[a].Cap(k - 1).txs| == k - 1
      && now[a := now[a].Cap(k - 1)] == Level(lists, locals, lowered + {a}, k)
  {
    CutTwice(lists[a], k);
    LevelUpdate(lists, locals, lowered, k, a);
  }

  lemma CutTwice(l: TxList, k: nat)
    requires l.Valid() && |l.txs| >= k > 0
    ensures l.Cap(k).Valid() && |l.Cap(k).txs| == k
    ensures l.Cap(k).Cap(k - 1) == l.Cap(k - 1) && |l.Cap(k - 1).txs| == k - 1
  {
    CapCap(l, k, k - 1);
    CapCap(l, k - 1, k - 1);
  }

  lemma RoundEdges(lists: Lists, locals: set<Address>, tall: seq<Address>, k: nat)
    requires Tall(lists, locals, SetOf(tall), k) && k > 0
    ensures Level(lists, locals, SetOf(tall[..0]), k) == Level(lists, locals, {}, k)
    ensures Level(lists, locals, SetOf(tall[..|tall|]), k) == Level(lists, locals, {}, k - 1)
  {
    assert SetOf(tall[..0]) == {} && tall[..|tall|] == tall;
    LevelDown(lists, locals, SetOf(tall), k);
  }

  lemma LevelLength(lists: Lists, locals: set<Address>, tall: seq<Address>, low: nat, k: nat, a: Address)
    requires Shelved(lists, true) && Tower(lists, locals, tall, low, k) && a in tall
    ensures a in Level(lists, locals, {}, k) && |Level(lists, locals, {}, k)[a].txs| == k
  {
    LengthOf(lists, locals, k, a);
  }

  /** The first list popped is a longest of all non-local ones. */
  lemma RankedFirst(lists: Lists, locals: set<Address>, guaranteed: nat, a: Address, spammers: set<Address>)
    requires a in lists && Ranked(lists, locals, guaranteed, [a], spammers, |lists[a].txs|)
    ensures Level(lists, locals, {}, |lists[a].txs|) == lists
  {
    assert forall b :: b in [a] ==> b == a;
    LevelAbove(lists, locals, |lists[a].txs|);
  }

  /** What one round of lowering needs and leaves. */
  lemma RoundFacts(lists: Lists, locals: set<Address>, tall: seq<Address>, low: nat, k: nat)
    requires Shelved(lists, true) && Tower(lists, locals, tall, low, k) && low < k && tall != []
    ensures Tall(lists, locals, SetOf(tall), k) && Tower(lists, locals, tall, low, k - 1)
    ensures tall[|tall| - 1] in Level(lists, locals, {}, k - 1) && |Level(lists, locals, {}, k - 1)[tall[|tall| - 1]].txs| == k - 1
  {
    TowerIsTall(lists, locals, tall, low, k);
    LevelLength(lists, locals, tall, low, k - 1, tall[|tall| - 1]);
  }

  /** After lowering to the last popped length, all popped lists are at the level. */
  lemma RankedAll(lists: Lists, offenders: seq<Address>, a: Address, k: nat)
    requires a in lists && AtLevel(lists, offenders, k) && |lists[a].txs| <= k
    ensures AtLevel(lists, offenders + [a], |lists[a].txs|)
  {
  }

  /** With no list popped and none left to pop, nobody exceeds the guarantee. */
  lemma NobodyTall(lists: Lists, locals: set<Address>, guaranteed: nat, k: nat, spammers: set<Address>)
    ensures spammers == {} && Ranked(lists, locals, guaranteed, [], spammers, k) ==> Level(lists, locals, {}, guaranteed) == lists
  {
    if spammers == {} && Ranked(lists, locals, guaranteed, [], spammers, k) {
      LevelAbove(lists, locals, guaranteed);
    }
  }

  lemma RankedStart(lists: Lists, locals: set<Address>, guaranteed: nat, spammers: set<Address>, k: nat)
    requires spammers == set a | a in lists && a !in locals && |lists[a].txs| > guaranteed
    requires k >= guaranteed && forall a :: a in lists ==> |lists[a].txs| <= k
    ensures Ranked(lists, locals, guaranteed, [], spammers, k) && AtLevel(lists, [], k)
  {
  }

  // -------- counting lists by account --------

  ghost function Size(lists: Lists, a: Address): nat { |At(lists, a)| }

  lemma CountWithout(lists: Lists, a: Address)
    ensures Count(lists) == Count(lists - {a}) + Size(lists, a)
  {
    if a in lists {
      TotalRemove(lists, a, Length);
      assert Length(lists[a]) == Size(lists, a);
    } else {
      assert lists - {a} == lists;
    }
  }

  lemma {:induction false} SameCount(x: Lists, y: Lists)
    requires forall b :: Size(x, b) == Size(y, b)
    ensures Count(x) == Count(y)
    decreases |x| + |y|
  {
    if x != map[] {
      var a :| a in x;
      CountWithout(x, a);
      CountWithout(y, a);
      SizesWithout(x, y, a);
      SameCount(x - {a}, y - {a});
    } else if y != map[] {
      var a :| a in y;
      CountWithout(y, a);
      SizesWithout(x, y, a);
      assert x - {a} == x;
      SameCount(x, y - {a});
    }
  }

  lemma SizesWithout(x: Lists, y: Lists, a: Address)
    requires forall b :: b != a ==> Size(x, b) == Size(y, b)
    ensures forall b :: Size(x - {a}, b) == Size(y - {a}, b)
  {
    forall b ensures Size(x - {a}, b) == Size(y - {a}, b) {
      if b != a {
        assert Size(x, b) == Size(y, b);
        assert At(x - {a}, b) == At(x, b) && At(y - {a}, b) == At(y, b);
      }
    }
  }

  /** The count changes by what the one changed list lost. */
  lemma CountChange(x: Lists, y: Lists, a: Address)
    requires SameElsewhere(a, x, y)
    ensures Count(x) - Size(x, a) == Count(y) - Size(y, a)
  {
    CountWithout(x, a);
    CountWithout(y, a);
    SizesWithout(x, y, a);
    SameCount(x - {a}, y - {a});
  }

  // -------- the queue limit --------

  /** An account's last heartbeat, zero when there was none. */
  function Beat(beats: map<Address, int>, a: Address): int {
    if a in beats then beats[a] else 0
  }

  ghost predicate LowestPart(now: Txs, before: Txs) {
    exists k: nat :: now == Lowest(before, k)
  }

  /** Queues are cut from the top, locals not at all, and only when all later-active accounts lost theirs. */
  ghost predicate QueueCut(before: Lists, now: Lists, locals: set<Address>, beats: map<Address, int>) {
    && (forall a :: LowestPart(At(now, a), At(before, a)))
    && (forall a :: a in locals ==> At(now, a) == At(before, a))
    && (forall a, b :: a in before && b in before && b !in locals && Beat(beats, b) > Beat(beats, a) && At(now, a) != At(before, a) ==> At(now, b) == map[])
  }

  /** The accounts still to be looked at are untouched and at most as recent as those done, which are empty. */
  ghost predicate Cutting(before: Lists, now: Lists, locals: set<Address>, beats: map<Address, int>, todo: set<Address>) {
    && (forall a :: a in todo ==> a in before && a !in locals)
    && (forall a :: a in before && a !in locals && a !in todo ==> At(now, a) == map[])
    && (forall a :: a in todo || a !in before || a in locals ==> At(now, a) == At(before, a))
    && (forall a, b :: a in todo && b in before && b !in locals && Beat(beats, b) > Beat(beats, a) && b !in todo ==> At(now, b) == map[])
    && (forall a, b :: a in todo && b in before && b !in locals && b !in todo ==> Beat(beats, b) >= Beat(beats, a))
  }

  lemma CuttingStart(before: Lists, locals: set<Address>, beats: map<Address, int>, todo: set<Address>)
    requires todo == set a | a in before && a !in locals
    ensures Cutting(before, before, locals, beats, todo)
  {
  }

  lemma CuttingStep(before: Lists, now: Lists, locals: set<Address>, beats: map<Address, int>, todo: set<Address>, a: Address, now': Lists)
    requires Cutting(before, now, locals, beats, todo) && a in todo && forall b :: b in todo ==> Beat(beats, b) <= Beat(beats, a)
    requires SameElsewhere(a, now, now') && At(now', a) == map[]
    ensures Cutting(before, now', locals, beats, todo - {a})
  {
  }

  lemma CuttingEnd(before: Lists, now: Lists, locals: set<Address>, beats: map<Address, int>, todo: set<Address>)
    requires Cutting(before, now, locals, beats, todo)
    ensures QueueCut(before, now, locals, beats)
  {
    forall a ensures LowestPart(At(now, a), At(before, a)) {
      LowestSize(At(before, a), |At(before, a)|);
      assert Lowest(At(before, a), 0) == map[];
    }
  }

  lemma CuttingLast(before: Lists, now: Lists, locals: set<Address>, beats: map<Address, int>, todo: set<Address>, a: Address, k: nat, now': Lists)
    requires Cutting(before, now, locals, beats, todo) && a in todo && forall b :: b in todo ==> Beat(beats, b) <= Beat(beats, a)
    requires SameElsewhere(a, now, now') && At(now', a) == Lowest(At(now, a), k)
    ensures QueueCut(before, now', locals, beats)
  {
    CuttingEnd(before, now, locals, beats, todo);
    assert LowestPart(At(now', a), At(before, a));
  }

  lemma {:induction false} LatestExists(beats: map<Address, int>, some: set<Address>) returns (a: Address)
    requires some != {}
    ensures a in some && forall b :: b in some ==> Beat(beats, b) <= Beat(beats, a)
    decreases |some|
  {
    a :| a in some;
    var rest := some - {a};
    assert forall b :: b in some ==> b == a || b in rest;
    if rest != {} {
      var c := LatestExists(beats, rest);
      if Beat(beats, a) < Beat(beats, c) {
        a := c;
      }
    }
  }

  lemma CutSize(m: Txs, k: nat)
    requires k <= |m|
    ensures |Lowest(m, k)| == k && Submap(Lowest(m, k), m) && m - (m - Lowest(m, k).Keys).Keys == Lowest(m, k)
  {
    LowestSize(m, k);
  }

  lemma CuttingMember(before: Lists, now: Lists, locals: set<Address>, beats: map<Address, int>, todo: set<Address>, a: Address)
    requires Cutting(before, now, locals, beats, todo) && a in todo
    ensures At(now, a) == At(before, a) && Lowest(At(now, a), 0) == map[]
  {
  }

  lemma LevelCaps(lists: Lists, locals: set<Address>, k: nat)
    requires forall a :: a in lists ==> lists[a].Valid()
    ensures forall a :: a in lists && a !in locals ==> |Level(lists, locals, {}, k)[a].txs| <= k
  {
    forall a | a in lists && a !in locals ensures |Level(lists, locals, {}, k)[a].txs| <= k {
      LowestSize(lists[a].txs, k);
    }
  }
}
