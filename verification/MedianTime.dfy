/** The median time of an event: the weighted median of the times claimed by the events it observes. */
module MedianTime {
  import opened Totals

  /** What an event observes of a validator: its weight, whether it was caught forking, its highest event. */
  datatype Highest = Highest(weight: nat, fork: bool, seqNo: nat, time: nat)

  datatype Entry = Entry(weight: nat, time: nat)

  /** Cheaters weigh nothing; validators without an event vote for the default time. */
  function EntryOf(h: Highest, defaultTime: nat): Entry {
    if h.fork then Entry(0, h.time) else if h.seqNo == 0 then Entry(h.weight, defaultTime) else Entry(h.weight, h.time)
  }

  function EntriesOf(view: seq<Highest>, defaultTime: nat): (s: seq<Entry>)
    ensures |s| == |view| && forall i :: 0 <= i < |s| ==> s[i] == EntryOf(view[i], defaultTime)
  {
    if view == [] then [] else EntriesOf(view[..|view| - 1], defaultTime) + [EntryOf(view[|view| - 1], defaultTime)]
  }

  // -------- weight by time --------

  function Within(e: Entry, lo: nat, hi: nat): nat { if lo <= e.time < hi then e.weight else 0 }

  /** Weight of the entries with times from `lo` below `hi`. */
  function Part(s: seq<Entry>, lo: nat, hi: nat): nat {
    if s == [] then 0 else Part(s[..|s| - 1], lo, hi) + Within(s[|s| - 1], lo, hi)
  }

  function TotalOf(s: seq<Entry>): nat {
    if s == [] then 0 else TotalOf(s[..|s| - 1]) + s[|s| - 1].weight
  }

  lemma {:induction false} PartOfAll(s: seq<Entry>, lo: nat, hi: nat)
    requires forall e :: e in s ==> lo <= e.time < hi
    ensures Part(s, lo, hi) == TotalOf(s)
  {
    if s != [] {
      assert s[|s| - 1] in s;
      PartOfAll(s[..|s| - 1], lo, hi);
    }
  }

  lemma {:induction false} PartOfNone(s: seq<Entry>, lo: nat, hi: nat)
    requires forall e :: e in s ==> !(lo <= e.time < hi) || e.weight == 0
    ensures Part(s, lo, hi) == 0
  {
    if s != [] {
      assert s[|s| - 1] in s;
      PartOfNone(s[..|s| - 1], lo, hi);
    }
  }

  lemma {:induction false} PartSplits(s: seq<Entry>, lo: nat, mid: nat, hi: nat)
    requires lo <= mid <= hi
    ensures Part(s, lo, hi) == Part(s, lo, mid) + Part(s, mid, hi)
  {
    if s != [] {
      PartSplits(s[..|s| - 1], lo, mid, hi);
    }
  }

  lemma {:induction false} PartConcat(s: seq<Entry>, s': seq<Entry>, lo: nat, hi: nat)
    ensures Part(s + s', lo, hi) == Part(s, lo, hi) + Part(s', lo, hi)
    decreases |s'|
  {
    if s' == [] {
      assert s + s' == s;
    } else {
      PartConcat(s, s'[..|s'| - 1], lo, hi);
      assert (s + s')[..|s + s'| - 1] == s + s'[..|s'| - 1];
    }
  }

  lemma {:induction false} PartIsWeight(s: seq<Entry>, lo: nat, hi: nat)
    ensures Part(s, lo, hi) == PartWeight(multiset(s), lo, hi)
  {
    if s != [] {
      var rest, e := s[..|s| - 1], s[|s| - 1];
      PartIsWeight(rest, lo, hi);
      assert s == rest + [e];
      PartWeightTake(multiset(s), e, lo, hi);
      assert multiset(s) - multiset{e} == multiset(rest);
    }
  }

  ghost function PartWeight(m: multiset<Entry>, lo: nat, hi: nat): nat { Weight(m, e => Within(e, lo, hi)) }

  lemma PartWeightTake(m: multiset<Entry>, e: Entry, lo: nat, hi: nat)
    requires e in m
    ensures PartWeight(m, lo, hi) == Within(e, lo, hi) + PartWeight(m - multiset{e}, lo, hi)
  {
    WeightTake(m, e, x => Within(x, lo, hi));
  }

  /** Weights do not depend on the order. */
  lemma PartPermutes(s: seq<Entry>, s': seq<Entry>, lo: nat, hi: nat)
    requires multiset(s) == multiset(s')
    ensures Part(s, lo, hi) == Part(s', lo, hi)
  {
    PartIsWeight(s, lo, hi);
    PartIsWeight(s', lo, hi);
  }

  // -------- the median --------

  /** Less than half of the weight lies before `t`, and at least half not after it. */
  ghost predicate IsMedian(s: seq<Entry>, half: nat, t: nat) {
    Part(s, 0, t) < half <= Part(s, 0, t + 1)
  }

  /** There is only one such time, so the order of entries with equal times cannot matter. */
  lemma MedianUnique(s: seq<Entry>, s': seq<Entry>, half: nat, t: nat, t': nat)
    requires multiset(s) == multiset(s') && IsMedian(s, half, t) && IsMedian(s', half, t')
    ensures t == t'
  {
    PartPermutes(s, s', 0, t);
    PartPermutes(s, s', 0, t + 1);
    if t < t' {
      PartSplits(s', 0, t + 1, t');
    } else if t' < t {
      PartSplits(s', 0, t' + 1, t);
    }
  }

  /** It is the time claimed by a validator with weight that was not caught forking. */
  lemma MedianIsHonest(view: seq<Highest>, defaultTime: nat, half: nat, t: nat) returns (i: nat)
    requires IsMedian(EntriesOf(view, defaultTime), half, t)
    ensures i < |view| && !view[i].fork && view[i].weight > 0 && t == if view[i].seqNo == 0 then defaultTime else view[i].time
  {
    var s := EntriesOf(view, defaultTime);
    PartSplits(s, 0, t, t + 1);
    if forall e :: e in s ==> !(t <= e.time < t + 1) || e.weight == 0 {
      PartOfNone(s, t, t + 1);
    }
    var e :| e in s && t <= e.time < t + 1 && e.weight > 0;
    i :| 0 <= i < |s| && s[i] == e;
  }

  /** Weight of the entries with times outside `lo` to `hi`. */
  ghost function Outside(s: seq<Entry>, lo: nat, hi: nat): int { TotalOf(s) - Part(s, lo, hi + 1) }

  lemma {:induction false} PartBounded(s: seq<Entry>, lo: nat, hi: nat, lo': nat, hi': nat)
    requires hi <= lo' || hi' <= lo
    ensures Part(s, lo, hi) + Part(s, lo', hi') <= TotalOf(s)
  {
    if s != [] {
      PartBounded(s[..|s| - 1], lo, hi, lo', hi');
    }
  }

  /** Liars with less than half of the weight cannot move the median out of the range of all others. */
  lemma MedianWithin(s: seq<Entry>, t: nat, lo: nat, hi: nat)
    requires IsMedian(s, TotalOf(s) / 2, t) && lo <= hi && Outside(s, lo, hi) < TotalOf(s) / 2
    ensures lo <= t <= hi
  {
    if t < lo {
      PartBounded(s, 0, t + 1, lo, hi + 1);
    } else if hi < t {
      PartSplits(s, 0, lo, t);
      PartSplits(s, lo, hi + 1, t);
    }
  }

  ghost predicate SortedByTime(s: seq<Entry>) {
    forall i, j :: 0 <= i < j < |s| ==> s[i].time <= s[j].time
  }

  lemma Reached(s: seq<Entry>, k: nat, half: nat)
    requires SortedByTime(s) && k < |s| && TotalOf(s[..k]) < half <= TotalOf(s[..k + 1])
    ensures IsMedian(s, half, s[k].time)
  {
    var t := s[k].time;
    BeforeIs(s, k, t);
    UpToIs(s, k, t);
  }

  lemma UpToIs(s: seq<Entry>, k: nat, t: nat)
    requires SortedByTime(s) && k < |s| && s[k].time == t
    ensures TotalOf(s[..k + 1]) <= Part(s, 0, t + 1)
  {
    assert s == s[..k + 1] + s[k + 1..];
    PartConcat(s[..k + 1], s[k + 1..], 0, t + 1);
    PartOfAll(s[..k + 1], 0, t + 1);
  }

  lemma BeforeIs(s: seq<Entry>, k: nat, t: nat)
    requires SortedByTime(s) && k < |s| && s[k].time == t
    ensures Part(s, 0, t) <= TotalOf(s[..k])
  {
    assert s == s[..k] + s[k..];
    PartConcat(s[..k], s[k..], 0, t);
    PartOfNone(s[k..], 0, t);
    PartAtMost(s[..k], 0, t);
  }

  lemma {:induction false} PartAtMost(s: seq<Entry>, lo: nat, hi: nat)
    ensures Part(s, lo, hi) <= TotalOf(s)
  {
    if s != [] {
      PartAtMost(s[..|s| - 1], lo, hi);
    }
  }

  lemma {:induction false} TotalIsWeight(s: seq<Entry>)
    ensures TotalOf(s) == WholeWeight(multiset(s))
  {
    if s != [] {
      var rest, e := s[..|s| - 1], s[|s| - 1];
      TotalIsWeight(rest);
      assert s == rest + [e];
      WholeWeightTake(multiset(s), e);
      assert multiset(s) - multiset{e} == multiset(rest);
    }
  }

  ghost function WholeWeight(m: multiset<Entry>): nat { Weight(m, (e: Entry) => e.weight) }

  lemma WholeWeightTake(m: multiset<Entry>, e: Entry)
    requires e in m
    ensures WholeWeight(m) == e.weight + WholeWeight(m - multiset{e})
  {
    WeightTake(m, e, (x: Entry) => x.weight);
  }

  ghost predicate IsSort(sort: seq<Entry> -> seq<Entry>) {
    forall s :: multiset(sort(s)) == multiset(s) && SortedByTime(sort(s))
  }

  /** `t` is the earliest claim, even if that of a cheater. */
  ghost predicate IsEarliest(s: seq<Entry>, t: nat) {
    (forall e :: e in s ==> t <= e.time) && exists e :: e in s && e.time == t
  }

  /** Below an honest weight of two the half is zero, and the earliest claim is taken. */
  ghost predicate IsAnswer(s: seq<Entry>, t: nat) {
    if s == [] then t == 0 else if TotalOf(s) >= 2 then IsMedian(s, TotalOf(s) / 2, t) else IsEarliest(s, t)
  }

  lemma SortedAnswer(s: seq<Entry>, sorted: seq<Entry>, t: nat)
    requires multiset(s) == multiset(sorted) && SortedByTime(sorted)
    requires TotalOf(s) / 2 > 0 ==> IsMedian(sorted, TotalOf(s) / 2, t)
    requires TotalOf(s) / 2 == 0 && sorted != [] ==> t == sorted[0].time
    requires sorted == [] ==> t == 0
    ensures IsAnswer(s, t)
  {
    assert |multiset(s)| == |multiset(sorted)|;
    PartPermutes(sorted, s, 0, t);
    PartPermutes(sorted, s, 0, t + 1);
    forall e ensures e in s <==> e in sorted {
      assert e in s <==> e in multiset(s);
      assert e in sorted <==> e in multiset(sorted);
    }
    if sorted != [] {
      assert sorted[0] in sorted;
    }
  }

  /** The answer is one number, however entries with equal times are sorted. */
  lemma AnswerUnique(s: seq<Entry>, t: nat, t': nat)
    requires IsAnswer(s, t) && IsAnswer(s, t')
    ensures t == t'
  {
    if TotalOf(s) >= 2 {
      MedianUnique(s, s, TotalOf(s) / 2, t, t');
    }
  }

  /** The answer is the weighted median if and only if the honest weight is at least two. */
  lemma AnswerIsMedianIff(s: seq<Entry>, t: nat)
    requires s != [] && IsAnswer(s, t)
    ensures IsMedian(s, TotalOf(s) / 2, t) <==> TotalOf(s) >= 2
  {
  }

  /** Otherwise it may be the time of a cheater. */
  lemma CheaterMayDecide(t: nat)
    requires IsAnswer(EntriesOf([Highest(5, true, 1, 3), Highest(1, false, 1, 9)], 0), t)
    ensures t == 3
  {
    var view := [Highest(5, true, 1, 3), Highest(1, false, 1, 9)];
    var s := EntriesOf(view, 0);
    assert s == [Entry(0, 3), Entry(1, 9)];
    assert s[..1] == [Entry(0, 3)] && s[..1][..0] == [];
    assert TotalOf(s) == 1;
  }

  /** The median over the view of an event, with any way to sort by time. */
  method MedianOf(view: seq<Highest>, defaultTime: nat, sort: seq<Entry> -> seq<Entry>) returns (median: nat)
    requires IsSort(sort)
    ensures IsAnswer(EntriesOf(view, defaultTime), median)
  {
    var highests, honest := Collect(view, defaultTime);
    var sorted := sort(highests);
    SameTotal(highests, sorted);
    var half := honest / 2;
    var current;
    median, current := Walk(sorted, half);
    SortedAnswer(highests, sorted, median);
    assert half <= current <= honest;  // the sanity check of the source
  }

  lemma SameTotal(s: seq<Entry>, s': seq<Entry>)
    requires multiset(s) == multiset(s')
    ensures TotalOf(s) == TotalOf(s')
  {
    TotalIsWeight(s);
    TotalIsWeight(s');
  }

  lemma NextEntry(view: seq<Highest>, i: nat, defaultTime: nat)
    requires i < |view|
    ensures EntriesOf(view[..i + 1], defaultTime) == EntriesOf(view[..i], defaultTime) + [EntryOf(view[i], defaultTime)]
  {
    assert view[..i + 1][..i] == view[..i];
  }

  lemma NextTotal(s: seq<Entry>, e: Entry)
    ensures TotalOf(s + [e]) == TotalOf(s) + e.weight
  {
    assert (s + [e])[..|s|] == s;
  }

  method Collect(view: seq<Highest>, defaultTime: nat) returns (highests: seq<Entry>, honest: nat)
    ensures highests == EntriesOf(view, defaultTime) && honest == TotalOf(highests)
  {
    highests, honest := [], 0;
    for i := 0 to |view|
      invariant highests == EntriesOf(view[..i], defaultTime) && honest == TotalOf(highests)
    {
      var e := EntryOf(view[i], defaultTime);
      NextEntry(view, i, defaultTime);
      NextTotal(highests, e);
      highests := highests + [e];
      honest := honest + e.weight;
    }
    assert view[..|view|] == view;
  }

  /** Adds up weights until half is reached. */
  method Walk(sorted: seq<Entry>, half: nat) returns (median: nat, current: nat)
    requires SortedByTime(sorted) && half <= TotalOf(sorted)
    ensures half > 0 ==> IsMedian(sorted, half, median)
    ensures half == 0 && sorted != [] ==> median == sorted[0].time
    ensures sorted == [] ==> median == 0
    ensures half <= current <= TotalOf(sorted)
  {
    current, median := 0, 0;
    for i := 0 to |sorted|
      invariant current == TotalOf(sorted[..i]) && (i > 0 ==> current < half) && median == 0
    {
      assert sorted[..i + 1][..i] == sorted[..i];
      current := current + sorted[i].weight;
      if current >= half {
        median := sorted[i].time;
        PrefixTotal(sorted, i + 1);
        if half > 0 {
          Reached(sorted, i, half);
        }
        return;
      }
    }
    assert sorted[..|sorted|] == sorted;
  }

  lemma {:induction false} PrefixTotal(s: seq<Entry>, k: nat)
    requires k <= |s|
    ensures TotalOf(s[..k]) <= TotalOf(s)
  {
    if k < |s| {
      PrefixTotal(s[..|s| - 1], k);
      assert s[..|s| - 1][..k] == s[..k];
    } else {
      assert s[..k] == s;
    }
  }
}
