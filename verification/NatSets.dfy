/** Finite sets of naturals listed in increasing order, and their lowest members. */
module NatSets {

  ghost predicate Ascending(s: seq<nat>) {
    forall i, j :: 0 <= i < j < |s| ==> s[i] < s[j]
  }

  ghost predicate SameMembers(s: seq<nat>, a: set<nat>) {
    forall n :: n in s <==> n in a
  }

  function Below(a: set<nat>, t: nat): set<nat> { set n | n in a && n < t }

  function From(a: set<nat>, t: nat): set<nat> { set n | n in a && n >= t }

  predicate IsLeast(a: set<nat>, n: nat) {
    n in a && forall k :: k in a ==> n <= k
  }

  lemma {:induction false} LeastExists(a: set<nat>) returns (n: nat)
    requires a != {}
    ensures IsLeast(a, n)
    decreases |a|
  {
    n :| n in a;
    var rest := a - {n};
    assert forall x :: x in a ==> x == n || x in rest;
    if rest != {} {
      var k := LeastExists(rest);
      if k < n {
        n := k;
      }
    }
  }

  function Least(a: set<nat>): (n: nat)
    requires a != {}
    ensures IsLeast(a, n)
  {
    assert exists n :: IsLeast(a, n) by { var n := LeastExists(a); }
    var n :| IsLeast(a, n);
    n
  }

  predicate IsGreatest(a: set<nat>, n: nat) {
    n in a && forall k :: k in a ==> k <= n
  }

  lemma {:induction false} GreatestExists(a: set<nat>) returns (n: nat)
    requires a != {}
    ensures IsGreatest(a, n)
    decreases |a|
  {
    n :| n in a;
    var rest := a - {n};
    assert forall x :: x in a ==> x == n || x in rest;
    if rest != {} {
      var k := GreatestExists(rest);
      if k > n {
        n := k;
      }
    }
  }

  function Greatest(a: set<nat>): (n: nat)
    requires a != {}
    ensures IsGreatest(a, n)
  {
    assert exists n :: IsGreatest(a, n) by { var n := GreatestExists(a); }
    var n :| IsGreatest(a, n);
    n
  }

  /** The members of `a` in increasing order. */
  ghost function Sorted(a: set<nat>): (s: seq<nat>)
    ensures Ascending(s) && SameMembers(s, a) && |s| == |a|
    decreases |a|
  {
    if a == {} then [] else
    var n := Least(a);
    var rest := Sorted(a - {n});
    assert forall i :: 0 <= i < |rest| ==> rest[i] in a - {n};
    [n] + rest
  }

  lemma {:induction false} AscendingUnique(s: seq<nat>, t: seq<nat>)
    requires Ascending(s) && Ascending(t)
    requires forall n :: n in s <==> n in t
    ensures s == t
    decreases |s|
  {
    FirstIsMember(s);
    FirstIsMember(t);
    if s != [] {
      FirstIsLeast(s);
      FirstIsLeast(t);
      assert s[0] == t[0];
      forall n ensures n in s[1..] <==> n in t[1..] {
        TailMembers(s, n);
        TailMembers(t, n);
      }
      AscendingUnique(s[1..], t[1..]);
      assert s == [s[0]] + s[1..] && t == [t[0]] + t[1..];
    }
  }

  lemma FirstIsMember(s: seq<nat>)
    ensures s != [] ==> s[0] in s
  {
  }

  lemma FirstIsLeast(s: seq<nat>)
    requires Ascending(s) && s != []
    ensures forall n :: n in s ==> s[0] <= n
  {
  }

  lemma TailMembers(s: seq<nat>, n: nat)
    requires Ascending(s) && s != []
    ensures n in s[1..] <==> n in s && n != s[0]
  {
    if n in s && n != s[0] {
      var i :| 0 <= i < |s| && s[i] == n;
      assert s[1..][i - 1] == n;
    }
  }

  /** Sorting splits at every threshold. */
  lemma SortedSplit(a: set<nat>, t: nat)
    ensures Sorted(a) == Sorted(Below(a, t)) + Sorted(From(a, t))
    ensures |a| == |Below(a, t)| + |From(a, t)|
  {
    var lo, hi := Sorted(Below(a, t)), Sorted(From(a, t));
    forall n | n in lo ensures n < t { assert n in Below(a, t); }
    forall n | n in hi ensures n >= t { assert n in From(a, t); }
    AscendingJoin(lo, hi, t);
    forall n ensures n in Sorted(a) <==> n in lo + hi {
      assert n in a <==> n in Below(a, t) || n in From(a, t);
    }
    AscendingUnique(Sorted(a), lo + hi);
  }

  lemma AscendingJoin(lo: seq<nat>, hi: seq<nat>, t: nat)
    requires Ascending(lo) && Ascending(hi)
    requires (forall n :: n in lo ==> n < t) && (forall n :: n in hi ==> n >= t)
    ensures Ascending(lo + hi)
  {
    forall i, j | 0 <= i < j < |lo + hi| ensures (lo + hi)[i] < (lo + hi)[j] {
      assert i < |lo| ==> lo[i] in lo;
      assert j >= |lo| ==> hi[j - |lo|] in hi;
    }
  }

  /** The number of members below `n`. */
  function Rank(a: set<nat>, n: nat): nat { |Below(a, n)| }

  /** A member stands at the position given by the number of smaller members. */
  lemma RankIsPosition(a: set<nat>, n: nat)
    requires n in a
    ensures Rank(a, n) < |a| && Sorted(a)[Rank(a, n)] == n
  {
    SortedSplit(a, n);
    var hi := Sorted(From(a, n));
    assert n in hi;
    FirstIsLeast(hi);
    assert hi[0] in hi;
  }

  // -------- the k lowest members --------

  /** The `k` lowest members are those with fewer than `k` members below them. */
  function Lowest(a: set<nat>, k: nat): set<nat> {
    set n | n in a && Rank(a, n) < k
  }

  lemma PositionIsRank(a: set<nat>, i: nat)
    requires i < |a|
    ensures Sorted(a)[i] in a && Rank(a, Sorted(a)[i]) == i
  {
    var n := Sorted(a)[i];
    assert n in Sorted(a);
    RankIsPosition(a, n);
  }

  /** They are the first `k` of the sorted listing. */
  lemma LowestIsPrefix(a: set<nat>, k: nat)
    requires k <= |a|
    ensures Sorted(Lowest(a, k)) == Sorted(a)[..k] && |Lowest(a, k)| == k
  {
    forall n ensures n in Sorted(a)[..k] <==> n in Lowest(a, k) { PrefixMember(a, k, n); }
    PrefixAscending(Sorted(a), k);
    AscendingUnique(Sorted(Lowest(a, k)), Sorted(a)[..k]);
  }

  lemma PrefixAscending(s: seq<nat>, k: nat)
    requires Ascending(s) && k <= |s|
    ensures Ascending(s[..k])
  {
  }

  lemma PrefixMember(a: set<nat>, k: nat, n: nat)
    requires k <= |a|
    ensures n in Sorted(a)[..k] <==> n in Lowest(a, k)
  {
    var s := Sorted(a);
    if n in s[..k] {
      var i :| 0 <= i < k && s[i] == n;
      PositionIsRank(a, i);
    }
    if n in a && Rank(a, n) < k {
      RankIsPosition(a, n);
      assert s[..k][Rank(a, n)] == n;
    }
  }

  lemma LowestIsAll(a: set<nat>, k: nat)
    requires |a| <= k
    ensures Lowest(a, k) == a
  {
    forall n | n in a ensures Rank(a, n) < k { RankIsPosition(a, n); }
  }

  lemma RankBelow(a: set<nat>, i: nat, x: nat)
    requires i < |a| && x in a && Rank(a, x) <= i
    ensures x <= Sorted(a)[i] && (x == Sorted(a)[i] || Rank(a, x) < i)
  {
    RankIsPosition(a, x);
    if Rank(a, x) < i {
      AscendingLess(Sorted(a), Rank(a, x), i);
    }
  }

  lemma AscendingLess(s: seq<nat>, i: nat, j: nat)
    requires Ascending(s) && i < j < |s|
    ensures s[i] < s[j]
  {
  }

  /** Member `i` is the highest of the `i + 1` lowest. */
  lemma LowestStep(a: set<nat>, i: nat, n: nat)
    requires i < |a| && n == Sorted(a)[i]
    ensures IsGreatest(Lowest(a, i + 1), n)
    ensures Lowest(a, i + 1) - {n} == Lowest(a, i)
  {
    PositionIsRank(a, i);
    forall x | x in a && Rank(a, x) <= i ensures x <= n && (x == n || Rank(a, x) < i) {
      RankBelow(a, i, x);
    }
    HighestRank(a, i, n);
  }

  lemma HighestRank(a: set<nat>, i: nat, n: nat)
    requires n in a && Rank(a, n) == i
    requires forall x :: x in a && Rank(a, x) <= i ==> x <= n && (x == n || Rank(a, x) < i)
    ensures IsGreatest(Lowest(a, i + 1), n)
    ensures Lowest(a, i + 1) - {n} == Lowest(a, i)
  {
  }

  /** The highest member does not matter for fewer. */
  lemma LowestWithout(a: set<nat>, k: nat, n: nat)
    requires IsGreatest(a, n) && k < |a|
    ensures Lowest(a - {n}, k) == Lowest(a, k)
  {
    assert Below(a, n) == a - {n};
    forall x | x in a - {n} ensures Below(a - {n}, x) == Below(a, x) {}
  }

  lemma LowestSize(a: set<nat>, k: nat)
    ensures |Lowest(a, k)| == if k <= |a| then k else |a|
  {
    if k <= |a| { LowestIsPrefix(a, k); } else { LowestIsAll(a, k); }
  }

  lemma LowestOfLowest(a: set<nat>, k: nat, j: nat)
    requires j <= k
    ensures Lowest(Lowest(a, k), j) == Lowest(a, j)
  {
    if k <= |a| {
      LowestIsPrefix(a, k);
      LowestIsPrefix(a, j);
      LowestIsPrefix(Lowest(a, k), j);
      PrefixOfPrefix(Sorted(a), k, j);
      SortedInjective(Lowest(Lowest(a, k), j), Lowest(a, j));
    } else {
      LowestIsAll(a, k);
    }
  }

  lemma PrefixOfPrefix(s: seq<nat>, k: nat, j: nat)
    requires j <= k <= |s|
    ensures s[..k][..j] == s[..j]
  {
  }

  lemma SortedInjective(a: set<nat>, b: set<nat>)
    requires Sorted(a) == Sorted(b)
    ensures a == b
  {
    assert forall n :: n in a <==> n in Sorted(a);
    assert forall n :: n in b <==> n in Sorted(b);
  }

  // -------- consecutive runs --------

  /** The first number at or after `s` that is not a member. */
  function RunEnd(a: set<nat>, s: nat): (e: nat)
    ensures s <= e && e !in a
    ensures forall n :: s <= n < e ==> n in a
    decreases |From(a, s)|
  {
    if s in a then
      assert From(a, s) == From(a, s + 1) + {s};
      RunEnd(a, s + 1)
    else s
  }

}
