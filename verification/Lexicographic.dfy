/** Byte strings in lexicographic order, big-endian numbers, and sorted iteration over a key-value table. */
module Lexicographic {
  import opened Basics
  import opened Bits

  type Bytes = seq<Byte>

  predicate Less(a: Bytes, b: Bytes) {
    b != [] && (a == [] || a[0] < b[0] || (a[0] == b[0] && Less(a[1..], b[1..])))
  }

  lemma {:induction false} Trichotomy(a: Bytes, b: Bytes)
    ensures Less(a, b) || Less(b, a) || a == b
    ensures !(Less(a, b) && Less(b, a)) && !Less(a, a)
    decreases |a|
  {
    if a != [] && b != [] {
      Trichotomy(a[1..], b[1..]);
      Trichotomy(a[1..], a[1..]);
      assert a == [a[0]] + a[1..] && b == [b[0]] + b[1..];
    } else if a != [] {
      Trichotomy(a[1..], a[1..]);
    }
  }

  lemma {:induction false} Transitive(a: Bytes, b: Bytes, c: Bytes)
    requires Less(a, b) && Less(b, c)
    ensures Less(a, c)
    decreases |a|
  {
    if a != [] && a[0] == b[0] == c[0] {
      Transitive(a[1..], b[1..], c[1..]);
    }
  }

  /** A common front does not matter. */
  lemma {:induction false} SameFront(p: Bytes, a: Bytes, b: Bytes)
    ensures Less(p + a, p + b) <==> Less(a, b)
    decreases |p|
  {
    if p == [] {
      assert p + a == a && p + b == b;
    } else {
      SameFront(p[1..], a, b);
      assert (p + a)[1..] == p[1..] + a && (p + b)[1..] == p[1..] + b;
    }
  }

  /** Fronts of equal length decide first. */
  lemma {:induction false} FrontFirst(a: Bytes, b: Bytes, x: Bytes, y: Bytes)
    requires |a| == |b|
    ensures Less(a + x, b + y) <==> Less(a, b) || (a == b && Less(x, y))
    decreases |a|
  {
    if a == [] {
      assert a + x == x && b + y == y;
    } else {
      FrontFirst(a[1..], b[1..], x, y);
      assert (a + x)[1..] == a[1..] + x && (b + y)[1..] == b[1..] + y;
      assert a == [a[0]] + a[1..] && b == [b[0]] + b[1..];
    }
  }

  // -------- big-endian numbers --------

  function BigEndian(n: nat, k: nat): (b: Bytes)
    ensures |b| == k
  {
    if k == 0 then [] else BigEndian(n / 256, k - 1) + [n % 256]
  }

  function FromBigEndian(b: Bytes): nat {
    if b == [] then 0 else 256 * FromBigEndian(b[..|b| - 1]) + b[|b| - 1]
  }

  lemma {:induction false} BigEndianRound(n: nat, k: nat)
    requires n < Pow256(k)
    ensures FromBigEndian(BigEndian(n, k)) == n
    decreases k
  {
    if k > 0 {
      BigEndianRound(n / 256, k - 1);
      assert BigEndian(n, k)[..k - 1] == BigEndian(n / 256, k - 1);
    }
  }

  /** The byte order of equally long numbers is the order of the numbers. */
  lemma {:induction false} BigEndianOrder(m: nat, n: nat, k: nat)
    requires m < Pow256(k) && n < Pow256(k)
    ensures Less(BigEndian(m, k), BigEndian(n, k)) <==> m < n
    ensures BigEndian(m, k) == BigEndian(n, k) <==> m == n
    decreases k
  {
    if k > 0 {
      BigEndianOrder(m / 256, n / 256, k - 1);
      FrontFirst(BigEndian(m / 256, k - 1), BigEndian(n / 256, k - 1), [m % 256], [n % 256]);
      BigEndianRound(m, k);
      BigEndianRound(n, k);
    }
  }

  // -------- sorted iteration --------

  ghost predicate Ascending(keys: seq<Bytes>) {
    forall i, j :: 0 <= i < j < |keys| ==> Less(keys[i], keys[j])
  }

  ghost predicate IsLeast(keys: set<Bytes>, k: Bytes) {
    k in keys && forall x :: x in keys ==> x == k || Less(k, x)
  }

  lemma {:induction false} LeastExists(keys: set<Bytes>) returns (k: Bytes)
    requires keys != {}
    ensures IsLeast(keys, k)
    decreases |keys|
  {
    k :| k in keys;
    var rest := keys - {k};
    assert forall x :: x in keys ==> x == k || x in rest;
    if rest != {} {
      var r := LeastExists(rest);
      Trichotomy(k, r);
      if Less(r, k) {
        forall x | x in keys ensures x == r || Less(r, x) {}
        k := r;
      } else {
        forall x | x in keys ensures x == k || Less(k, x) {
          if x != k && x != r {
            Transitive(k, r, x);
          }
        }
      }
    }
  }

  predicate IsPrefix(p: Bytes, k: Bytes) { |p| <= |k| && k[..|p|] == p }

  /** The keys that start with `prefix`, from `prefix + start` on. */
  predicate InScan(prefix: Bytes, start: Bytes, k: Bytes) { IsPrefix(prefix, k) && !Less(k, prefix + start) }

  /** What a table iterator yields. */
  method Scan(table: map<Bytes, Bytes>, prefix: Bytes, start: Bytes) returns (keys: seq<Bytes>)
    ensures Ascending(keys) && forall k :: k in keys <==> k in table && InScan(prefix, start, k)
  {
    var todo := set k | k in table && InScan(prefix, start, k);
    keys := [];
    while todo != {}
      invariant forall k :: k in keys || k in todo <==> k in table && InScan(prefix, start, k)
      invariant Ascending(keys) && forall k, x :: k in keys && x in todo ==> Less(k, x)
      decreases todo
    {
      ghost var least := LeastExists(todo);
      var k :| k in todo && forall x :: x in todo ==> x == k || Less(k, x);
      keys := keys + [k];
      todo := todo - {k};
    }
  }
}
