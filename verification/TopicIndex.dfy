/**
 The log index: every log is filed under each of its topics, with the address as topic zero,
 in a sorted key-value table, and found again by a recursive prefix search.
 */
module TopicIndex {
  import opened Basics
  import opened Transactions
  import opened Bits
  import opened Lexicographic

  const MAX_TOPICS: nat := 255

  datatype Log = Log(address: Bytes, topics: seq<Bytes>, data: Bytes, block: nat, txHash: Bytes, index: nat, blockHash: Bytes)

  predicate WellFormed(l: Log) {
    && |l.address| == 20 && |l.txHash| == 32 && |l.blockHash| == 32 && |l.topics| <= MAX_TOPICS
    && l.block < 0x1_0000_0000_0000_0000 && l.index < 0x1_0000_0000_0000_0000
    && forall i :: 0 <= i < |l.topics| ==> |l.topics[i]| == 32
  }

  // -------- keys --------

  function IdOf(l: Log): Bytes { BigEndian(l.block, 8) + l.txHash + BigEndian(l.index, 8) }

  function BlockOf(id: Bytes): nat
    requires |id| == 48
  {
    FromBigEndian(id[..8])
  }

  /** An address as a topic: padded on the left. */
  function Pad(address: Bytes): Bytes { [0, 0, 0, 0, 0, 0, 0, 0, 0, 0, 0, 0] + address }

  /** The address at position zero, then the topics. */
  function TopicAt(l: Log, pos: nat): (t: Bytes)
    requires pos <= |l.topics|
    ensures WellFormed(l) ==> |t| == 32
  {
    if pos == 0 then Pad(l.address) else l.topics[pos - 1]
  }

  function TopicKey(topic: Bytes, pos: Byte, id: Bytes): Bytes { topic + [pos] + id }

  function KeyTopic(k: Bytes): Bytes
    requires |k| == 81
  {
    k[..32]
  }

  function KeyPos(k: Bytes): Byte
    requires |k| == 81
  {
    k[32]
  }

  function KeyId(k: Bytes): Bytes
    requires |k| == 81
  {
    k[33..]
  }

  lemma KeyParts(topic: Bytes, pos: Byte, id: Bytes)
    requires |topic| == 32 && |id| == 48
    ensures var k := TopicKey(topic, pos, id); |k| == 81 && KeyTopic(k) == topic && KeyPos(k) == pos && KeyId(k) == id
  {
  }

  lemma EightBytes()
    ensures Pow256(8) == 0x1_0000_0000_0000_0000
  {
    assert Pow256(1) == 256;
    assert Pow256(3) == 256 * Pow256(2);
    assert Pow256(5) == 256 * Pow256(4);
    assert Pow256(6) == 256 * Pow256(5);
    assert Pow256(7) == 256 * Pow256(6);
  }

  /** An identifier gives back block, transaction and index. */
  lemma IdRound(l: Log)
    requires WellFormed(l)
    ensures |IdOf(l)| == 48 && BlockOf(IdOf(l)) == l.block
    ensures IdOf(l)[8..40] == l.txHash && FromBigEndian(IdOf(l)[40..48]) == l.index
  {
    EightBytes();
    BigEndianRound(l.block, 8);
    BigEndianRound(l.index, 8);
    assert IdOf(l)[..8] == BigEndian(l.block, 8) && IdOf(l)[8..40] == l.txHash && IdOf(l)[40..48] == BigEndian(l.index, 8);
  }

  // -------- records --------

  function Joined(topics: seq<Bytes>): Bytes {
    if topics == [] then [] else topics[0] + Joined(topics[1..])
  }

  function Body(l: Log): Bytes { Joined(l.topics) + l.blockHash + l.address + l.data }

  /** Cuts `n` topics off the front. */
  function Cut(b: Bytes, n: nat): seq<Bytes>
    requires |b| >= 32 * n
  {
    if n == 0 then [] else [b[..32]] + Cut(b[32..], n - 1)
  }

  lemma {:induction false} CutRound(topics: seq<Bytes>, more: Bytes)
    requires forall i :: 0 <= i < |topics| ==> |topics[i]| == 32
    ensures |Joined(topics)| == 32 * |topics| && Cut(Joined(topics) + more, |topics|) == topics
    decreases |topics|
  {
    if topics != [] {
      CutRound(topics[1..], more);
      assert (Joined(topics) + more)[..32] == topics[0] && (Joined(topics) + more)[32..] == Joined(topics[1..]) + more;
      assert topics == [topics[0]] + topics[1..];
    }
  }

  function Fetch(id: Bytes, count: nat, body: Bytes): Log
    requires |id| == 48 && |body| >= 32 * count + 52
  {
    var at := 32 * count;
    Log(body[at + 32..at + 52], Cut(body, count), body[at + 52..], BlockOf(id), id[8..40], FromBigEndian(id[40..48]), body[at..at + 32])
  }

  /** Fetching undoes filing. */
  lemma FetchRound(l: Log)
    requires WellFormed(l)
    ensures |IdOf(l)| == 48 && |Body(l)| >= 32 * |l.topics| + 52 && Fetch(IdOf(l), |l.topics|, Body(l)) == l
  {
    IdRound(l);
    var rest := l.blockHash + l.address + l.data;
    assert Body(l) == Joined(l.topics) + rest;
    CutRound(l.topics, rest);
    var at := 32 * |l.topics|;
    assert Body(l)[at..at + 32] == l.blockHash && Body(l)[at + 32..at + 52] == l.address && Body(l)[at + 52..] == l.data;
  }

  // -------- patterns --------

  type Pattern = seq<seq<Bytes>>

  function CountIn(variants: seq<Bytes>, t: Bytes): nat {
    if variants == [] then 0 else (if variants[0] == t then 1 else 0) + CountIn(variants[1..], t)
  }

  /** How often a log with enough topics is found from position `pos` on. */
  ghost function Mult(l: Log, pattern: Pattern, pos: nat): nat
    requires |pattern| <= |l.topics| + 1
    decreases |pattern| - pos
  {
    if pos >= |pattern| then 1 else
    (if pattern[pos] == [] then 1 else CountIn(pattern[pos], TopicAt(l, pos))) * Mult(l, pattern, pos + 1)
  }

  ghost predicate Distinct(variants: seq<Bytes>) { forall i, j :: 0 <= i < j < |variants| ==> variants[i] != variants[j] }

  /** The log passes: enough topics, and at every position any of the alternatives. */
  predicate Passes(l: Log, pattern: Pattern) {
    |pattern| <= |l.topics| + 1 && forall i :: 0 <= i < |pattern| ==> pattern[i] == [] || TopicAt(l, i) in pattern[i]
  }

  lemma {:induction false} CountDistinct(variants: seq<Bytes>, t: Bytes)
    requires Distinct(variants)
    ensures CountIn(variants, t) == if t in variants then 1 else 0
    decreases |variants|
  {
    if variants != [] {
      CountDistinct(variants[1..], t);
      assert t in variants <==> t == variants[0] || t in variants[1..];
      assert variants[0] !in variants[1..];
    }
  }

  /** Without repeated alternatives a log is found once if it passes and not at all otherwise. */
  lemma {:induction false} MultDistinct(l: Log, pattern: Pattern, pos: nat)
    requires |pattern| <= |l.topics| + 1 && forall i :: 0 <= i < |pattern| ==> Distinct(pattern[i])
    ensures Mult(l, pattern, pos) == if forall i :: pos <= i < |pattern| ==> pattern[i] == [] || TopicAt(l, i) in pattern[i] then 1 else 0
    decreases |pattern| - pos
  {
    if pos < |pattern| {
      MultDistinct(l, pattern, pos + 1);
      CountDistinct(pattern[pos], TopicAt(l, pos));
    }
  }

  // -------- copies --------

  /** A log record on its way: identifier and number of topics. */
  datatype Rec = Rec(id: Bytes, count: nat)

  ghost function Copies(r: Rec, n: nat): seq<Rec> {
    if n == 0 then [] else [r] + Copies(r, n - 1)
  }

  lemma {:induction false} CopiesAdd(r: Rec, m: nat, n: nat)
    ensures Copies(r, m) + Copies(r, n) == Copies(r, m + n)
    decreases m
  {
    if m == 0 {
      assert [] + Copies(r, n) == Copies(r, n);
    } else {
      CopiesAdd(r, m - 1, n);
      assert [r] + Copies(r, m - 1) + Copies(r, n) == [r] + (Copies(r, m - 1) + Copies(r, n));
    }
  }

  lemma {:induction false} CopiesCount(r: Rec, n: nat, x: Rec)
    ensures multiset(Copies(r, n))[x] == (if x == r then n else 0) && |Copies(r, n)| == n
    decreases n
  {
    if n > 0 {
      CopiesCount(r, n - 1, x);
      assert multiset(Copies(r, n)) == multiset([r]) + multiset(Copies(r, n - 1));
    }
  }

  // -------- the tables --------

  type Table = map<Bytes, Bytes>

  type Logs = map<Bytes, Log>

  ghost predicate Filed(logs: Logs) {
    forall id :: id in logs ==> WellFormed(logs[id]) && IdOf(logs[id]) == id && |id| == 48
  }

  /** Every key files some log under one of its topics, with the number of its topics as value. */
  ghost predicate Sound(topics: Table, logs: Logs) {
    forall k {:trigger KeyOk(topics, logs, k)} :: k in topics ==> KeyOk(topics, logs, k)
  }

  ghost predicate KeyOk(topics: Table, logs: Logs, k: Bytes)
    requires k in topics
  {
    && |k| == 81 && KeyId(k) in logs
    && KeyPos(k) <= |logs[KeyId(k)].topics| && KeyTopic(k) == TopicAt(logs[KeyId(k)], KeyPos(k))
    && |logs[KeyId(k)].topics| <= MAX_TOPICS && topics[k] == [|logs[KeyId(k)].topics|]
  }

  /** Log `l` is filed under its topics at positions below `n`. */
  ghost predicate FiledUpTo(topics: Table, l: Log, n: nat) {
    forall pos: nat :: pos < n && pos <= |l.topics| && pos < 256 ==> TopicKey(TopicAt(l, pos), pos, IdOf(l)) in topics
  }

  ghost predicate Complete(topics: Table, logs: Logs) {
    forall id :: id in logs ==> FiledUpTo(topics, logs[id], |logs[id].topics| + 1)
  }

  /** A key is there if and only if its log has that topic at that position. */
  lemma KeyIff(topics: Table, logs: Logs, topic: Bytes, pos: Byte, id: Bytes)
    requires Filed(logs) && Sound(topics, logs) && Complete(topics, logs) && |topic| == 32 && |id| == 48
    ensures TopicKey(topic, pos, id) in topics <==> id in logs && pos <= |logs[id].topics| && TopicAt(logs[id], pos) == topic
  {
    KeyParts(topic, pos, id);
    var k := TopicKey(topic, pos, id);
    if k in topics {
      assert KeyOk(topics, logs, k);
    }
    if id in logs && pos <= |logs[id].topics| && TopicAt(logs[id], pos) == topic {
      assert FiledUpTo(topics, logs[id], |logs[id].topics| + 1);
    }
  }

  class Index {
    var topics: Table
    var recs: Table
    ghost var logs: Logs

    ghost predicate Valid()
      reads this
    {
      && Filed(logs) && Sound(topics, logs) && Complete(topics, logs)
      && recs.Keys == logs.Keys && forall id :: id in logs ==> recs[id] == Body(logs[id])
    }

    constructor ()
      ensures Valid() && logs == map[]
    {
      topics, recs, logs := map[], map[], map[];
    }

    /** Follows one log through the pattern from position `pos` on: it is yielded once per way through the alternatives. */
    method WalkNexts(rec: Rec, pattern: Pattern, pos: nat) returns (out: seq<Rec>)
      requires Valid() && ShapedPattern(pattern) && IsRec(logs, rec) && |pattern| <= rec.count + 1
      ensures out == Copies(rec, Mult(logs[rec.id], pattern, pos))
      decreases |pattern| - pos
    {
      var p := SkipEmpty(logs[rec.id], pattern, pos);
      if p >= |pattern| {
        return [rec];
      }
      out := [];
      var variants := pattern[p];
      ghost var t, way := TopicAt(logs[rec.id], p), Copies(rec, Mult(logs[rec.id], pattern, p + 1));
      for i := 0 to |variants|
        invariant out == Ways(variants[..i], t, way)
      {
        var found := HasKey(variants[i], p, rec.id);
        NextWay(variants, i, t, way);
        if found {
          var more := WalkNexts(rec, pattern, p + 1);
          out := out + more;
        }
      }
      assert variants[..|variants|] == variants;
      AllWays(variants, t, rec, Mult(logs[rec.id], pattern, p + 1));
    }

    /** Looks up the one key of a log for an alternative at a position. */
    method HasKey(variant: Bytes, p: Byte, id: Bytes) returns (found: bool)
      requires Valid() && |variant| == 32 && id in logs && p <= |logs[id].topics|
      ensures found <==> variant == TopicAt(logs[id], p)
    {
      var key := TopicKey(variant, p, id);
      var keys := Scan(topics, key, []);
      ExactScan(topics, logs, key, keys);
      KeyIff(topics, logs, variant, p, id);
      found := keys != [];
    }

    /** Follows the logs of the scanned keys, in order, until one lies past the range. */
    method WalkKeys(keys: seq<Bytes>, pattern: Pattern, p: nat, to: nat) returns (out: seq<Rec>)
      requires Valid() && ShapedPattern(pattern) && p < |pattern| && SameHead(topics, keys) && Ascending(keys)
      ensures out == Chosen(logs, pattern, p, to, keys)
    {
      out := [];
      for j := 0 to |keys|
        invariant out == Chosen(logs, pattern, p, to, keys[..j])
      {
        assert keys[j] in keys;
        assert keys[..j + 1][..j] == keys[..j];
        var past, more := WalkKey(keys[j], pattern, p, to);
        if past {
          AllPast(topics, logs, pattern, p, to, keys, j);
          return;
        }
        out := out + more;
      }
      assert keys[..|keys|] == keys;
    }

    /** Follows one key; `past` if its log lies past the range. */
    method WalkKey(k: Bytes, pattern: Pattern, p: nat, to: nat) returns (past: bool, more: seq<Rec>)
      requires Valid() && ShapedPattern(pattern) && p < |pattern| && k in topics && |k| == 81
      ensures past ==> KeyId(k) in logs && logs[KeyId(k)].block > to
      ensures !past ==> more == Yield(logs, pattern, p, to, k)
    {
      past, more := false, [];
      assert KeyOk(topics, logs, k);
      var id, count := KeyId(k), topics[k][0];
      if count >= |pattern| - 1 {
        IdRound(logs[id]);
        past := BlockOf(id) > to;
        if !past {
          more := WalkNexts(Rec(id, count), pattern, p + 1);
        }
      }
    }

    /** Searches a range of blocks, starting from the keys at the first position with alternatives. */
    method WalkFirst(pattern: Pattern, from: nat, to: nat) returns (out: seq<Rec>)
      requires Valid() && ShapedPattern(pattern) && from < 0x1_0000_0000_0000_0000 && exists i :: 0 <= i < |pattern| && pattern[i] != []
      ensures forall x {:trigger multiset(out)[x]} :: multiset(out)[x] == Hits(logs, pattern, from, to, x)
    {
      var p := FirstPosition(pattern);
      out := [];
      var variants := pattern[p];
      for i := 0 to |variants|
        invariant forall x {:trigger multiset(out)[x]} :: multiset(out)[x] == HitsOf(logs, pattern, p, from, to, variants[..i], x)
      {
        var more := WalkVariant(variants[i], pattern, p, from, to);
        forall x ensures multiset(out + more)[x] == HitsOf(logs, pattern, p, from, to, variants[..i + 1], x) {
          Added(out, more, x);
          NextHits(logs, pattern, p, from, to, variants, i, x);
        }
        out := out + more;
      }
      assert variants[..|variants|] == variants;
      forall x ensures multiset(out)[x] == Hits(logs, pattern, from, to, x) {
        FromFirst(logs, pattern, p, from, to, x);
      }
    }

    method WalkVariant(variant: Bytes, pattern: Pattern, p: nat, from: nat, to: nat) returns (out: seq<Rec>)
      requires Valid() && ShapedPattern(pattern) && p < |pattern| && |variant| == 32 && from < 0x1_0000_0000_0000_0000
      ensures forall x {:trigger multiset(out)[x]} :: multiset(out)[x] == HitsOf(logs, pattern, p, from, to, [variant], x)
    {
      var head := variant + [p];
      var keys := Scan(topics, head, BigEndian(from, 8));
      ScanHead(topics, logs, head, from, keys);
      out := WalkKeys(keys, pattern, p, to);
      forall x ensures multiset(out)[x] == HitsOf(logs, pattern, p, from, to, [variant], x) {
        VariantHits(topics, logs, pattern, p, from, to, variant, keys, x);
      }
    }

    /** Reads the bodies of the records found. */
    method FetchAll(found: seq<Rec>) returns (out: seq<Log>)
      requires Valid() && forall i :: 0 <= i < |found| ==> IsRec(logs, found[i])
      ensures Fetched(logs, found, out)
    {
      out := [];
      for i := 0 to |found|
        invariant Fetched(logs, found[..i], out)
      {
        var l := FetchOne(found[i]);
        FetchedNext(logs, found, i, out, l);
        out := out + [l];
      }
      assert found[..|found|] == found;
    }

    method FetchOne(r: Rec) returns (l: Log)
      requires Valid() && IsRec(logs, r)
      ensures l == logs[r.id]
    {
      FetchRound(logs[r.id]);
      l := Fetch(r.id, r.count, recs[r.id]);
    }

    /** All logs of a range of blocks that pass a pattern; fails on a pattern without alternatives. */
    method FindInBlocks(from: nat, to: nat, pattern: Pattern) returns (found: Option<seq<Log>>)
      requires Valid() && from < 0x1_0000_0000_0000_0000 && ShapedPattern(Limited(pattern))
      ensures found.None? <==> from <= to && forall i :: 0 <= i < |Limited(pattern)| ==> Limited(pattern)[i] == []
      ensures found.Some? ==> forall l {:trigger multiset(found.value)[l]} :: multiset(found.value)[l] == Times(logs, Limited(pattern), from, to, l)
    {
      if from > to {
        return Some([]);
      }
      var limited := Limited(pattern);
      if forall i :: 0 <= i < |limited| ==> limited[i] == [] {
        return None;
      }
      var recs := WalkFirst(limited, from, to);
      forall i | 0 <= i < |recs| ensures IsRec(logs, recs[i]) {
        assert multiset(recs)[recs[i]] > 0;
      }
      var out := FetchAll(recs);
      forall l ensures multiset(out)[l] == Times(logs, limited, from, to, l) {
        FetchedCount(logs, recs, out, l);
      }
      found := Some(out);
    }

    /**
     Answers a filter through the index. The index looks at no more than the first 254 topics of
     the filter. `all` lists the logs that were pushed.
     */
    method IndexedLogs(from: nat, to: nat, addresses: seq<Bytes>, topics: Pattern, rangeLimit: nat, ghost all: seq<Log>) returns (r: Answer)
      requires Valid() && from <= to && from < 0x1_0000_0000_0000_0000 && ShapedFilter(addresses, topics)
      requires DistinctFilter(addresses, topics) && Lists(all, logs)
      ensures r.TooWide? <==> to - from > rangeLimit
      ensures r.EmptyTopics? <==> to - from <= rangeLimit && addresses == [] && forall i :: 0 <= i < |Shown(topics)| ==> topics[i] == []
      ensures r.Found? ==> multiset(r.logs) == multiset(Filtered(all, from, to, addresses, Shown(topics)))
      ensures r.Found? && |topics| < MAX_TOPICS ==> multiset(r.logs) == multiset(Filtered(all, from, to, addresses, topics))
    {
      if to - from > rangeLimit {
        return TooWide;
      }
      var pattern := PatternOf(addresses, topics);
      LimitedIsShown(addresses, topics);
      var found := FindInBlocks(from, to, pattern);
      if found.None? {
        return EmptyTopics;
      }
      IndexAgrees(logs, all, found.value, from, to, addresses, Shown(topics));
      return Found(found.value);
    }

    /** Files a log. Block, transaction and index identify a log. */
    method Push(l: Log)
      requires Valid() && WellFormed(l) && (IdOf(l) in logs ==> logs[IdOf(l)] == l)
      modifies this
      ensures Valid() && logs == old(logs)[IdOf(l) := l]
    {
      IdRound(l);
      topics := FileTopics(topics, logs, l);
      logs := logs[IdOf(l) := l];
      recs := recs[IdOf(l) := Body(l)];
    }
  }

  /** Adds a key for the address and for each topic. */
  method FileTopics(topics: Table, ghost logs: Logs, l: Log) returns (topics': Table)
    requires Filed(logs) && Sound(topics, logs) && Complete(topics, logs)
    requires WellFormed(l) && |IdOf(l)| == 48 && (IdOf(l) in logs ==> logs[IdOf(l)] == l)
    ensures Sound(topics', logs[IdOf(l) := l]) && Complete(topics', logs[IdOf(l) := l])
  {
    var id, count := IdOf(l), |l.topics|;
    GrowLogs(topics, logs, l);
    topics' := topics;
    var pos := 0;
    while pos <= count
      invariant pos <= count + 1 && Sound(topics', logs[id := l]) && FiledUpTo(topics', l, pos)
      invariant topics.Keys <= topics'.Keys
      decreases count + 1 - pos
    {
      PushStep(topics', logs[id := l], l, pos);
      topics' := topics'[TopicKey(TopicAt(l, pos), pos, id) := [count]];
      pos := pos + 1;
    }
    StillComplete(topics, topics', logs, l);
  }

  lemma StillComplete(topics: Table, topics': Table, logs: Logs, l: Log)
    requires Complete(topics, logs) && topics.Keys <= topics'.Keys && FiledUpTo(topics', l, |l.topics| + 1)
    ensures Complete(topics', logs[IdOf(l) := l])
  {
    var logs' := logs[IdOf(l) := l];
    forall x | x in logs' ensures FiledUpTo(topics', logs'[x], |logs'[x].topics| + 1) {
      if x != IdOf(l) {
        assert FiledUpTo(topics, logs[x], |logs[x].topics| + 1);
      }
    }
  }

  /** The next position with alternatives. */
  method SkipEmpty(ghost l: Log, pattern: Pattern, pos: nat) returns (p: nat)
    requires |pattern| <= |l.topics| + 1
    ensures pos <= p && (p < |pattern| ==> pattern[p] != []) && Mult(l, pattern, p) == Mult(l, pattern, pos)
  {
    p := pos;
    while p < |pattern| && pattern[p] == []
      invariant pos <= p && Mult(l, pattern, p) == Mult(l, pattern, pos)
      decreases |pattern| - p
    {
      p := p + 1;
    }
  }

  method FirstPosition(pattern: Pattern) returns (p: nat)
    requires exists i :: 0 <= i < |pattern| && pattern[i] != []
    ensures p < |pattern| && pattern[p] != [] && forall i :: 0 <= i < p ==> pattern[i] == []
  {
    p := 0;
    while pattern[p] == []
      invariant 0 <= p < |pattern| && forall i :: 0 <= i < p ==> pattern[i] == []
      decreases |pattern| - p
    {
      p := p + 1;
    }
  }

  predicate ShapedPattern(pattern: Pattern) {
    |pattern| <= MAX_TOPICS && forall i, j :: 0 <= i < |pattern| && 0 <= j < |pattern[i]| ==> |pattern[i][j]| == 32
  }

  lemma FirstTwoDiffer(keys: seq<Bytes>)
    requires Ascending(keys)
    ensures |keys| > 1 ==> keys[0] != keys[1]
  {
    if |keys| > 1 {
      Trichotomy(keys[0], keys[0]);
      assert Less(keys[0], keys[1]);
    }
  }

  /** Scanning for a whole key yields that key or nothing. */
  lemma ExactScan(topics: Table, logs: Logs, key: Bytes, keys: seq<Bytes>)
    requires Sound(topics, logs) && |key| == 81
    requires Ascending(keys) && forall k :: k in keys <==> k in topics && InScan(key, [], k)
    ensures keys == if key in topics then [key] else []
  {
    assert key + [] == key;
    Trichotomy(key, key);
    forall k | k in keys ensures k == key {
      assert KeyOk(topics, logs, k);
      assert k[..81] == k;
    }
    FirstTwoDiffer(keys);
    assert forall i :: 0 <= i < |keys| ==> keys[i] in keys;
    assert key[..81] == key;
    assert key in keys <==> key in topics;
  }

  /** The keys are in the table and agree in topic and position. */
  ghost predicate SameHead(topics: Table, keys: seq<Bytes>) {
    && (forall k :: k in keys ==> k in topics && |k| == 81)
    && (forall k, k' :: k in keys && k' in keys ==> k[..33] == k'[..33])
  }

  /** What following one key yields. */
  ghost function Yield(logs: Logs, pattern: Pattern, p: nat, to: nat, k: Bytes): seq<Rec> {
    if |k| != 81 || KeyId(k) !in logs then [] else
    var l := logs[KeyId(k)];
    if |pattern| > |l.topics| + 1 || l.block > to then [] else Copies(Rec(KeyId(k), |l.topics|), Mult(l, pattern, p + 1))
  }

  ghost function Chosen(logs: Logs, pattern: Pattern, p: nat, to: nat, keys: seq<Bytes>): seq<Rec> {
    if keys == [] then [] else
    Chosen(logs, pattern, p, to, keys[..|keys| - 1]) + Yield(logs, pattern, p, to, keys[|keys| - 1])
  }

  /** Once a key lies past the range, so do all that follow. */
  lemma AllPast(topics: Table, logs: Logs, pattern: Pattern, p: nat, to: nat, keys: seq<Bytes>, j: nat)
    requires Filed(logs) && Sound(topics, logs) && SameHead(topics, keys) && Ascending(keys) && j < |keys|
    requires KeyId(keys[j]) in logs && logs[KeyId(keys[j])].block > to
    ensures Chosen(logs, pattern, p, to, keys) == Chosen(logs, pattern, p, to, keys[..j])
  {
    forall i | j <= i < |keys| ensures Yield(logs, pattern, p, to, keys[i]) == [] {
      assert keys[i] in keys && keys[j] in keys && KeyOk(topics, logs, keys[i]);
      if i > j {
        LaterBlock(logs, keys[j], keys[i]);
      }
    }
    NothingMore(logs, pattern, p, to, keys, j, |keys|);
    assert keys[..|keys|] == keys;
  }

  lemma {:induction false} NothingMore(logs: Logs, pattern: Pattern, p: nat, to: nat, keys: seq<Bytes>, j: nat, n: nat)
    requires j <= n <= |keys| && forall i :: j <= i < |keys| ==> Yield(logs, pattern, p, to, keys[i]) == []
    ensures Chosen(logs, pattern, p, to, keys[..n]) == Chosen(logs, pattern, p, to, keys[..j])
    decreases n
  {
    if j < n {
      NothingMore(logs, pattern, p, to, keys, j, n - 1);
      assert keys[..n][..n - 1] == keys[..n - 1] && keys[..n][n - 1] == keys[n - 1];
      assert Chosen(logs, pattern, p, to, keys[..n - 1]) + [] == Chosen(logs, pattern, p, to, keys[..n - 1]);
    }
  }

  /** Among keys with the same head the order is that of the blocks first. */
  lemma LaterBlock(logs: Logs, a: Bytes, b: Bytes)
    requires Filed(logs) && |a| == |b| == 81 && a[..33] == b[..33] && KeyId(a) in logs && KeyId(b) in logs && Less(a, b)
    ensures logs[KeyId(a)].block <= logs[KeyId(b)].block
  {
    assert a == a[..33] + KeyId(a) && b == a[..33] + KeyId(b);
    SameFront(a[..33], KeyId(a), KeyId(b));
    LaterId(logs[KeyId(a)], logs[KeyId(b)]);
  }

  lemma LaterId(a: Log, b: Log)
    requires WellFormed(a) && WellFormed(b) && Less(IdOf(a), IdOf(b))
    ensures a.block <= b.block
  {
    EightBytes();
    var ra, rb := a.txHash + BigEndian(a.index, 8), b.txHash + BigEndian(b.index, 8);
    assert IdOf(a) == BigEndian(a.block, 8) + ra && IdOf(b) == BigEndian(b.block, 8) + rb;
    FrontFirst(BigEndian(a.block, 8), BigEndian(b.block, 8), ra, rb);
    BigEndianOrder(a.block, b.block, 8);
  }

  /** A scan from a block number on leaves out exactly the earlier blocks. */
  lemma ScanFrom(head: Bytes, l: Log, from: nat)
    requires WellFormed(l) && from < 0x1_0000_0000_0000_0000
    ensures Less(head + IdOf(l), head + BigEndian(from, 8)) <==> l.block < from
  {
    EightBytes();
    SameFront(head, IdOf(l), BigEndian(from, 8));
    var rest := l.txHash + BigEndian(l.index, 8);
    assert IdOf(l) == BigEndian(l.block, 8) + rest && BigEndian(from, 8) + [] == BigEndian(from, 8);
    FrontFirst(BigEndian(l.block, 8), BigEndian(from, 8), rest, []);
    BigEndianOrder(l.block, from, 8);
  }

  ghost predicate IsRec(logs: Logs, x: Rec) { x.id in logs && x.count == |logs[x.id].topics| }

  /** How often the keys yield a log: as often as its key says, if that is among them. */
  lemma {:induction false} ChosenCount(logs: Logs, pattern: Pattern, p: nat, to: nat, keys: seq<Bytes>, head: Bytes, x: Rec)
    requires |head| == 33 && |x.id| == 48 && IsRec(logs, x) && (forall k :: k in keys ==> |k| == 81 && k[..33] == head) && Ascending(keys)
    ensures multiset(Chosen(logs, pattern, p, to, keys))[x] == if head + x.id in keys then |Yield(logs, pattern, p, to, head + x.id)| else 0
    decreases |keys|
  {
    if keys != [] {
      var front, k := keys[..|keys| - 1], keys[|keys| - 1];
      LastIsNew(keys, front, k, head + x.id);
      assert k == head + KeyId(k) && (head + x.id == k <==> x.id == KeyId(k));
      ChosenCount(logs, pattern, p, to, front, head, x);
      Added(Chosen(logs, pattern, p, to, front), Yield(logs, pattern, p, to, k), x);
      YieldCount(logs, pattern, p, to, k, x);
    }
  }

  lemma Added(a: seq<Rec>, b: seq<Rec>, x: Rec)
    ensures multiset(a + b)[x] == multiset(a)[x] + multiset(b)[x]
  {
  }

  lemma LastIsNew(keys: seq<Bytes>, front: seq<Bytes>, k: Bytes, y: Bytes)
    requires Ascending(keys) && keys != [] && front == keys[..|keys| - 1] && k == keys[|keys| - 1]
    ensures k in keys && (y in keys <==> y in front || y == k) && !(y in front && y == k) && Ascending(front)
    ensures forall z :: z in front ==> z in keys
  {
    assert keys == front + [k];
    Trichotomy(k, k);
    assert forall i :: 0 <= i < |front| ==> front[i] == keys[i] && Less(keys[i], k);
  }

  lemma YieldCount(logs: Logs, pattern: Pattern, p: nat, to: nat, k: Bytes, x: Rec)
    requires |k| == 81
    ensures multiset(Yield(logs, pattern, p, to, k))[x] == if x.id == KeyId(k) && IsRec(logs, x) then |Yield(logs, pattern, p, to, k)| else 0
  {
    if KeyId(k) in logs {
      var l := logs[KeyId(k)];
      if |pattern| <= |l.topics| + 1 && l.block <= to {
        CopiesCount(Rec(KeyId(k), |l.topics|), Mult(l, pattern, p + 1), x);
      }
    }
  }

  ghost predicate Eligible(l: Log, pattern: Pattern, from: nat, to: nat) {
    |pattern| <= |l.topics| + 1 && from <= l.block <= to
  }

  /** How often a search finds the log with identifier `x`. */
  ghost function Hits(logs: Logs, pattern: Pattern, from: nat, to: nat, x: Rec): nat {
    if IsRec(logs, x) && Eligible(logs[x.id], pattern, from, to) then Mult(logs[x.id], pattern, 0) else 0
  }

  /** The same through some alternatives at position `p`. */
  ghost function HitsOf(logs: Logs, pattern: Pattern, p: nat, from: nat, to: nat, variants: seq<Bytes>, x: Rec): nat
    requires p < |pattern|
  {
    if IsRec(logs, x) && Eligible(logs[x.id], pattern, from, to) then CountIn(variants, TopicAt(logs[x.id], p)) * Mult(logs[x.id], pattern, p + 1) else 0
  }

  lemma NextHits(logs: Logs, pattern: Pattern, p: nat, from: nat, to: nat, variants: seq<Bytes>, i: nat, x: Rec)
    requires p < |pattern| && i < |variants|
    ensures HitsOf(logs, pattern, p, from, to, variants[..i + 1], x) ==
      HitsOf(logs, pattern, p, from, to, variants[..i], x) + HitsOf(logs, pattern, p, from, to, [variants[i]], x)
  {
    if IsRec(logs, x) && Eligible(logs[x.id], pattern, from, to) {
      var t := TopicAt(logs[x.id], p);
      assert variants[..i + 1] == variants[..i] + [variants[i]];
      CountAppend(variants[..i], variants[i], t);
      assert CountIn([variants[i]], t) == if variants[i] == t then 1 else 0;
      Distribute(CountIn(variants[..i], t), CountIn([variants[i]], t), Mult(logs[x.id], pattern, p + 1));
    }
  }

  lemma FromFirst(logs: Logs, pattern: Pattern, p: nat, from: nat, to: nat, x: Rec)
    requires p < |pattern| && pattern[p] != [] && forall i :: 0 <= i < p ==> pattern[i] == []
    ensures HitsOf(logs, pattern, p, from, to, pattern[p], x) == Hits(logs, pattern, from, to, x)
  {
    if IsRec(logs, x) && Eligible(logs[x.id], pattern, from, to) {
      EmptyFront(logs[x.id], pattern, 0, p);
    }
  }

  lemma {:induction false} EmptyFront(l: Log, pattern: Pattern, pos: nat, p: nat)
    requires |pattern| <= |l.topics| + 1 && pos <= p < |pattern| && forall i :: pos <= i < p ==> pattern[i] == []
    ensures Mult(l, pattern, pos) == Mult(l, pattern, p)
    decreases p - pos
  {
    if pos < p {
      EmptyFront(l, pattern, pos + 1, p);
    }
  }

  lemma ScanHead(topics: Table, logs: Logs, head: Bytes, from: nat, keys: seq<Bytes>)
    requires Sound(topics, logs) && |head| == 33 && forall k :: k in keys <==> k in topics && InScan(head, BigEndian(from, 8), k)
    ensures SameHead(topics, keys) && forall k :: k in keys ==> |k| == 81 && k[..33] == head
  {
    forall k | k in keys ensures k in topics && |k| == 81 && k[..33] == head {
      assert KeyOk(topics, logs, k);
    }
  }

  lemma VariantHits(topics: Table, logs: Logs, pattern: Pattern, p: nat, from: nat, to: nat, variant: Bytes, keys: seq<Bytes>, x: Rec)
    requires Filed(logs) && Sound(topics, logs) && Complete(topics, logs) && p < |pattern| <= MAX_TOPICS && |variant| == 32 && from < 0x1_0000_0000_0000_0000
    requires Ascending(keys) && (forall k :: k in keys ==> |k| == 81 && k[..33] == variant + [p])
    requires forall k :: k in keys <==> k in topics && InScan(variant + [p], BigEndian(from, 8), k)
    ensures multiset(Chosen(logs, pattern, p, to, keys))[x] == HitsOf(logs, pattern, p, from, to, [variant], x)
  {
    if IsRec(logs, x) {
      ChosenCount(logs, pattern, p, to, keys, variant + [p], x);
      KeyIff(topics, logs, variant, p, x.id);
      InKeys(topics, logs, pattern, p, from, to, variant, keys, x);
    } else {
      NoStrangers(logs, pattern, p, to, keys, x);
    }
  }

  lemma InKeys(topics: Table, logs: Logs, pattern: Pattern, p: nat, from: nat, to: nat, variant: Bytes, keys: seq<Bytes>, x: Rec)
    requires Filed(logs) && p < |pattern| <= MAX_TOPICS && |variant| == 32 && IsRec(logs, x) && from < 0x1_0000_0000_0000_0000
    requires TopicKey(variant, p, x.id) in topics <==> p <= |logs[x.id].topics| && TopicAt(logs[x.id], p) == variant
    requires forall k :: k in keys <==> k in topics && InScan(variant + [p], BigEndian(from, 8), k)
    ensures (if variant + [p] + x.id in keys then |Yield(logs, pattern, p, to, variant + [p] + x.id)| else 0) == HitsOf(logs, pattern, p, from, to, [variant], x)
  {
    ScannedKey(topics, logs, p, from, variant, keys, x.id);
    YieldSize(logs, pattern, p, to, variant + [p] + x.id, x.id);
    if Eligible(logs[x.id], pattern, from, to) {
      OneVariant(variant, TopicAt(logs[x.id], p), Mult(logs[x.id], pattern, p + 1));
    }
  }

  lemma ScannedKey(topics: Table, logs: Logs, p: Byte, from: nat, variant: Bytes, keys: seq<Bytes>, id: Bytes)
    requires Filed(logs) && |variant| == 32 && id in logs && from < 0x1_0000_0000_0000_0000
    requires TopicKey(variant, p, id) in topics <==> p <= |logs[id].topics| && TopicAt(logs[id], p) == variant
    requires forall k :: k in keys <==> k in topics && InScan(variant + [p], BigEndian(from, 8), k)
    ensures variant + [p] + id in keys <==> p <= |logs[id].topics| && TopicAt(logs[id], p) == variant && from <= logs[id].block
    ensures |variant + [p] + id| == 81 && KeyId(variant + [p] + id) == id
  {
    var k := variant + [p] + id;
    KeyParts(variant, p, id);
    assert k == TopicKey(variant, p, id) && k[..33] == variant + [p];
    ScanFrom(variant + [p], logs[id], from);
  }

  lemma YieldSize(logs: Logs, pattern: Pattern, p: nat, to: nat, k: Bytes, id: Bytes)
    requires |k| == 81 && KeyId(k) == id && id in logs
    ensures |Yield(logs, pattern, p, to, k)| ==
      if |pattern| <= |logs[id].topics| + 1 && logs[id].block <= to then Mult(logs[id], pattern, p + 1) else 0
  {
    var l := logs[id];
    if |pattern| <= |l.topics| + 1 && l.block <= to {
      CopiesCount(Rec(id, |l.topics|), Mult(l, pattern, p + 1), Rec(id, 0));
    }
  }

  lemma OneVariant(v: Bytes, t: Bytes, m: nat)
    ensures CountIn([v], t) * m == if v == t then m else 0
  {
    assert CountIn([v], t) == if v == t then 1 else 0;
  }

  lemma {:induction false} NoStrangers(logs: Logs, pattern: Pattern, p: nat, to: nat, keys: seq<Bytes>, x: Rec)
    requires !IsRec(logs, x) && forall k :: k in keys ==> |k| == 81
    ensures multiset(Chosen(logs, pattern, p, to, keys))[x] == 0
    decreases |keys|
  {
    if keys != [] {
      var front, k := keys[..|keys| - 1], keys[|keys| - 1];
      assert k in keys && forall y :: y in front ==> y in keys;
      NoStrangers(logs, pattern, p, to, front, x);
      Added(Chosen(logs, pattern, p, to, front), Yield(logs, pattern, p, to, k), x);
      YieldCount(logs, pattern, p, to, k, x);
    }
  }

  /** One way on for each alternative that is the topic. */
  ghost function Ways(variants: seq<Bytes>, t: Bytes, way: seq<Rec>): seq<Rec> {
    if variants == [] then [] else
    Ways(variants[..|variants| - 1], t, way) + if variants[|variants| - 1] == t then way else []
  }

  lemma NextWay(variants: seq<Bytes>, i: nat, t: Bytes, way: seq<Rec>)
    requires i < |variants|
    ensures variants[i] == t ==> Ways(variants[..i + 1], t, way) == Ways(variants[..i], t, way) + way
    ensures variants[i] != t ==> Ways(variants[..i + 1], t, way) == Ways(variants[..i], t, way)
  {
    var more := variants[..i + 1];
    assert more[..|more| - 1] == variants[..i] && more[|more| - 1] == variants[i];
    assert Ways(variants[..i], t, way) + [] == Ways(variants[..i], t, way);
  }

  lemma {:induction false} AllWays(variants: seq<Bytes>, t: Bytes, r: Rec, m: nat)
    ensures Ways(variants, t, Copies(r, m)) == Copies(r, CountIn(variants, t) * m)
    decreases |variants|
  {
    if variants != [] {
      var front, v := variants[..|variants| - 1], variants[|variants| - 1];
      AllWays(front, t, r, m);
      assert variants == front + [v];
      CountAppend(front, v, t);
      MoreCopies(r, CountIn(front, t), m);
    }
  }

  lemma {:induction false} CountAppend(variants: seq<Bytes>, v: Bytes, t: Bytes)
    ensures CountIn(variants + [v], t) == CountIn(variants, t) + if v == t then 1 else 0
    decreases |variants|
  {
    if variants == [] {
      assert [] + [v] == [v];
    } else {
      CountAppend(variants[1..], v, t);
      assert (variants + [v])[1..] == variants[1..] + [v];
    }
  }

  lemma MoreCopies(r: Rec, c: nat, m: nat)
    ensures Copies(r, c * m) + Copies(r, m) == Copies(r, (c + 1) * m)
    ensures Copies(r, c * m) + [] == Copies(r, c * m)
  {
    CopiesAdd(r, c * m, m);
    assert c * m + m == (c + 1) * m;
  }

  lemma GrowLogs(topics: Table, logs: Logs, l: Log)
    requires Sound(topics, logs) && (IdOf(l) in logs ==> logs[IdOf(l)] == l)
    ensures Sound(topics, logs[IdOf(l) := l])
  {
    forall k | k in topics ensures KeyOk(topics, logs[IdOf(l) := l], k) {
      assert KeyOk(topics, logs, k);
    }
  }

  lemma PushStep(topics: Table, logs: Logs, l: Log, pos: nat)
    requires WellFormed(l) && |IdOf(l)| == 48 && pos <= |l.topics| && IdOf(l) in logs && logs[IdOf(l)] == l
    requires Sound(topics, logs) && FiledUpTo(topics, l, pos)
    ensures var topics' := topics[TopicKey(TopicAt(l, pos), pos, IdOf(l)) := [|l.topics|]];
      Sound(topics', logs) && FiledUpTo(topics', l, pos + 1)
  {
    var key := TopicKey(TopicAt(l, pos), pos, IdOf(l));
    var topics' := topics[key := [|l.topics|]];
    KeyParts(TopicAt(l, pos), pos, IdOf(l));
    forall k | k in topics' ensures KeyOk(topics', logs, k) {
      if k != key {
        assert KeyOk(topics, logs, k);
      }
    }
  }

  /** Patterns are cut to as many positions as there can be. */
  function Limited(pattern: Pattern): Pattern { if |pattern| > MAX_TOPICS then pattern[..MAX_TOPICS] else pattern }

  ghost predicate Pushed(logs: Logs, l: Log) { IdOf(l) in logs && logs[IdOf(l)] == l }

  /** How often a search finds a log. */
  ghost function Times(logs: Logs, pattern: Pattern, from: nat, to: nat, l: Log): nat {
    if Pushed(logs, l) && Eligible(l, pattern, from, to) then Mult(l, pattern, 0) else 0
  }

  ghost predicate Fetched(logs: Logs, found: seq<Rec>, out: seq<Log>) {
    |out| == |found| && forall i :: 0 <= i < |found| ==> IsRec(logs, found[i]) && out[i] == logs[found[i].id]
  }

  lemma FetchedNext(logs: Logs, found: seq<Rec>, i: nat, out: seq<Log>, l: Log)
    requires i < |found| && Fetched(logs, found[..i], out) && IsRec(logs, found[i]) && l == logs[found[i].id]
    ensures Fetched(logs, found[..i + 1], out + [l])
  {
    assert found[..i + 1] == found[..i] + [found[i]];
  }

  lemma {:induction false} FetchedCount(logs: Logs, found: seq<Rec>, out: seq<Log>, l: Log)
    requires Filed(logs) && Fetched(logs, found, out)
    ensures multiset(out)[l] == if Pushed(logs, l) then multiset(found)[Rec(IdOf(l), |l.topics|)] else 0
    decreases |found|
  {
    if found != [] {
      var n := |found| - 1;
      FetchedCount(logs, found[..n], out[..n], l);
      LastCount(out, l);
      LastCount(found, Rec(IdOf(l), |l.topics|));
      assert IsRec(logs, found[n]) && out[n] == logs[found[n].id];
    }
  }

  lemma LastCount<T>(s: seq<T>, x: T)
    requires s != []
    ensures multiset(s)[x] == multiset(s[..|s| - 1])[x] + if s[|s| - 1] == x then 1 else 0
  {
    assert s == s[..|s| - 1] + [s[|s| - 1]];
  }

  // -------- the simple reference --------

  predicate Accepts(l: Log, from: nat, to: nat, addresses: seq<Bytes>, topics: Pattern) {
    && from <= l.block <= to && (addresses == [] || l.address in addresses) && |topics| <= |l.topics|
    && forall i :: 0 <= i < |topics| ==> topics[i] == [] || l.topics[i] in topics[i]
  }

  ghost function Filtered(logs: seq<Log>, from: nat, to: nat, addresses: seq<Bytes>, topics: Pattern): seq<Log> {
    if logs == [] then [] else
    Filtered(logs[..|logs| - 1], from, to, addresses, topics)
    + if Accepts(logs[|logs| - 1], from, to, addresses, topics) then [logs[|logs| - 1]] else []
  }

  /** Goes through the logs one by one. */
  method FilterLogs(logs: seq<Log>, from: nat, to: nat, addresses: seq<Bytes>, topics: Pattern) returns (out: seq<Log>)
    ensures out == Filtered(logs, from, to, addresses, topics)
  {
    out := [];
    for i := 0 to |logs|
      invariant out == Filtered(logs[..i], from, to, addresses, topics)
    {
      assert logs[..i + 1][..i] == logs[..i];
      if Accepts(logs[i], from, to, addresses, topics) {
        out := out + [logs[i]];
      }
    }
    assert logs[..|logs|] == logs;
  }

  lemma {:induction false} FilteredCount(logs: seq<Log>, from: nat, to: nat, addresses: seq<Bytes>, topics: Pattern, l: Log)
    ensures multiset(Filtered(logs, from, to, addresses, topics))[l] == if Accepts(l, from, to, addresses, topics) then multiset(logs)[l] else 0
    decreases |logs|
  {
    if logs != [] {
      var n := |logs| - 1;
      FilteredCount(logs[..n], from, to, addresses, topics, l);
      assert logs == logs[..n] + [logs[n]];
      assert multiset(logs) == multiset(logs[..n]) + multiset{logs[n]};
    }
  }

  function Padded(addresses: seq<Bytes>): (p: seq<Bytes>)
    ensures |p| == |addresses| && forall i :: 0 <= i < |p| ==> p[i] == Pad(addresses[i])
  {
    if addresses == [] then [] else [Pad(addresses[0])] + Padded(addresses[1..])
  }

  /** The pattern of a filter: addresses first, then topics. */
  function PatternOf(addresses: seq<Bytes>, topics: Pattern): Pattern { [Padded(addresses)] + topics }

  lemma PassesIsAccepts(l: Log, from: nat, to: nat, addresses: seq<Bytes>, topics: Pattern)
    requires from <= l.block <= to
    ensures Passes(l, PatternOf(addresses, topics)) <==> Accepts(l, from, to, addresses, topics)
  {
    var pattern := PatternOf(addresses, topics);
    assert pattern[0] == Padded(addresses) && forall i :: 0 <= i < |topics| ==> pattern[i + 1] == topics[i];
    PadMember(addresses, l.address);
    if Passes(l, pattern) {
      assert pattern[0] == [] || TopicAt(l, 0) in pattern[0];
      forall i | 0 <= i < |topics| ensures topics[i] == [] || l.topics[i] in topics[i] {
        assert pattern[i + 1] == [] || TopicAt(l, i + 1) in pattern[i + 1];
      }
    }
    if Accepts(l, from, to, addresses, topics) {
      forall i | 0 <= i < |pattern| ensures pattern[i] == [] || TopicAt(l, i) in pattern[i] {
        assert i > 0 ==> topics[i - 1] == [] || l.topics[i - 1] in topics[i - 1];
      }
    }
  }

  lemma PadMember(addresses: seq<Bytes>, a: Bytes)
    ensures Pad(a) in Padded(addresses) <==> a in addresses
  {
    forall i | 0 <= i < |addresses| ensures Pad(addresses[i]) == Pad(a) <==> addresses[i] == a {
      assert Pad(addresses[i])[12..] == addresses[i] && Pad(a)[12..] == a;
    }
    if a in addresses {
      var i :| 0 <= i < |addresses| && addresses[i] == a;
      assert Padded(addresses)[i] == Pad(a);
    }
  }

  /**
   Without repeated alternatives the index finds exactly the logs that the simple filter lets
   through, each once. `all` lists the logs that were pushed.
   */
  lemma IndexAgrees(logs: Logs, all: seq<Log>, found: seq<Log>, from: nat, to: nat, addresses: seq<Bytes>, topics: Pattern)
    requires Lists(all, logs)
    requires forall l {:trigger multiset(found)[l]} :: multiset(found)[l] == Times(logs, PatternOf(addresses, topics), from, to, l)
    requires DistinctFilter(addresses, topics)
    ensures multiset(found) == multiset(Filtered(all, from, to, addresses, topics))
  {
    var pattern := PatternOf(addresses, topics);
    PaddedDistinct(addresses);
    assert forall i :: 0 <= i < |pattern| ==> Distinct(pattern[i]);
    forall l ensures multiset(found)[l] == multiset(Filtered(all, from, to, addresses, topics))[l] {
      FilteredCount(all, from, to, addresses, topics, l);
      OneHit(logs, from, to, addresses, topics, l);
    }
  }

  lemma OneHit(logs: Logs, from: nat, to: nat, addresses: seq<Bytes>, topics: Pattern, l: Log)
    requires forall i :: 0 <= i < |PatternOf(addresses, topics)| ==> Distinct(PatternOf(addresses, topics)[i])
    ensures Times(logs, PatternOf(addresses, topics), from, to, l) == if Pushed(logs, l) && Accepts(l, from, to, addresses, topics) then 1 else 0
  {
    var pattern := PatternOf(addresses, topics);
    if Eligible(l, pattern, from, to) {
      MultDistinct(l, pattern, 0);
      PassesIsAccepts(l, from, to, addresses, topics);
    }
  }

  lemma PaddedDistinct(addresses: seq<Bytes>)
    requires Distinct(addresses)
    ensures Distinct(Padded(addresses))
  {
    forall i, j | 0 <= i < j < |addresses| ensures Pad(addresses[i]) != Pad(addresses[j]) {
      assert Pad(addresses[i])[12..] == addresses[i] && Pad(addresses[j])[12..] == addresses[j];
    }
  }

  // -------- filters --------

  datatype Answer = Found(logs: seq<Log>) | TooWide | EmptyTopics

  ghost predicate Lists(all: seq<Log>, logs: Logs) {
    forall l {:trigger multiset(all)[l]} :: multiset(all)[l] == if Pushed(logs, l) then 1 else 0
  }

  ghost predicate DistinctFilter(addresses: seq<Bytes>, topics: Pattern) {
    Distinct(addresses) && forall i :: 0 <= i < |topics| ==> Distinct(topics[i])
  }

  ghost predicate ShapedFilter(addresses: seq<Bytes>, topics: Pattern) {
    && (forall i :: 0 <= i < |addresses| ==> |addresses[i]| == 20)
    && forall i, j :: 0 <= i < |topics| && 0 <= j < |topics[i]| ==> |topics[i][j]| == 32
  }

  /** The topics of a filter that the index looks at. */
  function Shown(topics: Pattern): Pattern { if |topics| < MAX_TOPICS then topics else topics[..MAX_TOPICS - 1] }

  lemma LimitedIsShown(addresses: seq<Bytes>, topics: Pattern)
    requires ShapedFilter(addresses, topics)
    ensures Limited(PatternOf(addresses, topics)) == PatternOf(addresses, Shown(topics))
    ensures ShapedPattern(Limited(PatternOf(addresses, topics)))
    ensures (forall i :: 0 <= i < |Limited(PatternOf(addresses, topics))| ==> Limited(PatternOf(addresses, topics))[i] == [])
      <==> addresses == [] && forall i :: 0 <= i < |Shown(topics)| ==> topics[i] == []
  {
    var limited := Limited(PatternOf(addresses, topics));
    assert limited == PatternOf(addresses, Shown(topics));
    assert limited[0] == Padded(addresses) && forall i :: 0 <= i < |Shown(topics)| ==> limited[i + 1] == topics[i];
    forall i, j | 0 <= i < |limited| && 0 <= j < |limited[i]| ensures |limited[i][j]| == 32 {
      assert i > 0 ==> limited[i] == topics[i - 1];
    }
  }

  /** A log that matches the first 254 topics of a filter and has no more. */
  function ShortLog(addresses: seq<Bytes>, topics: Pattern, block: nat): Log
    requires |topics| >= MAX_TOPICS
  {
    var zeros := seq(32, _ => 0);
    Log(if addresses == [] then zeros[..20] else addresses[0],
        seq(MAX_TOPICS - 1, i requires 0 <= i < MAX_TOPICS - 1 => if topics[i] == [] then zeros else topics[i][0]),
        [], block, zeros, 0, zeros)
  }

  /** With more topics there is a log that the index finds and the simple filter rejects. */
  lemma TruncationShows(addresses: seq<Bytes>, topics: Pattern, from: nat, to: nat)
    requires from <= to && from < 0x1_0000_0000_0000_0000 && ShapedFilter(addresses, topics) && |topics| >= MAX_TOPICS
    ensures var l := ShortLog(addresses, topics, from);
      WellFormed(l) && Accepts(l, from, to, addresses, Shown(topics)) && !Accepts(l, from, to, addresses, topics)
  {
    var l, shown := ShortLog(addresses, topics, from), Shown(topics);
    forall i | 0 <= i < |shown| ensures shown[i] == [] || l.topics[i] in shown[i] {
      assert shown[i] == topics[i];
    }
  }

  /** Looking at the first topics only changes nothing, whatever was pushed, exactly if there are no more than 254. */
  lemma TruncationIff(addresses: seq<Bytes>, topics: Pattern, from: nat, to: nat)
    requires from <= to && from < 0x1_0000_0000_0000_0000 && ShapedFilter(addresses, topics)
    ensures (forall l :: WellFormed(l) ==> (Accepts(l, from, to, addresses, Shown(topics)) <==> Accepts(l, from, to, addresses, topics)))
      <==> |topics| < MAX_TOPICS
  {
    if |topics| >= MAX_TOPICS {
      TruncationShows(addresses, topics, from, to);
    }
  }
}
