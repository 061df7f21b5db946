/** Gas power: a token bucket per validator, filled by stake and median time and spent by its events. */
module GasPower {
  import opened Basics
  import opened Transactions

  const WORD: nat := 0x1_0000_0000_0000_0000
  const MAX_INT64: nat := 0x7fff_ffff_ffff_ffff
  const SECOND: nat := 1_000_000_000  // in nanoseconds

  /** A value cut to 64 bits. */
  function Wrap(n: nat): nat { n % WORD }

  function Min(a: int, b: int): int { if a < b then a else b }

  function Max(a: int, b: int): int { if a < b then b else a }

  datatype Config = Config(allocPerSec: nat, maxAllocPeriod: nat, minEnsuredAlloc: nat, startupAllocPeriod: nat, minStartupGas: nat)

  datatype Validator = Validator(id: nat, weight: nat)

  function TotalWeight(vs: seq<Validator>): nat {
    if vs == [] then 0 else TotalWeight(vs[1..]) + vs[0].weight
  }

  /** The weight of a validator, zero for a stranger. */
  function StakeOf(vs: seq<Validator>, id: nat): (w: nat)
    ensures w <= TotalWeight(vs)
  {
    if vs == [] then 0 else if vs[0].id == id then vs[0].weight else StakeOf(vs[1..], id)
  }

  ghost predicate Distinct(vs: seq<Validator>) {
    forall i, j :: 0 <= i < j < |vs| ==> vs[i].id != vs[j].id
  }

  lemma {:induction false} StakeAt(vs: seq<Validator>, i: nat)
    requires i < |vs| && Distinct(vs)
    ensures StakeOf(vs, vs[i].id) == vs[i].weight
  {
    if i > 0 {
      assert Distinct(vs[1..]);
      StakeAt(vs[1..], i - 1);
    }
  }

  /** What fills and bounds the gas power of one validator. */
  datatype Bucket = Bucket(rate: nat, cap: nat, startup: nat)

  function RateOf(alloc: nat, stake: nat, total: nat): nat
    requires stake <= total
  {
    if stake == 0 then 0 else Wrap(alloc * stake / total)
  }

  function BucketOf(vs: seq<Validator>, id: nat, c: Config): Bucket {
    var stake := StakeOf(vs, id);
    if stake == 0 then Bucket(0, 0, 0) else
    var rate := RateOf(c.allocPerSec, stake, TotalWeight(vs));
    Bucket(rate,
           Max(Wrap(rate * (c.maxAllocPeriod / SECOND)), c.minEnsuredAlloc),
           Max(Wrap(rate * (c.startupAllocPeriod / SECOND)), c.minStartupGas))
  }

  /** The bucket holds what its rate grants in the longest period, and opens with what it grants in the startup period, or the minimums. */
  lemma BucketIs(vs: seq<Validator>, id: nat, c: Config)
    requires StakeOf(vs, id) > 0 && c.maxAllocPeriod % SECOND == 0 && c.startupAllocPeriod % SECOND == 0
    requires Grant(BucketOf(vs, id, c).rate, c.maxAllocPeriod) < WORD && Grant(BucketOf(vs, id, c).rate, c.startupAllocPeriod) < WORD
    ensures var b := BucketOf(vs, id, c);
      && b.rate == RateOf(c.allocPerSec, StakeOf(vs, id), TotalWeight(vs))
      && b.cap == Max(Grant(b.rate, c.maxAllocPeriod), c.minEnsuredAlloc)
      && b.startup == Max(Grant(b.rate, c.startupAllocPeriod), c.minStartupGas)
  {
    var rate := BucketOf(vs, id, c).rate;
    WholeSeconds(rate, c.maxAllocPeriod);
    WholeSeconds(rate, c.startupAllocPeriod);
  }

  lemma WholeSeconds(rate: nat, period: nat)
    requires period % SECOND == 0
    ensures Grant(rate, period) == rate * (period / SECOND)
    ensures Grant(rate, period) < WORD ==> Wrap(rate * (period / SECOND)) == Grant(rate, period)
  {
    var q := period / SECOND;
    assert period == q * SECOND;
    Exchange(q, SECOND, rate);
    Exact(q * rate, SECOND);
  }

  lemma Exchange(a: nat, b: nat, c: nat)
    ensures (a * b) * c == (a * c) * b
  {
  }

  lemma Exact(a: nat, b: nat)
    requires b > 0
    ensures a * b / b == a
  {
    DivBounds(a * b, b);
    if a * b / b < a {
      MulMono(a * b / b + 1, a, b);
      Distribute(a * b / b, 1, b);
    } else if a * b / b > a {
      MulMono(a + 1, a * b / b, b);
      Distribute(a, 1, b);
    }
  }

  /** A stranger has no gas power. */
  lemma StrangerHasNone(vs: seq<Validator>, id: nat, c: Config, first: bool, now: nat, since: nat, left: nat)
    requires StakeOf(vs, id) == 0
    ensures Available(BucketOf(vs, id, c), first, now, since, left) == 0
  {
  }

  /** Gas power granted at a rate in a time. */
  function Grant(rate: nat, time: nat): nat { time * rate / SECOND }

  /** Gas power allocated to a bucket between two times; nothing if time did not go forward. */
  function Allocated(rate: nat, since: nat, now: nat): nat {
    if now < since then 0 else Grant(rate, now - since)
  }

  /** Gas power of an event, given what was left at an earlier time. */
  function Available(b: Bucket, first: bool, now: nat, since: nat, left: nat): nat {
    var left := if first then Max(left, b.startup) else left;
    Min(Wrap(Wrap(Allocated(b.rate, since, now)) + left), b.cap)
  }

  // ---------------------------------------------------------------- rates

  lemma DivBounds(a: nat, b: nat)
    requires b > 0
    ensures (a / b) * b <= a < (a / b) * b + b
  {
  }

  lemma DivBelow(a: nat, b: nat, q: nat)
    requires b > 0 && a < q * b
    ensures a / b < q
  {
    if a / b >= q {
      MulMono(q, a / b, b);
    }
  }

  lemma MulMono(a: nat, b: nat, c: nat)
    requires a <= b
    ensures a * c <= b * c
  {
    assert b * c == a * c + (b - a) * c;
  }

  lemma ShareFits(alloc: nat, stake: nat, total: nat)
    requires 0 < stake <= total
    ensures alloc * stake / total <= alloc
  {
    MulMono(stake, total, alloc);
    Distribute(alloc, 1, total);
    DivBelow(alloc * stake, total, alloc + 1);
  }

  /** A rate is the validator's share of the allocation, rounded down; it never wraps. */
  lemma RateIsShare(alloc: nat, stake: nat, total: nat)
    requires alloc < WORD && 0 < stake <= total
    ensures RateOf(alloc, stake, total) * total <= alloc * stake < RateOf(alloc, stake, total) * total + total
  {
    ShareFits(alloc, stake, total);
    assert RateOf(alloc, stake, total) == alloc * stake / total;
    DivBounds(alloc * stake, total);
  }

  function RateSum(alloc: nat, vs: seq<Validator>, total: nat): nat
    requires TotalWeight(vs) <= total
  {
    if vs == [] then 0 else RateSum(alloc, vs[1..], total) + RateOf(alloc, vs[0].weight, total)
  }

  lemma {:induction false} RatesScaled(alloc: nat, vs: seq<Validator>, total: nat)
    requires alloc < WORD && TotalWeight(vs) <= total
    ensures RateSum(alloc, vs, total) * total <= alloc * TotalWeight(vs) <= RateSum(alloc, vs, total) * total + |vs| * total
  {
    if vs != [] {
      var rest, w := vs[1..], vs[0].weight;
      RatesScaled(alloc, rest, total);
      if w > 0 { RateIsShare(alloc, w, total); }
      Distribute(RateSum(alloc, rest, total), RateOf(alloc, w, total), total);
      Distribute(TotalWeight(rest), w, alloc);
      Distribute(|rest|, 1, total);
    }
  }

  lemma Cancel(a: nat, b: nat, c: nat)
    requires c > 0 && a * c <= b * c
    ensures a <= b
  {
    Distribute(b, 1, c);
    if a > b {
      MulMono(b + 1, a, c);
    }
  }

  /** The rates of all validators together give out the allocation, except for less than one unit each. */
  lemma RatesShareAllocation(alloc: nat, vs: seq<Validator>)
    requires alloc < WORD && TotalWeight(vs) > 0
    ensures RateSum(alloc, vs, TotalWeight(vs)) <= alloc <= RateSum(alloc, vs, TotalWeight(vs)) + |vs|
  {
    var total := TotalWeight(vs);
    var rates := RateSum(alloc, vs, total);
    RatesScaled(alloc, vs, total);
    Cancel(rates, alloc, total);
    Distribute(rates, |vs|, total);
    Cancel(alloc, rates + |vs|, total);
  }

  // ---------------------------------------------------------------- one event

  lemma WrapTwice(a: nat, b: nat)
    ensures Wrap(Wrap(a) + b) == Wrap(a + b)
    ensures a + b < WORD ==> Wrap(a + b) == a + b
    ensures a + b >= WORD ==> Wrap(a + b) < a + b
  {
  }

  /** 64-bit wrap-around never gives more than the bucket holds, and exactly when it gives less. */
  lemma AvailableIff(b: Bucket, now: nat, since: nat, left: nat)
    ensures var full := Allocated(b.rate, since, now) + left;
      && Available(b, false, now, since, left) <= Min(full, b.cap)
      && (Available(b, false, now, since, left) == Min(full, b.cap) <==> full < WORD || b.cap <= Wrap(full))
  {
    WrapTwice(Allocated(b.rate, since, now), left);
  }

  /** The short-term and the long-term window. */
  const WINDOWS := 2

  type Powers = g: seq<nat> | |g| == WINDOWS witness [0, 0]

  datatype Event = Event(epoch: nat, creator: nat, hasParent: bool, median: nat, used: nat, left: Powers)

  datatype State = State(prev: Option<Event>, refund: nat)

  datatype Context = Context(epoch: nat, configs: seq<Config>, epochStart: nat, validators: seq<Validator>, states: map<nat, State>)
  {
    /** An event of a validator, handed over with its self-parent if it has one. */
    predicate Suits(e: Event, parent: Option<Event>) {
      && |configs| == WINDOWS
      && e.hasParent == parent.Some?
      && (!e.hasParent ==> e.creator in states)
    }

    function BucketFor(id: nat, k: nat): Bucket
      requires k < |configs|
    {
      BucketOf(validators, id, configs[k])
    }

    /** What a validator had, and when, before its event. */
    function Before(e: Event, parent: Option<Event>, k: nat): (nat, nat)
      requires Suits(e, parent) && k < WINDOWS
    {
      if parent.Some? then (parent.value.left[k], parent.value.median) else
      var s := states[e.creator];
      if s.prev.Some? then (Wrap(s.prev.value.left[k] + s.refund), s.prev.value.median) else (Wrap(s.refund), epochStart)
    }

    function PowerOf(e: Event, parent: Option<Event>, k: nat): nat
      requires Suits(e, parent) && k < WINDOWS
    {
      var (left, since) := Before(e, parent, k);
      Available(BucketFor(e.creator, k), !e.hasParent, e.median, since, left)
    }
  }

  /** All sums for the first event of an epoch stay within the word. */
  ghost predicate FirstFits(ctx: Context, e: Event, k: nat)
    requires ctx.Suits(e, None) && k < WINDOWS
  {
    var s, b := ctx.states[e.creator], ctx.BucketFor(e.creator, k);
    var left, since := if s.prev.Some? then s.prev.value.left[k] else 0, if s.prev.Some? then s.prev.value.median else ctx.epochStart;
    Max(left + s.refund, b.startup) + Allocated(b.rate, since, e.median) < WORD
  }

  /** The first event of an epoch continues from the last one of the epoch before, with the refund, but never below the startup power. */
  lemma EpochBoundary(ctx: Context, e: Event, k: nat)
    requires ctx.Suits(e, None) && k < WINDOWS && FirstFits(ctx, e, k) && ctx.states[e.creator].prev.Some?
    ensures var s, b := ctx.states[e.creator], ctx.BucketFor(e.creator, k);
      var had := Max(s.prev.value.left[k] + s.refund, b.startup);
      var parent := s.prev.value.(left := s.prev.value.left[k := had]);
      ctx.PowerOf(e, None, k) == ctx.PowerOf(e.(hasParent := true), Some(parent), k)
  {
    var s := ctx.states[e.creator];
    WrapTwice(s.prev.value.left[k] + s.refund, 0);
  }

  /** A newcomer starts at the beginning of the epoch with its refund or the startup power, and both are cut to the bucket. */
  lemma Newcomer(ctx: Context, e: Event, k: nat)
    requires ctx.Suits(e, None) && k < WINDOWS && FirstFits(ctx, e, k) && ctx.states[e.creator].prev.None?
    ensures var s, b := ctx.states[e.creator], ctx.BucketFor(e.creator, k);
      && ctx.PowerOf(e, None, k) == Min(Max(s.refund, b.startup) + Allocated(b.rate, ctx.epochStart, e.median), b.cap)
      && (e.median == ctx.epochStart && s.refund == 0 ==> ctx.PowerOf(e, None, k) == Min(b.startup, b.cap))
  {
    var s, b := ctx.states[e.creator], ctx.BucketFor(e.creator, k);
    WrapTwice(s.refund, 0);
    WrapTwice(Allocated(b.rate, ctx.epochStart, e.median), Max(s.refund, b.startup));
    NoGrant(b.rate);
  }

  lemma NoGrant(rate: nat)
    ensures Grant(rate, 0) == 0
  {
  }

  method CalcGasPower(ctx: Context, e: Event, parent: Option<Event>) returns (r: Option<Powers>)
    requires ctx.Suits(e, parent)
    ensures r.None? <==> ctx.epoch != e.epoch
    ensures r.Some? ==> forall k :: 0 <= k < WINDOWS ==> r.value[k] == ctx.PowerOf(e, parent, k)
  {
    if ctx.epoch != e.epoch {
      return None;
    }
    var res: Powers := [0, 0];
    for i := 0 to WINDOWS
      invariant forall k :: 0 <= k < i ==> res[k] == ctx.PowerOf(e, parent, k)
    {
      res := res[i := ctx.PowerOf(e, parent, i)];
    }
    return Some(res);
  }

  /** The part of the basic checks that keeps gas power within the word. */
  predicate NotHuge(e: Event) {
    e.used < MAX_INT64 - 1 && forall k :: 0 <= k < WINDOWS ==> e.left[k] < MAX_INT64 - 1
  }

  /** What is left and what was used make up exactly what was available, in both windows. */
  ghost predicate Balanced(ctx: Context, e: Event, parent: Option<Event>)
    requires ctx.Suits(e, parent)
  {
    forall k :: 0 <= k < WINDOWS ==> e.left[k] + e.used == ctx.PowerOf(e, parent, k)
  }

  datatype Verdict = Accepted | NotRelevant | WrongGasPowerLeft

  /** The balance as it is compared, the sum cut to 64 bits. */
  ghost predicate WordBalanced(ctx: Context, e: Event, parent: Option<Event>)
    requires ctx.Suits(e, parent)
  {
    forall k :: 0 <= k < WINDOWS ==> Wrap(e.left[k] + e.used) == ctx.PowerOf(e, parent, k)
  }

  /** For an event that is not huge the compared sum cannot wrap. */
  lemma TrueBalance(ctx: Context, e: Event, parent: Option<Event>)
    requires ctx.Suits(e, parent)
    requires NotHuge(e) || forall k :: 0 <= k < WINDOWS ==> e.left[k] + e.used < WORD
    ensures WordBalanced(ctx, e, parent) <==> Balanced(ctx, e, parent)
  {
    forall k | 0 <= k < WINDOWS ensures Wrap(e.left[k] + e.used) == e.left[k] + e.used {
      WrapTwice(e.left[k], e.used);
    }
  }

  method Validate(ctx: Context, e: Event, parent: Option<Event>) returns (v: Verdict)
    requires ctx.Suits(e, parent)
    ensures v.NotRelevant? <==> ctx.epoch != e.epoch
    ensures v.Accepted? <==> ctx.epoch == e.epoch && WordBalanced(ctx, e, parent)
    ensures NotHuge(e) ==> (v.Accepted? <==> ctx.epoch == e.epoch && Balanced(ctx, e, parent))
  {
    if NotHuge(e) {
      TrueBalance(ctx, e, parent);
    }
    var powers := CalcGasPower(ctx, e, parent);
    if powers.None? {
      return NotRelevant;
    }
    var same := Compare(e, powers.value);
    v := if same then Accepted else WrongGasPowerLeft;
  }

  method Compare(e: Event, powers: Powers) returns (same: bool)
    ensures same <==> forall k :: 0 <= k < WINDOWS ==> Wrap(e.left[k] + e.used) == powers[k]
  {
    for i := 0 to WINDOWS
      invariant forall k :: 0 <= k < i ==> Wrap(e.left[k] + e.used) == powers[k]
    {
      if Wrap(e.left[i] + e.used) != powers[i] {
        return false;
      }
    }
    return true;
  }

  // ---------------------------------------------------------------- chains of events

  ghost predicate Linked(ctx: Context, p: Event, e: Event) {
    && ctx.Suits(e, Some(p)) && e.creator == p.creator && e.epoch == ctx.epoch
    && NotHuge(e) && Balanced(ctx, e, Some(p))
  }

  /** Events of one validator, each the accepted self-child of the one before. */
  ghost predicate Chain(ctx: Context, es: seq<Event>) {
    && |ctx.configs| == WINDOWS
    && (forall i :: 0 <= i < |es| ==> NotHuge(es[i]) && es[i].creator == es[0].creator)
    && forall i :: 0 < i < |es| ==> Linked(ctx, es[i - 1], es[i])
  }

  /** Gas used by the events after `a` up to `b`. */
  function UsedIn(es: seq<Event>, a: nat, b: nat): nat
    requires a <= b < |es|
    decreases b
  {
    if a == b then 0 else UsedIn(es, a, b - 1) + es[b].used
  }

  /** How far median time moved forward between `a` and `b`. */
  function Climb(es: seq<Event>, a: nat, b: nat): nat
    requires a <= b < |es|
    decreases b
  {
    if a == b then 0 else Climb(es, a, b - 1) + Max(0, es[b].median - es[b - 1].median)
  }

  function GrantedIn(es: seq<Event>, rate: nat, a: nat, b: nat): nat
    requires a <= b < |es|
    decreases b
  {
    if a == b then 0 else GrantedIn(es, rate, a, b - 1) + Allocated(rate, es[b - 1].median, es[b].median)
  }

  lemma {:induction false} ClimbIsElapsed(es: seq<Event>, a: nat, b: nat)
    requires a <= b < |es|
    requires forall i :: a < i <= b ==> es[i - 1].median <= es[i].median
    ensures Climb(es, a, b) == es[b].median - es[a].median
    decreases b
  {
    if a < b {
      ClimbIsElapsed(es, a, b - 1);
    }
  }

  lemma DivSum(a: nat, b: nat, c: nat)
    requires c > 0
    ensures a / c + b / c <= (a + b) / c
  {
    DivBounds(a, c);
    DivBounds(b, c);
    Distribute(a / c, b / c, c);
    if (a + b) / c < a / c + b / c {
      DivBounds(a + b, c);
      MulMono((a + b) / c + 1, a / c + b / c, c);
      Distribute((a + b) / c, 1, c);
    }
  }

  lemma DivMono(a: nat, b: nat, c: nat)
    requires a <= b && c > 0
    ensures a / c <= b / c
  {
    DivSum(a, b - a, c);
  }

  lemma GrantMono(rate: nat, rate': nat, time: nat, time': nat)
    requires rate <= rate' && time <= time'
    ensures Grant(rate, time) <= Grant(rate', time')
  {
    MulMono(rate, rate', time);
    MulMono(time, time', rate');
    DivMono(time * rate, time' * rate', SECOND);
  }

  lemma GrantTimes(rate: nat, a: nat, b: nat)
    ensures Grant(rate, a) + Grant(rate, b) <= Grant(rate, a + b)
  {
    DivSum(a * rate, b * rate, SECOND);
    Distribute(a, b, rate);
  }

  lemma GrantRates(a: nat, b: nat, time: nat)
    ensures Grant(a, time) + Grant(b, time) <= Grant(a + b, time)
  {
    DivSum(time * a, time * b, SECOND);
    Distribute(a, b, time);
  }

  /** Rounding down at every event never grants more than rounding once. */
  lemma {:induction false} GrantedBound(es: seq<Event>, rate: nat, a: nat, b: nat)
    requires a <= b < |es|
    ensures GrantedIn(es, rate, a, b) <= Grant(rate, Climb(es, a, b))
    decreases b
  {
    if a < b {
      GrantedBound(es, rate, a, b - 1);
      var d := Max(0, es[b].median - es[b - 1].median);
      assert Allocated(rate, es[b - 1].median, es[b].median) == Grant(rate, d);
      GrantTimes(rate, Climb(es, a, b - 1), d);
    }
  }

  lemma LinkedStep(ctx: Context, es: seq<Event>, k: nat, i: nat)
    requires Chain(ctx, es) && 0 < i < |es| && k < WINDOWS
    ensures var b, gain := ctx.BucketFor(es[0].creator, k), Allocated(ctx.BucketFor(es[0].creator, k).rate, es[i - 1].median, es[i].median);
      && es[i].left[k] + es[i].used <= Min(gain + es[i - 1].left[k], b.cap)
      && (gain < MAX_INT64 ==> es[i].left[k] + es[i].used == Min(gain + es[i - 1].left[k], b.cap))
  {
    assert Linked(ctx, es[i - 1], es[i]);
    assert NotHuge(es[i - 1]);
    AvailableIff(ctx.BucketFor(es[0].creator, k), es[i].median, es[i - 1].median, es[i - 1].left[k]);
  }

  /**
   Token bucket: what a validator uses between two of its events, and still has, is at most what
   it had and what its rate granted meanwhile. No assumption on sizes or on median times is needed.
   */
  lemma {:induction false} ChainBound(ctx: Context, es: seq<Event>, k: nat, a: nat, b: nat)
    requires Chain(ctx, es) && a <= b < |es| && k < WINDOWS
    ensures UsedIn(es, a, b) + es[b].left[k] <= es[a].left[k] + GrantedIn(es, ctx.BucketFor(es[0].creator, k).rate, a, b)
    ensures UsedIn(es, a, b) + es[b].left[k] <= es[a].left[k] + Grant(ctx.BucketFor(es[0].creator, k).rate, Climb(es, a, b))
    ensures a < b ==> es[b].left[k] + es[b].used <= ctx.BucketFor(es[0].creator, k).cap
    decreases b
  {
    GrantedBound(es, ctx.BucketFor(es[0].creator, k).rate, a, b);
    if a < b {
      ChainBound(ctx, es, k, a, b - 1);
      LinkedStep(ctx, es, k, b);
    }
  }

  /** With median times that do not go back, use is bounded by the bucket and the elapsed time. */
  lemma TokenBucket(ctx: Context, es: seq<Event>, k: nat, a: nat, b: nat)
    requires Chain(ctx, es) && a <= b < |es| && k < WINDOWS
    requires es[a].left[k] <= ctx.BucketFor(es[0].creator, k).cap && forall i :: a < i <= b ==> es[i - 1].median <= es[i].median
    ensures UsedIn(es, a, b) <= ctx.BucketFor(es[0].creator, k).cap + Allocated(ctx.BucketFor(es[0].creator, k).rate, es[a].median, es[b].median)
  {
    ChainBound(ctx, es, k, a, b);
    ClimbIsElapsed(es, a, b);
  }

  /** Every single grant fits the word, next to a level that is not huge. */
  ghost predicate GrantsFit(es: seq<Event>, rate: nat, a: nat, b: nat)
    requires a <= b < |es|
  {
    forall i :: a < i <= b ==> Allocated(rate, es[i - 1].median, es[i].median) < MAX_INT64
  }

  /** The level if the bucket was last full at event `j`. */
  function SinceFull(es: seq<Event>, bucket: Bucket, j: nat, b: nat): int
    requires j <= b < |es|
  {
    bucket.cap - es[j].used + GrantedIn(es, bucket.rate, j, b) - UsedIn(es, j, b)
  }

  /** The level if the bucket was never full after event `a`. */
  function NeverFull(es: seq<Event>, rate: nat, k: nat, a: nat, b: nat): int
    requires a <= b < |es| && k < WINDOWS
  {
    es[a].left[k] + GrantedIn(es, rate, a, b) - UsedIn(es, a, b)
  }

  ghost predicate BelowFull(es: seq<Event>, bucket: Bucket, k: nat, a: nat, b: nat)
    requires a <= b < |es| && k < WINDOWS
  {
    forall j :: a < j <= b ==> es[b].left[k] <= SinceFull(es, bucket, j, b)
  }

  /**
   The level of the bucket in closed form: the least of what it would be had it never been full
   and what it would be had it last been full at each event in between.
   */
  lemma {:induction false} LevelIsLeast(ctx: Context, es: seq<Event>, k: nat, a: nat, b: nat)
    requires Chain(ctx, es) && a <= b < |es| && k < WINDOWS
    requires GrantsFit(es, ctx.BucketFor(es[0].creator, k).rate, a, b)
    ensures es[b].left[k] <= NeverFull(es, ctx.BucketFor(es[0].creator, k).rate, k, a, b)
    ensures BelowFull(es, ctx.BucketFor(es[0].creator, k), k, a, b)
    ensures es[b].left[k] == NeverFull(es, ctx.BucketFor(es[0].creator, k).rate, k, a, b)
      || exists j :: a < j <= b && es[b].left[k] == SinceFull(es, ctx.BucketFor(es[0].creator, k), j, b)
    decreases b
  {
    if a < b {
      var bucket := ctx.BucketFor(es[0].creator, k);
      LevelIsLeast(ctx, es, k, a, b - 1);
      LinkedStep(ctx, es, k, b);
      var gain := Allocated(bucket.rate, es[b - 1].median, es[b].median);
      assert es[b].left[k] + es[b].used == Min(gain + es[b - 1].left[k], bucket.cap);
      forall j | a < j < b ensures SinceFull(es, bucket, j, b) == SinceFull(es, bucket, j, b - 1) + gain - es[b].used {
      }
      assert SinceFull(es, bucket, b, b) == bucket.cap - es[b].used;
      if gain + es[b - 1].left[k] < bucket.cap && es[b - 1].left[k] != NeverFull(es, bucket.rate, k, a, b - 1) {
        var j :| a < j <= b - 1 && es[b - 1].left[k] == SinceFull(es, bucket, j, b - 1);
        assert es[b].left[k] == SinceFull(es, bucket, j, b);
      }
    }
  }

  // ---------------------------------------------------------------- the whole network

  function CapSum(vs: seq<Validator>, ctx: Context, k: nat): nat
    requires k < |ctx.configs|
  {
    if vs == [] then 0 else ctx.BucketFor(vs[0].id, k).cap + CapSum(vs[1..], ctx, k)
  }

  /** Gas used by all events of the given chains. */
  function NetworkUsed(chains: seq<seq<Event>>): nat {
    if chains == [] then 0 else ChainUsed(chains[0]) + NetworkUsed(chains[1..])
  }

  /** A chain of a validator's events that spans no more than `time`, the first of them accepted as well. */
  ghost predicate Spans(ctx: Context, id: nat, es: seq<Event>, k: nat, time: nat)
    requires k < |ctx.configs|
  {
    es != [] ==>
      && Chain(ctx, es) && es[0].creator == id && Climb(es, 0, |es| - 1) <= time
      && es[0].left[k] + es[0].used <= ctx.BucketFor(id, k).cap
  }

  /** The first event of such a chain meets its condition if it was accepted, whatever came before it. */
  lemma AcceptedIsCapped(ctx: Context, e: Event, parent: Option<Event>, k: nat)
    requires ctx.Suits(e, parent) && Balanced(ctx, e, parent) && k < WINDOWS
    ensures e.left[k] + e.used <= ctx.BucketFor(e.creator, k).cap
  {
    assert e.left[k] + e.used == ctx.PowerOf(e, parent, k);
  }

  lemma ChainTotal(ctx: Context, id: nat, es: seq<Event>, k: nat, time: nat)
    requires |ctx.configs| == WINDOWS && k < WINDOWS && es != [] && Spans(ctx, id, es, k, time)
    ensures es[0].used + UsedIn(es, 0, |es| - 1) <= ctx.BucketFor(id, k).cap + Grant(ctx.BucketFor(id, k).rate, time)
  {
    ChainBound(ctx, es, k, 0, |es| - 1);
    var rate := ctx.BucketFor(id, k).rate;
    GrantMono(rate, rate, Climb(es, 0, |es| - 1), time);
  }

  ghost predicate AllSpan(ctx: Context, vs: seq<Validator>, chains: seq<seq<Event>>, k: nat, time: nat)
    requires k < |ctx.configs|
  {
    |chains| == |vs| && forall v :: 0 <= v < |vs| ==> Spans(ctx, vs[v].id, chains[v], k, time)
  }

  function ChainUsed(es: seq<Event>): nat { if es == [] then 0 else es[0].used + UsedIn(es, 0, |es| - 1) }

  lemma FirstBound(ctx: Context, v: Validator, es: seq<Event>, k: nat, time: nat)
    requires |ctx.configs| == WINDOWS && k < WINDOWS && Spans(ctx, v.id, es, k, time)
    requires StakeOf(ctx.validators, v.id) == v.weight
    ensures ChainUsed(es) <= ctx.BucketFor(v.id, k).cap + Grant(RateOf(ctx.configs[k].allocPerSec, v.weight, TotalWeight(ctx.validators)), time)
  {
    if es != [] {
      ChainTotal(ctx, v.id, es, k, time);
    }
  }

  lemma {:induction false} SuffixBound(ctx: Context, vs: seq<Validator>, chains: seq<seq<Event>>, k: nat, time: nat)
    requires |ctx.configs| == WINDOWS && k < WINDOWS && AllSpan(ctx, vs, chains, k, time)
    requires TotalWeight(vs) <= TotalWeight(ctx.validators)
    requires forall v :: 0 <= v < |vs| ==> StakeOf(ctx.validators, vs[v].id) == vs[v].weight
    ensures NetworkUsed(chains) <= CapSum(vs, ctx, k) + Grant(RateSum(ctx.configs[k].allocPerSec, vs, TotalWeight(ctx.validators)), time)
  {
    if vs != [] {
      var total, alloc := TotalWeight(ctx.validators), ctx.configs[k].allocPerSec;
      SuffixBound(ctx, vs[1..], chains[1..], k, time);
      FirstBound(ctx, vs[0], chains[0], k, time);
      GrantRates(RateSum(alloc, vs[1..], total), RateOf(alloc, vs[0].weight, total), time);
    }
  }

  /** All validators together use no more than their buckets hold and the network allocates in the time. */
  lemma NetworkBound(ctx: Context, chains: seq<seq<Event>>, k: nat, time: nat)
    requires |ctx.configs| == WINDOWS && k < WINDOWS && ctx.configs[k].allocPerSec < WORD
    requires Distinct(ctx.validators) && TotalWeight(ctx.validators) > 0 && AllSpan(ctx, ctx.validators, chains, k, time)
    ensures NetworkUsed(chains) <= CapSum(ctx.validators, ctx, k) + Grant(ctx.configs[k].allocPerSec, time)
  {
    var vs, alloc := ctx.validators, ctx.configs[k].allocPerSec;
    forall v | 0 <= v < |vs| ensures StakeOf(vs, vs[v].id) == vs[v].weight {
      StakeAt(vs, v);
    }
    SuffixBound(ctx, vs, chains, k, time);
    RatesShareAllocation(alloc, vs);
    var rates := RateSum(alloc, vs, TotalWeight(vs));
    GrantMono(rates, alloc, time, time);
  }
}
