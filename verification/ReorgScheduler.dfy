/**
 The reorg scheduler of the pool: one loop that accepts requests, merges them and runs at
 most one background reorg at a time, as a state machine over the rendezvous of its
 goroutines. A requester sends its request and then waits for a "done" channel; the loop
 answers on a channel that all requesters share. Runs and callers that add transactions
 work under the pool lock, and send events to the loop while they hold it.
 */
module ReorgScheduler {
  import opened Basics
  import opened Transactions

  type Chan = nat
  type Block = nat

  datatype Request = ResetReq(prev: Option<Block>, next: Block) | PromoteReq(accounts: set<Address>)

  /** A merged reset: from the first old head to the last new one. */
  datatype Reset = Reset(prev: Option<Block>, next: Block)

  datatype Run = Run(reset: Option<Reset>, dirty: Option<set<Address>>)

  /** Where the loop stands: before the launch test, in the select, answering, waiting for the last run, gone. */
  datatype Pc = Top | Select | Answer | Draining | Exited

  /** A request together with the channel that was current when the loop took it. */
  datatype Taken = Taken(req: Request, chan: Chan)

  /** Who holds the pool lock: a caller that adds transactions, or a run. */
  datatype Holder = Adder | Runner(chan: Chan)

  datatype State = State(
    pc: Pc, curDone: Option<Chan>, nextDone: Chan, launchNext: bool,
    reset: Option<Reset>, dirty: Option<set<Address>>,
    runs: map<Chan, Run>,       // background runs that have not ended
    worked: map<Chan, Run>,     // runs that did their work on the pool
    closed: set<Chan>, stopping: bool, made: Chan,
    taken: seq<Taken>,          // all requests so far; a requester is known by its position
    waiting: set<nat>,          // requesters that receive from the shared answer channel
    holding: map<nat, Chan>,    // the channel each requester was given
    lock: Option<Holder>,
    sending: nat)               // events that the holder of the lock still has to send

  function Init(): State {
    State(Top, None, 0, false, None, None, map[], map[], {}, false, 1, [], {}, map[], None, 0)
  }

  datatype Step =
    | Take(req: Request)     // the loop receives a request
    | Give(to: nat)          // the loop's answer reaches some waiting requester
    | Launch                 // a new run starts with everything merged so far
    | Enter                  // nothing to launch: on to the select
    | Acquire(events: nat)   // a caller takes the pool lock and will send some events
    | Lock(chan: Chan, events: nat) // a run takes the pool lock; reinjected transactions may send events
    | Send                   // the loop receives an event from the holder of the lock
    | Skip                   // the holder drops an event because of the shutdown
    | Release                // the caller gives the lock back; only then does it make its request
    | Work(chan: Chan)       // a run ends its work and gives the lock back
    | Finish(chan: Chan)     // a run closes its channel and ends
    | SeeDone                // the loop sees the current run's channel closed
    | Stop                   // the shutdown channel is closed
    | SeeStop                // the loop sees that
    | Leave                  // the last run is over: the loop closes the channel of the next and returns

  predicate Enabled(s: State, step: Step) {
    match step
    case Take(_) => s.pc == Select
    case Give(to) => s.pc == Answer && to in s.waiting
    case Launch => s.pc == Top && s.curDone == None && s.launchNext
    case Enter => s.pc == Top && !(s.curDone == None && s.launchNext)
    case Acquire(_) => s.lock == None
    case Lock(ch, _) => s.lock == None && ch in s.runs && ch !in s.worked
    case Send => s.pc == Select && s.sending > 0
    case Skip => s.stopping && s.sending > 0
    case Release => s.lock == Some(Adder) && s.sending == 0
    case Work(ch) => s.lock == Some(Runner(ch)) && s.sending == 0 && ch in s.runs
    case Finish(ch) => ch in s.runs && ch in s.worked
    case SeeDone => s.pc == Select && s.curDone.Some? && s.curDone.value in s.closed
    case Stop => !s.stopping
    case SeeStop => s.pc == Select && s.stopping
    case Leave => s.pc == Draining && (s.curDone.Some? ==> s.curDone.value in s.closed)
  }

  function Apply(s: State, step: Step): State
    requires Enabled(s, step)
  {
    match step
    case Take(req) =>
      var t := s.(pc := Answer, launchNext := true, taken := s.taken + [Taken(req, s.nextDone)], waiting := s.waiting + {|s.taken|});
      (match req
       case ResetReq(prev, next) => t.(reset := Some(if s.reset.None? then Reset(prev, next) else s.reset.value.(next := next)))
       case PromoteReq(accounts) => t.(dirty := Some(if s.dirty.None? then accounts else s.dirty.value + accounts)))
    case Give(to) => s.(pc := Top, waiting := s.waiting - {to}, holding := s.holding[to := s.nextDone])
    case Launch =>
      s.(pc := Select, runs := s.runs[s.nextDone := Run(s.reset, s.dirty)],
         curDone := Some(s.nextDone), nextDone := s.made, made := s.made + 1,
         launchNext := false, reset := None, dirty := None)
    case Enter => s.(pc := Select)
    case Acquire(events) => s.(lock := Some(Adder), sending := events)
    case Lock(ch, events) => s.(lock := Some(Runner(ch)), sending := events)
    case Send => s.(pc := Top, sending := s.sending - 1)
    case Skip => s.(sending := s.sending - 1)
    case Release => s.(lock := None)
    case Work(ch) => s.(worked := s.worked[ch := s.runs[ch]], lock := None)
    case Finish(ch) => s.(runs := s.runs - {ch}, closed := s.closed + {ch})
    case SeeDone => s.(pc := Top, curDone := None)
    case Stop => s.(stopping := true)
    case SeeStop => s.(pc := Draining)
    case Leave => s.(pc := Exited, closed := s.closed + {s.nextDone})
  }

  /** The state after some steps, if each of them was possible when taken. */
  function Execute(steps: seq<Step>): Option<State> {
    if steps == [] then Some(Init()) else
    var s := Execute(steps[..|steps| - 1]);
    var step := steps[|steps| - 1];
    if s.Some? && Enabled(s.value, step) then Some(Apply(s.value, step)) else None
  }

  // -------- merging --------

  /** The requests for one channel, merged in the order they came. */
  ghost function MergedReset(taken: seq<Taken>, ch: Chan): Option<Reset> {
    if taken == [] then None else
    var m, t := MergedReset(taken[..|taken| - 1], ch), taken[|taken| - 1];
    if t.chan != ch || !t.req.ResetReq? then m else
    Some(Reset(if m.None? then t.req.prev else m.value.prev, t.req.next))
  }

  ghost function MergedDirty(taken: seq<Taken>, ch: Chan): Option<set<Address>> {
    if taken == [] then None else
    var m, t := MergedDirty(taken[..|taken| - 1], ch), taken[|taken| - 1];
    if t.chan != ch || !t.req.PromoteReq? then m else
    Some(if m.None? then t.req.accounts else m.value + t.req.accounts)
  }

  ghost function Merged(taken: seq<Taken>, ch: Chan): Run {
    Run(MergedReset(taken, ch), MergedDirty(taken, ch))
  }

  ghost predicate IsReset(taken: seq<Taken>, ch: Chan, i: nat) {
    i < |taken| && taken[i].chan == ch && taken[i].req.ResetReq?
  }

  /** The run serves request `id`: its accounts are covered, or its reset lies between the run's first old and last new head. */
  ghost predicate Serves(run: Run, taken: seq<Taken>, ch: Chan, id: nat)
    requires id < |taken|
  {
    match taken[id].req
    case PromoteReq(accounts) => run.dirty.Some? && accounts <= run.dirty.value
    case ResetReq(_, _) =>
      exists first: nat, last: nat ::
        && first <= id <= last && IsReset(taken, ch, first) && IsReset(taken, ch, last)
        && (forall i: nat :: IsReset(taken, ch, i) ==> first <= i <= last)
        && run.reset == Some(Reset(taken[first].req.prev, taken[last].req.next))
  }

  /** The merged reset goes from the first to the last one for the channel. */
  ghost predicate Spans(taken: seq<Taken>, ch: Chan, first: nat, last: nat) {
    && first <= last && IsReset(taken, ch, first) && IsReset(taken, ch, last)
    && (forall i: nat :: IsReset(taken, ch, i) ==> first <= i <= last)
    && MergedReset(taken, ch) == Some(Reset(taken[first].req.prev, taken[last].req.next))
  }

  ghost predicate Spanned(taken: seq<Taken>, ch: Chan) {
    if MergedReset(taken, ch).None? then forall i: nat :: !IsReset(taken, ch, i)
    else exists first: nat, last: nat :: Spans(taken, ch, first, last)
  }

  /** Merging keeps the first old head and the last new one. */
  lemma {:induction false} FirstAndLast(taken: seq<Taken>, ch: Chan)
    ensures Spanned(taken, ch)
    decreases |taken|
  {
    if taken != [] {
      var n := |taken| - 1;
      var before := taken[..n];
      FirstAndLast(before, ch);
      assert forall i: nat :: i < n ==> (IsReset(before, ch, i) <==> IsReset(taken, ch, i));
      if IsReset(taken, ch, n) {
        LastJoins(taken, ch);
      } else {
        assert forall i: nat :: IsReset(taken, ch, i) ==> IsReset(before, ch, i);
        if MergedReset(taken, ch).Some? {
          var first: nat, last: nat :| Spans(before, ch, first, last);
          assert Spans(taken, ch, first, last);
        }
      }
    }
  }

  /** One more reset. */
  lemma LastJoins(taken: seq<Taken>, ch: Chan)
    requires taken != [] && IsReset(taken, ch, |taken| - 1) && Spanned(taken[..|taken| - 1], ch)
    ensures MergedReset(taken, ch).Some? && Spanned(taken, ch)
  {
    var n := |taken| - 1;
    var before := taken[..n];
    assert forall i: nat :: i < n ==> (IsReset(before, ch, i) <==> IsReset(taken, ch, i));
    if MergedReset(before, ch).None? {
      assert forall i: nat :: IsReset(taken, ch, i) ==> i < n ==> IsReset(before, ch, i);
      assert Spans(taken, ch, n, n);
    } else {
      var first: nat, last: nat :| Spans(before, ch, first, last);
      assert forall i: nat :: IsReset(taken, ch, i) ==> i == n || IsReset(before, ch, i);
      assert IsReset(taken, ch, first) && taken[first] == before[first];
      assert Spans(taken, ch, first, n);
    }
  }

  lemma {:induction false} AllDirty(taken: seq<Taken>, ch: Chan, id: nat)
    requires id < |taken| && taken[id].chan == ch && taken[id].req.PromoteReq?
    ensures MergedDirty(taken, ch).Some? && taken[id].req.accounts <= MergedDirty(taken, ch).value
    decreases |taken|
  {
    if id < |taken| - 1 {
      AllDirty(taken[..|taken| - 1], ch, id);
    }
  }

  lemma MergedServes(taken: seq<Taken>, ch: Chan, id: nat)
    requires id < |taken| && taken[id].chan == ch
    ensures Serves(Merged(taken, ch), taken, ch, id)
  {
    if taken[id].req.PromoteReq? {
      AllDirty(taken, ch, id);
    } else {
      FirstAndLast(taken, ch);
      assert IsReset(taken, ch, id);
    }
  }

  // -------- the invariant --------

  /** Requests are known only for channels that were made, and belong to the next run if any. */
  ghost predicate Bookkeeping(s: State) {
    && s.nextDone < s.made && s.nextDone !in s.runs && s.nextDone !in s.worked
    && (s.nextDone in s.closed <==> s.pc == Exited)
    && (forall i :: 0 <= i < |s.taken| ==> s.taken[i].chan < s.made)
    && Run(s.reset, s.dirty) == Merged(s.taken, s.nextDone)
    && (s.launchNext <==> exists i :: 0 <= i < |s.taken| && s.taken[i].chan == s.nextDone)
    && (s.pc == Select && s.launchNext ==> s.curDone.Some?)
    && (s.pc == Draining || s.pc == Exited ==> s.stopping)
    && (s.pc == Exited && s.curDone.Some? ==> s.curDone.value in s.closed)
  }

  /** Every other channel belongs to the one current run or to one that did its work and ended. */
  ghost predicate Channels(s: State) {
    && (forall ch :: ch in s.runs ==> s.curDone == Some(ch) && ch !in s.closed && s.runs[ch] == Merged(s.taken, ch))
    && (forall ch :: ch in s.worked ==> ch < s.made && ch != s.nextDone && s.worked[ch] == Merged(s.taken, ch))
    && (forall ch: Chan :: ch < s.made && ch != s.nextDone ==> ch in s.runs || (ch in s.worked && ch in s.closed))
    && (forall ch :: ch in s.closed ==> ch in s.worked || ch == s.nextDone)
    && (s.curDone.Some? ==> s.curDone.value < s.made && s.curDone.value != s.nextDone)
    && (forall ch :: ch in s.runs ==> ch < s.made)
  }

  /** Only the requester whose request was taken last can be waiting, and only while the loop answers. */
  ghost predicate Requesters(s: State) {
    && (s.pc != Answer ==> s.waiting == {})
    && (s.pc == Answer ==> |s.taken| > 0 && s.waiting == {|s.taken| - 1} && s.taken[|s.taken| - 1].chan == s.nextDone)
    && (forall id :: id in s.holding ==> id < |s.taken| && s.holding[id] == s.taken[id].chan)
    && (forall id :: 0 <= id < |s.taken| && id !in s.waiting ==> id in s.holding)
  }

  /** A run that holds the lock has not done its work yet; only a holder sends events. */
  ghost predicate Locking(s: State) {
    && (s.lock.Some? && s.lock.value.Runner? ==> s.lock.value.chan in s.runs && s.lock.value.chan !in s.worked)
    && (s.lock == None ==> s.sending == 0)
  }

  ghost predicate Inv(s: State) { Bookkeeping(s) && Channels(s) && Requesters(s) && Locking(s) }

  lemma TakeMerges(s: State, req: Request, ch: Chan)
    ensures var taken := s.taken + [Taken(req, s.nextDone)];
      && (ch != s.nextDone ==> Merged(taken, ch) == Merged(s.taken, ch))
      && (Run(s.reset, s.dirty) == Merged(s.taken, s.nextDone) && s.pc == Select ==>
            Run(Apply(s, Take(req)).reset, Apply(s, Take(req)).dirty) == Merged(taken, s.nextDone))
  {
    var taken := s.taken + [Taken(req, s.nextDone)];
    assert taken[..|taken| - 1] == s.taken;
  }

  lemma {:induction false} NothingMerged(taken: seq<Taken>, ch: Chan)
    requires forall i :: 0 <= i < |taken| ==> taken[i].chan != ch
    ensures Merged(taken, ch) == Run(None, None)
    decreases |taken|
  {
    if taken != [] {
      NothingMerged(taken[..|taken| - 1], ch);
    }
  }

  lemma TakeBookkeeping(s: State, req: Request)
    requires Inv(s) && Enabled(s, Take(req))
    ensures Bookkeeping(Apply(s, Take(req)))
  {
    var t := Apply(s, Take(req));
    TakeMerges(s, req, s.nextDone);
    assert t.taken[|s.taken|].chan == t.nextDone;
  }

  lemma TakeChannels(s: State, req: Request)
    requires Inv(s) && Enabled(s, Take(req))
    ensures Channels(Apply(s, Take(req)))
  {
    var t := Apply(s, Take(req));
    assert t.runs == s.runs && t.worked == s.worked && t.nextDone == s.nextDone;
    forall ch: Chan | ch != s.nextDone ensures Merged(t.taken, ch) == Merged(s.taken, ch) { TakeMerges(s, req, ch); }
  }

  lemma TakeRequesters(s: State, req: Request)
    requires Inv(s) && Enabled(s, Take(req))
    ensures Requesters(Apply(s, Take(req))) && Locking(Apply(s, Take(req)))
  {
  }

  lemma LaunchKeeps(s: State)
    requires Inv(s) && Enabled(s, Launch)
    ensures Inv(Apply(s, Launch))
  {
    NothingMerged(s.taken, s.made);
  }

  lemma WorkKeeps(s: State, ch: Chan)
    requires Inv(s) && Enabled(s, Work(ch))
    ensures Inv(Apply(s, Work(ch)))
  {
  }

  lemma LockKeeps(s: State, step: Step)
    requires Inv(s) && Enabled(s, step) && (step.Acquire? || step.Lock? || step.Release?)
    ensures Inv(Apply(s, step))
  {
  }

  lemma SendKeeps(s: State, step: Step)
    requires Inv(s) && Enabled(s, step) && (step.Send? || step.Skip?)
    ensures Inv(Apply(s, step))
  {
  }

  lemma FinishKeeps(s: State, ch: Chan)
    requires Inv(s) && Enabled(s, Finish(ch))
    ensures Inv(Apply(s, Finish(ch)))
  {
  }

  lemma LoopKeeps(s: State, step: Step)
    requires Inv(s) && Enabled(s, step) && (step.Enter? || step.SeeDone?)
    ensures Inv(Apply(s, step))
  {
  }

  lemma GiveKeeps(s: State, to: nat)
    requires Inv(s) && Enabled(s, Give(to))
    ensures Inv(Apply(s, Give(to)))
  {
  }

  lemma StopKeeps(s: State, step: Step)
    requires Inv(s) && Enabled(s, step) && (step.Stop? || step.SeeStop? || step.Leave?)
    ensures Inv(Apply(s, step))
  {
  }

  lemma StepKeeps(s: State, step: Step)
    requires Inv(s) && Enabled(s, step)
    ensures Inv(Apply(s, step))
  {
    match step
    case Take(req) =>
      TakeBookkeeping(s, req);
      TakeChannels(s, req);
      TakeRequesters(s, req);
    case Launch => LaunchKeeps(s);
    case Work(ch) => WorkKeeps(s, ch);
    case Acquire(_) => LockKeeps(s, step);
    case Lock(_, _) => LockKeeps(s, step);
    case Send => SendKeeps(s, step);
    case Skip => SendKeeps(s, step);
    case Release => LockKeeps(s, step);
    case Finish(ch) => FinishKeeps(s, ch);
    case Give(to) => GiveKeeps(s, to);
    case Enter => LoopKeeps(s, step);
    case SeeDone => LoopKeeps(s, step);
    case Stop => StopKeeps(s, step);
    case SeeStop => StopKeeps(s, step);
    case Leave => StopKeeps(s, step);
  }

  lemma {:induction false} AlwaysInv(steps: seq<Step>)
    requires Execute(steps).Some?
    ensures Inv(Execute(steps).value)
    decreases |steps|
  {
    if steps != [] {
      var prefix, step := steps[..|steps| - 1], steps[|steps| - 1];
      AlwaysInv(prefix);
      var s := Execute(prefix).value;
      StepKeeps(s, step);
    }
  }

  // -------- what every interleaving guarantees --------

  /**
   In every interleaving: at most one run is active; every requester got the channel that was
   meant for it; its channel, once closed, was closed after a run that serves its request, the
   channel closed at shutdown excepted; and no step closes a channel twice.
   */
  lemma Safety(steps: seq<Step>)
    requires Execute(steps).Some?
    ensures var s := Execute(steps).value;
      && |s.runs| <= 1
      && (forall id :: id in s.holding ==> id < |s.taken| && s.holding[id] == s.taken[id].chan)
      && (forall id :: id in s.holding && s.holding[id] in s.closed && !(s.pc == Exited && s.holding[id] == s.nextDone) ==>
            s.holding[id] in s.worked && Serves(s.worked[s.holding[id]], s.taken, s.holding[id], id))
      && (forall ch :: Enabled(s, Finish(ch)) ==> ch !in s.closed)
      && (Enabled(s, Leave) ==> s.nextDone !in s.closed && s.runs == map[])
  {
    AlwaysInv(steps);
    var s := Execute(steps).value;
    OneRun(s);
    forall id | id in s.holding && s.holding[id] in s.closed && !(s.pc == Exited && s.holding[id] == s.nextDone)
      ensures s.holding[id] in s.worked && Serves(s.worked[s.holding[id]], s.taken, s.holding[id], id)
    {
      MergedServes(s.taken, s.taken[id].chan, id);
    }
    if Enabled(s, Leave) {
      assert forall ch :: ch in s.runs ==> s.curDone == Some(ch) && ch !in s.closed;
    }
  }

  lemma OneRun(s: State)
    requires Channels(s)
    ensures |s.runs| <= 1
  {
    if s.curDone.Some? {
      assert s.runs.Keys <= {s.curDone.value};
      SubsetSize(s.runs.Keys, {s.curDone.value});
    } else {
      assert s.runs.Keys == {};
    }
    assert |s.runs| == |s.runs.Keys|;
  }

  // -------- progress --------

  /** Steps that need no one from outside: all but new callers, new requests and the shutdown. */
  predicate Internal(step: Step) {
    !step.Acquire? && !step.Take? && !step.Stop?
  }

  function RunStages(s: State, ch: Chan): nat {
    if ch in s.worked then 1 else if s.lock == Some(Runner(ch)) then 2 else 3
  }

  /** Stages that the loop and its run still have to go through. */
  function Stages(s: State): nat {
    (if s.launchNext then 20 else 0)
    + (if s.curDone.Some? then 4 else 0)
    + (if s.curDone.Some? && s.curDone.value in s.runs then RunStages(s, s.curDone.value) else 0)
    + (if s.lock == Some(Adder) then 1 else 0)
    + (match s.pc case Draining => 1 case Exited => 0 case _ => 2)
  }

  /** Steps of the loop until it is ready to receive. */
  function ToSelect(s: State): nat {
    match s.pc case Answer => 2 case Top => 1 case _ => 0
  }

  /** Fewer stages, or as many and fewer events, or as many of both and the loop closer to the select. */
  predicate Before(t: State, s: State) {
    || Stages(t) < Stages(s)
    || (Stages(t) == Stages(s) && t.sending < s.sending)
    || (Stages(t) == Stages(s) && t.sending == s.sending && ToSelect(t) < ToSelect(s))
  }

  /** The scheduler cannot go on by itself for ever ... */
  lemma StepsRunOut(steps: seq<Step>, step: Step)
    requires Execute(steps).Some? && Enabled(Execute(steps).value, step) && Internal(step)
    ensures Before(Apply(Execute(steps).value, step), Execute(steps).value)
  {
    AlwaysInv(steps);
  }

  /**
   ... and it does not get stuck, whoever holds the pool lock, before the lock is free and every
   requester's channel is closed; after a shutdown, before the loop is gone.
   */
  lemma NotStuck(steps: seq<Step>)
    requires Execute(steps).Some?
    ensures var s := Execute(steps).value;
      || (exists step :: Internal(step) && Enabled(s, step))
      || (s.lock == None && s.runs == map[] && (s.stopping ==> s.pc == Exited)
          && s.waiting == {} && forall id :: id in s.holding ==> s.holding[id] in s.closed)
  {
    AlwaysInv(steps);
    var s := Execute(steps).value;
    if s.pc == Answer {
      assert Enabled(s, Give(|s.taken| - 1));
    } else if s.pc == Top {
      assert Enabled(s, Launch) || Enabled(s, Enter);
    } else if s.pc == Select && s.stopping {
      assert Enabled(s, SeeStop);
    } else if s.lock.Some? {
      HolderMoves(s);
    } else if s.curDone.Some? && s.pc != Exited {
      RunMoves(s, s.curDone.value);
    } else if s.pc == Draining {
      assert Enabled(s, Leave);
    }
  }

  /** The holder of the lock can send its events, since the loop waits for nobody while it is in the select. */
  lemma HolderMoves(s: State)
    requires Inv(s) && s.lock.Some? && (s.pc == Select || s.stopping)
    ensures exists step :: Internal(step) && Enabled(s, step)
  {
    if s.sending > 0 {
      assert Enabled(s, Send) || Enabled(s, Skip);
    } else if s.lock.value.Adder? {
      assert Enabled(s, Release);
    } else {
      assert Enabled(s, Work(s.lock.value.chan));
    }
  }

  lemma RunMoves(s: State, ch: Chan)
    requires Inv(s) && s.lock == None && s.curDone == Some(ch) && (s.pc == Select || s.pc == Draining)
    ensures exists step :: Internal(step) && Enabled(s, step)
  {
    assert Enabled(s, Lock(ch, 0)) || Enabled(s, Finish(ch)) || Enabled(s, SeeDone) || Enabled(s, Leave);
  }
}
