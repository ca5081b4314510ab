/** The life cycle of the OC flows, and the completion of channel pairs: DllManager's flags as its
    start, its alive-check timer and FlowCompletionCoordinator write them.  A tick of the timer, with
    the message it publishes, is one step. */
module FlowCompletion {
  /** What the outside sees, in order. */
  datatype Out =
    | Attempt(channel: nat, ok: bool)   // StartOcFlow asked for a flow, and got it or not
    | WorkDone(channel: nat)            // the end of a flow was published
    | Stopped(channel: nat)             // StopOcFlow was called by the timer
    | Finish(channel: nat)              // Process_Finish was run for a channel
    | Complete(pair: nat)               // a pair was found complete

  datatype Flow = Flow(
    started: seq<bool>,      // _ocFlowStart
    done: seq<bool>,         // _isProcessDone
    preActionNg: seq<int>,
    checkSerial: seq<bool>,
    timer: seq<bool>,        // the alive-check timer is enabled
    inUse: seq<bool>,        // the scripts' IsInUse
    outs: seq<Out>)

  predicate Shaped(f: Flow, n: nat)
  {
    |f.started| == |f.done| == |f.preActionNg| == |f.checkSerial| == |f.timer| == |f.inUse| == n
  }

  function PairOf(c: nat): nat { c / 2 }

  // --- The steps ---

  /** StartOcFlow.  The flag is reset before the orchestrator is asked. */
  function StartOcFlow(f: Flow, n: nat, c: nat, ok: bool): (f': Flow)
    requires Shaped(f, n)
    ensures Shaped(f', n)
  {
    if c >= n then f
    else
      var f1 := f.(done := f.done[c := false], outs := f.outs + [Attempt(c, ok)]);
      if ok then f1.(started := f.started[c := true], timer := f.timer[c := true]) else f1
  }

  /** Process_Finish for the channels of a pair that are in use, then the pair. */
  function Finishes(f: Flow, p: nat): seq<Out>
    requires 2 * p + 1 < |f.inUse|
  {
    (if f.inUse[2 * p] then [Finish(2 * p)] else []) + (if f.inUse[2 * p + 1] then [Finish(2 * p + 1)] else []) + [Complete(p)]
  }

  /** FlowCompletionCoordinator.OnDllEvent for a WorkDone of channel `c`. */
  function OnWorkDone(f: Flow, n: nat, c: nat, inlineGib: bool): (f': Flow)
    requires Shaped(f, n)
    ensures Shaped(f', n)
  {
    if c >= n then f
    else if inlineGib then
      f.(done := f.done[c := false], outs := f.outs + (if f.inUse[c] then [Finish(c)] else []))
    else
      var p := PairOf(c);
      var i, j := 2 * p, 2 * p + 1;
      if j >= n then f
      else
        var di, dj := f.done[i] || !f.inUse[i], f.done[j] || !f.inUse[j];
        if di && dj then f.(done := f.done[i := false][j := false], outs := f.outs + Finishes(f, p))
        else f.(done := f.done[i := di][j := dj])
  }

  /** OnAliveCheckTimer; `alive` is what the orchestrator says of the flow's thread. */
  function Tick(f: Flow, n: nat, c: nat, alive: bool, inlineGib: bool): (f': Flow)
    requires Shaped(f, n)
    ensures Shaped(f', n)
  {
    if c >= n then f
    else if f.started[c] && f.preActionNg[c] != 0 then
      f.(preActionNg := f.preActionNg[c := 0], outs := f.outs + [Stopped(c)])
    else if f.started[c] && f.checkSerial[c] then
      f.(checkSerial := f.checkSerial[c := false], outs := f.outs + [Stopped(c)])
    else if f.started[c] && !alive then
      OnWorkDone(f.(started := f.started[c := false], timer := f.timer[c := false], done := f.done[c := true],
                    outs := f.outs + [WorkDone(c)]), n, c, inlineGib)
    else f
  }

  datatype Event =
    | Start(channel: nat, ok: bool)
    | Ticked(channel: nat, alive: bool)
    | SetInUse(channel: nat, on: bool)
    | SetPreActionNg(channel: nat, code: int)
    | SetCheckSerial(channel: nat, on: bool)

  /** One event; `gib` is the configuration InlineGIB. */
  function Step(f: Flow, n: nat, e: Event, gib: bool := false): (f': Flow)
    requires Shaped(f, n)
    ensures Shaped(f', n)
  {
    match e
    case Start(c, ok) => StartOcFlow(f, n, c, ok)
    case Ticked(c, alive) => Tick(f, n, c, alive, gib)
    case SetInUse(c, on) => if c < n then f.(inUse := f.inUse[c := on]) else f
    case SetPreActionNg(c, code) => if c < n then f.(preActionNg := f.preActionNg[c := code]) else f
    case SetCheckSerial(c, on) => if c < n then f.(checkSerial := f.checkSerial[c := on]) else f
  }

  // --- What the outside knows ---

  /** Whether channel `c` had a WorkDone since its last start, and since its pair was last complete. */
  predicate DoneSince(outs: seq<Out>, c: nat)
  {
    if outs == [] then false
    else
      match outs[|outs| - 1]
      case WorkDone(d) => d == c || DoneSince(outs[..|outs| - 1], c)
      case Attempt(d, _) => d != c && DoneSince(outs[..|outs| - 1], c)
      case Complete(p) => p != PairOf(c) && DoneSince(outs[..|outs| - 1], c)
      case _ => DoneSince(outs[..|outs| - 1], c)
  }

  function WorkDones(outs: seq<Out>, c: nat): nat
  {
    if outs == [] then 0 else WorkDones(outs[..|outs| - 1], c) + (if outs[|outs| - 1] == WorkDone(c) then 1 else 0)
  }

  function FinishCount(outs: seq<Out>, c: nat): nat
  {
    if outs == [] then 0 else FinishCount(outs[..|outs| - 1], c) + (if outs[|outs| - 1] == Finish(c) then 1 else 0)
  }

  function Starts(outs: seq<Out>, c: nat): nat
  {
    if outs == [] then 0 else Starts(outs[..|outs| - 1], c) + (if outs[|outs| - 1] == Attempt(c, true) then 1 else 0)
  }

  /** A channel's record: its history in four numbers. */
  datatype Record = Record(since: bool, dones: nat, finishes: nat, starts: nat)

  function RecordOf(outs: seq<Out>, c: nat): Record
  {
    Record(DoneSince(outs, c), WorkDones(outs, c), FinishCount(outs, c), Starts(outs, c))
  }

  function Note(r: Record, o: Out, c: nat): Record
  {
    match o
    case Attempt(d, ok) => if d != c then r else r.(since := false, starts := if ok then r.starts + 1 else r.starts)
    case WorkDone(d) => if d != c then r else r.(since := true, dones := r.dones + 1)
    case Finish(d) => if d != c then r else r.(finishes := r.finishes + 1)
    case Complete(p) => if p != PairOf(c) then r else r.(since := false)
    case Stopped(_) => r
  }

  lemma RecordMore(outs: seq<Out>, o: Out, c: nat)
    ensures RecordOf(outs + [o], c) == Note(RecordOf(outs, c), o, c)
  {
    assert (outs + [o])[..|outs + [o]| - 1] == outs;
  }

  lemma RecordOfFinishes(outs: seq<Out>, f: Flow, p: nat, c: nat)
    requires 2 * p + 1 < |f.inUse|
    ensures RecordOf(outs + Finishes(f, p), c)
         == if PairOf(c) != p then RecordOf(outs, c)
            else var r := RecordOf(outs, c); r.(since := false, finishes := if f.inUse[c] then r.finishes + 1 else r.finishes)
  {
    var a := if f.inUse[2 * p] then [Finish(2 * p)] else [];
    var b := if f.inUse[2 * p + 1] then [Finish(2 * p + 1)] else [];
    if f.inUse[2 * p] {
      RecordMore(outs, Finish(2 * p), c);
    } else {
      assert outs + a == outs;
    }
    if f.inUse[2 * p + 1] {
      RecordMore(outs + a, Finish(2 * p + 1), c);
    } else {
      assert outs + a + b == outs + a;
    }
    RecordMore(outs + a + b, Complete(p), c);
    assert outs + Finishes(f, p) == outs + a + b + [Complete(p)];
  }

  /** The flag is the history, and no channel has more finishes than ends, or more ends than starts. */
  predicate ChannelOk(f: Flow, n: nat, c: nat)
    requires Shaped(f, n) && c < n
  {
    var r := RecordOf(f.outs, c);
    && f.done[c] == r.since
    && r.finishes + (if r.since then 1 else 0) <= r.dones
    && r.dones + (if f.started[c] then 1 else 0) <= r.starts
  }

  ghost predicate Inv(f: Flow, n: nat)
  {
    Shaped(f, n) && forall c | 0 <= c < n :: ChannelOk(f, n, c)
  }

  // --- Every step keeps it ---

  /** The flow of channel `c` ends: its flag and its WorkDone. */
  function Ended(f: Flow, c: nat): Flow
    requires c < |f.started| == |f.timer| == |f.done|
  {
    f.(started := f.started[c := false], timer := f.timer[c := false], done := f.done[c := true], outs := f.outs + [WorkDone(c)])
  }

  lemma EndedKeeps(f: Flow, n: nat, c: nat, x: nat)
    requires Shaped(f, n) && c < n && x < n && f.started[c] && ChannelOk(f, n, x)
    ensures ChannelOk(Ended(f, c), n, x)
  {
    RecordMore(f.outs, WorkDone(c), x);
  }

  lemma StartKeeps(f: Flow, n: nat, c: nat, ok: bool, x: nat)
    requires Shaped(f, n) && x < n && ChannelOk(f, n, x)
    ensures ChannelOk(StartOcFlow(f, n, c, ok), n, x)
  {
    if c < n {
      RecordMore(f.outs, Attempt(c, ok), x);
    }
  }

  /** With the flag of `c` set, the coordinator either completes the pair or changes nothing. */
  lemma WorkDoneKeeps(f: Flow, n: nat, c: nat, x: nat)
    requires Inv(f, n) && c < n && x < n && f.done[c]
    ensures ChannelOk(OnWorkDone(f, n, c, false), n, x)
  {
    hide RecordOf;
    var p := PairOf(c);
    if 2 * p + 1 < n {
      assert ChannelOk(f, n, x) && ChannelOk(f, n, 2 * p) && ChannelOk(f, n, 2 * p + 1);
      RecordOfFinishes(f.outs, f, p, x);
    } else {
      assert ChannelOk(f, n, x);
    }
  }

  lemma TickKeeps(f: Flow, n: nat, c: nat, alive: bool, x: nat)
    requires Inv(f, n) && x < n
    ensures ChannelOk(Tick(f, n, c, alive, false), n, x)
  {
    assert ChannelOk(f, n, x);
    if c < n && f.started[c] {
      if f.preActionNg[c] != 0 || f.checkSerial[c] {
        RecordMore(f.outs, Stopped(c), x);
      } else if !alive {
        forall y | 0 <= y < n ensures ChannelOk(Ended(f, c), n, y) {
          assert ChannelOk(f, n, y);
          EndedKeeps(f, n, c, y);
        }
        WorkDoneKeeps(Ended(f, c), n, c, x);
      }
    }
  }

  /** In every run, every channel's flag is its history, and finishes <= WorkDones <= successful starts. */
  lemma InvKept(f: Flow, n: nat, e: Event)
    requires Inv(f, n)
    ensures Inv(Step(f, n, e), n)
  {
    hide RecordOf, Tick, StartOcFlow;
    forall x | 0 <= x < n ensures ChannelOk(Step(f, n, e), n, x) {
      assert ChannelOk(f, n, x);
      match e
      case Start(c, ok) => StartKeeps(f, n, c, ok, x);
      case Ticked(c, alive) => TickKeeps(f, n, c, alive, x);
      case _ =>
    }
  }

  function Idle(n: nat): Flow
  {
    Flow(seq(n, _ => false), seq(n, _ => false), seq(n, _ => 0), seq(n, _ => false), seq(n, _ => false), seq(n, _ => true), [])
  }

  function Run(n: nat, events: seq<Event>, gib: bool := false): (f: Flow)
    ensures Shaped(f, n)
    decreases |events|
  {
    if events == [] then Idle(n) else Step(Run(n, events[..|events| - 1], gib), n, events[|events| - 1], gib)
  }

  lemma {:induction false} RunKeepsInv(n: nat, events: seq<Event>)
    ensures Inv(Run(n, events), n)
    decreases |events|
  {
    if events != [] {
      RunKeepsInv(n, events[..|events| - 1]);
      InvKept(Run(n, events[..|events| - 1]), n, events[|events| - 1]);
    } else {
      forall c | 0 <= c < n ensures ChannelOk(Idle(n), n, c) {
      }
    }
  }

  lemma EndFinishesExactly(f: Flow, n: nat, c: nat)
    requires Inv(f, n) && c < n && 2 * PairOf(c) + 1 < n && f.started[c] && f.preActionNg[c] == 0 && !f.checkSerial[c]
    ensures var p, before := PairOf(c), f.outs + [WorkDone(c)];
            Tick(f, n, c, false, false).outs
            == if (f.inUse[2 * p] ==> DoneSince(before, 2 * p)) && (f.inUse[2 * p + 1] ==> DoneSince(before, 2 * p + 1))
               then before + Finishes(f, p) else before
  {
    hide Finishes;
    var p := PairOf(c);
    assert ChannelOk(f, n, 2 * p) && ChannelOk(f, n, 2 * p + 1);
    EndedKeeps(f, n, c, 2 * p);
    EndedKeeps(f, n, c, 2 * p + 1);
    assert Tick(f, n, c, false, false) == OnWorkDone(Ended(f, c), n, c, false);
    SameFinishes(f, Ended(f, c), p);
  }

  lemma SameFinishes(f: Flow, g: Flow, p: nat)
    requires f.inUse == g.inUse && 2 * p + 1 < |f.inUse|
    ensures Finishes(f, p) == Finishes(g, p)
  {
  }

  /** Pair completion: in every run, at the end of a flow, Process_Finish is run for the pair exactly
      when every channel of the pair that is in use had a WorkDone since its last start and since the
      pair was last complete; and then for exactly the channels in use. */
  lemma FinishedExactly(n: nat, events: seq<Event>, c: nat)
    requires c < n && 2 * PairOf(c) + 1 < n
    requires var f := Run(n, events); f.started[c] && f.preActionNg[c] == 0 && !f.checkSerial[c]
    ensures var f, p := Run(n, events), PairOf(c);
            var before, after := f.outs + [WorkDone(c)], Step(f, n, Ticked(c, false)).outs;
            after == if (f.inUse[2 * p] ==> DoneSince(before, 2 * p)) && (f.inUse[2 * p + 1] ==> DoneSince(before, 2 * p + 1))
                     then before + Finishes(f, p) else before
  {
    RunKeepsInv(n, events);
    EndFinishesExactly(Run(n, events), n, c);
  }

  /** The flow of the event's channel ends, and the channel has a partner. */
  predicate EndsFlow(f: Flow, n: nat, e: Event)
    requires Shaped(f, n)
  {
    && e.Ticked? && !e.alive && e.channel < n && 2 * PairOf(e.channel) + 1 < n
    && f.started[e.channel] && f.preActionNg[e.channel] == 0 && !f.checkSerial[e.channel]
  }

  predicate IsVerdict(o: Out) { o.Finish? || o.Complete? }

  /** Nothing but the end of a flow runs a Process_Finish or completes a pair; and no event takes back
      anything of the history. */
  lemma OnlyEndsFinish(f: Flow, n: nat, e: Event)
    requires Shaped(f, n)
    ensures f.outs <= Step(f, n, e).outs
    ensures !EndsFlow(f, n, e) ==>
              forall k | |f.outs| <= k < |Step(f, n, e).outs| :: !IsVerdict(Step(f, n, e).outs[k])
  {
  }

  /** Entry `k` of a history is no Finish or Complete without a WorkDone that has not been used up. */
  predicate Justified(outs: seq<Out>, k: nat)
    requires k < |outs|
  {
    match outs[k]
    case Finish(c) => DoneSince(outs[..k], c)
    case Complete(p) => DoneSince(outs[..k], 2 * p) || DoneSince(outs[..k], 2 * p + 1)
    case _ => true
  }

  predicate AllJustified(outs: seq<Out>) { forall k | 0 <= k < |outs| :: Justified(outs, k) }

  lemma JustifiedMore(outs: seq<Out>, more: seq<Out>, k: nat)
    requires k < |outs| && Justified(outs, k)
    ensures Justified(outs + more, k)
  {
    assert (outs + more)[..k] == outs[..k];
  }

  lemma FinishKeepsDone(outs: seq<Out>, o: Out, c: nat)
    requires o.Finish?
    ensures DoneSince(outs + [o], c) == DoneSince(outs, c)
  {
    RecordMore(outs, o, c);
  }

  lemma LastJustified(outs: seq<Out>, o: Out)
    requires AllJustified(outs)
    requires o.Finish? ==> DoneSince(outs, o.channel)
    requires o.Complete? ==> DoneSince(outs, 2 * o.pair) || DoneSince(outs, 2 * o.pair + 1)
    ensures AllJustified(outs + [o])
  {
    hide DoneSince;
    forall k | 0 <= k < |outs + [o]| ensures Justified(outs + [o], k) {
      if k < |outs| {
        JustifiedMore(outs, [o], k);
      } else {
        assert (outs + [o])[..k] == outs;
      }
    }
  }

  lemma FinishesJustified(outs: seq<Out>, f: Flow, p: nat)
    requires 2 * p + 1 < |f.inUse| && AllJustified(outs)
    requires (f.inUse[2 * p] ==> DoneSince(outs, 2 * p)) && (f.inUse[2 * p + 1] ==> DoneSince(outs, 2 * p + 1))
    requires DoneSince(outs, 2 * p) || DoneSince(outs, 2 * p + 1)
    ensures AllJustified(outs + Finishes(f, p))
  {
    hide DoneSince, AllJustified;
    var a := if f.inUse[2 * p] then outs + [Finish(2 * p)] else outs;
    if f.inUse[2 * p] {
      LastJustified(outs, Finish(2 * p));
      FinishKeepsDone(outs, Finish(2 * p), 2 * p);
      FinishKeepsDone(outs, Finish(2 * p), 2 * p + 1);
    }
    var b := if f.inUse[2 * p + 1] then a + [Finish(2 * p + 1)] else a;
    if f.inUse[2 * p + 1] {
      LastJustified(a, Finish(2 * p + 1));
      FinishKeepsDone(a, Finish(2 * p + 1), 2 * p);
      FinishKeepsDone(a, Finish(2 * p + 1), 2 * p + 1);
    }
    LastJustified(b, Complete(p));
    assert outs + Finishes(f, p) == b + [Complete(p)];
  }

  lemma PlainJustified(outs: seq<Out>, after: seq<Out>)
    requires outs <= after && AllJustified(outs)
    requires forall k | |outs| <= k < |after| :: !IsVerdict(after[k])
    ensures AllJustified(after)
  {
    hide DoneSince;
    forall k | 0 <= k < |after| ensures Justified(after, k) {
      if k < |outs| {
        assert outs + after[|outs|..] == after;
        JustifiedMore(outs, after[|outs|..], k);
      }
    }
  }

  lemma EndJustified(f: Flow, n: nat, e: Event)
    requires Inv(f, n) && EndsFlow(f, n, e) && AllJustified(f.outs)
    ensures AllJustified(Step(f, n, e).outs)
  {
    assert Shaped(f, n);
    hide DoneSince, AllJustified, Tick, Inv, Finishes;
    var c := e.channel;
    var before := f.outs + [WorkDone(c)];
    LastJustified(f.outs, WorkDone(c));
    EndFinishesExactly(f, n, c);
    RecordMore(f.outs, WorkDone(c), c);
    if (f.inUse[2 * PairOf(c)] ==> DoneSince(before, 2 * PairOf(c)))
       && (f.inUse[2 * PairOf(c) + 1] ==> DoneSince(before, 2 * PairOf(c) + 1)) {
      FinishesJustified(before, f, PairOf(c));
    }
  }

  /** In every run, whatever its events: no Process_Finish is ever run for a channel, and no pair ever
      found complete, without a WorkDone since the last start and since the last completion. */
  lemma {:induction false} FinishJustified(n: nat, events: seq<Event>)
    ensures AllJustified(Run(n, events).outs)
    decreases |events|
  {
    hide Step, Inv;
    if events != [] {
      var f, e := Run(n, events[..|events| - 1]), events[|events| - 1];
      FinishJustified(n, events[..|events| - 1]);
      RunKeepsInv(n, events[..|events| - 1]);
      OnlyEndsFinish(f, n, e);
      if EndsFlow(f, n, e) {
        EndJustified(f, n, e);
      } else {
        PlainJustified(f.outs, Step(f, n, e).outs);
      }
    }
  }

  lemma CountsInEveryRun(n: nat, events: seq<Event>, c: nat)
    requires c < n
    ensures var outs := Run(n, events).outs; FinishCount(outs, c) <= WorkDones(outs, c) <= Starts(outs, c)
  {
    RunKeepsInv(n, events);
    assert ChannelOk(Run(n, events), n, c);
  }

  /** The two states agree on everything about channel `x`. */
  predicate SameAt(f: Flow, f': Flow, n: nat, x: nat)
    requires Shaped(f, n) && Shaped(f', n) && x < n
  {
    && f'.started[x] == f.started[x] && f'.done[x] == f.done[x] && f'.preActionNg[x] == f.preActionNg[x]
    && f'.checkSerial[x] == f.checkSerial[x] && f'.timer[x] == f.timer[x] && f'.inUse[x] == f.inUse[x]
    && RecordOf(f'.outs, x) == RecordOf(f.outs, x)
  }

  lemma WorkDoneLeaves(f: Flow, n: nat, c: nat, x: nat)
    requires Shaped(f, n) && c < n && x < n && PairOf(c) != PairOf(x)
    ensures SameAt(f, OnWorkDone(f, n, c, false), n, x)
  {
    hide RecordOf;
    if 2 * PairOf(c) + 1 < n {
      RecordOfFinishes(f.outs, f, PairOf(c), x);
    }
  }

  lemma TickLeaves(f: Flow, n: nat, c: nat, alive: bool, x: nat)
    requires Shaped(f, n) && x < n && PairOf(c) != PairOf(x)
    ensures SameAt(f, Tick(f, n, c, alive, false), n, x)
  {
    hide RecordOf, OnWorkDone;
    RecordMore(f.outs, Stopped(c), x);
    RecordMore(f.outs, WorkDone(c), x);
    if c < n {
      WorkDoneLeaves(Ended(f, c), n, c, x);
    }
  }

  /** No event of one pair touches the other, or says anything about it. */
  lemma OtherPairUntouched(f: Flow, n: nat, e: Event, x: nat)
    requires Shaped(f, n) && x < n && PairOf(e.channel) != PairOf(x)
    ensures SameAt(f, Step(f, n, e), n, x)
  {
    hide RecordOf, Tick;
    match e
    case Start(c, ok) => RecordMore(f.outs, Attempt(c, ok), x);
    case Ticked(c, alive) => TickLeaves(f, n, c, alive, x);
    case _ =>
  }

  /** A start that the orchestrator refuses forgets that the channel was done: the end of the partner's
      flow does not complete the pair. */
  lemma RefusedStartForgets(f: Flow, n: nat, p: nat)
    requires Shaped(f, n) && 2 * p + 1 < n && f.inUse[2 * p] && f.started[2 * p + 1] && f.preActionNg[2 * p + 1] == 0
    requires !f.checkSerial[2 * p + 1]
    ensures var f' := Step(Step(f, n, Start(2 * p, false)), n, Ticked(2 * p + 1, false));
            f'.outs == f.outs + [Attempt(2 * p, false)] + [WorkDone(2 * p + 1)] && f'.done[2 * p + 1]
  {
  }

  // --- InlineGIB ---

  /** With InlineGIB every channel stands alone: what an event adds to the history. */
  function GibAdds(f: Flow, n: nat, e: Event): seq<Out>
    requires Shaped(f, n)
  {
    if e.channel >= n then []
    else if e.Start? then [Attempt(e.channel, e.ok)]
    else if !e.Ticked? || !f.started[e.channel] then []
    else if f.preActionNg[e.channel] != 0 || f.checkSerial[e.channel] then [Stopped(e.channel)]
    else if e.alive then []
    else if f.inUse[e.channel] then [WorkDone(e.channel), Finish(e.channel)]
    else [WorkDone(e.channel)]
  }

  lemma GibStep(f: Flow, n: nat, e: Event)
    requires Shaped(f, n) && forall c | 0 <= c < n :: !f.done[c]
    ensures var f' := Step(f, n, e, true);
            f'.outs == f.outs + GibAdds(f, n, e) && forall c | 0 <= c < n :: !f'.done[c]
  {
  }

  /** Entry `k` completes no pair, and if it is a Process_Finish comes right after the end of its channel's flow. */
  predicate FollowsAt(outs: seq<Out>, k: nat)
    requires k < |outs|
  {
    !outs[k].Complete? && (outs[k].Finish? ==> k > 0 && outs[k - 1] == WorkDone(outs[k].channel))
  }

  predicate FinishFollows(outs: seq<Out>) { forall k | 0 <= k < |outs| :: FollowsAt(outs, k) }

  lemma GibAddsFollow(outs: seq<Out>, f: Flow, n: nat, e: Event)
    requires Shaped(f, n) && FinishFollows(outs)
    ensures FinishFollows(outs + GibAdds(f, n, e))
  {
    var added := GibAdds(f, n, e);
    var all := outs + added;
    forall k | 0 <= k < |all| ensures FollowsAt(all, k) {
      if k < |outs| {
        assert FollowsAt(outs, k);
      } else {
        assert all[k] == added[k - |outs|] && (k > |outs| ==> all[k - 1] == added[k - 1 - |outs|]);
      }
    }
  }

  /** With InlineGIB, in every run and whatever the partner does: no pair is ever complete, the end of a
      flow runs Process_Finish for its channel there and then, exactly if the channel is in use, and no
      channel stays done. */
  lemma {:induction false} GibRun(n: nat, events: seq<Event>)
    ensures var f := Run(n, events, true);
            (forall c | 0 <= c < n :: !f.done[c]) && FinishFollows(f.outs)
            && (events != [] ==> var before := Run(n, events[..|events| - 1], true);
                                 f.outs == before.outs + GibAdds(before, n, events[|events| - 1]))
    decreases |events|
  {
    hide Step;
    if events != [] {
      var before := Run(n, events[..|events| - 1], true);
      GibRun(n, events[..|events| - 1]);
      GibStep(before, n, events[|events| - 1]);
      GibAddsFollow(before.outs, before, n, events[|events| - 1]);
    }
  }
}
