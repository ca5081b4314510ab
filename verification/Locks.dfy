/** The two spin locks of hwio.c under any number of threads: g_rx_lock with the thread-local flag
    that its fault handlers consult, and g_lwip_poll_lock with the reference count of lwIP.
    A spin lock has no owner; `rx` and `poll` remember who took it, and no step asks more of them
    than whether the lock is free. */
module Locks {
  datatype Option<T> = None | Some(value: T)

  datatype Call = ReqRespMc | DispatchPoll | RxBurst | ReqRespOnce | ReqRespBatch | LwipPollMs | FtpWait | InitRef | StopRef

  /** Where a thread is in its call. */
  datatype At =
    | Idle
    | Before        // about to take g_rx_lock for a burst
    | Locked        // taken, flag not yet set
    | Bursting      // in rte_eth_rx_burst
    | Cleared       // flag cleared, lock not yet released
    | After         // burst done
    | Polling       // in lwip_poll_once_safe, poll lock taken
    | PollBursting  // dpdk_netif_poll's burst: g_rx_lock taken, the flag plays no part
    | PollTail      // about to release the poll lock
    | Entered       // in hw_lwip_init_ref or hw_lwip_stop_ref, poll lock taken
    | Changing      // between the two updates
    | Leaving       // about to release the poll lock

  datatype Thread = Thread(call: Call, at: At, flag: bool)

  datatype Globals = Globals(rx: Option<nat>, poll: Option<nat>, refs: int, running: bool, external: bool)

  datatype Move = Blocked | Move(g: Globals, th: Thread)

  datatype Action = Enter(call: Call) | SetExternal(on: bool) | Step(again: bool) | Fault

  /** The calls that take g_rx_lock through RX_LOCK_ACQUIRE. */
  predicate Guarded(c: Call) { c.ReqRespMc? || c.DispatchPoll? }

  /** The calls with a fault handler of their own. */
  predicate HasHandler(c: Call) { Guarded(c) || c.RxBurst? }

  predicate Loops(c: Call) { c.ReqRespMc? || c.ReqRespOnce? || c.ReqRespBatch? || c.LwipPollMs? }

  /** Thread `t` enters a call.  lwip_poll_once_safe only tries the poll lock. */
  function Begin(g: Globals, th: Thread, t: nat, c: Call): Move
  {
    match c
    case FtpWait => if g.poll == None then Move(g.(poll := Some(t)), th.(call := c, at := Polling)) else Move(g, th.(call := c))
    case InitRef => if g.poll == None then Move(g.(poll := Some(t)), th.(call := c, at := Entered)) else Blocked
    case StopRef => if g.poll == None then Move(g.(poll := Some(t)), th.(call := c, at := Entered)) else Blocked
    case _ => Move(g, th.(call := c, at := Before))
  }

  /** hw_lwip_init_ref and hw_lwip_stop_ref; `ok` is whether dpdk_lwip_init succeeds. */
  function RefStep(g: Globals, th: Thread, ok: bool): Move
  {
    if th.at.Entered? then
      if th.call == InitRef then
        if g.refs != 0 then Move(g, th.(at := Changing))
        else if ok then Move(g.(running := true), th.(at := Changing))
        else Move(g, th.(at := Leaving))
      else if g.refs <= 0 then Move(g, th.(at := Leaving))
      else Move(g.(refs := g.refs - 1), th.(at := Changing))
    else if th.at.Changing? then
      if th.call == InitRef then Move(g.(refs := g.refs + 1), th.(at := Leaving))
      else Move(if g.refs == 0 then g.(running := false) else g, th.(at := Leaving))
    else Move(g.(poll := None), th.(at := Idle))
  }

  /** A burst between RX_LOCK_ACQUIRE and RX_LOCK_RELEASE, or between plain lock and unlock. */
  function BurstStep(g: Globals, th: Thread, t: nat, again: bool): Move
  {
    match th.at
    case Before =>
      if !again then Move(g, th.(at := Idle))
      else if g.rx != None then Blocked
      else Move(g.(rx := Some(t)), th.(at := if Guarded(th.call) then Locked else Bursting))
    case Locked => Move(g, th.(at := Bursting, flag := true))
    case Bursting =>
      if Guarded(th.call) then Move(g, th.(at := Cleared, flag := false))
      else Move(g.(rx := None), th.(at := After))
    case Cleared => Move(g.(rx := None), th.(at := After))
    case _ =>
      if again && Loops(th.call) then Move(g, th.(at := Before))
      else if th.call.DispatchPoll? && g.running && g.poll == None then Move(g.(poll := Some(t)), th.(at := Polling))
      else Move(g, th.(at := Idle))
  }

  /** lwip_poll_once_safe once it has the poll lock. */
  function PollStep(g: Globals, th: Thread, t: nat): Move
  {
    match th.at
    case Polling =>
      if !g.running || g.external then Move(g, th.(at := PollTail))
      else if g.rx != None then Blocked
      else Move(g.(rx := Some(t)), th.(at := PollBursting))
    case PollBursting => Move(g.(rx := None), th.(at := PollTail))
    case _ => Move(g.(poll := None), th.(at := Idle))
  }

  /** The fault handler: RX_LOCK_RELEASE_IF_HELD in the guarded calls, nothing in hw_rx_burst. */
  function Handle(g: Globals, th: Thread): Move
  {
    if Guarded(th.call) && th.flag then Move(g.(rx := None), th.(at := Idle, flag := false))
    else Move(g, th.(at := Idle))
  }

  function ThreadStep(g: Globals, th: Thread, t: nat, a: Action): Move
  {
    match a
    case Enter(c) => if th.at == Idle then Begin(g, th, t, c) else Blocked
    case SetExternal(on) => if th.at == Idle then Move(g.(external := on), th) else Blocked
    case Fault => if th.at != Idle && HasHandler(th.call) then Handle(g, th) else Blocked
    case Step(again) =>
      if th.at.Idle? then Blocked
      else if InRef(th) then RefStep(g, th, again)
      else if InPoll(th) then PollStep(g, th, t)
      else BurstStep(g, th, t, again)
  }

  predicate HoldsRx(th: Thread)
  {
    th.at.Locked? || th.at.Bursting? || th.at.Cleared? || th.at.PollBursting?
  }

  predicate InPoll(th: Thread) { th.at.Polling? || th.at.PollBursting? || th.at.PollTail? }

  predicate InRef(th: Thread) { th.at.Entered? || th.at.Changing? || th.at.Leaving? }

  /** The thread is between RX_LOCK_ACQUIRE and RX_LOCK_RELEASE. */
  predicate InGuardedBurst(th: Thread) { th.at.Bursting? && Guarded(th.call) }

  // --- All threads together ---

  datatype State = State(g: Globals, threads: seq<Thread>)

  function Next(s: State, t: nat, a: Action): Option<State>
    requires t < |s.threads|
  {
    match ThreadStep(s.g, s.threads[t], t, a)
    case Blocked => None
    case Move(g, th) => Some(State(g, s.threads[t := th]))
  }

  predicate ThreadOk(g: Globals, th: Thread, t: nat)
  {
    && (th.flag <==> InGuardedBurst(th))
    && (HoldsRx(th) ==> g.rx == Some(t))
    && (InPoll(th) || InRef(th) ==> g.poll == Some(t))
    && (InRef(th) ==> !HasHandler(th.call)) && (InPoll(th) ==> th.call.DispatchPoll? || th.call.FtpWait?)
    && (th.at.Locked? || th.at.Cleared? ==> Guarded(th.call))
  }

  /** lwIP runs exactly when the count is positive; between the two updates of a reference call it
      runs, and the count is on its way. */
  predicate CountOk(g: Globals, changing: bool)
  {
    g.refs >= 0 && if changing then g.running else g.running <==> g.refs > 0
  }

  /** Whether the holder of the poll lock is between its two updates. */
  predicate MidChange(s: State)
  {
    s.g.poll.Some? && s.g.poll.value < |s.threads| && s.threads[s.g.poll.value].at.Changing?
  }

  ghost predicate Inv(s: State)
  {
    CountOk(s.g, MidChange(s)) && forall t | 0 <= t < |s.threads| :: ThreadOk(s.g, s.threads[t], t)
  }

  ghost predicate Initial(s: State)
  {
    && s.g.rx == None && s.g.poll == None && s.g.refs == 0 && !s.g.running
    && forall t | 0 <= t < |s.threads| :: s.threads[t].at == Idle && !s.threads[t].flag
  }

  /** A step takes a lock that is free or releases one that its own thread holds. */
  lemma StepIsLocal(g: Globals, th: Thread, t: nat, a: Action)
    requires ThreadOk(g, th, t) && ThreadStep(g, th, t, a).Move?
    ensures var m := ThreadStep(g, th, t, a); ThreadOk(m.g, m.th, t)
    ensures var m := ThreadStep(g, th, t, a); m.g.rx == g.rx || g.rx == None || g.rx == Some(t)
    ensures var m := ThreadStep(g, th, t, a); m.g.poll == g.poll || g.poll == None || g.poll == Some(t)
  {
  }

  /** Only the two reference calls start or stop lwIP or change its count, and they hold the poll
      lock from before the first update until after the last. */
  lemma CountKept(g: Globals, th: Thread, t: nat, a: Action, changing: bool)
    requires ThreadOk(g, th, t) && CountOk(g, changing) && ThreadStep(g, th, t, a).Move?
    requires g.poll == Some(t) ==> (changing <==> th.at.Changing?)
    requires g.poll == None ==> !changing
    ensures var m := ThreadStep(g, th, t, a);
            CountOk(m.g, if g.poll == Some(t) || m.g.poll == Some(t) then m.th.at.Changing? else changing)
  {
  }

  lemma InvKept(s: State, t: nat, a: Action)
    requires t < |s.threads| && Inv(s) && Next(s, t, a).Some?
    ensures Inv(Next(s, t, a).value)
  {
    var s', th := Next(s, t, a).value, s.threads[t];
    StepIsLocal(s.g, th, t, a);
    CountKept(s.g, th, t, a, MidChange(s));
    if s.g.poll == Some(t) {
      assert MidChange(s) <==> th.at.Changing?;
    }
    assert MidChange(s') <==> if s.g.poll == Some(t) || s'.g.poll == Some(t) then s'.threads[t].at.Changing? else MidChange(s);
    forall u | 0 <= u < |s'.threads| ensures ThreadOk(s'.g, s'.threads[u], u) {
      assert ThreadOk(s.g, s.threads[u], u);
    }
  }

  // --- What a fault leaves behind ---

  /** A fault handler gives g_rx_lock back exactly when the fault hit its own guarded burst, and then
      it was its own thread that held it. */
  lemma HandlerReleasesOwnBurst(s: State, t: nat)
    requires t < |s.threads| && Inv(s) && Next(s, t, Fault).Some?
    ensures var s' := Next(s, t, Fault).value;
            if InGuardedBurst(s.threads[t]) then s.g.rx == Some(t) && s'.g.rx == None else s'.g.rx == s.g.rx
    ensures var s' := Next(s, t, Fault).value; s'.g.poll == s.g.poll && s'.threads[t].at == Idle && !s'.threads[t].flag
  {
    assert ThreadOk(s.g, s.threads[t], t);
  }

  /** The lock is still taken by a thread that is in no burst any more. */
  predicate LeftBehind(s: State, t: nat)
  {
    t < |s.threads| && s.g.rx == Some(t) && !HoldsRx(s.threads[t])
  }

  /** A fault while the lock is held outside of a flagged burst: hw_rx_burst's, the one of
      dpdk_netif_poll under the dispatcher, or within the two macros. */
  predicate LosingFault(s: State, t: nat, a: Action)
  {
    t < |s.threads| && a == Fault && HasHandler(s.threads[t].call) && HoldsRx(s.threads[t]) && !InGuardedBurst(s.threads[t])
  }

  lemma LeftByStep(s: State, t: nat, a: Action, u: nat)
    requires t < |s.threads| && Inv(s) && Next(s, t, a).Some?
    ensures LeftBehind(Next(s, t, a).value, u) <==> LeftBehind(s, u) || (u == t && LosingFault(s, t, a))
  {
    assert ThreadOk(s.g, s.threads[t], t);
    if u < |s.threads| {
      assert ThreadOk(s.g, s.threads[u], u);
    }
  }

  /** The poll lock is still taken by a thread that is in none of its sections any more. */
  predicate PollLeftBehind(s: State, t: nat)
  {
    t < |s.threads| && s.g.poll == Some(t) && !InPoll(s.threads[t]) && !InRef(s.threads[t])
  }

  /** The fault that loses the poll lock. */
  predicate PollLosingFault(s: State, t: nat, a: Action)
  {
    t < |s.threads| && a == Fault && s.threads[t].call == DispatchPoll && InPoll(s.threads[t])
  }

  /** The handler of hw_dispatch_poll knows nothing of the poll lock: a fault while lwIP polls under
      the dispatcher loses it, and only such a fault does. */
  lemma PollLeftByStep(s: State, t: nat, a: Action, u: nat)
    requires t < |s.threads| && Inv(s) && Next(s, t, a).Some?
    ensures PollLeftBehind(Next(s, t, a).value, u)
            <==> PollLeftBehind(s, u) || (u == t && PollLosingFault(s, t, a))
  {
    assert ThreadOk(s.g, s.threads[t], t);
    if u < |s.threads| {
      assert ThreadOk(s.g, s.threads[u], u);
    }
  }

  // --- Runs ---

  datatype Event = Event(thread: nat, action: Action)

  ghost predicate Run(states: seq<State>, events: seq<Event>)
  {
    && |states| == |events| + 1 && Initial(states[0])
    && forall k | 0 <= k < |events| :: StepAt(states, events, k)
  }

  ghost predicate StepAt(states: seq<State>, events: seq<Event>, k: nat)
    requires |states| == |events| + 1 && k < |events|
  {
    events[k].thread < |states[k].threads| && Next(states[k], events[k].thread, events[k].action) == Some(states[k + 1])
  }

  lemma {:induction false} RunKeepsInv(states: seq<State>, events: seq<Event>, k: nat)
    requires Run(states, events) && k < |states|
    ensures Inv(states[k]) && |states[k].threads| == |states[0].threads|
    decreases k
  {
    if k != 0 {
      RunKeepsInv(states, events, k - 1);
      assert StepAt(states, events, k - 1);
      InvKept(states[k - 1], events[k - 1].thread, events[k - 1].action);
    }
  }

  /** The NIC queue has one consumer: no two threads are in a burst at once, in any run. */
  lemma OneConsumer(states: seq<State>, events: seq<Event>, k: nat, t: nat, u: nat)
    requires Run(states, events) && k < |states| && t < |states[k].threads| && u < |states[k].threads|
    requires HoldsRx(states[k].threads[t]) && HoldsRx(states[k].threads[u])
    ensures t == u
  {
    RunKeepsInv(states, events, k);
    assert ThreadOk(states[k].g, states[k].threads[t], t) && ThreadOk(states[k].g, states[k].threads[u], u);
  }

  /** g_rx_lock is left behind by thread `u` exactly when some fault of `u` lost it. */
  lemma {:induction false} LeftBehindExactly(states: seq<State>, events: seq<Event>, k: nat, u: nat)
    requires Run(states, events) && k < |states|
    ensures LeftBehind(states[k], u) <==>
            exists j | 0 <= j < k :: events[j].thread == u && LosingFault(states[j], u, events[j].action)
    decreases k
  {
    if k == 0 {
      assert !LeftBehind(states[0], u);
    } else {
      LeftBehindExactly(states, events, k - 1, u);
      RunKeepsInv(states, events, k - 1);
      assert StepAt(states, events, k - 1);
      LeftByStep(states[k - 1], events[k - 1].thread, events[k - 1].action, u);
    }
  }

  /** A lock left behind stays so, and no thread gets into a burst again. */
  lemma {:induction false} LeftBehindForever(states: seq<State>, events: seq<Event>, k: nat, n: nat, u: nat, t: nat)
    requires Run(states, events) && k <= n < |states| && LeftBehind(states[k], u) && t < |states[n].threads|
    ensures LeftBehind(states[n], u) && !HoldsRx(states[n].threads[t])
    decreases n - k
  {
    RunKeepsInv(states, events, k);
    RunKeepsInv(states, events, n);
    if k == n {
      assert ThreadOk(states[n].g, states[n].threads[t], t);
    } else {
      assert StepAt(states, events, k);
      LeftByStep(states[k], events[k].thread, events[k].action, u);
      LeftBehindForever(states, events, k + 1, n, u, t);
    }
  }

  /** g_lwip_poll_lock is left behind by thread `u` exactly when some fault of `u` hit it while lwIP
      polled under the dispatcher. */
  lemma {:induction false} PollLeftBehindExactly(states: seq<State>, events: seq<Event>, k: nat, u: nat)
    requires Run(states, events) && k < |states|
    ensures PollLeftBehind(states[k], u) <==>
            exists j | 0 <= j < k :: events[j].thread == u && PollLosingFault(states[j], u, events[j].action)
    decreases k
  {
    if k == 0 {
      assert !PollLeftBehind(states[0], u);
    } else {
      PollLeftBehindExactly(states, events, k - 1, u);
      RunKeepsInv(states, events, k - 1);
      assert StepAt(states, events, k - 1);
      PollLeftByStep(states[k - 1], events[k - 1].thread, events[k - 1].action, u);
    }
  }

  /** A poll lock left behind stays so: no thread polls lwIP again, starts it or stops it. */
  lemma {:induction false} PollLeftBehindForever(states: seq<State>, events: seq<Event>, k: nat, n: nat, u: nat, t: nat)
    requires Run(states, events) && k <= n < |states| && PollLeftBehind(states[k], u) && t < |states[n].threads|
    ensures PollLeftBehind(states[n], u) && !InPoll(states[n].threads[t]) && !InRef(states[n].threads[t])
    decreases n - k
  {
    RunKeepsInv(states, events, k);
    RunKeepsInv(states, events, n);
    if k == n {
      assert ThreadOk(states[n].g, states[n].threads[t], t);
    } else {
      assert StepAt(states, events, k);
      PollLeftByStep(states[k], events[k].thread, events[k].action, u);
      PollLeftBehindForever(states, events, k + 1, n, u, t);
    }
  }

  // --- Both losses happen ---

  /** Only thread `t` of `n` has done anything. */
  function Only(n: nat, t: nat, g: Globals, th: Thread): State
  {
    State(g, seq(n, u => if u == t then th else Thread(FtpWait, Idle, false)))
  }

  function Unlocked(): Globals { Globals(None, None, 0, false, false) }

  ghost predicate RunTo(states: seq<State>, events: seq<Event>, s: State)
  {
    Run(states, events) && states[|events|] == s
  }

  lemma Begins(n: nat, t: nat)
    ensures RunTo([Only(n, t, Unlocked(), Thread(FtpWait, Idle, false))], [], Only(n, t, Unlocked(), Thread(FtpWait, Idle, false)))
  {
  }

  /** A run in which only thread `t` moves goes on. */
  lemma GoesOn(states: seq<State>, events: seq<Event>, n: nat, t: nat, g: Globals, th: Thread, a: Action)
    returns (longer: seq<State>, more: seq<Event>)
    requires t < n && RunTo(states, events, Only(n, t, g, th)) && ThreadStep(g, th, t, a).Move?
    ensures var m := ThreadStep(g, th, t, a); RunTo(longer, more, Only(n, t, m.g, m.th))
    ensures |more| == |events| + 1 && |longer| == |states| + 1
    ensures longer[..|states|] == states && more == events + [Event(t, a)]
  {
    var m := ThreadStep(g, th, t, a);
    var s, s' := Only(n, t, g, th), Only(n, t, m.g, m.th);
    assert s.threads[t := m.th] == s'.threads;
    longer, more := states + [s'], events + [Event(t, a)];
    forall k | 0 <= k < |more| ensures StepAt(longer, more, k) {
      if k < |events| {
        assert StepAt(states, events, k);
      } else {
        assert longer[k] == s && longer[k + 1] == s';
      }
    }
  }

  /** The run's last event was a fault of thread `t` at that point. */
  ghost predicate EndsInFault(states: seq<State>, events: seq<Event>, t: nat, call: Call, at: At)
  {
    && |states| == |events| + 1 && |events| > 0 && events[|events| - 1] == Event(t, Fault)
    && t < |states[|events| - 1].threads| && states[|events| - 1].threads[t] == Thread(call, at, false)
  }

  /** A fault in hw_rx_burst loses g_rx_lock. */
  lemma RxBurstLosesLock(n: nat, t: nat) returns (states: seq<State>, events: seq<Event>)
    requires t < n
    ensures Run(states, events) && LeftBehind(states[|events|], t) && EndsInFault(states, events, t, RxBurst, Bursting)
  {
    hide Run;
    var g, th := Unlocked(), Thread(FtpWait, Idle, false);
    Begins(n, t);
    states, events := [Only(n, t, g, th)], [];
    states, events := GoesOn(states, events, n, t, g, th, Enter(RxBurst));
    states, events := GoesOn(states, events, n, t, g, Thread(RxBurst, Before, false), Step(true));
    states, events := GoesOn(states, events, n, t, g.(rx := Some(t)), Thread(RxBurst, Bursting, false), Fault);
  }

  /** Thread `t` starts lwIP. */
  lemma LwipStarts(n: nat, t: nat) returns (states: seq<State>, events: seq<Event>)
    requires t < n
    ensures RunTo(states, events, Only(n, t, Globals(None, None, 1, true, false), Thread(InitRef, Idle, false)))
  {
    hide Run, Only;
    var g, th := Unlocked(), Thread(FtpWait, Idle, false);
    Begins(n, t);
    states, events := [Only(n, t, g, th)], [];
    states, events := GoesOn(states, events, n, t, g, th, Enter(InitRef));
    g := g.(poll := Some(t));
    states, events := GoesOn(states, events, n, t, g, Thread(InitRef, Entered, false), Step(true));
    g := g.(running := true);
    states, events := GoesOn(states, events, n, t, g, Thread(InitRef, Changing, false), Step(true));
    g := g.(refs := 1);
    states, events := GoesOn(states, events, n, t, g, Thread(InitRef, Leaving, false), Step(true));
  }

  /** The dispatcher gets as far as the burst of dpdk_netif_poll. */
  lemma DispatcherPolls(n: nat, t: nat) returns (states: seq<State>, events: seq<Event>)
    requires t < n
    ensures RunTo(states, events, Only(n, t, Globals(Some(t), Some(t), 1, true, false), Thread(DispatchPoll, PollBursting, false)))
  {
    hide Run, Only;
    states, events := LwipStarts(n, t);
    var g := Globals(None, None, 1, true, false);
    var busy := g.(rx := Some(t));
    states, events := GoesOn(states, events, n, t, g, Thread(InitRef, Idle, false), Enter(DispatchPoll));
    states, events := GoesOn(states, events, n, t, g, Thread(DispatchPoll, Before, false), Step(true));
    states, events := GoesOn(states, events, n, t, busy, Thread(DispatchPoll, Locked, false), Step(true));
    states, events := GoesOn(states, events, n, t, busy, Thread(DispatchPoll, Bursting, true), Step(true));
    states, events := GoesOn(states, events, n, t, busy, Thread(DispatchPoll, Cleared, false), Step(true));
    states, events := GoesOn(states, events, n, t, g, Thread(DispatchPoll, After, false), Step(true));
    states, events := GoesOn(states, events, n, t, g.(poll := Some(t)), Thread(DispatchPoll, Polling, false), Step(true));
  }

  /** A fault in dpdk_netif_poll below the dispatcher loses both locks at once. */
  lemma DispatcherLosesBothLocks(n: nat, t: nat) returns (states: seq<State>, events: seq<Event>)
    requires t < n
    ensures Run(states, events) && LeftBehind(states[|events|], t) && PollLeftBehind(states[|events|], t)
    ensures EndsInFault(states, events, t, DispatchPoll, PollBursting)
  {
    states, events := DispatcherPolls(n, t);
    var g := Globals(Some(t), Some(t), 1, true, false);
    states, events := GoesOn(states, events, n, t, g, Thread(DispatchPoll, PollBursting, false), Fault);
  }

  /** In every run lwIP runs exactly when its reference count is positive, whenever the poll lock is
      free and whenever some thread is polling. */
  lemma RunsWhileReferenced(states: seq<State>, events: seq<Event>, k: nat)
    requires Run(states, events) && k < |states|
    requires states[k].g.poll == None || exists t :: 0 <= t < |states[k].threads| && InPoll(states[k].threads[t])
    ensures states[k].g.running <==> states[k].g.refs > 0
  {
    RunKeepsInv(states, events, k);
    if t :| 0 <= t < |states[k].threads| && InPoll(states[k].threads[t]) {
      assert ThreadOk(states[k].g, states[k].threads[t], t);
    }
  }

  // --- The count is what the calls made it ---

  predicate IsRefCall(c: Call) { c.InitRef? || c.StopRef? }

  /** The reference call that thread `t` has entered and not gone on with, by the events alone. */
  function Entering(events: seq<Event>, t: nat): Option<Call>
  {
    if events == [] then None
    else
      var e := events[|events| - 1];
      if e.thread != t then Entering(events[..|events| - 1], t)
      else if e.action.Enter? && IsRefCall(e.action.call) then Some(e.action.call)
      else None
  }

  /** How many references there should be, by the events alone: each hw_lwip_init_ref that finds lwIP in
      use or can start it adds one, each hw_lwip_stop_ref takes one away as long as there is one. */
  function Ledger(events: seq<Event>): nat
  {
    if events == [] then 0
    else
      var e, n := events[|events| - 1], Ledger(events[..|events| - 1]);
      var call := if e.action.Step? then Entering(events[..|events| - 1], e.thread) else None;
      if call == Some(InitRef) && (n > 0 || e.action.again) then n + 1
      else if call == Some(StopRef) && n > 0 then n - 1
      else n
  }

  /** An increment that is still to come. */
  function Pending(s: State): nat
  {
    if MidChange(s) && s.threads[s.g.poll.value].call == InitRef then 1 else 0
  }

  predicate Tracks(th: Thread, entering: Option<Call>)
  {
    && entering == (if th.at.Entered? then Some(th.call) else None)
    && (InRef(th) ==> IsRefCall(th.call))
  }

  ghost predicate LedgerInv(s: State, events: seq<Event>)
  {
    && s.g.refs + Pending(s) == Ledger(events)
    && forall t | 0 <= t < |s.threads| :: Tracks(s.threads[t], Entering(events, t))
  }

  lemma LedgerMore(events: seq<Event>, e: Event, t: nat)
    ensures Entering(events + [e], t)
         == if e.thread != t then Entering(events, t)
            else if e.action.Enter? && IsRefCall(e.action.call) then Some(e.action.call) else None
    ensures var n, call := Ledger(events), if e.action.Step? then Entering(events, e.thread) else None;
            Ledger(events + [e])
            == if call == Some(InitRef) && (n > 0 || e.action.again) then n + 1
               else if call == Some(StopRef) && n > 0 then n - 1 else n
  {
    assert (events + [e])[..|events + [e]| - 1] == events;
  }

  /** What one step does to the count, and to what the events say of its thread. */
  lemma StepCounts(g: Globals, th: Thread, t: nat, a: Action, n: nat, entering: Option<Call>)
    requires ThreadOk(g, th, t) && ThreadStep(g, th, t, a).Move? && Tracks(th, entering)
    requires th.at.Entered? ==> CountOk(g, false) && g.refs == n
    ensures var m := ThreadStep(g, th, t, a);
            && Tracks(m.th, if a.Enter? && IsRefCall(a.call) then Some(a.call) else None)
            && (th.at.Entered? && a.Step? && th.call == InitRef ==>
                  m.g.refs == n && (m.th.at.Changing? <==> n > 0 || a.again))
            && (th.at.Entered? && a.Step? && th.call == StopRef ==> m.g.refs == if n > 0 then n - 1 else n)
            && (th.at.Changing? ==> m.g.refs == g.refs + (if th.call == InitRef then 1 else 0) && !m.th.at.Changing?)
            && (!th.at.Entered? && !th.at.Changing? ==> m.g.refs == g.refs && !m.th.at.Changing?)
            && m.th.call == (if a.Enter? then a.call else th.call) && (th.at.Entered? ==> a.Step?)
  {
  }

  lemma LedgerKept(s: State, events: seq<Event>, t: nat, a: Action)
    requires t < |s.threads| && Inv(s) && LedgerInv(s, events) && Next(s, t, a).Some?
    ensures LedgerInv(Next(s, t, a).value, events + [Event(t, a)])
  {
    assert s.g.refs >= 0;
    hide ThreadStep, CountOk;
    var s', th, e := Next(s, t, a).value, s.threads[t], Event(t, a);
    assert ThreadOk(s.g, th, t) && Tracks(th, Entering(events, t));
    StepIsLocal(s.g, th, t, a);
    StepCounts(s.g, th, t, a, s.g.refs, Entering(events, t));
    LedgerMore(events, e, t);
    forall u | 0 <= u < |s'.threads| ensures Tracks(s'.threads[u], Entering(events + [e], u)) {
      LedgerMore(events, e, u);
      assert Tracks(s.threads[u], Entering(events, u));
    }
    PendingAfter(s, t, a);
  }

  lemma PendingAfter(s: State, t: nat, a: Action)
    requires t < |s.threads| && Inv(s) && Next(s, t, a).Some?
    ensures var s', th := Next(s, t, a).value, s.threads[t];
            Pending(s') == if s.g.poll == Some(t) || s'.g.poll == Some(t)
                           then (if s'.threads[t].at.Changing? && s'.threads[t].call == InitRef then 1 else 0) else Pending(s)
    ensures s.g.poll == Some(t) ==> Pending(s) == if s.threads[t].at.Changing? && s.threads[t].call == InitRef then 1 else 0
  {
    hide CountOk;
    assert ThreadOk(s.g, s.threads[t], t);
    StepIsLocal(s.g, s.threads[t], t, a);
    hide ThreadStep;
  }

  lemma {:induction false} RunKeepsLedger(states: seq<State>, events: seq<Event>, k: nat)
    requires Run(states, events) && k < |states|
    ensures LedgerInv(states[k], events[..k])
    decreases k
  {
    hide LedgerInv, Inv;
    if k == 0 {
      LedgerBegins(states[0]);
      assert events[..0] == [];
    } else {
      RunKeepsLedger(states, events, k - 1);
      RunKeepsInv(states, events, k - 1);
      assert StepAt(states, events, k - 1);
      LedgerKept(states[k - 1], events[..k - 1], events[k - 1].thread, events[k - 1].action);
      assert events[..k] == events[..k - 1] + [events[k - 1]];
    }
  }

  lemma LedgerBegins(s: State)
    requires Initial(s)
    ensures LedgerInv(s, [])
  {
  }

  /** In every run, whenever no reference call is between its two updates, the count is what the calls
      made it, and lwIP runs exactly when more references were taken than given back. */
  lemma CountIsLedger(states: seq<State>, events: seq<Event>, k: nat)
    requires Run(states, events) && k < |states|
    requires forall t | 0 <= t < |states[k].threads| :: !states[k].threads[t].at.Changing?
    ensures states[k].g.refs == Ledger(events[..k]) && (states[k].g.running <==> Ledger(events[..k]) > 0)
  {
    RunKeepsInv(states, events, k);
    RunKeepsLedger(states, events, k);
  }

  /** A thread that polls lwIP takes a burst of its own exactly if lwIP runs, the dispatcher does not feed
      it and g_rx_lock is free; if it is not, the thread waits for it. */
  lemma PollsItselfExactly(states: seq<State>, events: seq<Event>, k: nat, t: nat, again: bool)
    requires Run(states, events) && k < |states| && t < |states[k].threads| && states[k].threads[t].at == Polling
    ensures var next := Next(states[k], t, Step(again));
            && (next.None? <==> states[k].g.running && !states[k].g.external && states[k].g.rx != None)
            && (next.Some? && next.value.threads[t].at.PollBursting? <==>
                  states[k].g.running && !states[k].g.external && states[k].g.rx == None)
  {
    RunKeepsInv(states, events, k);
    assert ThreadOk(states[k].g, states[k].threads[t], t);
  }

  /** A thread outside of any call gets into one at once, but for hw_lwip_init_ref and hw_lwip_stop_ref
      while the poll lock is taken; hw_lwip_poll does not wait for that lock, it goes without. */
  lemma EntersExactly(s: State, t: nat, c: Call)
    requires t < |s.threads| && s.threads[t].at == Idle
    ensures var next := Next(s, t, Enter(c));
            && (next.None? <==> (c.InitRef? || c.StopRef?) && s.g.poll != None)
            && (c.FtpWait? ==> next.Some? && (next.value.threads[t].at.Polling? <==> s.g.poll == None)
                               && (next.value.threads[t].at.Idle? <==> s.g.poll != None))
    ensures forall on :: Next(s, t, SetExternal(on)) == Some(State(s.g.(external := on), s.threads))
  {
    assert s.threads[t := s.threads[t]] == s.threads;
  }

  /** After a burst the three request calls and hw_lwip_poll may take another, and no other call does; the
      dispatcher goes on to lwIP's poll if lwIP runs and the poll lock is free. */
  lemma AfterBurst(s: State, t: nat, again: bool)
    requires t < |s.threads| && s.threads[t].at == After
    ensures var c, next := s.threads[t].call, Next(s, t, Step(again));
            && next.Some?
            && (next.value.threads[t].at.Before? <==> again && (c.ReqRespMc? || c.ReqRespOnce? || c.ReqRespBatch? || c.LwipPollMs?))
            && (next.value.threads[t].at.Polling? <==> c.DispatchPoll? && s.g.running && s.g.poll == None)
  {
  }

  /** The locks cannot deadlock: in every run, as long as no fault has left a lock behind, some thread
      goes on with its call if any is in one. */
  lemma NoDeadlock(states: seq<State>, events: seq<Event>, k: nat, t: nat)
    returns (u: nat)
    requires Run(states, events) && k < |states| && t < |states[k].threads| && states[k].threads[t].at != Idle
    requires var s := states[k]; s.g.rx.Some? ==> s.g.rx.value < |s.threads| && HoldsRx(s.threads[s.g.rx.value])
    ensures u < |states[k].threads| && states[k].threads[u].at != Idle
    ensures forall again :: Next(states[k], u, Step(again)).Some?
  {
    var s := states[k];
    RunKeepsInv(states, events, k);
    u := if s.g.rx.Some? then s.g.rx.value else t;
    assert ThreadOk(s.g, s.threads[u], u);
  }

  /** lwIP is neither started nor stopped while some thread is in lwip_poll_once_safe. */
  lemma NotStoppedWhilePolling(states: seq<State>, events: seq<Event>, k: nat, t: nat)
    requires Run(states, events) && k < |events| && t < |states[k].threads| && InPoll(states[k].threads[t])
    ensures states[k + 1].g.running == states[k].g.running && states[k + 1].g.refs == states[k].g.refs
  {
    RunKeepsInv(states, events, k);
    assert StepAt(states, events, k);
    var u := events[k].thread;
    assert ThreadOk(states[k].g, states[k].threads[t], t) && ThreadOk(states[k].g, states[k].threads[u], u);
    CountStep(states[k].g, states[k].threads[u], u, events[k].action);
  }

  lemma CountStep(g: Globals, th: Thread, t: nat, a: Action)
    requires ThreadOk(g, th, t) && ThreadStep(g, th, t, a).Move?
    ensures var m := ThreadStep(g, th, t, a); (m.g.running != g.running || m.g.refs != g.refs) ==> InRef(th)
  {
  }
}
