/** The stop-and-wait message queue of GmesCommunication: one message at a time goes to the host, and
    the next one waits until it is answered or times out.  A tick of the queue timer is one step. */
module MesQueue {
  datatype Option<T> = None | Some(value: T)

  // Constants of DefGmes and ChannelConstants.
  const MES_UNKNOWN := 0
  const MES_STATE_FAIL := 1
  const MES_EAYT := 101
  const MES_UCHK := 102
  const MES_EDTI := 103
  const MES_FLDR := 104
  const MES_PCHK := 105
  const MES_EICR := 106
  const MES_EQCC := 107
  const MES_APDR := 110
  const MES_INS_PCHK := 111
  const MES_RPR_EIJR := 113
  const MES_EIJR := 114
  const MES_LPIR := 117
  const EAS_APDR := 201
  const R2R_EODS_R := 302
  const R2R_EODA := 303
  const MAX_PG_COUNT := 4

  const PERIOD := 500

  /** What a queue item says when it is enqueued. */
  datatype Job = Job(kind: int, channel: int, timeout: nat)

  /** The item being worked on. */
  datatype Running = Running(job: Job, state: int, tick: int)

  datatype Mes = Mes(
    queue: seq<Job>,
    current: Option<Running>,
    armed: bool,          // the queue timer runs
    sent: seq<Job>,       // items sent for the first time, in order
    resent: seq<Job>)     // items sent again after a failure

  predicate FireAndForget(kind: int) { kind == EAS_APDR || kind == R2R_EODS_R || kind == R2R_EODA }

  predicate Global(kind: int)
  {
    kind == MES_EAYT || kind == MES_EDTI || kind == MES_EQCC || kind == MES_FLDR || kind == MES_UCHK
  }

  /** A time-out of the others looks up the channel, and fails if there is none. */
  predicate CanTimeOut(j: Job) { Global(j.kind) || 0 <= j.channel < MAX_PG_COUNT }

  /** The longest time-out there is. */
  const LONGEST := 60000

  /** What the queue is made for: an item that is finished at once or can time out. */
  predicate IsJob(j: Job)
  {
    && j.kind != MES_UNKNOWN && j.kind != MES_STATE_FAIL && j.timeout <= LONGEST
    && (FireAndForget(j.kind) || CanTimeOut(j))
  }

  // --- What is enqueued ---

  /** The calls that enqueue something, with what their outcome depends on. */
  datatype Request =
    | Pchk(hasSerial: bool, pg: int) | Lpir(hasSerial: bool, pg: int) | InsPchk(pg: int) | Eicr(pg: int) | Eijr(pg: int)
    | RprEijr(pg: int) | Apdr(pg: int) | EasApdr(pg: int) | R2REods(pg: int) | R2REoda(pg: int)

  function KindOf(r: Request): int
  {
    match r
    case Pchk(_, _) => MES_PCHK
    case Lpir(_, _) => MES_LPIR
    case InsPchk(_) => MES_INS_PCHK
    case Eicr(_) => MES_EICR
    case Eijr(_) => MES_EIJR
    case RprEijr(_) => MES_RPR_EIJR
    case Apdr(_) => MES_APDR
    case EasApdr(_) => EAS_APDR
    case R2REods(_) => R2R_EODS_R
    case R2REoda(_) => R2R_EODA
  }

  function TimeoutOf(r: Request): nat
  {
    if r.Lpir? || r.Apdr? || r.EasApdr? || r.R2REods? || r.R2REoda? then 3000 else 60000
  }

  /** No two of the calls send messages of the same kind. */
  lemma KindsDiffer(a: Request, b: Request)
    requires KindOf(a) == KindOf(b)
    ensures a.Pchk? == b.Pchk? && a.Lpir? == b.Lpir? && a.InsPchk? == b.InsPchk? && a.Eicr? == b.Eicr? && a.Eijr? == b.Eijr?
    ensures a.RprEijr? == b.RprEijr? && a.Apdr? == b.Apdr? && a.EasApdr? == b.EasApdr? && a.R2REods? == b.R2REods?
  {
  }

  /** The call returns early, or looks up the channel in an array of four and fails before it gets to
      the queue.  SendR2REods looks nothing up. */
  predicate Refused(r: Request)
  {
    ((r.Pchk? || r.Lpir?) && !r.hasSerial) || (!r.R2REods? && !(0 <= r.pg < MAX_PG_COUNT))
  }

  /** What a call enqueues. */
  function AsJob(r: Request): (j: Option<Job>)
    ensures j.Some? ==> IsJob(j.value)
  {
    if Refused(r) then None else Some(Job(KindOf(r), r.pg, TimeoutOf(r)))
  }

  /** Sent, and neither answered nor timed out. */
  predicate Outstanding(m: Mes) { m.current.Some? && m.current.value.state != MES_UNKNOWN }

  function Enqueue(m: Mes, j: Job): Mes { m.(queue := m.queue + [j], armed := true) }

  /** OnQueueTimerElapsed. */
  function Tick(m: Mes, now: int): Mes
  {
    if Outstanding(m) then
      var r := m.current.value;
      if now - r.tick > r.job.timeout then
        if CanTimeOut(r.job) then m.(current := None) else m
      else if r.state == MES_STATE_FAIL then
        m.(current := Some(r.(state := r.job.kind)), resent := m.resent + [r.job])
      else m
    else if m.queue == [] then m.(armed := false)
    else
      var j := m.queue[0];
      var state := if FireAndForget(j.kind) then MES_UNKNOWN else j.kind;
      m.(queue := m.queue[1..], current := Some(Running(j, state, now)), sent := m.sent + [j])
  }

  /** A message from the host, whatever it answers. */
  function Reply(m: Mes): Mes
  {
    if m.current.None? then m else m.(current := Some(m.current.value.(state := MES_UNKNOWN)))
  }

  /** A failure of the outstanding item. */
  function Fail(m: Mes): Mes
  {
    if Outstanding(m) then m.(current := Some(m.current.value.(state := MES_STATE_FAIL))) else m
  }

  // --- Runs ---

  datatype Event = Asked(request: Request) | Ticked(now: int) | Replied | Failed

  function Step(m: Mes, e: Event): Mes
  {
    match e
    case Asked(r) => if AsJob(r).Some? then Enqueue(m, AsJob(r).value) else m
    case Ticked(now) => Tick(m, now)
    case Replied => Reply(m)
    case Failed => Fail(m)
  }

  /** The timer ticks only while it is armed, and no two ticks are closer than its period. */
  predicate Enabled(m: Mes, e: Event, last: int)
  {
    match e
    case Ticked(now) => m.armed && now >= last + PERIOD
    case _ => true
  }

  /** What an observer adds: the items enqueued, the time of the last tick, and how many ticks went by
      since the item being worked on was sent. */
  datatype Seen = Seen(enqueued: seq<Job>, last: int, age: nat)

  function Observe(m: Mes, e: Event, seen: Seen): Seen
  {
    match e
    case Asked(r) => if AsJob(r).Some? then seen.(enqueued := seen.enqueued + [AsJob(r).value]) else seen
    case Ticked(now) => seen.(last := now, age := if |Tick(m, now).sent| > |m.sent| then 0 else seen.age + 1)
    case _ => seen
  }

  predicate CurrentIsJob(m: Mes) { m.current.Some? ==> IsJob(m.current.value.job) }

  predicate Inv(m: Mes, seen: Seen)
  {
    && m.sent + m.queue == seen.enqueued
    && (m.queue != [] || Outstanding(m) ==> m.armed)
    && (forall j | j in seen.enqueued :: IsJob(j))
    && CurrentIsJob(m) && (m.current.Some? ==> m.sent != [] && m.current.value.job == m.sent[|m.sent| - 1])
    && (m.current.Some? ==> seen.last - m.current.value.tick >= PERIOD * seen.age)
    && (Outstanding(m) ==> !FireAndForget(m.current.value.job.kind)
                           && (m.current.value.state == m.current.value.job.kind || m.current.value.state == MES_STATE_FAIL))
  }

  /** Conservation and order: what was sent and what is still queued are together what was enqueued,
      in its order; the timer runs whenever anything is left to do. */
  lemma InvKept(m: Mes, seen: Seen, e: Event)
    requires Inv(m, seen) && Enabled(m, e, seen.last)
    ensures Inv(Step(m, e), Observe(m, e, seen))
  {
    var m' := Step(m, e);
    match e
    case Asked(r) =>
      if AsJob(r).Some? {
        var j := AsJob(r).value;
        assert m.sent + (m.queue + [j]) == m.sent + m.queue + [j];
      }
    case Ticked(now) =>
      if !Outstanding(m) && m.queue != [] {
        assert m.sent + [m.queue[0]] + m.queue[1..] == m.sent + m.queue;
        assert m.queue[0] == (m.sent + m.queue)[|m.sent|];
      }
    case _ =>
  }

  /** Stop and wait: a new item is sent only when nothing is outstanding, and an outstanding item
      stops being so only by a message from the host or by its time-out. */
  lemma StopAndWait(m: Mes, e: Event)
    requires CurrentIsJob(m)
    ensures |Step(m, e).sent| > |m.sent| ==> !Outstanding(m) && e.Ticked?
    ensures Outstanding(m) && !Outstanding(Step(m, e)) ==>
        e.Replied? || (e.Ticked? && e.now - m.current.value.tick > m.current.value.job.timeout)
    ensures m.sent <= Step(m, e).sent && (Outstanding(m) ==> Step(m, e).sent == m.sent)
    ensures var m' := Step(m, e); |m'.resent| > |m.resent| ==>
        Outstanding(m) && m.current.value.state == MES_STATE_FAIL && m'.resent == m.resent + [m.current.value.job]
  {
  }

  /** What has failed is sent again by the next tick, unless that comes after its time-out; nothing else
      is sent again. */
  lemma ResentExactly(m: Mes, now: int)
    requires Outstanding(m)
    ensures var r, f := m.current.value, Step(m, Failed);
            && Outstanding(f) && f.sent == m.sent && f.queue == m.queue
            && Tick(f, now).resent == (if now - r.tick <= r.job.timeout then m.resent + [r.job] else m.resent)
            && (r.state != MES_STATE_FAIL ==> Tick(m, now).resent == m.resent)
  {
  }

  // --- How long an item waits ---

  /** The ticks from the one that sends an item to the one that can send the next, at most. */
  function Cost(j: Job): nat { j.timeout / PERIOD + 2 }

  function Costs(js: seq<Job>): nat
  {
    if js == [] then 0 else Cost(js[0]) + Costs(js[1..])
  }

  /** The ticks until the next item is sent, at most. */
  function Rest(m: Mes, age: nat): (n: nat)
    ensures n >= 1
  {
    if !Outstanding(m) then 1
    else
      var c := Cost(m.current.value.job);
      if c > age + 2 then c - age else 2
  }

  /** The ticks until the item `n`-th in the order of enqueueing is sent, at most. */
  function Wait(m: Mes, age: nat, n: nat): (w: nat)
    requires |m.sent| <= n < |m.sent| + |m.queue|
    ensures w >= 1
  {
    Rest(m, age) + Costs(m.queue[..n - |m.sent|])
  }

  lemma ElapsedIsLong(timeout: nat, age: nat, elapsed: int)
    requires elapsed >= PERIOD * age && timeout / PERIOD < age
    ensures elapsed > timeout
  {
  }

  /** Every tick brings the item nearer, even if its predecessor fails and is sent again. */
  lemma TickHelps(m: Mes, seen: Seen, now: int, n: nat)
    requires Inv(m, seen) && m.armed && now >= seen.last + PERIOD
    requires |m.sent| <= n < |m.sent| + |m.queue|
    ensures var m' := Tick(m, now);
            |m'.sent| + |m'.queue| == |m.sent| + |m.queue|
            && (n < |m'.sent| || Wait(m', Observe(m, Ticked(now), seen).age, n) < Wait(m, seen.age, n))
  {
    var m' := Tick(m, now);
    if Outstanding(m) {
      var r := m.current.value;
      if r.job.timeout / PERIOD < seen.age + 1 {
        ElapsedIsLong(r.job.timeout, seen.age + 1, now - r.tick);
      }
    } else if n > |m.sent| {
      assert m'.queue[..n - |m'.sent|] == m.queue[..n - |m.sent|][1..];
    }
  }

  /** No other event makes it wait longer. */
  lemma OthersDoNotDelay(m: Mes, e: Event, age: nat, n: nat)
    requires !e.Ticked? && |m.sent| <= n < |m.sent| + |m.queue|
    ensures var m' := Step(m, e);
            m'.sent == m.sent && |m'.queue| >= |m.queue| && Wait(m', age, n) <= Wait(m, age, n)
  {
    if e.Asked? && AsJob(e.request).Some? {
      assert (m.queue + [AsJob(e.request).value])[..n - |m.sent|] == m.queue[..n - |m.sent|];
    }
  }

  // --- Whole runs ---

  function Start(): Mes { Mes([], None, false, [], []) }

  datatype Run = Run(states: seq<Mes>, seens: seq<Seen>, events: seq<Event>)

  ghost predicate IsRun(r: Run)
  {
    && |r.states| == |r.seens| == |r.events| + 1
    && r.states[0] == Start() && r.seens[0].enqueued == []
    && forall k | 0 <= k < |r.events| :: StepAt(r, k)
  }

  ghost predicate StepAt(r: Run, k: nat)
    requires |r.states| == |r.seens| == |r.events| + 1 && k < |r.events|
  {
    && Enabled(r.states[k], r.events[k], r.seens[k].last)
    && r.states[k + 1] == Step(r.states[k], r.events[k])
    && r.seens[k + 1] == Observe(r.states[k], r.events[k], r.seens[k])
  }

  lemma {:induction false} RunKeepsInv(r: Run, k: nat)
    requires IsRun(r) && k < |r.states|
    ensures Inv(r.states[k], r.seens[k])
    decreases k
  {
    if k != 0 {
      RunKeepsInv(r, k - 1);
      assert StepAt(r, k - 1);
      InvKept(r.states[k - 1], r.seens[k - 1], r.events[k - 1]);
    }
  }

  /** In every run the timer is armed while anything is queued or waited for. */
  lemma TimerRuns(r: Run, k: nat)
    requires IsRun(r) && k < |r.states|
    ensures r.states[k].queue != [] || Outstanding(r.states[k]) ==> r.states[k].armed
  {
    RunKeepsInv(r, k);
  }

  /** Any call, reply or failure can come at any time; a tick only while the timer is armed, and not
      before 500 ms have passed since the last one. */
  lemma GoesOn(r: Run, e: Event)
    requires IsRun(r) && (e.Ticked? ==> r.states[|r.events|].armed && e.now >= r.seens[|r.events|].last + 500)
    ensures var m, seen := r.states[|r.events|], r.seens[|r.events|];
            IsRun(Run(r.states + [Step(m, e)], r.seens + [Observe(m, e, seen)], r.events + [e]))
  {
    var n := |r.events|;
    var r' := Run(r.states + [Step(r.states[n], e)], r.seens + [Observe(r.states[n], e, r.seens[n])], r.events + [e]);
    forall k | 0 <= k < n + 1 ensures StepAt(r', k) {
      if k < n {
        assert StepAt(r, k);
      }
    }
  }

  function Ticks(events: seq<Event>): nat
  {
    if events == [] then 0 else (if events[0].Ticked? then 1 else 0) + Ticks(events[1..])
  }

  /** In every run, whatever was asked for: what is queued can be finished, and the item being worked
      on is given up by the first tick after its time-out. */
  lemma GivenUpInTime(r: Run, k: nat)
    requires IsRun(r) && k < |r.events|
    ensures forall j | j in r.states[k].queue :: IsJob(j)
    ensures var m := r.states[k];
            Outstanding(m) && r.events[k].Ticked? && r.events[k].now - m.current.value.tick > m.current.value.job.timeout
            ==> r.states[k + 1] == m.(current := None)
  {
    RunKeepsInv(r, k);
    assert StepAt(r, k);
    var m := r.states[k];
    forall j | j in m.queue ensures IsJob(j) {
      assert j in m.sent + m.queue;
    }
  }

  /** Whatever the host does, an item that has been enqueued by step `k` is sent within that many
      ticks from there: floor(timeout / 500) + 2 for each predecessor still to be finished. */
  lemma {:induction false} BoundedWait(r: Run, k: nat, l: nat, n: nat)
    requires IsRun(r) && k <= l < |r.states|
    requires |r.states[k].sent| <= n < |r.states[k].sent| + |r.states[k].queue|
    ensures |r.states[l].sent| <= n ==>
              n < |r.states[l].sent| + |r.states[l].queue|
              && Wait(r.states[l], r.seens[l].age, n) + Ticks(r.events[k..l]) <= Wait(r.states[k], r.seens[k].age, n)
    ensures Ticks(r.events[k..l]) >= Wait(r.states[k], r.seens[k].age, n) ==> |r.states[l].sent| > n
    decreases l - k
  {
    if k < l {
      assert StepAt(r, k);
      RunKeepsInv(r, k);
      assert r.events[k..l][0] == r.events[k] && r.events[k..l][1..] == r.events[k + 1..l];
      if r.events[k].Ticked? {
        TickHelps(r.states[k], r.seens[k], r.events[k].now, n);
      } else {
        OthersDoNotDelay(r.states[k], r.events[k], r.seens[k].age, n);
      }
      if |r.states[k + 1].sent| > n {
        SentGrows(r, k + 1, l);
      } else {
        BoundedWait(r, k + 1, l, n);
      }
    }
  }

  lemma {:induction false} SentGrows(r: Run, k: nat, l: nat)
    requires IsRun(r) && k <= l < |r.states|
    ensures r.states[k].sent <= r.states[l].sent
    decreases l - k
  {
    if k < l {
      assert StepAt(r, k);
      RunKeepsInv(r, k);
      StopAndWait(r.states[k], r.events[k]);
      SentGrows(r, k + 1, l);
    }
  }

  /** Between two sendings of new items, an item that needs a reply was answered or timed out. */
  lemma {:induction false} AnsweredBetween(r: Run, i: nat, k: nat)
    requires IsRun(r) && i < k < |r.events| && Outstanding(r.states[i + 1])
    requires |r.states[k + 1].sent| > |r.states[k].sent|
    ensures exists l | i < l < k :: r.events[l].Replied? || (r.events[l].Ticked? && Outstanding(r.states[l])
              && r.events[l].now - r.states[l].current.value.tick > r.states[l].current.value.job.timeout)
    decreases k - i
  {
    assert StepAt(r, i + 1) && StepAt(r, k);
    RunKeepsInv(r, i + 1);
    RunKeepsInv(r, k);
    StopAndWait(r.states[k], r.events[k]);
    StopAndWait(r.states[i + 1], r.events[i + 1]);
    if i + 1 < k && Outstanding(r.states[i + 2]) {
      AnsweredBetween(r, i + 1, k);
    }
  }

  // --- By the calls alone ---

  /** The calls that got as far as the queue, in their order. */
  function Accepted(events: seq<Event>): (rs: seq<Request>)
    ensures forall i | 0 <= i < |rs| :: !Refused(rs[i])
  {
    if events == [] then []
    else
      var e, before := events[|events| - 1], Accepted(events[..|events| - 1]);
      if e.Asked? && !Refused(e.request) then before + [e.request] else before
  }

  /** SendEasApdr, SendR2REods and SendR2REoda send without waiting for a reply. */
  predicate NeedsReply(r: Request) { !r.EasApdr? && !r.R2REods? && !r.R2REoda? }

  /** How long a reply is waited for. */
  function Patience(r: Request): nat { if r.Lpir? || r.Apdr? then 3000 else 60000 }

  /** After the tick `i` and before event `k` the host answered, or a tick came too late for what was
      asked for by `q` and sent by tick `i`. */
  ghost predicate Settled(events: seq<Event>, q: Request, i: nat, k: nat)
    requires i < k <= |events| && events[i].Ticked?
  {
    exists l | i < l < k :: events[l].Replied? || (events[l].Ticked? && events[l].now - events[i].now > Patience(q))
  }

  /** Event `i` sends a new item and no event from there to `k` sends another. */
  ghost predicate LatestSending(r: Run, i: nat, k: nat)
    requires IsRun(r)
  {
    && i < k < |r.states| && r.events[i].Ticked?
    && |r.states[i].sent| < |r.states[i + 1].sent| == |r.states[k].sent|
  }

  lemma AcceptedMore(events: seq<Event>, k: nat)
    requires k < |events|
    ensures Accepted(events[..k + 1])
         == Accepted(events[..k]) + if events[k].Asked? && !Refused(events[k].request) then [events[k].request] else []
  {
    assert events[..k + 1][..k] == events[..k];
  }

  lemma {:induction false} AcceptedGrows(events: seq<Event>, i: nat, k: nat)
    requires i <= k <= |events|
    ensures Accepted(events[..i]) <= Accepted(events[..k])
    decreases k
  {
    if i < k {
      AcceptedGrows(events, i, k - 1);
      AcceptedMore(events, k - 1);
    }
  }

  /** What is enqueued is what the calls asked for. */
  lemma {:induction false} EnqueuedIsAccepted(r: Run, k: nat)
    requires IsRun(r) && k < |r.states|
    ensures var rs, js := Accepted(r.events[..k]), r.seens[k].enqueued;
            |rs| == |js| && forall n | 0 <= n < |rs| :: AsJob(rs[n]) == Some(js[n])
    decreases k
  {
    if k != 0 {
      EnqueuedIsAccepted(r, k - 1);
      AcceptedMore(r.events, k - 1);
      assert StepAt(r, k - 1);
    }
  }

  /** The item sent by event `i` is the one asked for by `q`, and waited for until event `k`. */
  predicate WaitsFor(m: Mes, q: Request, since: int)
  {
    && Outstanding(m) && m.current.value.tick == since && AsJob(q) == Some(m.current.value.job)
  }

  lemma WaitStep(m: Mes, e: Event, q: Request, since: int)
    requires NeedsReply(q)
    requires WaitsFor(m, q, since)
    ensures WaitsFor(Step(m, e), q, since) || !Outstanding(Step(m, e))
    ensures Outstanding(Step(m, e)) <==> !e.Replied? && !(e.Ticked? && e.now - since > Patience(q))
  {
  }

  /** Sending the item asked for by `q`. */
  lemma SendStep(m: Mes, now: int, q: Request)
    requires !Outstanding(m) && m.queue != [] && AsJob(q) == Some(m.queue[0])
    ensures if NeedsReply(q) then WaitsFor(Tick(m, now), q, now) else !Outstanding(Tick(m, now))
  {
  }

  lemma IdleStep(m: Mes, e: Event)
    requires !Outstanding(m) && |Step(m, e).sent| == |m.sent|
    ensures !Outstanding(Step(m, e))
  {
  }

  /** Which item is being waited for, and until when. */
  lemma {:induction false} WaitedForExactly(r: Run, i: nat, k: nat, q: Request)
    requires IsRun(r) && LatestSending(r, i, k)
    requires |r.states[i].sent| < |Accepted(r.events[..i])| && q == Accepted(r.events[..i])[|r.states[i].sent|]
    ensures if NeedsReply(q) && !Settled(r.events, q, i, k) then WaitsFor(r.states[k], q, r.events[i].now)
            else !Outstanding(r.states[k])
    decreases k
  {
    assert StepAt(r, k - 1);
    RunKeepsInv(r, k - 1);
    if k == i + 1 {
      EnqueuedIsAccepted(r, i);
      StopAndWait(r.states[i], r.events[i]);
      assert r.states[i].queue[0] == (r.states[i].sent + r.states[i].queue)[|r.states[i].sent|];
      SendStep(r.states[i], r.events[i].now, q);
    } else {
      SentGrows(r, i + 1, k - 1);
      SentGrows(r, k - 1, k);
      WaitedForExactly(r, i, k - 1, q);
      if Outstanding(r.states[k - 1]) {
        WaitStep(r.states[k - 1], r.events[k - 1], q, r.events[i].now);
      } else {
        IdleStep(r.states[k - 1], r.events[k - 1]);
      }
    }
  }

  lemma QueueIsAccepted(r: Run, k: nat)
    requires IsRun(r) && k < |r.states|
    ensures |Accepted(r.events[..k])| == |r.states[k].sent| + |r.states[k].queue|
    ensures forall n | 0 <= n < |r.states[k].sent| :: AsJob(Accepted(r.events[..k])[n]) == Some(r.states[k].sent[n])
  {
    RunKeepsInv(r, k);
    EnqueuedIsAccepted(r, k);
    assert r.states[k].sent <= r.seens[k].enqueued;
  }

  /** When a tick sends a new item, and which. */
  lemma TickSends(r: Run, k: nat)
    requires IsRun(r) && k < |r.events| && r.events[k].Ticked?
    ensures var n, rs := |r.states[k].sent|, Accepted(r.events[..k]);
            && (|r.states[k + 1].sent| > n <==> |rs| > n && !Outstanding(r.states[k]))
            && (|r.states[k + 1].sent| > n ==> |r.states[k + 1].sent| == n + 1 && AsJob(rs[n]) == Some(r.states[k + 1].sent[n]))
  {
    assert StepAt(r, k);
    QueueIsAccepted(r, k);
    QueueIsAccepted(r, k + 1);
    AcceptedMore(r.events, k);
  }

  /** When the next item goes out, in every run and by the calls alone.  If tick `i` sent the item of
      the accepted call `n` and tick `k` comes before anything else was sent, then tick `k` sends the
      item of call `n + 1` if there is one and the reply to the first has come or is not waited for any
      longer; the other three calls need no reply, so that the very next tick goes on. */
  lemma NextIsSentExactly(r: Run, i: nat, k: nat)
    requires IsRun(r) && LatestSending(r, i, k) && k < |r.events| && r.events[k].Ticked?
    ensures var n, rs := |r.states[i].sent|, Accepted(r.events[..k]);
            && n < |rs| && AsJob(rs[n]) == Some(r.states[i + 1].sent[n])
            && (|r.states[k + 1].sent| > |r.states[k].sent| <==>
                  |rs| > n + 1 && (rs[n].EasApdr? || rs[n].R2REods? || rs[n].R2REoda? || Settled(r.events, rs[n], i, k)))
            && (|r.states[k + 1].sent| > |r.states[k].sent| ==> AsJob(rs[n + 1]) == Some(r.states[k + 1].sent[n + 1]))
  {
    TickSends(r, i);
    TickSends(r, k);
    AcceptedGrows(r.events, i, k);
    WaitedForExactly(r, i, k, Accepted(r.events[..i])[|r.states[i].sent|]);
  }

  /** The bound in plain numbers: from the moment item `n` is enqueued. */
  lemma WaitOfNewItem(m: Mes, age: nat, j: Job)
    ensures var m' := Enqueue(m, j);
            Wait(m', age, |m.sent| + |m.queue|)
            <= (if Outstanding(m) then Cost(m.current.value.job) else 1) + Costs(m.queue)
  {
    assert (m.queue + [j])[..|m.queue|] == m.queue;
  }

  /** No item takes more ticks than this. */
  const MOST_TICKS := 122

  lemma {:induction false} CostsAtMost(js: seq<Job>)
    requires forall j | j in js :: IsJob(j)
    ensures Costs(js) <= MOST_TICKS * |js|
    decreases |js|
  {
    if js != [] {
      assert IsJob(js[0]) && Cost(js[0]) <= MOST_TICKS;
      CostsAtMost(js[1..]);
    }
  }

  /** In numbers of the source: in every run an item with `p` others before it in the queue is sent
      after at most 122 * (p + 1) ticks of the timer. */
  lemma SentInTime(r: Run, k: nat, l: nat, n: nat)
    requires IsRun(r) && k <= l < |r.states|
    requires |r.states[k].sent| <= n < |r.states[k].sent| + |r.states[k].queue|
    requires Ticks(r.events[k..l]) >= 122 * (n - |r.states[k].sent| + 1)
    ensures |r.states[l].sent| > n
  {
    var m := r.states[k];
    RunKeepsInv(r, k);
    var ahead := m.queue[..n - |m.sent|];
    forall j | j in ahead ensures IsJob(j) {
      assert j in m.sent + m.queue;
    }
    CostsAtMost(ahead);
    assert Rest(m, r.seens[k].age) <= MOST_TICKS;
    BoundedWait(r, k, l, n);
  }

  // --- The objects ---

  /** MesQueueItem. */
  class QueueItem {
    const kind: int
    const channel: int
    const timeout: nat
    var state: int
    var tick: int

    constructor (kind: int, channel: int, timeout: nat)
      ensures AsJob() == Job(kind, channel, timeout) && state == MES_UNKNOWN
    {
      this.kind, this.channel, this.timeout, state, tick := kind, channel, timeout, MES_UNKNOWN, 0;
    }

    function AsJob(): Job { Job(kind, channel, timeout) }
  }

  function Jobs(items: seq<QueueItem>): (js: seq<Job>)
    ensures |js| == |items| && forall i | 0 <= i < |items| :: js[i] == items[i].AsJob()
  {
    if items == [] then [] else [items[0].AsJob()] + Jobs(items[1..])
  }

  lemma {:induction false} JobsSnoc(items: seq<QueueItem>, item: QueueItem)
    ensures Jobs(items + [item]) == Jobs(items) + [item.AsJob()]
  {
    var a, b := Jobs(items + [item]), Jobs(items) + [item.AsJob()];
    assert |a| == |b| && forall i | 0 <= i < |a| :: a[i] == b[i];
  }

  /** The part of GmesCommunication that moves the queue. */
  class Gmes {
    var queue: seq<QueueItem>
    var currentItem: QueueItem?
    var timerArmed: bool
    var sent: seq<Job>      // given to SendMessage from the queue
    var resent: seq<Job>    // given to SendMessage again

    /** Items are enqueued once, in the state Unknown, and only the current one is changed. */
    ghost predicate Valid()
      reads this, queue
    {
      && (forall i | 0 <= i < |queue| :: queue[i].state == MES_UNKNOWN && queue[i] != currentItem)
      && (forall i, j | 0 <= i < j < |queue| :: queue[i] != queue[j])
    }

    ghost function Current(): Option<Running>
      reads this, currentItem
    {
      if currentItem == null then None else Some(Running(currentItem.AsJob(), currentItem.state, currentItem.tick))
    }

    ghost function View(): Mes
      reads this, currentItem
    {
      Mes(Jobs(queue), Current(), timerArmed, sent, resent)
    }

    constructor ()
      ensures Valid() && View() == Start()
    {
      queue, currentItem, timerArmed, sent, resent := [], null, false, [], [];
    }

    method EnqueueAndStart(item: QueueItem)
      requires Valid() && item !in queue && item != currentItem && item.state == MES_UNKNOWN
      modifies this
      ensures Valid() && View() == Enqueue(old(View()), item.AsJob())
    {
      JobsSnoc(queue, item);
      queue := queue + [item];
      timerArmed := true;
    }

    /** The calls from SendHostPchk to SendR2REoda, as far as the queue goes. */
    method Ask(request: Request) returns (enqueued: bool)
      requires Valid()
      modifies this
      ensures Valid() && View() == Step(old(View()), Asked(request))
      ensures enqueued <==> (request.R2REods? || 0 <= request.pg <= 3) && (request.Pchk? || request.Lpir? ==> request.hasSerial)
    {
      if (request.Pchk? || request.Lpir?) && !request.hasSerial {
        return false;
      }
      if !request.R2REods? && (request.pg < 0 || request.pg >= MAX_PG_COUNT) {
        return false;
      }
      var kind, timeout;
      match request {
        case Pchk(_, _) => kind, timeout := MES_PCHK, 60000;
        case Lpir(_, _) => kind, timeout := MES_LPIR, 3000;
        case InsPchk(_) => kind, timeout := MES_INS_PCHK, 60000;
        case Eicr(_) => kind, timeout := MES_EICR, 60000;
        case Eijr(_) => kind, timeout := MES_EIJR, 60000;
        case RprEijr(_) => kind, timeout := MES_RPR_EIJR, 60000;
        case Apdr(_) => kind, timeout := MES_APDR, 3000;
        case EasApdr(_) => kind, timeout := EAS_APDR, 3000;
        case R2REods(_) => kind, timeout := R2R_EODS_R, 3000;
        case R2REoda(_) => kind, timeout := R2R_EODA, 3000;
      }
      var item := new QueueItem(kind, request.pg, timeout);
      EnqueueAndStart(item);
      return true;
    }

    /** The next item goes out; with that a fire-and-forget item is finished. */
    method SendNext(now: int)
      requires Valid() && queue != [] && !Outstanding(View())
      modifies this, queue[0]
      ensures Valid() && View() == Tick(old(View()), now)
    {
      var item := queue[0];
      queue := queue[1..];
      currentItem := item;
      var isFireAndForget := item.kind == EAS_APDR || item.kind == R2R_EODS_R || item.kind == R2R_EODA;
      if !isFireAndForget {
        item.state := item.kind;
      }
      item.tick := now;
      sent := sent + [item.AsJob()];
    }

    method OnQueueTimerElapsed(now: int)
      requires Valid()
      modifies this, currentItem, queue
      ensures Valid() && View() == Tick(old(View()), now)
    {
      if currentItem != null && currentItem.state != MES_UNKNOWN {
        var elapsed := now - currentItem.tick;
        if elapsed > currentItem.timeout {
          var kind, channel := currentItem.kind, currentItem.channel;
          if kind == MES_EAYT || kind == MES_EDTI || kind == MES_EQCC || kind == MES_FLDR || kind == MES_UCHK
             || (0 <= channel < MAX_PG_COUNT) {
            currentItem.state := MES_UNKNOWN;
            currentItem := null;
          }
        } else if currentItem.state == MES_STATE_FAIL {
          currentItem.state := currentItem.kind;
          resent := resent + [currentItem.AsJob()];
        }
      } else if queue != [] {
        SendNext(now);
      } else {
        timerArmed := false;
      }
    }

    /** The end of GetHostData, GetEasData and GetR2RData. */
    method MarkComplete()
      requires Valid()
      modifies currentItem
      ensures Valid() && View() == Reply(old(View()))
    {
      if currentItem != null {
        currentItem.state := MES_UNKNOWN;
      }
    }
  }
}
