/** Runs: any sequence of the calls of hwio.c on one port, of frames that arrive and of frames that
    the callers give back, each completed before the next one begins.  No packet buffer is lost or
    duplicated, however often it goes round, and frames reach their consumers in the order in which
    they arrived. */
module HwRun {
  import opened Checksum
  import opened Packets
  import opened HwWait
  import opened HwIo
  import opened HwBatch

  datatype Call =
    | CallRxBurst(nb: nat, take: nat)
    | CallReqResp(multiChannel: bool, template: seq<byte>, packetId: word, q: Query, respBufSize: nat, polls: seq<Poll>)
    | CallBatch(template: seq<byte>, start: word, count: word, q: Query, accepts: nat -> nat, polls: seq<Poll>)
    | CallDispatch(max: nat, take: nat, emits: nat -> seq<seq<byte>>, lockFree: bool, lwipTake: nat,
                   lwipEmits: nat -> seq<seq<byte>>, timers: seq<seq<byte>>)
    | CallCleanup
    | SendsComplete(n: nat)                      // the NIC gives back the buffers of sent frames
    | SetLwip(running: bool, externalRx: bool)   // lwIP started, stopped or switched over

  predicate HasHeader(c: Call)
  {
    match c
    case CallReqResp(_, t, _, _, _, _) => CK_OFFSET + 1 < |t|
    case CallBatch(t, _, _, _, _, _) => CK_OFFSET + 1 < |t|
    case _ => true
  }

  // --- What one call does to the order ---

  lemma SubDrop(a: seq<Packet>, b: seq<Packet>, k: nat)
    requires k <= |b|
    ensures Sub(a + b[k..], a + b)
  {
    SubRefl(a);
    SubRefl(b[k..]);
    SubOfNothing(b[..k]);
    SubConcat([], b[..k], b[k..], b[k..]);
    assert b == b[..k] + b[k..] && [] + b[k..] == b[k..];
    SubConcat(a, a, b[k..], b);
  }

  /** A wait keeps the ring ahead of the NIC, and both in order. */
  lemma WaitOrder(ring0: seq<Packet>, rx0: seq<Packet>, taken: nat, ring: seq<Packet>, q: Query, spilling: bool)
    requires |ring0| <= RING_USABLE && taken <= |rx0|
    requires ring == if spilling then Spill(ring0, PassedOn(rx0[..taken], q)) else ring0
    ensures Sub(ring + rx0[taken..], ring0 + rx0)
  {
    hide Sub, PassedOn, Spill;
    if spilling {
      PassedOnIsSub(rx0[..taken], q);
      SpillIsSub(ring0, PassedOn(rx0[..taken], q), rx0[..taken]);
      SubRefl(rx0[taken..]);
      SubConcat(ring, ring0 + rx0[..taken], rx0[taken..], rx0[taken..]);
      Assoc(ring0, rx0[..taken], rx0[taken..]);
      assert rx0[..taken] + rx0[taken..] == rx0;
    } else {
      SubDrop(ring0, rx0, taken);
    }
  }

  lemma UpToIsSub(ps: seq<Packet>, cap: nat)
    ensures Sub(UpTo(ps, cap), ps)
  {
    if |ps| <= cap {
      SubRefl(ps);
    } else {
      SubPrefix(ps, cap);
    }
  }

  /** The dispatcher hands over the drained ring before the burst; frames of the burst are handed
      over only when the ring is empty. */
  lemma DispatchOrder(drained: seq<Packet>, ring: seq<Packet>, rx: seq<Packet>, rest: seq<Packet>, k: nat,
                      out: seq<Packet>, lwipRunning: bool, max: nat)
    requires |drained| == Min(max, |drained| + |ring|) && k <= |rest|
    requires out == Filled(drained, rx, lwipRunning, max)
    ensures Sub(out + (ring + rest[k..]), (drained + ring) + (rx + rest))
  {
    var kept := UpTo(Routed(rx, lwipRunning, ToCaller), max - |drained|);
    UpToIsSub(Routed(rx, lwipRunning, ToCaller), max - |drained|);
    RoutedIsSub(rx, lwipRunning, ToCaller);
    SubTrans(kept, Routed(rx, lwipRunning, ToCaller), rx);
    KeptThenRest(drained, ring, kept, rx, rest, k);
  }

  lemma KeptThenRest(drained: seq<Packet>, ring: seq<Packet>, kept: seq<Packet>, rx: seq<Packet>, rest: seq<Packet>, k: nat)
    requires k <= |rest| && Sub(kept, rx) && (ring == [] || kept == [])
    ensures Sub((drained + kept) + (ring + rest[k..]), (drained + ring) + (rx + rest))
  {
    hide Sub;
    var later := rest[k..];
    SubRefl(drained + ring);
    SubDrop([], rest, k);
    assert [] + rest == rest && [] + later == later;
    SubConcat(kept, rx, later, rest);
    SubConcat(drained + ring, drained + ring, kept + later, rx + rest);
    Assoc(drained, kept, ring + later);
    Assoc(drained, ring, kept + later);
    if ring == [] {
      assert ring + later == later && ring + (kept + later) == kept + later;
    } else {
      assert kept + (ring + later) == ring + later && kept + later == later;
    }
  }

  /** What lwIP gets is in order too. */
  lemma LwipOrder(rx: seq<Packet>, lwipRunning: bool, fed: seq<Packet>, rest: seq<Packet>)
    ensures Sub((Routed(rx, lwipRunning, ToLwip) + fed) + rest, rx + (fed + rest))
  {
    var toLwip := Routed(rx, lwipRunning, ToLwip);
    RoutedIsSub(rx, lwipRunning, ToLwip);
    SubRefl(fed + rest);
    SubConcat(toLwip, rx, fed + rest, fed + rest);
    Assoc(toLwip, fed, rest);
  }

  lemma SubAfter(handed: seq<Packet>, now: seq<Packet>, all: seq<Packet>, out: seq<Packet>, later: seq<Packet>)
    requires Sub(handed + now, all) && Sub(out + later, now)
    ensures Sub((handed + out) + later, all)
  {
    SubRefl(handed);
    SubConcat(handed, handed, out + later, now);
    Assoc(handed, out, later);
    SubTrans((handed + out) + later, handed + now, all);
  }

  /** What is handed over, what is still in the ring and what the NIC still has are in arrival
      order, and so is what lwIP gets. */
  ghost predicate Orderly(ring0: seq<Packet>, rx0: seq<Packet>, out: seq<Packet>, fed: seq<Packet>,
                          ring: seq<Packet>, rx: seq<Packet>)
  {
    Sub(out + (ring + rx), ring0 + rx0) && Sub(fed + rx, rx0)
  }

  lemma OrderlyWithoutHandOver(ring0: seq<Packet>, rx0: seq<Packet>, ring: seq<Packet>, rx: seq<Packet>)
    requires Sub(ring + rx, ring0 + rx0) && Sub(rx, rx0)
    ensures Orderly(ring0, rx0, [], [], ring, rx)
  {
    assert [] + (ring + rx) == ring + rx && [] + rx == rx;
  }

  lemma OrderlyWait(ring0: seq<Packet>, rx0: seq<Packet>, taken: nat, ring: seq<Packet>, q: Query, spilling: bool)
    requires |ring0| <= RING_USABLE && taken <= |rx0|
    requires ring == if spilling then Spill(ring0, PassedOn(rx0[..taken], q)) else ring0
    ensures Orderly(ring0, rx0, [], [], ring, rx0[taken..])
  {
    WaitOrder(ring0, rx0, taken, ring, q, spilling);
    SubDrop([], rx0, taken);
    assert [] + rx0 == rx0 && [] + rx0[taken..] == rx0[taken..];
    OrderlyWithoutHandOver(ring0, rx0, ring, rx0[taken..]);
  }

  lemma OrderlyBurst(ring0: seq<Packet>, rx0: seq<Packet>, out: seq<Packet>, ring: seq<Packet>, rx: seq<Packet>, k: nat)
    requires ring0 + rx0 == out + (ring + rx) && k <= |rx0| && rx == rx0[k..]
    ensures Orderly(ring0, rx0, out, [], ring, rx)
  {
    SubRefl(ring0 + rx0);
    SubDrop([], rx0, k);
    assert [] + rx0 == rx0;
  }

  lemma OrderlyDispatch(ring0: seq<Packet>, rx0: seq<Packet>, drained: seq<Packet>, ring: seq<Packet>, rx: seq<Packet>,
                        own: seq<Packet>, rest: seq<Packet>, out: seq<Packet>, lwipRunning: bool, max: nat)
    requires ring0 == drained + ring && |drained| == Min(max, |ring0|) && rx0 == rx + (own + rest)
    requires out == Filled(drained, rx, lwipRunning, max)
    ensures Orderly(ring0, rx0, out, Routed(rx, lwipRunning, ToLwip) + own, ring, rest)
  {
    assert (own + rest)[|own|..] == rest;
    DispatchOrder(drained, ring, rx, own + rest, |own|, out, lwipRunning, max);
    LwipOrder(rx, lwipRunning, own, rest);
  }

  // --- One call ---

  method DoRxBurst(hw: HwState, nb: nat, take: nat) returns (out: seq<Packet>)
    requires hw.Valid()
    modifies hw`ring, hw`nicRx
    ensures hw.Valid() && hw.Held() + Copies(out, hw.buf) == old(hw.Held())
    ensures Orderly(old(hw.ring), old(hw.nicRx), out, [], hw.ring, hw.nicRx)
  {
    ghost var ring0, rx0 := hw.ring, hw.nicRx;
    out := hw.RxBurst(nb, take);
    ghost var k := |rx0| - |hw.nicRx|;
    var all := ring0 + rx0;
    assert rx0 == all[|ring0|..] && hw.nicRx == all[|all| - |hw.nicRx|..];
    OrderlyBurst(ring0, rx0, out, hw.ring, hw.nicRx, k);
  }

  method DoReqResp(hw: HwState, mc: bool, template: seq<byte>, packetId: word, q: Query, mac: seq<byte>,
                   respBufSize: nat, polls: seq<Poll>)
    requires hw.Valid() && |mac| == 6 && CK_OFFSET + 1 < |template|
    modifies hw`pool, hw`nicRx, hw`nicTx, hw`txRoom, hw`ring
    ensures hw.Valid() && hw.Held() == old(hw.Held())
    ensures Orderly(old(hw.ring), old(hw.nicRx), [], [], hw.ring, hw.nicRx)
  {
    ghost var ring0, rx0, taken, used := hw.ring, hw.nicRx, 0, 0;
    var r;
    r, taken, used := hw.ReqResp(mc, template, packetId, q, mac, respBufSize, polls);
    if r.status.AllocFail? || r.status.TxFail? {
      OrderlyWait(ring0, rx0, 0, hw.ring, q, false);
    } else {
      OrderlyWait(ring0, rx0, taken, hw.ring, q, mc && hw.ringPresent);
    }
  }

  method DoBatch(hw: HwState, template: seq<byte>, start: word, count: word, q: Query, mac: seq<byte>,
                 accepts: nat -> nat, polls: seq<Poll>) returns (ghost lost: seq<Packet>)
    requires hw.Valid() && |mac| == 6 && CK_OFFSET + 1 < |template|
    modifies hw`pool, hw`nicRx, hw`nicTx, hw`txRoom, hw`ring
    ensures hw.Valid() && hw.Held() + Copies(lost, hw.buf) == old(hw.Held()) && |lost| < BURST
    ensures Orderly(old(hw.ring), old(hw.nicRx), [], [], hw.ring, hw.nicRx)
  {
    ghost var rx0 := hw.nicRx;
    ghost var taken, made, sentIdx, mid;
    var code, sent, received;
    code, sent, received, made, sentIdx, lost, taken, mid := ReqRespBatch(hw, template, start, count, q, mac, accepts, polls);
    OrderlyWait(hw.ring, rx0, taken, hw.ring, q, false);
  }

  method DoDispatch(hw: HwState, max: nat, take: nat, emits: nat -> seq<seq<byte>>, lockFree: bool, lwipTake: nat,
                    lwipEmits: nat -> seq<seq<byte>>, timers: seq<seq<byte>>) returns (out: seq<Packet>, ghost fed: seq<Packet>)
    requires hw.Valid()
    modifies hw`pool, hw`nicRx, hw`nicTx, hw`txRoom, hw`ring, hw`lwipIn
    ensures hw.Valid() && hw.Held() + Copies(out, hw.buf) == old(hw.Held())
    ensures Orderly(old(hw.ring), old(hw.nicRx), out, fed, hw.ring, hw.nicRx)
    ensures hw.lwipIn == old(hw.lwipIn) + fed
  {
    ghost var ring0, rx0 := hw.ring, hw.nicRx;
    ghost var drained, rx, own;
    var n;
    out, n, drained, rx, own := hw.DispatchPoll(max, take, emits, lockFree, lwipTake, lwipEmits, timers);
    fed := Routed(rx, hw.lwipRunning, ToLwip) + own;
    Assoc(old(hw.lwipIn), Routed(rx, hw.lwipRunning, ToLwip), own);
    OrderlyDispatch(ring0, rx0, drained, hw.ring, rx, own, hw.nicRx, out, hw.lwipRunning, max);
  }

  method DoCleanup(hw: HwState)
    requires hw.Valid()
    modifies hw`pool, hw`ring, hw`ringPresent
    ensures hw.Valid() && hw.Held() == old(hw.Held())
    ensures Orderly(old(hw.ring), old(hw.nicRx), [], [], hw.ring, hw.nicRx)
  {
    ghost var ring0 := hw.ring;
    hw.CleanupSpillRing();
    SubRefl(hw.nicRx);
    SubOfNothing(ring0);
    SubConcat([], ring0, hw.nicRx, hw.nicRx);
    OrderlyWithoutHandOver(ring0, hw.nicRx, [], hw.nicRx);
  }

  /** The NIC is done with the oldest frames it was given. */
  method DoSendsComplete(hw: HwState, n: nat)
    requires hw.Valid()
    modifies hw`pool, hw`nicTx, hw`txRoom
    ensures hw.Valid() && hw.Held() == old(hw.Held())
    ensures hw.nicTx == old(hw.nicTx)[Min(n, |old(hw.nicTx)|)..]
  {
    var k := Min(n, |hw.nicTx|);
    for i := 0 to k
      invariant hw.Held() == old(hw.Held()) && hw.nicTx == old(hw.nicTx)[i..]
    {
      var p := hw.nicTx[0];
      assert hw.nicTx == [p] + hw.nicTx[1..];
      hw.nicTx, hw.txRoom := hw.nicTx[1..], hw.txRoom + 1;
      hw.Free(p);
    }
  }

  /** One call: `out` is what its caller gets, `lost` what a batch strands, `fed` what lwIP gets. */
  method Do(hw: HwState, c: Call, mac: seq<byte>) returns (out: seq<Packet>, ghost lost: seq<Packet>, ghost fed: seq<Packet>)
    requires hw.Valid() && |mac| == 6 && HasHeader(c)
    modifies hw
    ensures hw.Valid() && hw.Held() + Copies(out, hw.buf) + Copies(lost, hw.buf) == old(hw.Held())
    ensures if c.CallBatch? then |lost| < BURST else lost == []
    ensures Orderly(old(hw.ring), old(hw.nicRx), out, fed, hw.ring, hw.nicRx)
    ensures hw.lwipIn == old(hw.lwipIn) + fed
    ensures c.SetLwip? ==> hw.lwipRunning == c.running && hw.externalRx == c.externalRx
    ensures !c.SetLwip? ==> hw.lwipRunning == old(hw.lwipRunning) && hw.externalRx == old(hw.externalRx)
    ensures c.SendsComplete? ==> hw.nicTx == old(hw.nicTx)[Min(c.n, |old(hw.nicTx)|)..]
  {
    out, lost, fed := [], [], [];
    match c
    case CallRxBurst(nb, take) =>
      out := DoRxBurst(hw, nb, take);
    case CallReqResp(mc, template, packetId, q, respBufSize, polls) =>
      DoReqResp(hw, mc, template, packetId, q, mac, respBufSize, polls);
    case CallBatch(template, start, count, q, accepts, polls) =>
      lost := DoBatch(hw, template, start, count, q, mac, accepts, polls);
    case CallDispatch(max, take, emits, lockFree, lwipTake, lwipEmits, timers) =>
      out, fed := DoDispatch(hw, max, take, emits, lockFree, lwipTake, lwipEmits, timers);
    case CallCleanup =>
      DoCleanup(hw);
    case SendsComplete(n) =>
      DoSendsComplete(hw, n);
      OrderlyBurst(hw.ring, hw.nicRx, [], hw.ring, hw.nicRx, 0);
    case SetLwip(running, externalRx) =>
      hw.lwipRunning, hw.externalRx := running, externalRx;
      OrderlyBurst(hw.ring, hw.nicRx, [], hw.ring, hw.nicRx, 0);
  }

  // --- Runs ---

  lemma OrderlyAfter(ring0: seq<Packet>, rx0: seq<Packet>, handed: seq<Packet>, given: seq<Packet>, ring1: seq<Packet>,
                     rx1: seq<Packet>, out: seq<Packet>, fed: seq<Packet>, ring: seq<Packet>, rx: seq<Packet>)
    requires Orderly(ring0, rx0, handed, given, ring1, rx1) && Orderly(ring1, rx1, out, fed, ring, rx)
    ensures Orderly(ring0, rx0, handed + out, given + fed, ring, rx)
  {
    SubAfter(handed, ring1 + rx1, ring0 + rx0, out, ring + rx);
    SubAfter(given, rx1, rx0, fed, rx);
  }

  lemma OrderlyArrival(ring0: seq<Packet>, rx0: seq<Packet>, handed: seq<Packet>, given: seq<Packet>,
                       ring: seq<Packet>, rx: seq<Packet>, p: Packet)
    requires Orderly(ring0, rx0, handed, given, ring, rx)
    ensures Orderly(ring0, rx0 + [p], handed, given, ring, rx + [p])
  {
    SubSnoc(handed + (ring + rx), ring0 + rx0, p);
    SubSnoc(given + rx, rx0, p);
    assert handed + (ring + rx) + [p] == handed + (ring + (rx + [p])) && ring0 + rx0 + [p] == ring0 + (rx0 + [p]);
    assert given + rx + [p] == given + (rx + [p]);
  }

  datatype Event =
    | Made(call: Call)
    | Arrives(data: seq<byte>, segs: nat)   // a frame that needs so many buffers
    | GivenBack(k: nat)                     // a caller frees the k-th frame that the callers have

  function Batches(events: seq<Event>): nat
  {
    if events == [] then 0
    else
      var e := events[|events| - 1];
      Batches(events[..|events| - 1]) + (if e.Made? && e.call.CallBatch? then 1 else 0)
  }

  lemma {:induction false} NoBatches(events: seq<Event>)
    requires forall e | e in events && e.Made? :: !e.call.CallBatch?
    ensures Batches(events) == 0
    decreases |events|
  {
    if events != [] {
      assert events[|events| - 1] in events;
      NoBatches(events[..|events| - 1]);
    }
  }

  lemma BatchesOneMore(events: seq<Event>, i: nat, j: nat)
    requires i < |events| && j == i + 1
    ensures Batches(events[..j]) == Batches(events[..i]) + (if events[i].Made? && events[i].call.CallBatch? then 1 else 0)
  {
    assert events[..j][..i] == events[..i];
  }

  /** The frames are, in their order, what came in these events; some may have been dropped. */
  ghost predicate CameIn(arrived: seq<Packet>, events: seq<Event>)
  {
    if events == [] then arrived == []
    else
      var before, e := events[..|events| - 1], events[|events| - 1];
      || CameIn(arrived, before)
      || (e.Arrives? && arrived != [] && IsFrame(arrived[|arrived| - 1], e) && CameIn(arrived[..|arrived| - 1], before))
  }

  predicate IsFrame(p: Packet, e: Event)
    requires e.Arrives?
  {
    p.data == e.data && |p.segs| == e.segs
  }

  lemma CameOneMore(arrived: seq<Packet>, came: seq<Packet>, events: seq<Event>, i: nat, j: nat)
    requires i < |events| && j == i + 1 && CameIn(arrived, events[..i])
    requires came == [] || (|came| == 1 && events[i].Arrives? && IsFrame(came[0], events[i]))
    ensures CameIn(arrived + came, events[..j])
  {
    assert events[..j][..i] == events[..i];
    if came == [] {
      assert arrived + came == arrived;
    } else {
      assert (arrived + came)[..|arrived + came| - 1] == arrived;
    }
  }

  /** A frame arrives: the NIC puts it into the oldest free buffers, or drops it if there are too few. */
  method DoArrive(hw: HwState, data: seq<byte>, segs: nat) returns (came: seq<Packet>)
    requires hw.Valid()
    modifies hw`pool, hw`nicRx
    ensures hw.Valid() && hw.Held() == old(hw.Held())
    ensures hw.nicRx == old(hw.nicRx) + came
    ensures if segs == 0 || segs > |old(hw.pool)| then came == [] && hw.pool == old(hw.pool)
            else came == [Packet(old(hw.pool)[..segs], data)] && hw.pool == old(hw.pool)[segs..]
  {
    came := [];
    if segs != 0 && segs <= |hw.pool| {
      var p := Packet(hw.pool[..segs], data);
      CountConcat(hw.pool[..segs], hw.pool[segs..], hw.buf);
      assert hw.pool == hw.pool[..segs] + hw.pool[segs..];
      CopiesSnoc(hw.nicRx, p, hw.buf);
      came, hw.pool, hw.nicRx := [p], hw.pool[segs..], hw.nicRx + [p];
    }
  }

  /** A caller gives back one of the frames that were handed over. */
  method DoGiveBack(hw: HwState, kept: seq<Packet>, k: nat) returns (kept': seq<Packet>)
    requires hw.Valid()
    modifies hw`pool
    ensures hw.Valid() && hw.Held() + Copies(kept', hw.buf) == old(hw.Held()) + Copies(kept, hw.buf)
    ensures kept' == if k < |kept| then kept[..k] + kept[k + 1..] else kept
  {
    kept' := kept;
    if k < |kept| {
      CopiesAround(kept, k, hw.buf);
      CopiesConcat(kept[..k], kept[k + 1..], hw.buf);
      kept' := kept[..k] + kept[k + 1..];
      hw.Free(kept[k]);
    }
  }

  // --- The history of a run ---

  /** Since the state `ring0`, `rx0`, `lwip0`, with the one buffer in `held` places: `arrived` came in,
      `handed` went to callers, who still have `kept`; `given` went to lwIP, `stranded` nowhere. */
  ghost predicate History(hw: HwState, ring0: seq<Packet>, rx0: seq<Packet>, lwip0: seq<Packet>, held: nat,
                          arrived: seq<Packet>, handed: seq<Packet>, kept: seq<Packet>,
                          given: seq<Packet>, stranded: seq<Packet>)
    reads hw
  {
    && hw.Valid() && hw.Held() + Copies(kept, hw.buf) + Copies(stranded, hw.buf) == held
    && Orderly(ring0, rx0 + arrived, handed, given, hw.ring, hw.nicRx) && hw.lwipIn == lwip0 + given
  }

  lemma HistoryBegins(hw: HwState)
    requires hw.Valid()
    ensures History(hw, hw.ring, hw.nicRx, hw.lwipIn, hw.Held(), [], [], [], [], [])
  {
    assert hw.nicRx + [] == hw.nicRx && hw.lwipIn + [] == hw.lwipIn;
    OrderlyBurst(hw.ring, hw.nicRx, [], hw.ring, hw.nicRx, 0);
  }

  method Make(hw: HwState, c: Call, mac: seq<byte>, kept: seq<Packet>,
              ghost ring0: seq<Packet>, ghost rx0: seq<Packet>, ghost lwip0: seq<Packet>, ghost held: nat,
              ghost arrived: seq<Packet>, ghost handed: seq<Packet>, ghost given: seq<Packet>, ghost stranded: seq<Packet>)
      returns (out: seq<Packet>, ghost lost: seq<Packet>, ghost fed: seq<Packet>)
    requires |mac| == 6 && HasHeader(c) && History(hw, ring0, rx0, lwip0, held, arrived, handed, kept, given, stranded)
    modifies hw
    ensures History(hw, ring0, rx0, lwip0, held, arrived, handed + out, kept + out, given + fed, stranded + lost)
    ensures if c.CallBatch? then |lost| < BURST else lost == []
  {
    hide Orderly, Copies, HwState.Held;
    ghost var ring1, rx1 := hw.ring, hw.nicRx;
    out, lost, fed := Do(hw, c, mac);
    OrderlyAfter(ring0, rx0 + arrived, handed, given, ring1, rx1, out, fed, hw.ring, hw.nicRx);
    CopiesConcat(kept, out, hw.buf);
    CopiesConcat(stranded, lost, hw.buf);
    Assoc(lwip0, given, fed);
  }

  method Receive(hw: HwState, data: seq<byte>, segs: nat, ghost kept: seq<Packet>,
                 ghost ring0: seq<Packet>, ghost rx0: seq<Packet>, ghost lwip0: seq<Packet>, ghost held: nat,
                 ghost arrived: seq<Packet>, ghost handed: seq<Packet>, ghost given: seq<Packet>, ghost stranded: seq<Packet>)
      returns (ghost came: seq<Packet>)
    requires History(hw, ring0, rx0, lwip0, held, arrived, handed, kept, given, stranded)
    modifies hw`pool, hw`nicRx
    ensures History(hw, ring0, rx0, lwip0, held, arrived + came, handed, kept, given, stranded)
    ensures came == if segs == 0 || segs > |old(hw.pool)| then [] else [Packet(old(hw.pool)[..segs], data)]
  {
    hide Orderly, Copies, HwState.Held;
    ghost var rx1 := hw.nicRx;
    var p := DoArrive(hw, data, segs);
    came := p;
    if p == [] {
      assert rx1 + [] == rx1 && arrived + [] == arrived;
    } else {
      OrderlyArrival(ring0, rx0 + arrived, handed, given, hw.ring, rx1, p[0]);
      assert rx0 + arrived + [p[0]] == rx0 + (arrived + [p[0]]);
    }
  }

  method Return(hw: HwState, kept: seq<Packet>, k: nat,
                ghost ring0: seq<Packet>, ghost rx0: seq<Packet>, ghost lwip0: seq<Packet>, ghost held: nat,
                ghost arrived: seq<Packet>, ghost handed: seq<Packet>, ghost given: seq<Packet>, ghost stranded: seq<Packet>)
      returns (kept': seq<Packet>)
    requires History(hw, ring0, rx0, lwip0, held, arrived, handed, kept, given, stranded)
    modifies hw`pool
    ensures History(hw, ring0, rx0, lwip0, held, arrived, handed, kept', given, stranded)
    ensures kept' == if k < |kept| then kept[..k] + kept[k + 1..] else kept
  {
    hide Orderly, Copies, HwState.Held;
    kept' := DoGiveBack(hw, kept, k);
  }

  /** Every run.  The frames `handed` to the callers, then the spill ring, then what the NIC still
      has, are what was there and what `arrived`, in that order with some left out, and so are lwIP's.
      However often the buffers go round, each is in as many places as before, among them the frames
      the callers `kept`, but for the fewer than 32 frames that a batch may strand. */
  method Run(hw: HwState, events: seq<Event>, mac: seq<byte>)
      returns (handed: seq<Packet>, kept: seq<Packet>, ghost arrived: seq<Packet>, ghost stranded: seq<Packet>, ghost given: seq<Packet>)
    requires hw.Valid() && |mac| == 6
    requires forall e | e in events && e.Made? && (e.call.CallReqResp? || e.call.CallBatch?) :: |e.call.template| >= 26
    modifies hw
    ensures hw.Valid() && hw.Held() + Copies(kept, hw.buf) + Copies(stranded, hw.buf) == old(hw.Held())
    ensures CameIn(arrived, events) && |stranded| <= 31 * Batches(events)
    ensures (forall e | e in events && e.Made? :: !e.call.CallBatch?) ==> stranded == []
    ensures Sub(handed + (hw.ring + hw.nicRx), old(hw.ring) + (old(hw.nicRx) + arrived))
    ensures Sub(given + hw.nicRx, old(hw.nicRx) + arrived) && hw.lwipIn == old(hw.lwipIn) + given
  {
    handed, kept, arrived, stranded, given := [], [], [], [], [];
    ghost var ring0, rx0, lwip0, held := hw.ring, hw.nicRx, hw.lwipIn, hw.Held();
    HistoryBegins(hw);
    var i := 0;
    while i < |events|
      invariant i <= |events| && CameIn(arrived, events[..i]) && |stranded| <= (BURST - 1) * Batches(events[..i])
      invariant History(hw, ring0, rx0, lwip0, held, arrived, handed, kept, given, stranded)
    {
      hide History, Batches, CameIn, HwState.Held;
      ghost var lost, fed, came := [], [], [];
      var out, j := [], i + 1;
      BatchesOneMore(events, i, j);
      assert arrived + [] == arrived;
      match events[i] {
        case Made(c) =>
          out, lost, fed := Make(hw, c, mac, kept, ring0, rx0, lwip0, held, arrived, handed, given, stranded);
          handed, kept, given, stranded := handed + out, kept + out, given + fed, stranded + lost;
        case Arrives(data, segs) =>
          came := Receive(hw, data, segs, kept, ring0, rx0, lwip0, held, arrived, handed, given, stranded);
        case GivenBack(k) =>
          kept := Return(hw, kept, k, ring0, rx0, lwip0, held, arrived, handed, given, stranded);
      }
      CameOneMore(arrived, came, events, i, j);
      arrived, i := arrived + came, j;
    }
    assert events[..i] == events;
    if forall e | e in events && e.Made? :: !e.call.CallBatch? {
      NoBatches(events);
    }
  }
}
