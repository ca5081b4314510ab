/** The receive and request/response paths of hwio.c over DPDK: who owns which packet buffer, and
    in which order frames reach their consumers.  The NIC is modelled by the frames it will hand
    over (`nicRx`, in arrival order, of which every burst takes as many as the caller's schedule
    says) and by the descriptors it has left for sending. */
module HwIo {
  import opened Checksum
  import opened Packets
  import opened HwWait

  datatype Option<T> = None | Some(value: T)

  /** `Polling`: the schedule ended while the call was still waiting. */
  datatype Status = Success | Timeout | AllocFail | TxFail | Polling

  datatype Result = Result(status: Status, srcIp: seq<byte>, srcPort: word, payload: seq<byte>)

  const DISPATCH_BURST := 64

  class HwState {
    var pool: seq<nat>          // free packet buffers, a FIFO ring
    var nicRx: seq<Packet>      // frames the NIC hands over, oldest first
    var nicTx: seq<Packet>      // frames handed to the NIC
    var txRoom: nat             // free send descriptors
    var ringPresent: bool       // g_spill_ring was created
    var ring: seq<Packet>       // its contents, oldest first
    var lwipRunning: bool       // lwIP is started
    var externalRx: bool        // lwIP leaves the NIC to the dispatcher
    var lwipIn: seq<Packet>     // frames offered to lwIP so far
    const room: nat             // data room of a packet buffer

    ghost predicate Valid()
      reads this
    {
      |ring| <= RING_USABLE && (!ringPresent ==> ring == [])
    }

    /** One packet buffer, any one: what is proved about it holds of every buffer. */
    ghost const buf: nat

    /** How many places hold that buffer among the pool, the NIC's two sides and the spill ring. */
    ghost function Held(): nat
      reads this
    {
      Count(pool, buf) + Copies(nicRx, buf) + Copies(nicTx, buf) + Copies(ring, buf)
    }

    /** What sending takes, and the frames sent. */
    ghost function Means(): Sender
      reads this
    {
      Sender(|pool|, txRoom, nicTx)
    }

    // --- DPDK's primitives, as hw_ring_ops.h defines them ---

    method Alloc() returns (m: Option<nat>)
      modifies `pool
      ensures old(pool) == [] ==> m == None && pool == []
      ensures old(pool) != [] ==> m == Some(old(pool)[0]) && pool == old(pool)[1..]
      ensures Held() + (if m == Some(buf) then 1 else 0) == old(Held())
    {
      if pool == [] {
        return None;
      }
      m, pool := Some(pool[0]), pool[1..];
    }

    /** Every segment of the chain goes back to the pool. */
    method Free(p: Packet)
      modifies `pool
      ensures pool == old(pool) + p.segs && Held() == old(Held()) + Count(p.segs, buf)
    {
      CountConcat(pool, p.segs, buf);
      pool := pool + p.segs;
    }

    method TxBurst(ps: seq<Packet>) returns (n: nat)
      modifies `nicTx, `txRoom
      ensures n == Min(|ps|, old(txRoom)) && txRoom == old(txRoom) - n
      ensures nicTx == old(nicTx) + ps[..n] && Held() == old(Held()) + Copies(ps[..n], buf)
    {
      n := Min(|ps|, txRoom);
      CopiesConcat(nicTx, ps[..n], buf);
      nicTx, txRoom := nicTx + ps[..n], txRoom - n;
    }

    method NicBurst(max: nat, take: nat) returns (rx: seq<Packet>)
      modifies `nicRx
      ensures |rx| == Min(Min(take, max), |old(nicRx)|)
      ensures old(nicRx) == rx + nicRx && Held() + Copies(rx, buf) == old(Held())
    {
      var n := Min(Min(take, max), |nicRx|);
      CopiesConcat(nicRx[..n], nicRx[n..], buf);
      assert nicRx == nicRx[..n] + nicRx[n..];
      rx, nicRx := nicRx[..n], nicRx[n..];
    }

    /** The common course of every sender: a buffer from the pool, room for the frame in it, a
        send descriptor; a buffer that cannot be sent goes back to the pool. */
    method SendFrame(data: seq<byte>) returns (s: Status)
      modifies `pool, `nicTx, `txRoom
      ensures s == if old(pool) == [] || |data| > room then AllocFail else if old(txRoom) == 0 then TxFail else Success
      ensures s == Success ==>
          && nicTx == old(nicTx) + [Packet([old(pool)[0]], data)]
          && txRoom == old(txRoom) - 1 && pool == old(pool)[1..]
      ensures s != Success ==> nicTx == old(nicTx) && txRoom == old(txRoom) && |pool| == |old(pool)|
      ensures Held() == old(Held()) && Sends([data], room, old(Means()), Means())
    {
      hide Sends, Copies;
      ghost var s0 := Means();
      var m := Alloc();
      if m.None? {
        NotSent(data, room, s0, Means());
        return AllocFail;
      }
      var p := Packet([m.value], data);
      CopiesOne(p, buf);
      assert Count(p.segs, buf) == if m == Some(buf) then 1 else 0 by {
        assert p.segs[1..] == [];
      }
      if |data| > room {
        Free(p);
        NotSent(data, room, s0, Means());
        return AllocFail;
      }
      var n := TxBurst([p]);
      if n == 0 {
        assert nicTx == old(nicTx);
        Free(p);
        NotSent(data, room, s0, Means());
        return TxFail;
      }
      assert [p][..1] == [p];
      OneSent(p, room, s0, Means());
      return Success;
    }

    // --- send_arp_reply ---

    /** The reply costs nothing that is not given back, and is sent whenever there is a buffer,
        room in it and a send descriptor. */
    method SendArpReply(rx: Packet, mac: seq<byte>)
      requires |mac| == 6 && IsArp(rx.data)
      modifies `pool, `nicTx, `txRoom
      ensures Held() == old(Held()) && txRoom <= old(txRoom)
      ensures old(nicTx) <= nicTx && Answers(nicTx[|old(nicTx)|..], [rx], mac)
      ensures Sends(ArpAnswers([rx], mac), room, old(Means()), Means())
      ensures IsArpRequest(rx.data) && old(pool) != [] && room >= ARP_FRAME_LEN && old(txRoom) > 0
         ==> nicTx == old(nicTx) + [Packet([old(pool)[0]], ArpReply(rx.data, mac))]
    {
      hide Datas;
      assert [rx][..0] == [];
      ghost var s0 := Means();
      SendsNothing(room, s0, s0);
      if |rx.data| < ARP_FRAME_LEN || rx.data[ETH_HDR_LEN + 6] != 0 || rx.data[ETH_HDR_LEN + 7] != 1 {
        return;
      }
      assert ArpAnswers([rx], mac) == [ArpReply(rx.data, mac)];
      var s := SendFrame(ArpReply(rx.data, mac));
      if s == Success {
        var sent := nicTx[|old(nicTx)|..];
        assert sent == [nicTx[|old(nicTx)|]] && sent[..0] == [];
      }
    }

    // --- The scan of one burst ---

    /** A frame that is not awaited: spilled if the call does that and there is room, else freed. */
    method PassOn(p: Packet, spilling: bool)
      requires Valid() && (spilling ==> ringPresent)
      modifies `pool, `ring
      ensures Valid() && ring == if spilling then Spill(old(ring), [p]) else old(ring)
      ensures Held() == old(Held()) + Count(p.segs, buf) && |pool| >= |old(pool)|
    {
      if spilling && |ring| < RING_USABLE {
        CopiesSnoc(ring, p, buf);
        ring := ring + [p];
      } else {
        Free(p);
      }
    }

    /** The rest of a burst behind the awaited frame. */
    method PassOnAll(ps: seq<Packet>, spilling: bool)
      requires Valid() && (spilling ==> ringPresent)
      modifies `pool, `ring
      ensures Valid() && ring == if spilling then Spill(old(ring), ps) else old(ring)
      ensures Held() == old(Held()) + Copies(ps, buf) && |pool| >= |old(pool)|
    {
      for j := 0 to |ps|
        invariant Valid() && ring == if spilling then Spill(old(ring), ps[..j]) else old(ring)
        invariant Held() == old(Held()) + Copies(ps[..j], buf) && |pool| >= |old(pool)|
      {
        OneMore(ps, j, buf);
        SpillConcat(old(ring), ps[..j], [ps[j]]);
        PassOn(ps[j], spilling);
      }
      assert ps[..|ps|] == ps;
    }

    /** A frame before the awaited one: ARP is answered, the others are passed on. */
    method NotAwaited(p: Packet, mac: seq<byte>, spilling: bool)
      requires Valid() && |mac| == 6 && (spilling ==> ringPresent)
      modifies `pool, `nicTx, `txRoom, `ring
      ensures Valid() && Held() == old(Held()) + Count(p.segs, buf)
      ensures txRoom <= old(txRoom) && Sends(ArpAnswers([p], mac), room, old(Means()), Means())
      ensures if IsArp(p.data) then ring == old(ring) && old(nicTx) <= nicTx && Answers(nicTx[|old(nicTx)|..], [p], mac)
              else nicTx == old(nicTx) && ring == if spilling then Spill(old(ring), [p]) else old(ring)
    {
      hide Plenty, Datas;
      assert [p][..0] == [];
      ghost var s0 := Means();
      if IsArp(p.data) {
        SendArpReply(p, mac);
        Free(p);
      } else {
        PassOn(p, spilling);
        SendsNothing(room, s0, Means());
      }
    }

    /** One burst of a polling loop, up to the first match. */
    method ScanBurst(rx: seq<Packet>, q: Query, mac: seq<byte>, spilling: bool) returns (k: nat)
      requires Valid() && |mac| == 6 && (spilling ==> ringPresent)
      modifies `pool, `nicTx, `txRoom, `ring
      ensures Valid() && k == FirstMatch(rx, q) && Held() == old(Held()) + Copies(rx[..k], buf)
      ensures txRoom <= old(txRoom) && Sends(ArpAnswers(rx[..k], mac), room, old(Means()), Means())
      ensures Scanned(old(ring), old(nicTx), ring, nicTx, rx[..k], mac, spilling)
    {
      hide Sends, ArpAnswers, Scanned, FirstMatch, Answers;
      ScanBegins(ring, nicTx, rx, q, mac, spilling);
      k := 0;
      ghost var s0 := Means();
      NoArpAnswers(rx, mac, room, s0);
      while k < |rx|
        invariant k <= |rx|
        invariant Valid() && Held() == old(Held()) + Copies(rx[..k], buf)
        invariant FirstMatch(rx[..k], q) == k && txRoom <= old(txRoom)
        invariant Scanned(old(ring), old(nicTx), ring, nicTx, rx[..k], mac, spilling)
        invariant Sends(ArpAnswers(rx[..k], mac), room, s0, Means())
      {
        ScanOne(rx, k, q);
        if Matches(rx[k].data, q) {
          return;
        }
        ghost var ring1, tx1, s1 := ring, nicTx, Means();
        OneMore(rx, k, buf);
        NotAwaited(rx[k], mac, spilling);
        ScannedOne(old(ring), old(nicTx), ring1, tx1, ring, nicTx, rx[..k], rx[k], mac, spilling);
        ArpAnswersSnoc(rx[..k], rx[k], mac);
        SendsMore(ArpAnswers(rx[..k], mac), ArpAnswers([rx[k]], mac), room, s0, s1, Means());
        k := k + 1;
      }
      assert rx[..k] == rx;
    }

    // --- hw_reqresp_once and hw_reqresp_once_mc ---

    /** Steps 3 and 4: a copy of the template with the packet id patched in. */
    method BuildRequest(template: seq<byte>, packetId: word) returns (data: seq<byte>)
      requires CK_OFFSET + 1 < |template|
      ensures data == PatchedPacket(template, packetId)
    {
      var buffer := new byte[|template|](i requires 0 <= i < |template| => template[i]);
      assert buffer[..] == template;
      PatchPacketId(buffer, packetId);
      data := buffer[..];
    }

    /** What a wait does with one burst: the first match is the reply. */
    method TakeBurst(rx: seq<Packet>, q: Query, mac: seq<byte>, spilling: bool) returns (k: nat)
      requires Valid() && |mac| == 6 && (spilling ==> ringPresent)
      modifies `pool, `nicTx, `txRoom, `ring
      ensures Valid() && k == FirstMatch(rx, q) && Held() == old(Held()) + Copies(rx, buf)
      ensures Waited(old(ring), old(nicTx), ring, nicTx, rx, q, mac, spilling)
      ensures Sends(ArpAnswers(rx[..k], mac), room, old(Means()), Means())
    {
      hide ArpAnswers, Plenty, Datas, Answers;
      k := ScanBurst(rx, q, mac, spilling);
      ghost var ring1 := ring;
      if k < |rx| {
        CopiesAround(rx, k, buf);
        Free(rx[k]);
        PassOnAll(rx[k + 1..], spilling);
      } else {
        assert rx[..k] == rx;
      }
      WaitedBurst(old(ring), old(nicTx), ring1, ring, nicTx, rx, q, mac, spilling);
    }

    /** A wait that began in the state `rx0`, `ring0`, `s0` and took `taken` frames from the NIC:
        the first match among them, if there is one, is the reply, and the ARP requests before it are
        answered. */
    ghost predicate Underway(rx0: seq<Packet>, ring0: seq<Packet>, s0: Sender, taken: nat, reply: Option<Packet>,
                             q: Query, mac: seq<byte>, spilling: bool)
      reads this
      requires |mac| == 6 && |ring0| <= RING_USABLE
    {
      && Valid() && taken <= |rx0| && nicRx == rx0[taken..]
      && Waited(ring0, s0.out, ring, nicTx, rx0[..taken], q, mac, spilling)
      && Sends(ArpAnswers(rx0[..FirstMatch(rx0[..taken], q)], mac), room, s0, Means())
      && (if reply.None? then FirstMatch(rx0[..taken], q) == taken
          else FirstMatch(rx0[..taken], q) < taken && reply == Some(rx0[FirstMatch(rx0[..taken], q)]))
    }

    /** One turn of the polling loop; `n` frames were there. */
    method Turn(take: nat, q: Query, mac: seq<byte>, spilling: bool,
                ghost rx0: seq<Packet>, ghost ring0: seq<Packet>, ghost s0: Sender, ghost t: nat)
        returns (n: nat, reply: Option<Packet>, ghost end: nat)
      requires |mac| == 6 && |ring0| <= RING_USABLE && (spilling ==> ringPresent)
      requires Underway(rx0, ring0, s0, t, None, q, mac, spilling)
      modifies `pool, `nicRx, `nicTx, `txRoom, `ring
      ensures n == Min(Min(take, BURST), |rx0| - t) && end == t + n && Underway(rx0, ring0, s0, end, reply, q, mac, spilling)
      ensures Held() == old(Held())
    {
      hide Waited, Copies, HwState.Held, FirstMatch, Sends, ArpAnswers;
      ghost var s1 := Means();
      var rx := NicBurst(BURST, take);
      n := |rx|;
      end := t + n;
      TakenMore(rx0, t, rx, nicRx, end);
      var k := TakeBurst(rx, q, mac, spilling);
      WaitedMore(ring0, s0.out, old(ring), old(nicTx), ring, nicTx, rx0, t, end, q, mac, spilling);
      AnsweredMore(rx0, t, end, q, mac, room, s0, s1, Means());
      reply := if k < n then Some(rx[k]) else None;
    }

    /** The polling loop.  The deadline is looked at after every non-empty burst and after every
        64th empty one.  `used` counts the bursts. */
    method Await(q: Query, mac: seq<byte>, polls: seq<Poll>, spilling: bool)
        returns (reply: Option<Packet>, expired: bool, ghost taken: nat, ghost used: nat)
      requires Valid() && |mac| == 6 && (spilling ==> ringPresent)
      modifies `pool, `nicRx, `nicTx, `txRoom, `ring
      ensures Underway(old(nicRx), old(ring), old(Means()), taken, reply, q, mac, spilling)
      ensures WaitSoFar(old(nicRx), q, polls, used, taken, reply.Some?, expired)
      ensures reply.Some? || expired || used == |polls|
      ensures Held() == old(Held())
    {
      hide Waited, Held, FirstMatch, WaitSoFar, Empties, Sends, ArpAnswers;
      var emptyPolls, p := 0, 0;
      taken, reply, expired, used := 0, None, false, 0;
      ghost var rx0, ring0, s0 := nicRx, ring, Means();
      WaitedNothing(ring, nicTx, rx0[..0], q, mac, spilling);
      NoArpAnswers(rx0, mac, room, s0);
      NoWaitYet(rx0, q, polls);
      while p < |polls| && reply.None? && !expired
        invariant p <= |polls| && Underway(rx0, ring0, s0, taken, reply, q, mac, spilling)
        invariant WaitSoFar(rx0, q, polls, p, taken, reply.Some?, expired)
        invariant emptyPolls == Empties(|rx0|, polls, p) % 64
        invariant Held() == old(Held())
      {
        var n;
        ghost var t, e := taken, emptyPolls;
        n, reply, taken := Turn(polls[p].take, q, mac, spilling, rx0, ring0, s0, taken);
        emptyPolls := if n == 0 then emptyPolls + 1 else emptyPolls;
        if n != 0 || emptyPolls >= 64 {
          emptyPolls := if n == 0 then 0 else emptyPolls;
          expired := reply.None? && polls[p].expired;
        }
        FirstMatchOfPrefix(rx0, q, taken);
        WaitMore(rx0, q, polls, p, t, n, e, reply.Some?, expired);
        p := p + 1;
      }
      used := p;
    }

    /** The result record for a matching frame. */
    static function ReplyResult(d: seq<byte>, respBufSize: nat): Result
      requires |d| >= PAYLOAD_OFFSET
    {
      Result(Success, d[ETH_HDR_LEN + 12..ETH_HDR_LEN + 16], Word(d[ETH_HDR_LEN + 21], d[ETH_HDR_LEN + 20]),
             d[PAYLOAD_OFFSET..PAYLOAD_OFFSET + Min(|d| - PAYLOAD_OFFSET, respBufSize)])
    }

    /** What the caller gets of a UDP datagram: the address and port it came from, and as much of its
        payload as fits. */
    static lemma ReplyIs(d: seq<byte>, to: seq<byte>, from: seq<byte>, ip: seq<byte>, udp: seq<byte>, payload: seq<byte>,
                         src: seq<byte>, dst: seq<byte>, srcPort: word, dstPort: word, respBufSize: nat)
      requires IsIPv4(ip, 17, src, dst) && IsUdp(udp, srcPort, dstPort)
      requires IsFrame(d, to, from, 8, 0, ip + udp + payload)
      ensures ReplyResult(d, respBufSize)
           == Result(Success, src, srcPort, if |payload| <= respBufSize then payload else payload[..respBufSize])
    {
      MatchesUdp(d, to, from, ip, udp, payload, 17, src, dst, srcPort, dstPort, Query(src, dstPort));
      assert d[42..42 + Min(|d| - 42, respBufSize)] == payload[..Min(|payload|, respBufSize)];
    }

    /** A request and the wait for its reply.  `multiChannel` tells hw_reqresp_once_mc, which spills
        the frames of other channels, from hw_reqresp_once, which frees them.  `taken` counts the
        frames taken from the NIC. */
    method ReqResp(multiChannel: bool, template: seq<byte>, packetId: word, q: Query, mac: seq<byte>,
                   respBufSize: nat, polls: seq<Poll>) returns (result: Result, ghost taken: nat, ghost used: nat)
      requires Valid() && |mac| == 6 && CK_OFFSET + 1 < |template|
      modifies `pool, `nicRx, `nicTx, `txRoom, `ring
      ensures Valid() && Held() == old(Held())
      ensures result.status.AllocFail? <==> old(pool) == [] || |template| > room
      ensures !result.status.Success? ==> result == Result(result.status, [], 0, [])
      ensures result.status.TxFail? <==> old(pool) != [] && |template| <= room && old(txRoom) == 0
      ensures result.status.AllocFail? || result.status.TxFail? ==>
          taken == 0 && nicRx == old(nicRx) && nicTx == old(nicTx) && ring == old(ring)
      ensures !result.status.AllocFail? && !result.status.TxFail? ==>
          && taken <= |old(nicRx)| && nicRx == old(nicRx)[taken..]
          && Waited(old(ring), old(nicTx) + [Packet([old(pool)[0]], PatchedPacket(template, packetId))],
                    ring, nicTx, old(nicRx)[..taken], q, mac, multiChannel && ringPresent)
          && Sends(ArpAnswers(old(nicRx)[..FirstMatch(old(nicRx)[..taken], q)], mac), room,
                   Sender(|old(pool)| - 1, old(txRoom) - 1, old(nicTx) + [Packet([old(pool)[0]], PatchedPacket(template, packetId))]),
                   Means())
          && (if result.status.Success?
              then FirstMatch(old(nicRx)[..taken], q) < taken
                   && result == ReplyResult(old(nicRx)[FirstMatch(old(nicRx)[..taken], q)].data, respBufSize)
              else FirstMatch(old(nicRx)[..taken], q) == taken)
          && used <= |polls| && taken == TakenBy(|old(nicRx)|, polls, used)
          && (result.status.Success? <==> ReplyInTime(old(nicRx), q, polls))
          && (result.status.Timeout? <==> TooLate(old(nicRx), q, polls))
          && (result.status.Polling? ==> used == |polls|)
    {
      hide Sends, ArpAnswers, Waited, ReplyInTime, TooLate, TakenBy, PatchedPacket;
      taken, used := 0, 0;
      var data := BuildRequest(template, packetId);
      var s := SendFrame(data);
      if s != Success {
        return Result(s, [], 0, []), 0, 0;
      }
      var reply, expired;
      ghost var rx0 := nicRx;
      reply, expired, taken, used := Await(q, mac, polls, multiChannel && ringPresent);
      WaitDecided(rx0, q, polls, used, taken, reply.Some?, expired);
      result := if reply.Some? then ReplyResult(reply.value.data, respBufSize)
                else Result(if expired then Timeout else Polling, [], 0, []);
    }

    // --- hw_rx_burst ---

    /** The common drain of the spill ring. */
    method DrainRing(max: nat) returns (out: seq<Packet>)
      requires Valid()
      modifies `ring
      ensures Valid() && old(ring) == out + ring && |out| == Min(max, |old(ring)|)
      ensures Held() + Copies(out, buf) == old(Held())
    {
      out := [];
      while |out| < max && ring != []
        invariant |out| <= max && old(ring) == out + ring && Held() + Copies(out, buf) == old(Held())
        decreases |ring|
      {
        assert ring == [ring[0]] + ring[1..];
        CopiesSnoc(out, ring[0], buf);
        out, ring := out + [ring[0]], ring[1..];
      }
    }

    /** The ring first, then the NIC for what is still missing. */
    method RxBurst(nb: nat, take: nat) returns (out: seq<Packet>)
      requires Valid()
      modifies `ring, `nicRx
      ensures Valid() && Held() + Copies(out, buf) == old(Held())
      ensures old(ring + nicRx) == out + (ring + nicRx)
      ensures var d := Min(nb, |old(ring)|);
              ring == old(ring)[d..] && |out| == d + (if d < nb then Min(Min(take, nb - d), |old(nicRx)|) else 0)
    {
      out := DrainRing(nb);
      if |out| < nb {
        var rx := NicBurst(nb - |out|, take);
        CopiesConcat(out, rx, buf);
        out := out + rx;
      }
    }

    // --- hw_dispatch_poll and dpdk_netif.c ---

    /** dpdk_netif_linkoutput, for each frame lwIP wants out. */
    method LinkOutput(frames: seq<seq<byte>>)
      modifies `pool, `nicTx, `txRoom
      ensures Held() == old(Held()) && old(nicTx) <= nicTx && Sends(frames, room, old(Means()), Means())
    {
      hide Plenty, Datas;
      ghost var s0 := Means();
      SendsNothing(room, s0, s0);
      for i := 0 to |frames|
        invariant Held() == old(Held()) && old(nicTx) <= nicTx && Sends(frames[..i], room, s0, Means())
      {
        ghost var s1 := Means();
        var s := SendFrame(frames[i]);
        SendsMore(frames[..i], [frames[i]], room, s0, s1, Means());
        assert frames[..i + 1] == frames[..i] + [frames[i]];
      }
      assert frames[..|frames|] == frames;
    }

    /** dpdk_netif_input_mbuf: `emits` is what lwIP sends while it handles the frame (nothing if no
        pbuf could be had).  The frame's buffers go back to the pool on every path. */
    method InputMbuf(p: Packet, emits: seq<seq<byte>>)
      modifies `pool, `nicTx, `txRoom, `lwipIn
      ensures Held() == old(Held()) + Count(p.segs, buf) && old(nicTx) <= nicTx
      ensures Sends(if lwipRunning then emits else [], room, old(Means()), Means())
      ensures lwipIn == if lwipRunning then old(lwipIn) + [p] else old(lwipIn)
    {
      hide Plenty, Datas;
      ghost var s0 := Means();
      SendsNothing(room, s0, s0);
      if lwipRunning {
        lwipIn := lwipIn + [p];
        LinkOutput(emits);
      }
      Free(p);
    }

    /** One frame of the dispatcher's burst. */
    method Dispatch(p: Packet, out: seq<Packet>, max: nat, emits: seq<seq<byte>>) returns (out': seq<Packet>)
      modifies `pool, `nicTx, `txRoom, `lwipIn
      ensures Held() + Copies(out', buf) == old(Held()) + Copies(out, buf) + Count(p.segs, buf)
      ensures old(nicTx) <= nicTx
      ensures Sends(if RouteOf(p.data, lwipRunning) == ToLwip then emits else [], room, old(Means()), Means())
      ensures out' == if RouteOf(p.data, lwipRunning) == ToCaller && |out| < max then out + [p] else out
      ensures lwipIn == if RouteOf(p.data, lwipRunning) == ToLwip then old(lwipIn) + [p] else old(lwipIn)
    {
      hide Plenty, Datas;
      ghost var s0 := Means();
      SendsNothing(room, s0, s0);
      out' := out;
      var d := p.data;
      if |d| < 14 {
        Free(p);
      } else if EtherTypeIs(d, 0x08, 0x06) {
        if lwipRunning {
          InputMbuf(p, emits);
        } else if |out| < max {
          CopiesSnoc(out, p, buf);
          out' := out + [p];
        } else {
          Free(p);
        }
      } else if EtherTypeIs(d, 0x08, 0x00) && |d| >= 34 {
        if d[23] == 17 {
          if |out| < max {
            CopiesSnoc(out, p, buf);
            out' := out + [p];
          } else {
            Free(p);
          }
        } else if lwipRunning {
          InputMbuf(p, emits);
        } else {
          Free(p);
        }
      } else {
        Free(p);
      }
    }

    /** The dispatcher's loop over one burst. */
    method DispatchAll(rx: seq<Packet>, out0: seq<Packet>, max: nat, emits: nat -> seq<seq<byte>>) returns (out: seq<Packet>)
      requires |out0| <= max
      modifies `pool, `nicTx, `txRoom, `lwipIn
      ensures Held() + Copies(out, buf) == old(Held()) + Copies(out0, buf) + Copies(rx, buf)
      ensures old(nicTx) <= nicTx && Sends(Emitted(rx, lwipRunning, false, emits), room, old(Means()), Means())
      ensures out == Filled(out0, rx, lwipRunning, max)
      ensures lwipIn == old(lwipIn) + Routed(rx, lwipRunning, ToLwip)
    {
      hide RouteOf, Copies, Sends, Emitted, Filled, Routed;
      var i := 0;
      out := out0;
      ghost var s0 := Means();
      NoneEmitted(rx, lwipRunning, false, emits, room, s0);
      FilledNone(out0, rx, lwipRunning, max, buf);
      while i < |rx|
        invariant i <= |rx| && old(nicTx) <= nicTx
        invariant Held() + Copies(out, buf) == old(Held()) + Copies(out0, buf) + Copies(rx[..i], buf)
        invariant out == Filled(out0, rx[..i], lwipRunning, max)
        invariant lwipIn == old(lwipIn) + Routed(rx[..i], lwipRunning, ToLwip)
        invariant Sends(Emitted(rx[..i], lwipRunning, false, emits), room, s0, Means())
      {
        var j := i + 1;
        ghost var s1 := Means();
        OneMore(rx, i, buf);
        FilledOneMore(out0, rx, i, j, lwipRunning, max);
        out := Dispatch(rx[i], out, max, emits(i));
        EmittedMore(rx, i, j, lwipRunning, false, emits, room, s0, s1, Means());
        i := j;
      }
      assert rx[..|rx|] == rx;
    }

    /** dpdk_netif_poll's loop over one burst. */
    method LwipInputAll(rx: seq<Packet>, emits: nat -> seq<seq<byte>>)
      requires lwipRunning
      modifies `pool, `nicTx, `txRoom, `lwipIn
      ensures Held() == old(Held()) + Copies(rx, buf) && old(nicTx) <= nicTx && lwipIn == old(lwipIn) + rx
      ensures Sends(Emitted(rx, true, true, emits), room, old(Means()), Means())
    {
      hide Sends, Emitted, Copies;
      ghost var s0 := Means();
      NoneEmitted(rx, true, true, emits, room, s0);
      assert Copies(rx[..0], buf) == 0 by {
        FilledNone([], rx, true, 0, buf);
      }
      for i := 0 to |rx|
        invariant Held() == old(Held()) + Copies(rx[..i], buf) && old(nicTx) <= nicTx && lwipIn == old(lwipIn) + rx[..i]
        invariant Sends(Emitted(rx[..i], true, true, emits), room, s0, Means())
      {
        ghost var s1 := Means();
        OneMore(rx, i, buf);
        InputMbuf(rx[i], emits(i));
        EmittedMore(rx, i, i + 1, true, true, emits, room, s0, s1, Means());
      }
      assert rx[..|rx|] == rx;
    }

    /** dpdk_lwip_poll_once, under the poll lock if it is free: unless the dispatcher feeds lwIP, a
        burst of its own (`fed`); then the timers. */
    method LwipPollOnceSafe(lockFree: bool, take: nat, emits: nat -> seq<seq<byte>>, timers: seq<seq<byte>>)
        returns (ghost fed: seq<Packet>)
      modifies `pool, `nicRx, `nicTx, `txRoom, `lwipIn
      ensures Held() == old(Held()) && old(nicTx) <= nicTx
      ensures old(nicRx) == fed + nicRx && lwipIn == old(lwipIn) + fed
      ensures |fed| == if externalRx || !lwipRunning || !lockFree then 0 else Min(Min(take, BURST), |old(nicRx)|)
      ensures Sends(if lockFree && lwipRunning then Emitted(fed, true, true, emits) + timers else [], room, old(Means()), Means())
    {
      hide Sends, Emitted;
      fed := [];
      ghost var s0 := Means();
      SendsNothing(room, s0, s0);
      if lockFree && lwipRunning {
        NoneEmitted([], true, true, emits, room, s0);
        if !externalRx {
          var rx := NicBurst(BURST, take);
          fed := rx;
          LwipInputAll(rx, emits);
        }
        ghost var s1 := Means();
        LinkOutput(timers);
        SendsMore(Emitted(fed, true, true, emits), timers, room, s0, s1, Means());
      }
    }

    /** Steps 2 and 3 of hw_dispatch_poll: a burst `rx` from the NIC, demultiplexed. */
    method DispatchBurst(out0: seq<Packet>, max: nat, take: nat, emits: nat -> seq<seq<byte>>)
        returns (out: seq<Packet>, lwipCount: nat, ghost rx: seq<Packet>)
      requires |out0| <= max
      modifies `pool, `nicRx, `nicTx, `txRoom, `lwipIn
      ensures Held() + Copies(out, buf) == old(Held()) + Copies(out0, buf) && old(nicTx) <= nicTx
      ensures old(nicRx) == rx + nicRx && |rx| == Min(Min(take, DISPATCH_BURST), |old(nicRx)|)
      ensures out == Filled(out0, rx, lwipRunning, max)
      ensures lwipIn == old(lwipIn) + Routed(rx, lwipRunning, ToLwip) && lwipCount == |Routed(rx, lwipRunning, ToLwip)|
      ensures Sends(Emitted(rx, lwipRunning, false, emits), room, old(Means()), Means())
    {
      hide Sends, Emitted;
      var pkts := NicBurst(DISPATCH_BURST, take);
      rx := pkts;
      var before := |lwipIn|;
      out := DispatchAll(pkts, out0, max, emits);
      lwipCount := |lwipIn| - before;
    }

    /** hw_dispatch_poll: frames `drained` from the ring, a burst `rx` from the NIC, and whatever
        lwIP took for itself. */
    method DispatchPoll(max: nat, take: nat, emits: nat -> seq<seq<byte>>,
                        lockFree: bool, lwipTake: nat, lwipEmits: nat -> seq<seq<byte>>, timers: seq<seq<byte>>)
        returns (out: seq<Packet>, lwipCount: nat, ghost drained: seq<Packet>, ghost rx: seq<Packet>, ghost fed: seq<Packet>)
      requires Valid()
      modifies `pool, `nicRx, `nicTx, `txRoom, `ring, `lwipIn
      ensures Valid() && Held() + Copies(out, buf) == old(Held()) && old(nicTx) <= nicTx
      ensures old(ring) == drained + ring && |drained| == Min(max, |old(ring)|)
      ensures old(nicRx) == rx + (fed + nicRx) && |rx| == Min(Min(take, 64), |old(nicRx)|)
      ensures |fed| == if externalRx || !lwipRunning || !lockFree then 0 else Min(Min(lwipTake, BURST), |old(nicRx)| - |rx|)
      ensures Sends(Emitted(rx, lwipRunning, false, emits)
                    + (if lockFree && lwipRunning then Emitted(fed, true, true, lwipEmits) + timers else []),
                    room, old(Means()), Means())
      ensures out == Filled(drained, rx, lwipRunning, max) && lwipCount == |Routed(rx, lwipRunning, ToLwip)|
      ensures lwipIn == old(lwipIn) + Routed(rx, lwipRunning, ToLwip) + fed
    {
      hide Sends, Emitted, Copies, Filled, Routed;
      ghost var s0 := Means();
      var fromRing := DrainRing(max);
      drained := fromRing;
      out, lwipCount, rx := DispatchBurst(fromRing, max, take, emits);
      ghost var s1 := Means();
      fed := LwipPollOnceSafe(lockFree, lwipTake, lwipEmits, timers);
      SendsMore(Emitted(rx, lwipRunning, false, emits),
                if lockFree && lwipRunning then Emitted(fed, true, true, lwipEmits) + timers else [], room, s0, s1, Means());
    }

    // --- hw_eal_cleanup ---

    method CleanupSpillRing()
      requires Valid()
      modifies `pool, `ring, `ringPresent
      ensures Valid() && ring == [] && !ringPresent && Held() == old(Held())
    {
      if ringPresent {
        while ring != []
          invariant Valid() && Held() == old(Held())
          decreases |ring|
        {
          var p := ring[0];
          assert ring == [p] + ring[1..];
          ring := ring[1..];
          Free(p);
        }
        ringPresent := false;
      }
    }
  }
}
