/** The frames that hwio.c moves: classification by their bytes, the packet buffers they occupy, and
    what a scan of received frames passes on. */
module Packets {
  import opened Checksum

  const IPV4_HDR_LEN := 20
  const UDP_HDR_LEN := 8
  const ARP_HDR_LEN := 28
  const PAYLOAD_OFFSET := ETH_HDR_LEN + IPV4_HDR_LEN + UDP_HDR_LEN
  const ARP_FRAME_LEN := ETH_HDR_LEN + ARP_HDR_LEN
  /** rte_ring_create(256) keeps one slot free. */
  const RING_USABLE := 255

  /** A frame in packet buffers: the identities of the mbufs of its segment chain, and the bytes of
      the first segment. */
  datatype Packet = Packet(segs: seq<nat>, data: seq<byte>)

  /** What hw_reqresp_* waits for: an UDP frame from this address to this port. */
  datatype Query = Query(srcIp: seq<byte>, dstPort: word)

  // --- Classification, byte for byte ---

  predicate EtherTypeIs(d: seq<byte>, hi: byte, lo: byte)
  {
    |d| >= 14 && d[12] == hi && d[13] == lo
  }

  predicate IsArp(d: seq<byte>)
  {
    |d| >= ETH_HDR_LEN + 2 && EtherTypeIs(d, 0x08, 0x06)
  }

  predicate Matches(d: seq<byte>, q: Query)
  {
    && |d| >= PAYLOAD_OFFSET
    && EtherTypeIs(d, 0x08, 0x00)
    && d[ETH_HDR_LEN + 9] == 17
    && d[ETH_HDR_LEN + 12..ETH_HDR_LEN + 16] == q.srcIp
    && d[ETH_HDR_LEN + IPV4_HDR_LEN + 2] == q.dstPort / 0x100
    && d[ETH_HDR_LEN + IPV4_HDR_LEN + 3] == q.dstPort % 0x100
  }

  predicate IsArpRequest(d: seq<byte>)
  {
    |d| >= ARP_FRAME_LEN && d[ETH_HDR_LEN + 6] == 0 && d[ETH_HDR_LEN + 7] == 1
  }

  /** send_arp_reply's frame: proxy ARP, answering for whatever address was asked for. */
  function ArpReply(d: seq<byte>, mac: seq<byte>): (r: seq<byte>)
    requires IsArpRequest(d) && |mac| == 6
    ensures |r| == ARP_FRAME_LEN
  {
    var senderMac, senderIp, targetIp := d[22..28], d[28..32], d[38..42];
    senderMac + mac + [0x08, 0x06] + [0, 1, 0x08, 0, 6, 4, 0, 2] + mac + targetIp + senderMac + senderIp
  }

  /** The reply answers the request: it is an ARP reply for IPv4 over Ethernet (RFC 826), goes back to the
      asking host, and says that the address asked for is at our MAC. */
  lemma ArpReplyAnswers(d: seq<byte>, mac: seq<byte>)
    requires IsArpRequest(d) && |mac| == 6
    ensures var r := ArpReply(d, mac); IsArp(r) && !IsArpRequest(r) && r[0..6] == d[22..28] && r[6..12] == mac
    ensures var r := ArpReply(d, mac); r[12..22] == [8, 6] + [0, 1] + [8, 0] + [6, 4] + [0, 2]
    ensures var r := ArpReply(d, mac); r[22..28] == mac && r[28..32] == d[38..42]
    ensures var r := ArpReply(d, mac); r[32..38] == d[22..28] && r[38..42] == d[28..32]
  {
  }

  // --- Where one buffer is ---

  /** How often the buffer `m` occurs in a pool. */
  function Count(pool: seq<nat>, m: nat): nat
  {
    if pool == [] then 0 else (if pool[0] == m then 1 else 0) + Count(pool[1..], m)
  }

  /** How often the buffer `m` occurs in the segment chains of a queue of frames. */
  function Copies(ps: seq<Packet>, m: nat): nat
  {
    if ps == [] then 0 else Count(ps[0].segs, m) + Copies(ps[1..], m)
  }

  lemma {:induction false} CountConcat(a: seq<nat>, b: seq<nat>, m: nat)
    ensures Count(a + b, m) == Count(a, m) + Count(b, m)
    decreases |a|
  {
    if a == [] {
      assert a + b == b;
    } else {
      assert (a + b)[1..] == a[1..] + b;
      CountConcat(a[1..], b, m);
    }
  }

  lemma {:induction false} CopiesConcat(a: seq<Packet>, b: seq<Packet>, m: nat)
    ensures Copies(a + b, m) == Copies(a, m) + Copies(b, m)
    decreases |a|
  {
    if a == [] {
      assert a + b == b;
    } else {
      assert (a + b)[1..] == a[1..] + b;
      CopiesConcat(a[1..], b, m);
    }
  }

  lemma CopiesOne(p: Packet, m: nat)
    ensures Copies([p], m) == Count(p.segs, m)
  {
    assert [p][1..] == [];
  }

  lemma CopiesSnoc(ps: seq<Packet>, p: Packet, m: nat)
    ensures Copies(ps + [p], m) == Copies(ps, m) + Count(p.segs, m)
  {
    CopiesConcat(ps, [p], m);
    CopiesOne(p, m);
  }

  lemma OneMore(ps: seq<Packet>, i: nat, m: nat)
    requires i < |ps|
    ensures ps[..i + 1] == ps[..i] + [ps[i]] && Copies(ps[..i + 1], m) == Copies(ps[..i], m) + Count(ps[i].segs, m)
  {
    assert ps[..i + 1] == ps[..i] + [ps[i]];
    CopiesSnoc(ps[..i], ps[i], m);
  }

  lemma CopiesAround(ps: seq<Packet>, i: nat, m: nat)
    requires i < |ps|
    ensures Copies(ps, m) == Copies(ps[..i], m) + Count(ps[i].segs, m) + Copies(ps[i + 1..], m)
  {
    OneMore(ps, i, m);
    assert ps == ps[..i + 1] + ps[i + 1..];
    CopiesConcat(ps[..i + 1], ps[i + 1..], m);
  }

  // --- What the scan of received frames keeps ---

  /** The position of the first frame that matches, or the number of frames. */
  function FirstMatch(ps: seq<Packet>, q: Query): (k: nat)
    ensures k <= |ps| && (k < |ps| ==> Matches(ps[k].data, q))
    ensures forall i | 0 <= i < k :: !Matches(ps[i].data, q)
  {
    if ps == [] || Matches(ps[0].data, q) then 0 else 1 + FirstMatch(ps[1..], q)
  }

  lemma {:induction false} FirstMatchConcat(a: seq<Packet>, b: seq<Packet>, q: Query)
    requires FirstMatch(a, q) == |a|
    ensures FirstMatch(a + b, q) == |a| + FirstMatch(b, q)
    decreases |a|
  {
    if a == [] {
      assert a + b == b;
    } else {
      assert (a + b)[1..] == a[1..] + b;
      FirstMatchConcat(a[1..], b, q);
    }
  }

  function WithoutArp(ps: seq<Packet>): seq<Packet>
  {
    if ps == [] then [] else (if IsArp(ps[0].data) then [] else [ps[0]]) + WithoutArp(ps[1..])
  }

  lemma {:induction false} WithoutArpConcat(a: seq<Packet>, b: seq<Packet>)
    ensures WithoutArp(a + b) == WithoutArp(a) + WithoutArp(b)
    decreases |a|
  {
    if a == [] {
      assert a + b == b;
    } else {
      assert (a + b)[1..] == a[1..] + b;
      WithoutArpConcat(a[1..], b);
    }
  }

  lemma WithoutArpSnoc(a: seq<Packet>, x: Packet)
    ensures WithoutArp(a + [x]) == WithoutArp(a) + (if IsArp(x.data) then [] else [x])
  {
    WithoutArpConcat(a, [x]);
    assert [x][1..] == [];
  }

  /** The frames a multi-channel wait passes on to the spill ring: those before its reply, less
      ARP, and everything received in one burst with the reply. */
  function PassedOn(ps: seq<Packet>, q: Query): seq<Packet>
  {
    var k := FirstMatch(ps, q);
    if k == |ps| then WithoutArp(ps) else WithoutArp(ps[..k]) + ps[k + 1..]
  }

  /** A bounded ring keeps the first frames that fit. */
  function Spill(ring: seq<Packet>, ps: seq<Packet>): (r: seq<Packet>)
    requires |ring| <= RING_USABLE
    ensures |r| <= RING_USABLE && ring <= r && |r| == if |ring| + |ps| <= 255 then |ring| + |ps| else 255
  {
    if |ring| + |ps| <= RING_USABLE then ring + ps else ring + ps[..RING_USABLE - |ring|]
  }

  lemma SpillConcat(ring: seq<Packet>, a: seq<Packet>, b: seq<Packet>)
    requires |ring| <= RING_USABLE
    ensures Spill(ring, a + b) == Spill(Spill(ring, a), b)
  {
  }

  /** The frames of `sent` answer some of the ARP requests in `ps`, in their order. */
  predicate Answers(sent: seq<Packet>, ps: seq<Packet>, mac: seq<byte>)
    requires |mac| == 6
  {
    if ps == [] then sent == []
    else
      var last := ps[|ps| - 1];
      || Answers(sent, ps[..|ps| - 1], mac)
      || (IsArp(last.data) && IsArpRequest(last.data) && sent != []
          && sent[|sent| - 1].data == ArpReply(last.data, mac)
          && Answers(sent[..|sent| - 1], ps[..|ps| - 1], mac))
  }

  lemma {:induction false} AnswersConcat(s: seq<Packet>, t: seq<Packet>, a: seq<Packet>, b: seq<Packet>, mac: seq<byte>)
    requires |mac| == 6 && Answers(s, a, mac) && Answers(t, b, mac)
    ensures Answers(s + t, a + b, mac)
    decreases |b|
  {
    if b == [] {
      assert s + t == s && a + b == a;
    } else {
      var rest := b[..|b| - 1];
      assert (a + b)[..|a + b| - 1] == a + rest;
      if Answers(t, rest, mac) {
        AnswersConcat(s, t, a, rest, mac);
      } else {
        assert (s + t)[..|s + t| - 1] == s + t[..|t| - 1];
        AnswersConcat(s, t[..|t| - 1], a, rest, mac);
      }
    }
  }

  /** Sending more frames in answer to later ones. */
  lemma AnswersMore(start: seq<Packet>, mid: seq<Packet>, end: seq<Packet>, a: seq<Packet>, b: seq<Packet>, mac: seq<byte>)
    requires |mac| == 6 && start <= mid <= end
    requires Answers(mid[|start|..], a, mac) && Answers(end[|mid|..], b, mac)
    ensures Answers(end[|start|..], a + b, mac)
  {
    AnswersConcat(mid[|start|..], end[|mid|..], a, b, mac);
    assert end[|start|..] == mid[|start|..] + end[|mid|..];
  }

  lemma NoAnswer(s: seq<Packet>, a: seq<Packet>, x: Packet, mac: seq<byte>)
    requires |mac| == 6 && Answers(s, a, mac)
    ensures Answers(s, a + [x], mac)
  {
    assert (a + [x])[..|a + [x]| - 1] == a;
  }

  // --- What is sent when nothing runs short ---

  /** What a sender has: free buffers, free send descriptors, and the frames sent so far. */
  datatype Sender = Sender(pool: nat, tx: nat, out: seq<Packet>)

  function Datas(ps: seq<Packet>): (ds: seq<seq<byte>>)
    ensures |ds| == |ps| && forall i | 0 <= i < |ps| :: ds[i] == ps[i].data
  {
    if ps == [] then [] else [ps[0].data] + Datas(ps[1..])
  }

  /** There is a buffer and a descriptor for every frame, and each fits into a buffer. */
  predicate Plenty(frames: seq<seq<byte>>, s: Sender, room: nat)
  {
    |frames| <= s.pool && |frames| <= s.tx && forall i | 0 <= i < |frames| :: |frames[i]| <= room
  }

  /** Each frame sent takes a descriptor and at most one buffer; and if nothing runs short, exactly
      `frames` are sent, in their order. */
  predicate Sends(frames: seq<seq<byte>>, room: nat, s: Sender, s': Sender)
  {
    && s.out <= s'.out && s'.tx + |s'.out| == s.tx + |s.out| && s'.pool + |s'.out| >= s.pool + |s.out|
    && (Plenty(frames, s, room) ==> Datas(s'.out[|s.out|..]) == frames)
  }

  lemma DatasConcat(a: seq<Packet>, b: seq<Packet>)
    ensures Datas(a + b) == Datas(a) + Datas(b)
  {
  }

  lemma SendsNothing(room: nat, s: Sender, s': Sender)
    requires s'.out == s.out && s'.tx == s.tx && s'.pool >= s.pool
    ensures Sends([], room, s, s')
  {
  }

  lemma NotSent(data: seq<byte>, room: nat, s: Sender, s': Sender)
    requires s'.out == s.out && s'.tx == s.tx && s'.pool == s.pool
    requires s.pool == 0 || s.tx == 0 || |data| > room
    ensures Sends([data], room, s, s')
  {
    assert |[data][0]| == |data|;
  }

  lemma OneSent(p: Packet, room: nat, s: Sender, s': Sender)
    requires s'.out == s.out + [p] && s'.tx + 1 == s.tx && s'.pool + 1 == s.pool
    ensures Sends([p.data], room, s, s')
  {
    assert s'.out[|s.out|..] == [p];
  }

  lemma SendsMore(a: seq<seq<byte>>, b: seq<seq<byte>>, room: nat, s: Sender, t: Sender, u: Sender)
    requires Sends(a, room, s, t) && Sends(b, room, t, u)
    ensures Sends(a + b, room, s, u)
  {
    var x, y := t.out[|s.out|..], u.out[|t.out|..];
    assert u.out[|s.out|..] == x + y;
    DatasConcat(x, y);
    if Plenty(a + b, s, room) {
      forall i | 0 <= i < |a| ensures |a[i]| <= room { assert a[i] == (a + b)[i]; }
      forall i | 0 <= i < |b| ensures |b[i]| <= room { assert b[i] == (a + b)[|a| + i]; }
      assert Plenty(a, s, room);
      assert |x| == |a| && Plenty(b, t, room);
    }
  }

  /** The answers that the ARP requests among some frames ask for. */
  function ArpAnswers(ps: seq<Packet>, mac: seq<byte>): seq<seq<byte>>
    requires |mac| == 6
  {
    if ps == [] then []
    else
      var d := ps[|ps| - 1].data;
      ArpAnswers(ps[..|ps| - 1], mac) + (if IsArp(d) && IsArpRequest(d) then [ArpReply(d, mac)] else [])
  }

  lemma ArpAnswersSnoc(ps: seq<Packet>, x: Packet, mac: seq<byte>)
    requires |mac| == 6
    ensures ArpAnswers(ps + [x], mac) == ArpAnswers(ps, mac) + ArpAnswers([x], mac)
  {
    assert (ps + [x])[..|ps + [x]| - 1] == ps && [x][..0] == [];
  }

  lemma {:induction false} ArpAnswersConcat(a: seq<Packet>, b: seq<Packet>, mac: seq<byte>)
    requires |mac| == 6
    ensures ArpAnswers(a + b, mac) == ArpAnswers(a, mac) + ArpAnswers(b, mac)
    decreases |b|
  {
    if b == [] {
      assert a + b == a && ArpAnswers(a, mac) + [] == ArpAnswers(a, mac);
    } else {
      assert (a + b)[..|a + b| - 1] == a + b[..|b| - 1];
      ArpAnswersConcat(a, b[..|b| - 1], mac);
    }
  }

  lemma NoArpAnswers(rx: seq<Packet>, mac: seq<byte>, room: nat, s: Sender)
    requires |mac| == 6
    ensures Sends(ArpAnswers(rx[..0], mac), room, s, s)
  {
    SendsNothing(room, s, s);
  }

  /** A further burst `rx[t..end]`, after frames `rx[..t]` without a match. */
  lemma AnsweredMore(rx: seq<Packet>, t: nat, end: nat, q: Query, mac: seq<byte>, room: nat, s0: Sender, s1: Sender, s2: Sender)
    requires |mac| == 6 && t <= end <= |rx| && FirstMatch(rx[..t], q) == t
    requires Sends(ArpAnswers(rx[..t], mac), room, s0, s1)
    requires Sends(ArpAnswers(rx[t..end][..FirstMatch(rx[t..end], q)], mac), room, s1, s2)
    ensures Sends(ArpAnswers(rx[..FirstMatch(rx[..end], q)], mac), room, s0, s2)
  {
    hide Sends, ArpAnswers, FirstMatch, Matches;
    var a, b := rx[..t], rx[t..end];
    assert rx[..end] == a + b;
    FirstMatchConcat(a, b, q);
    var k := FirstMatch(b, q);
    var c := b[..k];
    assert (a + b)[..t + k] == a + c;
    assert rx[..t + k] == rx[..end][..t + k];
    ArpAnswersConcat(a, c, mac);
    SendsMore(ArpAnswers(a, mac), ArpAnswers(c, mac), room, s0, s1, s2);
  }

  /** One more frame that does not match. */
  lemma ScanOne(ps: seq<Packet>, i: nat, q: Query)
    requires i < |ps| && FirstMatch(ps[..i], q) == i
    ensures Matches(ps[i].data, q) ==> FirstMatch(ps, q) == i
    ensures !Matches(ps[i].data, q) ==> FirstMatch(ps[..i + 1], q) == i + 1
    ensures WithoutArp(ps[..i + 1]) == WithoutArp(ps[..i]) + (if IsArp(ps[i].data) then [] else [ps[i]])
  {
    assert ps == ps[..i] + ps[i..] && ps[..i + 1] == ps[..i] + [ps[i]];
    assert [ps[i]][1..] == [];
    FirstMatchConcat(ps[..i], ps[i..], q);
    FirstMatchConcat(ps[..i], [ps[i]], q);
    WithoutArpConcat(ps[..i], [ps[i]]);
  }

  /** The ring and the sent frames after a scan of `ps` without a match: frames other than ARP went
      to the ring if there is one to use, and ARP requests were answered. */
  predicate Scanned(ring0: seq<Packet>, tx0: seq<Packet>, ring: seq<Packet>, tx: seq<Packet>, ps: seq<Packet>,
                    mac: seq<byte>, spilling: bool)
    requires |mac| == 6 && |ring0| <= RING_USABLE
  {
    && ring == (if spilling then Spill(ring0, WithoutArp(ps)) else ring0)
    && tx0 <= tx && Answers(tx[|tx0|..], ps, mac)
  }

  lemma ScanBegins(ring: seq<Packet>, tx: seq<Packet>, rx: seq<Packet>, q: Query, mac: seq<byte>, spilling: bool)
    requires |mac| == 6 && |ring| <= RING_USABLE
    ensures Scanned(ring, tx, ring, tx, rx[..0], mac, spilling) && FirstMatch(rx[..0], q) == 0
  {
  }

  lemma ScannedOne(ring0: seq<Packet>, tx0: seq<Packet>, ring: seq<Packet>, tx: seq<Packet>,
                   ring': seq<Packet>, tx': seq<Packet>, ps: seq<Packet>, x: Packet, mac: seq<byte>, spilling: bool)
    requires |mac| == 6 && |ring0| <= RING_USABLE && |ring| <= RING_USABLE
    requires Scanned(ring0, tx0, ring, tx, ps, mac, spilling)
    requires if IsArp(x.data) then ring' == ring && tx <= tx' && Answers(tx'[|tx|..], [x], mac)
             else tx' == tx && ring' == if spilling then Spill(ring, [x]) else ring
    ensures Scanned(ring0, tx0, ring', tx', ps + [x], mac, spilling)
  {
    WithoutArpSnoc(ps, x);
    if IsArp(x.data) {
      AnswersMore(tx0, tx, tx', ps, [x], mac);
      assert WithoutArp(ps + [x]) == WithoutArp(ps);
    } else {
      NoAnswer(tx[|tx0|..], ps, x, mac);
      SpillConcat(ring0, WithoutArp(ps), [x]);
    }
  }

  /** Everything a wait did to the ring and to the sent frames, in terms of the frames `ps` it took
      from the NIC. */
  predicate Waited(ring0: seq<Packet>, tx0: seq<Packet>, ring: seq<Packet>, tx: seq<Packet>, ps: seq<Packet>,
                   q: Query, mac: seq<byte>, spilling: bool)
    requires |mac| == 6 && |ring0| <= RING_USABLE
  {
    && ring == (if spilling then Spill(ring0, PassedOn(ps, q)) else ring0)
    && tx0 <= tx && Answers(tx[|tx0|..], ps[..FirstMatch(ps, q)], mac)
  }

  /** A burst scanned up to its first match, or to its end, and the rest of it passed on. */
  lemma WaitedBurst(ring0: seq<Packet>, tx0: seq<Packet>, ring: seq<Packet>, ring': seq<Packet>, tx: seq<Packet>,
                    rx: seq<Packet>, q: Query, mac: seq<byte>, spilling: bool)
    requires |mac| == 6 && |ring0| <= RING_USABLE && |ring| <= RING_USABLE
    requires Scanned(ring0, tx0, ring, tx, rx[..FirstMatch(rx, q)], mac, spilling)
    requires var k := FirstMatch(rx, q);
             ring' == if spilling && k < |rx| then Spill(ring, rx[k + 1..]) else ring
    ensures Waited(ring0, tx0, ring', tx, rx, q, mac, spilling)
  {
    hide Answers, Spill, FirstMatch;
    var k := FirstMatch(rx, q);
    if k == |rx| {
      assert rx[..k] == rx;
    } else {
      SpillConcat(ring0, WithoutArp(rx[..k]), rx[k + 1..]);
    }
  }

  lemma WaitedNothing(ring0: seq<Packet>, tx0: seq<Packet>, ps: seq<Packet>, q: Query, mac: seq<byte>, spilling: bool)
    requires |mac| == 6 && |ring0| <= RING_USABLE && ps == []
    ensures Waited(ring0, tx0, ring0, tx0, ps, q, mac, spilling) && FirstMatch(ps, q) == 0
  {
  }

  lemma PassedOnMore(a: seq<Packet>, b: seq<Packet>, q: Query)
    requires FirstMatch(a, q) == |a|
    ensures PassedOn(a + b, q) == PassedOn(a, q) + PassedOn(b, q)
  {
    FirstMatchConcat(a, b, q);
    if FirstMatch(b, q) == |b| {
      WithoutArpConcat(a, b);
    } else {
      PassedOnReply(a, b, q);
    }
  }

  lemma Assoc(a: seq<Packet>, b: seq<Packet>, c: seq<Packet>)
    ensures a + b + c == a + (b + c)
  {
  }

  lemma PassedOnReply(a: seq<Packet>, b: seq<Packet>, q: Query)
    requires FirstMatch(a, q) == |a| && FirstMatch(b, q) < |b| && FirstMatch(a + b, q) == |a| + FirstMatch(b, q)
    ensures PassedOn(a + b, q) == WithoutArp(a) + PassedOn(b, q)
  {
    hide WithoutArp, FirstMatch, Matches;
    var k := FirstMatch(b, q);
    var ab := a + b;
    assert ab[..|a| + k] == a + b[..k];
    assert ab[|a| + k + 1..] == b[k + 1..];
    WithoutArpConcat(a, b[..k]);
    Assoc(WithoutArp(a), WithoutArp(b[..k]), b[k + 1..]);
  }

  lemma BeforeReply(a: seq<Packet>, b: seq<Packet>, q: Query)
    requires FirstMatch(a, q) == |a|
    ensures (a + b)[..FirstMatch(a + b, q)] == a[..FirstMatch(a, q)] + b[..FirstMatch(b, q)]
  {
    FirstMatchConcat(a, b, q);
  }

  /** A burst taken from what the NIC still had. */
  lemma TakenMore(rx0: seq<Packet>, t: nat, rx: seq<Packet>, rest: seq<Packet>, end: nat)
    requires t <= |rx0| && rx0[t..] == rx + rest && end == t + |rx|
    ensures end <= |rx0| && rx0[..end] == rx0[..t] + rx && rx == rx0[t..end] && rest == rx0[end..]
  {
    assert rx0 == rx0[..t] + (rx + rest);
  }

  /** A further burst `rx[t..end]`, after frames `rx[..t]` without a match. */
  lemma WaitedMore(ring0: seq<Packet>, tx0: seq<Packet>, ring: seq<Packet>, tx: seq<Packet>,
                   ring': seq<Packet>, tx': seq<Packet>, rx: seq<Packet>, t: nat, end: nat,
                   q: Query, mac: seq<byte>, spilling: bool)
    requires |mac| == 6 && |ring0| <= RING_USABLE && |ring| <= RING_USABLE
    requires t <= end <= |rx| && FirstMatch(rx[..t], q) == t
    requires Waited(ring0, tx0, ring, tx, rx[..t], q, mac, spilling)
    requires Waited(ring, tx, ring', tx', rx[t..end], q, mac, spilling)
    ensures FirstMatch(rx[..end], q) == t + FirstMatch(rx[t..end], q)
    ensures Waited(ring0, tx0, ring', tx', rx[..end], q, mac, spilling)
  {
    var a, b := rx[..t], rx[t..end];
    assert rx[..end] == a + b;
    FirstMatchConcat(a, b, q);
    BeforeReply(a, b, q);
    AnswersMore(tx0, tx, tx', a[..FirstMatch(a, q)], b[..FirstMatch(b, q)], mac);
    PassedOnMore(a, b, q);
    if spilling {
      SpillConcat(ring0, PassedOn(a, q), PassedOn(b, q));
    }
  }

  // --- hw_dispatch_poll's demultiplexing ---

  datatype Route = ToCaller | ToLwip | Dropped

  function RouteOf(d: seq<byte>, lwipRunning: bool): Route
  {
    if |d| < 14 then Dropped
    else if EtherTypeIs(d, 0x08, 0x06) then (if lwipRunning then ToLwip else ToCaller)
    else if EtherTypeIs(d, 0x08, 0x00) && |d| >= 34 then
      (if d[23] == 17 then ToCaller else if lwipRunning then ToLwip else Dropped)
    else Dropped
  }

  /** An Ethernet II frame: destination, source, type, and what it carries. */
  predicate IsFrame(d: seq<byte>, to: seq<byte>, from: seq<byte>, hi: byte, lo: byte, body: seq<byte>)
  {
    |to| == 6 && |from| == 6 && d == to + from + [hi, lo] + body
  }

  /** An IPv4 header without options, up to and with its addresses. */
  predicate IsIPv4(h: seq<byte>, protocol: byte, src: seq<byte>, dst: seq<byte>)
  {
    |h| == 20 && |src| == 4 && |dst| == 4 && h[9] == protocol && h[12..16] == src && h[16..20] == dst
  }

  /** Where frames go: UDP always to the caller, all other IPv4 only to a running lwIP, ARP to lwIP if
      it runs and else to the caller, and everything else nowhere. */
  lemma RouteExactly(d: seq<byte>, to: seq<byte>, from: seq<byte>, hi: byte, lo: byte, body: seq<byte>, lwipRunning: bool)
    requires IsFrame(d, to, from, hi, lo, body)
    ensures RouteOf(d, lwipRunning) == ToCaller <==>
              (hi == 8 && lo == 0 && |body| >= 20 && body[9] == 17) || (hi == 8 && lo == 6 && !lwipRunning)
    ensures RouteOf(d, lwipRunning) == ToLwip <==>
              lwipRunning && ((hi == 8 && lo == 6) || (hi == 8 && lo == 0 && |body| >= 20 && body[9] != 17))
  {
    assert d[12] == hi && d[13] == lo && |d| == 14 + |body|;
    assert |body| > 9 ==> d[23] == body[9];
  }

  /** A frame of type ARP is taken for one if it is at least 16 bytes long. */
  lemma ArpExactly(d: seq<byte>, to: seq<byte>, from: seq<byte>, hi: byte, lo: byte, body: seq<byte>)
    requires IsFrame(d, to, from, hi, lo, body)
    ensures IsArp(d) <==> hi == 8 && lo == 6 && |body| >= 2
  {
    assert d[12] == hi && d[13] == lo && |d| == 14 + |body|;
  }

  /** A frame without a whole Ethernet header goes nowhere. */
  lemma ShortGoesNowhere(d: seq<byte>, lwipRunning: bool)
    ensures |d| < 14 ==> RouteOf(d, lwipRunning) == Dropped
  {
  }

  /** A UDP header: ports in network order, length and checksum. */
  predicate IsUdp(h: seq<byte>, srcPort: word, dstPort: word)
  {
    && |h| == 8
    && h[0] == srcPort / 256 && h[1] == srcPort % 256 && h[2] == dstPort / 256 && h[3] == dstPort % 256
  }

  /** A UDP datagram in an IPv4 packet in an Ethernet frame is the awaited one exactly if it comes from
      the address asked and goes to the port asked from; it is no ARP frame. */
  lemma MatchesUdp(d: seq<byte>, to: seq<byte>, from: seq<byte>, ip: seq<byte>, udp: seq<byte>, payload: seq<byte>,
                   protocol: byte, src: seq<byte>, dst: seq<byte>, srcPort: word, dstPort: word, q: Query)
    requires IsIPv4(ip, protocol, src, dst) && IsUdp(udp, srcPort, dstPort)
    requires IsFrame(d, to, from, 8, 0, ip + udp + payload)
    ensures Matches(d, q) <==> protocol == 17 && src == q.srcIp && dstPort == q.dstPort
    ensures !IsArp(d) && d[26..30] == src && Word(d[35], d[34]) == srcPort && d[42..] == payload
  {
    assert d[12] == 8 && d[13] == 0 && d[23] == protocol;
    assert d[26..30] == ip[12..16];
    assert d[34] == udp[0] && d[35] == udp[1] && d[36] == udp[2] && d[37] == udp[3];
    assert d[42..] == payload;
  }

  /** What lwIP wants out while it is given frames of the burst `ps`, the i-th of which makes it send
      `emits(i)`: all of them if the burst is its own, else those that the dispatcher gives it. */
  function Emitted(ps: seq<Packet>, lwipRunning: bool, own: bool, emits: nat -> seq<seq<byte>>): seq<seq<byte>>
  {
    if ps == [] then []
    else
      var n := |ps| - 1;
      Emitted(ps[..n], lwipRunning, own, emits) + (if own || RouteOf(ps[n].data, lwipRunning) == ToLwip then emits(n) else [])
  }

  lemma EmittedOneMore(rx: seq<Packet>, i: nat, lwipRunning: bool, own: bool, emits: nat -> seq<seq<byte>>)
    requires i < |rx|
    ensures Emitted(rx[..i + 1], lwipRunning, own, emits)
         == Emitted(rx[..i], lwipRunning, own, emits) + (if own || RouteOf(rx[i].data, lwipRunning) == ToLwip then emits(i) else [])
  {
    assert rx[..i + 1][..i] == rx[..i];
  }

  lemma NoneEmitted(rx: seq<Packet>, lwipRunning: bool, own: bool, emits: nat -> seq<seq<byte>>, room: nat, s: Sender)
    ensures Emitted([], lwipRunning, own, emits) == [] && Sends(Emitted(rx[..0], lwipRunning, own, emits), room, s, s)
  {
    SendsNothing(room, s, s);
  }

  lemma EmittedMore(rx: seq<Packet>, i: nat, j: nat, lwipRunning: bool, own: bool, emits: nat -> seq<seq<byte>>, room: nat,
                    s0: Sender, s1: Sender, s2: Sender)
    requires i < |rx| && j == i + 1 && Sends(Emitted(rx[..i], lwipRunning, own, emits), room, s0, s1)
    requires Sends(if own || RouteOf(rx[i].data, lwipRunning) == ToLwip then emits(i) else [], room, s1, s2)
    ensures Sends(Emitted(rx[..j], lwipRunning, own, emits), room, s0, s2)
  {
    hide Sends;
    EmittedOneMore(rx, i, lwipRunning, own, emits);
    SendsMore(Emitted(rx[..i], lwipRunning, own, emits),
              if own || RouteOf(rx[i].data, lwipRunning) == ToLwip then emits(i) else [], room, s0, s1, s2);
  }

  /** The frames that go a given way, in their order. */
  function Routed(ps: seq<Packet>, lwipRunning: bool, way: Route): seq<Packet>
  {
    if ps == [] then []
    else Routed(ps[..|ps| - 1], lwipRunning, way)
         + (if RouteOf(ps[|ps| - 1].data, lwipRunning) == way then [ps[|ps| - 1]] else [])
  }

  /** The first `cap` frames. */
  function UpTo(ps: seq<Packet>, cap: nat): seq<Packet>
  {
    if |ps| <= cap then ps else ps[..cap]
  }

  /** The caller's array, of size `max`, after `rx` was demultiplexed behind `out0`. */
  function Filled(out0: seq<Packet>, rx: seq<Packet>, lwipRunning: bool, max: nat): seq<Packet>
    requires |out0| <= max
  {
    out0 + UpTo(Routed(rx, lwipRunning, ToCaller), max - |out0|)
  }

  /** One frame more, with `j` one past `i`. */
  lemma FilledOneMore(out0: seq<Packet>, rx: seq<Packet>, i: nat, j: nat, lwipRunning: bool, max: nat)
    requires |out0| <= max && i < |rx| && j == i + 1
    ensures var out := Filled(out0, rx[..i], lwipRunning, max);
            Filled(out0, rx[..j], lwipRunning, max)
            == if RouteOf(rx[i].data, lwipRunning) == ToCaller && |out| < max then out + [rx[i]] else out
    ensures Routed(rx[..j], lwipRunning, ToLwip)
         == Routed(rx[..i], lwipRunning, ToLwip) + (if RouteOf(rx[i].data, lwipRunning) == ToLwip then [rx[i]] else [])
  {
    assert rx[..j][..i] == rx[..i];
    var r, room := Routed(rx[..i], lwipRunning, ToCaller), max - |out0|;
    UpToOneMore(r, rx[i], room);
  }

  lemma FilledNone(out0: seq<Packet>, rx: seq<Packet>, lwipRunning: bool, max: nat, m: nat)
    requires |out0| <= max
    ensures Filled(out0, rx[..0], lwipRunning, max) == out0 && Routed(rx[..0], lwipRunning, ToLwip) == [] && Copies(rx[..0], m) == 0
  {
  }

  lemma UpToOneMore(r: seq<Packet>, p: Packet, room: nat)
    ensures UpTo(r + [p], room) == if |r| < room then UpTo(r, room) + [p] else UpTo(r, room)
  {
  }

  // --- Order: subsequences ---

  /** `a` is `b` with some frames left out. */
  predicate Sub(a: seq<Packet>, b: seq<Packet>)
  {
    if b == [] then a == []
    else || Sub(a, b[..|b| - 1])
         || (a != [] && a[|a| - 1] == b[|b| - 1] && Sub(a[..|a| - 1], b[..|b| - 1]))
  }

  lemma {:induction false} SubRefl(a: seq<Packet>)
    ensures Sub(a, a)
    decreases |a|
  {
    if a != [] {
      SubRefl(a[..|a| - 1]);
    }
  }

  lemma {:induction false} SubOfNothing(b: seq<Packet>)
    ensures Sub([], b)
    decreases |b|
  {
    if b != [] {
      SubOfNothing(b[..|b| - 1]);
    }
  }

  lemma SubSnoc(a: seq<Packet>, b: seq<Packet>, x: Packet)
    requires Sub(a, b)
    ensures Sub(a + [x], b + [x]) && Sub(a, b + [x])
  {
    assert (b + [x])[..|b + [x]| - 1] == b && (a + [x])[..|a + [x]| - 1] == a;
  }

  lemma {:induction false} SubConcat(a: seq<Packet>, b: seq<Packet>, c: seq<Packet>, d: seq<Packet>)
    requires Sub(a, b) && Sub(c, d)
    ensures Sub(a + c, b + d)
    decreases |d|
  {
    if d == [] {
      assert a + c == a && b + d == b;
    } else {
      var rest := d[..|d| - 1];
      assert (b + d)[..|b + d| - 1] == b + rest;
      if Sub(c, rest) {
        SubConcat(a, b, c, rest);
      } else {
        assert (a + c)[..|a + c| - 1] == a + c[..|c| - 1];
        SubConcat(a, b, c[..|c| - 1], rest);
      }
    }
  }

  lemma {:induction false} SubTrans(a: seq<Packet>, b: seq<Packet>, c: seq<Packet>)
    requires Sub(a, b) && Sub(b, c)
    ensures Sub(a, c)
    decreases |c|
  {
    if c != [] {
      var rest := c[..|c| - 1];
      if Sub(b, rest) {
        SubTrans(a, b, rest);
      } else if Sub(a, b[..|b| - 1]) {
        SubTrans(a, b[..|b| - 1], rest);
      } else {
        SubTrans(a[..|a| - 1], b[..|b| - 1], rest);
      }
    }
  }

  lemma SubPrefix(a: seq<Packet>, n: nat)
    requires n <= |a|
    ensures Sub(a[..n], a)
  {
    SubRefl(a[..n]);
    SubOfNothing(a[n..]);
    SubConcat(a[..n], a[..n], [], a[n..]);
    assert a == a[..n] + a[n..] && a[..n] + [] == a[..n];
  }

  lemma {:induction false} WithoutArpIsSub(ps: seq<Packet>)
    ensures Sub(WithoutArp(ps), ps)
    decreases |ps|
  {
    if ps != [] {
      var rest, last := ps[..|ps| - 1], ps[|ps| - 1];
      assert ps == rest + [last];
      WithoutArpIsSub(rest);
      WithoutArpSnoc(rest, last);
      SubSnoc(WithoutArp(rest), rest, last);
      assert WithoutArp(rest) + [] == WithoutArp(rest);
    }
  }

  lemma {:induction false} RoutedIsSub(ps: seq<Packet>, lwipRunning: bool, way: Route)
    ensures Sub(Routed(ps, lwipRunning, way), ps)
    decreases |ps|
  {
    if ps != [] {
      var rest, last := ps[..|ps| - 1], ps[|ps| - 1];
      var r := Routed(rest, lwipRunning, way);
      RoutedIsSub(rest, lwipRunning, way);
      SubSnoc(r, rest, last);
      assert ps == rest + [last] && r + [] == r;
    }
  }

  lemma SubLeaveOut(a: seq<Packet>, b: seq<Packet>, x: Packet, c: seq<Packet>)
    requires Sub(a, b)
    ensures Sub(a + c, (b + [x]) + c)
  {
    SubSnoc(a, b, x);
    SubRefl(c);
    SubConcat(a, b + [x], c, c);
  }

  lemma PassedOnIsSub(ps: seq<Packet>, q: Query)
    ensures Sub(PassedOn(ps, q), ps)
  {
    var k := FirstMatch(ps, q);
    if k == |ps| {
      WithoutArpIsSub(ps);
    } else {
      WithoutArpIsSub(ps[..k]);
      SubLeaveOut(WithoutArp(ps[..k]), ps[..k], ps[k], ps[k + 1..]);
      assert ps == (ps[..k] + [ps[k]]) + ps[k + 1..];
    }
  }

  /** Spilling keeps the ring and what the NIC still has in arrival order. */
  lemma SpillIsSub(ring: seq<Packet>, ps: seq<Packet>, all: seq<Packet>)
    requires |ring| <= RING_USABLE && Sub(ps, all)
    ensures Sub(Spill(ring, ps), ring + all)
  {
    SubRefl(ring);
    if |ring| + |ps| > RING_USABLE {
      SubPrefix(ps, RING_USABLE - |ring|);
      SubTrans(ps[..RING_USABLE - |ring|], ps, all);
      SubConcat(ring, ring, ps[..RING_USABLE - |ring|], all);
    } else {
      SubConcat(ring, ring, ps, all);
    }
  }
}
