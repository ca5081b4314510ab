/** hw_reqresp_batch: requests sent in groups of 32, then one wait for all the replies. */
module HwBatch {
  import opened Checksum
  import opened Packets
  import opened HwWait
  import opened HwIo

  /** The packet id of request `i`: a 16-bit sum. */
  function IdOf(start: word, i: word): word
  {
    var id: int := start + i;
    if id < 0x1_0000 then id else id - 0x1_0000
  }

  /** The bytes of each request of a batch. */
  function Requests(template: seq<byte>, start: word): word -> seq<byte>
    requires CK_OFFSET + 1 < |template|
  {
    i => PatchedPacket(template, IdOf(start, i))
  }

  /** The frames are the requests with these indices. */
  ghost predicate Carry(ps: seq<Packet>, req: word -> seq<byte>, idx: seq<word>)
  {
    |ps| == |idx| && forall k | 0 <= k < |ps| :: ps[k].data == req(idx[k])
  }

  ghost predicate IncreasingBelow(idx: seq<word>, bound: nat)
  {
    && (forall k | 0 <= k < |idx| :: idx[k] < bound)
    && (forall j, k | 0 <= j < k < |idx| :: idx[j] < idx[k])
  }

  lemma SameBytesSameWord(a: word, b: word)
    requires a / 0x100 == b / 0x100 && a % 0x100 == b % 0x100
    ensures a == b
  {
  }

  /** Two requests of one batch never carry the same packet id, because the count is a 16-bit
      number. */
  lemma DistinctIds(template: seq<byte>, start: word, i: word, j: word)
    requires CK_OFFSET + 1 < |template| && i != j
    ensures Requests(template, start)(i)[ID_OFFSET..ID_OFFSET + 2] != Requests(template, start)(j)[ID_OFFSET..ID_OFFSET + 2]
  {
    var a, b := IdOf(start, i), IdOf(start, j);
    var p, r := PatchedPacket(template, a), PatchedPacket(template, b);
    PacketIdOnTheWire(template, a);
    PacketIdOnTheWire(template, b);
    if p[ID_OFFSET..ID_OFFSET + 2] == r[ID_OFFSET..ID_OFFSET + 2] {
      assert p[ID_OFFSET..ID_OFFSET + 2][0] == r[ID_OFFSET] && p[ID_OFFSET..ID_OFFSET + 2][1] == r[ID_OFFSET + 1];
      SameBytesSameWord(a, b);
      assert false;
    }
  }

  // --- How far phase 1 gets ---

  /** The buffers of a group that come back. */
  function Back(group: nat, accepts: nat): nat { group - Min(group, accepts) }

  /** The size of the group when request `i` joins it. */
  function GroupAt(i: nat): nat { i % BURST }

  /** The pool's size after request `i`. */
  function PoolAfter(free: nat, i: nat, count: nat, accepts: nat): nat
    requires free > 0
  {
    free - 1 + (if GroupAt(i + 1) == 0 || i + 1 == count then Back(GroupAt(i) + 1, accepts) else 0)
  }

  lemma PoolAfterIs(free: nat, i: nat, group: nat, count: nat, accepts: nat)
    requires free > 0 && group == GroupAt(i) + 1
    ensures PoolAfter(free, i, count, accepts) == free - 1 + (if group == BURST || i + 1 == count then Back(group, accepts) else 0)
    ensures if group == BURST then GroupAt(i + 1) == 0 else group == GroupAt(i + 1)
  {
  }

  /** The first request that finds the pool empty, if there are `free` buffers before request `i`. */
  function StopAt(free: nat, i: nat, count: nat, accepts: nat -> nat): (k: nat)
    requires i <= count
    ensures i <= k <= count
    decreases count - i
  {
    if i == count || free == 0 then i else StopAt(PoolAfter(free, i, count, accepts(i + 1)), i + 1, count, accepts)
  }

  lemma StopAtMore(free: nat, i: nat, count: nat, accepts: nat -> nat)
    requires i <= count
    ensures StopAt(free, i, count, accepts)
         == if i == count || free == 0 then i else StopAt(PoolAfter(free, i, count, accepts(i + 1)), i + 1, count, accepts)
  {
  }

  lemma {:induction false} EnoughForAll(free: nat, i: nat, count: nat, accepts: nat -> nat)
    requires i <= count && free >= count - i
    ensures StopAt(free, i, count, accepts) == count
    decreases count - i
  {
    if i < count {
      EnoughForAll(PoolAfter(free, i, count, accepts(i + 1)), i + 1, count, accepts);
    }
  }

  /** The NIC takes every group whole. */
  ghost predicate TakesAll(accepts: nat -> nat) { forall j :: accepts(j) >= BURST }

  lemma {:induction false} EachBufferOnce(free: nat, i: nat, count: nat, accepts: nat -> nat)
    requires i <= count && TakesAll(accepts)
    ensures StopAt(free, i, count, accepts) == Min(count, i + free)
    decreases count - i
  {
    if i < count && free > 0 {
      EachBufferOnce(PoolAfter(free, i, count, accepts(i + 1)), i + 1, count, accepts);
    }
  }

  // --- What goes out ---

  /** A group goes out behind request `i - 1`: it is full, or the last. */
  predicate Due(i: nat, count: nat) { GroupAt(i) == 0 || i == count }

  /** `n` indices in a row. */
  function From(a: nat, n: nat): (s: seq<word>)
    requires a + n <= 0x1_0000
    ensures |s| == n && forall k | 0 <= k < n :: s[k] == a + k
  {
    seq(n, k requires 0 <= k < n => a + k)
  }

  /** The requests that have gone out when `i` have been made: of each group that was due the first so
      many as the NIC took. */
  function Flushed(i: nat, count: word, accepts: nat -> nat): (s: seq<word>)
    requires i <= count
    ensures |s| <= if i == count then i else i - GroupAt(i)
  {
    if i == 0 then []
    else
      Flushed(i - 1, count, accepts)
      + (if Due(i, count) then From(i - 1 - GroupAt(i - 1), Min(GroupAt(i - 1) + 1, accepts(i))) else [])
  }

  lemma FlushedMore(i: nat, g: nat, count: word, accepts: nat -> nat)
    requires i < count && g == GroupAt(i)
    ensures g <= i && From(i - g, g) + [i] == From(i - g, g + 1)
    ensures Flushed(i + 1, count, accepts)
         == Flushed(i, count, accepts) + (if Due(i + 1, count) then From(i - g, g + 1)[..Min(g + 1, accepts(i + 1))] else [])
    ensures if Due(i + 1, count) then i + 1 == count || GroupAt(i + 1) == 0 else i + 1 < count && GroupAt(i + 1) == g + 1
    ensures From(count, 0) == [] && From(i + 1, 0) == []
  {
    NextInGroup(i, g);
    hide GroupAt;
    assert From(i - g, g + 1)[..Min(g + 1, accepts(i + 1))] == From(i - g, Min(g + 1, accepts(i + 1)));
  }

  lemma NextInGroup(i: nat, g: nat)
    requires g == GroupAt(i)
    ensures g <= i && (GroupAt(i + 1) == 0 || GroupAt(i + 1) == g + 1)
  {
  }

  /** The requests that have gone out, one by one: request `j` is among them exactly when its group of
      32, or what there is of the last, was due, and the NIC took the group up to it. */
  lemma {:induction false} FlushedExactly(i: nat, count: word, accepts: nat -> nat, j: word)
    requires i <= count && j < i
    ensures var due := Min(j / 32 * 32 + 32, count);
            j in Flushed(i, count, accepts) <==> due <= i && j % 32 < accepts(due)
    decreases i
  {
    var last := if Due(i, count) then From(i - 1 - GroupAt(i - 1), Min(GroupAt(i - 1) + 1, accepts(i))) else [];
    assert j in Flushed(i, count, accepts) <==> j in Flushed(i - 1, count, accepts) || j in last;
    var start := i - 1 - GroupAt(i - 1);
    assert j in last <==> Due(i, count) && start <= j && j - start < accepts(i) by {
      if Due(i, count) && start <= j && j - start < accepts(i) {
        assert last[j - start] == j;
      }
    }
    SameGroup(i, j, count);
    if j < i - 1 {
      FlushedExactly(i - 1, count, accepts, j);
    } else {
      FlushedBelow(i - 1, count, accepts);
    }
  }

  /** When the group of request `j` is the one that ends behind request `i - 1`. */
  lemma SameGroup(i: nat, j: nat, count: nat)
    requires j < i <= count
    ensures var due, start := Min(j / 32 * 32 + 32, count), i - 1 - GroupAt(i - 1);
            (Due(i, count) && start <= j <==> due == i) && (due == i ==> j - start == j % 32)
  {
    assert GroupAt(i - 1) == (i - 1) - (i - 1) / 32 * 32;
  }

  lemma {:induction false} FlushedBelow(i: nat, count: word, accepts: nat -> nat)
    requires i <= count
    ensures forall x | x in Flushed(i, count, accepts) :: x < i
    decreases i
  {
    if i != 0 {
      FlushedBelow(i - 1, count, accepts);
    }
  }

  lemma {:induction false} FlushedIncreases(i: nat, count: word, accepts: nat -> nat)
    requires i <= count
    ensures IncreasingBelow(Flushed(i, count, accepts), i)
    ensures forall x | x in Flushed(i, count, accepts) :: x < (if i == count then i else i - GroupAt(i))
    decreases i
  {
    if i != 0 {
      FlushedIncreases(i - 1, count, accepts);
      assert GroupAt(i) == 0 || GroupAt(i) == GroupAt(i - 1) + 1;
      var before, last := Flushed(i - 1, count, accepts), if Due(i, count) then From(i - 1 - GroupAt(i - 1), Min(GroupAt(i - 1) + 1, accepts(i))) else [];
      forall j, k | 0 <= j < k < |before + last| ensures (before + last)[j] < (before + last)[k] {
        if j < |before| {
          assert before[j] in before;
        }
      }
    }
  }

  /** A NIC that takes every group whole is handed all requests in their order, but for the stranded. */
  lemma {:induction false} AllGoOut(i: nat, count: word, accepts: nat -> nat)
    requires i <= count && TakesAll(accepts)
    ensures Flushed(i, count, accepts) == From(0, i - Stranded(i, count))
    decreases i
  {
    if i != 0 {
      AllGoOut(i - 1, count, accepts);
      var g := GroupAt(i - 1);
      FullOrMore(i);
      hide GroupAt, From;
      assert Min(g + 1, accepts(i)) == g + 1;
      FromConcat(0, i - 1 - g, g + 1);
    }
  }

  lemma FullOrMore(i: nat)
    requires i != 0
    ensures GroupAt(i - 1) < 32 && GroupAt(i - 1) < i && (GroupAt(i) == 0 || GroupAt(i) == GroupAt(i - 1) + 1)
  {
  }

  lemma FromConcat(a: nat, n: nat, m: nat)
    requires a + n + m <= 0x1_0000
    ensures From(a, n) + From(a + n, m) == From(a, n + m)
    ensures From(a, n) + [] == From(a, n)
  {
  }

  /** How many frames phase 1 strands: those of the group that was not full when it stopped. */
  function Stranded(made: nat, count: nat): nat { if made == count then 0 else GroupAt(made) }

  /** A pool as large as the batch strands nothing.  With a NIC that takes every group whole, a batch
      strands buffers exactly if the pool is smaller than the batch and no multiple of 32. */
  lemma StrandsExactly(free: nat, count: nat, accepts: nat -> nat)
    ensures free >= count ==> StopAt(free, 0, count, accepts) == count && Stranded(StopAt(free, 0, count, accepts), count) == 0
    ensures TakesAll(accepts) ==>
              StopAt(free, 0, count, accepts) == Min(count, free)
              && (Stranded(StopAt(free, 0, count, accepts), count) > 0 <==> free < count && free % 32 != 0)
  {
    if free >= count {
      EnoughForAll(free, 0, count, accepts);
    }
    if TakesAll(accepts) {
      EachBufferOnce(free, 0, count, accepts);
    }
  }

  // --- Phase 1: sending ---

  /** One request in a buffer of its own. */
  method MakeRequest(hw: HwState, template: seq<byte>, packetId: word) returns (p: Option<Packet>)
    requires CK_OFFSET + 1 < |template|
    modifies hw`pool
    ensures p.None? <==> old(hw.pool) == [] || |template| > hw.room
    ensures p.None? ==> hw.Held() == old(hw.Held()) && |hw.pool| == |old(hw.pool)| && (|template| <= hw.room ==> hw.pool == [])
    ensures p.Some? ==> |p.value.segs| == 1 && |hw.pool| == |old(hw.pool)| - 1 && p.value.data == PatchedPacket(template, packetId)
                        && hw.Held() + Count(p.value.segs, hw.buf) == old(hw.Held())
  {
    var m := hw.Alloc();
    if m.None? {
      return None;
    }
    assert Count([m.value], hw.buf) == if m == Some(hw.buf) then 1 else 0 by {
      assert [m.value][1..] == [];
    }
    if |template| > hw.room {
      hw.Free(Packet([m.value], []));
      return None;
    }
    var data := hw.BuildRequest(template, packetId);
    p := Some(Packet([m.value], data));
  }

  /** Every request is one buffer. */
  ghost predicate OneBufferEach(group: seq<Packet>) { forall k | 0 <= k < |group| :: |group[k].segs| == 1 }

  /** A group handed to the NIC, which takes the first `accepts` frames; the others are freed. */
  method Flush(hw: HwState, group: seq<Packet>, accepts: nat) returns (n: nat)
    requires OneBufferEach(group)
    modifies hw`pool, hw`nicTx, hw`txRoom
    ensures n == Min(|group|, accepts) && |hw.pool| == |old(hw.pool)| + |group| - n && hw.nicTx == old(hw.nicTx) + group[..n]
    ensures hw.Held() == old(hw.Held()) + Copies(group, hw.buf)
  {
    hw.txRoom := accepts;
    n := hw.TxBurst(group);
    for k := n to |group|
      invariant hw.nicTx == old(hw.nicTx) + group[..n] && |hw.pool| == |old(hw.pool)| + k - n
      invariant hw.Held() == old(hw.Held()) + Copies(group[..k], hw.buf)
    {
      OneMore(group, k, hw.buf);
      hw.Free(group[k]);
    }
    assert group[..|group|] == group;
  }

  /** Sending is under way: requests `sentIdx` went out behind `tx0`, requests `groupIdx` are
      collected in `group`. */
  ghost predicate Sending(hw: HwState, tx0: seq<Packet>, req: word -> seq<byte>,
                          group: seq<Packet>, groupIdx: seq<word>, sentIdx: seq<word>)
    reads hw
  {
    && tx0 <= hw.nicTx && Carry(hw.nicTx[|tx0|..], req, sentIdx)
    && Carry(group, req, groupIdx) && OneBufferEach(group)
  }

  lemma CarryConcat(a: seq<Packet>, b: seq<Packet>, req: word -> seq<byte>, ai: seq<word>, bi: seq<word>)
    requires Carry(a, req, ai) && Carry(b, req, bi)
    ensures Carry(a + b, req, ai + bi)
  {
  }

  lemma CarryFlush(tx0: seq<Packet>, tx1: seq<Packet>, tx: seq<Packet>, group: seq<Packet>, n: nat,
                   req: word -> seq<byte>, sentIdx: seq<word>, groupIdx: seq<word>)
    requires n <= |group| && tx0 <= tx1 && tx == tx1 + group[..n]
    requires Carry(tx1[|tx0|..], req, sentIdx) && Carry(group, req, groupIdx)
    ensures tx0 <= tx && Carry(tx[|tx0|..], req, sentIdx + groupIdx[..n])
  {
    CarryConcat(tx1[|tx0|..], group[..n], req, sentIdx, groupIdx[..n]);
    assert tx[|tx0|..] == tx1[|tx0|..] + group[..n];
  }

  /** A full group goes out. */
  method FlushGroup(hw: HwState, group: seq<Packet>, accepts: nat, ghost tx0: seq<Packet>,
                    ghost req: word -> seq<byte>, ghost groupIdx: seq<word>, ghost sentIdx: seq<word>)
      returns (n: nat, ghost sentIdx': seq<word>)
    requires Sending(hw, tx0, req, group, groupIdx, sentIdx)
    modifies hw`pool, hw`nicTx, hw`txRoom
    ensures Sending(hw, tx0, req, [], [], sentIdx')
    ensures n == Min(|group|, accepts) && n <= |groupIdx| && sentIdx' == sentIdx + groupIdx[..n]
    ensures |hw.pool| == |old(hw.pool)| + Back(|group|, accepts)
    ensures hw.Held() == old(hw.Held()) + Copies(group, hw.buf)
  {
    ghost var tx1 := hw.nicTx;
    n := Flush(hw, group, accepts);
    sentIdx' := sentIdx + groupIdx[..n];
    CarryFlush(tx0, tx1, hw.nicTx, group, n, req, sentIdx, groupIdx);
  }

  /** One more request joins the group. */
  method AddRequest(hw: HwState, group: seq<Packet>, template: seq<byte>, start: word, i: word,
                    ghost tx0: seq<Packet>, ghost groupIdx: seq<word>, ghost sentIdx: seq<word>)
      returns (ok: bool, group': seq<Packet>, ghost groupIdx': seq<word>)
    requires CK_OFFSET + 1 < |template| && Sending(hw, tx0, Requests(template, start), group, groupIdx, sentIdx)
    modifies hw`pool
    ensures ok <==> old(hw.pool) != [] && |template| <= hw.room
    ensures hw.Held() + Copies(group', hw.buf) == old(hw.Held()) + Copies(group, hw.buf)
    ensures if ok then |group'| == |group| + 1 && groupIdx' == groupIdx + [i] && |hw.pool| == |old(hw.pool)| - 1
                       && Sending(hw, tx0, Requests(template, start), group', groupIdx', sentIdx)
            else group' == group && groupIdx' == groupIdx && |hw.pool| == |old(hw.pool)| && (|template| <= hw.room ==> hw.pool == [])
  {
    var p := MakeRequest(hw, template, IdOf(start, i));
    if p.None? {
      return false, group, groupIdx;
    }
    CopiesSnoc(group, p.value, hw.buf);
    CarryConcat(group, [p.value], Requests(template, start), groupIdx, [i]);
    return true, group + [p.value], groupIdx + [i];
  }

  lemma SameNumber(hw: HwState, tx0: seq<Packet>, req: word -> seq<byte>,
                   group: seq<Packet>, groupIdx: seq<word>, sentIdx: seq<word>)
    requires Sending(hw, tx0, req, group, groupIdx, sentIdx)
    ensures |groupIdx| == |group|
  {
  }

  /** One turn of the loop: a request joins the group, which goes out if it is full or `i` is the last. */
  method SendOne(hw: HwState, group: seq<Packet>, template: seq<byte>, start: word, i: word, count: word,
                 accepts: nat, ghost tx0: seq<Packet>, ghost groupIdx: seq<word>, ghost sentIdx: seq<word>)
      returns (ok: bool, n: nat, group': seq<Packet>, ghost groupIdx': seq<word>, ghost sentIdx': seq<word>)
    requires CK_OFFSET + 1 < |template| && Sending(hw, tx0, Requests(template, start), group, groupIdx, sentIdx)
    requires i < count && |group| == GroupAt(i)
    modifies hw`pool, hw`nicTx, hw`txRoom
    ensures ok <==> old(hw.pool) != [] && |template| <= hw.room
    ensures hw.Held() + Copies(group', hw.buf) == old(hw.Held()) + Copies(group, hw.buf)
    ensures Sending(hw, tx0, Requests(template, start), group', groupIdx', sentIdx')
    ensures |sentIdx'| == |sentIdx| + n
    ensures !ok ==> group' == group && groupIdx' == groupIdx && sentIdx' == sentIdx && (|template| <= hw.room ==> hw.pool == [])
    ensures |hw.pool| + |group'| + n == |old(hw.pool)| + |group|
    ensures ok ==> |hw.pool| == PoolAfter(|old(hw.pool)|, i, count, accepts)
                   && |group'| == (if Due(i + 1, count) then 0 else GroupAt(i + 1)) && |groupIdx| == |group|
                   && groupIdx' == (if Due(i + 1, count) then [] else groupIdx + [i])
                   && sentIdx' == sentIdx + (if Due(i + 1, count) then (groupIdx + [i])[..Min(|group| + 1, accepts)] else [])
  {
    ghost var req := Requests(template, start);
    SameNumber(hw, tx0, req, group, groupIdx, sentIdx);
    hide GroupAt, Sending, PatchedPacket, Copies, PoolAfter, Requests, Back, Due, HwState.Held;
    if hw.pool != [] {
      PoolAfterIs(|hw.pool|, i, |group| + 1, count, accepts);
    }
    n, sentIdx' := 0, sentIdx;
    assert sentIdx + [] == sentIdx;
    ok, group', groupIdx' := AddRequest(hw, group, template, start, i, tx0, groupIdx, sentIdx);
    if ok && (|group'| == BURST || i as nat + 1 == count as nat) {
      n, sentIdx' := FlushGroup(hw, group', accepts, tx0, req, groupIdx', sentIdx);
      group', groupIdx' := [], [];
    }
  }

  /** Before request `i` of `count`: what phase 1 has done since the pool held `free` buffers, the
      NIC had been handed `tx0`, and the one buffer was held in `held` places. */
  ghost predicate Phase1(hw: HwState, template: seq<byte>, start: word, count: word, accepts: nat -> nat,
                         tx0: seq<Packet>, free: nat, held: nat,
                         i: nat, group: seq<Packet>, groupIdx: seq<word>, sent: nat, sentIdx: seq<word>)
    reads hw
    requires CK_OFFSET + 1 < |template|
  {
    && i <= count && sent == |sentIdx| && |group| == |groupIdx| == (if i == count then 0 else GroupAt(i))
    && groupIdx == From(i - |group|, |group|) && sentIdx == Flushed(i, count, accepts)
    && Sending(hw, tx0, Requests(template, start), group, groupIdx, sentIdx)
    && hw.Held() + Copies(group, hw.buf) == held && |hw.pool| + |group| + sent == free
    && if |template| > hw.room then i == 0 else StopAt(|hw.pool|, i, count, accepts) == StopAt(free, 0, count, accepts)
  }

  lemma Phase1Begins(hw: HwState, template: seq<byte>, start: word, count: word, accepts: nat -> nat)
    requires CK_OFFSET + 1 < |template|
    ensures Phase1(hw, template, start, count, accepts, hw.nicTx, |hw.pool|, hw.Held(), 0, [], [], 0, [])
  {
  }

  /** What phase 1 leaves: the requests sent, in order, and the buffers that are in no place any more. */
  ghost predicate Phase1Left(hw: HwState, template: seq<byte>, start: word, count: word, accepts: nat -> nat,
                             tx0: seq<Packet>, free: nat, held: nat,
                             sent: nat, made: nat, sentIdx: seq<word>, stranded: seq<Packet>)
    reads hw
    requires CK_OFFSET + 1 < |template|
  {
    && made == (if |template| > hw.room then 0 else StopAt(free, 0, count, accepts))
    && made <= count && |stranded| == Stranded(made, count) && sent == |sentIdx| && sentIdx == Flushed(made, count, accepts)
    && hw.Held() + Copies(stranded, hw.buf) == held && |hw.pool| + |stranded| + sent == free
    && (made < count && |template| <= hw.room ==> hw.pool == [])
    && tx0 <= hw.nicTx && Carry(hw.nicTx[|tx0|..], Requests(template, start), sentIdx)
  }

  lemma Phase1Ends(hw: HwState, template: seq<byte>, start: word, count: word, accepts: nat -> nat,
                   tx0: seq<Packet>, free: nat, held: nat,
                   i: nat, group: seq<Packet>, groupIdx: seq<word>, sent: nat, sentIdx: seq<word>)
    requires CK_OFFSET + 1 < |template|
    requires Phase1(hw, template, start, count, accepts, tx0, free, held, i, group, groupIdx, sent, sentIdx)
    requires i == count || hw.pool == [] || |template| > hw.room
    ensures Phase1Left(hw, template, start, count, accepts, tx0, free, held, sent, i, sentIdx, group)
  {
    hide Carry, HwState.Held, Copies, Flushed, From, GroupAt;
    StopAtMore(|hw.pool|, i, count, accepts);
  }

  /** One turn of the loop. */
  method SendTurn(hw: HwState, group: seq<Packet>, template: seq<byte>, start: word, i: word, count: word,
                  accepts: nat -> nat, ghost tx0: seq<Packet>, ghost free: nat, ghost held: nat,
                  ghost groupIdx: seq<word>, ghost sent: nat, ghost sentIdx: seq<word>)
      returns (ok: bool, n: nat, group': seq<Packet>, ghost groupIdx': seq<word>, ghost sentIdx': seq<word>)
    requires CK_OFFSET + 1 < |template| && i < count
    requires Phase1(hw, template, start, count, accepts, tx0, free, held, i, group, groupIdx, sent, sentIdx)
    modifies hw`pool, hw`nicTx, hw`txRoom
    ensures Phase1(hw, template, start, count, accepts, tx0, free, held, if ok then i as nat + 1 else i, group', groupIdx', sent + n, sentIdx')
    ensures !ok ==> n == 0 && (hw.pool == [] || |template| > hw.room)
  {
    hide Sending, PatchedPacket, Copies, PoolAfter, Requests, GroupAt, StopAt, Flushed, From, Due, HwState.Held;
    StopAtMore(|hw.pool|, i, count, accepts);
    FlushedMore(i, |group|, count, accepts);
    ok, n, group', groupIdx', sentIdx' := SendOne(hw, group, template, start, i, count, accepts(i as nat + 1), tx0, groupIdx, sentIdx);
  }

  /** Phase 1.  It stops at the first request `made` that gets no buffer, and leaves the group
      collected so far where it is: those buffers (`stranded`) are in no place any more. */
  method SendAll(hw: HwState, template: seq<byte>, start: word, count: word, accepts: nat -> nat)
      returns (sent: nat, ghost made: nat, ghost sentIdx: seq<word>, ghost stranded: seq<Packet>)
    requires CK_OFFSET + 1 < |template|
    modifies hw`pool, hw`nicTx, hw`txRoom
    ensures Phase1Left(hw, template, start, count, accepts, old(hw.nicTx), |old(hw.pool)|, old(hw.Held()), sent, made, sentIdx, stranded)
  {
    hide Phase1, Phase1Left, HwState.Held;
    var group: seq<Packet> := [];
    var i: word := 0;
    ghost var tx0, free, held := hw.nicTx, |hw.pool|, hw.Held();
    ghost var groupIdx: seq<word> := [];
    sent, made, sentIdx, stranded := 0, 0, [], [];
    Phase1Begins(hw, template, start, count, accepts);
    while i < count
      invariant i <= count && Phase1(hw, template, start, count, accepts, tx0, free, held, i, group, groupIdx, sent, sentIdx)
    {
      var ok, n;
      ok, n, group, groupIdx, sentIdx := SendTurn(hw, group, template, start, i, count, accepts, tx0, free, held, groupIdx, sent, sentIdx);
      sent := sent + n;
      if !ok {
        made, stranded := i, group;
        Phase1Ends(hw, template, start, count, accepts, tx0, free, held, i, group, groupIdx, sent, sentIdx);
        return;
      }
      i := i + 1;
    }
    made, stranded := count, group;
    Phase1Ends(hw, template, start, count, accepts, tx0, free, held, i, group, groupIdx, sent, sentIdx);
  }

  /** The loss happens: with a single free buffer, wherever else it was not, two requests lose it. */
  method LoseTheOnlyBuffer(hw: HwState, template: seq<byte>, start: word, accepts: nat -> nat)
    requires CK_OFFSET + 1 < |template| <= hw.room && hw.pool == [hw.buf] && hw.Held() == 1
    modifies hw`pool, hw`nicTx, hw`txRoom
    ensures hw.Held() == 0
  {
    StopAtMore(1, 0, 2, accepts);
    StopAtMore(0, 1, 2, accepts);
    ghost var tx0 := hw.nicTx;
    assert Count(hw.pool, hw.buf) == 1 by {
      assert hw.pool[1..] == [];
    }
    var sent;
    ghost var made, sentIdx, stranded;
    sent, made, sentIdx, stranded := SendAll(hw, template, start, 2, accepts);
    assert hw.nicTx == tx0 && hw.pool == [];
  }

  // --- Phase 2: receiving ---

  /** How many frames match. */
  function MatchCount(ps: seq<Packet>, q: Query): (n: nat)
    ensures n <= |ps|
  {
    if ps == [] then 0
    else MatchCount(ps[..|ps| - 1], q) + (if Matches(ps[|ps| - 1].data, q) then 1 else 0)
  }

  lemma {:induction false} MatchCountConcat(a: seq<Packet>, b: seq<Packet>, q: Query)
    ensures MatchCount(a + b, q) == MatchCount(a, q) + MatchCount(b, q)
    decreases |b|
  {
    if b == [] {
      assert a + b == a;
    } else {
      assert (a + b)[..|a + b| - 1] == a + b[..|b| - 1];
      MatchCountConcat(a, b[..|b| - 1], q);
    }
  }

  lemma NoneMatch(rx: seq<Packet>, q: Query)
    ensures MatchCount(rx[..0], q) == 0
  {
  }

  lemma MatchCountOneMore(ps: seq<Packet>, j: nat, q: Query)
    requires j < |ps|
    ensures MatchCount(ps[..j + 1], q) == MatchCount(ps[..j], q) + (if Matches(ps[j].data, q) then 1 else 0)
  {
    assert ps[..j + 1][..j] == ps[..j];
  }

  /** A 16-bit counter after `n` increments. */
  function Count16(n: nat): word
  {
    if n == 0 then 0
    else
      var c: int := Count16(n - 1) + 1;
      if c == 0x1_0000 then 0 else c
  }

  lemma {:induction false} Count16Is(n: nat)
    ensures Count16(n) == n % 0x1_0000
  {
    if n != 0 {
      Count16Is(n - 1);
    }
  }

  lemma {:induction false} Count16Small(n: nat)
    requires n < 0x1_0000
    ensures Count16(n) == n
  {
    if n != 0 {
      Count16Small(n - 1);
    }
  }

  /** One frame: a match counts, an ARP request is answered, and the frame is freed. */
  method CountOne(hw: HwState, p: Packet, q: Query, mac: seq<byte>, received: word, ghost m: nat) returns (received': word)
    requires hw.Valid() && |mac| == 6 && received == Count16(m)
    modifies hw`pool, hw`nicTx, hw`txRoom, hw`ring
    ensures hw.Valid() && hw.Held() == old(hw.Held()) + Count(p.segs, hw.buf) && hw.ring == old(hw.ring)
    ensures if IsArp(p.data) then old(hw.nicTx) <= hw.nicTx && Answers(hw.nicTx[|old(hw.nicTx)|..], [p], mac)
            else hw.nicTx == old(hw.nicTx)
    ensures Sends(ArpAnswers([p], mac), hw.room, old(hw.Means()), hw.Means())
    ensures received' == Count16(if Matches(p.data, q) then m + 1 else m)
  {
    var c: int := received;
    if Matches(p.data, q) {
      c := if c == 0xFFFF then 0 else c + 1;
    }
    hw.NotAwaited(p, mac, false);
    received' := c;
  }

  /** One burst; `m` frames matched before. */
  method CountBurst(hw: HwState, rx: seq<Packet>, q: Query, mac: seq<byte>, received: word, ghost m: nat)
      returns (received': word)
    requires hw.Valid() && |mac| == 6 && received == Count16(m)
    modifies hw`pool, hw`nicTx, hw`txRoom, hw`ring
    ensures hw.Valid() && hw.Held() == old(hw.Held()) + Copies(rx, hw.buf)
    ensures Scanned(old(hw.ring), old(hw.nicTx), hw.ring, hw.nicTx, rx, mac, false)
    ensures Sends(ArpAnswers(rx, mac), hw.room, old(hw.Means()), hw.Means())
    ensures received' == Count16(m + MatchCount(rx, q))
  {
    hide Sends, ArpAnswers, Scanned, Answers, Copies, FirstMatch, Count16, MatchCount, Matches, IsArp, HwState.Held, Spill, WithoutArp;
    ghost var s0 := hw.Means();
    ScanBegins(hw.ring, hw.nicTx, rx, q, mac, false);
    NoArpAnswers(rx, mac, hw.room, s0);
    FilledNone([], rx, false, 0, hw.buf);
    NoneMatch(rx, q);
    received' := received;
    var j := 0;
    ghost var k := m;
    while j < |rx|
      invariant j <= |rx| && hw.Valid()
      invariant hw.Held() == old(hw.Held()) + Copies(rx[..j], hw.buf)
      invariant Scanned(old(hw.ring), old(hw.nicTx), hw.ring, hw.nicTx, rx[..j], mac, false)
      invariant received' == Count16(k) && k == m + MatchCount(rx[..j], q)
      invariant Sends(ArpAnswers(rx[..j], mac), hw.room, s0, hw.Means())
    {
      ghost var ring1, tx1, s1 := hw.ring, hw.nicTx, hw.Means();
      OneMore(rx, j, hw.buf);
      MatchCountOneMore(rx, j, q);
      received' := CountOne(hw, rx[j], q, mac, received', k);
      k := if Matches(rx[j].data, q) then k + 1 else k;
      ScannedOne(old(hw.ring), old(hw.nicTx), ring1, tx1, hw.ring, hw.nicTx, rx[..j], rx[j], mac, false);
      ArpAnswersSnoc(rx[..j], rx[j], mac);
      SendsMore(ArpAnswers(rx[..j], mac), ArpAnswers([rx[j]], mac), hw.room, s0, s1, hw.Means());
      j := j + 1;
    }
    assert rx[..j] == rx;
  }

  /** The replies so far: `taken` frames were taken from the NIC. */
  ghost predicate Collecting(hw: HwState, rx0: seq<Packet>, ring0: seq<Packet>, s0: Sender, taken: nat,
                             q: Query, mac: seq<byte>, received: word)
    reads hw
    requires |mac| == 6 && |ring0| <= RING_USABLE
  {
    && hw.Valid() && taken <= |rx0| && hw.nicRx == rx0[taken..] && hw.ring == ring0
    && s0.out <= hw.nicTx && Answers(hw.nicTx[|s0.out|..], rx0[..taken], mac)
    && Sends(ArpAnswers(rx0[..taken], mac), hw.room, s0, hw.Means())
    && received == Count16(MatchCount(rx0[..taken], q))
  }

  method CollectBurst(hw: HwState, take: nat, q: Query, mac: seq<byte>, received: word,
                      ghost rx0: seq<Packet>, ghost ring0: seq<Packet>, ghost s0: Sender, ghost t: nat)
      returns (n: nat, received': word, ghost end: nat)
    requires |mac| == 6 && |ring0| <= RING_USABLE && Collecting(hw, rx0, ring0, s0, t, q, mac, received)
    modifies hw`pool, hw`nicRx, hw`nicTx, hw`txRoom, hw`ring
    ensures n == Min(Min(take, BURST), |rx0| - t) && end == t + n && Collecting(hw, rx0, ring0, s0, end, q, mac, received')
    ensures MatchCount(rx0[..end], q) <= MatchCount(rx0[..t], q) + BURST
    ensures hw.Held() == old(hw.Held())
  {
    hide HwState.Held, Count16, Answers, Copies, Sends, ArpAnswers;
    ghost var s1 := hw.Means();
    var rx := hw.NicBurst(BURST, take);
    n := |rx|;
    end := t + n;
    ghost var tx1, m := hw.nicTx, MatchCount(rx0[..t], q);
    TakenMore(rx0, t, rx, hw.nicRx, end);
    MatchCountConcat(rx0[..t], rx, q);
    assert MatchCount(rx, q) <= |rx|;
    hide MatchCount;
    received' := CountBurst(hw, rx, q, mac, received, m);
    AnswersMore(s0.out, tx1, hw.nicTx, rx0[..t], rx, mac);
    ArpAnswersConcat(rx0[..t], rx, mac);
    SendsMore(ArpAnswers(rx0[..t], mac), ArpAnswers(rx, mac), hw.room, s0, s1, hw.Means());
  }

  // When phase 2 ends.

  /** As many replies as requests were counted in the first `t` frames. */
  predicate Enough(rx: seq<Packet>, q: Query, sent: word, t: nat)
    requires t <= |rx|
  {
    Count16(MatchCount(rx[..t], q)) >= sent
  }

  ghost predicate CollectSoFar(rx: seq<Packet>, q: Query, sent: word, polls: seq<Poll>, used: nat, taken: nat, expired: bool)
  {
    && used <= |polls| && taken == TakenBy(|rx|, polls, used)
    && (forall k | 0 <= k < used - 1 :: !BatchGivesUp(|rx|, polls, k))
    && (forall k | 0 <= k < used :: !Enough(rx, q, sent, TakenBy(|rx|, polls, k)))
    && (expired <==> used > 0 && BatchGivesUp(|rx|, polls, used - 1))
  }

  /** The replies are there before the deadline is found to have passed. */
  ghost predicate AllInTime(rx: seq<Packet>, q: Query, sent: word, polls: seq<Poll>)
  {
    exists k | 0 <= k <= |polls| ::
      Enough(rx, q, sent, TakenBy(|rx|, polls, k)) && forall j | 0 <= j < k :: !BatchGivesUp(|rx|, polls, j)
  }

  /** The deadline is found to have passed before they are. */
  ghost predicate BatchTooLate(rx: seq<Packet>, q: Query, sent: word, polls: seq<Poll>)
  {
    exists k | 0 <= k < |polls| ::
      BatchGivesUp(|rx|, polls, k) && forall j | 0 <= j <= k + 1 :: !Enough(rx, q, sent, TakenBy(|rx|, polls, j))
  }

  lemma CollectMore(rx: seq<Packet>, q: Query, sent: word, polls: seq<Poll>, p: nat, t: nat, n: nat, e: nat, expired: bool)
    requires p < |polls| && CollectSoFar(rx, q, sent, polls, p, t, false) && !Enough(rx, q, sent, t)
    requires n == Min(Min(polls[p].take, BURST), |rx| - t) && e == EmptyRow(|rx|, polls, p) % 64
    requires expired <==> n == 0 && e + 1 == 64 && polls[p].expired
    ensures CollectSoFar(rx, q, sent, polls, p + 1, t + n, expired)
    ensures EmptyRow(|rx|, polls, p + 1) % 64 == if n != 0 || e + 1 == 64 then 0 else e + 1
  {
    hide Enough;
  }

  lemma NoneCollected(rx: seq<Packet>, q: Query, sent: word, polls: seq<Poll>)
    ensures CollectSoFar(rx, q, sent, polls, 0, 0, false) && EmptyRow(|rx|, polls, 0) == 0
  {
  }

  /** What phase 1 of a batch does is decided by whether the template `fits`, the `free` buffers and what
      the NIC takes: how many requests are made, which are sent, and how many buffers are stranded. */
  ghost predicate SentAsDecided(fits: bool, free: nat, count: word, accepts: nat -> nat,
                                made: nat, sentIdx: seq<word>, stranded: nat)
  {
    && made == (if fits then StopAt(free, 0, count, accepts) else 0)
    && made <= count && stranded == Stranded(made, count)
    && (fits && free >= count ==> made == count && stranded == 0)
    && (fits && TakesAll(accepts) ==> made == Min(count, free) && (stranded > 0 <==> free < count && free % 32 != 0))
    && sentIdx == Flushed(made, count, accepts) && IncreasingBelow(sentIdx, made)
    && (TakesAll(accepts) ==> |sentIdx| == made - stranded && sentIdx == From(0, made - stranded))
  }

  lemma SentDecided(fits: bool, free: nat, count: word, accepts: nat -> nat, made: nat)
    requires made == if fits then StopAt(free, 0, count, accepts) else 0
    ensures made <= count && SentAsDecided(fits, free, count, accepts, made, Flushed(made, count, accepts), Stranded(made, count))
  {
    StrandsExactly(free, count, accepts);
    FlushedIncreases(made, count, accepts);
    if TakesAll(accepts) {
      AllGoOut(made, count, accepts);
    }
  }

  /** A batch that is over has its result from the schedule and the NIC alone. */
  lemma CollectDecided(rx: seq<Packet>, q: Query, sent: word, polls: seq<Poll>, used: nat, taken: nat, expired: bool)
    requires CollectSoFar(rx, q, sent, polls, used, taken, expired)
    requires Enough(rx, q, sent, taken) || expired || used == |polls|
    ensures taken == TakenBy(|rx|, polls, used)
    ensures Enough(rx, q, sent, taken) <==> AllInTime(rx, q, sent, polls)
    ensures expired && !Enough(rx, q, sent, taken) <==> BatchTooLate(rx, q, sent, polls)
  {
    hide Enough, BatchGivesUp, TakenBy;
    if Enough(rx, q, sent, taken) {
      EnoughComesAlone(rx, q, sent, polls, used);
    } else if expired {
      assert BatchGivesUp(|rx|, polls, used - 1);
    }
  }

  /** A burst that brings the last reply is not empty. */
  lemma EnoughComesAlone(rx: seq<Packet>, q: Query, sent: word, polls: seq<Poll>, used: nat)
    requires used <= |polls| && Enough(rx, q, sent, TakenBy(|rx|, polls, used))
    requires forall k | 0 <= k < used :: !Enough(rx, q, sent, TakenBy(|rx|, polls, k))
    ensures used > 0 ==> !BatchGivesUp(|rx|, polls, used - 1)
  {
    hide Enough;
  }

  /** Phase 2.  The deadline is looked at only after 64 empty bursts in a row. */
  method Collect(hw: HwState, sent: word, q: Query, mac: seq<byte>, polls: seq<Poll>)
      returns (received: word, done: bool, ghost taken: nat, ghost used: nat)
    requires hw.Valid() && |mac| == 6
    modifies hw`pool, hw`nicRx, hw`nicTx, hw`txRoom, hw`ring
    ensures Collecting(hw, old(hw.nicRx), old(hw.ring), old(hw.Means()), taken, q, mac, received)
    ensures hw.Held() == old(hw.Held())
    ensures sent + BURST <= 0x1_0000 ==>
              received == MatchCount(old(hw.nicRx)[..taken], q) && (received < sent + BURST)
    ensures used <= |polls| && taken == TakenBy(|old(hw.nicRx)|, polls, used)
    ensures received >= sent <==> AllInTime(old(hw.nicRx), q, sent, polls)
    ensures done && received < sent <==> BatchTooLate(old(hw.nicRx), q, sent, polls)
    ensures received >= sent ==> done
    ensures !done ==> used == |polls|
  {
    hide HwState.Held, CollectSoFar, EmptyRow, TakenBy, Sends, ArpAnswers;
    var emptyPolls, p := 0, 0;
    ghost var rx0, ring0, s0 := hw.nicRx, hw.ring, hw.Means();
    NoArpAnswers(rx0, mac, hw.room, s0);
    received, done, taken := 0, false, 0;
    NoneCollected(rx0, q, sent, polls);
    while p < |polls| && received < sent && !done
      invariant p <= |polls|
      invariant Collecting(hw, rx0, ring0, s0, taken, q, mac, received)
      invariant CollectSoFar(rx0, q, sent, polls, p, taken, done) && emptyPolls == EmptyRow(|rx0|, polls, p) % 64
      invariant hw.Held() == old(hw.Held())
      invariant sent + BURST <= 0x1_0000 ==> received == MatchCount(rx0[..taken], q) <= sent + BURST - 1
    {
      var n;
      ghost var t, e := taken, emptyPolls;
      n, received, taken := CollectBurst(hw, polls[p].take, q, mac, received, rx0, ring0, s0, taken);
      if sent + BURST <= 0x1_0000 {
        Count16Small(MatchCount(rx0[..taken], q));
      }
      emptyPolls := if n == 0 then emptyPolls + 1 else 0;
      if emptyPolls >= 64 {
        emptyPolls := 0;
        done := polls[p].expired;
      }
      CollectMore(rx0, q, sent, polls, p, t, n, e, done);
      p := p + 1;
    }
    used := p;
    CollectDecided(rx0, q, sent, polls, used, taken, done);
    done := done || received >= sent;
  }

  /** What a batch hands to the NIC: up to `mid` its requests, then answers to ARP. */
  ghost predicate SentThenAnswered(tx0: seq<Packet>, mid: seq<Packet>, tx: seq<Packet>, sentIdx: seq<word>, req: word -> seq<byte>,
                                   taken: seq<Packet>, mac: seq<byte>)
    requires |mac| == 6
  {
    tx0 <= mid <= tx && Carry(mid[|tx0|..], req, sentIdx) && Answers(tx[|mid|..], taken, mac)
  }

  /** The whole call.  `code` is None when the schedule ended while it was still waiting. */
  method ReqRespBatch(hw: HwState, template: seq<byte>, start: word, count: word, q: Query, mac: seq<byte>,
                      accepts: nat -> nat, polls: seq<Poll>)
      returns (code: Option<int>, sent: word, received: word,
               ghost made: nat, ghost sentIdx: seq<word>, ghost stranded: seq<Packet>, ghost taken: nat, ghost mid: Sender)
    requires hw.Valid() && |mac| == 6 && CK_OFFSET + 1 < |template|
    modifies hw`pool, hw`nicRx, hw`nicTx, hw`txRoom, hw`ring
    ensures hw.Valid() && hw.Held() + Copies(stranded, hw.buf) == old(hw.Held())
    ensures SentAsDecided(|template| <= hw.room, |old(hw.pool)|, count, accepts, made, sentIdx, |stranded|) && sent == |sentIdx|
    ensures taken <= |old(hw.nicRx)| && hw.nicRx == old(hw.nicRx)[taken..] && hw.ring == old(hw.ring)
    ensures SentThenAnswered(old(hw.nicTx), mid.out, hw.nicTx, sentIdx, Requests(template, start), old(hw.nicRx)[..taken], mac)
    ensures mid.pool == |old(hw.pool)| - sent - |stranded|
    ensures Sends(ArpAnswers(old(hw.nicRx)[..taken], mac), hw.room, mid, hw.Means())
    ensures received == Count16(MatchCount(old(hw.nicRx)[..taken], q))
    ensures sent + BURST <= 0x1_0000 ==> received == MatchCount(old(hw.nicRx)[..taken], q) <= sent + BURST - 1
    ensures code.Some? ==> code.value == if count == 0 || (sent != 0 && received == sent) then 0 else if sent == 0 then -1 else 1
    ensures code.None? ==> received < sent
    ensures sent != 0 ==> (received >= sent <==> AllInTime(old(hw.nicRx), q, sent, polls))
    ensures code == Some(1) && received < sent <==> sent != 0 && BatchTooLate(old(hw.nicRx), q, sent, polls)
  {
    made, sentIdx, stranded, taken, sent, received, code := 0, [], [], 0, 0, 0, Some(0);
    ghost var fits, free := |template| <= hw.room, |hw.pool|;
    SentDecided(fits, free, count, accepts, if fits then StopAt(free, 0, count, accepts) else 0);
    hide SentAsDecided, HwState.Held, StopAt, Flushed, AllInTime, BatchTooLate, Requests, Copies, Sends, ArpAnswers, MatchCount;
    ghost var rx0 := hw.nicRx;
    mid := hw.Means();
    NoArpAnswers(rx0, mac, hw.room, mid);
    NoneMatch(rx0, q);
    if count == 0 {
      return;
    }
    var total;
    total, made, sentIdx, stranded := SendAll(hw, template, start, count, accepts);
    sent := total;
    mid := hw.Means();
    NoArpAnswers(rx0, mac, hw.room, mid);
    if sent == 0 {
      code := Some(-1);
      return;
    }
    var done;
    ghost var used;
    received, done, taken, used := Collect(hw, sent, q, mac, polls);
    code := if !done then None else if received == sent then Some(0) else Some(1);
  }
}
