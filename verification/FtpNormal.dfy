/** The other direction of transfer completeness: a server that does what it should is understood.
    However its replies are cut into pieces and mixed with the data, what the client makes of them is
    settled by the codes it acts on, and those are the server's replies, once each and in order. */
module FtpNormal {
  import opened Checksum
  import opened FtpReply
  import opened FtpPasv
  import opened FtpSession

  predicate Fits(lines: seq<string>) { IsReply(lines) && |Text(lines)| <= BUFFER_USABLE }

  /** The pieces of a reply to PASV that gives an address. */
  predicate GivesAddress(pasv: seq<string>, pieces: seq<string>)
  {
    Fits(pasv) && ReplyCode(pasv) == 227 && ParsePasv(Text(pasv)).Some? && Joined(pieces) == Text(pasv)
  }

  /** Pieces of the control connection, while calls back into lwIP succeed. */
  function Said(pieces: seq<string>): seq<Event>
  {
    if pieces == [] then [] else [CtrlData(pieces[0], true, true)] + Said(pieces[1..])
  }

  /** Nothing but traffic: pieces of replies, pieces of data, acknowledgements. */
  predicate Traffic(events: seq<Event>)
  {
    forall i | 0 <= i < |events| :: events[i].CtrlData? || events[i].DataData? || events[i].DataSent?
  }

  /** The pieces of the control connection in between. */
  function Pieces(events: seq<Event>): seq<string>
  {
    if events == [] then []
    else if events[0].CtrlData? then [events[0].piece] + Pieces(events[1..])
    else Pieces(events[1..])
  }

  /** The bytes of the data connection. */
  function Stream(events: seq<Event>): seq<byte>
  {
    if events == [] then []
    else if events[0].DataData? then events[0].chunk + Stream(events[1..])
    else Stream(events[1..])
  }

  /** The chances to write. */
  function Sends(events: seq<Event>): seq<seq<Write>>
  {
    if events == [] then []
    else if events[0].DataSent? then [events[0].writes] + Sends(events[1..])
    else Sends(events[1..])
  }

  /** The commands of a whole transfer. */
  function Commands(before: seq<string>, op: Op): seq<string> { before + ["PASV\r\n", Command(op)] }

  lemma CommandsAre(before: seq<string>, op: Op)
    ensures Commands(before, op) == (before + ["PASV\r\n"]) + [Command(op)]
  {
    hide Command;
  }

  // --- One event at a time ---

  lemma RunFront(s: Session, events: seq<Event>)
    requires Sound(s) && events != []
    ensures Run(s, events) == Run(Deliver(s, events[0]), events[1..])
  {
    hide Deliver;
    assert events == [events[0]] + events[1..] && [events[0]][..0] == [];
    RunConcat(s, [events[0]], events[1..]);
  }

  /** What a piece does, when no address is awaited. */
  lemma Hears(s: Session, e: Event)
    requires Sound(s) && s.ctrl && e.CtrlData? && s.ctl.st != WaitPasv
    ensures var f := Feed(s.resp, e.piece);
            |f.acts| <= 1 && Deliver(s, e)
            == if f.acts == [] then s.(resp := f.buf)
               else s.(ctl := React(s.ctl, f.acts[0], None, true, true), code := f.acts[0], resp := f.buf)
  {
    hide LastCode, ParsePasv;
  }

  // --- The reply to PASV ---

  lemma SaidFront(s: Session, pieces: seq<string>)
    requires Sound(s) && pieces != []
    ensures Run(s, Said(pieces)) == Run(Deliver(s, CtrlData(pieces[0], true, true)), Said(pieces[1..]))
  {
    hide Deliver, Run;
    RunFront(s, Said(pieces));
    assert Said(pieces)[1..] == Said(pieces[1..]);
  }

  /** Nothing comes of empty pieces. */
  lemma {:induction false} NothingSaid(s: Session, pieces: seq<string>)
    requires Sound(s) && s.resp == [] && Joined(pieces) == []
    ensures Run(s, Said(pieces)) == s
    decreases |pieces|
  {
    hide ParsePasv, React;
    if pieces != [] {
      assert pieces[0] == [] && Joined(pieces[1..]) == [];
      SaidFront(s, pieces);
      assert Appended([], []) == [] && LastCode([]) == -1;
      assert Deliver(s, CtrlData(pieces[0], true, true)) == s;
      NothingSaid(s, pieces[1..]);
    }
  }

  /** The state in which the address is awaited and that in which the data connection comes up. */
  predicate Asked(s: Session) { Sound(s) && s.ctrl && s.ctl.st == WaitPasv }

  function Dialled(s: Session, pasv: seq<string>): Session
    requires IsReply(pasv) && ParsePasv(Text(pasv)).Some?
  {
    s.(ctl := s.ctl.(data := true, st := DataConnecting), code := 227, resp := [], pasv := ParsePasv(Text(pasv)).value)
  }

  lemma PasvPiece(s: Session, piece: string)
    requires Asked(s) && |s.resp + piece| <= BUFFER_USABLE
    ensures LastCode(s.resp + piece) < 0 ==> Deliver(s, CtrlData(piece, true, true)) == s.(resp := s.resp + piece)
    ensures LastCode(s.resp + piece) == 227 && ParsePasv(s.resp + piece).Some?
        ==> Deliver(s, CtrlData(piece, true, true))
            == s.(ctl := s.ctl.(data := true, st := DataConnecting), code := 227, resp := [], pasv := ParsePasv(s.resp + piece).value)
  {
    hide LastCode, ParsePasv;
    assert piece[..|piece|] == piece;
  }

  /** However the reply is cut, the address that is taken from it is the one in its whole text. */
  lemma {:induction false} PasvHeard(s: Session, pasv: seq<string>, pieces: seq<string>)
    requires Asked(s) && Fits(pasv) && ReplyCode(pasv) == 227 && ParsePasv(Text(pasv)).Some?
    requires |s.resp| < |Text(pasv)| && Text(pasv) == s.resp + Joined(pieces)
    ensures Run(s, Said(pieces)) == Dialled(s, pasv)
    decreases |pieces|
  {
    hide ParsePasv, LastCode, Text, Deliver, Run, IsReply, ReplyCode;
    assert pieces != [];
    var piece, rest := pieces[0], pieces[1..];
    var now := s.resp + piece;
    SaidFront(s, pieces);
    Regroup(s.resp, piece, Joined(rest));
    PasvPiece(s, piece);
    if |now| < |Text(pasv)| {
      PrefixIsIncomplete(pasv, |now|);
      PasvHeard(s.(resp := now), pasv, rest);
    } else {
      ReplyIsComplete(pasv);
      NothingSaid(Dialled(s, pasv), rest);
    }
  }

  // --- What the codes decide ---

  /** In SENDING_CMD the client lets every 1xx pass. */
  predicate AllPreliminary(acts: seq<int>) { forall i | 0 <= i < |acts| :: 100 <= acts[i] < 200 }

  /** In WAIT_DONE only 150 and 125 may come before the 226; what comes after it is of no account. */
  predicate EndsWell(acts: seq<int>)
  {
    acts != [] && (acts[0] == 226 || ((acts[0] == 150 || acts[0] == 125) && EndsWell(acts[1..])))
  }

  /** An operation that is over, with its data connection gone, stays as it is. */
  lemma {:induction false} Settled(s: Session, events: seq<Event>)
    requires Sound(s) && s.ctrl && Traffic(events) && !s.ctl.data
    requires s.ctl.st == Error || s.ctl == Ctl(Ready, true, 0, false)
    ensures var r := Run(s, events); r.ctl == s.ctl && r.received == s.received && r.written == s.written && r.cmds == s.cmds
    decreases |events|
  {
    hide Feed;
    if events != [] {
      RunFront(s, events);
      if events[0].CtrlData? {
        Hears(s, events[0]);
      }
      Settled(Deliver(s, events[0]), events[1..]);
    }
  }

  predicate Well(c: Ctl) { c.opDone && c.opResult == 0 }

  /** With the data connection gone and the reply awaited, the codes decide. */
  lemma {:induction false} LastReply(s: Session, events: seq<Event>)
    requires Sound(s) && s.ctrl && Traffic(events) && s.ctl.st == WaitDone && !s.ctl.data && !Well(s.ctl)
    ensures var r, acts := Run(s, events), FeedAll(s.resp, Pieces(events)).acts;
            && r.received == s.received && r.written == s.written && r.cmds == s.cmds
            && (Well(r.ctl) <==> EndsWell(acts)) && (EndsWell(acts) ==> r.ctl == Ctl(Ready, true, 0, false))
    decreases |events|, 0
  {
    hide Feed, FeedAll;
    if events == [] {
      FedNothing(s.resp);
    } else {
      RunFront(s, events);
      var e, s1 := events[0], Deliver(s, events[0]);
      if e.CtrlData? {
        Hears(s, e);
        FeedFront(s.resp, Pieces(events));
        assert Pieces(events)[1..] == Pieces(events[1..]);
        LastReplyAct(s, e, s1, events[1..]);
      } else {
        LastReply(s1, events[1..]);
      }
    }
  }

  /** The same, where the first event is a piece. */
  lemma {:induction false} LastReplyAct(s: Session, e: Event, s1: Session, rest: seq<Event>)
    requires Sound(s) && s.ctrl && Traffic(rest) && s.ctl.st == WaitDone && !s.ctl.data && !Well(s.ctl)
    requires e.CtrlData? && s1 == Deliver(s, e)
    ensures var f := Feed(s.resp, e.piece);
            var r, acts := Run(s1, rest), f.acts + FeedAll(f.buf, Pieces(rest)).acts;
            && r.received == s.received && r.written == s.written && r.cmds == s.cmds
            && (Well(r.ctl) <==> EndsWell(acts)) && (EndsWell(acts) ==> r.ctl == Ctl(Ready, true, 0, false))
    decreases |rest|, 1
  {
    hide Feed, FeedAll;
    Hears(s, e);
    var f := Feed(s.resp, e.piece);
    var later := FeedAll(f.buf, Pieces(rest)).acts;
    if f.acts == [] {
      assert [] + later == later;
      LastReply(s1, rest);
    } else {
      assert (f.acts + later)[0] == f.acts[0] && (f.acts + later)[1..] == later;
      if f.acts[0] == 150 || f.acts[0] == 125 {
        LastReply(s1, rest);
      } else {
        Settled(s1, rest);
      }
    }
  }

  // --- Downloads ---

  /** A download whose command is out and whose data comes in. */
  predicate Loading(s: Session)
  {
    Sound(s) && s.ctrl && s.ctl == Ctl(SendingCmd, false, 0, true) && s.hasBuf && !s.isUpload && s.pending == []
  }

  lemma ChunkStored(s: Session, bytes: seq<byte>, chunk: seq<byte>)
    requires Sound(s) && s.ctl.data && s.hasBuf && s.received == FirstBytes(bytes, s.capacity)
    ensures Deliver(s, DataData(chunk)) == s.(received := FirstBytes(bytes + chunk, s.capacity))
  {
    hide FirstBytes;
    StoredMore(bytes, chunk, s.capacity);
  }

  /** While the data comes in: with nothing but 1xx codes the stream is stored, else the operation has
      failed. */
  lemma {:induction false} DataComesIn(s: Session, bytes: seq<byte>, events: seq<Event>)
    requires Loading(s) && Traffic(events) && s.received == FirstBytes(bytes, s.capacity)
    ensures var r, f := Run(s, events), FeedAll(s.resp, Pieces(events));
            if AllPreliminary(f.acts)
            then r == s.(resp := f.buf, code := r.code, received := FirstBytes(bytes + Stream(events), s.capacity))
            else Failed(r)
    decreases |events|, 0
  {
    hide Feed, FeedAll, FirstBytes;
    if events == [] {
      FedNothing(s.resp);
      assert bytes + [] == bytes;
    } else {
      RunFront(s, events);
      var e, s1 := events[0], Deliver(s, events[0]);
      if e.CtrlData? {
        FeedFront(s.resp, Pieces(events));
        assert Pieces(events)[1..] == Pieces(events[1..]) && Stream(events) == Stream(events[1..]);
        PieceComesIn(s, bytes, e, s1, events[1..]);
      } else if e.DataData? {
        ChunkStored(s, bytes, e.chunk);
        DataComesIn(s1, bytes + e.chunk, events[1..]);
        assert bytes + e.chunk + Stream(events[1..]) == bytes + Stream(events);
      } else {
        DataComesIn(s1, bytes, events[1..]);
      }
    }
  }

  lemma {:induction false} PieceComesIn(s: Session, bytes: seq<byte>, e: Event, s1: Session, rest: seq<Event>)
    requires Loading(s) && Traffic(rest) && s.received == FirstBytes(bytes, s.capacity) && e.CtrlData? && s1 == Deliver(s, e)
    ensures var f := Feed(s.resp, e.piece);
            var r, g := Run(s1, rest), FeedAll(f.buf, Pieces(rest));
            if AllPreliminary(f.acts + g.acts)
            then r == s.(resp := g.buf, code := r.code, received := FirstBytes(bytes + Stream(rest), s.capacity))
            else Failed(r)
    decreases |rest|, 1
  {
    hide Feed, FeedAll, FirstBytes;
    Hears(s, e);
    var f := Feed(s.resp, e.piece);
    var g := FeedAll(f.buf, Pieces(rest));
    PreliminaryConcat(f.acts, g.acts);
    if AllPreliminary(f.acts) {
      DataComesIn(s1, bytes, rest);
    } else {
      FailedForGood(s1, rest);
    }
  }

  lemma PreliminaryConcat(a: seq<int>, b: seq<int>)
    ensures AllPreliminary(a + b) <==> AllPreliminary(a) && AllPreliminary(b)
  {
    if AllPreliminary(a + b) {
      forall i | 0 <= i < |a| ensures 100 <= a[i] < 200 { assert (a + b)[i] == a[i]; }
      forall i | 0 <= i < |b| ensures 100 <= b[i] < 200 { assert (a + b)[|a| + i] == b[i]; }
    }
  }

  /** The opening of a download: the address, however it is cut, the connection, the command. */
  lemma DownloadOpens(s: Session, op: Op, capacity: nat, pasv: seq<string>, first: seq<string>)
    requires Sound(s) && s.ctrl && !s.ctl.data && !op.Stor?
    requires GivesAddress(pasv, first)
    ensures var r := Run(Start(s, op, true, capacity, true), Said(first) + [DataConnected(true, true, [])]);
            && Loading(r) && r.received == [] && r.capacity == capacity && r.resp == []
            && r.cmds == Commands(s.cmds, op)
  {
    hide ParsePasv, LastCode, Text, Command;
    var start := Start(s, op, true, capacity, true);
    assert [] + Text(pasv) == Text(pasv);
    TextIsLong(pasv);
    PasvHeard(start, pasv, first);
    RunMore(start, Said(first), DataConnected(true, true, []));
    CommandsAre(s.cmds, op);
  }

  lemma TextIsLong(lines: seq<string>)
    requires IsReply(lines)
    ensures |Text(lines)| > 0
  {
  }

  /** A download from its PASV on: traffic, the peer's close, and more traffic. */
  function Transcript(first: seq<string>, before: seq<Event>, after: seq<Event>): seq<Event>
  {
    (Said(first) + [DataConnected(true, true, [])]) + (before + ([DataClosed] + after))
  }

  /** Whether the codes of a download are in order: 1xx before the close, 150 or 125 and then 226 after. */
  predicate InOrder(before: seq<Event>, after: seq<Event>)
  {
    var early := FeedAll([], Pieces(before));
    AllPreliminary(early.acts) && EndsWell(FeedAll(early.buf, Pieces(after)).acts)
  }

  /** A download ends well exactly if its codes are in order, whatever the pieces; and then its command
      was sent once, and the beginning of the stream is in the buffer. */
  lemma DownloadExactly(s: Session, op: Op, capacity: nat, pasv: seq<string>, first: seq<string>,
                        before: seq<Event>, after: seq<Event>)
    requires Sound(s) && s.ctrl && !s.ctl.data && !op.Stor? && Traffic(before) && Traffic(after)
    requires GivesAddress(pasv, first)
    ensures var r := Run(Start(s, op, true, capacity, true), Transcript(first, before, after));
            && (Well(r.ctl) <==> InOrder(before, after))
            && (InOrder(before, after) ==> r.ctl == Ctl(Ready, true, 0, false) && r.received == FirstBytes(Stream(before), capacity)
                                           && r.cmds == Commands(s.cmds, op))
  {
    hide ParsePasv, Text, Command, Deliver, Start, FirstBytes, FeedAll;
    var start, e1 := Start(s, op, true, capacity, true), Said(first) + [DataConnected(true, true, [])];
    DownloadOpens(s, op, capacity, pasv, first);
    var s1 := Run(start, e1);
    RunConcat(start, e1, before + ([DataClosed] + after));
    RunConcat(s1, before, [DataClosed] + after);
    StoredNone(capacity);
    DataComesIn(s1, [], before);
    assert [] + Stream(before) == Stream(before);
    var s2 := Run(s1, before);
    if AllPreliminary(FeedAll([], Pieces(before)).acts) {
      CloseThenReply(s2, after);
    } else {
      FailedForGood(s2, [DataClosed] + after);
    }
  }

  lemma StoredNone(n: nat)
    ensures FirstBytes([], n) == []
  {
  }

  lemma CloseThenReply(s: Session, after: seq<Event>)
    requires Loading(s) && Traffic(after)
    ensures var r, acts := Run(s, [DataClosed] + after), FeedAll(s.resp, Pieces(after)).acts;
            && r.received == s.received && r.cmds == s.cmds
            && (Well(r.ctl) <==> EndsWell(acts)) && (EndsWell(acts) ==> r.ctl == Ctl(Ready, true, 0, false))
  {
    hide FeedAll;
    var events := [DataClosed] + after;
    assert events[0] == DataClosed && events[1..] == after;
    RunFront(s, events);
    LastReply(Deliver(s, DataClosed), after);
  }

  // --- Replies ---

  /** The opening messages of a transfer and its 226. */
  predicate Openings(replies: seq<seq<string>>)
  {
    forall r | r in replies :: Fits(r) && (ReplyCode(r) == 150 || ReplyCode(r) == 125)
  }

  /** Each reply comes in pieces of its own. */
  ghost predicate Delivered(replies: seq<seq<string>>, deliveries: seq<seq<string>>)
  {
    |replies| == |deliveries| && forall i | 0 <= i < |replies| :: Joined(deliveries[i]) == Text(replies[i])
  }

  /** The server's replies in a transfer: opening messages and a 226, each in pieces of its own; the
      client gets the pieces `a` and then `b`, and the end of the 226 is in `b`. */
  ghost predicate Replies(openings: seq<seq<string>>, deliveries: seq<seq<string>>, done: seq<string>, last: seq<string>,
                          a: seq<string>, b: seq<string>)
  {
    && Openings(openings) && Delivered(openings, deliveries) && Fits(done) && ReplyCode(done) == 226
    && Joined(last) == Text(done) && a + b == Flat(deliveries) + last && Joined(b) != []
  }

  predicate AllOpening(acts: seq<int>) { forall i | 0 <= i < |acts| :: acts[i] == 150 || acts[i] == 125 }

  lemma {:induction false} OpeningCodes(replies: seq<seq<string>>)
    requires Openings(replies)
    ensures AllOpening(Codes(replies))
    decreases |replies|
  {
    hide Text, IsReply;
    if replies != [] {
      assert replies[0] in replies;
      OpeningCodes(replies[1..]);
    }
  }

  lemma {:induction false} EndsWellAfter(acts: seq<int>, more: seq<int>)
    requires AllOpening(acts)
    ensures EndsWell(acts + more) <==> EndsWell(more)
    decreases |acts|
  {
    if acts == [] {
      assert [] + more == more;
    } else {
      assert (acts + more)[0] == acts[0] && (acts + more)[1..] == acts[1..] + more;
      forall i | 0 <= i < |acts[1..]| ensures acts[1..][i] == 150 || acts[1..][i] == 125 { assert acts[1..][i] == acts[i + 1]; }
      EndsWellAfter(acts[1..], more);
    }
  }

  /** Pieces that stop short of the reply's end are not acted on. */
  lemma {:induction false} PartDelivered(lines: seq<string>, buf: string, pieces: seq<string>, rest: string)
    requires Fits(lines) && Text(lines) == buf + Joined(pieces) + rest && rest != []
    ensures |buf| <= BUFFER_USABLE && FeedAll(buf, pieces).acts == []
    decreases |pieces|
  {
    hide LastCode, Text;
    if pieces != [] {
      var now := buf + pieces[0];
      assert pieces[0][..|pieces[0]|] == pieces[0] && Appended(buf, pieces[0]) == now;
      assert Text(lines) == now + Joined(pieces[1..]) + rest && Text(lines)[..|now|] == now;
      PrefixIsIncomplete(lines, |now|);
      PartDelivered(lines, now, pieces[1..], rest);
    }
  }

  lemma {:induction false} JoinedConcat(a: seq<string>, b: seq<string>)
    ensures Joined(a + b) == Joined(a) + Joined(b)
    decreases |a|
  {
    if a == [] {
      assert a + b == b;
    } else {
      assert (a + b)[0] == a[0] && (a + b)[1..] == a[1..] + b;
      JoinedConcat(a[1..], b);
    }
  }

  /** What is acted on when the replies have come in whole. */
  lemma WholeCodes(openings: seq<seq<string>>, deliveries: seq<seq<string>>, done: seq<string>, last: seq<string>)
    requires Openings(openings) && Delivered(openings, deliveries) && Fits(done) && ReplyCode(done) == 226 && Joined(last) == Text(done)
    ensures FeedAll([], Flat(deliveries)) == Fed([], Codes(openings)) && AllOpening(Codes(openings))
    ensures FeedAll([], Flat(deliveries) + last).acts == Codes(openings) + [226]
  {
    hide FeedAll, Text, Joined, Codes, Flat, ReplyCode;
    ActsOncePerReplyInOrder(openings, deliveries);
    OpeningCodes(openings);
    ActsOncePerReply(done, last);
    FeedAllConcat([], Flat(deliveries), last);
  }

  lemma OpeningPrefix(a: seq<int>, b: seq<int>)
    requires AllOpening(a + b)
    ensures AllOpening(a)
  {
    forall i | 0 <= i < |a| ensures a[i] == 150 || a[i] == 125 { assert (a + b)[i] == a[i]; }
  }

  /** A cut within the opening messages. */
  lemma CutEarly(a: seq<string>, c: seq<string>, codes: seq<int>)
    requires FeedAll([], a + c).acts == codes && AllOpening(codes)
    ensures AllOpening(FeedAll([], a).acts)
  {
    hide FeedAll, AllOpening;
    FeedAllConcat([], a, c);
    OpeningPrefix(FeedAll([], a).acts, FeedAll(FeedAll([], a).buf, c).acts);
  }

  /** A cut within the last reply. */
  lemma CutLate(flat: seq<string>, codes: seq<int>, done: seq<string>, part: seq<string>, rest: seq<string>)
    requires FeedAll([], flat) == Fed([], codes) && Fits(done) && Joined(part + rest) == Text(done) && Joined(rest) != []
    ensures FeedAll([], flat + part).acts == codes
  {
    hide FeedAll, Text, Joined;
    JoinedConcat(part, rest);
    assert Text(done) == [] + Joined(part) + Joined(rest);
    PartDelivered(done, [], part, Joined(rest));
    FeedAllConcat([], flat, part);
  }

  lemma Halves(a: seq<string>, b: seq<string>, flat: seq<string>, last: seq<string>)
    requires a + b == flat + last
    ensures if |a| <= |flat| then flat == a + flat[|a|..]
            else a == flat + last[..|a| - |flat|] && b == last[|a| - |flat|..] && last == last[..|a| - |flat|] + last[|a| - |flat|..]
  {
    assert a == (a + b)[..|a|] == (flat + last)[..|a|];
    assert |a| <= |flat| ==> flat == flat[..|a|] + flat[|a|..];
    assert b == (a + b)[|a|..] == (flat + last)[|a|..];
  }

  /** The codes before the cut. */
  lemma CutCodes(flat: seq<string>, codes: seq<int>, done: seq<string>, last: seq<string>, a: seq<string>, b: seq<string>)
    requires FeedAll([], flat) == Fed([], codes) && AllOpening(codes) && Fits(done) && Joined(last) == Text(done)
    requires a + b == flat + last && Joined(b) != []
    ensures AllOpening(FeedAll([], a).acts)
  {
    hide FeedAll, Text, Joined, AllOpening;
    Halves(a, b, flat, last);
    if |a| <= |flat| {
      CutEarly(a, flat[|a|..], codes);
    } else {
      CutLate(flat, codes, done, last[..|a| - |flat|], b);
    }
  }

  /** The codes of `a` are opening messages, and those of `b` end well. */
  lemma CutAnywhere(openings: seq<seq<string>>, deliveries: seq<seq<string>>, done: seq<string>, last: seq<string>,
                    a: seq<string>, b: seq<string>)
    requires Replies(openings, deliveries, done, last, a, b)
    ensures AllOpening(FeedAll([], a).acts) && EndsWell(FeedAll(FeedAll([], a).buf, b).acts)
  {
    var flat, codes := Flat(deliveries), Codes(openings);
    hide FeedAll, Text, Joined, Codes, EndsWell, AllOpening, IsReply, Flat, Openings, Delivered;
    WholeCodes(openings, deliveries, done, last);
    CutCodes(flat, codes, done, last, a, b);
    FeedAllConcat([], a, b);
    DoneEndsWell();
    EndsWellAfter(codes, [226]);
    EndsWellAfter(FeedAll([], a).acts, FeedAll(FeedAll([], a).buf, b).acts);
  }

  lemma DoneEndsWell()
    ensures EndsWell([226])
  {
  }

  lemma CutInOrder(before: seq<Event>, after: seq<Event>,
                   openings: seq<seq<string>>, deliveries: seq<seq<string>>, done: seq<string>, last: seq<string>)
    requires Replies(openings, deliveries, done, last, Pieces(before), Pieces(after))
    ensures InOrder(before, after)
  {
    hide Replies, FeedAll, EndsWell, Pieces;
    CutAnywhere(openings, deliveries, done, last, Pieces(before), Pieces(after));
  }

  /** A server that opens the transfer with any messages of 150 or 125, sends the data, closes, and is
      through with its 226 only then, is understood: whatever the texts of its replies, however each is
      cut, and however the pieces are mixed with the data. */
  lemma NormalDownload(s: Session, op: Op, capacity: nat, pasv: seq<string>, first: seq<string>,
                       before: seq<Event>, after: seq<Event>,
                       openings: seq<seq<string>>, deliveries: seq<seq<string>>, done: seq<string>, last: seq<string>)
    requires Sound(s) && s.ctrl && !s.ctl.data && !op.Stor? && Traffic(before) && Traffic(after)
    requires GivesAddress(pasv, first)
    requires Replies(openings, deliveries, done, last, Pieces(before), Pieces(after))
    ensures var r := Run(Start(s, op, true, capacity, true), Transcript(first, before, after));
            && r.ctl == Ctl(Ready, true, 0, false) && r.received == FirstBytes(Stream(before), capacity)
            && r.cmds == Commands(s.cmds, op)
  {
    hide GivesAddress, Command, Run, Start, FirstBytes, Transcript, InOrder, Replies, Traffic, Pieces, Stream, Commands;
    CutInOrder(before, after, openings, deliveries, done, last);
    DownloadExactly(s, op, capacity, pasv, first, before, after);
  }

  // --- Uploads ---

  /** How far the data gets from `offset` in several goes. */
  function PushedAll(total: nat, offset: nat, ws: seq<seq<Write>>): (o: nat)
    requires offset <= total
    ensures offset <= o <= total
    decreases |ws|
  {
    if ws == [] then offset else PushedAll(total, Pushed(total, offset, ws[0]), ws[1..])
  }

  /** Whether an upload that has got as far as `offset` comes to a good end: all the data is written at
      some time, and the codes after that end well. */
  predicate EndsWellFrom(total: nat, offset: nat, buf: string, events: seq<Event>)
    requires offset <= total && |buf| <= BUFFER_USABLE
    decreases |events|
  {
    if offset == total then EndsWell(FeedAll(buf, Pieces(events)).acts)
    else if events == [] then false
    else if events[0].DataSent? then EndsWellFrom(total, Pushed(total, offset, events[0].writes), buf, events[1..])
    else if events[0].CtrlData? then EndsWellFrom(total, offset, Feed(buf, events[0].piece).buf, events[1..])
    else EndsWellFrom(total, offset, buf, events[1..])
  }

  /** An upload with data left to write. */
  predicate Storing(s: Session, content: seq<byte>, sent: seq<byte>)
  {
    && Sound(s) && s.ctrl && s.isUpload && !s.hasBuf && s.upload == Some(content) && s.offset < |content| && s.written == sent + content[..s.offset]
    && s.ctl.data && (s.ctl.st == SendingCmd || s.ctl.st == Error) && !Well(s.ctl)
  }

  /** All of it written, and the channel closed. */
  predicate Stored(s: Session, content: seq<byte>, sent: seq<byte>)
  {
    Sound(s) && s.ctrl && s.written == sent + content && s.ctl.st == WaitDone && !s.ctl.data && !Well(s.ctl)
  }

  lemma PushedFrom(s: Session, content: seq<byte>, writes: seq<Write>)
    requires Sound(s) && s.ctl.data && s.upload == Some(content)
    ensures PushUpload(s, writes).offset == Pushed(|content|, s.offset, writes)
  {
  }

  /** One chance to write. */
  lemma PushesOn(s: Session, content: seq<byte>, sent: seq<byte>, writes: seq<Write>)
    requires Storing(s, content, sent)
    ensures var o, s' := Pushed(|content|, s.offset, writes), Deliver(s, DataSent(writes));
            && s'.offset == o && s'.resp == s.resp && s'.cmds == s.cmds
            && if o < |content| then Storing(s', content, sent) else Stored(s', content, sent)
  {
    hide PushUpload;
    PushStep(s, content, sent, writes);
    PushedFrom(s, content, writes);
    assert content[..|content|] == content;
  }

  /** One piece: whatever its code, the data goes on. */
  lemma PieceWhileStoring(s: Session, content: seq<byte>, sent: seq<byte>, e: Event)
    requires Storing(s, content, sent) && e.CtrlData?
    ensures var s' := Deliver(s, e);
            Storing(s', content, sent) && s'.offset == s.offset && s'.resp == Feed(s.resp, e.piece).buf && s'.cmds == s.cmds
  {
    hide Feed;
    Hears(s, e);
  }

  lemma {:induction false} NothingPushed(total: nat, ws: seq<seq<Write>>)
    ensures PushedAll(total, total, ws) == total
    decreases |ws|
  {
    if ws != [] {
      NothingPushed(total, ws[1..]);
    }
  }

  /** An upload ends well exactly if everything is written and the codes that come after that end well;
      codes that come before are of no account for this, even one that made the operation fail. */
  lemma {:induction false} DataGoesOut(s: Session, content: seq<byte>, sent: seq<byte>, events: seq<Event>)
    requires Storing(s, content, sent) && Traffic(events)
    ensures var r := Run(s, events);
            && r.written == sent + content[..PushedAll(|content|, s.offset, Sends(events))] && r.cmds == s.cmds
            && (Well(r.ctl) <==> EndsWellFrom(|content|, s.offset, s.resp, events))
            && (Well(r.ctl) ==> r.ctl == Ctl(Ready, true, 0, false))
    decreases |events|
  {
    hide Feed, FeedAll, Pushed, EndsWell, Deliver;
    if events != [] {
      RunFront(s, events);
      var e, s1, rest := events[0], Deliver(s, events[0]), events[1..];
      if e.DataSent? {
        PushesOn(s, content, sent, e.writes);
        assert Sends(events)[0] == e.writes && Sends(events)[1..] == Sends(rest);
        if s1.offset < |content| {
          DataGoesOut(s1, content, sent, rest);
        } else {
          LastReply(s1, rest);
          NothingPushed(|content|, Sends(rest));
          assert content[..|content|] == content;
        }
      } else {
        assert Sends(events) == Sends(rest);
        if e.CtrlData? {
          PieceWhileStoring(s, content, sent, e);
        } else {
          ChunkIgnored(s, e);
        }
        DataGoesOut(s1, content, sent, rest);
      }
    }
  }

  /** Data that comes in during an upload finds no buffer. */
  lemma ChunkIgnored(s: Session, e: Event)
    requires Sound(s) && !s.hasBuf && e.DataData?
    ensures Deliver(s, e) == s
  {
  }

  /** The connection of an upload comes up: the command, and the first go. */
  lemma FirstGo(d: Session, content: seq<byte>, writes: seq<Write>)
    requires Sound(d) && d.ctrl && d.ctl == Ctl(DataConnecting, false, 0, true) && d.pending != [] && !d.hasBuf
    requires d.isUpload && d.upload == Some(content) && d.offset == 0
    ensures var r := Deliver(d, DataConnected(true, true, writes));
            && r.offset == Pushed(|content|, 0, writes) && r.resp == d.resp && r.cmds == d.cmds + [d.pending]
            && !r.ctl.opDone && (r.ctl.data ==> r.ctl.st == SendingCmd)
            && if r.offset < |content| then Storing(r, content, d.written) else Stored(r, content, d.written)
  {
    hide Pushed, PushUpload;
    var open := d.(ctl := d.ctl.(st := SendingCmd), pending := [], cmds := d.cmds + [d.pending]);
    assert open.written == d.written + content[..0] && content[..|content|] == content;
    PushStep(open, content, d.written, writes);
    PushedFrom(open, content, writes);
  }

  lemma UploadAsks(s: Session, path: string, content: seq<byte>)
    requires Sound(s) && s.ctrl && !s.ctl.data
    ensures var op := Stor(path, Some(content));
            var start := Start(s, op, false, 0, true);
            && start.ctl == Ctl(WaitPasv, false, 0, false) && start.ctrl && start.resp == [] && !start.hasBuf
            && start.isUpload && start.upload == Some(content) && start.offset == 0 && start.written == s.written
            && start.pending == Command(op) && start.cmds == s.cmds + ["PASV\r\n"]
  {
    hide Command;
  }

  /** The opening of an upload. */
  lemma UploadOpens(s: Session, path: string, content: seq<byte>, pasv: seq<string>, first: seq<string>, writes: seq<Write>)
    requires Sound(s) && s.ctrl && !s.ctl.data
    requires GivesAddress(pasv, first)
    ensures var op := Stor(path, Some(content));
            var r := Run(Start(s, op, false, 0, true), Said(first) + [DataConnected(true, true, writes)]);
            && r.offset == Pushed(|content|, 0, writes) && r.resp == [] && r.cmds == Commands(s.cmds, op)
            && !r.ctl.opDone && (r.ctl.data ==> r.ctl.st == SendingCmd)
            && if r.offset < |content| then Storing(r, content, s.written) else Stored(r, content, s.written)
  {
    var op := Stor(path, Some(content));
    assert Command(op) != [];
    hide ParsePasv, LastCode, Text, Command, Commands, Pushed, Deliver, Storing, Stored, Start, Run, Joined;
    var start := Start(s, op, false, 0, true);
    UploadAsks(s, path, content);
    assert [] + Text(pasv) == Text(pasv);
    TextIsLong(pasv);
    PasvHeard(start, pasv, first);
    RunMore(start, Said(first), DataConnected(true, true, writes));
    FirstGo(Dialled(start, pasv), content, writes);
    CommandsAre(s.cmds, op);
  }

  /** From the first go on, which may have written everything. */
  lemma AfterFirstGo(s: Session, content: seq<byte>, sent: seq<byte>, events: seq<Event>)
    requires Sound(s) && Traffic(events) && s.offset <= |content|
    requires if s.offset < |content| then Storing(s, content, sent) else Stored(s, content, sent)
    ensures var r := Run(s, events);
            && r.written == sent + content[..PushedAll(|content|, s.offset, Sends(events))] && r.cmds == s.cmds
            && (Well(r.ctl) <==> EndsWellFrom(|content|, s.offset, s.resp, events))
            && (Well(r.ctl) ==> r.ctl == Ctl(Ready, true, 0, false))
  {
    hide Run, FeedAll, EndsWell, Traffic, Pieces, Sends;
    if s.offset < |content| {
      DataGoesOut(s, content, sent, events);
    } else {
      LastReply(s, events);
      NothingPushed(|content|, Sends(events));
      assert content[..|content|] == content;
    }
  }

  function Upload(first: seq<string>, writes: seq<Write>, events: seq<Event>): seq<Event>
  {
    (Said(first) + [DataConnected(true, true, writes)]) + events
  }

  /** An upload from its PASV on. */
  lemma UploadExactly(s: Session, path: string, content: seq<byte>, pasv: seq<string>, first: seq<string>,
                      writes: seq<Write>, events: seq<Event>)
    requires Sound(s) && s.ctrl && !s.ctl.data && Traffic(events)
    requires GivesAddress(pasv, first)
    ensures var op, o := Stor(path, Some(content)), Pushed(|content|, 0, writes);
            var r := Run(Start(s, op, false, 0, true), Upload(first, writes, events));
            && r.written == s.written + content[..PushedAll(|content|, o, Sends(events))]
            && r.cmds == Commands(s.cmds, op)
            && (Well(r.ctl) <==> EndsWellFrom(|content|, o, [], events))
            && (Well(r.ctl) ==> r.ctl == Ctl(Ready, true, 0, false))
  {
    hide GivesAddress, Command, Commands, Run, Start, Pushed, PushedAll, EndsWellFrom, Traffic, Sends, Storing, Stored;
    var start := Start(s, Stor(path, Some(content)), false, 0, true);
    var e1 := Said(first) + [DataConnected(true, true, writes)];
    UploadOpens(s, path, content, pasv, first, writes);
    RunConcat(start, e1, events);
    AfterFirstGo(Run(start, e1), content, s.written, events);
  }

  /** Codes that end well, and whose opening messages alone come while there is data to write. */
  lemma {:induction false} GoesWell(total: nat, offset: nat, buf: string, before: seq<Event>, after: seq<Event>)
    requires offset <= total && |buf| <= BUFFER_USABLE && PushedAll(total, offset, Sends(before)) == total
    requires AllOpening(FeedAll(buf, Pieces(before)).acts) && EndsWell(FeedAll(buf, Pieces(before + after)).acts)
    ensures EndsWellFrom(total, offset, buf, before + after)
    decreases |before|
  {
    hide Feed, FeedAll, Pushed, EndsWell;
    if offset < total {
      var e, rest := before[0], before[1..];
      assert (before + after)[0] == e && (before + after)[1..] == rest + after;
      if e.CtrlData? {
        FeedFront(buf, Pieces(before));
        FeedFront(buf, Pieces(before + after));
        var f := Feed(buf, e.piece);
        var now, later := f.acts, FeedAll(f.buf, Pieces(rest)).acts;
        assert forall i | 0 <= i < |now| :: (now + later)[i] == now[i];
        assert forall i | 0 <= i < |later| :: (now + later)[|now| + i] == later[i];
        EndsWellAfter(now, FeedAll(f.buf, Pieces(rest + after)).acts);
        GoesWell(total, offset, f.buf, rest, after);
      } else if e.DataSent? {
        assert Sends(before)[0] == e.writes && Sends(before)[1..] == Sends(rest);
        GoesWell(total, Pushed(total, offset, e.writes), buf, rest, after);
      } else {
        GoesWell(total, offset, buf, rest, after);
      }
    }
  }

  lemma {:induction false} PiecesConcat(a: seq<Event>, b: seq<Event>)
    ensures Pieces(a + b) == Pieces(a) + Pieces(b)
    decreases |a|
  {
    if a == [] {
      assert a + b == b;
    } else {
      assert (a + b)[0] == a[0] && (a + b)[1..] == a[1..] + b;
      PiecesConcat(a[1..], b);
    }
  }

  /** An upload whose send buffer takes all the data before the server is through with its 226 ends with
      result 0 and everything written, once and in order; however the replies are cut, and however
      their pieces are mixed with the writing. */
  lemma NormalUpload(s: Session, path: string, content: seq<byte>, pasv: seq<string>, first: seq<string>,
                     writes: seq<Write>, before: seq<Event>, after: seq<Event>,
                     openings: seq<seq<string>>, deliveries: seq<seq<string>>, done: seq<string>, last: seq<string>)
    requires Sound(s) && s.ctrl && !s.ctl.data && Traffic(before + after)
    requires GivesAddress(pasv, first)
    requires PushedAll(|content|, Pushed(|content|, 0, writes), Sends(before)) == |content|
    requires Replies(openings, deliveries, done, last, Pieces(before), Pieces(after))
    ensures var op := Stor(path, Some(content));
            var r := Run(Start(s, op, false, 0, true), Upload(first, writes, before + after));
            && r.ctl == Ctl(Ready, true, 0, false) && r.written == s.written + content
            && r.cmds == Commands(s.cmds, op)
  {
    hide GivesAddress, Command, Commands, Run, Start, FeedAll, Upload, EndsWell, EndsWellFrom, Pushed, PushedAll, Replies, Traffic, Pieces, Sends;
    var o := Pushed(|content|, 0, writes);
    CutAnywhere(openings, deliveries, done, last, Pieces(before), Pieces(after));
    PiecesConcat(before, after);
    FeedAllConcat([], Pieces(before), Pieces(after));
    EndsWellAfter(FeedAll([], Pieces(before)).acts, FeedAll(FeedAll([], Pieces(before)).buf, Pieces(after)).acts);
    GoesWell(|content|, o, [], before, after);
    UploadExactly(s, path, content, pasv, first, writes, before + after);
    SendsConcat(before, after);
    PushedConcat(|content|, o, Sends(before), Sends(after));
    NothingPushed(|content|, Sends(after));
    assert content[..|content|] == content;
  }

  lemma {:induction false} SendsConcat(a: seq<Event>, b: seq<Event>)
    ensures Sends(a + b) == Sends(a) + Sends(b)
    decreases |a|
  {
    if a == [] {
      assert a + b == b;
    } else {
      assert (a + b)[0] == a[0] && (a + b)[1..] == a[1..] + b;
      SendsConcat(a[1..], b);
    }
  }

  lemma {:induction false} PushedConcat(total: nat, offset: nat, a: seq<seq<Write>>, b: seq<seq<Write>>)
    requires offset <= total
    ensures PushedAll(total, offset, a + b) == PushedAll(total, PushedAll(total, offset, a), b)
    decreases |a|
  {
    if a == [] {
      assert a + b == b;
    } else {
      assert (a + b)[0] == a[0] && (a + b)[1..] == a[1..] + b;
      PushedConcat(total, Pushed(total, offset, a[0]), a[1..], b);
    }
  }

  // --- Replies that share a piece ---

  lemma {:induction false} TailAdds(lines: seq<string>, tail: string)
    requires IsReply(lines) && LastCode(tail) < 0
    ensures LastCode(Text(lines) + tail) == ReplyCode(lines)
    decreases |lines|
  {
    hide CodeOf;
    var rest := Text(lines[1..]) + tail;
    assert Text(lines) + tail == lines[0] + "\n" + rest;
    LineEndOfLine(lines[0], rest);
    if |lines| == 1 {
      assert rest == tail;
    } else {
      TailIsReply(lines);
      TailAdds(lines[1..], tail);
    }
  }

  /** The beginning of a reply that comes in the same piece as the end of the one before is thrown away
      with it: what the client makes of the rest is as if the reply had begun there. */
  lemma SharedPiece(a: seq<string>, b: seq<string>, n: nat)
    requires IsReply(a) && Fits(b) && 0 < n < |Text(b)| && |Text(a)| + n <= BUFFER_USABLE
    ensures FeedAll([], [Text(a) + Text(b)[..n], Text(b)[n..]]).acts
         == [ReplyCode(a)] + (if LastCode(Text(b)[n..]) < 0 then [] else [LastCode(Text(b)[n..])])
  {
    hide LastCode, Text;
    var one, two := Text(a) + Text(b)[..n], Text(b)[n..];
    PrefixIsIncomplete(b, n);
    TailAdds(a, Text(b)[..n]);
    assert one[..|one|] == one && two[..|two|] == two && Appended([], one) == one && Appended([], two) == two;
    var pieces := [one, two];
    FeedFront([], pieces);
    assert pieces[1..] == [two];
    FeedFront([], [two]);
    FedNothing(Feed([], two).buf);
  }
}
