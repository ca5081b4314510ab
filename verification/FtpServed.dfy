/** The waiting loop with a server that does what it should: wherever the polls cut the callbacks into
    groups, the call ends with the result that the whole course of the transfer has. */
module FtpServed {
  import opened Checksum
  import opened FtpReply
  import opened FtpPasv
  import opened FtpSession
  import opened FtpNormal

  /** All the callbacks that the polls bring. */
  function Callbacks(polls: seq<seq<Event>>): seq<Event>
  {
    if polls == [] then [] else polls[0] + Callbacks(polls[1..])
  }

  /** A wait leaves callbacks out only if the operation is done before them. */
  lemma {:induction false} TakenIsPrefix(s: Session, polls: seq<seq<Event>>)
    requires Sound(s)
    ensures Taken(s, polls) <= Callbacks(polls)
    ensures Taken(s, polls) != Callbacks(polls) ==> Run(s, Taken(s, polls)).ctl.opDone
    decreases |polls|
  {
    hide Deliver;
    if polls != [] && !s.ctl.opDone {
      TakenIsPrefix(Run(s, polls[0]), polls[1..]);
      RunConcat(s, polls[0], Taken(Run(s, polls[0]), polls[1..]));
    }
  }

  /** How a server serves a transfer: its reply to PASV and the pieces it comes in, the callbacks while
      data is under way and those after it, and the replies that these bring. */
  datatype Serving = Serving(
    pasv: seq<string>, first: seq<string>, writes: seq<Write>, before: seq<Event>, after: seq<Event>,
    openings: seq<seq<string>>, deliveries: seq<seq<string>>, done: seq<string>, last: seq<string>)

  /** The address, the data connection, 150 or 125 while the data comes in, the close, and then the 226. */
  ghost predicate ServesDownload(v: Serving, events: seq<Event>)
  {
    && events == Transcript(v.first, v.before, v.after)
    && GivesAddress(v.pasv, v.first) && Traffic(v.before) && Traffic(v.after)
    && Replies(v.openings, v.deliveries, v.done, v.last, Pieces(v.before), Pieces(v.after))
  }

  /** The address, the data connection, 150 or 125 while the content goes out, and then the 226. */
  ghost predicate ServesUpload(v: Serving, content: seq<byte>, events: seq<Event>)
  {
    && events == Upload(v.first, v.writes, v.before + v.after)
    && GivesAddress(v.pasv, v.first) && Traffic(v.before) && Traffic(v.after)
    && PushedAll(|content|, Pushed(|content|, 0, v.writes), Sends(v.before)) == |content|
    && Replies(v.openings, v.deliveries, v.done, v.last, Pieces(v.before), Pieces(v.after))
  }

  // --- The reply to PASV ---

  /** As long as the reply is not whole, the client collects it. */
  lemma {:induction false} PartHeard(s: Session, pasv: seq<string>, pieces: seq<string>, rest: string)
    requires Asked(s) && Fits(pasv) && Text(pasv) == s.resp + Joined(pieces) + rest && rest != []
    ensures Run(s, Said(pieces)).ctl == s.ctl
    decreases |pieces|
  {
    hide ParsePasv, LastCode, Text, Deliver, Run;
    if pieces == [] {
      RunNone(s);
    } else {
      var now := s.resp + pieces[0];
      assert Text(pasv) == now + Joined(pieces[1..]) + rest && Text(pasv)[..|now|] == now;
      SaidFront(s, pieces);
      PasvPiece(s, pieces[0]);
      PrefixIsIncomplete(pasv, |now|);
      PartHeard(s.(resp := now), pasv, pieces[1..], rest);
    }
  }

  lemma RunNone(s: Session)
    requires Sound(s)
    ensures Run(s, []) == s
  {
  }

  lemma {:induction false} SaidTake(pieces: seq<string>, j: nat)
    requires j <= |pieces|
    ensures |Said(pieces)| == |pieces| && Said(pieces)[..j] == Said(pieces[..j])
    decreases |pieces|
  {
    if pieces != [] {
      if j == 0 {
        SaidTake(pieces[1..], 0);
      } else {
        SaidTake(pieces[1..], j - 1);
        assert pieces[..j][1..] == pieces[1..][..j - 1];
      }
    }
  }

  /** The operation is not done before the data connection is up. */
  lemma NotDoneYet(s: Session, pasv: seq<string>, first: seq<string>, j: nat)
    requires Asked(s) && s.resp == [] && !s.ctl.opDone && GivesAddress(pasv, first) && j <= |first|
    ensures |Said(first)| == |first| && !Run(s, Said(first)[..j]).ctl.opDone
  {
    hide ParsePasv, LastCode, Text, Deliver, Run, Joined, IsReply, ReplyCode;
    SaidTake(first, j);
    assert first == first[..j] + first[j..];
    JoinedConcat(first[..j], first[j..]);
    var part, rest := Joined(first[..j]), Joined(first[j..]);
    assert Text(pasv) == [] + part + rest;
    if rest == [] {
      assert Text(pasv) == [] + part;
      TextIsLong(pasv);
      PasvHeard(s, pasv, first[..j]);
    } else {
      PartHeard(s, pasv, first[..j], rest);
    }
  }

  // --- Once it is done ---

  /** Nothing happens to the control connection but that replies come. */
  predicate Calm(events: seq<Event>)
  {
    forall i | 0 <= i < |events| :: !events[i].CtrlConnected? && !events[i].CtrlClosed? && !events[i].CtrlError?
  }

  lemma {:induction false} SaidIsCalm(pieces: seq<string>)
    ensures Calm(Said(pieces))
    decreases |pieces|
  {
    if pieces != [] {
      SaidIsCalm(pieces[1..]);
    }
  }

  lemma CalmConcat(a: seq<Event>, b: seq<Event>)
    requires Calm(a) && Calm(b)
    ensures Calm(a + b)
  {
  }

  predicate Over(c: Ctl) { c == Ctl(Ready, true, 0, false) || (c.st == Error && !c.data) }

  /** With its data connection gone, what is over stays as it is. */
  lemma {:induction false} OverForGood(s: Session, events: seq<Event>)
    requires Sound(s) && s.ctrl && Over(s.ctl) && Calm(events)
    ensures var r := Run(s, events); r.ctl == s.ctl && r.received == s.received && r.written == s.written && r.cmds == s.cmds
    decreases |events|
  {
    hide Feed;
    if events != [] {
      RunFront(s, events);
      if events[0].CtrlData? {
        Hears(s, events[0]);
      }
      OverForGood(Deliver(s, events[0]), events[1..]);
    }
  }

  lemma {:induction false} CtrlStays(s: Session, events: seq<Event>)
    requires Sound(s) && s.ctrl && Calm(events)
    ensures Run(s, events).ctrl
    decreases |events|
  {
    hide LastCode, ParsePasv, React, Pushed;
    if events != [] {
      CtrlStays(s, events[..|events| - 1]);
    }
  }

  // --- Downloads ---

  /** A download whose command is out is under way, has ended well, or has failed for good. */
  predicate Decided(s: Session)
  {
    !s.isUpload && s.pending == [] && (s.ctl.opDone ==> Failed(s) || (s.ctl.st == Ready && s.ctl.opResult == 0))
  }

  lemma DecidedStep(s: Session, e: Event)
    requires Sound(s) && Decided(s)
    ensures Decided(Deliver(s, e))
  {
    hide LastCode, ParsePasv;
  }

  lemma {:induction false} DecidedRun(s: Session, events: seq<Event>)
    requires Sound(s) && Decided(s)
    ensures Decided(Run(s, events))
    decreases |events|
  {
    hide Deliver, Decided;
    if events != [] {
      DecidedRun(s, events[..|events| - 1]);
      DecidedStep(Run(s, events[..|events| - 1]), events[|events| - 1]);
    }
  }

  lemma TranscriptIsCalm(first: seq<string>, before: seq<Event>, after: seq<Event>)
    requires Traffic(before) && Traffic(after)
    ensures Calm(Transcript(first, before, after))
  {
    SaidIsCalm(first);
    CalmConcat(Said(first) + [DataConnected(true, true, [])], before + ([DataClosed] + after));
  }

  /** A download that ends well was well as soon as it was done. */
  lemma DoneWell(s: Session, op: Op, capacity: nat, pasv: seq<string>, first: seq<string>, p: seq<Event>, q: seq<Event>)
    requires Sound(s) && s.ctrl && !s.ctl.data && !op.Stor? && GivesAddress(pasv, first)
    requires Calm(p) && Calm(q) && Said(first) + [DataConnected(true, true, [])] <= p
    requires var start := Start(s, op, true, capacity, true);
             Run(start, p).ctl.opDone && Run(start, p + q).ctl == Ctl(Ready, true, 0, false)
    ensures var start := Start(s, op, true, capacity, true);
            var r, end := Run(start, p), Run(start, p + q);
            r.ctl == end.ctl && r.received == end.received && r.cmds == end.cmds
  {
    hide ParsePasv, Text, Command, Deliver, Start, Run, Joined, GivesAddress, FirstBytes;
    var start, e1 := Start(s, op, true, capacity, true), Said(first) + [DataConnected(true, true, [])];
    DownloadOpens(s, op, capacity, pasv, first);
    assert p == e1 + p[|e1|..];
    RunConcat(start, e1, p[|e1|..]);
    DecidedRun(Run(start, e1), p[|e1|..]);
    RunConcat(start, p, q);
    var r := Run(start, p);
    if Failed(r) {
      FailedForGood(r, q);
    } else {
      StartsDownload(s, op, capacity);
      DownloadRun(start, p, capacity);
      CtrlStays(start, p);
      OverForGood(r, q);
    }
  }

  lemma StartsDownload(s: Session, op: Op, capacity: nat)
    requires Sound(s) && s.ctrl && !s.ctl.data && !op.Stor?
    ensures var start := Start(s, op, true, capacity, true);
            DownloadInv(start, Nothing(), capacity) && Asked(start) && start.resp == [] && !start.ctl.opDone
  {
    hide Command;
  }

  /** However the callbacks fall into polls: a wait for a well-behaved server's download ends well, with
      the beginning of the stream, and sent just the two commands. */
  lemma ServedDownload(s: Session, op: Op, capacity: nat, polls: seq<seq<Event>>, v: Serving)
    requires Sound(s) && s.ctrl && !s.ctl.data && !op.Stor? && ServesDownload(v, Callbacks(polls))
    ensures var start := Start(s, op, true, capacity, true);
            var r := Run(start, Taken(start, polls));
            && r.ctl == Ctl(Ready, true, 0, false) && r.received == FirstBytes(Stream(v.before), capacity)
            && r.cmds == Commands(s.cmds, op)
  {
    hide Command, Commands, Deliver, Start, Run, Replies, GivesAddress, Traffic, Stream, FirstBytes, Taken, Callbacks;
    var start, all := Start(s, op, true, capacity, true), Callbacks(polls);
    var p := Taken(start, polls);
    NormalDownload(s, op, capacity, v.pasv, v.first, v.before, v.after, v.openings, v.deliveries, v.done, v.last);
    TakenIsPrefix(start, polls);
    if p != all {
      StartsDownload(s, op, capacity);
      TranscriptIsCalm(v.first, v.before, v.after);
      var q := all[|p|..];
      assert p + q == all && Calm(p) && Calm(q);
      LongEnough(start, v.pasv, v.first, DataConnected(true, true, []), p, all);
      DoneWell(s, op, capacity, v.pasv, v.first, p, q);
    }
  }

  /** Callbacks after which the operation is done reach at least to the connecting of the data channel. */
  lemma LongEnough(start: Session, pasv: seq<string>, first: seq<string>, opening: Event, p: seq<Event>, all: seq<Event>)
    requires Asked(start) && start.resp == [] && !start.ctl.opDone && GivesAddress(pasv, first)
    requires Said(first) + [opening] <= all && p <= all && Run(start, p).ctl.opDone
    ensures Said(first) + [opening] <= p
  {
    hide Run, GivesAddress, Asked;
    SaidTake(first, |first|);
    if |p| <= |first| {
      assert p == all[..|p|] == Said(first)[..|p|];
      NotDoneYet(start, pasv, first, |p|);
      assert false;
    }
  }

  // --- Uploads ---

  /** An upload under way, with data left to write or only the last reply to come. */
  predicate Quiet(s: Session, content: seq<byte>, sent: seq<byte>)
  {
    && !s.ctl.opDone && s.offset <= |content|
    && if s.offset < |content| then Storing(s, content, sent) && s.ctl.st == SendingCmd else Stored(s, content, sent)
  }

  /** 150 and 125 leave it so. */
  lemma QuietPiece(s: Session, content: seq<byte>, sent: seq<byte>, e: Event)
    requires Quiet(s, content, sent) && e.CtrlData? && AllOpening(Feed(s.resp, e.piece).acts)
    ensures var r := Deliver(s, e); Quiet(r, content, sent) && r.offset == s.offset && r.resp == Feed(s.resp, e.piece).buf
  {
    hide Feed;
    Hears(s, e);
  }

  /** So does writing, which may write the rest. */
  lemma QuietWrite(s: Session, content: seq<byte>, sent: seq<byte>, e: Event)
    requires Quiet(s, content, sent) && e.DataSent?
    ensures var r := Deliver(s, e); Quiet(r, content, sent) && r.offset == Pushed(|content|, s.offset, e.writes) && r.resp == s.resp
  {
    hide PushUpload, Pushed;
    if s.offset < |content| {
      PushesOn(s, content, sent, e.writes);
      PushStep(s, content, sent, e.writes);
    } else {
      NothingPushed(|content|, [e.writes]);
    }
  }

  lemma {:induction false} QuietRun(s: Session, content: seq<byte>, sent: seq<byte>, events: seq<Event>)
    requires Quiet(s, content, sent) && Traffic(events) && AllOpening(FeedAll(s.resp, Pieces(events)).acts)
    ensures var r := Run(s, events);
            Quiet(r, content, sent) && r.offset == PushedAll(|content|, s.offset, Sends(events))
    decreases |events|
  {
    hide Feed, FeedAll, Pushed, Deliver, Quiet, AllOpening;
    QuietIsSound(s, content, sent);
    if events != [] {
      RunFront(s, events);
      var e, rest := events[0], events[1..];
      if e.CtrlData? {
        FeedFront(s.resp, Pieces(events));
        assert Pieces(events)[1..] == Pieces(rest);
        var f := Feed(s.resp, e.piece);
        OpeningParts(f.acts, FeedAll(f.buf, Pieces(rest)).acts);
        QuietPiece(s, content, sent, e);
      } else if e.DataSent? {
        QuietWrite(s, content, sent, e);
        assert Sends(events)[0] == e.writes && Sends(events)[1..] == Sends(rest);
      } else {
        QuietChunk(s, content, sent, e);
      }
      QuietRun(Deliver(s, e), content, sent, rest);
    }
  }

  lemma QuietIsSound(s: Session, content: seq<byte>, sent: seq<byte>)
    requires Quiet(s, content, sent)
    ensures Sound(s) && s.offset <= |content|
  {
  }

  lemma QuietChunk(s: Session, content: seq<byte>, sent: seq<byte>, e: Event)
    requires Quiet(s, content, sent) && e.DataData?
    ensures Quiet(Deliver(s, e), content, sent) && Deliver(s, e).offset == s.offset && Deliver(s, e).resp == s.resp
  {
  }

  lemma OpeningParts(a: seq<int>, b: seq<int>)
    requires AllOpening(a + b)
    ensures AllOpening(a) && AllOpening(b)
  {
    forall i | 0 <= i < |a| ensures a[i] == 150 || a[i] == 125 { assert (a + b)[i] == a[i]; }
    forall i | 0 <= i < |b| ensures b[i] == 150 || b[i] == 125 { assert (a + b)[|a| + i] == b[i]; }
  }

  /** With everything written, the operation is not done, or over. */
  predicate Closing(s: Session)
  {
    Sound(s) && s.ctrl && !s.ctl.data && ((s.ctl.st == WaitDone && !s.ctl.opDone) || Over(s.ctl))
  }

  lemma ClosingStep(s: Session, e: Event)
    requires Closing(s) && (e.CtrlData? || e.DataData? || e.DataSent?)
    ensures Closing(Deliver(s, e))
  {
    hide Feed;
    if e.CtrlData? {
      Hears(s, e);
    }
  }

  lemma {:induction false} ClosingRun(s: Session, events: seq<Event>)
    requires Closing(s) && Traffic(events)
    ensures Closing(Run(s, events))
    decreases |events|
  {
    hide Deliver, Run, Closing;
    ClosingIsSound(s);
    if events == [] {
      RunNone(s);
    } else {
      RunFront(s, events);
      ClosingStep(s, events[0]);
      ClosingRun(Deliver(s, events[0]), events[1..]);
    }
  }

  lemma ClosingIsSound(s: Session)
    requires Closing(s)
    ensures Sound(s)
  {
  }

  lemma OpensQuietly(s: Session, path: string, content: seq<byte>, pasv: seq<string>, first: seq<string>, writes: seq<Write>)
    requires Sound(s) && s.ctrl && !s.ctl.data && GivesAddress(pasv, first)
    ensures var r := Run(Start(s, Stor(path, Some(content)), false, 0, true), Said(first) + [DataConnected(true, true, writes)]);
            Quiet(r, content, s.written) && r.resp == [] && r.offset == Pushed(|content|, 0, writes)
  {
    hide GivesAddress, Command, Commands, Run, Start, Pushed;
    UploadOpens(s, path, content, pasv, first, writes);
  }

  /** As long as no more than the opening messages have come, an upload is not done. */
  lemma QuietPrefix(s: Session, content: seq<byte>, sent: seq<byte>, before: seq<Event>, k: nat)
    requires Quiet(s, content, sent) && s.resp == [] && Traffic(before) && AllOpening(FeedAll([], Pieces(before)).acts) && k <= |before|
    ensures !Run(s, before[..k]).ctl.opDone
  {
    hide FeedAll, Run, Deliver, AllOpening;
    assert before == before[..k] + before[k..];
    PiecesConcat(before[..k], before[k..]);
    FeedAllConcat([], Pieces(before[..k]), Pieces(before[k..]));
    var early := FeedAll([], Pieces(before[..k]));
    OpeningParts(early.acts, FeedAll(early.buf, Pieces(before[k..])).acts);
    QuietRun(s, content, sent, before[..k]);
  }

  /** Once it is done, it is over. */
  lemma UploadOver(s: Session, content: seq<byte>, sent: seq<byte>, before: seq<Event>, after: seq<Event>, k: nat)
    requires Quiet(s, content, sent) && s.resp == [] && Traffic(before) && Traffic(after) && k <= |before + after|
    requires AllOpening(FeedAll([], Pieces(before)).acts) && PushedAll(|content|, s.offset, Sends(before)) == |content|
    requires Run(s, (before + after)[..k]).ctl.opDone
    ensures var r := Run(s, (before + after)[..k]); Sound(r) && r.ctrl && Over(r.ctl)
  {
    hide FeedAll, Run, Deliver, AllOpening, Quiet, Pieces, PushedAll, Sends;
    QuietIsSound(s, content, sent);
    if k <= |before| {
      assert (before + after)[..k] == before[..k];
      QuietPrefix(s, content, sent, before, k);
      assert false;
    } else {
      var late := after[..k - |before|];
      assert (before + after)[..k] == before + late;
      RunConcat(s, before, late);
      QuietRun(s, content, sent, before);
      WrittenIsClosing(Run(s, before), content, sent);
      ClosingRun(Run(s, before), late);
      ClosingDone(Run(Run(s, before), late));
    }
  }

  lemma WrittenIsClosing(s: Session, content: seq<byte>, sent: seq<byte>)
    requires Quiet(s, content, sent) && s.offset == |content|
    ensures Closing(s)
  {
  }

  lemma ClosingDone(s: Session)
    requires Closing(s) && s.ctl.opDone
    ensures Sound(s) && s.ctrl && Over(s.ctl)
  {
  }

  lemma UploadIsCalm(v: Serving)
    requires Traffic(v.before) && Traffic(v.after)
    ensures Calm(Upload(v.first, v.writes, v.before + v.after))
  {
    SaidIsCalm(v.first);
    CalmConcat(Said(v.first) + [DataConnected(true, true, v.writes)], v.before + v.after);
  }

  /** An upload that ends well was well as soon as it was done. */
  lemma UploadDoneWell(s: Session, path: string, content: seq<byte>, v: Serving, all: seq<Event>, n: nat)
    requires Sound(s) && s.ctrl && !s.ctl.data && ServesUpload(v, content, all) && n <= |all|
    requires var start := Start(s, Stor(path, Some(content)), false, 0, true);
             Run(start, all[..n]).ctl.opDone && Run(start, all).ctl == Ctl(Ready, true, 0, false)
    ensures var start := Start(s, Stor(path, Some(content)), false, 0, true);
            var r, end := Run(start, all[..n]), Run(start, all);
            r.ctl == end.ctl && r.written == end.written && r.cmds == end.cmds
  {
    hide Command, Deliver, Start, Run, Traffic, Pieces, Replies, FeedAll, Pushed, PushedAll, AllOpening, Quiet, Over, Calm, GivesAddress, Asked;
    var start, e1 := Start(s, Stor(path, Some(content)), false, 0, true), Said(v.first) + [DataConnected(true, true, v.writes)];
    StartsUpload(s, path, content);
    var p, q, rest := all[..n], all[n..], v.before + v.after;
    assert all == e1 + rest && all == p + q;
    LongEnough(start, v.pasv, v.first, DataConnected(true, true, v.writes), p, all);
    var k := n - |e1|;
    assert p == e1 + rest[..k];
    OpensQuietly(s, path, content, v.pasv, v.first, v.writes);
    CutAnywhere(v.openings, v.deliveries, v.done, v.last, Pieces(v.before), Pieces(v.after));
    RunConcat(start, e1, rest[..k]);
    UploadOver(Run(start, e1), content, s.written, v.before, v.after, k);
    UploadIsCalm(v);
    CalmPart(all, n);
    RunConcat(start, p, q);
    OverForGood(Run(start, p), q);
  }

  lemma CalmPart(events: seq<Event>, n: nat)
    requires Calm(events) && n <= |events|
    ensures Calm(events[n..])
  {
  }

  lemma StartsUpload(s: Session, path: string, content: seq<byte>)
    requires Sound(s) && s.ctrl && !s.ctl.data
    ensures var start := Start(s, Stor(path, Some(content)), false, 0, true);
            Asked(start) && start.resp == [] && !start.ctl.opDone
  {
    hide Command;
  }

  /** However the callbacks fall into polls: a wait for a well-behaved server's upload ends well, with
      everything written once and in order, and sent just the two commands. */
  lemma ServedUpload(s: Session, path: string, content: seq<byte>, polls: seq<seq<Event>>, v: Serving)
    requires Sound(s) && s.ctrl && !s.ctl.data && ServesUpload(v, content, Callbacks(polls))
    ensures var op := Stor(path, Some(content));
            var start := Start(s, op, false, 0, true);
            var r := Run(start, Taken(start, polls));
            && r.ctl == Ctl(Ready, true, 0, false) && r.written == s.written + content
            && r.cmds == Commands(s.cmds, op)
  {
    hide Command, Commands, Deliver, Start, Run, Replies, GivesAddress, Traffic, Taken, Callbacks, Sends, Pushed, PushedAll;
    var start, all := Start(s, Stor(path, Some(content)), false, 0, true), Callbacks(polls);
    var p := Taken(start, polls);
    TrafficConcat(v.before, v.after);
    NormalUpload(s, path, content, v.pasv, v.first, v.writes, v.before, v.after, v.openings, v.deliveries, v.done, v.last);
    TakenIsPrefix(start, polls);
    if p != all {
      assert p == all[..|p|];
      UploadDoneWell(s, path, content, v, all, |p|);
    }
  }

  lemma TrafficConcat(a: seq<Event>, b: seq<Event>)
    requires Traffic(a) && Traffic(b)
    ensures Traffic(a + b)
  {
  }
}
