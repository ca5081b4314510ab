/** hw_ftp_connect_sync: connect, USER, PASS unless the server needs none, and binary mode. */
module FtpLogin {
  import opened FtpReply
  import opened FtpPasv
  import opened FtpSession
  import opened FtpNormal
  import opened FtpServed
  import opened FtpClient

  /** The states in which one reply of the login is awaited. */
  predicate IsPhase(st: St) { st == WaitWelcome || st == WaitUser || st == WaitPass }

  predicate Accepted(st: St, code: int)
  {
    match st
    case WaitWelcome => code == 220
    case WaitUser => code == 331 || code == 230
    case _ => code == 230
  }

  /** The code that the client acts on in state `st`, if this is the event that brings it. */
  function AnswerIn(s: Session, e: Event, st: St): Option<int>
    requires Sound(s)
  {
    if e.CtrlData? && s.ctrl && s.ctl.st == st && LastCode(Appended(s.resp, e.piece)) >= 0
    then Some(LastCode(Appended(s.resp, e.piece))) else None
  }

  /** The first of them in a run. */
  function FirstAnswer(s: Session, events: seq<Event>, st: St): Option<int>
    requires Sound(s)
    decreases |events|
  {
    if events == [] then None
    else
      var before := events[..|events| - 1];
      var first := FirstAnswer(s, before, st);
      if first.Some? then first else AnswerIn(Run(s, before), events[|events| - 1], st)
  }

  /** A phase that has not gone wrong is either unanswered or was answered well. */
  predicate PhaseInv(c: Ctl, st: St, first: Option<int>)
  {
    && !c.data && (c.st == st || (c.st == Connecting && st == WaitWelcome) || c.st == Ready || c.st == Error)
    && (c.st == st || c.st == Connecting ==> first.None?)
    && (c.st == Ready ==> first.Some? && Accepted(st, first.value))
    && (c.opDone && c.opResult == 0 ==> c.st == Ready)
  }

  lemma PhaseStep(s: Session, st: St, first: Option<int>, e: Event)
    requires Sound(s) && IsPhase(st) && PhaseInv(s.ctl, st, first)
    ensures PhaseInv(Deliver(s, e).ctl, st, if first.Some? then first else AnswerIn(s, e, st))
  {
    hide LastCode, ParsePasv;
  }

  lemma {:induction false} PhaseRun(s: Session, st: St, events: seq<Event>)
    requires Sound(s) && IsPhase(st) && PhaseInv(s.ctl, st, None)
    ensures PhaseInv(Run(s, events).ctl, st, FirstAnswer(s, events, st))
    decreases |events|
  {
    if events != [] {
      var before := events[..|events| - 1];
      PhaseRun(s, st, before);
      PhaseStep(Run(s, before), st, FirstAnswer(s, before, st), events[|events| - 1]);
    }
  }

  lemma {:induction false} RunKeepsSession(s: Session, events: seq<Event>)
    requires Sound(s) && SessionInv(s.ctl)
    ensures SessionInv(Run(s, events).ctl)
    decreases |events|
  {
    if events != [] {
      RunKeepsSession(s, events[..|events| - 1]);
      DeliverKeepsSession(Run(s, events[..|events| - 1]), events[|events| - 1]);
    }
  }

  lemma ReactSendsNothing(c: Ctl, code: int, address: Option<Address>, tcpNew: bool, connects: bool)
    requires !c.data && !c.st.WaitPasv?
    ensures var c' := React(c, code, address, tcpNew, connects); !c'.data && !c'.st.WaitPasv?
  {
  }

  lemma DeliverSendsNothing(s: Session, e: Event)
    requires Sound(s) && !s.ctl.data && !s.ctl.st.WaitPasv?
    ensures var r := Deliver(s, e); r.cmds == s.cmds && !r.ctl.data && !r.ctl.st.WaitPasv?
  {
    hide LastCode, ParsePasv, React;
    if e.CtrlData? {
      var text := Appended(s.resp, e.piece);
      ReactSendsNothing(s.ctl, LastCode(text), ParsePasv(text), e.tcpNew, e.connects);
    }
  }

  /** No callback sends a command while no transfer is under way. */
  lemma {:induction false} CmdsKept(s: Session, events: seq<Event>)
    requires Sound(s) && !s.ctl.data && !s.ctl.st.WaitPasv?
    ensures var r := Run(s, events); r.cmds == s.cmds && !r.ctl.data && !r.ctl.st.WaitPasv?
    decreases |events|
  {
    if events != [] {
      CmdsKept(s, events[..|events| - 1]);
      DeliverSendsNothing(Run(s, events[..|events| - 1]), events[|events| - 1]);
    }
  }

  // --- The whole login ---

  /** What a login is given: whether TCP can be set up, the two words, and for each of its phases whether
      its command can be sent and what the polls bring. */
  datatype Script = Script(tcpNew: bool, connects: bool, user: string, pass: string, sends: nat -> bool, polls: nat -> seq<seq<Event>>)

  /** How far a login has got. */
  datatype Progress = Progress(s: Session, ok: bool)

  /** A command in a state, and the wait for its answer. */
  function Asking(s: Session, st: St, cmd: string, sends: bool, polls: seq<seq<Event>>): (p: Progress)
    requires Sound(s)
    ensures Sound(p.s)
  {
    var asked := OnSend(s, st, cmd, sends);
    if s.ctrl && sends then Progress(Waited(asked, polls), Well(Waited(asked, polls).ctl)) else Progress(asked, false)
  }

  function Welcomed(x: Script): (p: Progress)
    ensures Sound(p.s)
  {
    var c := OnConnect(Session0(), x.tcpNew, x.connects);
    if x.tcpNew && x.connects then Progress(Waited(c, x.polls(0)), Well(Waited(c, x.polls(0)).ctl)) else Progress(c, false)
  }

  function UserSent(x: Script): (p: Progress)
    ensures Sound(p.s)
  {
    var p := Welcomed(x);
    if p.ok then Asking(p.s, WaitUser, Cut("USER " + x.user + "\r\n"), x.sends(1), x.polls(1)) else p
  }

  /** A password is sent unless the last reply in the phase before was 230. */
  function PassSent(x: Script): (p: Progress)
    ensures Sound(p.s)
  {
    var p := UserSent(x);
    if p.ok && p.s.code != 230 then Asking(p.s, WaitPass, Cut("PASS " + x.pass + "\r\n"), x.sends(2), x.polls(2)) else p
  }

  function LoggedIn(x: Script): (p: Progress)
    ensures Sound(p.s)
  {
    var p := PassSent(x);
    if !p.ok then p
    else
      var q := Asking(p.s, Ready, "TYPE I\r\n", x.sends(3), x.polls(3));
      q.(ok := q.ok && q.s.code == 200)
  }

  // --- A server that lets the client in ---

  datatype Answer = Answer(reply: seq<string>, pieces: seq<string>)

  /** The polls bring one reply with this code, in pieces. */
  predicate Brings(events: seq<Event>, a: Answer, code: int)
  {
    Fits(a.reply) && ReplyCode(a.reply) == code && Joined(a.pieces) == Text(a.reply) && events == Said(a.pieces)
  }

  /** A reply is awaited, and nothing of it has come. */
  predicate Awaiting(s: Session)
  {
    Sound(s) && s.ctrl && !s.ctl.data && !s.ctl.opDone && (IsPhase(s.ctl.st) || s.ctl.st == Ready)
  }

  function Heard(s: Session, code: int): Session
  {
    s.(ctl := React(s.ctl, code, None, true, true), code := code, resp := [])
  }

  lemma PieceHeard(s: Session, piece: string)
    requires Awaiting(s) && |s.resp + piece| <= BUFFER_USABLE
    ensures var code, r := LastCode(s.resp + piece), Deliver(s, CtrlData(piece, true, true));
            if code < 0 then r == s.(resp := s.resp + piece) else r == Heard(s, code)
  {
    hide LastCode, ParsePasv;
    assert piece[..|piece|] == piece;
  }

  lemma {:induction false} PartOfReply(s: Session, reply: seq<string>, pieces: seq<string>, rest: string)
    requires Awaiting(s) && Fits(reply) && Text(reply) == s.resp + Joined(pieces) + rest && rest != []
    ensures Run(s, Said(pieces)).ctl == s.ctl
    decreases |pieces|
  {
    hide LastCode, Text, Deliver, Run;
    if pieces == [] {
      RunNone(s);
    } else {
      var now := s.resp + pieces[0];
      assert Text(reply) == now + Joined(pieces[1..]) + rest && Text(reply)[..|now|] == now;
      SaidFront(s, pieces);
      PieceHeard(s, pieces[0]);
      PrefixIsIncomplete(reply, |now|);
      PartOfReply(s.(resp := now), reply, pieces[1..], rest);
    }
  }

  lemma {:induction false} WholeReply(s: Session, reply: seq<string>, pieces: seq<string>)
    requires Awaiting(s) && Fits(reply) && |s.resp| < |Text(reply)| && Text(reply) == s.resp + Joined(pieces)
    ensures Run(s, Said(pieces)) == Heard(s, ReplyCode(reply))
    decreases |pieces|
  {
    hide LastCode, Text, Deliver, Run, IsReply, ReplyCode, React;
    assert pieces != [];
    var piece, rest := pieces[0], pieces[1..];
    var now := s.resp + piece;
    SaidFront(s, pieces);
    Regroup(s.resp, piece, Joined(rest));
    PieceHeard(s, piece);
    ReplyIsComplete(reply);
    if |now| < |Text(reply)| {
      PrefixIsIncomplete(reply, |now|);
      WholeReply(s.(resp := now), reply, rest);
    } else {
      NothingSaid(Heard(s, ReplyCode(reply)), rest);
    }
  }

  /** However the callbacks fall into polls, the wait ends with the reply. */
  lemma WaitHears(s: Session, taken: seq<Event>, a: Answer, code: int)
    requires Awaiting(s) && s.resp == [] && Brings(Said(a.pieces), a, code) && taken <= Said(a.pieces)
    requires taken != Said(a.pieces) ==> Run(s, taken).ctl.opDone
    ensures Run(s, taken) == Heard(s, code)
  {
    hide Deliver, Run, Text, IsReply, ReplyCode, Joined, React;
    var j := |taken|;
    SaidTake(a.pieces, |a.pieces|);
    SaidTake(a.pieces, j);
    assert taken == Said(a.pieces[..j]) && a.pieces == a.pieces[..j] + a.pieces[j..];
    JoinedConcat(a.pieces[..j], a.pieces[j..]);
    var part, rest := Joined(a.pieces[..j]), Joined(a.pieces[j..]);
    TextIsLong(a.reply);
    JoinedNone();
    assert j == |a.pieces| ==> a.pieces[j..] == [];
    if rest == [] {
      assert Text(a.reply) == [] + part;
      WholeReply(s, a.reply, a.pieces[..j]);
    } else {
      assert Text(a.reply) == [] + part + rest;
      PartOfReply(s, a.reply, a.pieces[..j], rest);
    }
  }

  lemma JoinedNone()
    ensures Joined([]) == []
  {
  }

  /** One phase with a server that answers it well. */
  lemma PhaseServed(s: Session, st: St, cmd: string, polls: seq<seq<Event>>, a: Answer, code: int)
    requires Sound(s) && s.ctrl && !s.ctl.data && Brings(Callbacks(polls), a, code)
    requires (IsPhase(st) && Accepted(st, code)) || st == Ready
    ensures Asking(s, st, cmd, true, polls)
         == Progress(s.(ctl := Ctl(Ready, true, 0, false), code := code, resp := [], cmds := s.cmds + [cmd]), true)
  {
    hide Brings, Run, Deliver, Taken, Callbacks;
    var asked := OnSend(s, st, cmd, true);
    TakenIsPrefix(asked, polls);
    BringsSaid(Callbacks(polls), a, code);
    WaitHears(asked, Taken(asked, polls), a, code);
  }

  lemma BringsSaid(events: seq<Event>, a: Answer, code: int)
    requires Brings(events, a, code)
    ensures events == Said(a.pieces)
  {
  }

  /** The welcome comes after the connection. */
  lemma WelcomeServed(x: Script, greeting: seq<Event>, a: Answer)
    requires x.tcpNew && x.connects && Brings(greeting, a, 220) && Callbacks(x.polls(0)) == [CtrlConnected(true)] + greeting
    ensures Welcomed(x) == Progress(Session0().(ctrl := true, ctl := Ctl(Ready, true, 0, false), code := 220), true)
  {
    hide Brings, Run, Deliver, Taken, Callbacks;
    var c := OnConnect(Session0(), true, true);
    var taken, all := Taken(c, x.polls(0)), [CtrlConnected(true)] + greeting;
    TakenIsPrefix(c, x.polls(0));
    BringsSaid(greeting, a, 220);
    if taken == [] {
      RunNone(c);
      assert false;
    }
    var rest := taken[1..];
    assert taken[0] == all[0] && rest <= all[1..] == greeting;
    RunFront(c, taken);
    CtrlUp(c);
    WaitHears(c.(ctl := c.ctl.(st := WaitWelcome)), rest, a, 220);
  }

  lemma CtrlUp(c: Session)
    requires Sound(c) && c.ctrl && c.ctl.st == Connecting
    ensures Deliver(c, CtrlConnected(true)) == c.(ctl := c.ctl.(st := WaitWelcome))
  {
  }

  /** A server that welcomes with 220, answers USER with 331 or 230, PASS with 230 and TYPE with 200, is
      logged in to, however its replies are cut; and PASS is sent exactly after the 331. */
  lemma ServedLogin(x: Script, greeting: seq<Event>, welcome: Answer, user: Answer, pass: Answer, binary: Answer, needsPass: bool)
    requires x.tcpNew && x.connects && x.sends(1) && x.sends(2) && x.sends(3)
    requires Brings(greeting, welcome, 220) && Callbacks(x.polls(0)) == [CtrlConnected(true)] + greeting
    requires Brings(Callbacks(x.polls(1)), user, if needsPass then 331 else 230)
    requires needsPass ==> Brings(Callbacks(x.polls(2)), pass, 230)
    requires Brings(Callbacks(x.polls(3)), binary, 200)
    ensures var p := LoggedIn(x);
            && p.ok && p.s.ctl == Ctl(Ready, true, 0, false) && p.s.ctrl
            && p.s.cmds == [Cut("USER " + x.user + "\r\n")] + (if needsPass then [Cut("PASS " + x.pass + "\r\n")] else []) + ["TYPE I\r\n"]
  {
    hide Brings, Waited, Callbacks, Asking, Cut, Welcomed;
    var u, w, t := Cut("USER " + x.user + "\r\n"), Cut("PASS " + x.pass + "\r\n"), "TYPE I\r\n";
    WelcomeServed(x, greeting, welcome);
    PhaseServed(Welcomed(x).s, WaitUser, u, x.polls(1), user, if needsPass then 331 else 230);
    assert [] + [u] == [u];
    if needsPass {
      PhaseServed(UserSent(x).s, WaitPass, w, x.polls(2), pass, 230);
    }
    PhaseServed(PassSent(x).s, Ready, t, x.polls(3), binary, 200);
    assert [u] + [] == [u];
  }

  // --- The last reply of a phase ---

  /** The code of the last reply that the client acted on in a run. */
  function LastHeard(s: Session, events: seq<Event>): Option<int>
    requires Sound(s)
    decreases |events|
  {
    if events == [] then None
    else
      var before, e := events[..|events| - 1], events[|events| - 1];
      var now := Run(s, before);
      if e.CtrlData? && now.ctrl && LastCode(Appended(now.resp, e.piece)) >= 0
      then Some(LastCode(Appended(now.resp, e.piece))) else LastHeard(s, before)
  }

  lemma CodeStep(s: Session, e: Event)
    requires Sound(s)
    ensures Deliver(s, e).code
         == if e.CtrlData? && s.ctrl && LastCode(Appended(s.resp, e.piece)) >= 0 then LastCode(Appended(s.resp, e.piece)) else s.code
  {
    hide LastCode, ParsePasv, React, Pushed;
  }

  lemma {:induction false} CodeIsLastHeard(s: Session, events: seq<Event>)
    requires Sound(s)
    ensures Run(s, events).code == if LastHeard(s, events).Some? then LastHeard(s, events).value else s.code
    decreases |events|
  {
    hide Deliver, LastCode;
    if events != [] {
      CodeIsLastHeard(s, events[..|events| - 1]);
      CodeStep(Run(s, events[..|events| - 1]), events[|events| - 1]);
    }
  }

  /** PASS is sent unless the last reply to USER was a 230; and that is the one reply if there is one. */
  lemma PassSentExactly(x: Script)
    requires UserSent(x).ok
    ensures var asked := OnSend(Welcomed(x).s, WaitUser, Cut("USER " + x.user + "\r\n"), true);
            var last := LastHeard(asked, Taken(asked, x.polls(1)));
            && last.Some? && UserSent(x).s.code == last.value
            && (last == Some(230) ==> PassSent(x) == UserSent(x))
            && (last != Some(230) ==> PassSent(x) == Asking(UserSent(x).s, WaitPass, Cut("PASS " + x.pass + "\r\n"), x.sends(2), x.polls(2)))
  {
    hide Cut, Run, Taken, LastHeard, FirstAnswer;
    var asked := OnSend(Welcomed(x).s, WaitUser, Cut("USER " + x.user + "\r\n"), true);
    var events := Taken(asked, x.polls(1));
    WelcomeIsClean(x);
    CodeIsLastHeard(asked, events);
    PhaseRun(asked, WaitUser, events);
    FirstIsHeard(asked, WaitUser, events);
  }

  lemma WelcomeIsClean(x: Script)
    ensures var p := Welcomed(x);
            !p.s.ctl.data && !p.s.ctl.st.WaitPasv? && p.s.cmds == [] && SessionInv(p.s.ctl) && (p.ok ==> p.s.ctl.st == Ready)
  {
    hide Run, Taken;
    var c := OnConnect(Session0(), x.tcpNew, x.connects);
    if x.tcpNew && x.connects {
      CmdsKept(c, Taken(c, x.polls(0)));
      RunKeepsSession(c, Taken(c, x.polls(0)));
    }
  }

  lemma {:induction false} FirstIsHeard(s: Session, st: St, events: seq<Event>)
    requires Sound(s)
    ensures FirstAnswer(s, events, st).Some? ==> LastHeard(s, events).Some?
    decreases |events|
  {
    hide Deliver, LastCode;
    if events != [] {
      FirstIsHeard(s, st, events[..|events| - 1]);
    }
  }

  // --- The calls ---

  /** One step of the login: a command in a state, and the wait for its answer. */
  method Ask(c: Client, st: St, cmd: string, sends: bool, polls: seq<seq<Event>>) returns (ok: bool, ghost answer: Option<int>)
    requires c.Valid() && c.state == Ready && !c.dataPcb && (IsPhase(st) || st == Ready)
    modifies c, c.responseBuf, c.recvBuf
    ensures c.Valid() && c.recvBuf == old(c.recvBuf) && c.recvCapacity == old(c.recvCapacity) && !c.dataPcb
    ensures Progress(c.Value(), ok) == Asking(old(c.Value()), st, cmd, sends, polls)
    ensures ok ==> c.state == Ready && c.cmds == old(c.cmds) + [cmd]
    ensures ok && st != Ready ==> answer.Some? && Accepted(st, answer.value)
  {
    hide Run, Taken;
    answer := None;
    ok := false;
    var r := c.SendCmd(st, cmd, sends);
    if r == 0 {
      ghost var start, events := c.Value(), [];
      r, events := c.Wait(polls);
      CmdsKept(start, events);
      RunKeepsSession(start, events);
      if st != Ready {
        PhaseRun(start, st, events);
        answer := FirstAnswer(start, events, st);
      }
      ok := r == 0;
    }
  }

  /** The connection and the server's welcome. */
  method Connect(c: Client, x: Script) returns (ok: bool, ghost answer: Option<int>)
    requires c.Valid() && c.Value() == Session0()
    modifies c, c.responseBuf, c.recvBuf
    ensures c.Valid() && c.recvBuf == old(c.recvBuf) && c.recvCapacity == old(c.recvCapacity)
    ensures Progress(c.Value(), ok) == Welcomed(x)
    ensures !c.dataPcb && c.cmds == []
    ensures ok ==> c.state == Ready && answer == Some(220)
    ensures !ok && !(x.tcpNew && x.connects) ==> !c.ctrlPcb
  {
    hide Run, Taken;
    answer := None;
    ok := false;
    var r := c.Connect(x.tcpNew, x.connects);
    if r == 0 {
      ghost var start, events := c.Value(), [];
      r, events := c.Wait(x.polls(0));
      CmdsKept(start, events);
      PhaseRun(start, WaitWelcome, events);
      answer := FirstAnswer(start, events, WaitWelcome);
      ok := r == 0;
    }
  }

  /** Phases 1 to 3: the welcome, USER, and PASS unless the server needs none. */
  method Authenticate(c: Client, x: Script) returns (ok: bool, ghost codes: seq<int>)
    requires c.Valid() && c.Value() == Session0()
    modifies c, c.responseBuf, c.recvBuf
    ensures c.Valid() && !c.dataPcb && c.recvBuf == old(c.recvBuf) && Progress(c.Value(), ok) == PassSent(x)
    ensures !(x.tcpNew && x.connects) ==> !ok && !c.ctrlPcb
    ensures ok ==>
        && c.state == Ready
        && 2 <= |codes| <= 3 && codes[0] == 220 && (codes[1] == 331 || codes[1] == 230) && (|codes| == 3 ==> codes[2] == 230)
        && c.cmds == [Cut("USER " + x.user + "\r\n")] + (if |codes| == 3 then [Cut("PASS " + x.pass + "\r\n")] else [])
  {
    hide Asking, Welcomed, Cut;
    codes := [];
    ghost var answer;
    ok, answer := Connect(c, x);
    if !ok {
      return;
    }
    WelcomeConnects(x);
    codes := [answer.value];
    ok, answer := Ask(c, WaitUser, Cut("USER " + x.user + "\r\n"), x.sends(1), x.polls(1));
    if !ok {
      return;
    }
    codes := codes + [answer.value];
    if c.responseCode != 230 {
      ok, answer := Ask(c, WaitPass, Cut("PASS " + x.pass + "\r\n"), x.sends(2), x.polls(2));
      if !ok {
        return;
      }
      codes := codes + [answer.value];
    }
  }

  /** hw_ftp_connect_sync: success exactly if the login gets through.  A session that is logged in was
      welcomed with 220, had its USER accepted with 331 or 230 and its PASS, if one was sent, with 230,
      and was put into binary mode with 200; the commands sent are exactly those.  Otherwise no
      connection is left. */
  method ConnectSync(c: Client, x: Script) returns (r: int, ghost codes: seq<int>)
    requires c.Valid() && c.Value() == Session0()
    modifies c, c.responseBuf, c.recvBuf
    ensures c.Valid() && !c.dataPcb && (r == 0 || r == -1) && (r == 0 <==> LoggedIn(x).ok)
    ensures c.Value() == if r == 0 || !(x.tcpNew && x.connects) then LoggedIn(x).s else OnDisconnect(LoggedIn(x).s)
    ensures r == 0 ==>
        && c.state == Ready && c.responseCode == 200
        && 2 <= |codes| <= 3 && codes[0] == 220 && (codes[1] == 331 || codes[1] == 230) && (|codes| == 3 ==> codes[2] == 230)
        && c.cmds == [Cut("USER " + x.user + "\r\n")] + (if |codes| == 3 then [Cut("PASS " + x.pass + "\r\n")] else []) + ["TYPE I\r\n"]
    ensures r == -1 ==> !c.ctrlPcb
  {
    hide Asking, PassSent, Cut;
    r := -1;
    var ok;
    ok, codes := Authenticate(c, x);
    if ok {
      ghost var answer;
      ok, answer := Ask(c, Ready, "TYPE I\r\n", x.sends(3), x.polls(3));
      ok := ok && c.responseCode == 200;
    }
    if ok {
      r := 0;
    } else if x.tcpNew && x.connects {
      c.Disconnect();
    }
  }

  lemma WelcomeConnects(x: Script)
    requires Welcomed(x).ok
    ensures x.tcpNew && x.connects
  {
  }
}
