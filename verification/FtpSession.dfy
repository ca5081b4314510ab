/** The FTP client's state machine on values: what each lwIP callback and each call does to a
    session, and what holds in every run.  Commands handed to the control connection and bytes
    handed to the data connection are part of the state. */
module FtpSession {
  import opened Checksum
  import opened FtpReply
  import opened FtpPasv

  datatype St =
    | Idle | Connecting | WaitWelcome | WaitUser | WaitPass | Ready | WaitPasv
    | DataConnecting | SendingCmd | Transferring | WaitDone | Error

  /** state, op_done, op_result, and whether data_pcb is set. */
  datatype Ctl = Ctl(st: St, opDone: bool, opResult: int, data: bool)

  datatype Session = Session(
    ctl: Ctl,
    code: int, resp: string,                   // response_code, response_buf
    ctrl: bool,                                // ctrl_pcb is set
    isUpload: bool, upload: Option<seq<byte>>, offset: nat,
    hasBuf: bool, received: seq<byte>, capacity: nat,
    pasv: Address, pending: string,
    cmds: seq<string>, written: seq<byte>)     // sent so far on the two connections

  datatype Op = List | Retr(path: string) | Stor(path: string, content: Option<seq<byte>>)

  /** One turn of the upload loop: the room in the send buffer, and whether tcp_write succeeds. */
  datatype Write = Write(room: word, ok: bool)

  /** A callback from lwIP.  The flags say how the calls back into lwIP turn out. */
  datatype Event =
    | CtrlConnected(ok: bool)
    | CtrlData(piece: string, tcpNew: bool, connects: bool)
    | CtrlClosed
    | CtrlError
    | DataConnected(ok: bool, sends: bool, writes: seq<Write>)
    | DataData(chunk: seq<byte>)
    | DataClosed
    | DataSent(writes: seq<Write>)
    | DataError

  predicate Sound(s: Session)
  {
    |s.resp| <= BUFFER_USABLE && (s.upload.Some? ==> s.offset <= |s.upload.value|)
  }

  function Fail(c: Ctl): Ctl { c.(st := Error, opDone := true, opResult := -1) }

  function Succeed(c: Ctl): Ctl { c.(st := Ready, opDone := true, opResult := 0) }

  // --- The control channel ---

  /** The switch of ftp_ctrl_recv_cb; `address` is what the reply gives as PASV address. */
  function React(c: Ctl, code: int, address: Option<Address>, tcpNew: bool, connects: bool): Ctl
  {
    match c.st
    case WaitWelcome => if code == 220 then Succeed(c) else Fail(c)
    case WaitUser => if code == 331 || code == 230 then Succeed(c) else Fail(c)
    case WaitPass => if code == 230 then Succeed(c) else Fail(c)
    case WaitPasv =>
      if code != 227 || address.None? then Fail(c)
      else if !tcpNew then Fail(c.(data := false))
      else if !connects then Fail(c.(data := true))
      else c.(data := true, st := DataConnecting)
    case SendingCmd =>
      if 100 <= code < 200 then c
      else if code == 150 || code == 125 then c.(st := Transferring)
      else Fail(c)
    case Transferring => if code == 226 then Succeed(c) else if code == 150 || code == 125 then c else Fail(c)
    case WaitDone => if code == 226 then Succeed(c) else if code == 150 || code == 125 then c else Fail(c)
    case Ready => c.(opDone := true, opResult := 0)
    case _ => c
  }

  function OnCtrlData(s: Session, piece: string, tcpNew: bool, connects: bool): (s': Session)
    requires Sound(s)
    ensures Sound(s')
  {
    var text := Appended(s.resp, piece);
    var code := LastCode(text);
    if code < 0 then s.(resp := text)
    else
      var address := ParsePasv(text);
      s.(ctl := React(s.ctl, code, address, tcpNew, connects), code := code, resp := [],
         pasv := if s.ctl.st == WaitPasv && code == 227 && address.Some? then address.value else s.pasv)
  }

  // --- The data channel ---

  /** How far the loop of ftp_data_push_upload gets. */
  function Pushed(total: nat, offset: nat, writes: seq<Write>): (o: nat)
    requires offset <= total
    ensures offset <= o <= total
    decreases |writes|
  {
    if offset == total || writes == [] || writes[0].room == 0 || !writes[0].ok then offset
    else Pushed(total, offset + FtpReply.Min(total - offset, writes[0].room), writes[1..])
  }

  /** The last byte closes the data channel. */
  function PushUpload(s: Session, writes: seq<Write>): (s': Session)
    requires Sound(s)
    ensures Sound(s')
  {
    if !s.ctl.data || s.upload.None? then s
    else
      var d := s.upload.value;
      var o := Pushed(|d|, s.offset, writes);
      s.(offset := o, written := s.written + d[s.offset..o],
         ctl := if o >= |d| then s.ctl.(data := false, st := WaitDone) else s.ctl)
  }

  function OnDataConnected(s: Session, ok: bool, sends: bool, writes: seq<Write>): (s': Session)
    requires Sound(s)
    ensures Sound(s')
  {
    if !ok then s.(ctl := Fail(s.ctl))
    else if s.pending == [] then s
    else
      var s' := s.(ctl := s.ctl.(st := SendingCmd), pending := [],
                   cmds := if s.ctrl && sends then s.cmds + [s.pending] else s.cmds);
      if s.isUpload then PushUpload(s', writes) else s'
  }

  function OnDataData(s: Session, chunk: seq<byte>): (s': Session)
    requires Sound(s)
    ensures Sound(s')
  {
    if s.hasBuf && |s.received| < s.capacity
    then s.(received := s.received + chunk[..FtpReply.Min(|chunk|, s.capacity - |s.received|)])
    else s
  }

  function OnDataClosed(s: Session): (s': Session)
    requires Sound(s)
    ensures Sound(s')
  {
    s.(ctl := s.ctl.(data := false,
                     st := if s.ctl.st == Transferring || s.ctl.st == SendingCmd then WaitDone else s.ctl.st))
  }

  function OnDataSent(s: Session, writes: seq<Write>): (s': Session)
    requires Sound(s)
    ensures Sound(s')
  {
    if s.isUpload && s.upload.Some? && s.offset < |s.upload.value| then PushUpload(s, writes) else s
  }

  function OnDataError(s: Session): (s': Session)
    requires Sound(s)
    ensures Sound(s')
  {
    var c := s.ctl.(data := false);
    s.(ctl := if c.st != Ready && c.st != Idle then Fail(c) else c)
  }

  /** lwIP calls back only on a connection that exists. */
  predicate Enabled(s: Session, e: Event)
  {
    match e
    case CtrlConnected(_) => s.ctrl && s.ctl.st == Connecting
    case CtrlData(_, _, _) => s.ctrl
    case CtrlClosed => s.ctrl
    case CtrlError => s.ctrl
    case _ => s.ctl.data
  }

  function Deliver(s: Session, e: Event): (s': Session)
    requires Sound(s)
    ensures Sound(s')
  {
    if !Enabled(s, e) then s
    else
      match e
      case CtrlConnected(ok) => s.(ctl := if ok then s.ctl.(st := WaitWelcome) else Fail(s.ctl))
      case CtrlData(piece, tcpNew, connects) => OnCtrlData(s, piece, tcpNew, connects)
      case CtrlClosed => s.(ctl := Fail(s.ctl))
      case CtrlError => s.(ctrl := false, ctl := Fail(s.ctl))
      case DataConnected(ok, sends, writes) => OnDataConnected(s, ok, sends, writes)
      case DataData(chunk) => OnDataData(s, chunk)
      case DataClosed => OnDataClosed(s)
      case DataSent(writes) => OnDataSent(s, writes)
      case DataError => OnDataError(s)
  }

  // --- Calls ---

  /** snprintf into pending_cmd[256]. */
  function Cut(cmd: string): string { cmd[..FtpReply.Min(|cmd|, 255)] }

  function Command(op: Op): (c: string)
    ensures c != []
  {
    match op
    case List => "LIST\r\n"
    case Retr(path) => Cut("RETR " + path + "\r\n")
    case Stor(path, _) => Cut("STOR " + path + "\r\n")
  }

  /** What ftp_start_list, ftp_start_retr and ftp_start_stor set before they call ftp_start_pasv. */
  function Prepare(s: Session, op: Op, hasBuf: bool, capacity: nat): (s': Session)
    requires Sound(s)
    ensures Sound(s')
  {
    s.(hasBuf := hasBuf, received := [], capacity := capacity,
       isUpload := op.Stor?, upload := if op.Stor? then op.content else None, offset := 0, pending := Command(op))
  }

  /** ftp_send_cmd, after the caller set the state. */
  function OnSend(s: Session, st: St, cmd: string, sends: bool): (s': Session)
    requires Sound(s)
    ensures Sound(s')
  {
    CtrlSend(Await(s, st), cmd, sends)
  }

  /** A new operation, with nothing of an older reply left. */
  function Await(s: Session, st: St): (s': Session)
    requires Sound(s)
    ensures Sound(s')
  {
    s.(ctl := Ctl(st, false, 0, s.ctl.data), resp := [], code := 0)
  }

  /** ftp_ctrl_send. */
  function CtrlSend(s: Session, cmd: string, sends: bool): (s': Session)
    requires Sound(s)
    ensures Sound(s')
  {
    s.(cmds := if s.ctrl && sends then s.cmds + [cmd] else s.cmds)
  }

  /** ftp_start_pasv. */
  function StartPasv(s: Session, sends: bool): (s': Session)
    requires Sound(s)
    ensures Sound(s')
  {
    OnSend(s, WaitPasv, "PASV\r\n", sends)
  }

  /** The start of an operation; an upload has no receive buffer. */
  function Start(s: Session, op: Op, hasBuf: bool, capacity: nat, sends: bool): (s': Session)
    requires Sound(s)
    ensures Sound(s')
  {
    StartPasv(Prepare(s, op, !op.Stor? && hasBuf, if op.Stor? then 0 else capacity), sends)
  }

  /** ftp_cleanup_data. */
  function Cleanup(s: Session): Session
  {
    s.(ctl := s.ctl.(data := false, st := Ready), hasBuf := false, received := [], upload := None, offset := 0)
  }

  // --- Runs of one operation ---

  function Run(s: Session, events: seq<Event>): (s': Session)
    requires Sound(s)
    ensures Sound(s')
    decreases |events|
  {
    if events == [] then s else Deliver(Run(s, events[..|events| - 1]), events[|events| - 1])
  }

  lemma RunMore(s: Session, events: seq<Event>, e: Event)
    requires Sound(s)
    ensures Run(s, events + [e]) == Deliver(Run(s, events), e)
  {
    assert (events + [e])[..|events + [e]| - 1] == events;
  }

  /** What was observed on the wire: the bytes of the peer's data stream, whether the peer closed it,
      whether the client acted on a 226 when there was no data connection any more, and whether it
      acted on one after the peer's close. */
  datatype Seen = Seen(bytes: seq<byte>, closed: bool, done: bool, doneAfterClose: bool)

  function Nothing(): Seen { Seen([], false, false, false) }

  function Observe(seen: Seen, s: Session, e: Event): Seen
    requires Sound(s)
  {
    if !Enabled(s, e) then seen
    else
      match e
      case DataData(chunk) => seen.(bytes := seen.bytes + chunk)
      case DataClosed => seen.(closed := true)
      case CtrlData(piece, _, _) =>
        if LastCode(Appended(s.resp, piece)) == 226
        then seen.(done := seen.done || !s.ctl.data, doneAfterClose := seen.doneAfterClose || seen.closed)
        else seen
      case _ => seen
  }

  function SeenIn(s: Session, events: seq<Event>): Seen
    requires Sound(s)
    decreases |events|
  {
    if events == [] then Nothing()
    else
      var before := events[..|events| - 1];
      Observe(SeenIn(s, before), Run(s, before), events[|events| - 1])
  }

  function FirstBytes(bytes: seq<byte>, n: nat): seq<byte> { bytes[..FtpReply.Min(|bytes|, n)] }

  predicate InTransfer(st: St)
  {
    st.Ready? || st.WaitPasv? || st.DataConnecting? || st.SendingCmd? || st.WaitDone? || st.Error?
  }

  predicate TransferInv(c: Ctl, seen: Seen)
  {
    && InTransfer(c.st)
    && (c.st.Ready? || c.st.WaitDone? || c.st.WaitPasv? ==> !c.data)
    && (c.st.Ready? ==> seen.done)
    && (c.st.WaitPasv? ==> seen == Nothing())
    && (seen.closed ==> !c.data)
    && (c.opDone && c.opResult == 0 ==> c.st.Ready?)
  }

  /** A download: nothing but the peer's close leads to WAIT_DONE. */
  predicate DownloadInv(s: Session, seen: Seen, capacity: nat)
  {
    && TransferInv(s.ctl, seen) && !s.isUpload && s.hasBuf && s.capacity == capacity
    && (s.ctl.st.Ready? || s.ctl.st.WaitDone? ==> seen.closed) && (s.ctl.st.Ready? ==> seen.doneAfterClose)
    && s.received == FirstBytes(seen.bytes, capacity)
  }

  /** An upload: the client writes the content in order, and closes the channel with its last byte. */
  predicate UploadInv(s: Session, seen: Seen, content: seq<byte>, before: seq<byte>)
  {
    && TransferInv(s.ctl, seen) && s.isUpload && s.upload == Some(content) && s.offset <= |content|
    && s.written == before + content[..s.offset]
    && (s.ctl.st.Ready? || s.ctl.st.WaitDone? ==> s.offset == |content| || seen.closed)
    && (s.ctl.data && s.pending == [] ==> s.offset < |content|)
    && (s.ctl.st.WaitPasv? ==> s.pending != [])
  }

  lemma ReactKeeps(c: Ctl, seen: Seen, seen': Seen, code: int, address: Option<Address>, tcpNew: bool, connects: bool)
    requires TransferInv(c, seen)
    requires seen'.bytes == seen.bytes && seen'.closed == seen.closed && (seen.done ==> seen'.done)
    requires code == 226 && !c.data ==> seen'.done
    ensures var c' := React(c, code, address, tcpNew, connects);
            TransferInv(c', seen')
            && (c'.st.Ready? ==> c.st.Ready? || (c.st.WaitDone? && code == 226)) && (c'.st.WaitDone? ==> c.st.WaitDone?)
            && (c'.data && !c.data ==> c.st.WaitPasv?) && !c'.st.WaitPasv?
  {
  }

  lemma CtrlStep(s: Session, seen: Seen, e: Event)
    requires Sound(s) && TransferInv(s.ctl, seen) && e.CtrlData?
    ensures var s', seen' := Deliver(s, e), Observe(seen, s, e);
            TransferInv(s'.ctl, seen')
            && seen'.bytes == seen.bytes && seen'.closed == seen.closed && (seen.doneAfterClose ==> seen'.doneAfterClose)
            && (s'.ctl.st.Ready? ==> s.ctl.st.Ready? || (s.ctl.st.WaitDone? && (seen.closed ==> seen'.doneAfterClose)))
            && (s'.ctl.st.WaitDone? ==> s.ctl.st.WaitDone?)
            && (s'.ctl.data && !s.ctl.data ==> s.ctl.st.WaitPasv?) && (s'.ctl.st.WaitPasv? ==> s.ctl.st.WaitPasv?)
            && s' == s.(ctl := s'.ctl, code := s'.code, resp := s'.resp, pasv := s'.pasv)
  {
    hide LastCode, React, ParsePasv;
    if s.ctrl {
      var text := Appended(s.resp, e.piece);
      var code := LastCode(text);
      if code >= 0 {
        ReactKeeps(s.ctl, seen, Observe(seen, s, e), code, ParsePasv(text), e.tcpNew, e.connects);
      }
    }
  }

  lemma StoredMore(bytes: seq<byte>, chunk: seq<byte>, n: nat)
    ensures FirstBytes(bytes + chunk, n)
         == var r := FirstBytes(bytes, n); if |r| < n then r + chunk[..FtpReply.Min(|chunk|, n - |r|)] else r
  {
  }

  lemma DownloadStep(s: Session, seen: Seen, capacity: nat, e: Event)
    requires Sound(s) && DownloadInv(s, seen, capacity)
    ensures DownloadInv(Deliver(s, e), Observe(seen, s, e), capacity)
  {
    hide OnCtrlData, LastCode;
    if e.CtrlData? {
      CtrlStep(s, seen, e);
    } else if e.DataData? {
      StoredMore(seen.bytes, e.chunk, capacity);
    }
  }

  lemma {:induction false} DownloadRun(s: Session, events: seq<Event>, capacity: nat)
    requires Sound(s) && DownloadInv(s, Nothing(), capacity)
    ensures DownloadInv(Run(s, events), SeenIn(s, events), capacity)
    decreases |events|
  {
    if events != [] {
      var before := events[..|events| - 1];
      DownloadRun(s, before, capacity);
      DownloadStep(Run(s, before), SeenIn(s, before), capacity, events[|events| - 1]);
    }
  }

  /** Transfer completeness: a LIST or RETR that ends well saw the peer close the data channel, and
      then a 226; the buffer holds the beginning of the whole data stream, as much as fits. */
  lemma TransferComplete(s: Session, op: Op, capacity: nat, sends: bool, events: seq<Event>)
    requires Sound(s) && !op.Stor? && !s.ctl.data
    ensures var start := Start(s, op, true, capacity, sends);
            var end, seen := Run(start, events), SeenIn(start, events);
            end.received == FirstBytes(seen.bytes, capacity)
            && (end.ctl.opDone && end.ctl.opResult == 0 ==> seen.closed && seen.doneAfterClose && !end.ctl.data && end.ctl.st == Ready)
  {
    DownloadRun(Start(s, op, true, capacity, sends), events, capacity);
  }

  // --- Uploads ---

  /** Writing on: one piece after the other, and the close with the last one. */
  lemma PushStep(s: Session, content: seq<byte>, before: seq<byte>, writes: seq<Write>)
    requires Sound(s) && s.upload == Some(content) && s.written == before + content[..s.offset]
    ensures var s' := PushUpload(s, writes);
            s'.written == before + content[..s'.offset] && s' == s.(ctl := s'.ctl, offset := s'.offset, written := s'.written)
            && (if s.ctl.data && s'.offset == |content| then s'.ctl == s.ctl.(data := false, st := WaitDone)
                else s'.ctl == s.ctl)
  {
    hide Pushed;
    if s.ctl.data {
      var o := Pushed(|content|, s.offset, writes);
      assert content[..o] == content[..s.offset] + content[s.offset..o];
    }
  }

  lemma UploadStep(s: Session, seen: Seen, content: seq<byte>, before: seq<byte>, e: Event)
    requires Sound(s) && UploadInv(s, seen, content, before)
    ensures UploadInv(Deliver(s, e), Observe(seen, s, e), content, before)
  {
    hide OnCtrlData, LastCode, PushUpload;
    match e
    case CtrlData(_, _, _) => CtrlStep(s, seen, e);
    case DataSent(writes) => PushStep(s, content, before, writes);
    case DataConnected(ok, sends, writes) =>
      PushStep(s.(ctl := s.ctl.(st := SendingCmd), pending := [], cmds := if s.ctrl && sends then s.cmds + [s.pending] else s.cmds),
               content, before, writes);
    case _ =>
  }

  lemma {:induction false} UploadRun(s: Session, events: seq<Event>, content: seq<byte>, before: seq<byte>)
    requires Sound(s) && UploadInv(s, Nothing(), content, before)
    ensures UploadInv(Run(s, events), SeenIn(s, events), content, before)
    decreases |events|
  {
    if events != [] {
      var prefix := events[..|events| - 1];
      UploadRun(s, prefix, content, before);
      UploadStep(Run(s, prefix), SeenIn(s, prefix), content, before, events[|events| - 1]);
    }
  }

  /** In every run of a STOR the bytes written are the beginning of the content, and the channel is
      open after the command only while bytes remain; one that ends well wrote everything, unless the
      peer closed the data channel first, and then saw a 226. */
  lemma UploadComplete(s: Session, path: string, content: seq<byte>, sends: bool, events: seq<Event>)
    requires Sound(s) && !s.ctl.data
    ensures var start := Start(s, Stor(path, Some(content)), false, 0, sends);
            var end, seen := Run(start, events), SeenIn(start, events);
            end.offset <= |content| && end.written == s.written + content[..end.offset]
            && (end.ctl.data && end.pending == [] ==> end.offset < |content|)
            && (end.ctl.opDone && end.ctl.opResult == 0 ==>
                  seen.done && end.ctl.st == Ready && (end.written == s.written + content || seen.closed))
  {
    var start := Start(s, Stor(path, Some(content)), false, 0, sends);
    assert s.written + content[..0] == s.written;
    UploadRun(start, events, content, s.written);
    assert content[..|content|] == content;
  }

  // --- A whole session ---

  /** What the exported calls do, each under the check that its caller makes before it. */
  datatype Action =
    | Connect(tcpNew: bool, connects: bool)
    | Send(st: St, cmd: string, sends: bool)     // login steps and plain commands, in READY
    | Begin(op: Op, hasBuf: bool, capacity: nat, sends: bool)
    | CleanUp
    | Quit(sends: bool)
    | Disconnect
    | Callback(e: Event)

  predicate Allowed(s: Session, a: Action)
  {
    match a
    case Connect(_, _) => s.ctl.st == Idle
    case Send(st, _, _) => s.ctl.st == Ready && (st == WaitUser || st == WaitPass || st == Ready)
    case Begin(_, _, _, _) => s.ctl.st == Ready
    case _ => true
  }

  /** ftp_connect. */
  function OnConnect(s: Session, tcpNew: bool, connects: bool): (s': Session)
    requires Sound(s)
    ensures Sound(s')
  {
    if s.ctrl || !tcpNew then s
    else s.(ctrl := connects, resp := [], code := 0, ctl := Ctl(if connects then Connecting else Error, false, 0, s.ctl.data))
  }

  /** ftp_disconnect. */
  function OnDisconnect(s: Session): (s': Session)
    requires Sound(s)
    ensures Sound(s')
  {
    s.(ctrl := false, ctl := Ctl(Idle, false, s.ctl.opResult, false))
  }

  function Act(s: Session, a: Action): (s': Session)
    requires Sound(s)
    ensures Sound(s')
  {
    match a
    case Connect(tcpNew, connects) => OnConnect(s, tcpNew, connects)
    case Send(st, cmd, sends) => OnSend(s, st, cmd, sends)
    case Begin(op, hasBuf, capacity, sends) => Start(s, op, hasBuf, capacity, sends)
    case CleanUp => Cleanup(s)
    case Quit(sends) => OnSend(s, s.ctl.st, "QUIT\r\n", sends)
    case Disconnect => OnDisconnect(s)
    case Callback(e) => Deliver(s, e)
  }

  /** The data connection belongs to a transfer under way, success leaves the session READY, and
      TRANSFERRING is never entered: every 1xx reply is ignored before it is looked at closer. */
  predicate SessionInv(c: Ctl)
  {
    && !c.st.Transferring?
    && (c.data ==> c.st.DataConnecting? || c.st.SendingCmd? || c.st.Error?)
    && (c.opDone && c.opResult == 0 ==> c.st.Ready?)
  }

  lemma ReactKeepsSession(c: Ctl, code: int, address: Option<Address>, tcpNew: bool, connects: bool)
    requires SessionInv(c)
    ensures SessionInv(React(c, code, address, tcpNew, connects))
  {
  }

  lemma DeliverKeepsSession(s: Session, e: Event)
    requires Sound(s) && SessionInv(s.ctl)
    ensures SessionInv(Deliver(s, e).ctl)
  {
    hide LastCode, React, ParsePasv, Pushed;
    if e.CtrlData? {
      var text := Appended(s.resp, e.piece);
      ReactKeepsSession(s.ctl, LastCode(text), ParsePasv(text), e.tcpNew, e.connects);
    }
  }

  lemma SessionStep(s: Session, a: Action)
    requires Sound(s) && SessionInv(s.ctl) && Allowed(s, a)
    ensures SessionInv(Act(s, a).ctl)
  {
    hide Deliver;
    if a.Callback? {
      DeliverKeepsSession(s, a.e);
    }
  }

  function Session0(): Session
  {
    Session(Ctl(Idle, false, 0, false), 0, [], false, false, None, 0, false, [], 0, Address([], 0), [], [], [])
  }

  ghost predicate SessionRun(states: seq<Session>, actions: seq<Action>)
  {
    && |states| == |actions| + 1 && states[0] == Session0()
    && forall k | 0 <= k < |actions| :: ActAt(states, actions, k)
  }

  ghost predicate ActAt(states: seq<Session>, actions: seq<Action>, k: nat)
    requires |states| == |actions| + 1 && k < |actions|
  {
    Sound(states[k]) && Allowed(states[k], actions[k]) && states[k + 1] == Act(states[k], actions[k])
  }

  /** In every session, TRANSFERRING is unreachable, and a transfer can only begin without a data
      connection left over from an earlier one. */
  lemma {:induction false} SessionKeepsInv(states: seq<Session>, actions: seq<Action>, k: nat)
    requires SessionRun(states, actions) && k < |states|
    ensures Sound(states[k]) && SessionInv(states[k].ctl)
    decreases k
  {
    if k != 0 {
      SessionKeepsInv(states, actions, k - 1);
      assert ActAt(states, actions, k - 1);
      SessionStep(states[k - 1], actions[k - 1]);
    }
  }

  /** A session goes on with a connect when it is idle, a plain command or a transfer when it is READY,
      and with anything else at any time. */
  lemma SessionGoesOn(states: seq<Session>, actions: seq<Action>, a: Action)
    requires SessionRun(states, actions) && |states| == |actions| + 1
    requires a.Connect? ==> states[|actions|].ctl.st == Idle
    requires a.Send? || a.Begin? ==> states[|actions|].ctl.st == Ready
    requires a.Send? ==> a.st == WaitUser || a.st == WaitPass || a.st == Ready
    ensures Sound(states[|actions|]) && SessionRun(states + [Act(states[|actions|], a)], actions + [a])
  {
    hide Act;
    SessionKeepsInv(states, actions, |actions|);
    var states', actions' := states + [Act(states[|actions|], a)], actions + [a];
    forall k | 0 <= k < |actions'| ensures ActAt(states', actions', k) {
      if k < |actions| {
        assert ActAt(states, actions, k);
      }
    }
  }

  lemma {:induction false} RunConcat(s: Session, a: seq<Event>, b: seq<Event>)
    requires Sound(s)
    ensures Run(s, a + b) == Run(Run(s, a), b)
    decreases |b|
  {
    if b == [] {
      assert a + b == a;
    } else {
      assert (a + b)[..|a + b| - 1] == a + b[..|b| - 1];
      RunConcat(s, a, b[..|b| - 1]);
    }
  }

  // --- The command ---

  /** Whether the data connection of an operation has come up, and whether its command could then be
      handed to the control connection. */
  function Opening(s: Session, events: seq<Event>): Option<bool>
    requires Sound(s)
    decreases |events|
  {
    if events == [] then None
    else
      var before, e := events[..|events| - 1], events[|events| - 1];
      var now := Run(s, before);
      if Opening(s, before).Some? then Opening(s, before)
      else if e.DataConnected? && e.ok && now.ctl.data then Some(now.ctrl && e.sends)
      else None
  }

  /** What an operation has sent so far, and what it still has to send. */
  predicate SentSoFar(s: Session, before: seq<string>, line: string, opening: Option<bool>)
  {
    && s.pending == (if opening == None then line else [])
    && s.cmds == before + ["PASV\r\n"] + (if opening == Some(true) then [line] else [])
  }

  lemma SentSoFarStep(s: Session, e: Event, before: seq<string>, line: string, opening: Option<bool>)
    requires Sound(s) && SentSoFar(s, before, line, opening) && line != []
    ensures SentSoFar(Deliver(s, e), before, line,
                      if opening.Some? then opening
                      else if e.DataConnected? && e.ok && s.ctl.data then Some(s.ctrl && e.sends) else None)
  {
    hide LastCode, ParsePasv, Pushed, React;
  }

  lemma {:induction false} SentSoFarRun(s: Session, events: seq<Event>, before: seq<string>, line: string)
    requires Sound(s) && SentSoFar(s, before, line, None) && line != []
    ensures SentSoFar(Run(s, events), before, line, Opening(s, events))
    decreases |events|
  {
    hide Deliver, SentSoFar;
    if events != [] {
      var prefix := events[..|events| - 1];
      SentSoFarRun(s, prefix, before, line);
      SentSoFarStep(Run(s, prefix), events[|events| - 1], before, line, Opening(s, prefix));
    }
  }

  /** In every run of an operation the commands are PASV, and then, once the data connection is up and
      if the control connection takes it, the one line that asks for just this list or file, cut after
      255 characters. */
  lemma CommandsSent(s: Session, op: Op, hasBuf: bool, capacity: nat, events: seq<Event>, line: string)
    requires Sound(s) && s.ctrl
    requires line == if op.List? then "LIST\r\n" else (if op.Retr? then "RETR " else "STOR ") + op.path + "\r\n"
    ensures var start := Start(s, op, hasBuf, capacity, true);
            SentSoFar(Run(start, events), s.cmds, if |line| <= 255 then line else line[..255], Opening(start, events))
  {
    assert |line| <= 255 ==> line[..|line|] == line;
    StartsWithPasv(s, op, hasBuf, capacity);
    hide Start, Run, SentSoFar;
    SentSoFarRun(Start(s, op, hasBuf, capacity, true), events, s.cmds, Command(op));
  }

  lemma StartsWithPasv(s: Session, op: Op, hasBuf: bool, capacity: nat)
    requires Sound(s) && s.ctrl
    ensures SentSoFar(Start(s, op, hasBuf, capacity, true), s.cmds, Command(op), None)
  {
    hide Command;
  }

  // --- Waiting ---

  /** The callbacks of a wait: those of one poll after the other, until a poll leaves the operation done. */
  function Taken(s: Session, polls: seq<seq<Event>>): seq<Event>
    requires Sound(s)
    decreases |polls|
  {
    if polls == [] || s.ctl.opDone then [] else polls[0] + Taken(Run(s, polls[0]), polls[1..])
  }

  /** The session after a wait; result 1 says that the deadline passed. */
  function Waited(s: Session, polls: seq<seq<Event>>): (s': Session)
    requires Sound(s)
    ensures Sound(s')
  {
    var r := Run(s, Taken(s, polls));
    if r.ctl.opDone then r else r.(ctl := r.ctl.(opResult := 1))
  }

  /** That the deadline passed shows in the result alone. */
  lemma WaitedIs(s: Session, polls: seq<seq<Event>>)
    requires Sound(s)
    ensures var r, end := Run(s, Taken(s, polls)), Waited(s, polls);
            && end == r.(ctl := end.ctl) && end.ctl.st == r.ctl.st && end.ctl.data == r.ctl.data
            && (end.ctl.opDone && end.ctl.opResult == 0 <==> r.ctl.opDone && r.ctl.opResult == 0)
  {
    hide Run, Taken;
  }

  /** What has happened if PASV could not be sent. */
  lemma NotStarted(s: Session, op: Op, hasBuf: bool, capacity: nat, sends: bool)
    requires Sound(s) && !(s.ctrl && sends)
    ensures var r := Start(s, op, hasBuf, capacity, sends);
            r.ctl == Ctl(WaitPasv, false, 0, s.ctl.data) && r.cmds == s.cmds && r.written == s.written
  {
    hide Command;
  }

  /** A download's command is sent once. */
  predicate SentOnce(s: Session) { !s.isUpload && (s.ctl.st == SendingCmd ==> s.pending == []) }

  lemma SentOnceStep(s: Session, e: Event)
    requires Sound(s) && SentOnce(s)
    ensures SentOnce(Deliver(s, e))
  {
    hide LastCode, ParsePasv;
  }

  lemma {:induction false} SentOnceRun(s: Session, events: seq<Event>)
    requires Sound(s) && SentOnce(s)
    ensures SentOnce(Run(s, events))
    decreases |events|
  {
    hide Deliver;
    if events != [] {
      SentOnceRun(s, events[..|events| - 1]);
      SentOnceStep(Run(s, events[..|events| - 1]), events[|events| - 1]);
    }
  }

  /** A download that failed and whose command is out. */
  predicate Failed(s: Session)
  {
    !s.isUpload && s.pending == [] && s.ctl.st == Error && s.ctl.opDone && s.ctl.opResult == -1
  }

  lemma FailedStep(s: Session, e: Event)
    requires Sound(s) && Failed(s)
    ensures Failed(Deliver(s, e))
  {
    hide LastCode, ParsePasv;
  }

  lemma {:induction false} FailedForGood(s: Session, events: seq<Event>)
    requires Sound(s) && Failed(s)
    ensures Failed(Run(s, events))
    decreases |events|
  {
    hide Deliver;
    if events != [] {
      FailedForGood(s, events[..|events| - 1]);
      FailedStep(Run(s, events[..|events| - 1]), events[|events| - 1]);
    }
  }

  lemma EarlyDone(s: Session, done: Event)
    requires Sound(s) && SentOnce(s) && done.CtrlData?
    requires s.ctrl && s.ctl.st == SendingCmd && LastCode(Appended(s.resp, done.piece)) == 226
    ensures Failed(Deliver(s, done))
  {
    hide LastCode, ParsePasv;
  }

  lemma StartSentOnce(s: Session, op: Op, capacity: nat, sends: bool)
    requires Sound(s) && !op.Stor?
    ensures SentOnce(Start(s, op, true, capacity, sends))
  {
  }

  /** A 226 that overtakes the end of the data spoils a download: in every run of a LIST or RETR where
      the client acts on a 226 while it still waits for the peer's close, the operation ends as failed
      there and then, and nothing that comes after, the rest of the data, the close or another 226,
      makes it well again. */
  lemma EarlyDoneFails(s: Session, op: Op, capacity: nat, sends: bool, before: seq<Event>, done: Event, after: seq<Event>)
    requires Sound(s) && !op.Stor? && done.CtrlData?
    requires var mid := Run(Start(s, op, true, capacity, sends), before);
             mid.ctrl && mid.ctl.st == SendingCmd && LastCode(Appended(mid.resp, done.piece)) == 226
    ensures var end := Run(Start(s, op, true, capacity, sends), before + [done] + after);
            end.ctl.st == Error && end.ctl.opDone && end.ctl.opResult == -1
  {
    hide LastCode, Start, SentOnce;
    var start := Start(s, op, true, capacity, sends);
    StartSentOnce(s, op, capacity, sends);
    SentOnceRun(start, before);
    RunMore(start, before, done);
    RunConcat(start, before + [done], after);
    EarlyDone(Run(start, before), done);
    FailedForGood(Run(start, before + [done]), after);
  }

  /** A path is sent whole, with its line end, exactly when it has at most 248 characters. */
  lemma CommandIsWhole(path: string)
    ensures Command(Retr(path)) == "RETR " + path + "\r\n" <==> |path| <= 248
    ensures forall content :: Command(Stor(path, content)) == "STOR " + path + "\r\n" <==> |path| <= 248
  {
    var retr, stor := "RETR " + path + "\r\n", "STOR " + path + "\r\n";
    assert |retr| == |path| + 7 && |stor| == |path| + 7;
    if |path| <= 248 {
      assert Cut(retr) == retr && Cut(stor) == stor;
    } else {
      assert |Cut(retr)| == 255 && |Cut(stor)| == 255;
    }
  }
}
