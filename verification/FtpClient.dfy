/** ftp_client_t and its callbacks, as they update the fields and the two buffers in place. */
module FtpClient {
  import opened Checksum
  import opened FtpReply
  import opened FtpPasv
  import opened FtpSession
  import FtpServed
  import FtpNormal

  class Client {
    var state: St
    var responseCode: int
    const responseBuf: array<char>
    var responseLen: nat
    var opDone: bool
    var opResult: int
    var ctrlPcb: bool
    var dataPcb: bool
    var recvBuf: array?<byte>
    var recvLen: nat
    var recvCapacity: nat
    var sendData: Option<seq<byte>>
    var sendOffset: nat
    var isUpload: bool
    var pasv: Address
    var pendingCmd: string
    var cmds: seq<string>       // handed to the control connection
    var written: seq<byte>      // handed to data connections

    ghost predicate Valid()
      reads this
    {
      && responseBuf.Length == BUFFER_SIZE && responseLen <= BUFFER_USABLE
      && (sendData.Some? ==> sendOffset <= |sendData.value|)
      && (if recvBuf == null then recvLen == 0 else recvLen <= recvCapacity <= recvBuf.Length)
    }

    ghost function Control(): Ctl
      reads this
    {
      Ctl(state, opDone, opResult, dataPcb)
    }

    ghost function Received(): seq<byte>
      reads this, recvBuf
      requires Valid()
    {
      if recvBuf == null then [] else recvBuf[..recvLen]
    }

    /** The session that this object stands for. */
    ghost function Value(): (s: Session)
      reads this, responseBuf, recvBuf
      requires Valid()
      ensures Sound(s)
    {
      Session(Control(), responseCode, responseBuf[..responseLen], ctrlPcb, isUpload, sendData, sendOffset,
              recvBuf != null, Received(), recvCapacity, pasv, pendingCmd, cmds, written)
    }

    /** ftp_client_init. */
    constructor ()
      ensures Valid() && Value() == Session0() && fresh(responseBuf)
    {
      state, responseCode, responseLen, opDone, opResult := Idle, 0, 0, false, 0;
      ctrlPcb, dataPcb, isUpload, sendData, sendOffset := false, false, false, None, 0;
      recvBuf, recvLen, recvCapacity := null, 0, 0;
      pasv, pendingCmd, cmds, written := Address([], 0), [], [], [];
      responseBuf := new char[BUFFER_SIZE];
    }

    method SetFailed()
      modifies `state, `opDone, `opResult
      ensures Control() == Fail(old(Control()))
    {
      state, opDone, opResult := Error, true, -1;
    }

    method SetReady()
      modifies `state, `opDone, `opResult
      ensures Control() == Succeed(old(Control()))
    {
      state, opDone, opResult := Ready, true, 0;
    }

    // --- Control channel ---

    /** The piece goes behind what the buffer holds, as far as there is room. */
    method Append(piece: string)
      requires Valid()
      modifies `responseLen, responseBuf
      ensures Valid() && responseBuf[..responseLen] == Appended(old(responseBuf[..responseLen]), piece)
    {
      var start, space := responseLen, BUFFER_SIZE - responseLen - 1;
      var n := if |piece| < space then |piece| else space;
      ghost var before := responseBuf[..start];
      for i := 0 to n
        invariant Valid() && responseLen == start && responseBuf[..start + i] == before + piece[..i]
      {
        responseBuf[start + i] := piece[i];
        assert responseBuf[..start + i + 1] == responseBuf[..start + i] + [piece[i]];
        assert piece[..i + 1] == piece[..i] + [piece[i]];
      }
      responseLen := start + n;
    }

    /** The switch of ftp_ctrl_recv_cb. */
    method Switch(code: int, address: Option<Address>, tcpNew: bool, connects: bool)
      modifies `state, `opDone, `opResult, `dataPcb
      ensures Control() == React(old(Control()), code, address, tcpNew, connects)
    {
      match state
      case WaitWelcome => if code == 220 { SetReady(); } else { SetFailed(); }
      case WaitUser => if code == 331 || code == 230 { SetReady(); } else { SetFailed(); }
      case WaitPass => if code == 230 { SetReady(); } else { SetFailed(); }
      case WaitPasv =>
        if code == 227 && address.Some? {
          dataPcb := tcpNew;
          state := DataConnecting;
          if !tcpNew || !connects {
            SetFailed();
          }
        } else {
          SetFailed();
        }
      case SendingCmd =>
        if code < 100 || code >= 200 {
          if code == 150 || code == 125 {
            assert false; // the source's way into TRANSFERRING
          }
          SetFailed();
        }
      case Transferring => Finish(code);
      case WaitDone => Finish(code);
      case Ready => opDone, opResult := true, 0;
      case _ =>
    }

    method Finish(code: int)
      requires state == Transferring || state == WaitDone
      modifies `state, `opDone, `opResult
      ensures var c := old(Control());
              Control() == if code == 226 then Succeed(c) else if code == 150 || code == 125 then c else Fail(c)
    {
      if code == 226 {
        SetReady();
      } else if code != 150 && code != 125 {
        SetFailed();
      }
    }

    /** The buffer is empty again. */
    method Forget()
      requires Valid()
      modifies `responseLen
      ensures Valid() && Value() == old(Value()).(resp := [])
    {
      responseLen := 0;
      assert responseBuf[..0] == [];
    }

    /** The code of a reply, and the address in it if it is the awaited one. */
    method Note(code: int, address: Option<Address>)
      requires Valid()
      modifies `responseCode, `pasv
      ensures Valid() && Value() == old(Value()).(code := code,
                pasv := if state == WaitPasv && code == 227 && address.Some? then address.value else old(pasv))
    {
      responseCode := code;
      if state == WaitPasv && code == 227 && address.Some? {
        pasv := address.value;
      }
    }

    method Turn(code: int, address: Option<Address>, tcpNew: bool, connects: bool)
      requires Valid()
      modifies `state, `opDone, `opResult, `dataPcb
      ensures Valid() && Value() == old(Value()).(ctl := React(old(Control()), code, address, tcpNew, connects))
    {
      hide React;
      Switch(code, address, tcpNew, connects);
    }

    /** The client acts on a reply that is complete. */
    method Respond(code: int, tcpNew: bool, connects: bool)
      requires Valid()
      modifies `state, `opDone, `opResult, `dataPcb, `responseCode, `responseLen, `pasv
      ensures Valid()
      ensures var s, address := old(Value()), ParsePasv(old(responseBuf[..responseLen]));
              Value() == s.(ctl := React(s.ctl, code, address, tcpNew, connects), code := code, resp := [],
                            pasv := if s.ctl.st == WaitPasv && code == 227 && address.Some? then address.value else s.pasv)
    {
      hide React, ParsePasv;
      var address := ParsePasv(responseBuf[..responseLen]);
      Note(code, address);
      Turn(code, address, tcpNew, connects);
      Forget();
    }

    /** ftp_ctrl_recv_cb with data. */
    method CtrlRecv(piece: string, tcpNew: bool, connects: bool)
      requires Valid()
      modifies `state, `opDone, `opResult, `dataPcb, `responseCode, `responseLen, `pasv, responseBuf
      ensures Valid() && Value() == OnCtrlData(old(Value()), piece, tcpNew, connects)
    {
      hide LastCode, React, ParsePasv;
      Append(piece);
      var code := ParseResponse(responseBuf, responseLen);
      if code >= 0 {
        Respond(code, tcpNew, connects);
      }
    }

    /** ftp_ctrl_connected_cb. */
    method CtrlConnected(ok: bool)
      requires Valid()
      modifies `state, `opDone, `opResult
      ensures Valid()
      ensures var s := old(Value()); Value() == s.(ctl := if ok then s.ctl.(st := WaitWelcome) else Fail(s.ctl))
    {
      if ok {
        state := WaitWelcome;
      } else {
        SetFailed();
      }
    }

    /** ftp_ctrl_err_cb. */
    method CtrlError()
      requires Valid()
      modifies `state, `opDone, `opResult, `ctrlPcb
      ensures Valid()
      ensures var s := old(Value()); Value() == s.(ctrl := false, ctl := Fail(s.ctl))
    {
      ctrlPcb := false;
      SetFailed();
    }

    // --- Data channel ---

    /** The loop of ftp_data_push_upload. */
    method WriteOn(d: seq<byte>, writes: seq<Write>)
      requires sendOffset <= |d|
      modifies `sendOffset, `written
      ensures sendOffset == Pushed(|d|, old(sendOffset), writes)
      ensures written == old(written) + d[old(sendOffset)..sendOffset]
    {
      var w := 0;
      ghost var start, before := sendOffset, written;
      assert writes[0..] == writes;
      while sendOffset < |d| && w < |writes| && writes[w].room != 0 && writes[w].ok
        invariant w <= |writes| && start <= sendOffset <= |d|
        invariant Pushed(|d|, start, writes) == Pushed(|d|, sendOffset, writes[w..])
        invariant written == before + d[start..sendOffset]
        decreases |writes| - w
      {
        var remaining := |d| - sendOffset;
        var chunk := if remaining > writes[w].room then writes[w].room else remaining;
        assert writes[w..][1..] == writes[w + 1..];
        assert d[start..sendOffset + chunk] == d[start..sendOffset] + d[sendOffset..sendOffset + chunk];
        written := written + d[sendOffset..sendOffset + chunk];
        sendOffset := sendOffset + chunk;
        w := w + 1;
      }
    }

    /** ftp_data_push_upload. */
    method PushUpload(writes: seq<Write>)
      requires Valid()
      modifies `sendOffset, `written, `dataPcb, `state
      ensures Valid() && Value() == FtpSession.PushUpload(old(Value()), writes)
    {
      hide Pushed;
      if !dataPcb || sendData.None? {
        return;
      }
      WriteOn(sendData.value, writes);
      if sendOffset >= |sendData.value| {
        dataPcb, state := false, WaitDone;
      }
    }

    /** The command that had to wait for the data connection. */
    method SendPending(sends: bool)
      requires Valid()
      modifies `state, `pendingCmd, `cmds
      ensures Valid()
      ensures var s := old(Value());
              Value() == s.(ctl := s.ctl.(st := SendingCmd), pending := [], cmds := if s.ctrl && sends then s.cmds + [s.pending] else s.cmds)
    {
      state := SendingCmd;
      if ctrlPcb && sends {
        cmds := cmds + [pendingCmd];
      }
      pendingCmd := [];
    }

    /** ftp_data_connected_cb. */
    method DataConnected(ok: bool, sends: bool, writes: seq<Write>)
      requires Valid()
      modifies `sendOffset, `written, `dataPcb, `state, `opDone, `opResult, `pendingCmd, `cmds
      ensures Valid() && Value() == OnDataConnected(old(Value()), ok, sends, writes)
    {
      hide FtpSession.PushUpload;
      if !ok {
        SetFailed();
      } else if pendingCmd != [] {
        SendPending(sends);
        if isUpload {
          PushUpload(writes);
        }
      }
    }

    /** ftp_data_recv_cb with data: as much as the caller's buffer takes. */
    method DataRecv(chunk: seq<byte>)
      requires Valid()
      modifies `recvLen, recvBuf
      ensures Valid() && Value() == OnDataData(old(Value()), chunk)
    {
      if recvBuf != null && recvLen < recvCapacity {
        var start, space := recvLen, recvCapacity - recvLen;
        var n := if |chunk| < space then |chunk| else space;
        ghost var before := recvBuf[..start];
        for i := 0 to n
          invariant Valid() && recvLen == start && recvBuf[..start + i] == before + chunk[..i]
        {
          recvBuf[start + i] := chunk[i];
          assert recvBuf[..start + i + 1] == recvBuf[..start + i] + [chunk[i]];
          assert chunk[..i + 1] == chunk[..i] + [chunk[i]];
        }
        recvLen := start + n;
      }
    }

    /** ftp_data_recv_cb at the end of the stream. */
    method DataClosed()
      requires Valid()
      modifies `dataPcb, `state
      ensures Valid() && Value() == OnDataClosed(old(Value()))
    {
      if state == Transferring || state == SendingCmd {
        state := WaitDone;
      }
      dataPcb := false;
    }

    /** ftp_data_sent_cb. */
    method DataSent(writes: seq<Write>)
      requires Valid()
      modifies `sendOffset, `written, `dataPcb, `state
      ensures Valid() && Value() == OnDataSent(old(Value()), writes)
    {
      if isUpload && sendData.Some? && sendOffset < |sendData.value| {
        PushUpload(writes);
      }
    }

    /** ftp_data_err_cb. */
    method DataError()
      requires Valid()
      modifies `dataPcb, `state, `opDone, `opResult
      ensures Valid() && Value() == OnDataError(old(Value()))
    {
      dataPcb := false;
      if state != Ready && state != Idle {
        SetFailed();
      }
    }

    // --- The synchronous calls of hwio.c ---

    /** ftp_ctrl_recv_cb at the end of the stream. */
    method CtrlClosed()
      requires Valid()
      modifies `state, `opDone, `opResult
      ensures Valid()
      ensures var s := old(Value()); Value() == s.(ctl := Fail(s.ctl))
    {
      SetFailed();
    }

    /** One callback on the control connection. */
    method CtrlCallback(e: Event)
      requires Valid() && ctrlPcb && (e.CtrlConnected? || e.CtrlData? || e.CtrlClosed? || e.CtrlError?)
      modifies this, responseBuf
      ensures Valid() && Value() == Deliver(old(Value()), e)
      ensures recvBuf == old(recvBuf) && recvCapacity == old(recvCapacity)
    {
      hide OnCtrlData;
      if e.CtrlConnected? {
        if state == Connecting {
          CtrlConnected(e.ok);
        }
      } else if e.CtrlData? {
        CtrlRecv(e.piece, e.tcpNew, e.connects);
      } else if e.CtrlClosed? {
        CtrlClosed();
      } else {
        CtrlError();
      }
    }

    /** One callback on the data connection. */
    method DataCallback(e: Event)
      requires Valid() && dataPcb && !(e.CtrlConnected? || e.CtrlData? || e.CtrlClosed? || e.CtrlError?)
      modifies this, recvBuf
      ensures Valid() && Value() == Deliver(old(Value()), e)
      ensures recvBuf == old(recvBuf) && recvCapacity == old(recvCapacity)
    {
      hide OnDataConnected, OnDataData, OnDataClosed, OnDataSent, OnDataError;
      if e.DataConnected? {
        DataConnected(e.ok, e.sends, e.writes);
      } else if e.DataData? {
        DataRecv(e.chunk);
      } else if e.DataClosed? {
        DataClosed();
      } else if e.DataSent? {
        DataSent(e.writes);
      } else {
        DataError();
      }
    }

    /** One callback from lwIP. */
    method Callback(e: Event)
      requires Valid()
      modifies this, responseBuf, recvBuf
      ensures Valid() && Value() == Deliver(old(Value()), e)
      ensures recvBuf == old(recvBuf) && recvCapacity == old(recvCapacity)
    {
      hide OnCtrlData, OnDataConnected, OnDataData, OnDataClosed, OnDataSent, OnDataError;
      if e.CtrlConnected? || e.CtrlData? || e.CtrlClosed? || e.CtrlError? {
        if ctrlPcb {
          CtrlCallback(e);
        }
      } else if dataPcb {
        DataCallback(e);
      }
    }

    /** The callbacks of one poll. */
    method Poll(group: seq<Event>)
      requires Valid()
      modifies this, responseBuf, recvBuf
      ensures Valid() && recvBuf == old(recvBuf) && recvCapacity == old(recvCapacity)
      ensures Value() == Run(old(Value()), group)
    {
      hide Deliver;
      ghost var start := Value();
      for i := 0 to |group|
        invariant Valid() && recvBuf == old(recvBuf) && recvCapacity == old(recvCapacity)
        invariant Value() == Run(start, group[..i])
      {
        assert group[..i + 1] == group[..i] + [group[i]];
        RunMore(start, group[..i], group[i]);
        Callback(group[i]);
      }
      assert group[..|group|] == group;
    }

    /** ftp_poll_wait_session: one group of callbacks per poll, until the operation is done or the
        deadline passes after the last of the polls. */
    method Wait(polls: seq<seq<Event>>) returns (r: int, ghost events: seq<Event>)
      requires Valid()
      modifies this, responseBuf, recvBuf
      ensures Valid() && recvBuf == old(recvBuf) && recvCapacity == old(recvCapacity)
      ensures events == Taken(old(Value()), polls)
      ensures Value() == Waited(old(Value()), polls) && r == Value().ctl.opResult && (r == 0 ==> opDone)
    {
      hide Deliver, Run;
      events := [];
      var p := 0;
      ghost var start := Value();
      FtpServed.RunNone(start);
      while p < |polls| && !opDone
        invariant Valid() && recvBuf == old(recvBuf) && recvCapacity == old(recvCapacity)
        invariant p <= |polls| && Value() == Run(start, events) && Taken(start, polls) == events + Taken(Value(), polls[p..])
      {
        ghost var before := Value();
        Poll(polls[p]);
        RunConcat(start, events, polls[p]);
        assert polls[p..][1..] == polls[p + 1..];
        assert Taken(before, polls[p..]) == polls[p] + Taken(Value(), polls[p + 1..]);
        events := events + polls[p];
        p := p + 1;
      }
      assert Taken(Value(), polls[p..]) == [];
      if opDone {
        return opResult, events;
      }
      opResult := 1;
      r := 1;
    }

    method SetReceiver(buf: array?<byte>, size: nat)
      requires Valid() && (buf != null ==> size <= buf.Length)
      modifies `recvBuf, `recvLen, `recvCapacity
      ensures Valid() && Value() == old(Value()).(hasBuf := buf != null, received := [], capacity := size) && recvBuf == buf
    {
      recvBuf, recvLen, recvCapacity := buf, 0, size;
    }

    method SetSender(isUpload: bool, content: Option<seq<byte>>, cmd: string)
      requires Valid()
      modifies `isUpload, `sendData, `sendOffset, `pendingCmd
      ensures Valid() && Value() == old(Value()).(isUpload := isUpload, upload := content, offset := 0, pending := cmd)
    {
      this.isUpload, sendData, sendOffset, pendingCmd := isUpload, content, 0, cmd;
    }

    method Enter(st: St)
      requires Valid()
      modifies `responseCode, `opDone, `opResult, `state
      ensures Valid() && Value() == old(Value()).(ctl := Ctl(st, false, 0, dataPcb), code := 0)
    {
      state, responseCode, opDone, opResult := st, 0, false, 0;
    }

    method Await(st: St)
      requires Valid()
      modifies `responseLen, `responseCode, `opDone, `opResult, `state
      ensures Valid() && Value() == FtpSession.Await(old(Value()), st)
    {
      Enter(st);
      Forget();
    }

    /** ftp_ctrl_send. */
    method CtrlSend(cmd: string, sends: bool) returns (ok: bool)
      requires Valid()
      modifies `cmds
      ensures Valid() && Value() == FtpSession.CtrlSend(old(Value()), cmd, sends) && ok == (ctrlPcb && sends)
    {
      ok := ctrlPcb && sends;
      cmds := if ok then cmds + [cmd] else cmds;
    }

    /** ftp_send_cmd, after the caller has set the state; and ftp_start_pasv. */
    method SendCmd(st: St, cmd: string, sends: bool) returns (r: int)
      requires Valid()
      modifies `responseLen, `responseCode, `opDone, `opResult, `state, `cmds
      ensures Valid() && Value() == OnSend(old(Value()), st, cmd, sends)
      ensures r == if ctrlPcb && sends then 0 else -1
    {
      hide FtpSession.Await, FtpSession.CtrlSend;
      Await(st);
      var ok := CtrlSend(cmd, sends);
      r := if ok then 0 else -1;
    }

    /** ftp_start_list, ftp_start_retr and ftp_start_stor. */
    method Start(op: Op, buf: array?<byte>, size: nat, sends: bool) returns (r: int)
      requires Valid() && (buf != null ==> size <= buf.Length) && (op.Stor? ==> buf == null && size == 0)
      modifies this
      ensures Valid() && Value() == FtpSession.Start(old(Value()), op, buf != null, size, sends)
      ensures r == (if old(ctrlPcb) && sends then 0 else -1) && recvBuf == buf
    {
      hide OnSend, Command;
      SetReceiver(buf, size);
      SetSender(op.Stor?, if op.Stor? then op.content else None, Command(op));
      r := SendCmd(WaitPasv, "PASV\r\n", sends);
    }

    /** ftp_cleanup_data. */
    method Cleanup()
      requires Valid()
      modifies this
      ensures Valid() && Value() == FtpSession.Cleanup(old(Value()))
    {
      SetReceiver(null, recvCapacity);
      SetSender(isUpload, None, pendingCmd);
      dataPcb, state := false, Ready;
    }

    /** ftp_connect. */
    method Connect(tcpNew: bool, connects: bool) returns (r: int)
      requires Valid()
      modifies `ctrlPcb, `responseLen, `responseCode, `opDone, `opResult, `state
      ensures Valid() && Value() == OnConnect(old(Value()), tcpNew, connects)
      ensures r == if !old(ctrlPcb) && tcpNew && connects then 0 else -1
    {
      if ctrlPcb || !tcpNew {
        return -1;
      }
      ctrlPcb := connects;
      Await(if connects then Connecting else Error);
      return if connects then 0 else -1;
    }

    /** ftp_disconnect. */
    method Disconnect()
      requires Valid()
      modifies `ctrlPcb, `dataPcb, `state, `opDone
      ensures Valid() && Value() == OnDisconnect(old(Value()))
    {
      ctrlPcb, dataPcb, state, opDone := false, false, Idle, false;
    }

    /** hw_ftp_list_sync and hw_ftp_download_sync.  Success means the whole stream was seen and its
        beginning is in the buffer, and a server that does what it should brings it about; failure
        leaves the session READY again, except that a PASV command that could not be sent leaves it
        waiting for the answer.  After PASV nothing is sent but the line asked for. */
    method Download(op: Op, buf: array<byte>, size: nat, sends: bool, polls: seq<seq<Event>>)
        returns (r: int, outLen: nat, ghost seen: Seen, ghost opening: Option<bool>)
      requires Valid() && SessionInv(Control()) && size <= buf.Length && !op.Stor?
      modifies this, responseBuf, buf
      ensures Valid() && (r == 0 || r == -1) && (r != 0 ==> outLen == 0)
      ensures r == 0 ==>
          && seen.closed && seen.doneAfterClose && state == Ready && !dataPcb
          && outLen <= size && buf[..outLen] == FirstBytes(seen.bytes, size)
          && (op.List? && outLen < size ==> buf[outLen] == 0)
      ensures old(state) != Ready ==> r == -1 && Value() == old(Value())
      ensures old(state) == Ready && !(old(ctrlPcb) && sends) ==> r == -1 && state == WaitPasv && cmds == old(cmds)
      ensures old(state) == Ready && old(ctrlPcb) && sends ==>
          && state == Ready && !dataPcb
          && var start := FtpSession.Start(old(Value()), op, true, size, true);
             var events := Taken(start, polls);
             && opening == Opening(start, events) && seen == SeenIn(start, events)
             && (r == 0 <==> FtpNormal.Well(Waited(start, polls).ctl))
      ensures old(state) == Ready && old(ctrlPcb) && sends && op.List? ==>
          cmds == old(cmds) + ["PASV\r\n"] + (if opening == Some(true) then ["LIST\r\n"] else [])
      ensures old(state) == Ready && old(ctrlPcb) && sends && op.Retr? ==>
          var line := "RETR " + op.path + "\r\n";
          cmds == old(cmds) + ["PASV\r\n"] + (if opening == Some(true) then [if |op.path| <= 248 then line else line[..255]] else [])
      ensures old(state) == Ready && old(ctrlPcb) && sends ==>
          forall v | FtpServed.ServesDownload(v, FtpServed.Callbacks(polls)) ::
            r == 0 && buf[..outLen] == FirstBytes(FtpNormal.Stream(v.before), size)
    {
      hide Run, Taken, Waited, FtpSession.Start, SeenIn, Opening, FtpServed.Callbacks, FtpServed.ServesDownload, FtpNormal.Stream;
      outLen, seen, opening := 0, Nothing(), None;
      if state != Ready {
        r := -1;
        return;
      }
      ghost var before := Value();
      r := Start(op, buf, size, sends);
      if r != 0 {
        NotStarted(before, op, true, size, sends);
        r := -1;
        return;
      }
      ghost var start, events := Value(), [];
      r, events := Wait(polls);
      seen, opening := SeenIn(start, events), Opening(start, events);
      DownloadLaws(before, op, size, polls);
      if r != 0 {
        Cleanup();
        r := -1;
        return;
      }
      outLen := recvLen;
      if op.List? && recvLen < size {
        buf[recvLen] := 0;
      }
    }

    /** hw_ftp_upload_sync.  Success means that everything was written, or that the server closed the
        data channel before it was; a server that does what it should brings it about. */
    method Upload(path: string, content: seq<byte>, sends: bool, polls: seq<seq<Event>>)
        returns (r: int, ghost seen: Seen, ghost opening: Option<bool>)
      requires Valid() && SessionInv(Control())
      modifies this, responseBuf, recvBuf
      ensures Valid() && (r == 0 || r == -1)
      ensures old(written) <= written <= old(written) + content
      ensures r == 0 ==> seen.done && state == Ready && (written == old(written) + content || seen.closed)
      ensures old(state) != Ready ==> r == -1 && Value() == old(Value())
      ensures old(state) == Ready && !(old(ctrlPcb) && sends) ==> r == -1 && state == WaitPasv && cmds == old(cmds)
      ensures old(state) == Ready && old(ctrlPcb) && sends ==>
          && state == Ready && (r != 0 ==> !dataPcb)
          && var start := FtpSession.Start(old(Value()), Stor(path, Some(content)), false, 0, true);
             var events := Taken(start, polls);
             && opening == Opening(start, events) && seen == SeenIn(start, events)
             && (r == 0 <==> FtpNormal.Well(Waited(start, polls).ctl))
      ensures old(state) == Ready && old(ctrlPcb) && sends ==>
          var line := "STOR " + path + "\r\n";
          cmds == old(cmds) + ["PASV\r\n"] + (if opening == Some(true) then [if |path| <= 248 then line else line[..255]] else [])
      ensures old(state) == Ready && old(ctrlPcb) && sends ==>
          forall v | FtpServed.ServesUpload(v, content, FtpServed.Callbacks(polls)) ::
            r == 0 && written == old(written) + content
    {
      hide Run, Taken, Waited, FtpSession.Start, SeenIn, Opening, FtpServed.Callbacks, FtpServed.ServesUpload;
      seen, opening := Nothing(), None;
      if state != Ready {
        r := -1;
        return;
      }
      ghost var before := Value();
      var op := Stor(path, Some(content));
      r := Start(op, null, 0, sends);
      if r != 0 {
        NotStarted(before, op, false, 0, sends);
        r := -1;
        return;
      }
      ghost var start, events := Value(), [];
      r, events := Wait(polls);
      seen, opening := SeenIn(start, events), Opening(start, events);
      UploadLaws(before, path, content, polls);
      if r != 0 {
        Cleanup();
        r := -1;
      }
    }
  }

  /** What the machine says of a download, from its PASV to the end of the wait. */
  lemma DownloadLaws(s: Session, op: Op, size: nat, polls: seq<seq<Event>>)
    requires Sound(s) && s.ctrl && !s.ctl.data && !op.Stor?
    ensures var start := FtpSession.Start(s, op, true, size, true);
            var events := Taken(start, polls);
            var end, seen, opening := Waited(start, polls), SeenIn(start, events), Opening(start, events);
            && end.received == FirstBytes(seen.bytes, size)
            && (FtpNormal.Well(end.ctl) ==> seen.closed && seen.doneAfterClose && !end.ctl.data && end.ctl.st == Ready)
            && (op.List? ==> SentSoFar(end, s.cmds, "LIST\r\n", opening))
            && (op.Retr? ==> var line := "RETR " + op.path + "\r\n"; SentSoFar(end, s.cmds, if |op.path| <= 248 then line else line[..255], opening))
            && forall v | FtpServed.ServesDownload(v, FtpServed.Callbacks(polls)) ::
                 FtpNormal.Well(end.ctl) && end.received == FirstBytes(FtpNormal.Stream(v.before), size)
  {
    hide FtpSession.Start, Run, Taken, Waited, FtpServed.ServesDownload, FtpServed.Callbacks, SeenIn, FtpNormal.Stream, FirstBytes;
    var start := FtpSession.Start(s, op, true, size, true);
    var events := Taken(start, polls);
    WaitedIs(start, polls);
    TransferComplete(s, op, size, true, events);
    var line := if op.List? then "LIST\r\n" else "RETR " + op.path + "\r\n";
    CommandsSent(s, op, true, size, events, line);
    forall v | FtpServed.ServesDownload(v, FtpServed.Callbacks(polls))
      ensures FtpNormal.Well(Waited(start, polls).ctl) && Waited(start, polls).received == FirstBytes(FtpNormal.Stream(v.before), size)
    {
      FtpServed.ServedDownload(s, op, size, polls, v);
    }
  }

  /** What it says of an upload. */
  lemma UploadLaws(s: Session, path: string, content: seq<byte>, polls: seq<seq<Event>>)
    requires Sound(s) && s.ctrl && !s.ctl.data
    ensures var start := FtpSession.Start(s, Stor(path, Some(content)), false, 0, true);
            var events := Taken(start, polls);
            var end, seen, opening := Waited(start, polls), SeenIn(start, events), Opening(start, events);
            && s.written <= end.written <= s.written + content
            && (FtpNormal.Well(end.ctl) ==> seen.done && end.ctl.st == Ready && (end.written == s.written + content || seen.closed))
            && (var line := "STOR " + path + "\r\n"; SentSoFar(end, s.cmds, if |path| <= 248 then line else line[..255], opening))
            && forall v | FtpServed.ServesUpload(v, content, FtpServed.Callbacks(polls)) ::
                 FtpNormal.Well(end.ctl) && end.written == s.written + content
  {
    hide FtpSession.Start, Run, Taken, Waited, FtpServed.ServesUpload, FtpServed.Callbacks, SeenIn;
    var op := Stor(path, Some(content));
    var start := FtpSession.Start(s, op, false, 0, true);
    var events := Taken(start, polls);
    WaitedIs(start, polls);
    UploadComplete(s, path, content, true, events);
    CommandsSent(s, op, false, 0, events, "STOR " + path + "\r\n");
    var end := Waited(start, polls);
    assert content == content[..end.offset] + content[end.offset..];
    assert s.written + content == s.written + content[..end.offset] + content[end.offset..];
    forall v | FtpServed.ServesUpload(v, content, FtpServed.Callbacks(polls))
      ensures FtpNormal.Well(end.ctl) && end.written == s.written + content
    {
      FtpServed.ServedUpload(s, path, content, polls, v);
    }
  }
}
