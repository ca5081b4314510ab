/** Replies on the FTP control channel: recognising the end of a reply, and collecting one from the
    pieces that TCP delivers. */
module FtpReply {
  import opened Decimal

  const BUFFER_SIZE := 4096
  /** One byte of the buffer is kept for the terminating NUL. */
  const BUFFER_USABLE := BUFFER_SIZE - 1

  /** A line "NNN ...", without its line feed. */
  predicate IsFinal(line: string)
  {
    |line| >= 4 && IsDigit(line[0]) && IsDigit(line[1]) && IsDigit(line[2]) && line[3] == ' '
  }

  function CodeOf(line: string): (n: nat)
    requires IsFinal(line)
    ensures n < 1000
  {
    Digit(line[0]) * 100 + Digit(line[1]) * 10 + Digit(line[2])
  }

  /** The position of the first line feed, or the length. */
  function LineEnd(s: string): (e: nat)
    ensures e <= |s| && (e < |s| ==> s[e] == '\n')
    ensures forall i | 0 <= i < e :: s[i] != '\n'
  {
    if s == [] || s[0] == '\n' then 0 else 1 + LineEnd(s[1..])
  }

  /** The code of the last complete final line, or -1. */
  function LastCode(s: string): int
    decreases |s|
  {
    var e := LineEnd(s);
    if e == |s| then -1
    else
      var later := LastCode(s[e + 1..]);
      if later >= 0 then later else if IsFinal(s[..e]) then CodeOf(s[..e]) else -1
  }

  /** memchr for a line feed. */
  method FindEol(buf: array<char>, p: nat, len: nat) returns (eol: nat)
    requires p <= len <= buf.Length
    ensures p <= eol <= len && eol - p == LineEnd(buf[..len][p..])
  {
    eol := p;
    while eol < len && buf[eol] != '\n'
      invariant p <= eol <= len
      invariant forall i | p <= i < eol :: buf[i] != '\n'
    {
      eol := eol + 1;
    }
    LineEndAt(buf[..len][p..], eol - p);
  }

  /** The code after reading up to a line, and what the rest of the buffer adds to it. */
  function CodeWith(code: int, rest: string): int
  {
    var later := LastCode(rest);
    if later >= 0 then later else code
  }

  lemma OneLine(all: string, p: nat, eol: nat, code: int)
    requires p <= eol < |all| && eol - p == LineEnd(all[p..])
    ensures CodeWith(code, all[p..])
         == CodeWith(if IsFinal(all[p..eol]) then CodeOf(all[p..eol]) else code, all[eol + 1..])
  {
    assert all[p..][..eol - p] == all[p..eol] && all[p..][eol - p + 1..] == all[eol + 1..];
  }

  /** The code after the line from `p` to `eol`. */
  method LineCode(buf: array<char>, p: nat, eol: nat, ghost len: nat, code: int) returns (code': int)
    requires p <= eol <= len <= buf.Length
    ensures code' == if IsFinal(buf[..len][p..eol]) then CodeOf(buf[..len][p..eol]) else code
  {
    code' := code;
    if eol - p >= 4 && IsDigit(buf[p]) && IsDigit(buf[p + 1]) && IsDigit(buf[p + 2]) && buf[p + 3] == ' ' {
      code' := Digit(buf[p]) * 100 + Digit(buf[p + 1]) * 10 + Digit(buf[p + 2]);
    }
  }

  /** ftp_parse_response. */
  method ParseResponse(buf: array<char>, len: nat) returns (code: int)
    requires len <= buf.Length
    ensures code == LastCode(buf[..len])
  {
    ghost var all := buf[..len];
    if len < 4 {
      ShortHasNone(all);
      return -1;
    }
    var p := 0;
    code := -1;
    assert all[0..] == all;
    while p < len
      invariant p <= len && LastCode(all) == CodeWith(code, all[p..])
    {
      var eol := FindEol(buf, p, len);
      if eol == len {
        return;
      }
      OneLine(all, p, eol, code);
      code := LineCode(buf, p, eol, len, code);
      p := eol + 1;
    }
  }

  lemma LineEndAt(s: string, e: nat)
    requires e <= |s| && (e < |s| ==> s[e] == '\n') && forall i | 0 <= i < e :: s[i] != '\n'
    ensures LineEnd(s) == e
  {
  }

  lemma {:induction false} ShortHasNone(s: string)
    requires |s| < 4
    ensures LastCode(s) == -1
    decreases |s|
  {
    var e := LineEnd(s);
    if e < |s| {
      ShortHasNone(s[e + 1..]);
    }
  }

  // --- Replies ---

  /** A reply as section 4.2 of RFC 959 describes it: lines without a line feed of their own (each
      still ends in its carriage return), the last one final, the ones before not. */
  predicate IsReply(lines: seq<string>)
  {
    && |lines| > 0 && IsFinal(lines[|lines| - 1])
    && (forall i | 0 <= i < |lines| - 1 :: !IsFinal(lines[i]))
    && (forall i, j | 0 <= i < |lines| && 0 <= j < |lines[i]| :: lines[i][j] != '\n')
  }

  function Text(lines: seq<string>): string
  {
    if lines == [] then [] else lines[0] + "\n" + Text(lines[1..])
  }

  function ReplyCode(lines: seq<string>): nat
    requires IsReply(lines)
  {
    CodeOf(lines[|lines| - 1])
  }

  lemma LineEndOfLine(line: string, rest: string)
    requires forall j | 0 <= j < |line| :: line[j] != '\n'
    ensures LineEnd(line + "\n" + rest) == |line|
    ensures (line + "\n" + rest)[..|line|] == line && (line + "\n" + rest)[|line| + 1..] == rest
  {
    LineEndAt(line + "\n" + rest, |line|);
  }

  /** A prefix that does not reach the end of the first line. */
  lemma NoLineEnd(line: string, rest: string, n: nat)
    requires n <= |line| && forall j | 0 <= j < |line| :: line[j] != '\n'
    ensures LastCode((line + "\n" + rest)[..n]) == -1
  {
    LineEndAt((line + "\n" + rest)[..n], n);
  }

  /** Everything short of the whole reply is recognised as incomplete. */
  lemma {:induction false} PrefixIsIncomplete(lines: seq<string>, n: nat)
    requires IsReply(lines) && n < |Text(lines)|
    ensures LastCode(Text(lines)[..n]) == -1
    decreases |lines|
  {
    var line, rest := lines[0], Text(lines[1..]);
    if n <= |line| {
      NoLineEnd(line, rest, n);
    } else {
      var k := n - |line| - 1;
      assert Text(lines)[..n] == line + "\n" + rest[..k];
      LineEndOfLine(line, rest[..k]);
      if |lines| == 1 {
        assert false;
      } else {
        TailIsReply(lines);
        PrefixIsIncomplete(lines[1..], k);
      }
    }
  }

  lemma TailIsReply(lines: seq<string>)
    requires IsReply(lines) && |lines| > 1
    ensures IsReply(lines[1..]) && ReplyCode(lines[1..]) == ReplyCode(lines) && !IsFinal(lines[0])
  {
  }

  /** The whole reply gives its code, whatever replies were in the buffer before it. */
  lemma {:induction false} ReplyIsComplete(lines: seq<string>)
    requires IsReply(lines)
    ensures LastCode(Text(lines)) == ReplyCode(lines)
    decreases |lines|
  {
    LineEndOfLine(lines[0], Text(lines[1..]));
    if |lines| == 1 {
      assert Text(lines[1..]) == [];
    } else {
      TailIsReply(lines);
      ReplyIsComplete(lines[1..]);
    }
  }

  lemma Regroup(a: string, b: string, c: string)
    ensures a + (b + c) == (a + b) + c && (a + (b + c))[..|a + b|] == a + b
    ensures |a + b| == |a + (b + c)| ==> a + b == a + (b + c) && c == []
  {
  }

  /** Of replies that arrive together only the last one counts. */
  lemma {:induction false} LaterReplyWins(before: seq<string>, lines: seq<string>)
    requires IsReply(lines) && forall i, j | 0 <= i < |before| && 0 <= j < |before[i]| :: before[i][j] != '\n'
    ensures LastCode(Text(before) + Text(lines)) == ReplyCode(lines)
    decreases |before|
  {
    if before == [] {
      assert Text(before) + Text(lines) == Text(lines);
      ReplyIsComplete(lines);
    } else {
      LaterReplyWins(before[1..], lines);
      var rest := Text(before[1..]) + Text(lines);
      Regroup(before[0] + "\n", Text(before[1..]), Text(lines));
      LineEndOfLine(before[0], rest);
    }
  }

  // --- Collecting a reply ---

  datatype Fed = Fed(buf: string, acts: seq<int>)

  function Min(a: nat, b: nat): nat { if a < b then a else b }

  /** The buffer after a piece, before its contents are looked at: what does not fit is dropped. */
  function Appended(buf: string, piece: string): (r: string)
    requires |buf| <= BUFFER_USABLE
    ensures |r| <= BUFFER_USABLE
  {
    buf + piece[..Min(|piece|, BUFFER_USABLE - |buf|)]
  }

  /** One piece: when the buffer holds a complete reply, the client acts on its code and forgets the
      buffer, with all that followed the reply. */
  function Feed(buf: string, piece: string): (f: Fed)
    requires |buf| <= BUFFER_USABLE
    ensures |f.buf| <= BUFFER_USABLE
  {
    var b := Appended(buf, piece);
    if LastCode(b) < 0 then Fed(b, []) else Fed([], [LastCode(b)])
  }

  function FeedAll(buf: string, pieces: seq<string>): (f: Fed)
    requires |buf| <= BUFFER_USABLE
    ensures |f.buf| <= BUFFER_USABLE
    decreases |pieces|
  {
    if pieces == [] then Fed(buf, [])
    else
      var one := Feed(buf, pieces[0]);
      var rest := FeedAll(one.buf, pieces[1..]);
      Fed(rest.buf, one.acts + rest.acts)
  }

  function Joined(pieces: seq<string>): string
  {
    if pieces == [] then [] else pieces[0] + Joined(pieces[1..])
  }

  lemma PieceOf(all: string, at: nat, piece: string, rest: string, next: nat)
    requires at <= |all| && all[at..] == piece + rest && next == at + |piece|
    ensures next <= |all| && all[at..next] == piece && rest == all[next..] && all[..|all|] == all
  {
    assert all == all[..at] + (piece + rest);
  }

  lemma AppendedIs(all: string, at: nat, piece: string, next: nat)
    requires at <= next <= |all| && all[at..next] == piece
    ensures Appended(all[..Min(at, BUFFER_USABLE)], piece) == all[..Min(next, BUFFER_USABLE)]
  {
  }

  /** The pieces of a reply that is delivered from position `at` on. */
  lemma {:induction false} RestDelivered(lines: seq<string>, at: nat, buf: string, pieces: seq<string>)
    requires IsReply(lines) && at < |Text(lines)| && Joined(pieces) == Text(lines)[at..]
    requires buf == Text(lines)[..Min(at, BUFFER_USABLE)]
    ensures FeedAll(buf, pieces).acts == if |Text(lines)| <= BUFFER_USABLE then [ReplyCode(lines)] else []
    ensures |Text(lines)| <= BUFFER_USABLE ==> FeedAll(buf, pieces).buf == []
    decreases |pieces|
  {
    hide LastCode, Text, IsReply, ReplyCode, Appended;
    var all, piece, rest := Text(lines), pieces[0], pieces[1..];
    var next := at + |piece|;
    PieceOf(all, at, piece, Joined(rest), next);
    AppendedIs(all, at, piece, next);
    if next < |all| {
      PrefixIsIncomplete(lines, Min(next, BUFFER_USABLE));
      RestDelivered(lines, next, Appended(buf, piece), rest);
    } else {
      if |all| <= BUFFER_USABLE {
        ReplyIsComplete(lines);
      } else {
        PrefixIsIncomplete(lines, BUFFER_USABLE);
      }
      ShortHasNone([]);
      NothingLeft(Feed(buf, piece).buf, rest, lines);
    }
  }

  /** Empty pieces change nothing. */
  lemma {:induction false} NothingLeft(buf: string, pieces: seq<string>, lines: seq<string>)
    requires |buf| <= BUFFER_USABLE && Joined(pieces) == [] && LastCode(buf) < 0
    ensures FeedAll(buf, pieces) == Fed(buf, [])
    decreases |pieces|
  {
    if pieces != [] {
      assert pieces[0] == [] && Joined(pieces[1..]) == [];
      assert Appended(buf, pieces[0]) == buf;
      NothingLeft(buf, pieces[1..], lines);
    }
  }

  /** A reply delivered alone, in any pieces whatever, is acted on exactly once if it fits in the
      buffer, and never if it does not. */
  lemma ActsOncePerReply(lines: seq<string>, pieces: seq<string>)
    requires IsReply(lines) && Joined(pieces) == Text(lines)
    ensures FeedAll([], pieces).acts == if |Text(lines)| <= 4095 then [ReplyCode(lines)] else []
    ensures |Text(lines)| <= 4095 ==> FeedAll([], pieces).buf == []
  {
    assert Text(lines)[0..] == Text(lines) && Text(lines)[..0] == [];
    RestDelivered(lines, 0, [], pieces);
  }

  lemma FeedFront(buf: string, pieces: seq<string>)
    requires |buf| <= BUFFER_USABLE && pieces != []
    ensures FeedAll(buf, pieces).acts == Feed(buf, pieces[0]).acts + FeedAll(Feed(buf, pieces[0]).buf, pieces[1..]).acts
    ensures FeedAll(buf, pieces).buf == FeedAll(Feed(buf, pieces[0]).buf, pieces[1..]).buf
  {
    hide Feed;
  }

  lemma FedNothing(buf: string)
    requires |buf| <= BUFFER_USABLE
    ensures FeedAll(buf, []) == Fed(buf, [])
  {
  }

  lemma ActsAssoc(a: seq<int>, b: seq<int>, c: seq<int>)
    ensures a + (b + c) == (a + b) + c
  {
  }

  lemma {:induction false} FeedAllConcat(buf: string, a: seq<string>, b: seq<string>)
    requires |buf| <= BUFFER_USABLE
    ensures FeedAll(buf, a + b)
         == var first := FeedAll(buf, a); var second := FeedAll(first.buf, b); Fed(second.buf, first.acts + second.acts)
    decreases |a|
  {
    hide Feed, FeedAll;
    if a == [] {
      assert a + b == b;
      FedNothing(buf);
      assert [] + FeedAll(buf, b).acts == FeedAll(buf, b).acts;
    } else {
      assert (a + b)[0] == a[0] && (a + b)[1..] == a[1..] + b;
      var one := Feed(buf, a[0]);
      FeedFront(buf, a);
      FeedFront(buf, a + b);
      FeedAllConcat(one.buf, a[1..], b);
      var first := FeedAll(one.buf, a[1..]);
      ActsAssoc(one.acts, first.acts, FeedAll(first.buf, b).acts);
    }
  }

  function Flat(deliveries: seq<seq<string>>): seq<string>
  {
    if deliveries == [] then [] else deliveries[0] + Flat(deliveries[1..])
  }

  function Codes(replies: seq<seq<string>>): seq<int>
    requires forall r | r in replies :: IsReply(r)
  {
    if replies == [] then [] else [ReplyCode(replies[0])] + Codes(replies[1..])
  }

  /** A session: replies that fit, each delivered in pieces of its own, are acted on once each and
      in order. */
  lemma {:induction false} ActsOncePerReplyInOrder(replies: seq<seq<string>>, deliveries: seq<seq<string>>)
    requires |replies| == |deliveries| && (forall r | r in replies :: IsReply(r) && |Text(r)| <= BUFFER_USABLE)
    requires forall i | 0 <= i < |replies| :: Joined(deliveries[i]) == Text(replies[i])
    ensures FeedAll([], Flat(deliveries)) == Fed([], Codes(replies))
    decreases |replies|
  {
    if replies != [] {
      ActsOncePerReply(replies[0], deliveries[0]);
      ActsOncePerReplyInOrder(replies[1..], deliveries[1..]);
      FeedAllConcat([], deliveries[0], Flat(deliveries[1..]));
    }
  }
}
