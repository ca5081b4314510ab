/** SeperateData: the KEY=VALUE fields of a host message, whose values may have several words. */
module FieldParser {
  import opened Text

  const MODE_LEN := 6

  datatype Field = Field(key: string, val: string)

  // --- What the two loops compute ---

  /** The first word of a value, or everything up to the end of the text. */
  function FirstWord(s: string): (v: string)
    requires IndexOf(s, '=') > 0
    ensures |v| <= |s| - IndexOf(s, '=') - 1
  {
    var eq, space := IndexOf(s, '='), IndexOf(s, ' ');
    if space > eq then s[eq + 1..space] else s[eq + 1..]
  }

  function AfterFirstWord(s: string): (r: string)
    requires IndexOf(s, '=') > 0
    ensures |r| < |s|
  {
    TrimStart(s[IndexOf(s, '=') + 1 + |FirstWord(s)|..])
  }

  datatype Scan = Scan(cont: string, rest: string)

  /** The inner loop: words before the next '=' belong to the value. */
  function MoreWords(cont: string, s: string): (r: Scan)
    ensures |r.rest| <= |s|
    decreases |s|
  {
    var eq, space := IndexOf(s, '='), IndexOf(s, ' ');
    if eq > space && space >= 0 then MoreWords(cont + " " + s[..space], s[space + 1..]) else Scan(cont, s)
  }

  function Parse(s: string, upper: string -> string): seq<Field>
    decreases |s|
  {
    var eq := IndexOf(s, '=');
    if eq <= 0 then []
    else
      var scan := MoreWords(FirstWord(s), AfterFirstWord(s));
      [Field(upper(Trim(s[..eq])), Trim(scan.cont))] + Parse(scan.rest, upper)
  }

  function Body(msg: string): string
  {
    if |msg| > MODE_LEN then Trim(msg[MODE_LEN..]) else []
  }

  /** The inner loop. */
  method TakeWords(first: string, after: string) returns (msgCont: string, subMsg: string)
    ensures MoreWords(first, after) == Scan(msgCont, subMsg) && |subMsg| <= |after|
  {
    msgCont, subMsg := first, after;
    var eqPos, spacePos := IndexOf(subMsg, '='), IndexOf(subMsg, ' ');
    while eqPos > spacePos && spacePos >= 0
      invariant eqPos == IndexOf(subMsg, '=') && spacePos == IndexOf(subMsg, ' ')
      invariant MoreWords(first, after) == MoreWords(msgCont, subMsg) && |subMsg| <= |after|
      decreases |subMsg|
    {
      msgCont := msgCont + " " + subMsg[..spacePos];
      subMsg := subMsg[spacePos + 1..];
      eqPos, spacePos := IndexOf(subMsg, '='), IndexOf(subMsg, ' ');
    }
  }

  /** The head of the outer loop's body: the key, the first word of the value, and the rest. */
  method TakeFirst(subMsg: string, eqPos: nat, spacePos: int) returns (msgId: string, msgCont: string, rest: string)
    requires eqPos == IndexOf(subMsg, '=') && eqPos > 0 && spacePos == IndexOf(subMsg, ' ')
    ensures msgId == subMsg[..eqPos] && msgCont == FirstWord(subMsg) && rest == AfterFirstWord(subMsg)
  {
    msgId := subMsg[..eqPos];
    msgCont := if spacePos > eqPos then subMsg[eqPos + 1..spacePos] else subMsg[eqPos + 1..];
    var consumed := |msgId| + 1 + |msgCont|;
    rest := if consumed < |subMsg| then TrimStart(subMsg[consumed..]) else [];
  }

  lemma ParseUnfold(s: string, upper: string -> string)
    requires IndexOf(s, '=') > 0
    ensures var scan := MoreWords(FirstWord(s), AfterFirstWord(s));
            Parse(s, upper) == [Field(upper(Trim(s[..IndexOf(s, '=')])), Trim(scan.cont))] + Parse(scan.rest, upper)
  {
  }

  /** SeperateData, with the fields in the order in which they are assigned.  It ends on every
      message. */
  method SeperateData(msg: string, upper: string -> string) returns (fields: seq<Field>)
    ensures fields == Parse(Body(msg), upper)
  {
    hide MoreWords, FirstWord, AfterFirstWord, Trim, Body;
    var subMsg := Body(msg);
    fields := [];
    var eqPos, spacePos := IndexOf(subMsg, '='), IndexOf(subMsg, ' ');
    while eqPos > 0
      invariant eqPos == IndexOf(subMsg, '=') && spacePos == IndexOf(subMsg, ' ')
      invariant Parse(Body(msg), upper) == fields + Parse(subMsg, upper)
      decreases |subMsg|
    {
      ParseUnfold(subMsg, upper);
      var msgId, msgCont;
      msgId, msgCont, subMsg := TakeFirst(subMsg, eqPos, spacePos);
      msgCont, subMsg := TakeWords(msgCont, subMsg);
      fields := fields + [Field(upper(Trim(msgId)), Trim(msgCont))];
      eqPos, spacePos := IndexOf(subMsg, '='), IndexOf(subMsg, ' ');
    }
  }

  // --- Round trip ---

  /** A field as a host writes it: a key, and a value of words with a space between them. */
  datatype Pair = Pair(key: string, words: seq<string>)

  predicate IsWord(w: string)
  {
    && w != [] && !IsWhite(w[0]) && !IsWhite(w[|w| - 1])
    && forall i | 0 <= i < |w| :: w[i] != ' ' && w[i] != '='
  }

  predicate AllWords(ws: seq<string>) { forall i | 0 <= i < |ws| :: IsWord(ws[i]) }

  predicate IsPair(p: Pair)
  {
    IsWord(p.key) && AllWords(p.words)
  }

  function Joined(words: seq<string>): string
  {
    if words == [] then [] else if |words| == 1 then words[0] else words[0] + " " + Joined(words[1..])
  }

  function Print(ps: seq<Pair>): string
  {
    if ps == [] then []
    else ps[0].key + "=" + Joined(ps[0].words) + (if |ps| == 1 then [] else " " + Print(ps[1..]))
  }

  function Fields(ps: seq<Pair>, upper: string -> string): seq<Field>
  {
    if ps == [] then [] else [Field(upper(ps[0].key), Joined(ps[0].words))] + Fields(ps[1..], upper)
  }

  /** The last value loses what follows its first word. */
  function LastCut(ps: seq<Pair>): seq<Pair>
  {
    if ps == [] then []
    else if |ps| == 1 then [Pair(ps[0].key, if |ps[0].words| <= 1 then ps[0].words else ps[0].words[..1])]
    else [ps[0]] + LastCut(ps[1..])
  }

  lemma {:induction false} JoinedShape(ws: seq<string>)
    requires AllWords(ws)
    ensures Without(Joined(ws), '=')
    ensures ws != [] ==> Joined(ws) != [] && !IsWhite(Joined(ws)[0]) && !IsWhite(Joined(ws)[|Joined(ws)| - 1])
    decreases |ws|
  {
    if |ws| > 1 {
      JoinedShape(ws[1..]);
    }
  }

  /** The first word of a value, before something that is not white. */
  lemma TakesFirst(key: string, w: string, tail: string)
    requires IsWord(key) && Without(w, ' ') && Without(w, '=') && tail != [] && !IsWhite(tail[0])
    ensures var s := key + "=" + (w + " " + tail);
            IndexOf(s, '=') == |key| && FirstWord(s) == w && AfterFirstWord(s) == tail
  {
    var s := key + "=" + (w + " " + tail);
    IndexAfter(key, '=', w + " " + tail);
    assert s == (key + "=" + w) + [' '] + tail;
    IndexAfter(key + "=" + w, ' ', tail);
    assert s[|key| + 1..|key| + 1 + |w|] == w;
    assert s[|key| + 1 + |w|..] == " " + tail;
    assert TrimStart(" " + tail) == TrimStart((" " + tail)[1..]) == tail;
  }

  /** A value of at most one word at the end of the message. */
  lemma TakesLast(key: string, w: string)
    requires IsWord(key) && Without(w, ' ') && Without(w, '=')
    ensures var s := key + "=" + w;
            IndexOf(s, '=') == |key| && FirstWord(s) == w && AfterFirstWord(s) == []
  {
    var s := key + "=" + w;
    IndexAfter(key, '=', w);
    IndexNone(s, ' ');
    assert s[|key| + 1..] == w;
  }

  /** The inner loop stops before a key. */
  lemma StopsAtKey(cont: string, ps: seq<Pair>)
    requires ps != [] && IsPair(ps[0])
    ensures MoreWords(cont, Print(ps)) == Scan(cont, Print(ps))
    ensures Print(ps) != [] && !IsWhite(Print(ps)[0]) && IndexOf(Print(ps), '=') == |ps[0].key|
  {
    hide IndexOf;
    var key := ps[0].key;
    var after := Joined(ps[0].words) + (if |ps| == 1 then [] else " " + Print(ps[1..]));
    assert Print(ps) == key + "=" + after;
    IndexAfter(key, '=', after);
    assert Print(ps) == key + ("=" + after);
    IndexLater(key, "=" + after, ' ');
  }

  lemma TakesWord(cont: string, w: string, tail: string)
    requires IsWord(w) && IndexOf(tail, '=') >= 0
    ensures MoreWords(cont, w + " " + tail) == MoreWords(cont + " " + w, tail)
  {
    hide IndexOf;
    var s := w + " " + tail;
    assert s == w + [' '] + tail;
    IndexAfter(w, ' ', tail);
    IndexLater(w + " ", tail, '=');
    assert s[..|w|] == w && s[|w| + 1..] == tail;
  }

  /** The inner loop takes the further words of a value, up to the next key. */
  lemma {:induction false} TakesWords(cont: string, ws: seq<string>, t: string)
    requires ws != [] && AllWords(ws) && IndexOf(t, '=') >= 0
    ensures MoreWords(cont, Joined(ws) + " " + t) == MoreWords(cont + " " + Joined(ws), t)
    decreases |ws|
  {
    hide MoreWords, IndexOf;
    if |ws| == 1 {
      TakesWord(cont, ws[0], t);
    } else {
      var rest := Joined(ws[1..]);
      JoinedShape(ws[1..]);
      IndexLater(rest + " ", t, '=');
      assert Joined(ws) + " " + t == ws[0] + " " + (rest + " " + t);
      TakesWord(cont, ws[0], rest + " " + t);
      TakesWords(cont + " " + ws[0], ws[1..], t);
      assert cont + " " + ws[0] + " " + rest == cont + " " + Joined(ws);
    }
  }

  lemma ValueThenMore(key: string, ws: seq<string>, t: string)
    requires IsWord(key) && AllWords(ws) && t != [] && !IsWhite(t[0]) && IndexOf(t, '=') >= 0
    requires MoreWords(Joined(ws), t) == Scan(Joined(ws), t)
    ensures var s := key + "=" + Joined(ws) + " " + t;
            IndexOf(s, '=') == |key| && MoreWords(FirstWord(s), AfterFirstWord(s)) == Scan(Joined(ws), t)
  {
    hide MoreWords, FirstWord, AfterFirstWord, IndexOf;
    var s := key + "=" + Joined(ws) + " " + t;
    if |ws| <= 1 {
      assert s == key + "=" + (Joined(ws) + " " + t);
      TakesFirst(key, Joined(ws), t);
    } else {
      var tail := Joined(ws[1..]) + " " + t;
      assert s == key + "=" + (ws[0] + " " + tail);
      JoinedShape(ws[1..]);
      TakesFirst(key, ws[0], tail);
      TakesWords(ws[0], ws[1..], t);
    }
  }

  /** One pair with another behind it: the whole value is recovered. */
  lemma PairThenMore(ps: seq<Pair>)
    requires |ps| > 1 && IsPair(ps[0]) && IsPair(ps[1])
    ensures var s := Print(ps);
            IndexOf(s, '=') == |ps[0].key| && s[..|ps[0].key|] == ps[0].key
            && MoreWords(FirstWord(s), AfterFirstWord(s)) == Scan(Joined(ps[0].words), Print(ps[1..]))
  {
    hide MoreWords, FirstWord, AfterFirstWord, IndexOf, Joined;
    StopsAtKey(Joined(ps[0].words), ps[1..]);
    ValueThenMore(ps[0].key, ps[0].words, Print(ps[1..]));
    assert Print(ps) == ps[0].key + "=" + Joined(ps[0].words) + " " + Print(ps[1..]);
  }

  lemma LastPair(p: Pair)
    requires IsPair(p)
    ensures var s := Print([p]);
            IndexOf(s, '=') == |p.key| && s[..|p.key|] == p.key
            && MoreWords(FirstWord(s), AfterFirstWord(s)).cont == Joined(LastCut([p])[0].words)
            && IndexOf(MoreWords(FirstWord(s), AfterFirstWord(s)).rest, '=') < 0
  {
    var s, ws := Print([p]), p.words;
    if |ws| <= 1 {
      assert s == p.key + "=" + Joined(ws);
      TakesLast(p.key, Joined(ws));
    } else {
      var tail := Joined(ws[1..]);
      assert s == p.key + "=" + (ws[0] + " " + tail);
      JoinedShape(ws[1..]);
      TakesFirst(p.key, ws[0], tail);
      IndexNone(tail, '=');
    }
  }

  lemma LastParsed(p: Pair, upper: string -> string)
    requires IsPair(p)
    ensures Parse(Print([p]), upper) == [Field(upper(p.key), Joined(LastCut([p])[0].words))]
  {
    hide MoreWords, FirstWord, AfterFirstWord, Trim, Print;
    LastPair(p);
    ParseUnfold(Print([p]), upper);
    TrimOfTidy(p.key);
    JoinedShape(LastCut([p])[0].words);
    TrimOfTidy(Joined(LastCut([p])[0].words));
  }

  lemma MoreParsed(ps: seq<Pair>, upper: string -> string)
    requires |ps| > 1 && IsPair(ps[0]) && IsPair(ps[1])
    ensures Parse(Print(ps), upper) == [Field(upper(ps[0].key), Joined(ps[0].words))] + Parse(Print(ps[1..]), upper)
  {
    hide MoreWords, FirstWord, AfterFirstWord, Trim, Print;
    PairThenMore(ps);
    ParseUnfold(Print(ps), upper);
    TrimOfTidy(ps[0].key);
    JoinedShape(ps[0].words);
    TrimOfTidy(Joined(ps[0].words));
  }

  /** Printed pairs are recovered exactly and in order, except that the last value keeps only its
      first word. */
  lemma {:induction false} ParsePrinted(ps: seq<Pair>, upper: string -> string)
    requires forall i | 0 <= i < |ps| :: IsPair(ps[i])
    ensures Parse(Print(ps), upper) == Fields(LastCut(ps), upper)
    decreases |ps|
  {
    hide Parse, Print, Joined;
    if |ps| == 0 {
      assert Parse(Print(ps), upper) == [] by { NothingParsed(upper); }
    } else if |ps| == 1 {
      assert ps == [ps[0]];
      LastParsed(ps[0], upper);
    } else {
      MoreParsed(ps, upper);
      ParsePrinted(ps[1..], upper);
    }
  }

  lemma NothingParsed(upper: string -> string)
    ensures Parse(Print([]), upper) == []
  {
  }

  /** The fields are recovered exactly if and only if the last value has at most one word. */
  lemma RecoveredExactly(ps: seq<Pair>, upper: string -> string)
    requires forall i | 0 <= i < |ps| :: IsPair(ps[i])
    ensures Parse(Print(ps), upper) == Fields(ps, upper) <==> ps == [] || |ps[|ps| - 1].words| <= 1
  {
    ParsePrinted(ps, upper);
    CutChanges(ps, upper);
  }

  lemma {:induction false} CutChanges(ps: seq<Pair>, upper: string -> string)
    requires forall i | 0 <= i < |ps| :: IsPair(ps[i])
    ensures Fields(LastCut(ps), upper) == Fields(ps, upper) <==> ps == [] || |ps[|ps| - 1].words| <= 1
    decreases |ps|
  {
    if |ps| == 1 {
      var ws := ps[0].words;
      if |ws| > 1 {
        assert Fields(LastCut(ps), upper)[0].val == ws[0];
        assert Fields(ps, upper)[0].val == ws[0] + " " + Joined(ws[1..]);
        assert |Fields(ps, upper)[0].val| > |ws[0]|;
      }
    } else if |ps| > 1 {
      CutChanges(ps[1..], upper);
      var f := [Field(upper(ps[0].key), Joined(ps[0].words))];
      assert Fields(LastCut(ps), upper) == f + Fields(LastCut(ps[1..]), upper) by { assert LastCut(ps)[1..] == LastCut(ps[1..]); }
      assert Fields(ps, upper) == f + Fields(ps[1..], upper);
      SamePrefix(f, Fields(LastCut(ps[1..]), upper), Fields(ps[1..], upper));
    }
  }

  lemma SamePrefix(f: seq<Field>, a: seq<Field>, b: seq<Field>)
    ensures f + a == f + b <==> a == b
  {
    if f + a == f + b {
      assert a == (f + a)[|f|..] && b == (f + b)[|f|..];
    }
  }

  lemma BodyOfText(mode: string, gap: string, s: string)
    requires |mode| == 6 && (forall i | 0 <= i < |gap| :: IsWhite(gap[i]))
    requires s != [] && Tidy(s)
    ensures Body(mode + gap + s) == s
  {
    hide Trim;
    assert (mode + gap + s)[MODE_LEN..] == gap + s;
    TrimGap(gap, s);
  }

  /** A message of a six-character mode, white space and printed fields gives exactly those fields,
      if and only if its last value has at most one word. */
  lemma MessageRecovered(mode: string, gap: string, ps: seq<Pair>, upper: string -> string)
    requires |mode| == 6 && (forall i | 0 <= i < |gap| :: IsWhite(gap[i]))
    requires ps != [] && forall i | 0 <= i < |ps| :: IsPair(ps[i])
    ensures Parse(Body(mode + gap + Print(ps)), upper) == Fields(ps, upper) <==> |ps[|ps| - 1].words| <= 1
    ensures Parse(Body(mode + gap + Print(ps)), upper) == Fields(LastCut(ps), upper)
  {
    hide Print, Parse, Body, Fields, LastCut;
    PrintShape(ps);
    BodyOfText(mode, gap, Print(ps));
    ParsePrinted(ps, upper);
    RecoveredExactly(ps, upper);
  }

  lemma {:induction false} TrimGap(gap: string, s: string)
    requires (forall i | 0 <= i < |gap| :: IsWhite(gap[i])) && s != [] && !IsWhite(s[0]) && !IsWhite(s[|s| - 1])
    ensures Trim(gap + s) == s
    decreases |gap|
  {
    if gap == [] {
      assert gap + s == s;
    } else {
      assert (gap + s)[1..] == gap[1..] + s;
      TrimGap(gap[1..], s);
    }
  }

  lemma {:induction false} PrintShape(ps: seq<Pair>)
    requires ps != [] && forall i | 0 <= i < |ps| :: IsPair(ps[i])
    ensures Print(ps) != [] && !IsWhite(Print(ps)[0]) && !IsWhite(Print(ps)[|Print(ps)| - 1])
    decreases |ps|
  {
    JoinedShape(ps[0].words);
    if |ps| > 1 {
      PrintShape(ps[1..]);
    }
  }
}
