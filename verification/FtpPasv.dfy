/** ftp_parse_pasv: the address in a 227 reply. */
module FtpPasv {
  import opened Decimal

  datatype Option<T> = None | Some(value: T)

  /** The four numbers of the address, and the port. */
  datatype Address = Address(host: seq<nat>, port: nat)

  datatype Number = NoNumber | Number(value: nat, rest: string)

  const WORD := 0x1_0000_0000

  predicate IsSpace(c: char) { c == ' ' || '\t' <= c <= '\r' }

  function SkipSpace(s: string): string
  {
    if s != [] && IsSpace(s[0]) then SkipSpace(s[1..]) else s
  }

  /** sscanf's %u: white space, a sign, digits.  A sign negates in 32 bits. */
  function ReadNumber(s: string): (r: Number)
    ensures r.Number? ==> r.value < WORD
  {
    var t := SkipSpace(s);
    var signed := t != [] && (t[0] == '-' || t[0] == '+');
    var u := if signed then t[1..] else t;
    var n := Leading(u);
    if n == 0 then NoNumber
    else
      var v := Value(u[..n]) % WORD;
      Number(if signed && t[0] == '-' && v > 0 then WORD - v else v, u[n..])
  }

  /** `count` numbers with commas between them. */
  function ReadList(s: string, count: nat): (r: Option<seq<nat>>)
    ensures r.Some? ==> |r.value| == count && forall i | 0 <= i < count :: r.value[i] < WORD
    decreases count, s
  {
    if count == 0 then Some([])
    else
      match ReadNumber(s)
      case NoNumber => None
      case Number(v, rest) =>
        if count == 1 then Some([v])
        else if rest == [] || rest[0] != ',' then None
        else
          match ReadList(rest[1..], count - 1)
          case None => None
          case Some(vs) => Some([v] + vs)
  }

  /** What follows the first opening parenthesis of a NUL-terminated text. */
  function AfterParen(s: string): Option<string>
  {
    if s == [] || s[0] == '\0' then None else if s[0] == '(' then Some(s[1..]) else AfterParen(s[1..])
  }

  function PortOf(p1: nat, p2: nat): nat
  {
    (p1 * 256 + p2) % 0x1_0000
  }

  function ParsePasv(s: string): Option<Address>
  {
    match AfterParen(s)
    case None => None
    case Some(inner) =>
      match ReadList(inner, 6)
      case None => None
      case Some(h) => Some(Address(h[..4], PortOf(h[4], h[5])))
  }

  // --- A server's 227 reply gives the address that the server meant ---

  function PrintList(ns: seq<nat>): string
  {
    if ns == [] then [] else Print(ns[0]) + (if |ns| == 1 then [] else "," + PrintList(ns[1..]))
  }

  /** The digits that a text begins with. */
  lemma DigitsOf(n: nat, rest: string)
    requires rest == [] || !IsDigit(rest[0])
    ensures var s := Print(n) + rest;
            s != [] && IsDigit(s[0]) && Leading(s) == |Print(n)| > 0 && AllDigits(s[..Leading(s)])
            && Value(s[..Leading(s)]) == n && s[Leading(s)..] == rest
  {
    hide Leading, Value;
    var s := Print(n) + rest;
    LeadingOfPrint(n, rest);
    ValueOfPrint(n);
    assert s[..|Print(n)|] == Print(n) && s[|Print(n)|..] == rest && s[0] == Print(n)[0];
  }

  lemma ReadPrinted(n: nat, rest: string)
    requires n < WORD && (rest == [] || !IsDigit(rest[0]))
    ensures ReadNumber(Print(n) + rest) == Number(n, rest)
  {
    hide Leading, Value, Print;
    DigitsOf(n, rest);
    assert SkipSpace(Print(n) + rest) == Print(n) + rest;
  }

  predicate AllSpace(s: string) { forall i | 0 <= i < |s| :: IsSpace(s[i]) }

  lemma {:induction false} SkipsSpace(space: string, s: string)
    requires AllSpace(space) && (s == [] || !IsSpace(s[0]))
    ensures SkipSpace(space + s) == s
    decreases |space|
  {
    if space == [] {
      assert space + s == s;
    } else {
      assert (space + s)[0] == space[0] && (space + s)[1..] == space[1..] + s;
      SkipsSpace(space[1..], s);
    }
  }

  /** White space and a sign before a number are taken with it, and a minus negates it in 32 bits. */
  lemma ReadSigned(space: string, sign: char, n: nat, rest: string)
    requires AllSpace(space) && (sign == '-' || sign == '+') && n < 0x1_0000_0000 && (rest == [] || !IsDigit(rest[0]))
    ensures ReadNumber(space + [sign] + Print(n) + rest)
         == Number(if sign == '-' && n != 0 then 0x1_0000_0000 - n else n, rest)
  {
    hide Leading, Value, Print, SkipSpace, AllSpace;
    var u := Print(n) + rest;
    var t := [sign] + u;
    assert space + [sign] + Print(n) + rest == space + t;
    SkipsSpace(space, t);
    assert t[1..] == u;
    DigitsOf(n, rest);
  }

  lemma ReadListMore(s: string, v: nat, tail: string, vs: seq<nat>, count: nat)
    requires count > 1 && ReadNumber(s) == Number(v, "," + tail) && ReadList(tail, count - 1) == Some(vs)
    ensures ReadList(s, count) == Some([v] + vs)
  {
    var rest := "," + tail;
    assert rest[0] == ',' && rest[1..] == tail;
  }

  lemma {:induction false} ReadPrintedList(ns: seq<nat>, rest: string)
    requires (forall i | 0 <= i < |ns| :: ns[i] < WORD) && (rest == [] || !IsDigit(rest[0]))
    ensures ReadList(PrintList(ns) + rest, |ns|) == Some(ns)
    decreases |ns|
  {
    hide ReadNumber;
    if |ns| == 0 {
      assert ns == [];
    } else if |ns| == 1 {
      assert PrintList(ns) + rest == Print(ns[0]) + rest;
      ReadPrinted(ns[0], rest);
      assert ns == [ns[0]];
    } else {
      var tail := PrintList(ns[1..]) + rest;
      assert PrintList(ns) + rest == Print(ns[0]) + ("," + tail);
      ReadPrinted(ns[0], "," + tail);
      ReadPrintedList(ns[1..], rest);
      ReadListMore(PrintList(ns) + rest, ns[0], tail, ns[1..], |ns|);
      assert ns == [ns[0]] + ns[1..];
    }
  }

  lemma {:induction false} ParenFound(text: string, inner: string)
    requires forall i | 0 <= i < |text| :: text[i] != '(' && text[i] != '\0'
    ensures AfterParen(text + "(" + inner) == Some(inner)
    decreases |text|
  {
    var s := text + "(" + inner;
    if text == [] {
      assert s[1..] == inner;
    } else {
      assert s[1..] == text[1..] + "(" + inner;
      ParenFound(text[1..], inner);
    }
  }

  /** Without a parenthesis there is no address. */
  lemma {:induction false} NoParen(text: string, rest: string)
    requires forall i | 0 <= i < |text| :: text[i] != '(' && text[i] != '\0'
    requires rest == [] || rest[0] == '\0'
    ensures ParsePasv(text + rest) == None
    decreases |text|
  {
    var s := text + rest;
    if text != [] {
      assert s[1..] == text[1..] + rest;
      NoParen(text[1..], rest);
    }
  }

  lemma {:induction false} ReadTooFew(ns: seq<nat>, rest: string, count: nat)
    requires 0 < |ns| < count && (forall i | 0 <= i < |ns| :: ns[i] < WORD)
    requires rest == [] || (!IsDigit(rest[0]) && rest[0] != ',')
    ensures ReadList(PrintList(ns) + rest, count) == None
    decreases |ns|
  {
    hide ReadNumber;
    if |ns| == 1 {
      assert PrintList(ns) + rest == Print(ns[0]) + rest;
      ReadPrinted(ns[0], rest);
    } else {
      var tail := PrintList(ns[1..]) + rest;
      assert PrintList(ns) + rest == Print(ns[0]) + ("," + tail);
      ReadPrinted(ns[0], "," + tail);
      assert ("," + tail)[0] == ',' && ("," + tail)[1..] == tail;
      ReadTooFew(ns[1..], rest, count - 1);
    }
  }

  /** Nor is there one with fewer than six numbers in the parenthesis. */
  lemma TooFewNumbers(text: string, h: seq<nat>, after: string)
    requires 0 < |h| < 6 && forall i | 0 <= i < |h| :: h[i] < 0x1_0000_0000
    requires forall i | 0 <= i < |text| :: text[i] != '(' && text[i] != '\0'
    requires after == [] || (!IsDigit(after[0]) && after[0] != ',')
    ensures ParsePasv(text + "(" + (PrintList(h) + after)) == None
  {
    hide ReadList;
    ParenFound(text, PrintList(h) + after);
    ReadTooFew(h, after, 6);
  }

  /** The address as lwIP keeps it, first byte lowest. */
  function Pack(a: bv32, b: bv32, c: bv32, d: bv32): bv32
  {
    a | (b << 8) | (c << 16) | (d << 24)
  }

  /** The four address bytes are where lwIP looks for them. */
  lemma AddressBytes(a: bv32, b: bv32, c: bv32, d: bv32)
    requires a <= 255 && b <= 255 && c <= 255 && d <= 255
    ensures var ip := Pack(a, b, c, d);
            ip & 255 == a && (ip >> 8) & 255 == b && (ip >> 16) & 255 == c && (ip >> 24) & 255 == d
  {
  }

  /** Whatever the server writes before the parenthesis and after the last number, the address it
      meant is recovered; of six numbers of any size, the port is taken in 16 bits. */
  lemma PasvRoundTrip(text: string, h: seq<nat>, after: string)
    requires |h| == 6 && forall i | 0 <= i < 6 :: h[i] < 0x1_0000_0000
    requires forall i | 0 <= i < |text| :: text[i] != '(' && text[i] != '\0'
    requires after == [] || !IsDigit(after[0])
    ensures ParsePasv(text + "(" + (PrintList(h) + after))
         == Some(Address(h[..4], (h[4] * 256 + h[5]) % 65536))
    ensures h[4] <= 255 && h[5] <= 255 ==> (h[4] * 256 + h[5]) % 65536 == h[4] * 256 + h[5]
  {
    hide ReadList;
    ParenFound(text, PrintList(h) + after);
    ReadPrintedList(h, after);
  }
}
