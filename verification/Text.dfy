/** The .NET string operations that the parsers use. */
module Text {
  predicate IsWhite(c: char)
  {
    || c == ' ' || '\t' <= c <= '\r' || c == '\U{85}' || c == '\U{A0}' || c == '\U{1680}' || '\U{2000}' <= c <= '\U{200A}'
    || c == '\U{2028}' || c == '\U{2029}' || c == '\U{202F}' || c == '\U{205F}' || c == '\U{3000}'
  }

  function TrimStart(s: string): (r: string)
    ensures |r| <= |s|
  {
    if s != [] && IsWhite(s[0]) then TrimStart(s[1..]) else s
  }

  function TrimEnd(s: string): string
    decreases |s|
  {
    if s != [] && IsWhite(s[|s| - 1]) then TrimEnd(s[..|s| - 1]) else s
  }

  function Trim(s: string): string { TrimEnd(TrimStart(s)) }

  function IndexOf(s: string, c: char): (i: int)
    ensures -1 <= i < |s| && (i >= 0 ==> s[i] == c)
  {
    if s == [] then -1
    else if s[0] == c then 0
    else
      var i := IndexOf(s[1..], c);
      if i < 0 then -1 else i + 1
  }

  /** Nothing to trim. */
  predicate Tidy(s: string)
  {
    s == [] || (!IsWhite(s[0]) && !IsWhite(s[|s| - 1]))
  }

  predicate Without(s: string, c: char) { forall i | 0 <= i < |s| :: s[i] != c }

  lemma {:induction false} IndexAfter(a: string, c: char, b: string)
    requires Without(a, c)
    ensures IndexOf(a + [c] + b, c) == |a|
    decreases |a|
  {
    if a == [] {
      assert (a + [c] + b)[0] == c;
    } else {
      assert (a + [c] + b)[1..] == a[1..] + [c] + b;
      IndexAfter(a[1..], c, b);
    }
  }

  lemma {:induction false} IndexNone(s: string, c: char)
    requires Without(s, c)
    ensures IndexOf(s, c) == -1
    decreases |s|
  {
    if s != [] {
      IndexNone(s[1..], c);
    }
  }

  lemma {:induction false} IndexLater(a: string, b: string, c: char)
    requires Without(a, c)
    ensures IndexOf(a + b, c) == if IndexOf(b, c) < 0 then -1 else |a| + IndexOf(b, c)
    decreases |a|
  {
    if a == [] {
      assert a + b == b;
    } else {
      assert (a + b)[1..] == a[1..] + b;
      IndexLater(a[1..], b, c);
    }
  }

  lemma TrimOfTidy(s: string)
    requires Tidy(s)
    ensures Trim(s) == s
  {
  }

  lemma {:induction false} TrimStartIs(s: string)
    ensures TrimStart(s) != [] ==> !IsWhite(TrimStart(s)[0])
    ensures exists i :: 0 <= i <= |s| && TrimStart(s) == s[i..]
    decreases |s|
  {
    if s != [] && IsWhite(s[0]) {
      TrimStartIs(s[1..]);
      var i :| 0 <= i <= |s[1..]| && TrimStart(s[1..]) == s[1..][i..];
      assert s[1..][i..] == s[i + 1..];
    } else {
      assert s == s[0..];
    }
  }

  lemma {:induction false} TrimEndIs(s: string)
    ensures TrimEnd(s) != [] ==> !IsWhite(TrimEnd(s)[|TrimEnd(s)| - 1]) && TrimEnd(s)[0] == s[0]
    ensures TrimEnd(s) <= s
    decreases |s|
  {
    if s != [] && IsWhite(s[|s| - 1]) {
      TrimEndIs(s[..|s| - 1]);
    }
  }

  /** Trimming gives a tidy part of the text. */
  lemma TrimIs(s: string)
    ensures Tidy(Trim(s)) && forall c :: Without(s, c) ==> Without(Trim(s), c)
  {
    TrimStartIs(s);
    TrimEndIs(TrimStart(s));
  }
}
