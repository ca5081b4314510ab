/** The INI store on values: what a file text loads as, and what a store saves as.  Names are compared
    through `fold`, the dictionaries' case-insensitive comparison; nothing is assumed about it. */
module IniFile {
  import opened Text

  datatype Entry = Entry(key: string, val: string)

  datatype Section = Section(name: string, entries: seq<Entry>)

  type Fold = string -> string

  // --- Lines ---

  /** How many characters the line end at the start of a text has. */
  function LineBreak(s: string): nat
    requires s != []
    ensures LineBreak(s) <= |s| && LineBreak(s) <= 2
  {
    if s[0] == '\n' then 1
    else if s[0] == '\r' then (if |s| > 1 && s[1] == '\n' then 2 else 1)
    else 0
  }

  /** File.ReadAllLines: lines end in LF, CR or CR LF. */
  function SplitLines(s: string): seq<string>
    decreases |s|
  {
    if s == [] then [] else SplitFrom([], s)
  }

  /** The lines of a text whose current line has begun with `line`. */
  function SplitFrom(line: string, s: string): seq<string>
    decreases |s|, 1
  {
    if s == [] then [line]
    else if LineBreak(s) > 0 then [line] + (if LineBreak(s) == |s| then [] else SplitFrom([], s[LineBreak(s)..]))
    else SplitFrom(line + [s[0]], s[1..])
  }

  function Render(lines: seq<string>): string
  {
    if lines == [] then [] else lines[0] + "\r\n" + Render(lines[1..])
  }

  predicate OneLine(s: string) { Without(s, '\n') && Without(s, '\r') }

  predicate AllOneLine(lines: seq<string>) { forall i | 0 <= i < |lines| :: OneLine(lines[i]) }

  lemma {:induction false} SplitOneMore(line: string, rest: string, tail: string)
    requires OneLine(rest)
    ensures SplitFrom(line, rest + "\r\n" + tail) == [line + rest] + SplitLines(tail)
    decreases |rest|
  {
    var s := rest + "\r\n" + tail;
    if rest == [] {
      assert s[0] == '\r' && s[1] == '\n' && s[2..] == tail && line + rest == line;
    } else {
      assert s[1..] == rest[1..] + "\r\n" + tail;
      SplitOneMore(line + [rest[0]], rest[1..], tail);
      assert line + [rest[0]] + rest[1..] == line + rest;
    }
  }

  /** Lines written are read back. */
  lemma {:induction false} SplitOfRender(lines: seq<string>)
    requires AllOneLine(lines)
    ensures SplitLines(Render(lines)) == lines
    decreases |lines|
  {
    if lines != [] {
      SplitOneMore([], lines[0], Render(lines[1..]));
      SplitOfRender(lines[1..]);
      assert [] + lines[0] == lines[0];
    }
  }

  lemma {:induction false} SplitGivesLines(line: string, s: string)
    requires OneLine(line)
    ensures AllOneLine(SplitFrom(line, s))
    decreases |s|
  {
    if s != [] {
      if LineBreak(s) > 0 {
        if LineBreak(s) < |s| {
          SplitGivesLines([], s[LineBreak(s)..]);
        }
      } else {
        SplitGivesLines(line + [s[0]], s[1..]);
      }
    }
  }

  // --- The dictionaries ---

  function FindSection(store: seq<Section>, name: string, fold: Fold): (k: nat)
    ensures k <= |store| && (k < |store| ==> fold(store[k].name) == fold(name))
    ensures forall i | 0 <= i < k :: fold(store[i].name) != fold(name)
  {
    if store == [] || fold(store[0].name) == fold(name) then 0 else 1 + FindSection(store[1..], name, fold)
  }

  function FindKey(entries: seq<Entry>, key: string, fold: Fold): (k: nat)
    ensures k <= |entries| && (k < |entries| ==> fold(entries[k].key) == fold(key))
    ensures forall i | 0 <= i < k :: fold(entries[i].key) != fold(key)
  {
    if entries == [] || fold(entries[0].key) == fold(key) then 0 else 1 + FindKey(entries[1..], key, fold)
  }

  /** The indexer's setter: an entry that is there keeps its key and its place. */
  function PutEntry(entries: seq<Entry>, key: string, val: string, fold: Fold): seq<Entry>
  {
    var k := FindKey(entries, key, fold);
    if k < |entries| then entries[k := Entry(entries[k].key, val)] else entries + [Entry(key, val)]
  }

  function PutSection(store: seq<Section>, name: string, fold: Fold): seq<Section>
  {
    if FindSection(store, name, fold) < |store| then store else store + [Section(name, [])]
  }

  function SetValue(store: seq<Section>, name: string, key: string, val: string, fold: Fold): seq<Section>
  {
    var k := FindSection(store, name, fold);
    if k < |store| then store[k := Section(store[k].name, PutEntry(store[k].entries, key, val, fold))] else store
  }

  // --- Load ---

  datatype Option<T> = None | Some(value: T)

  datatype Loading = Loading(store: seq<Section>, current: Option<string>)

  /** One line of the file. */
  function LoadLine(l: Loading, raw: string, fold: Fold): Loading
  {
    var line := Trim(raw);
    if line == [] || line[0] == ';' || line[0] == '#' then l
    else if line[0] == '[' then
      var end := IndexOf(line, ']');
      if end > 1 then
        var name := Trim(line[1..end]);
        Loading(PutSection(l.store, name, fold), Some(name))
      else l
    else if l.current.None? then l
    else
      var eq := IndexOf(line, '=');
      if eq > 0 then l.(store := SetValue(l.store, l.current.value, Trim(line[..eq]), line[eq + 1..], fold)) else l
  }

  function LoadLines(l: Loading, lines: seq<string>, fold: Fold): Loading
  {
    if lines == [] then l else LoadLine(LoadLines(l, lines[..|lines| - 1], fold), lines[|lines| - 1], fold)
  }

  function Load(text: string, fold: Fold): seq<Section>
  {
    LoadLines(Loading([], None), SplitLines(text), fold).store
  }

  // --- Save ---

  function EntryLines(entries: seq<Entry>): seq<string>
  {
    if entries == [] then [] else EntryLines(entries[..|entries| - 1]) + [entries[|entries| - 1].key + "=" + entries[|entries| - 1].val]
  }

  function SectionLines(s: Section): seq<string>
  {
    ["[" + s.name + "]"] + EntryLines(s.entries) + [[]]
  }

  function SaveLines(store: seq<Section>): seq<string>
  {
    if store == [] then [] else SaveLines(store[..|store| - 1]) + SectionLines(store[|store| - 1])
  }

  function Save(store: seq<Section>): string { Render(SaveLines(store)) }

  // --- What can be saved ---

  predicate CleanName(n: string) { Tidy(n) && Without(n, ']') && OneLine(n) }

  predicate CleanEntry(e: Entry)
  {
    && e.key != [] && Tidy(e.key) && Without(e.key, '=') && OneLine(e.key)
    && e.key[0] != ';' && e.key[0] != '#' && e.key[0] != '['
    && OneLine(e.val) && (e.val != [] ==> !IsWhite(e.val[|e.val| - 1]))
  }

  predicate CleanSection(s: Section)
  {
    CleanName(s.name) && forall i | 0 <= i < |s.entries| :: CleanEntry(s.entries[i])
  }

  predicate Clean(store: seq<Section>) { forall i | 0 <= i < |store| :: CleanSection(store[i]) }

  predicate NoBlankName(store: seq<Section>) { forall i | 0 <= i < |store| :: store[i].name != [] }

  /** The dictionaries hold no name twice. */
  predicate DistinctKeys(entries: seq<Entry>, fold: Fold)
  {
    forall i, j | 0 <= i < j < |entries| :: fold(entries[i].key) != fold(entries[j].key)
  }

  predicate IsStore(store: seq<Section>, fold: Fold)
  {
    && (forall i, j | 0 <= i < j < |store| :: fold(store[i].name) != fold(store[j].name))
    && (forall i | 0 <= i < |store| :: DistinctKeys(store[i].entries, fold))
  }

  // --- Load after Save ---

  lemma {:induction false} LoadConcat(l: Loading, a: seq<string>, b: seq<string>, fold: Fold)
    ensures LoadLines(l, a + b, fold) == LoadLines(LoadLines(l, a, fold), b, fold)
    decreases |b|
  {
    if b == [] {
      assert a + b == a;
    } else {
      assert (a + b)[..|a + b| - 1] == a + b[..|b| - 1];
      LoadConcat(l, a, b[..|b| - 1], fold);
    }
  }

  lemma LoadOne(l: Loading, raw: string, fold: Fold)
    ensures LoadLines(l, [raw], fold) == LoadLine(l, raw, fold)
  {
    assert [raw][..0] == [];
  }

  /** A header line. */
  lemma LoadHeader(l: Loading, name: string, fold: Fold)
    requires CleanName(name) && name != []
    ensures LoadLine(l, "[" + name + "]", fold) == Loading(PutSection(l.store, name, fold), Some(name))
  {
    var line := "[" + name + "]";
    assert Tidy(line);
    TrimOfTidy(line);
    assert line == ("[" + name) + [']'] + [];
    IndexAfter("[" + name, ']', []);
    assert line[1..|name| + 1] == name;
    TrimOfTidy(name);
  }

  /** An entry's line. */
  lemma LoadEntry(l: Loading, e: Entry, fold: Fold)
    requires CleanEntry(e) && l.current.Some?
    ensures LoadLine(l, e.key + "=" + e.val, fold) == l.(store := SetValue(l.store, l.current.value, e.key, e.val, fold))
  {
    var line := e.key + "=" + e.val;
    assert Tidy(line);
    TrimOfTidy(line);
    IndexAfter(e.key, '=', e.val);
    assert line[..|e.key|] == e.key && line[|e.key| + 1..] == e.val;
    TrimOfTidy(e.key);
  }

  lemma LoadBlank(l: Loading, fold: Fold)
    ensures LoadLine(l, [], fold) == l
  {
  }

  // --- Every form of line ---

  predicate AllWhite(s: string) { forall i | 0 <= i < |s| :: IsWhite(s[i]) }

  /** The forms that a line can have between the white space at its two ends. */
  datatype Line =
    | Empty
    | Remark(mark: char, text: string)
    | Header(lead: string, name: string, trail: string, rest: string)
    | Pair(key: string, gap: string, val: string)
    | Other(text: string)

  function Body(x: Line): string
  {
    match x
    case Empty => []
    case Remark(mark, text) => [mark] + text
    case Header(lead, name, trail, rest) => "[" + lead + name + trail + "]" + rest
    case Pair(key, gap, val) => key + gap + "=" + val
    case Other(text) => text
  }

  predicate IsForm(x: Line)
  {
    && Tidy(Body(x))
    && match x
       case Empty => true
       case Remark(mark, _) => mark == ';' || mark == '#'
       case Header(lead, name, trail, _) =>
         AllWhite(lead) && AllWhite(trail) && Tidy(name) && Without(name, ']') && lead + name + trail != []
       case Pair(key, gap, _) =>
         key != [] && Tidy(key) && AllWhite(gap) && Without(key, '=') && key[0] != ';' && key[0] != '#' && key[0] != '['
       case Other(text) =>
         text != [] && text[0] != ';' && text[0] != '#' && (if text[0] == '[' then IndexOf(text, ']') <= 1 else IndexOf(text, '=') <= 0)
  }

  /** What a line does: a header makes its section the current one, and a pair sets a value there; the
      names lose the white space around them, and a value only that at the end of the line. */
  function Effect(l: Loading, x: Line, fold: Fold): Loading
  {
    match x
    case Header(_, name, _, _) => Loading(PutSection(l.store, name, fold), Some(name))
    case Pair(key, _, val) => if l.current.None? then l else l.(store := SetValue(l.store, l.current.value, key, val, fold))
    case _ => l
  }

  lemma {:induction false} TrimStartOf(a: string, s: string)
    requires AllWhite(a) && (s != [] ==> !IsWhite(s[0]))
    ensures TrimStart(a + s) == s
    decreases |a|
  {
    if a == [] {
      assert a + s == s;
    } else {
      assert (a + s)[0] == a[0] && (a + s)[1..] == a[1..] + s;
      TrimStartOf(a[1..], s);
    }
  }

  lemma {:induction false} TrimEndOf(s: string, b: string)
    requires AllWhite(b) && (s != [] ==> !IsWhite(s[|s| - 1]))
    ensures TrimEnd(s + b) == s
    decreases |b|
  {
    if b == [] {
      assert s + b == s;
    } else {
      assert (s + b)[|s + b| - 1] == b[|b| - 1] && (s + b)[..|s + b| - 1] == s + b[..|b| - 1];
      TrimEndOf(s, b[..|b| - 1]);
    }
  }

  lemma TrimAround(a: string, s: string, b: string)
    requires AllWhite(a) && AllWhite(b) && Tidy(s)
    ensures Trim(a + s + b) == s
  {
    if s == [] {
      assert a + s + b == (a + b) + [];
      TrimStartOf(a + b, []);
    } else {
      assert a + s + b == a + (s + b);
      TrimStartOf(a, s + b);
      TrimEndOf(s, b);
    }
  }

  lemma WhiteIsWithout(s: string)
    requires AllWhite(s)
    ensures Without(s, ']') && Without(s, '=')
  {
  }

  lemma HeaderDoes(l: Loading, x: Line, raw: string, fold: Fold)
    requires x.Header? && IsForm(x) && Trim(raw) == Body(x)
    ensures LoadLine(l, raw, fold) == Effect(l, x, fold)
  {
    hide Trim, IndexOf, PutSection, Tidy;
    WhiteIsWithout(x.lead);
    WhiteIsWithout(x.trail);
    var inner := x.lead + x.name + x.trail;
    assert Body(x) == ("[" + inner) + [']'] + x.rest;
    IndexAfter("[" + inner, ']', x.rest);
    assert Body(x)[1..|inner| + 1] == inner;
    TrimAround(x.lead, x.name, x.trail);
  }

  lemma PairDoes(l: Loading, x: Line, raw: string, fold: Fold)
    requires x.Pair? && IsForm(x) && Trim(raw) == Body(x)
    ensures LoadLine(l, raw, fold) == Effect(l, x, fold)
  {
    hide Trim, IndexOf, SetValue, Tidy;
    WhiteIsWithout(x.gap);
    var left := x.key + x.gap;
    assert Body(x) == left + ['='] + x.val;
    IndexAfter(left, '=', x.val);
    assert Body(x)[..|left|] == [] + x.key + x.gap && Body(x)[|left| + 1..] == x.val;
    TrimAround([], x.key, x.gap);
  }

  /** Whatever white space stands around it, a line does what its form says. */
  lemma LineDoes(l: Loading, a: string, x: Line, b: string, fold: Fold)
    requires AllWhite(a) && AllWhite(b) && IsForm(x)
    ensures LoadLine(l, a + Body(x) + b, fold) == Effect(l, x, fold)
  {
    hide SetValue, PutSection, Trim, IndexOf;
    TrimAround(a, Body(x), b);
    if x.Header? {
      HeaderDoes(l, x, a + Body(x) + b, fold);
    } else if x.Pair? {
      PairDoes(l, x, a + Body(x) + b, fold);
    }
  }

  lemma {:induction false} TrimStartParts(s: string) returns (a: string)
    ensures AllWhite(a) && s == a + TrimStart(s)
    decreases |s|
  {
    a := [];
    if s != [] && IsWhite(s[0]) {
      var rest := TrimStartParts(s[1..]);
      a := [s[0]] + rest;
    }
  }

  lemma {:induction false} TrimEndParts(s: string) returns (b: string)
    ensures AllWhite(b) && s == TrimEnd(s) + b
    decreases |s|
  {
    b := [];
    if s != [] && IsWhite(s[|s| - 1]) {
      var rest := TrimEndParts(s[..|s| - 1]);
      b := rest + [s[|s| - 1]];
    }
  }

  lemma TrimParts(s: string) returns (a: string, b: string)
    ensures AllWhite(a) && AllWhite(b) && s == a + Trim(s) + b
  {
    a := TrimStartParts(s);
    b := TrimEndParts(TrimStart(s));
  }

  /** And every line has one of the forms. */
  lemma FormOf(raw: string) returns (a: string, x: Line, b: string)
    ensures AllWhite(a) && AllWhite(b) && IsForm(x) && raw == a + Body(x) + b
  {
    hide AllWhite, Body, IsForm, Trim, Tidy;
    a, b := TrimParts(raw);
    TrimIs(raw);
    x := FormOfTidy(Trim(raw));
  }

  lemma FormOfTidy(line: string) returns (x: Line)
    requires Tidy(line)
    ensures IsForm(x) && Body(x) == line
  {
    hide Tidy;
    if line == [] {
      x := Empty;
    } else if line[0] == ';' || line[0] == '#' {
      x := Remark(line[0], line[1..]);
      assert Body(x) == line;
    } else if line[0] == '[' {
      x := HeaderForm(line);
    } else {
      x := PairForm(line);
    }
  }

  lemma HeaderForm(line: string) returns (x: Line)
    requires Tidy(line) && line != [] && line[0] == '['
    ensures IsForm(x) && Body(x) == line
  {
    hide Tidy, Trim, AllWhite, Without;
    if IndexOf(line, ']') <= 1 {
      return Other(line);
    }
    var inner, rest := HeaderParts(line);
    var lead, trail := TrimParts(inner);
    TrimIs(inner);
    x := Header(lead, Trim(inner), trail, rest);
    HeaderBody(x, inner);
  }

  lemma HeaderParts(line: string) returns (inner: string, rest: string)
    requires line != [] && line[0] == '[' && IndexOf(line, ']') > 1
    ensures inner != [] && Without(inner, ']') && line == "[" + inner + "]" + rest
  {
    var end := IndexOf(line, ']');
    inner, rest := line[1..end], line[end + 1..];
    BeforeFirst(line, ']');
    assert line == [line[0]] + inner + [line[end]] + rest;
  }

  lemma HeaderBody(x: Line, inner: string)
    requires x.Header? && x.lead + x.name + x.trail == inner
    ensures Body(x) == "[" + inner + "]" + x.rest
  {
    assert "[" + x.lead + x.name + x.trail == "[" + inner;
  }

  lemma PairForm(line: string) returns (x: Line)
    requires Tidy(line) && line != [] && line[0] != ';' && line[0] != '#' && line[0] != '['
    ensures IsForm(x) && Body(x) == line
  {
    var eq := IndexOf(line, '=');
    if eq <= 0 {
      return Other(line);
    }
    hide Trim, Tidy;
    var left := line[..eq];
    assert !IsWhite(left[0]) by {
      TidyHead(line);
    }
    var key, gap := KeyParts(left);
    BeforeFirst(line, '=');
    assert Without(left, '=') && Without(key, '=');
    x := Pair(key, gap, line[eq + 1..]);
    assert Body(x) == left + "=" + line[eq + 1..] == line;
  }

  lemma TidyHead(s: string)
    requires Tidy(s) && s != []
    ensures !IsWhite(s[0])
  {
  }

  /** A text that begins with no white space is its tidy part and the white space after it. */
  lemma KeyParts(left: string) returns (key: string, gap: string)
    requires left != [] && !IsWhite(left[0])
    ensures Tidy(key) && key != [] && AllWhite(gap) && left == key + gap && key[0] == left[0]
    ensures forall c :: Without(left, c) ==> Without(key, c)
  {
    TrimEndIs(left);
    gap := TrimEndParts(left);
    key := TrimEnd(left);
    assert key == [] ==> left == gap;
  }

  lemma AppendsEntry(before: seq<Section>, name: string, rest: seq<Entry>, last: Entry, fold: Fold)
    requires forall i | 0 <= i < |before| :: fold(before[i].name) != fold(name)
    requires forall i | 0 <= i < |rest| :: fold(rest[i].key) != fold(last.key)
    ensures SetValue(before + [Section(name, rest)], name, last.key, last.val, fold) == before + [Section(name, rest + [last])]
  {
    var store := before + [Section(name, rest)];
    assert store[|before|] == Section(name, rest);
    assert FindSection(store, name, fold) == |before| && FindKey(rest, last.key, fold) == |rest|;
  }

  lemma LoadOneEntry(before: seq<Section>, name: string, rest: seq<Entry>, last: Entry, fold: Fold)
    requires CleanEntry(last)
    requires forall i | 0 <= i < |before| :: fold(before[i].name) != fold(name)
    requires forall i | 0 <= i < |rest| :: fold(rest[i].key) != fold(last.key)
    ensures LoadLines(Loading(before + [Section(name, rest)], Some(name)), [last.key + "=" + last.val], fold)
         == Loading(before + [Section(name, rest + [last])], Some(name))
  {
    hide SetValue, LoadLine, LoadLines, CleanEntry;
    var l := Loading(before + [Section(name, rest)], Some(name));
    LoadOne(l, last.key + "=" + last.val, fold);
    LoadEntry(l, last, fold);
    AppendsEntry(before, name, rest, last, fold);
  }

  lemma {:induction false} LoadEntries(before: seq<Section>, name: string, entries: seq<Entry>, fold: Fold)
    requires (forall i | 0 <= i < |entries| :: CleanEntry(entries[i])) && DistinctKeys(entries, fold)
    requires forall i | 0 <= i < |before| :: fold(before[i].name) != fold(name)
    ensures LoadLines(Loading(before + [Section(name, [])], Some(name)), EntryLines(entries), fold)
         == Loading(before + [Section(name, entries)], Some(name))
    decreases |entries|
  {
    hide CleanEntry, LoadLine;
    if entries != [] {
      var rest, last := entries[..|entries| - 1], entries[|entries| - 1];
      LoadEntries(before, name, rest, fold);
      LoadConcat(Loading(before + [Section(name, [])], Some(name)), EntryLines(rest), [last.key + "=" + last.val], fold);
      LoadOneEntry(before, name, rest, last, fold);
      assert rest + [last] == entries;
    }
  }

  lemma LoadSection(before: seq<Section>, current: Option<string>, s: Section, fold: Fold)
    requires CleanSection(s) && s.name != [] && DistinctKeys(s.entries, fold)
    requires forall i | 0 <= i < |before| :: fold(before[i].name) != fold(s.name)
    ensures LoadLines(Loading(before, current), SectionLines(s), fold) == Loading(before + [s], Some(s.name))
  {
    var header, entries := "[" + s.name + "]", EntryLines(s.entries);
    var l := Loading(before, current);
    LoadConcat(l, [header] + entries, [[]], fold);
    LoadConcat(l, [header], entries, fold);
    LoadOne(l, header, fold);
    LoadHeader(l, s.name, fold);
    assert FindSection(before, s.name, fold) == |before|;
    LoadEntries(before, s.name, s.entries, fold);
    LoadOne(Loading(before + [s], Some(s.name)), [], fold);
    LoadBlank(Loading(before + [s], Some(s.name)), fold);
  }

  lemma {:induction false} LoadSaveLines(store: seq<Section>, fold: Fold)
    requires IsStore(store, fold) && Clean(store) && NoBlankName(store)
    ensures LoadLines(Loading([], None), SaveLines(store), fold).store == store
    decreases |store|
  {
    if store != [] {
      var rest, last := store[..|store| - 1], store[|store| - 1];
      LoadSaveLines(rest, fold);
      var l := LoadLines(Loading([], None), SaveLines(rest), fold);
      LoadConcat(Loading([], None), SaveLines(rest), SectionLines(last), fold);
      LoadSection(rest, l.current, last, fold);
      assert rest + [last] == store;
    }
  }

  lemma {:induction false} EntryLinesOneLine(entries: seq<Entry>)
    requires forall i | 0 <= i < |entries| :: CleanEntry(entries[i])
    ensures AllOneLine(EntryLines(entries))
    decreases |entries|
  {
    if entries != [] {
      EntryLinesOneLine(entries[..|entries| - 1]);
      assert CleanEntry(entries[|entries| - 1]);
    }
  }

  lemma {:induction false} SaveLinesOneLine(store: seq<Section>)
    requires Clean(store)
    ensures AllOneLine(SaveLines(store))
    decreases |store|
  {
    if store != [] {
      SaveLinesOneLine(store[..|store| - 1]);
      EntryLinesOneLine(store[|store| - 1].entries);
    }
  }

  /** Saving and loading gives the store back. */
  lemma LoadSave(store: seq<Section>, fold: Fold)
    requires IsStore(store, fold) && Clean(store) && NoBlankName(store)
    ensures Load(Save(store), fold) == store
  {
    SaveLinesOneLine(store);
    SplitOfRender(SaveLines(store));
    LoadSaveLines(store, fold);
  }

  // --- What a text loads as ---

  lemma {:induction false} PutEntryKeeps(entries: seq<Entry>, key: string, val: string, fold: Fold)
    requires DistinctKeys(entries, fold) && (forall i | 0 <= i < |entries| :: CleanEntry(entries[i])) && CleanEntry(Entry(key, val))
    ensures var r := PutEntry(entries, key, val, fold);
            DistinctKeys(r, fold) && forall i | 0 <= i < |r| :: CleanEntry(r[i])
  {
  }

  lemma SetValueKeeps(store: seq<Section>, name: string, key: string, val: string, fold: Fold)
    requires IsStore(store, fold) && Clean(store) && CleanEntry(Entry(key, val))
    ensures var r := SetValue(store, name, key, val, fold);
            IsStore(r, fold) && Clean(r) && (NoBlankName(store) ==> NoBlankName(r))
  {
    var k := FindSection(store, name, fold);
    if k < |store| {
      assert CleanSection(store[k]);
      PutEntryKeeps(store[k].entries, key, val, fold);
      assert CleanSection(Section(store[k].name, PutEntry(store[k].entries, key, val, fold)));
    }
  }

  lemma PutSectionKeeps(store: seq<Section>, name: string, fold: Fold)
    requires IsStore(store, fold) && Clean(store) && CleanName(name)
    ensures var r := PutSection(store, name, fold);
            IsStore(r, fold) && Clean(r) && (NoBlankName(store) && name != [] ==> NoBlankName(r))
  {
    if FindSection(store, name, fold) == |store| {
      AppendKeeps(store, Section(name, []), fold);
    }
  }

  lemma AppendKeeps(store: seq<Section>, s: Section, fold: Fold)
    requires IsStore(store, fold) && Clean(store) && CleanName(s.name) && s.entries == []
    requires forall i | 0 <= i < |store| :: fold(store[i].name) != fold(s.name)
    ensures IsStore(store + [s], fold) && Clean(store + [s])
    ensures NoBlankName(store) && s.name != [] ==> NoBlankName(store + [s])
  {
    hide CleanName, CleanEntry;
    assert CleanSection(s) && DistinctKeys(s.entries, fold);
    hide CleanSection, DistinctKeys;
  }

  lemma BeforeFirst(s: string, c: char)
    ensures IndexOf(s, c) >= 0 ==> Without(s[..IndexOf(s, c)], c)
    ensures IndexOf(s, c) < 0 ==> Without(s, c)
  {
    if s != [] {
      BeforeFirst(s[1..], c);
    }
  }

  /** The key and the value of a line that is an entry. */
  lemma EntryIsClean(line: string, eq: nat)
    requires line != [] && Tidy(line) && OneLine(line) && line[0] != ';' && line[0] != '#' && line[0] != '['
    requires eq == IndexOf(line, '=') && eq > 0
    ensures CleanEntry(Entry(Trim(line[..eq]), line[eq + 1..]))
  {
    BeforeFirst(line, '=');
    KeyIsClean(line, eq);
    ValueIsClean(line, eq);
  }

  lemma KeyIsClean(line: string, eq: nat)
    requires 0 < eq < |line| && !IsWhite(line[0]) && OneLine(line) && Without(line[..eq], '=')
    ensures var key := Trim(line[..eq]);
            key != [] && Tidy(key) && Without(key, '=') && OneLine(key) && key[0] == line[0]
  {
    hide Trim;
    TrimIs(line[..eq]);
    TrimKeepsHead(line[..eq]);
  }

  lemma ValueIsClean(line: string, eq: nat)
    requires eq < |line| && Tidy(line) && OneLine(line)
    ensures var val := line[eq + 1..]; OneLine(val) && (val != [] ==> !IsWhite(val[|val| - 1]))
  {
    hide IsWhite;
  }

  lemma TrimKeepsHead(s: string)
    requires s != [] && !IsWhite(s[0])
    ensures Trim(s) != [] && Trim(s)[0] == s[0]
  {
    TrimEndIs(s);
    KeepsOne(s);
  }

  lemma {:induction false} KeepsOne(s: string)
    requires s != [] && !IsWhite(s[0])
    ensures TrimEnd(s) != []
    decreases |s|
  {
    if IsWhite(s[|s| - 1]) {
      KeepsOne(s[..|s| - 1]);
    }
  }

  lemma NameIsClean(line: string, end: nat)
    requires OneLine(line) && end == IndexOf(line, ']') && end > 1
    ensures CleanName(Trim(line[1..end]))
  {
    BeforeFirst(line, ']');
    assert line[1..end] == line[..end][1..];
    TrimIs(line[1..end]);
  }

  lemma LoadLineKeeps(l: Loading, raw: string, fold: Fold)
    requires IsStore(l.store, fold) && Clean(l.store) && OneLine(raw)
    ensures IsStore(LoadLine(l, raw, fold).store, fold) && Clean(LoadLine(l, raw, fold).store)
  {
    hide SetValue, PutSection, IsStore, Clean;
    TrimIs(raw);
    var line := Trim(raw);
    if line != [] && line[0] != ';' && line[0] != '#' {
      if line[0] == '[' {
        var end := IndexOf(line, ']');
        if end > 1 {
          NameIsClean(line, end);
          PutSectionKeeps(l.store, Trim(line[1..end]), fold);
        }
      } else if l.current.Some? {
        var eq := IndexOf(line, '=');
        if eq > 0 {
          EntryIsClean(line, eq);
          SetValueKeeps(l.store, l.current.value, Trim(line[..eq]), line[eq + 1..], fold);
        }
      }
    }
  }

  lemma {:induction false} LoadLinesKeep(l: Loading, lines: seq<string>, fold: Fold)
    requires IsStore(l.store, fold) && Clean(l.store) && AllOneLine(lines)
    ensures IsStore(LoadLines(l, lines, fold).store, fold) && Clean(LoadLines(l, lines, fold).store)
    decreases |lines|
  {
    if lines != [] {
      LoadLinesKeep(l, lines[..|lines| - 1], fold);
      LoadLineKeeps(LoadLines(l, lines[..|lines| - 1], fold), lines[|lines| - 1], fold);
    }
  }

  /** Every text loads as a store that is clean. */
  lemma LoadIsClean(text: string, fold: Fold)
    ensures IsStore(Load(text, fold), fold) && Clean(Load(text, fold))
  {
    if text != [] {
      SplitGivesLines([], text);
    }
    LoadLinesKeep(Loading([], None), SplitLines(text), fold);
  }

  // --- No section without a name comes back ---

  lemma {:induction false} EntryLinesKeepNames(l: Loading, entries: seq<Entry>, fold: Fold)
    requires IsStore(l.store, fold) && Clean(l.store) && NoBlankName(l.store)
    requires forall i | 0 <= i < |entries| :: CleanEntry(entries[i])
    ensures var r := LoadLines(l, EntryLines(entries), fold);
            IsStore(r.store, fold) && Clean(r.store) && NoBlankName(r.store)
    decreases |entries|
  {
    if entries != [] {
      hide SetValue, IsStore, Clean, NoBlankName;
      var rest, last := entries[..|entries| - 1], entries[|entries| - 1];
      EntryLinesKeepNames(l, rest, fold);
      LoadConcat(l, EntryLines(rest), [last.key + "=" + last.val], fold);
      var m := LoadLines(l, EntryLines(rest), fold);
      LoadOne(m, last.key + "=" + last.val, fold);
      if m.current.Some? {
        LoadEntry(m, last, fold);
        SetValueKeeps(m.store, m.current.value, last.key, last.val, fold);
      } else {
        NoSectionYet(m, last.key + "=" + last.val, last, fold);
      }
    }
  }

  lemma NoSectionYet(l: Loading, raw: string, e: Entry, fold: Fold)
    requires l.current.None? && CleanEntry(e) && raw == e.key + "=" + e.val
    ensures LoadLine(l, raw, fold) == l
  {
    TrimOfTidy(raw);
  }

  lemma HeaderKeepsNames(l: Loading, name: string, fold: Fold)
    requires IsStore(l.store, fold) && Clean(l.store) && NoBlankName(l.store) && CleanName(name)
    ensures var r := LoadLine(l, "[" + name + "]", fold);
            IsStore(r.store, fold) && Clean(r.store) && NoBlankName(r.store)
  {
    if name == [] {
      TrimOfTidy("[" + name + "]");
      assert IndexOf("[" + name + "]", ']') == 1;
    } else {
      LoadHeader(l, name, fold);
      PutSectionKeeps(l.store, name, fold);
    }
  }

  lemma {:induction false} SaveLinesGiveNames(store: seq<Section>, fold: Fold)
    requires Clean(store)
    ensures var r := LoadLines(Loading([], None), SaveLines(store), fold);
            IsStore(r.store, fold) && Clean(r.store) && NoBlankName(r.store)
    decreases |store|
  {
    if store != [] {
      var rest, last := store[..|store| - 1], store[|store| - 1];
      var header, entries := "[" + last.name + "]", EntryLines(last.entries);
      SaveLinesGiveNames(rest, fold);
      var l0 := LoadLines(Loading([], None), SaveLines(rest), fold);
      LoadConcat(Loading([], None), SaveLines(rest), SectionLines(last), fold);
      LoadConcat(l0, [header] + entries, [[]], fold);
      LoadConcat(l0, [header], entries, fold);
      LoadOne(l0, header, fold);
      HeaderKeepsNames(l0, last.name, fold);
      var l1 := LoadLine(l0, header, fold);
      EntryLinesKeepNames(l1, last.entries, fold);
      LoadOne(LoadLines(l1, entries, fold), [], fold);
      LoadBlank(LoadLines(l1, entries, fold), fold);
    }
  }

  // --- The round trips ---

  /** A store comes back from its file exactly when its names and values can be written: every key and
      name trimmed, in one line and free of its closing character, no name empty, no value in several
      lines or with white space at its end. */
  lemma StoreRoundTrip(store: seq<Section>, fold: Fold)
    requires IsStore(store, fold)
    ensures Load(Save(store), fold) == store <==> Clean(store) && NoBlankName(store)
  {
    if Clean(store) && NoBlankName(store) {
      LoadSave(store, fold);
    } else if Load(Save(store), fold) == store {
      LoadIsClean(Save(store), fold);
      SaveLinesOneLine(store);
      SplitOfRender(SaveLines(store));
      SaveLinesGiveNames(store, fold);
    }
  }

  /** Whatever the file's text was, a store that was loaded comes back from saving and loading,
      exactly unless the text had a section with a blank name. */
  lemma TextRoundTrip(text: string, fold: Fold)
    ensures Load(Save(Load(text, fold)), fold) == Load(text, fold) <==> NoBlankName(Load(text, fold))
  {
    LoadIsClean(text, fold);
    StoreRoundTrip(Load(text, fold), fold);
  }

  /** A header like "[ ]". */
  predicate BlankHeader(raw: string)
  {
    var line := Trim(raw);
    line != [] && line[0] == '[' && IndexOf(line, ']') > 1 && Trim(line[1..IndexOf(line, ']')]) == []
  }

  lemma PutSectionNames(store: seq<Section>, name: string, fold: Fold)
    requires forall x :: fold(x) == fold([]) ==> x == []
    ensures NoBlankName(PutSection(store, name, fold)) <==> NoBlankName(store) && name != []
  {
    var k := FindSection(store, name, fold);
    if k == |store| {
      assert PutSection(store, name, fold)[k].name == name;
      assert NoBlankName(PutSection(store, name, fold)) ==> NoBlankName(store) by {
        assert forall i | 0 <= i < |store| :: store[i] == PutSection(store, name, fold)[i];
      }
    }
  }

  lemma SetValueNames(store: seq<Section>, name: string, key: string, val: string, fold: Fold)
    ensures NoBlankName(SetValue(store, name, key, val, fold)) <==> NoBlankName(store)
  {
    var r := SetValue(store, name, key, val, fold);
    assert |r| == |store| && forall i | 0 <= i < |store| :: r[i].name == store[i].name;
  }

  lemma {:induction false} BlankNamesCome(l: Loading, lines: seq<string>, fold: Fold)
    requires forall x :: fold(x) == fold([]) ==> x == []
    ensures NoBlankName(LoadLines(l, lines, fold).store)
       <==> NoBlankName(l.store) && forall i | 0 <= i < |lines| :: !BlankHeader(lines[i])
    decreases |lines|
  {
    hide BlankHeader, LoadLine, NoBlankName;
    if lines != [] {
      var rest, raw := lines[..|lines| - 1], lines[|lines| - 1];
      BlankNamesCome(l, rest, fold);
      BlankNameComes(LoadLines(l, rest, fold), raw, fold);
      OneLineMore(lines);
    }
  }

  lemma OneLineMore(lines: seq<string>)
    requires lines != []
    ensures var rest, raw := lines[..|lines| - 1], lines[|lines| - 1];
            (forall i | 0 <= i < |lines| :: !BlankHeader(lines[i]))
            <==> (forall i | 0 <= i < |rest| :: !BlankHeader(rest[i])) && !BlankHeader(raw)
  {
    hide BlankHeader;
    var rest := lines[..|lines| - 1];
    assert forall i | 0 <= i < |rest| :: rest[i] == lines[i];
  }

  lemma BlankNameComes(l: Loading, raw: string, fold: Fold)
    requires forall x :: fold(x) == fold([]) ==> x == []
    ensures NoBlankName(LoadLine(l, raw, fold).store) <==> NoBlankName(l.store) && !BlankHeader(raw)
  {
    hide SetValue, PutSection, NoBlankName, Trim;
    var line := Trim(raw);
    if line != [] {
      if line[0] == '[' {
        if IndexOf(line, ']') > 1 {
          PutSectionNames(l.store, Trim(line[1..IndexOf(line, ']')]), fold);
        }
      } else if l.current.Some? && IndexOf(line, '=') > 0 {
        SetValueNames(l.store, l.current.value, Trim(line[..IndexOf(line, '=')]), line[IndexOf(line, '=') + 1..], fold);
      }
    }
  }

  /** In terms of the text: it is stable under loading and saving exactly if no line is a blank
      header.  All that is asked of the comparison is that nothing but the empty name is equal to it. */
  lemma TextStableExactly(text: string, fold: Fold)
    requires forall x :: fold(x) == fold([]) ==> x == []
    ensures Load(Save(Load(text, fold)), fold) == Load(text, fold)
       <==> forall i | 0 <= i < |SplitLines(text)| :: !BlankHeader(SplitLines(text)[i])
  {
    TextRoundTrip(text, fold);
    BlankNamesCome(Loading([], None), SplitLines(text), fold);
  }

  // --- Reading and writing ---

  function Lookup(store: seq<Section>, name: string, key: string, fold: Fold): Option<string>
  {
    var k := FindSection(store, name, fold);
    if k == |store| then None
    else
      var j := FindKey(store[k].entries, key, fold);
      if j == |store[k].entries| then None else Some(store[k].entries[j].val)
  }

  /** WriteString. */
  function Write(store: seq<Section>, name: string, key: string, val: string, fold: Fold): seq<Section>
  {
    SetValue(PutSection(store, name, fold), name, key, val, fold)
  }

  function Erase(store: seq<Section>, name: string, fold: Fold): seq<Section>
  {
    var k := FindSection(store, name, fold);
    if k < |store| then store[..k] + store[k + 1..] else store
  }

  lemma FindSectionAt(store: seq<Section>, name: string, k: nat, fold: Fold)
    requires k <= |store| && (k < |store| ==> fold(store[k].name) == fold(name))
    requires forall i | 0 <= i < k :: fold(store[i].name) != fold(name)
    ensures FindSection(store, name, fold) == k
  {
  }

  lemma FindKeyAt(entries: seq<Entry>, key: string, k: nat, fold: Fold)
    requires k <= |entries| && (k < |entries| ==> fold(entries[k].key) == fold(key))
    requires forall i | 0 <= i < k :: fold(entries[i].key) != fold(key)
    ensures FindKey(entries, key, fold) == k
  {
  }

  lemma PutEntryFinds(entries: seq<Entry>, key: string, val: string, key': string, fold: Fold)
    ensures var r := PutEntry(entries, key, val, fold);
            var j, j' := FindKey(entries, key', fold), FindKey(r, key', fold);
            if fold(key') == fold(key) then j' < |r| && r[j'].val == val
            else if j == |entries| then j' == |r|
            else j' == j && r[j'] == entries[j]
  {
    var r := PutEntry(entries, key, val, fold);
    var k, j := FindKey(entries, key, fold), FindKey(entries, key', fold);
    if fold(key') == fold(key) {
      FindKeyAt(r, key', k, fold);
    } else if j == |entries| {
      FindKeyAt(r, key', |r|, fold);
    } else {
      FindKeyAt(r, key', j, fold);
    }
  }

  // --- Erasing ---

  /** Every lookup after an erasure of `name`: nothing under that name, and all the rest as before. */
  ghost predicate ErasedExactly(before: seq<Section>, after: seq<Section>, name: string, fold: Fold)
  {
    forall name', key' ::
      Lookup(after, name', key', fold) == if fold(name') == fold(name) then None else Lookup(before, name', key', fold)
  }

  lemma EraseGone(store: seq<Section>, name: string, name': string, key': string, fold: Fold)
    requires IsStore(store, fold) && fold(name') == fold(name)
    ensures Lookup(Erase(store, name, fold), name', key', fold) == None
  {
    var r := Erase(store, name, fold);
    FindSectionAt(r, name', |r|, fold);
  }

  lemma EraseKeepsOthers(store: seq<Section>, name: string, name': string, key': string, fold: Fold)
    requires fold(name') != fold(name)
    ensures Lookup(Erase(store, name, fold), name', key', fold) == Lookup(store, name', key', fold)
  {
    var k, j, r := FindSection(store, name, fold), FindSection(store, name', fold), Erase(store, name, fold);
    if k < |store| {
      var at := if j == |store| then |r| else if k < j then j - 1 else j;
      assert forall i | 0 <= i < at :: fold(r[i].name) != fold(name') by {
        assert forall i | 0 <= i < |r| :: r[i] == store[if i < k then i else i + 1];
      }
      assert at < |r| ==> r[at] == store[j];
      FindSectionAt(r, name', at, fold);
    }
  }

  lemma EraseIsStore(store: seq<Section>, name: string, fold: Fold)
    requires IsStore(store, fold)
    ensures IsStore(Erase(store, name, fold), fold)
  {
    var k, r := FindSection(store, name, fold), Erase(store, name, fold);
    if k < |store| {
      assert forall i | 0 <= i < |r| :: r[i] == store[if i < k then i else i + 1];
    }
  }

  /** What an erasure does, told by the lookups alone. */
  lemma EraseRemoves(store: seq<Section>, name: string, fold: Fold)
    requires IsStore(store, fold)
    ensures IsStore(Erase(store, name, fold), fold) && ErasedExactly(store, Erase(store, name, fold), name, fold)
  {
    hide Erase, Lookup, IsStore;
    EraseIsStore(store, name, fold);
    forall name', key'
      ensures Lookup(Erase(store, name, fold), name', key', fold)
           == if fold(name') == fold(name) then None else Lookup(store, name', key', fold)
    {
      if fold(name') == fold(name) {
        EraseGone(store, name, name', key', fold);
      } else {
        EraseKeepsOthers(store, name, name', key', fold);
      }
    }
  }

  /** What was written is read, and nothing else changes; both up to the comparison of names. */
  lemma ReadAfterWrite(store: seq<Section>, name: string, key: string, val: string, name': string, key': string, fold: Fold)
    ensures Lookup(Write(store, name, key, val, fold), name', key', fold)
         == if fold(name') == fold(name) && fold(key') == fold(key) then Some(val) else Lookup(store, name', key', fold)
  {
    var put := PutSection(store, name, fold);
    var k := FindSection(store, name, fold);
    FindSectionAt(put, name, k, fold);
    var r := Write(store, name, key, val, fold);
    PutEntryFinds(put[k].entries, key, val, key', fold);
    if fold(name') == fold(name) {
      FindSectionAt(r, name', k, fold);
      FindSectionAt(store, name', k, fold);
    } else {
      var j := FindSection(store, name', fold);
      FindSectionAt(r, name', if j == |store| then |r| else j, fold);
    }
  }
}
