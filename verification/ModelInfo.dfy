/** ModelInfoService: typed fields and the pattern list, written to the INI store and parsed back. */
module ModelInfo {
  import opened Decimal
  import opened Text
  import opened IniFile
  import opened IniStore

  const INT_MIN := -0x8000_0000
  const INT_MAX := 0x7FFF_FFFF
  const UINT := 0x1_0000_0000

  // --- Numbers as text ---

  predicate IsInt32(n: int) { INT_MIN <= n <= INT_MAX }

  /** int.ToString. */
  function PrintInt(n: int): string { if n < 0 then "-" + Print(-n) else Print(n) }

  /** int.TryParse with NumberStyles.Integer, on a trimmed text. */
  function ParseInt(s: string): Option<int>
  {
    var signed := s != [] && (s[0] == '-' || s[0] == '+');
    var digits := if signed then s[1..] else s;
    if digits == [] || !AllDigits(digits) then None
    else
      var v: int := if signed && s[0] == '-' then 0 - Value(digits) else Value(digits);
      if IsInt32(v) then Some(v) else None
  }

  /** Of the texts of all numbers, exactly those of 32-bit numbers are read back. */
  lemma ParseOfPrint(n: int)
    ensures ParseInt(PrintInt(n)) == (if -0x8000_0000 <= n <= 0x7FFF_FFFF then Some(n) else None)
    ensures Tidy(PrintInt(n)) && OneLine(PrintInt(n)) && (n >= 0 ==> AllDigits(PrintInt(n)))
  {
    hide Value;
    var m := if n < 0 then -n else n;
    ValueOfPrint(m);
    assert IsDigit(Print(m)[0]);
    if n < 0 {
      assert PrintInt(n)[1..] == Print(m);
    }
  }

  /** A plus sign changes nothing. */
  lemma ParsePlus(n: nat)
    ensures ParseInt("+" + Print(n)) == ParseInt(PrintInt(n))
  {
    hide Value;
    assert IsDigit(Print(n)[0]) && ("+" + Print(n))[1..] == Print(n);
  }

  /** ReadInteger. */
  function ReadInteger(text: Option<string>, defaultValue: int): int
  {
    if text.None? then defaultValue
    else
      var n := ParseInt(Trim(text.value));
      if n.Some? then n.value else defaultValue
  }

  // --- Typed fields ---

  /** The types of the model's properties. */
  datatype Kind = Int32 | UInt32 | UInt16 | Byte | Flag | Str

  datatype Datum = Num(n: int) | Bool(b: bool) | Name(s: string)

  /** How a writer stores a property: WriteInteger of it or of its cast to int, WriteBool, WriteString. */
  datatype Form = Plain | AsInt | AsBool | AsString

  /** What a parser makes of the text: ReadInteger, as it is or cast, ReadBool, ReadString. */
  datatype Cast = Uncast | ToUInt | ToUShort | ToByte | ToBool | ToString

  predicate InRange(k: Kind, v: Datum)
  {
    match k
    case Int32 => v.Num? && IsInt32(v.n)
    case UInt32 => v.Num? && 0 <= v.n < UINT
    case UInt16 => v.Num? && 0 <= v.n < 0x1_0000
    case Byte => v.Num? && 0 <= v.n < 0x100
    case Flag => v.Bool?
    case Str => v.Name?
  }

  /** The unchecked cast (int) of an uint. */
  function ToSigned(u: int): int
    requires 0 <= u < UINT
  {
    if u <= INT_MAX then u else u - UINT
  }

  /** The unchecked casts (uint), (ushort) and (byte) of an int. */
  function Truncate(n: int, modulus: nat): int
    requires modulus > 0
  {
    n % modulus
  }

  predicate Storable(f: Form, v: Datum)
  {
    match f
    case Plain => v.Num?
    case AsInt => v.Num? && 0 <= v.n < UINT
    case AsBool => v.Bool?
    case AsString => v.Name?
  }

  /** What the writers store. */
  function Encode(f: Form, v: Datum): string
    requires Storable(f, v)
  {
    match f
    case Plain => PrintInt(v.n)
    case AsInt => PrintInt(ToSigned(v.n))
    case AsBool => if v.b then "1" else "0"
    case AsString => v.s
  }

  /** ReadBool with the default false: `fold` is the comparison that ignores case. */
  function ReadBool(text: Option<string>, fold: Fold): bool
  {
    text.Some? && var s := Trim(text.value); s == "1" || fold(s) == fold("true") || fold(s) == fold("yes")
  }

  /** What the parsers make of it, with the defaults 0, false and "". */
  function Decode(c: Cast, text: Option<string>, fold: Fold): Datum
  {
    match c
    case Uncast => Num(ReadInteger(text, 0))
    case ToUInt => Num(Truncate(ReadInteger(text, 0), UINT))
    case ToUShort => Num(Truncate(ReadInteger(text, 0), 0x1_0000))
    case ToByte => Num(Truncate(ReadInteger(text, 0), 0x100))
    case ToBool => Bool(ReadBool(text, fold))
    case ToString => Name(if text.Some? then text.value else "")
  }

  /** The form and the cast that belong to a type. */
  predicate Fits(k: Kind, f: Form, c: Cast) { f == FormOf(k) && c == CastOf(k) }

  function FormOf(k: Kind): Form
  {
    match k
    case UInt32 => AsInt
    case Flag => AsBool
    case Str => AsString
    case _ => Plain
  }

  function CastOf(k: Kind): Cast
  {
    match k
    case Int32 => Uncast
    case UInt32 => ToUInt
    case UInt16 => ToUShort
    case Byte => ToByte
    case Flag => ToBool
    case Str => ToString
  }

  lemma ReadIntegerOfPrint(n: int)
    requires IsInt32(n)
    ensures ReadInteger(Some(PrintInt(n)), 0) == n
  {
    hide ParseInt, PrintInt;
    ParseOfPrint(n);
    TrimOfTidy(PrintInt(n));
  }

  /** Each value survives its text form; an uint goes through a signed number and back. */
  lemma DecodeOfEncode(k: Kind, f: Form, c: Cast, v: Datum, fold: Fold)
    requires InRange(k, v) && Fits(k, f, c) && fold("0") != fold("true") && fold("0") != fold("yes")
    ensures Storable(f, v) && Decode(c, Some(Encode(f, v)), fold) == v
  {
    hide ReadInteger, PrintInt;
    match k
    case UInt32 =>
      ReadIntegerOfPrint(ToSigned(v.n));
      SignedAndBack(v.n);
    case Flag => TrimOfTidy(Encode(f, v));
    case Str =>
    case _ => ReadIntegerOfPrint(v.n);
  }

  /** The casts of the parsers wrap around, whatever number the file holds. */
  lemma CastsWrap(n: int, fold: Fold)
    requires -0x8000_0000 <= n <= 0x7FFF_FFFF
    ensures Decode(ToUInt, Some(PrintInt(n)), fold) == Num(if n < 0 then n + 0x1_0000_0000 else n)
    ensures Decode(ToUShort, Some(PrintInt(n)), fold) == Num(n % 65536) && Decode(ToByte, Some(PrintInt(n)), fold) == Num(n % 256)
  {
    hide ReadInteger, PrintInt;
    ReadIntegerOfPrint(n);
  }

  lemma SignedAndBack(u: int)
    requires 0 <= u < UINT
    ensures Truncate(ToSigned(u), UINT) == u
  {
  }

  // --- The pattern list ---

  datatype Pattern = Pattern(name: string, patType: int, patIdx: int)

  const PATTERNS := "PatternData"
  const MAX_PATTERNS := 100

  function CountKey(): string { "pattern_count" }
  function NameKey(i: nat): string { "PatName" + Print(i) }
  function TypeKey(i: nat): string { "PatType" + Print(i) }
  function IdxKey(i: nat): string { "PatIdx" + Print(i) }

  function WriteItem(store: seq<Section>, i: nat, p: Pattern, fold: Fold): seq<Section>
  {
    Write(Write(Write(store, PATTERNS, NameKey(i), p.name, fold),
                PATTERNS, TypeKey(i), PrintInt(p.patType), fold),
          PATTERNS, IdxKey(i), PrintInt(p.patIdx), fold)
  }

  function WriteItems(store: seq<Section>, items: seq<Pattern>, fold: Fold): seq<Section>
  {
    if items == [] then store
    else WriteItem(WriteItems(store, items[..|items| - 1], fold), |items| - 1, items[|items| - 1], fold)
  }

  /** WritePatternData: entries behind the last item are left as they are. */
  function WritePatterns(store: seq<Section>, items: seq<Pattern>, fold: Fold): seq<Section>
  {
    WriteItems(Write(store, PATTERNS, CountKey(), PrintInt(|items|), fold), items, fold)
  }

  function NameAt(store: seq<Section>, i: nat, fold: Fold): string
  {
    var v := Lookup(store, PATTERNS, NameKey(i), fold);
    if v.Some? then v.value else ""
  }

  function ItemAt(store: seq<Section>, i: nat, fold: Fold): Pattern
  {
    Pattern(NameAt(store, i, fold), ReadInteger(Lookup(store, PATTERNS, TypeKey(i), fold), 0),
            ReadInteger(Lookup(store, PATTERNS, IdxKey(i), fold), 0))
  }

  /** ParsePatternData from item `i` on. */
  function ParseFrom(store: seq<Section>, count: int, i: nat, fold: Fold): seq<Pattern>
    decreases MAX_PATTERNS - i, store
  {
    if i >= MAX_PATTERNS || (NameAt(store, i, fold) == "" && i >= count) then []
    else [ItemAt(store, i, fold)] + ParseFrom(store, count, i + 1, fold)
  }

  function ParsePatterns(store: seq<Section>, fold: Fold): seq<Pattern>
  {
    ParseFrom(store, ReadInteger(Lookup(store, PATTERNS, CountKey(), fold), 0), 0, fold)
  }

  // The methods.

  method WritePatternData(ini: IniFileHelper, items: seq<Pattern>)
    modifies ini`sections, ini`modified
    ensures ini.sections == WritePatterns(old(ini.sections), items, ini.fold)
  {
    ini.WriteString(PATTERNS, CountKey(), PrintInt(|items|));
    ghost var start := ini.sections;
    for i := 0 to |items|
      invariant ini.sections == WriteItems(start, items[..i], ini.fold)
    {
      assert items[..i + 1][..i] == items[..i];
      ini.WriteString(PATTERNS, NameKey(i), items[i].name);
      ini.WriteString(PATTERNS, TypeKey(i), PrintInt(items[i].patType));
      ini.WriteString(PATTERNS, IdxKey(i), PrintInt(items[i].patIdx));
    }
    assert items[..|items|] == items;
  }

  method ParsePatternData(ini: IniFileHelper) returns (items: seq<Pattern>)
    ensures items == ParsePatterns(ini.sections, ini.fold)
  {
    hide ReadInteger, Lookup, NameKey, TypeKey, IdxKey, CountKey;
    items := [];
    var count := ReadInteger(Lookup(ini.sections, PATTERNS, CountKey(), ini.fold), 0);
    var i := 0;
    while i < MAX_PATTERNS
      invariant i <= MAX_PATTERNS
      invariant ParsePatterns(ini.sections, ini.fold) == items + ParseFrom(ini.sections, count, i, ini.fold)
    {
      var name := ini.ReadString(PATTERNS, NameKey(i), "");
      if name == "" && i >= count {
        break;
      }
      items := items + [Pattern(name, ReadInteger(Lookup(ini.sections, PATTERNS, TypeKey(i), ini.fold), 0),
                                ReadInteger(Lookup(ini.sections, PATTERNS, IdxKey(i), ini.fold), 0))];
      i := i + 1;
    }
  }

  // --- When the pattern list is restored ---

  /** A letter without its case; all characters that are not ASCII are taken as one. */
  function Up(c: char): char
  {
    if 'a' <= c <= 'z' then c - 'a' + 'A' else if c < '\U{80}' then c else '\U{80}'
  }

  /** Just the 26 small letters have another letter as their large one. */
  lemma UpIs(c: char)
    ensures c < '\U{80}' ==> Up(c) as int == if 'a' as int <= c as int <= 'a' as int + 25 then c as int - 32 else c as int
    ensures c >= '\U{80}' ==> Up(c) == Up('\U{80}') && Up(c) >= '\U{80}'
  {
  }

  predicate SameLetters(a: string, b: string)
  {
    |a| == |b| && forall i | 0 <= i < |a| :: Up(a[i]) == Up(b[i])
  }

  /** What is asked of the comparison: texts that are equal to it have the same length, and in the same
      places the same ASCII characters but for the case of letters. */
  ghost predicate IgnoresCase(fold: Fold)
  {
    forall a, b | fold(a) == fold(b) :: SameLetters(a, b)
  }

  /** Keys of one kind differ by their number. */
  lemma NumbersApart(prefix: string, i: nat, j: nat, fold: Fold)
    requires IgnoresCase(fold) && fold(prefix + Print(i)) == fold(prefix + Print(j))
    ensures i == j
  {
    var a, b := prefix + Print(i), prefix + Print(j);
    assert SameLetters(a, b);
    forall k | 0 <= k < |Print(i)| ensures Print(i)[k] == Print(j)[k] {
      assert a[|prefix| + k] == Print(i)[k] && b[|prefix| + k] == Print(j)[k];
      assert Up(a[|prefix| + k]) == Up(b[|prefix| + k]) && IsDigit(Print(i)[k]) && IsDigit(Print(j)[k]);
    }
    assert Print(i) == Print(j);
    ValueOfPrint(i);
    ValueOfPrint(j);
  }

  lemma SameAt(a: string, b: string, k: nat, fold: Fold)
    requires IgnoresCase(fold) && fold(a) == fold(b) && k < |a| && k < |b|
    ensures Up(a[k]) == Up(b[k])
  {
    assert SameLetters(a, b);
  }

  /** Keys of different kinds differ at one of their first letters. */
  lemma KindsApart(p: string, i: nat, q: string, j: nat, k: nat, fold: Fold)
    requires IgnoresCase(fold) && k < |p| && k < |q| && Up(p[k]) != Up(q[k])
    ensures fold(p + Print(i)) != fold(q + Print(j))
  {
    if fold(p + Print(i)) == fold(q + Print(j)) {
      SameAt(p + Print(i), q + Print(j), k, fold);
    }
  }

  lemma CountApart(p: string, i: nat, k: nat, fold: Fold)
    requires IgnoresCase(fold) && k < |p| && k < 5 && Up(p[k]) != Up(CountKey()[k])
    ensures fold(p + Print(i)) != fold(CountKey())
  {
    if fold(p + Print(i)) == fold(CountKey()) {
      SameAt(p + Print(i), CountKey(), k, fold);
    }
  }

  /** The keys of item `i` and of item `j`, and the count's. */
  lemma KeysApart(i: nat, j: nat, fold: Fold)
    requires IgnoresCase(fold)
    ensures i != j ==> fold(NameKey(i)) != fold(NameKey(j)) && fold(TypeKey(i)) != fold(TypeKey(j)) && fold(IdxKey(i)) != fold(IdxKey(j))
    ensures fold(NameKey(i)) != fold(TypeKey(j)) && fold(NameKey(i)) != fold(IdxKey(j)) && fold(TypeKey(i)) != fold(IdxKey(j))
    ensures fold(NameKey(i)) != fold(CountKey()) && fold(TypeKey(i)) != fold(CountKey()) && fold(IdxKey(i)) != fold(CountKey())
  {
    if fold(NameKey(i)) == fold(NameKey(j)) { NumbersApart("PatName", i, j, fold); }
    if fold(TypeKey(i)) == fold(TypeKey(j)) { NumbersApart("PatType", i, j, fold); }
    if fold(IdxKey(i)) == fold(IdxKey(j)) { NumbersApart("PatIdx", i, j, fold); }
    KindsApart("PatName", i, "PatType", j, 3, fold);
    KindsApart("PatName", i, "PatIdx", j, 3, fold);
    KindsApart("PatType", i, "PatIdx", j, 3, fold);
    CountApart("PatName", i, 3, fold);
    CountApart("PatType", i, 4, fold);
    CountApart("PatIdx", i, 3, fold);
  }

  ghost predicate ItemsInRange(items: seq<Pattern>)
  {
    |items| <= INT_MAX && forall i | 0 <= i < |items| :: IsInt32(items[i].patType) && IsInt32(items[i].patIdx)
  }

  function At(store: seq<Section>, key: string, fold: Fold): Option<string>
  {
    Lookup(store, PATTERNS, key, fold)
  }

  /** What writing item `i` changes. */
  lemma ItemWritten(store: seq<Section>, i: nat, p: Pattern, key: string, fold: Fold)
    requires IgnoresCase(fold)
    ensures var v := At(WriteItem(store, i, p, fold), key, fold);
            v == if fold(key) == fold(IdxKey(i)) then Some(PrintInt(p.patIdx))
                 else if fold(key) == fold(TypeKey(i)) then Some(PrintInt(p.patType))
                 else if fold(key) == fold(NameKey(i)) then Some(p.name)
                 else At(store, key, fold)
  {
    hide Lookup, Write, PrintInt;
    var s1 := Write(store, PATTERNS, NameKey(i), p.name, fold);
    var s2 := Write(s1, PATTERNS, TypeKey(i), PrintInt(p.patType), fold);
    ReadAfterWrite(store, PATTERNS, NameKey(i), p.name, PATTERNS, key, fold);
    ReadAfterWrite(s1, PATTERNS, TypeKey(i), PrintInt(p.patType), PATTERNS, key, fold);
    ReadAfterWrite(s2, PATTERNS, IdxKey(i), PrintInt(p.patIdx), PATTERNS, key, fold);
  }

  lemma {:induction false} ItemsWritten(store: seq<Section>, items: seq<Pattern>, i: nat, fold: Fold)
    requires IgnoresCase(fold)
    ensures var r := WriteItems(store, items, fold);
            && At(r, CountKey(), fold) == At(store, CountKey(), fold)
            && At(r, NameKey(i), fold) == (if i < |items| then Some(items[i].name) else At(store, NameKey(i), fold))
            && (i < |items| ==> At(r, TypeKey(i), fold) == Some(PrintInt(items[i].patType))
                                && At(r, IdxKey(i), fold) == Some(PrintInt(items[i].patIdx)))
    decreases |items|
  {
    hide WriteItem, At, PrintInt, NameKey, TypeKey, IdxKey, CountKey;
    if items != [] {
      var n := |items| - 1;
      var before := WriteItems(store, items[..n], fold);
      ItemsWritten(store, items[..n], i, fold);
      KeysApart(i, n, fold);
      KeysApart(n, i, fold);
      ItemWritten(before, n, items[n], CountKey(), fold);
      ItemWritten(before, n, items[n], NameKey(i), fold);
      ItemWritten(before, n, items[n], TypeKey(i), fold);
      ItemWritten(before, n, items[n], IdxKey(i), fold);
    }
  }

  lemma PatternsWritten(store: seq<Section>, items: seq<Pattern>, i: nat, fold: Fold)
    requires IgnoresCase(fold) && ItemsInRange(items)
    ensures var r := WritePatterns(store, items, fold);
            && ReadInteger(At(r, CountKey(), fold), 0) == |items|
            && (i < |items| ==> ItemAt(r, i, fold) == items[i])
            && (i >= |items| ==> NameAt(r, i, fold) == NameAt(store, i, fold))
  {
    hide ReadInteger, PrintInt, NameKey, TypeKey, IdxKey, CountKey, Write, Lookup, WriteItems;
    var counted := Write(store, PATTERNS, CountKey(), PrintInt(|items|), fold);
    ItemsWritten(counted, items, i, fold);
    KeysApart(i, i, fold);
    ReadAfterWrite(store, PATTERNS, CountKey(), PrintInt(|items|), PATTERNS, CountKey(), fold);
    ReadAfterWrite(store, PATTERNS, CountKey(), PrintInt(|items|), PATTERNS, NameKey(i), fold);
    ReadIntegerOfPrint(|items|);
    if i < |items| {
      ReadIntegerOfPrint(items[i].patType);
      ReadIntegerOfPrint(items[i].patIdx);
    }
  }

  /** Where the list stands in the file. */
  lemma PatternsInFile(store: seq<Section>, items: seq<Pattern>, i: nat, fold: Fold)
    requires IgnoresCase(fold) && ItemsInRange(items) && i < |items|
    ensures var r := WritePatterns(store, items, fold);
            && ReadInteger(Lookup(r, "PatternData", "pattern_count", fold), 0) == |items|
            && (items[i].name != "" ==> Lookup(r, "PatternData", "PatName" + Print(i), fold) == Some(items[i].name))
            && ReadInteger(Lookup(r, "PatternData", "PatType" + Print(i), fold), 0) == items[i].patType
            && ReadInteger(Lookup(r, "PatternData", "PatIdx" + Print(i), fold), 0) == items[i].patIdx
  {
    hide ReadInteger, WritePatterns, Lookup;
    PatternsWritten(store, items, i, fold);
  }

  lemma {:induction false} ParsesTheItems(store: seq<Section>, items: seq<Pattern>, i: nat, fold: Fold)
    requires i <= |items| <= MAX_PATTERNS && forall k | 0 <= k < |items| :: ItemAt(store, k, fold) == items[k]
    ensures ParseFrom(store, |items|, i, fold) == items[i..] + ParseFrom(store, |items|, |items|, fold)
    decreases |items| - i
  {
    hide ItemAt, NameAt;
    if i == |items| {
      assert items[i..] == [];
    } else {
      ParsesTheItems(store, items, i + 1, fold);
      assert items[i..] == [items[i]] + items[i + 1..];
    }
  }

  lemma {:induction false} ParsesAtMost(store: seq<Section>, count: int, i: nat, fold: Fold)
    requires i <= MAX_PATTERNS
    ensures |ParseFrom(store, count, i, fold)| <= MAX_PATTERNS - i
    decreases MAX_PATTERNS - i
  {
    hide ItemAt, NameAt;
    if i < MAX_PATTERNS {
      ParsesAtMost(store, count, i + 1, fold);
    }
  }

  /** The pattern list is restored exactly when it has 100 items, or fewer and the store holds no
      older name behind them. */
  lemma PatternsRestored(store: seq<Section>, items: seq<Pattern>, fold: Fold)
    requires IgnoresCase(fold) && ItemsInRange(items)
    ensures ParsePatterns(WritePatterns(store, items, fold), fold) == items
       <==> |items| == 100 || (|items| < 100 && NameAt(store, |items|, fold) == "")
  {
    hide ReadInteger, WritePatterns, ItemAt, NameAt, Lookup, CountKey;
    var r := WritePatterns(store, items, fold);
    PatternsWritten(store, items, |items|, fold);
    if |items| > MAX_PATTERNS {
      ParsesAtMost(r, |items|, 0, fold);
    } else {
      forall i | 0 <= i < |items| ensures ItemAt(r, i, fold) == items[i] {
        PatternsWritten(store, items, i, fold);
      }
      ParsesTheItems(r, items, 0, fold);
      assert items[0..] == items;
    }
  }

  lemma KeysDiffer(a: string, b: string, fold: Fold)
    requires IgnoresCase(fold) && a != [] && b != [] && (|a| != |b| || Up(a[0]) != Up(b[0]))
    ensures fold(a) != fold(b)
  {
    if fold(a) == fold(b) {
      SameAt(a, b, 0, fold);
    }
  }
}
