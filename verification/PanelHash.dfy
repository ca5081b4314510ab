/** The DFS panel hash, the two-layer directory path made from it, and the walk through the remote
    directories around an upload and a download. */
module PanelHash {
  import opened Checksum
  import opened Decimal

  const PRIME := 7919
  const BASE := 0xFF
  const INT64_MAX := 0x7FFF_FFFF_FFFF_FFFF

  /** A panel id as UTF-16 code units. */
  type PanelId = seq<word>

  function LowByte(c: word): byte { c % 0x100 }

  function HashStep(h: nat, c: word): (r: nat)
    ensures r < PRIME
  {
    (h * BASE + LowByte(c)) % PRIME
  }

  function Hash(key: PanelId): (h: nat)
    ensures h < PRIME
  {
    if key == [] then 0 else HashStep(Hash(key[..|key| - 1]), key[|key| - 1])
  }

  /** The low bytes as the digits of a number in base 255. */
  function Polynomial(key: PanelId): nat
  {
    if key == [] then 0 else Polynomial(key[..|key| - 1]) * 255 + LowByte(key[|key| - 1])
  }

  lemma ModStep(p: nat, b: nat)
    ensures ((p % PRIME) * BASE + b) % PRIME == (p * BASE + b) % PRIME
  {
    var q, r := p / PRIME, p % PRIME;
    assert p * BASE + b == PRIME * (q * BASE) + (r * BASE + b);
    ModAdds(q * BASE, r * BASE + b);
  }

  lemma ModAdds(q: int, x: int)
    ensures (PRIME * q + x) % PRIME == x % PRIME
  {
    assert PRIME * q + x == PRIME * (q + x / PRIME) + x % PRIME;
    ModUnique(q + x / PRIME, x % PRIME);
  }

  lemma ModUnique(q: int, r: nat)
    requires r < PRIME
    ensures (PRIME * q + r) % PRIME == r
  {
  }

  /** The loop computes the polynomial modulo the prime. */
  lemma {:induction false} HashIsPolynomial(key: PanelId)
    ensures Hash(key) == Polynomial(key) % 7919
    decreases |key|
  {
    if key != [] {
      HashIsPolynomial(key[..|key| - 1]);
      ModStep(Polynomial(key[..|key| - 1]), LowByte(key[|key| - 1]));
    }
  }

  /** ComputeHashValue; the 64-bit intermediate value never overflows. */
  method ComputeHashValue(key: PanelId) returns (tmpVal: nat)
    ensures tmpVal == Hash(key)
  {
    tmpVal := 0;
    for i := 0 to |key|
      invariant tmpVal == Hash(key[..i])
    {
      assert key[..i + 1][..i] == key[..i];
      var lTemp := tmpVal * BASE;
      lTemp := lTemp + LowByte(key[i]);
      assert lTemp <= INT64_MAX;
      tmpVal := lTemp % PRIME;
    }
    assert key[..|key|] == key;
  }

  // --- No collision of ids that differ in one low byte ---

  /** 255 has the inverse 2826 modulo 7919, so a step loses nothing of the value before it. */
  lemma StepInjective(x: nat, y: nat, c: word)
    requires x < PRIME && y < PRIME && HashStep(x, c) == HashStep(y, c)
    ensures x == y
  {
    var b := LowByte(c);
    var m := (x * BASE + b) / PRIME - (y * BASE + b) / PRIME;
    assert BASE * (x - y) == PRIME * m;
    Inverse(x - y, m);
  }

  lemma Inverse(d: int, m: int)
    requires BASE * d == PRIME * m && -PRIME < d < PRIME
    ensures d == 0
  {
    assert d == PRIME * (2826 * m - 91 * d);
  }

  lemma StepTellsBytesApart(h: nat, a: word, b: word)
    requires LowByte(a) != LowByte(b)
    ensures HashStep(h, a) != HashStep(h, b)
  {
    var x, y := h * BASE + LowByte(a), h * BASE + LowByte(b);
    var m := x / PRIME - y / PRIME;
    assert x - y == PRIME * m + (x % PRIME - y % PRIME);
  }

  /** Two ids of equal length whose low bytes differ in exactly one place have different hashes. */
  lemma {:induction false} OneByteApart(a: PanelId, b: PanelId, i: nat)
    requires |a| == |b| && i < |a| && LowByte(a[i]) != LowByte(b[i])
    requires forall j | 0 <= j < |a| && j != i :: LowByte(a[j]) == LowByte(b[j])
    ensures Hash(a) != Hash(b)
    decreases |a|
  {
    var n := |a| - 1;
    if i == n {
      SameLowBytes(a[..n], b[..n]);
      StepTellsBytesApart(Hash(a[..n]), a[n], b[n]);
    } else {
      OneByteApart(a[..n], b[..n], i);
      if Hash(a) == Hash(b) {
        StepInjective(Hash(a[..n]), Hash(b[..n]), a[n]);
      }
    }
  }

  lemma {:induction false} SameLowBytes(a: PanelId, b: PanelId)
    requires |a| == |b| && forall j | 0 <= j < |a| :: LowByte(a[j]) == LowByte(b[j])
    ensures Hash(a) == Hash(b)
    decreases |a|
  {
    if a != [] {
      SameLowBytes(a[..|a| - 1], b[..|a| - 1]);
    }
  }

  // --- The path ---

  /** A conversion from double to int: towards zero. */
  function Truncated(x: real): int
  {
    if x >= 0.0 then x.Floor else -((-x).Floor)
  }

  const ROOT := 88     // the truncated square root of the prime
  const LAYER := 89

  lemma LayerSize()
    ensures ROOT * ROOT <= PRIME < (ROOT + 1) * (ROOT + 1) && Truncated(PRIME as real / ROOT as real) == LAYER
  {
    assert 89.0 <= PRIME as real / ROOT as real < 90.0;
  }

  /** The first layer. */
  function Dir0(h: nat): int { Truncated(h as real / LAYER as real - 0.49999) }

  function Dir1(h: nat): nat { h % LAYER }

  /** The layer is the quotient, or one less where the remainder is below one half. */
  lemma Dir0Is(h: nat)
    requires h < PRIME
    ensures Dir0(h) == (if h % LAYER >= 45 then h / LAYER else if h / LAYER == 0 then 0 else h / LAYER - 1)
    ensures 0 <= Dir0(h) <= 88
  {
    var q, r := h / LAYER, h % LAYER;
    assert h == LAYER * q + r && q <= 88;
    var x := h as real / LAYER as real - 0.49999;
    assert x == q as real + r as real / 89.0 - 0.49999;
    if r >= 45 {
      assert q as real <= x < q as real + 1.0;
    } else if q == 0 {
      assert -1.0 < x < 0.0;
    } else {
      assert q as real - 1.0 <= x < q as real;
    }
  }

  /** Two hashes share a path exactly when they are equal, or are the same remainder below one half
      in the first two rows. */
  lemma PathSharedExactly(g: nat, h: nat)
    requires g < PRIME && h < PRIME
    ensures Dir0(g) == Dir0(h) && Dir1(g) == Dir1(h)
       <==> g == h || (g % LAYER == h % LAYER && g % LAYER < 45 && g / LAYER <= 1 && h / LAYER <= 1)
  {
    Dir0Is(g);
    Dir0Is(h);
    assert g == LAYER * (g / LAYER) + g % LAYER && h == LAYER * (h / LAYER) + h % LAYER;
  }

  function Zeros(n: nat): string
  {
    if n == 0 then [] else ['0'] + Zeros(n - 1)
  }

  /** The format "00000000". */
  function Pad8(n: nat): string
  {
    if |Print(n)| >= 8 then Print(n) else Zeros(8 - |Print(n)|) + Print(n)
  }

  lemma {:induction false} ZerosShape(n: nat)
    ensures |Zeros(n)| == n && forall i | 0 <= i < n :: Zeros(n)[i] == '0'
  {
    if n != 0 {
      ZerosShape(n - 1);
    }
  }

  lemma {:induction false} ZerosCountNothing(z: nat, s: string)
    requires AllDigits(s)
    ensures AllDigits(Zeros(z) + s) && Value(Zeros(z) + s) == Value(s)
    decreases z, |s|
  {
    ZerosShape(z);
    var t := Zeros(z) + s;
    if s != [] {
      assert t[..|t| - 1] == Zeros(z) + s[..|s| - 1];
      ZerosCountNothing(z, s[..|s| - 1]);
    } else if z != 0 {
      assert t[..|t| - 1] == Zeros(z - 1) + [] by {
        ZerosShape(z - 1);
      }
      ZerosCountNothing(z - 1, []);
    } else {
      assert t == s;
    }
  }

  /** Eight digits, that read as the number. */
  lemma Pad8Shape(n: nat)
    requires n <= 88
    ensures |Pad8(n)| == 8 && AllDigits(Pad8(n)) && Value(Pad8(n)) == n
  {
    ZerosShape(6);
    ZerosShape(7);
    assert |Print(n)| == if n < 10 then 1 else 2;
    ZerosCountNothing(8 - |Print(n)|, Print(n));
    ValueOfPrint(n);
  }

  const BACKSLASH := '\\'

  function Path(h: nat): string
    requires h < PRIME
  {
    Dir0Is(h);
    Pad8(Dir0(h)) + [BACKSLASH] + Pad8(Dir1(h))
  }

  method GetDfsHashPath(panelId: PanelId) returns (path: string)
    ensures path == Path(Hash(panelId))
  {
    hide Pad8, Truncated, Hash;
    LayerSize();
    var layerSize := Truncated(PRIME as real / ROOT as real);
    var hashValue := ComputeHashValue(panelId);
    Dir0Is(hashValue);
    var d0 := hashValue as real / layerSize as real - 0.49999;
    var d1 := hashValue % layerSize;
    path := Pad8(Truncated(d0)) + [BACKSLASH] + Pad8(d1);
  }

  /** What Split('\\') with RemoveEmptyEntries gives. */
  function Split(s: string): seq<string>
    decreases |s|
  {
    var k := Before(s, BACKSLASH);
    (if k == 0 then [] else [s[..k]]) + (if k == |s| then [] else Split(s[k + 1..]))
  }

  function Before(s: string, c: char): (k: nat)
    ensures k <= |s| && (k < |s| ==> s[k] == c) && forall i | 0 <= i < k :: s[i] != c
  {
    if s == [] || s[0] == c then 0 else 1 + Before(s[1..], c)
  }

  lemma BeforeAt(s: string, c: char, k: nat)
    requires k <= |s| && (k < |s| ==> s[k] == c) && forall i | 0 <= i < k :: s[i] != c
    ensures Before(s, c) == k
  {
  }

  lemma SplitTwo(a: string, b: string)
    requires a != [] && b != [] && AllDigits(a) && AllDigits(b)
    ensures Split(a + [BACKSLASH] + b) == [a, b]
  {
    var s := a + [BACKSLASH] + b;
    BeforeAt(s, BACKSLASH, |a|);
    BeforeAt(b, BACKSLASH, |b|);
    assert s[..|a|] == a && s[|a| + 1..] == b && b[..|b|] == b;
  }

  /** The path of every panel id has two parts of eight digits, and the upload, which slices it, and
      the download, which splits it, see the same two. */
  lemma PathParts(h: nat)
    requires h < PRIME
    ensures var p := Path(h);
            |p| == 17 && p[..8] == Pad8(Dir0(h)) && p[9..17] == Pad8(Dir1(h)) && Split(p) == [p[..8], p[9..17]]
            && AllDigits(p[..8]) && AllDigits(p[9..17]) && Value(p[..8]) == Dir0(h) <= 88 && Value(p[9..17]) == Dir1(h) <= 88
            && p[8] == '\\'
  {
    Dir0Is(h);
    Pad8Shape(Dir0(h));
    Pad8Shape(Dir1(h));
    SplitTwo(Pad8(Dir0(h)), Pad8(Dir1(h)));
    assert Path(h)[..8] == Pad8(Dir0(h)) && Path(h)[9..17] == Pad8(Dir1(h));
  }

  // --- The walk through the remote directories ---

  /** The commands that the server carries out. */
  datatype Cmd = Cwd(dir: string) | Cdup | Stor(name: string) | Retr(name: string)

  datatype Place = Place(cwd: seq<string>, stored: seq<seq<string>>, fetched: seq<seq<string>>)

  function Exec(p: Place, c: Cmd): Place
  {
    match c
    case Cwd(d) => p.(cwd := p.cwd + [d])
    case Cdup => p.(cwd := if p.cwd == [] then [] else p.cwd[..|p.cwd| - 1])
    case Stor(n) => p.(stored := p.stored + [p.cwd + [n]])
    case Retr(n) => p.(fetched := p.fetched + [p.cwd + [n]])
  }

  function ExecAll(p: Place, cs: seq<Cmd>): Place
    decreases |cs|
  {
    if cs == [] then p else ExecAll(Exec(p, cs[0]), cs[1..])
  }

  function Into(dirs: seq<string>): seq<Cmd>
  {
    if dirs == [] then [] else [Cwd(dirs[0])] + Into(dirs[1..])
  }

  lemma {:induction false} ExecConcat(p: Place, a: seq<Cmd>, b: seq<Cmd>)
    ensures ExecAll(p, a + b) == ExecAll(ExecAll(p, a), b)
    decreases |a|
  {
    if a == [] {
      assert a + b == b;
    } else {
      assert (a + b)[1..] == a[1..] + b;
      ExecConcat(Exec(p, a[0]), a[1..], b);
    }
  }

  lemma {:induction false} IntoGoesThere(p: Place, dirs: seq<string>)
    ensures ExecAll(p, Into(dirs)) == p.(cwd := p.cwd + dirs)
    decreases |dirs|
  {
    if dirs == [] {
      assert p.cwd + dirs == p.cwd;
    } else {
      IntoGoesThere(Exec(p, Cwd(dirs[0])), dirs[1..]);
      assert (p.cwd + [dirs[0]]) + dirs[1..] == p.cwd + dirs;
    }
  }

  function IndexDirs(path: string): seq<string>
    requires |path| == 17
  {
    ["DEFECT", "HEX_INDEX", path[..8], path[9..17]]
  }

  /** UploadHexFilesAsync: the index file below its hash path, back up, and the HEX file below
      `hexDirs` (DEFECT, HEX, month, day, recipe, equipment). */
  function UploadCmds(path: string, index: string, hexDirs: seq<string>, hex: string): seq<Cmd>
    requires |path| == 17
  {
    Into(IndexDirs(path)) + [Stor(index), Cdup, Cdup, Cdup, Cdup] + (Into(hexDirs) + [Stor(hex)])
  }

  /** DownloadHexFilesAsync: it splits the path, and does not go back up before it follows the
      directories that the index file gives. */
  function DownloadCmds(path: string, index: string, hexDirs: seq<string>, hex: string): seq<Cmd>
  {
    Into(["DEFECT", "HEX_INDEX"] + Split(path)) + [Retr(index)] + (Into(hexDirs) + [Retr(hex)])
  }

  /** From any starting directory, the upload stores the index below the hash path, is back at the
      start after the four CDUPs, and stores the HEX file where the index says. */
  lemma UploadStores(p: Place, h: nat, index: string, hexDirs: seq<string>, hex: string)
    requires h < PRIME && |Path(h)| == 17
    ensures var r := ExecAll(p, UploadCmds(Path(h), index, hexDirs, hex));
            r.stored == p.stored + [p.cwd + IndexDirs(Path(h)) + [index]] + [p.cwd + hexDirs + [hex]]
            && r.fetched == p.fetched
    ensures ExecAll(p, Into(IndexDirs(Path(h))) + [Stor(index), Cdup, Cdup, Cdup, Cdup]).cwd == p.cwd
  {
    var dirs := IndexDirs(Path(h));
    var first := Into(dirs) + [Stor(index), Cdup, Cdup, Cdup, Cdup];
    ExecConcat(p, first, Into(hexDirs) + [Stor(hex)]);
    ExecConcat(p, Into(dirs), [Stor(index), Cdup, Cdup, Cdup, Cdup]);
    IntoGoesThere(p, dirs);
    var there := p.(cwd := p.cwd + dirs);
    UpAgain(there, index, p);
    var back := ExecAll(p, first);
    ExecConcat(back, Into(hexDirs), [Stor(hex)]);
    IntoGoesThere(back, hexDirs);
    ExecOne(back.(cwd := back.cwd + hexDirs), Stor(hex));
  }

  lemma ExecOne(p: Place, c: Cmd)
    ensures ExecAll(p, [c]) == Exec(p, c)
  {
    assert [c][1..] == [];
  }

  lemma UpAgain(there: Place, index: string, p: Place)
    requires |there.cwd| == |p.cwd| + 4 && there.cwd[..|p.cwd|] == p.cwd
    ensures ExecAll(there, [Stor(index), Cdup, Cdup, Cdup, Cdup])
         == there.(cwd := p.cwd, stored := there.stored + [there.cwd + [index]])
  {
    var s := there.(stored := there.stored + [there.cwd + [index]]);
    var n := |there.cwd|;
    Ups(s, 4);
    assert [Stor(index), Cdup, Cdup, Cdup, Cdup][1..] == UpCmds(4);
    assert there.cwd[..n - 4] == p.cwd;
  }

  function UpCmds(n: nat): seq<Cmd>
  {
    if n == 0 then [] else [Cdup] + UpCmds(n - 1)
  }

  lemma {:induction false} Ups(p: Place, n: nat)
    requires n <= |p.cwd|
    ensures ExecAll(p, UpCmds(n)) == p.(cwd := p.cwd[..|p.cwd| - n])
    decreases n
  {
    if n != 0 {
      Ups(Exec(p, Cdup), n - 1);
      assert UpCmds(n)[1..] == UpCmds(n - 1);
    } else {
      assert p.cwd[..|p.cwd|] == p.cwd;
    }
  }

  /** A download from the same starting directory finds the index where the upload stored it, but
      looks for the HEX file below the index directory: never where the upload put it. */
  lemma DownloadLooksBelowIndex(p: Place, h: nat, index: string, hexDirs: seq<string>, hex: string)
    requires h < PRIME
    ensures var r := ExecAll(p, DownloadCmds(Path(h), index, hexDirs, hex));
            |Path(h)| == 17
            && r.fetched == p.fetched + [p.cwd + IndexDirs(Path(h)) + [index]] + [p.cwd + IndexDirs(Path(h)) + hexDirs + [hex]]
            && p.cwd + IndexDirs(Path(h)) + hexDirs + [hex] != p.cwd + hexDirs + [hex]
  {
    PathParts(h);
    var dirs := IndexDirs(Path(h));
    assert ["DEFECT", "HEX_INDEX"] + Split(Path(h)) == dirs;
    var cmds := Into(hexDirs) + [Retr(hex)];
    ExecConcat(p, Into(dirs) + [Retr(index)], cmds);
    ExecConcat(p, Into(dirs), [Retr(index)]);
    IntoGoesThere(p, dirs);
    var there := Exec(p.(cwd := p.cwd + dirs), Retr(index));
    ExecOne(p.(cwd := p.cwd + dirs), Retr(index));
    ExecConcat(there, Into(hexDirs), [Retr(hex)]);
    IntoGoesThere(there, hexDirs);
    ExecOne(there.(cwd := there.cwd + hexDirs), Retr(hex));
    assert |p.cwd + dirs + hexDirs + [hex]| == |p.cwd + hexDirs + [hex]| + 4;
  }
}
