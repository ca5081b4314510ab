/** DllManager's CRC-16: reflected polynomial 0x8408, initial value 0xFFFF, complemented and
    byte-swapped result.  A C# `ushort` is its sixteen bits, and a string is a sequence of
    16-bit code units, of which the loop uses the low byte. */
module Crc16 {

  // --- Machine words as bits, least significant first ---

  datatype Bits = End | Bit(low: bool, rest: Bits)

  function Len(b: Bits): nat
  {
    match b case End => 0 case Bit(_, r) => 1 + Len(r)
  }

  function Zeros(n: nat): (z: Bits)
    ensures Len(z) == n
  {
    if n == 0 then End else Bit(false, Zeros(n - 1))
  }

  function Ones(n: nat): Bits
  {
    if n == 0 then End else Bit(true, Ones(n - 1))
  }

  /** A C# `ushort`. */
  predicate IsWord(b: Bits)
  {
    Len(b) == 16
  }

  /** A C# string. */
  predicate IsString(s: seq<Bits>)
  {
    forall i | 0 <= i < |s| :: IsWord(s[i])
  }

  /** A hexadecimal digit, most significant bit first. */
  datatype Hex = Hex(b3: bool, b2: bool, b1: bool, b0: bool)

  const X0 := Hex(false, false, false, false)
  const X3 := Hex(false, false, true, true)
  const X4 := Hex(false, true, false, false)
  const X7 := Hex(false, true, true, true)
  const X8 := Hex(true, false, false, false)
  const XB := Hex(true, false, true, true)
  const XF := Hex(true, true, true, true)

  function Digit(d: Hex, more: Bits): (r: Bits)
    ensures Len(r) == 4 + Len(more)
  {
    assert Len(Bit(d.b2, Bit(d.b3, more))) == 2 + Len(more);
    Bit(d.b0, Bit(d.b1, Bit(d.b2, Bit(d.b3, more))))
  }

  function Word(d3: Hex, d2: Hex, d1: Hex, d0: Hex): (r: Bits)
    ensures IsWord(r)
  {
    Digit(d0, Digit(d1, Digit(d2, Digit(d3, End))))
  }

  function Snoc(b: Bits, x: bool): (r: Bits)
    ensures Len(r) == Len(b) + 1
  {
    match b case End => Bit(x, End) case Bit(y, r) => Bit(y, Snoc(r, x))
  }

  function Append(a: Bits, b: Bits): (r: Bits)
    ensures Len(r) == Len(a) + Len(b)
  {
    match a case End => b case Bit(x, r) => Bit(x, Append(r, b))
  }

  function Take(b: Bits, n: nat): (r: Bits)
    requires n <= Len(b)
    ensures Len(r) == n
  {
    if n == 0 then End else Bit(b.low, Take(b.rest, n - 1))
  }

  function Drop(b: Bits, n: nat): (r: Bits)
    requires n <= Len(b)
    ensures Len(r) == Len(b) - n
  {
    if n == 0 then b else Drop(b.rest, n - 1)
  }

  /** `a ^ b` */
  function Xor(a: Bits, b: Bits): (r: Bits)
    requires Len(a) == Len(b)
    ensures Len(r) == Len(a)
  {
    match a case End => End case Bit(x, r) => Bit(x != b.low, Xor(r, b.rest))
  }

  /** `~a` */
  function Not(a: Bits): (r: Bits)
    ensures Len(r) == Len(a)
  {
    match a case End => End case Bit(x, r) => Bit(!x, Not(r))
  }

  /** `a >> 1` */
  function Shr(a: Bits): (r: Bits)
    requires a.Bit?
    ensures Len(r) == Len(a)
  {
    Snoc(a.rest, false)
  }

  // --- The register ---

  /** 0xFFFF */
  function Init(): (r: Bits)
    ensures IsWord(r)
  {
    Word(XF, XF, XF, XF)
  }

  /** 0x8408 */
  function Poly(): (r: Bits)
    ensures IsWord(r)
  {
    Word(X8, X4, X0, X8)
  }

  /** What a correct message followed by its own checksum leaves in the register: 0xF0B8
      (Appendix C.2 of RFC 1662). */
  function ResidueWord(): (r: Bits)
    ensures IsWord(r)
  {
    Word(XF, X0, XB, X8)
  }

  function Step(crc: Bits, input: bool): (r: Bits)
    requires IsWord(crc)
    ensures IsWord(r)
  {
    if crc.low == input then Shr(crc) else Xor(Shr(crc), Poly())
  }

  function Feed(crc: Bits, input: Bits): (r: Bits)
    requires IsWord(crc)
    ensures IsWord(r)
    decreases input
  {
    match input case End => crc case Bit(x, r) => Feed(Step(crc, x), r)
  }

  function LowByte(u: Bits): Bits
    requires IsWord(u)
  {
    Take(u, 8)
  }

  /** The low bytes of a string as one stream of bits. */
  function Stream(s: seq<Bits>): (b: Bits)
    requires IsString(s)
    ensures Len(b) == 8 * |s|
  {
    if s == [] then End else Append(LowByte(s[0]), Stream(s[1..]))
  }

  function SwapBytes(w: Bits): (r: Bits)
    requires IsWord(w)
    ensures IsWord(r)
  {
    Append(Drop(w, 8), Take(w, 8))
  }

  /** The checksum as its users see it. */
  function Crc(s: seq<Bits>): (r: Bits)
    requires IsString(s)
    ensures IsWord(r)
  {
    SwapBytes(Not(Feed(Init(), Stream(s))))
  }

  lemma {:induction false} FeedAppend(crc: Bits, a: Bits, b: Bits)
    requires IsWord(crc)
    ensures Feed(crc, Append(a, b)) == Feed(Feed(crc, a), b)
    decreases a
  {
    if a.Bit? {
      FeedAppend(Step(crc, a.low), a.rest, b);
    }
  }

  lemma {:induction false} AppendAssoc(a: Bits, b: Bits, c: Bits)
    ensures Append(Append(a, b), c) == Append(a, Append(b, c)) && Append(a, End) == a
  {
    if a.Bit? {
      AppendAssoc(a.rest, b, c);
    }
  }

  lemma {:induction false} StreamConcat(s: seq<Bits>, t: seq<Bits>)
    requires IsString(s) && IsString(t)
    ensures Stream(s + t) == Append(Stream(s), Stream(t))
    decreases |s|
  {
    if s == [] {
      assert s + t == t;
    } else {
      assert (s + t)[1..] == s[1..] + t;
      StreamConcat(s[1..], t);
      AppendAssoc(LowByte(s[0]), Stream(s[1..]), Stream(t));
    }
  }

  lemma StreamOne(u: Bits)
    requires IsWord(u)
    ensures Stream([u]) == LowByte(u)
  {
    assert [u][1..] == [];
    AppendAssoc(LowByte(u), End, End);
  }

  lemma FourOnes(n: nat)
    ensures Ones(n + 4) == Digit(XF, Ones(n))
  {
    assert Ones(n + 2) == Bit(true, Bit(true, Ones(n)));
  }

  lemma InitIsOnes()
    ensures Init() == Ones(16)
  {
    FourOnes(12);
    FourOnes(8);
    FourOnes(4);
    FourOnes(0);
  }

  lemma NotDigit(d: Hex, m: Bits)
    ensures Not(Digit(d, m)) == Digit(Hex(!d.b3, !d.b2, !d.b1, !d.b0), Not(m))
  {
    assert Not(Bit(d.b2, Bit(d.b3, m))) == Bit(!d.b2, Bit(!d.b3, Not(m)));
  }

  lemma AppendDigit(d: Hex, m: Bits, n: Bits)
    ensures Append(Digit(d, m), n) == Digit(d, Append(m, n))
  {
    assert Append(Bit(d.b2, Bit(d.b3, m)), n) == Bit(d.b2, Bit(d.b3, Append(m, n)));
  }

  lemma SwapWord(d3: Hex, d2: Hex, d1: Hex, d0: Hex)
    ensures SwapBytes(Word(d3, d2, d1, d0)) == Word(d1, d0, d3, d2)
  {
    var lo, hi := Digit(d0, Digit(d1, End)), Digit(d2, Digit(d3, End));
    TakeAppend(lo, hi);
    AppendDigit(d0, Digit(d1, End), hi);
    AppendDigit(d1, End, hi);
    AppendDigit(d2, Digit(d3, End), lo);
    AppendDigit(d3, End, lo);
  }

  lemma CrcOfEmpty()
    ensures Crc([]) == Not(Init())
  {
    NotDigit(XF, Digit(XF, Digit(XF, Digit(XF, End))));
    NotDigit(XF, Digit(XF, Digit(XF, End)));
    NotDigit(XF, Digit(XF, End));
    NotDigit(XF, End);
    SwapWord(X0, X0, X0, X0);
  }

  lemma FeedOneMore(s: seq<Bits>, i: nat)
    requires IsString(s) && i < |s|
    ensures Feed(Init(), Stream(s[..i + 1])) == Feed(Feed(Init(), Stream(s[..i])), LowByte(s[i]))
  {
    assert s[..i + 1] == s[..i] + [s[i]];
    StreamConcat(s[..i], [s[i]]);
    StreamOne(s[i]);
    FeedAppend(Init(), Stream(s[..i]), LowByte(s[i]));
  }

  /** The inner loop of ComputeCrc16: the eight low bits of one character. */
  method FeedByte(start: Bits, unit: Bits) returns (crc: Bits)
    requires IsWord(start) && IsWord(unit)
    ensures IsWord(crc)
    ensures crc == Feed(start, LowByte(unit))
  {
    crc := start;
    var data := LowByte(unit);
    for bit := 0 to 8
      invariant IsWord(crc) && Len(data) == 8 - bit && Feed(crc, data) == Feed(start, LowByte(unit))
    {
      crc := if crc.low == data.low then Shr(crc) else Xor(Shr(crc), Poly());
      data := data.rest;
    }
  }

  /** ComputeCrc16.  `length` may stop short of the string: the caller leaves out the trailing
      NUL. */
  method ComputeCrc16(input: seq<Bits>, length: int) returns (r: Bits)
    requires IsString(input)
    ensures IsWord(r)
    requires length <= |input|
    ensures r == Crc(input[..if length < 0 then 0 else length])
  {
    var crc := Init();
    var remaining, idx := length, 0;
    if length == 0 {
      CrcOfEmpty();
      return Not(crc);
    }
    while remaining > 0
      invariant 0 <= idx <= |input| && remaining == length - idx
      invariant length >= 0 ==> remaining >= 0
      invariant length < 0 ==> idx == 0
      invariant crc == Feed(Init(), Stream(input[..idx]))
    {
      crc := FeedByte(crc, input[idx]);
      FeedOneMore(input, idx);
      remaining, idx := remaining - 1, idx + 1;
    }
    crc := Not(crc);
    r := SwapBytes(crc);
  }

  // --- Linearity: feeding bits is adding them to the register and shifting ---

  /** Steps without input: division of the register by powers of x modulo the polynomial. */
  function Shifts(c: Bits, n: nat): (r: Bits)
    requires IsWord(c)
    ensures IsWord(r)
  {
    Feed(c, Zeros(n))
  }

  /** The low bits of `c` with `d` added to them. */
  function Plus(c: Bits, d: Bits): (r: Bits)
    requires Len(d) <= Len(c)
    ensures Len(r) == Len(c)
    decreases d
  {
    match d case End => c case Bit(x, r) => Bit(c.low != x, Plus(c.rest, r))
  }

  lemma {:induction false} PlusSnoc(c: Bits, d: Bits, x: bool)
    requires Len(d) <= Len(c)
    ensures Plus(Snoc(c, x), d) == Snoc(Plus(c, d), x)
    decreases d
  {
    if d.Bit? {
      PlusSnoc(c.rest, d.rest, x);
    }
  }

  lemma {:induction false} PlusXor(c: Bits, d: Bits, p: Bits)
    requires Len(d) <= Len(c) == Len(p)
    ensures Plus(Xor(c, p), d) == Xor(Plus(c, d), p)
    decreases d
  {
    if d.Bit? {
      PlusXor(c.rest, d.rest, p.rest);
    }
  }

  lemma StepOfSum(c: Bits, d: Bits)
    requires IsWord(c)
    requires d.Bit? && Len(d) <= 16
    ensures Step(Plus(c, d), false) == Plus(Step(c, d.low), d.rest)
  {
    PlusSnoc(c.rest, d.rest, false);
    PlusXor(Shr(c), d.rest, Poly());
  }

  lemma {:induction false} FeedOfSum(c: Bits, d: Bits)
    requires IsWord(c)
    requires Len(d) <= 16
    ensures Feed(c, d) == Shifts(Plus(c, d), Len(d))
    decreases d
  {
    if d.Bit? {
      StepOfSum(c, d);
      FeedOfSum(Step(c, d.low), d.rest);
    }
  }

  function Last(b: Bits): bool
    requires b.Bit?
  {
    match b case Bit(x, r) => if r.End? then x else Last(r)
  }

  lemma {:induction false} SnocInjective(a: Bits, b: Bits, x: bool)
    requires Snoc(a, x) == Snoc(b, x)
    ensures a == b
  {
    if a.Bit? && b.Bit? {
      SnocInjective(a.rest, b.rest, x);
    }
  }

  lemma {:induction false} LastSnoc(a: Bits, x: bool)
    ensures Last(Snoc(a, x)) == x
  {
    if a.Bit? {
      LastSnoc(a.rest, x);
    }
  }

  lemma {:induction false} XorFacts(a: Bits, b: Bits, p: Bits)
    requires Len(a) == Len(b) == Len(p)
    ensures Xor(a, p) == Xor(b, p) ==> a == b
    ensures a.Bit? ==> Last(Xor(a, p)) == (Last(a) != Last(p))
  {
    if a.Bit? {
      XorFacts(a.rest, b.rest, p.rest);
    }
  }

  /** The last bit of the new register tells whether the polynomial was added. */
  lemma StepInjective(c: Bits, d: Bits, x: bool)
    requires IsWord(c) && IsWord(d)
    requires Step(c, x) == Step(d, x)
    ensures c == d
  {
    LastSnoc(c.rest, false);
    LastSnoc(d.rest, false);
    XorFacts(Shr(c), Shr(d), Poly());
    XorFacts(Shr(d), Shr(c), Poly());
    PolyLast();
    SnocInjective(c.rest, d.rest, false);
  }

  lemma PolyLast()
    ensures Last(Poly())
  {
    LastDigit(X8, Digit(X0, Digit(X4, Digit(X8, End))));
    LastDigit(X0, Digit(X4, Digit(X8, End)));
    LastDigit(X4, Digit(X8, End));
    LastDigit(X8, End);
  }

  lemma LastDigit(d: Hex, m: Bits)
    ensures Last(Digit(d, m)) == if m.End? then d.b3 else Last(m)
  {
    assert Last(Bit(d.b2, Bit(d.b3, m))) == Last(Bit(d.b3, m));
  }

  lemma {:induction false} FeedInjective(c: Bits, d: Bits, input: Bits)
    requires IsWord(c) && IsWord(d)
    requires Feed(c, input) == Feed(d, input)
    ensures c == d
    decreases input
  {
    if input.Bit? {
      FeedInjective(Step(c, input.low), Step(d, input.low), input.rest);
      StepInjective(c, d, input.low);
    }
  }

  lemma {:induction false} PlusInjective(c: Bits, d: Bits, e: Bits)
    requires Len(d) == Len(e) <= Len(c) && Plus(c, d) == Plus(c, e)
    ensures d == e
    decreases d
  {
    if d.Bit? {
      PlusInjective(c.rest, d.rest, e.rest);
    }
  }

  /** Up to sixteen bits of input act injectively on the register. */
  lemma InputInjective(c: Bits, d: Bits, e: Bits)
    requires IsWord(c)
    requires Len(d) == Len(e) <= 16 && Feed(c, d) == Feed(c, e)
    ensures d == e
  {
    FeedOfSum(c, d);
    FeedOfSum(c, e);
    FeedInjective(Plus(c, d), Plus(c, e), Zeros(Len(d)));
    PlusInjective(c, d, e);
  }

  // --- What the checksum is for ---

  lemma SnocDigit(d: Hex, m: Bits, x: bool)
    ensures Snoc(Digit(d, m), x) == Digit(d, Snoc(m, x))
  {
    assert Snoc(Bit(d.b2, Bit(d.b3, m)), x) == Bit(d.b2, Bit(d.b3, Snoc(m, x)));
  }

  lemma XorDigit(d: Hex, m: Bits, e: Hex, n: Bits)
    requires Len(m) == Len(n)
    ensures Xor(Digit(d, m), Digit(e, n)) == Digit(Hex(d.b3 != e.b3, d.b2 != e.b2, d.b1 != e.b1, d.b0 != e.b0), Xor(m, n))
  {
    assert Xor(Bit(d.b2, Bit(d.b3, m)), Bit(e.b2, Bit(e.b3, n))) == Bit(d.b2 != e.b2, Bit(d.b3 != e.b3, Xor(m, n)));
  }

  lemma ShrWord(d3: Hex, d2: Hex, d1: Hex, d0: Hex)
    ensures Shr(Word(d3, d2, d1, d0))
         == Word(Hex(false, d3.b3, d3.b2, d3.b1), Hex(d3.b0, d2.b3, d2.b2, d2.b1),
                 Hex(d2.b0, d1.b3, d1.b2, d1.b1), Hex(d1.b0, d0.b3, d0.b2, d0.b1))
  {
    var e2, e1, e0 := Hex(d3.b0, d2.b3, d2.b2, d2.b1), Hex(d2.b0, d1.b3, d1.b2, d1.b1), Hex(d1.b0, d0.b3, d0.b2, d0.b1);
    var top := Bit(d3.b1, Bit(d3.b2, Bit(d3.b3, End)));
    SnocDigit(e0, Digit(e1, Digit(e2, top)), false);
    SnocDigit(e1, Digit(e2, top), false);
    SnocDigit(e2, top, false);
    assert Snoc(Bit(d3.b3, End), false) == Bit(d3.b3, Bit(false, End));
  }

  lemma XorPolyWord(d3: Hex, d2: Hex, d1: Hex, d0: Hex)
    ensures Xor(Word(d3, d2, d1, d0), Poly()) == Word(d3.(b3 := !d3.b3), d2.(b2 := !d2.b2), d1, d0.(b3 := !d0.b3))
  {
    XorDigit(d0, Digit(d1, Digit(d2, Digit(d3, End))), X8, Digit(X0, Digit(X4, Digit(X8, End))));
    XorDigit(d1, Digit(d2, Digit(d3, End)), X0, Digit(X4, Digit(X8, End)));
    XorDigit(d2, Digit(d3, End), X4, Digit(X8, End));
    XorDigit(d3, End, X8, End);
  }

  datatype Digits = Digits(d3: Hex, d2: Hex, d1: Hex, d0: Hex)

  /** A step without input, digit by digit. */
  function Next(d: Digits): Digits
  {
    Digits(Hex(d.d0.b0, d.d3.b3, d.d3.b2, d.d3.b1), Hex(d.d3.b0, d.d2.b3 != d.d0.b0, d.d2.b2, d.d2.b1),
           Hex(d.d2.b0, d.d1.b3, d.d1.b2, d.d1.b1), Hex(d.d1.b0 != d.d0.b0, d.d0.b3, d.d0.b2, d.d0.b1))
  }

  function Advance(d: Digits, n: nat): Digits
    decreases n, d
  {
    if n == 0 then d else Advance(Next(d), n - 1)
  }

  lemma StepWord(d: Digits)
    ensures Step(Word(d.d3, d.d2, d.d1, d.d0), false) == Word(Next(d).d3, Next(d).d2, Next(d).d1, Next(d).d0)
  {
    ShrWord(d.d3, d.d2, d.d1, d.d0);
    if d.d0.b0 {
      XorPolyWord(Hex(false, d.d3.b3, d.d3.b2, d.d3.b1), Hex(d.d3.b0, d.d2.b3, d.d2.b2, d.d2.b1),
                  Hex(d.d2.b0, d.d1.b3, d.d1.b2, d.d1.b1), Hex(d.d1.b0, d.d0.b3, d.d0.b2, d.d0.b1));
    }
  }

  lemma {:induction false} ShiftsByDigits(d: Digits, n: nat)
    ensures Shifts(Word(d.d3, d.d2, d.d1, d.d0), n)
         == Word(Advance(d, n).d3, Advance(d, n).d2, Advance(d, n).d1, Advance(d, n).d0)
    decreases n
  {
    if n > 0 {
      StepWord(d);
      ShiftsByDigits(Next(d), n - 1);
    }
  }

  lemma FourSteps(d: Digits, e: Digits, n: nat)
    requires Next(Next(Next(Next(d)))) == e
    ensures Advance(d, n + 4) == Advance(e, n)
  {
    assert Advance(d, n + 4) == Advance(Next(Next(d)), n + 2);
  }

  lemma SixteenSteps(n: nat)
    requires n == 16
    ensures Advance(Digits(XF, XF, XF, XF), n) == Digits(XF, X0, XB, X8)
  {
    FourSteps(Digits(XF, XF, XF, XF), Digits(XF, X8, X7, X0), n - 4);
    FourSteps(Digits(XF, X8, X7, X0), Digits(X0, XF, X8, X7), n - 8);
    FourSteps(Digits(X0, XF, X8, X7), Digits(X7, X3, X7, XF), n - 12);
    FourSteps(Digits(X7, X3, X7, XF), Digits(XF, X0, XB, X8), n - 16);
  }

  /** Sixteen shifts of an all-ones register. */
  lemma ResidueOfOnes(n: nat)
    requires n == 16
    ensures Shifts(Init(), n) == ResidueWord()
  {
    ShiftsByDigits(Digits(XF, XF, XF, XF), n);
    SixteenSteps(n);
  }

  lemma {:induction false} PlusNot(c: Bits)
    ensures Plus(c, Not(c)) == Ones(Len(c))
  {
    if c.Bit? {
      PlusNot(c.rest);
    }
  }

  lemma {:induction false} TakeDrop(b: Bits, n: nat)
    requires n <= Len(b)
    ensures Append(Take(b, n), Drop(b, n)) == b
    decreases n
  {
    if n > 0 {
      TakeDrop(b.rest, n - 1);
    }
  }

  lemma {:induction false} TakeAppend(a: Bits, b: Bits)
    ensures Take(Append(a, b), Len(a)) == a && Drop(Append(a, b), Len(a)) == b
  {
    if a.Bit? {
      TakeAppend(a.rest, b);
    }
  }

  /** The character `w >> 8`. */
  function HighByteUnit(w: Bits): (r: Bits)
    requires IsWord(w)
    ensures IsWord(r)
  {
    Append(Drop(w, 8), Zeros(8))
  }

  /** The character `w & 0xFF`. */
  function LowByteUnit(w: Bits): (r: Bits)
    requires IsWord(w)
    ensures IsWord(r)
  {
    Append(Take(w, 8), Zeros(8))
  }

  lemma StreamOfChecksum(w: Bits)
    requires IsWord(w)
    ensures Stream([HighByteUnit(SwapBytes(w)), LowByteUnit(SwapBytes(w))]) == w
  {
    var hi, lo := HighByteUnit(SwapBytes(w)), LowByteUnit(SwapBytes(w));
    assert [hi, lo] == [hi] + [lo];
    StreamConcat([hi], [lo]);
    StreamOne(hi);
    StreamOne(lo);
    TakeAppend(Drop(w, 8), Take(w, 8));
    TakeAppend(Drop(SwapBytes(w), 8), Zeros(8));
    TakeAppend(Take(SwapBytes(w), 8), Zeros(8));
    TakeDrop(w, 8);
  }

  /** Feeding a register its own complement leaves the residue. */
  lemma ResidueOfComplement(r: Bits)
    requires IsWord(r)
    ensures Feed(r, Not(r)) == ResidueWord()
  {
    FeedOfSum(r, Not(r));
    PlusNot(r);
    InitIsOnes();
    ResidueOfOnes(Len(r));
  }

  /** A message followed by the two bytes of a checksum, high byte first. */
  function Framed(s: seq<Bits>, checkSum: Bits): (t: seq<Bits>)
    requires IsString(s) && IsWord(checkSum)
    ensures IsString(t)
  {
    s + [HighByteUnit(checkSum), LowByteUnit(checkSum)]
  }

  /** A message framed with its returned checksum leaves the same residue in the register,
      whatever the message. */
  lemma Residue(s: seq<Bits>)
    requires IsString(s)
    ensures Feed(Init(), Stream(Framed(s, Crc(s)))) == ResidueWord()
  {
    var r := Feed(Init(), Stream(s));
    var hi, lo := HighByteUnit(Crc(s)), LowByteUnit(Crc(s));
    StreamConcat(s, [hi, lo]);
    StreamOfChecksum(Not(r));
    FeedAppend(Init(), Stream(s), Not(r));
    ResidueOfComplement(r);
  }

  /** Every error confined to two adjacent characters is detected: strings of equal length that
      differ only there share a checksum exactly when all their low bytes agree. */
  lemma BurstDetected(pre: seq<Bits>, m: seq<Bits>, m': seq<Bits>, post: seq<Bits>)
    requires IsString(pre) && IsString(m) && IsString(m') && IsString(post)
    requires |m| == |m'| <= 2
    ensures Crc(pre + m + post) == Crc(pre + m' + post) <==> Stream(m) == Stream(m')
  {
    CrcParts(pre, m, post);
    CrcParts(pre, m', post);
    ShortBurst(Feed(Init(), Stream(pre)), Stream(m), Stream(m'), Stream(post));
  }

  /** Two inputs of up to sixteen bits, followed by the same bits, end in different checksums. */
  lemma ShortBurst(r: Bits, d: Bits, e: Bits, post: Bits)
    requires IsWord(r) && Len(d) == Len(e) <= 16
    ensures SwapBytes(Not(Feed(Feed(r, d), post))) == SwapBytes(Not(Feed(Feed(r, e), post))) <==> d == e
  {
    var x, y := Feed(Feed(r, d), post), Feed(Feed(r, e), post);
    if SwapBytes(Not(x)) == SwapBytes(Not(y)) {
      SwapNotInjective(x, y);
      FeedInjective(Feed(r, d), Feed(r, e), post);
      InputInjective(r, d, e);
    }
  }

  lemma CrcParts(pre: seq<Bits>, m: seq<Bits>, post: seq<Bits>)
    requires IsString(pre) && IsString(m) && IsString(post)
    ensures Crc(pre + m + post) == SwapBytes(Not(Feed(Feed(Feed(Init(), Stream(pre)), Stream(m)), Stream(post))))
  {
    StreamConcat(pre, m);
    StreamConcat(pre + m, post);
    FeedAppend(Init(), Stream(pre), Stream(m));
    FeedAppend(Init(), Stream(pre + m), Stream(post));
  }

  lemma {:induction false} NotInjective(a: Bits, b: Bits)
    requires Not(a) == Not(b)
    ensures a == b
  {
    if a.Bit? && b.Bit? {
      NotInjective(a.rest, b.rest);
    }
  }

  lemma SwapNotInjective(v: Bits, w: Bits)
    requires IsWord(v) && IsWord(w)
    requires SwapBytes(Not(v)) == SwapBytes(Not(w))
    ensures v == w
  {
    TakeAppend(Drop(Not(v), 8), Take(Not(v), 8));
    TakeAppend(Drop(Not(w), 8), Take(Not(w), 8));
    TakeDrop(Not(v), 8);
    TakeDrop(Not(w), 8);
    NotInjective(v, w);
  }

  /** `Stream` tells strings of equal length apart exactly by their low bytes. */
  lemma {:induction false} StreamIsLowBytes(s: seq<Bits>, t: seq<Bits>)
    requires IsString(s) && IsString(t)
    requires |s| == |t|
    ensures Stream(s) == Stream(t) <==> forall i | 0 <= i < |s| :: LowByte(s[i]) == LowByte(t[i])
    decreases |s|
  {
    if s != [] {
      TakeAppend(LowByte(s[0]), Stream(s[1..]));
      TakeAppend(LowByte(t[0]), Stream(t[1..]));
      StreamIsLowBytes(s[1..], t[1..]);
      if Stream(s[1..]) == Stream(t[1..]) && LowByte(s[0]) == LowByte(t[0]) {
        forall i | 0 <= i < |s| ensures LowByte(s[i]) == LowByte(t[i]) {
          if i > 0 {
            assert s[i] == s[1..][i - 1] && t[i] == t[1..][i - 1];
          }
        }
      }
    }
  }

  /** StartOcFlow's use: the flow is started with the checksum of the parameter text, without
      the NUL that ends the string, so a receiver that runs the register over the text and the
      two checksum bytes finds the residue. */
  method ChecksumOfParameter(text: seq<Bits>) returns (checkSum: Bits)
    requires IsString(text)
    ensures IsWord(checkSum)
    ensures Feed(Init(), Stream(Framed(text, checkSum))) == ResidueWord()
  {
    var parameter := text + [Zeros(16)];
    checkSum := ComputeCrc16(parameter, |parameter| - 1);
    assert parameter[..|parameter| - 1] == text;
    Residue(text);
  }
}
