/** The checksum register as a polynomial over GF(32): one step multiplies by x, adds the symbol, and reduces. */
module Gf32 {
  import opened Alphabet
  import opened Bch
  import opened Bech32
  import opened Bits
  import opened Cashaddr
  import opened Common

  /** A five-bit word, the most significant bit first: an element of GF(2)[a] / (a^5 + a^3 + 1). */
  predicate Five(w: Word) { |w| == 5 }

  /** Times a: what falls out at the top comes back as a^3 + 1. */
  function Alpha(e: Word): (r: Word)
    requires Five(e)
    ensures Five(r)
  {
    [e[1], e[2] != e[0], e[3], e[4], e[0]]
  }

  /** Times a power of a. */
  function AlphaTo(e: Word, i: nat): (r: Word)
    requires Five(e)
    ensures Five(r)
  {
    if i == 0 then e else Alpha(AlphaTo(e, i - 1))
  }

  /** The product: the powers of a that make up `t`, each times `g`, added. */
  function Times(t: Word, g: Word): (r: Word)
    requires Five(t) && Five(g)
    ensures Five(r)
  {
    seq(5, k requires 0 <= k < 5 =>
      ((((t[4] && AlphaTo(g, 0)[k]) != (t[3] && AlphaTo(g, 1)[k])) != (t[2] && AlphaTo(g, 2)[k]))
        != (t[1] && AlphaTo(g, 3)[k])) != (t[0] && AlphaTo(g, 4)[k]))
  }

  /** Digit `j` of a word, counted from the top. */
  function Digit(w: Word, j: nat): (r: Word)
    requires 5 * j + 5 <= |w|
    ensures Five(r)
  {
    w[5 * j..5 * j + 5]
  }

  /** The generators are one polynomial's coefficients times 1, a, a^2, a^3 and a^4. */
  ghost predicate Generated(code: Code, ks: seq<Word>) {
    && code.Valid() && |ks| == code.symbols && (forall j :: 0 <= j < |ks| ==> Five(ks[j]))
    && forall i: nat, j: nat :: i < 5 && j < |ks| ==> Digit(code.Generator(i), j) == AlphaTo(ks[j], i)
  }

  /** What is folded back is the coefficients times the element that fell out. */
  lemma SelectedTimes(code: Code, ks: seq<Word>, top: Word, j: nat)
    requires Generated(code, ks) && Five(top) && j < code.symbols
    ensures Digit(code.Selected(top, 5), j) == Times(top, ks[j])
  {
    forall k: nat | k < 5 ensures Digit(code.Selected(top, 5), j)[k] == Times(top, ks[j])[k] {
      SelectedBit(code, top, 5 * j + k);
      GeneratorBit(code, ks, 0, j, k);
      GeneratorBit(code, ks, 1, j, k);
      GeneratorBit(code, ks, 2, j, k);
      GeneratorBit(code, ks, 3, j, k);
      GeneratorBit(code, ks, 4, j, k);
    }
  }

  lemma GeneratorBit(code: Code, ks: seq<Word>, i: nat, j: nat, k: nat)
    requires Generated(code, ks) && i < 5 && j < code.symbols && k < 5
    ensures code.Generator(i)[5 * j + k] == AlphaTo(ks[j], i)[k]
  {
    assert Digit(code.Generator(i), j)[k] == code.Generator(i)[5 * j + k];
  }

  /**
   * One step: every coefficient moves up one place, the symbol comes in at the
   * bottom, and the generator polynomial times the coefficient that fell out is
   * added.
   */
  lemma StepReduces(code: Code, ks: seq<Word>, chk: Word, value: Word, j: nat)
    requires Generated(code, ks) && code.Fits(chk) && code.Fits(value) && j < code.symbols
    ensures Digit(code.Step(chk, value), j)
         == Xor(Xor(if j + 1 < code.symbols then Digit(chk, j + 1) else Zeros(5), Digit(value, j)),
                Times(Digit(chk, 0), ks[j]))
  {
    var shifted := chk[5..] + Zeros(5);
    var moved := if j + 1 < code.symbols then Digit(chk, j + 1) else Zeros(5);
    assert Digit(shifted, j) == moved;
    SelectedTimes(code, ks, chk[..5], j);
    DigitOfXor(shifted, value, j);
    DigitOfXor(Xor(shifted, value), code.Selected(chk[..5], 5), j);
  }

  lemma DigitOfXor(a: Word, b: Word, j: nat)
    requires |a| == |b| && 5 * j + 5 <= |a|
    ensures Digit(Xor(a, b), j) == Xor(Digit(a, j), Digit(b, j))
  {
  }

  // --- the two codes --------------------------------------------------------

  function Base32(x: nat, n: nat): (r: seq<int>)
    ensures |r| == n && forall k :: 0 <= k < n ==> 0 <= r[k] < 32
  {
    if n == 0 then [] else Base32(x / 32, n - 1) + [x % 32]
  }

  lemma ShrFive(x: nat)
    ensures Shr(x, 5) == x / 32 && Low(x, 5) == x % 32
  {
    ShrNext(x, 0);
    ShrNext(x, 1);
    ShrNext(x, 2);
    ShrNext(x, 3);
    ShrNext(x, 4);
    var a, b, c, d := x / 2, x / 2 / 2, x / 2 / 2 / 2, x / 2 / 2 / 2 / 2;
    FiveHalvings(x, a, b, c, d);
    assert Low(d, 1) == d % 2 && Low(c, 2) == 2 * Low(d, 1) + c % 2 && Low(b, 3) == 2 * Low(c, 2) + b % 2;
    assert Low(a, 4) == 2 * Low(b, 3) + a % 2 && Low(x, 5) == 2 * Low(a, 4) + x % 2;
  }

  /** The digits of a number's bits are its digits to base 32. */
  lemma {:induction false} DigitOfBits(x: nat, n: nat, j: nat)
    requires j < n
    ensures Digit(BitsOf(x, 5 * n), j) == BitsOf(Base32(x, n)[j], 5)
    decreases n
  {
    BitsSplit(x, 5 * (n - 1), 5);
    ShrFive(x);
    BitsLow(x, 5);
    var high, low := BitsOf(x / 32, 5 * (n - 1)), BitsOf(x, 5);
    assert BitsOf(x, 5 * n) == high + low;
    if j < n - 1 {
      DigitOfBits(x / 32, n - 1, j);
      assert Digit(high + low, j) == Digit(high, j);
    } else {
      assert Digit(high + low, j) == low;
    }
  }

  /** Numbers to elements. */
  function Elements(ds: seq<int>): (r: seq<Word>)
    requires forall k :: 0 <= k < |ds| ==> 0 <= ds[k] < 32
    ensures |r| == |ds| && forall k :: 0 <= k < |ds| ==> r[k] == BitsOf(ds[k], 5)
  {
    seq(|ds|, k requires 0 <= k < |ds| => BitsOf(ds[k], 5))
  }

  /** Times a, on numbers. */
  function Doubled(e: int): (r: int)
    requires 0 <= e < 32
    ensures 0 <= r < 32
  {
    if e < 16 then 2 * e else if e % 8 < 4 then 2 * e - 23 else 2 * e - 39
  }

  lemma AlphaDoubles(e: nat)
    requires e < 32
    ensures Alpha(BitsOf(e, 5)) == BitsOf(Doubled(e), 5)
  {
    var w := BitsOf(e, 5);
    assert Pow2(5) == 32;
    ValueOfBits(e, 5);
    ValueOfFive(w);
    ValueOfFive(Alpha(w));
    DoubledValue(w, e);
    BitsOfValue(Alpha(w));
  }

  lemma DoubledValue(w: Word, e: nat)
    requires Five(w) && e < 32
    requires e == 16 * Bit(w[0]) + 8 * Bit(w[1]) + 4 * Bit(w[2]) + 2 * Bit(w[3]) + Bit(w[4])
    ensures Doubled(e)
         == 16 * Bit(w[1]) + 8 * Bit(w[2] != w[0]) + 4 * Bit(w[3]) + 2 * Bit(w[4]) + Bit(w[0])
  {
  }

  function DoubledTimes(e: int, i: nat): (r: int)
    requires 0 <= e < 32
    ensures 0 <= r < 32
  {
    if i == 0 then e else Doubled(DoubledTimes(e, i - 1))
  }

  lemma {:induction false} AlphaToDoubles(e: nat, i: nat)
    requires e < 32
    ensures AlphaTo(BitsOf(e, 5), i) == BitsOf(DoubledTimes(e, i), 5)
  {
    if i > 0 {
      AlphaToDoubles(e, i - 1);
      AlphaDoubles(DoubledTimes(e, i - 1));
    }
  }

  /** The first generator's digits are these, and each other one's are those of the one before, times a. */
  ghost predicate Ladder(code: Code, ds: seq<int>) {
    && code.Valid() && |ds| == code.symbols && Base32(code.gen[0], code.symbols) == ds
    && forall i: nat :: i < 4 ==> Rung(Base32(code.gen[i], code.symbols), Base32(code.gen[i + 1], code.symbols))
  }

  predicate Rung(ds: seq<int>, es: seq<int>) {
    |es| == |ds| && forall j :: 0 <= j < |ds| ==> 0 <= ds[j] < 32 && es[j] == Doubled(ds[j])
  }

  lemma {:induction false} LadderDoubles(code: Code, ds: seq<int>, i: nat, j: nat)
    requires Ladder(code, ds) && i < 5 && j < |ds|
    ensures 0 <= ds[j] < 32 && Base32(code.gen[i], code.symbols)[j] == DoubledTimes(ds[j], i)
  {
    if i > 0 {
      LadderDoubles(code, ds, i - 1, j);
      assert Rung(Base32(code.gen[i - 1], code.symbols), Base32(code.gen[i - 1 + 1], code.symbols));
    }
  }

  lemma LadderGenerates(code: Code, ds: seq<int>)
    requires Ladder(code, ds)
    ensures (forall j :: 0 <= j < |ds| ==> 0 <= ds[j] < 32) && Generated(code, Elements(ds))
  {
    forall j | 0 <= j < |ds| ensures 0 <= ds[j] < 32 { LadderDoubles(code, ds, 0, j); }
    forall i: nat, j: nat | i < 5 && j < |ds| ensures Digit(code.Generator(i), j) == AlphaTo(Elements(ds)[j], i) {
      LadderDoubles(code, ds, i, j);
      DigitOfBits(code.gen[i], code.symbols, j);
      AlphaToDoubles(ds[j], i);
    }
  }

  lemma Base32Step(x: nat, n: nat, high: nat, low: nat)
    requires n > 0 && x == 32 * high + low && low < 32
    ensures Base32(x, n) == Base32(high, n - 1) + [low]
  {
  }

  lemma OneDigit(x: nat)
    ensures Base32(x, 1) == [x % 32]
  {
    assert Base32(x, 1) == Base32(x / 32, 0) + [x % 32];
  }

  lemma TwoDigits(x: nat, a: nat, b: nat)
    requires x == 32 * a + b && a < 32 && b < 32
    ensures Base32(x, 2) == [a, b]
  {
    OneDigit(a);
    Base32Step(x, 2, a, b);
  }

  lemma SixDigits(x: nat, a: nat, b: nat, c: nat, d: nat, e: nat, f: nat)
    requires a < 32 && b < 32 && c < 32 && d < 32 && e < 32 && f < 32
    requires x == 32 * (32 * (32 * (32 * (32 * a + b) + c) + d) + e) + f
    ensures Base32(x, 6) == [a, b, c, d, e, f]
  {
    var x2 := 32 * a + b;
    var x3 := 32 * x2 + c;
    var x4 := 32 * x3 + d;
    var x5 := 32 * x4 + e;
    TwoDigits(x2, a, b);
    Base32Step(x3, 3, x2, c);
    Base32Step(x4, 4, x3, d);
    Base32Step(x5, 5, x4, e);
    Base32Step(x, 6, x5, f);
  }

  lemma EightDigits(x: nat, a: nat, b: nat, c: nat, d: nat, e: nat, f: nat, g: nat, h: nat)
    requires a < 32 && b < 32 && c < 32 && d < 32 && e < 32 && f < 32 && g < 32 && h < 32
    requires x == 32 * (32 * (32 * (32 * (32 * (32 * (32 * a + b) + c) + d) + e) + f) + g) + h
    ensures Base32(x, 8) == [a, b, c, d, e, f, g, h]
  {
    var x6 := 32 * (32 * (32 * (32 * (32 * a + b) + c) + d) + e) + f;
    SixDigits(x6, a, b, c, d, e, f);
    Base32Step(32 * x6 + g, 7, x6, g);
    Base32Step(x, 8, 32 * x6 + g, h);
  }

  const BECH_POLYNOMIAL: seq<int> := [29, 22, 20, 21, 29, 18]
  const CASHADDR_POLYNOMIAL: seq<int> := [19, 3, 25, 11, 25, 3, 19, 1]

  function BechRows(): seq<seq<int>> {
    [[29, 22, 20, 21, 29, 18], [19, 5, 1, 3, 19, 13], [15, 10, 2, 6, 15, 26], [30, 20, 4, 12, 30, 29],
     [21, 1, 8, 24, 21, 19]]
  }

  lemma BechRow(i: nat, g: nat)
    requires i < 5 && g == [0x3B6A57B2, 0x26508E6D, 0x1EA119FA, 0x3D4233DD, 0x2A1462B3][i]
    ensures Base32(g, 6) == BechRows()[i]
  {
    if i == 0 { SixDigits(g, 29, 22, 20, 21, 29, 18); }
    if i == 1 { SixDigits(g, 19, 5, 1, 3, 19, 13); }
    if i == 2 { SixDigits(g, 15, 10, 2, 6, 15, 26); }
    if i == 3 { SixDigits(g, 30, 20, 4, 12, 30, 29); }
    if i == 4 { SixDigits(g, 21, 1, 8, 24, 21, 19); }
  }

  lemma BechRung(i: nat)
    requires i < 4
    ensures Rung(BechRows()[i], BechRows()[i + 1])
  {
  }

  function CashaddrRows(): seq<seq<int>> {
    [[19, 3, 25, 11, 25, 3, 19, 1], [15, 6, 27, 22, 27, 6, 15, 2], [30, 12, 31, 5, 31, 12, 30, 4],
     [21, 24, 23, 10, 23, 24, 21, 8], [3, 25, 7, 20, 7, 25, 3, 16]]
  }

  lemma CashaddrRow(i: nat, g: nat)
    requires i < 5 && g == [0x98F2BC8E61, 0x79B76D99E2, 0xF33E5FB3C4, 0xAE2EABE2A8, 0x1E4F43E470][i]
    ensures Base32(g, 8) == CashaddrRows()[i]
  {
    if i == 0 { EightDigits(g, 19, 3, 25, 11, 25, 3, 19, 1); }
    if i == 1 { EightDigits(g, 15, 6, 27, 22, 27, 6, 15, 2); }
    if i == 2 { EightDigits(g, 30, 12, 31, 5, 31, 12, 30, 4); }
    if i == 3 { EightDigits(g, 21, 24, 23, 10, 23, 24, 21, 8); }
    if i == 4 { EightDigits(g, 3, 25, 7, 20, 7, 25, 3, 16); }
  }

  lemma CashaddrRung(i: nat)
    requires i < 4
    ensures Rung(CashaddrRows()[i], CashaddrRows()[i + 1])
  {
  }

  /** bech32's generators come from x^6 + {29}x^5 + {22}x^4 + {20}x^3 + {21}x^2 + {29}x + {18}. */
  lemma BechGenerated()
    ensures Generated(BECH.code, Elements(BECH_POLYNOMIAL))
  {
    forall i: nat | i < 5 ensures Base32(BECH.code.gen[i], 6) == BechRows()[i] { BechRow(i, BECH.code.gen[i]); }
    LadderOf(BECH.code, BechRows(), BECH_POLYNOMIAL);
    LadderGenerates(BECH.code, BECH_POLYNOMIAL);
  }

  /** Cashaddr's from x^8 + {19}x^7 + {3}x^6 + {25}x^5 + {11}x^4 + {25}x^3 + {3}x^2 + {19}x + {1}. */
  lemma CashaddrGenerated()
    ensures Generated(CASHADDR.code, Elements(CASHADDR_POLYNOMIAL))
  {
    forall i: nat | i < 5 ensures Base32(CASHADDR.code.gen[i], 8) == CashaddrRows()[i] {
      CashaddrRow(i, CASHADDR.code.gen[i]);
    }
    LadderOf(CASHADDR.code, CashaddrRows(), CASHADDR_POLYNOMIAL);
    LadderGenerates(CASHADDR.code, CASHADDR_POLYNOMIAL);
  }

  lemma LadderOf(code: Code, rows: seq<seq<int>>, ds: seq<int>)
    requires code.Valid() && (rows == BechRows() || rows == CashaddrRows()) && ds == rows[0] && |ds| == code.symbols
    requires forall i: nat :: i < 5 ==> Base32(code.gen[i], code.symbols) == rows[i]
    ensures Ladder(code, ds)
  {
    forall i: nat | i < 4 ensures Rung(Base32(code.gen[i], code.symbols), Base32(code.gen[i + 1], code.symbols)) {
      if rows == BechRows() { BechRung(i); } else { CashaddrRung(i); }
    }
  }
}
