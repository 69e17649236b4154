/** One address of BIP-173, step by step: "a12uel5l" is bech32 for "a" and no data. */
module BechSample {
  import opened Alphabet
  import opened Bch
  import opened Bech32
  import opened Bits
  import opened Common
  import opened Gf32
  import Regroup

  /** Five bits, written out. */
  function E(bits: string): (w: Word)
    requires |bits| == 5
    ensures |w| == 5 && forall k :: 0 <= k < 5 ==> w[k] == (bits[k] == '1')
  {
    [bits[0] == '1', bits[1] == '1', bits[2] == '1', bits[3] == '1', bits[4] == '1']
  }

  lemma BitsAre(n: nat, w: Word)
    requires Five(w) && n == 16 * Bit(w[0]) + 8 * Bit(w[1]) + 4 * Bit(w[2]) + 2 * Bit(w[3]) + Bit(w[4])
    ensures BitsOf(n, 5) == w
  {
    ValueOfFive(w);
    BitsOfValue(w);
  }

  /** The coefficients of bech32's generator polynomial. */
  function Polynomial(): (ks: seq<Word>)
    ensures |ks| == 6 && forall j :: 0 <= j < 6 ==> Five(ks[j])
  {
    [E("11101"), E("10110"), E("10100"), E("10101"), E("11101"), E("10010")]
  }

  lemma PolynomialIs()
    ensures Elements(BECH_POLYNOMIAL) == Polynomial()
  {
    BitsAre(29, E("11101"));
    BitsAre(22, E("10110"));
    BitsAre(20, E("10100"));
    BitsAre(21, E("10101"));
    BitsAre(18, E("10010"));
  }

  // --- products -------------------------------------------------------------

  /** The sum of those of `g0`, ..., `g4` that `t` picks. */
  predicate Picks(t: Word, g0: Word, g1: Word, g2: Word, g3: Word, g4: Word, r: Word) {
    && |t| == |g0| == |g1| == |g2| == |g3| == |g4| == |r| == 5
    && forall k :: 0 <= k < 5 ==>
      r[k] == (((((t[4] && g0[k]) != (t[3] && g1[k])) != (t[2] && g2[k])) != (t[1] && g3[k])) != (t[0] && g4[k]))
  }

  lemma ProductIs(t: Word, g0: Word, g1: Word, g2: Word, g3: Word, g4: Word, r: Word)
    requires Picks(t, g0, g1, g2, g3, g4, r)
    requires g1 == Alpha(g0) && g2 == Alpha(g1) && g3 == Alpha(g2) && g4 == Alpha(g3)
    ensures Times(t, g0) == r
  {
    assert AlphaTo(g0, 1) == Alpha(AlphaTo(g0, 0));
    assert AlphaTo(g0, 2) == Alpha(AlphaTo(g0, 1));
    assert AlphaTo(g0, 3) == Alpha(AlphaTo(g0, 2));
    assert AlphaTo(g0, 4) == Alpha(AlphaTo(g0, 3));
  }

  lemma NoProduct(g: Word)
    requires Five(g)
    ensures Times(E("00000"), g) == E("00000")
  {
  }

  lemma OneProduct(g: Word)
    requires Five(g)
    ensures Times(E("00001"), g) == g
  {
    assert AlphaTo(g, 0) == g;
  }

  /** The generator polynomial times the digit that falls out. */
  ghost predicate Multiples(top: Word, ps: seq<Word>) {
    Five(top) && |ps| == 6 && forall j :: 0 <= j < 6 ==> Times(top, Polynomial()[j]) == ps[j]
  }

  lemma MultiplesOf0()
    ensures Multiples(E("00000"), [E("00000"), E("00000"), E("00000"), E("00000"), E("00000"), E("00000")])
  {
    forall g | g in Polynomial() ensures Times(E("00000"), g) == E("00000") { NoProduct(g); }
  }

  lemma MultiplesOf1()
    ensures Multiples(E("00001"), Polynomial())
  {
    forall j | 0 <= j < 6 ensures Times(E("00001"), Polynomial()[j]) == Polynomial()[j] {
      OneProduct(Polynomial()[j]);
    }
  }

  lemma Times30By29()
    ensures Times(E("11110"), E("11101")) == E("10111")
  {
    ProductIs(E("11110"), E("11101"), E("10011"), E("01111"), E("11110"), E("10101"), E("10111"));
  }

  lemma Times30By22()
    ensures Times(E("11110"), E("10110")) == E("11010")
  {
    ProductIs(E("11110"), E("10110"), E("00101"), E("01010"), E("10100"), E("00001"), E("11010"));
  }

  lemma Times30By20()
    ensures Times(E("11110"), E("10100")) == E("01111")
  {
    ProductIs(E("11110"), E("10100"), E("00001"), E("00010"), E("00100"), E("01000"), E("01111"));
  }

  lemma Times30By21()
    ensures Times(E("11110"), E("10101")) == E("10001")
  {
    ProductIs(E("11110"), E("10101"), E("00011"), E("00110"), E("01100"), E("11000"), E("10001"));
  }

  lemma Times30By18()
    ensures Times(E("11110"), E("10010")) == E("11001")
  {
    ProductIs(E("11110"), E("10010"), E("01101"), E("11010"), E("11101"), E("10011"), E("11001"));
  }

  lemma MultiplesOf30()
    ensures Multiples(E("11110"), [E("10111"), E("11010"), E("01111"), E("10001"), E("10111"), E("11001")])
  {
    Times30By29();
    Times30By22();
    Times30By20();
    Times30By21();
    Times30By18();
  }

  lemma Times18By29()
    ensures Times(E("10010"), E("11101")) == E("00110")
  {
    ProductIs(E("10010"), E("11101"), E("10011"), E("01111"), E("11110"), E("10101"), E("00110"));
  }

  lemma Times18By22()
    ensures Times(E("10010"), E("10110")) == E("00100")
  {
    ProductIs(E("10010"), E("10110"), E("00101"), E("01010"), E("10100"), E("00001"), E("00100"));
  }

  lemma Times18By20()
    ensures Times(E("10010"), E("10100")) == E("01001")
  {
    ProductIs(E("10010"), E("10100"), E("00001"), E("00010"), E("00100"), E("01000"), E("01001"));
  }

  lemma Times18By21()
    ensures Times(E("10010"), E("10101")) == E("11011")
  {
    ProductIs(E("10010"), E("10101"), E("00011"), E("00110"), E("01100"), E("11000"), E("11011"));
  }

  lemma Times18By18()
    ensures Times(E("10010"), E("10010")) == E("11110")
  {
    ProductIs(E("10010"), E("10010"), E("01101"), E("11010"), E("11101"), E("10011"), E("11110"));
  }

  lemma MultiplesOf18()
    ensures Multiples(E("10010"), [E("00110"), E("00100"), E("01001"), E("11011"), E("00110"), E("11110")])
  {
    Times18By29();
    Times18By22();
    Times18By20();
    Times18By21();
    Times18By18();
  }

  // --- steps of the register ------------------------------------------------

  /** The register's six digits. */
  ghost predicate Reads(w: Word, ds: seq<Word>) {
    |w| == 30 && |ds| == 6 && forall j :: 0 <= j < 6 ==> Digit(w, j) == ds[j]
  }

  /** Every digit moves up, the symbol comes in at the bottom, and the multiples are added. */
  ghost predicate Moves(ds: seq<Word>, v: Word, ps: seq<Word>, es: seq<Word>) {
    && |ds| == |ps| == |es| == 6 && Five(v) && Five(ps[5]) && es[5] == Xor(v, ps[5])
    && forall j :: 0 <= j < 5 ==> Five(ds[j + 1]) && Five(ps[j]) && es[j] == Xor(ds[j + 1], ps[j])
  }

  lemma XorZeros(a: Word, b: Word)
    requires Five(a) && Five(b)
    ensures Xor(Xor(a, Zeros(5)), b) == Xor(a, b) && Xor(Xor(Zeros(5), a), b) == Xor(a, b)
  {
  }

  lemma ReducedDigit(w: Word, v: nat, j: nat, next: Word, own: Word, p: Word)
    requires |w| == 30 && v < 32 && j < 6 && Five(p) && own == Digit(Symbol(BECH.code, v), j)
    requires next == (if j < 5 then Digit(w, j + 1) else Zeros(5)) && Times(Digit(w, 0), Polynomial()[j]) == p
    ensures Digit(BECH.code.Step(w, Symbol(BECH.code, v)), j) == Xor(Xor(next, own), p)
  {
    BechGenerated();
    PolynomialIs();
    StepReduces(BECH.code, Elements(BECH_POLYNOMIAL), w, Symbol(BECH.code, v), j);
  }

  lemma DigitReads(w: Word, ds: seq<Word>, v: nat, symbol: Word, ps: seq<Word>, es: seq<Word>, j: nat)
    requires Reads(w, ds) && v < 32 && BitsOf(v, 5) == symbol && Multiples(ds[0], ps) && Moves(ds, symbol, ps, es)
    requires j < 6
    ensures Digit(BECH.code.Step(w, Symbol(BECH.code, v)), j) == es[j]
  {
    var s := Symbol(BECH.code, v);
    if j < 5 {
      assert Digit(s, j) == Zeros(5);
      ReducedDigit(w, v, j, ds[j + 1], Zeros(5), ps[j]);
      XorZeros(ds[j + 1], ps[j]);
    } else {
      assert Digit(s, 5) == symbol;
      ReducedDigit(w, v, 5, Zeros(5), symbol, ps[5]);
      XorZeros(symbol, ps[5]);
    }
  }

  lemma StepReads(w: Word, ds: seq<Word>, v: nat, symbol: Word, ps: seq<Word>, es: seq<Word>)
    requires Reads(w, ds) && v < 32 && BitsOf(v, 5) == symbol && Multiples(ds[0], ps) && Moves(ds, symbol, ps, es)
    ensures Reads(BECH.code.Step(w, Symbol(BECH.code, v)), es)
  {
    forall j | 0 <= j < 6 ensures Digit(BECH.code.Step(w, Symbol(BECH.code, v)), j) == es[j] {
      DigitReads(w, ds, v, symbol, ps, es, j);
    }
  }

  /** Nothing falls out: the digits move up. */
  lemma ShiftReads(w: Word, ds: seq<Word>, v: nat, symbol: Word, es: seq<Word>)
    requires Reads(w, ds) && ds[0] == E("00000") && v < 32 && BitsOf(v, 5) == symbol
    requires forall j :: 0 <= j < 6 ==> Five(ds[j])
    requires es == ds[1..] + [symbol]
    ensures Reads(BECH.code.Step(w, Symbol(BECH.code, v)), es)
  {
    var ps: seq<Word> := [E("00000"), E("00000"), E("00000"), E("00000"), E("00000"), E("00000")];
    MultiplesOf0();
    forall x: Word | Five(x) ensures Xor(x, E("00000")) == x {}
    StepReads(w, ds, v, symbol, ps, es);
  }

  lemma Step6(w: Word)
    requires Reads(w, [E("00001"), E("00011"), E("00000"), E("00001"), E("01010"), E("11100")])
    ensures Reads(BECH.code.Step(w, Symbol(BECH.code, 25)),
                  [E("11110"), E("10110"), E("10101"), E("11111"), E("00001"), E("01011")])
  {
    MultiplesOf1();
    BitsAre(25, E("11001"));
    StepReads(w, [E("00001"), E("00011"), E("00000"), E("00001"), E("01010"), E("11100")], 25, E("11001"),
              Polynomial(),
              [E("11110"), E("10110"), E("10101"), E("11111"), E("00001"), E("01011")]);
  }

  lemma Step7(w: Word)
    requires Reads(w, [E("11110"), E("10110"), E("10101"), E("11111"), E("00001"), E("01011")])
    ensures Reads(BECH.code.Step(w, Symbol(BECH.code, 31)),
                  [E("00001"), E("01111"), E("10000"), E("10000"), E("11100"), E("00110")])
  {
    MultiplesOf30();
    BitsAre(31, E("11111"));
    StepReads(w, [E("11110"), E("10110"), E("10101"), E("11111"), E("00001"), E("01011")], 31, E("11111"),
              [E("10111"), E("11010"), E("01111"), E("10001"), E("10111"), E("11001")],
              [E("00001"), E("01111"), E("10000"), E("10000"), E("11100"), E("00110")]);
  }

  lemma Step8(w: Word)
    requires Reads(w, [E("00001"), E("01111"), E("10000"), E("10000"), E("11100"), E("00110")])
    ensures Reads(BECH.code.Step(w, Symbol(BECH.code, 20)),
                  [E("10010"), E("00110"), E("00100"), E("01001"), E("11011"), E("00110")])
  {
    MultiplesOf1();
    BitsAre(20, E("10100"));
    StepReads(w, [E("00001"), E("01111"), E("10000"), E("10000"), E("11100"), E("00110")], 20, E("10100"),
              Polynomial(),
              [E("10010"), E("00110"), E("00100"), E("01001"), E("11011"), E("00110")]);
  }

  lemma Step9(w: Word)
    requires Reads(w, [E("10010"), E("00110"), E("00100"), E("01001"), E("11011"), E("00110")])
    ensures Reads(BECH.code.Step(w, Symbol(BECH.code, 31)),
                  [E("00000"), E("00000"), E("00000"), E("00000"), E("00000"), E("00001")])
  {
    MultiplesOf18();
    BitsAre(31, E("11111"));
    StepReads(w, [E("10010"), E("00110"), E("00100"), E("01001"), E("11011"), E("00110")], 31, E("11111"),
              [E("00110"), E("00100"), E("01001"), E("11011"), E("00110"), E("11110")],
              [E("00000"), E("00000"), E("00000"), E("00000"), E("00000"), E("00001")]);
  }

  // --- the address ----------------------------------------------------------

  lemma SymbolReads(v: nat, symbol: Word)
    requires v < 32 && BitsOf(v, 5) == symbol
    ensures Reads(Symbol(BECH.code, v), [E("00000"), E("00000"), E("00000"), E("00000"), E("00000"), symbol])
  {
    var w := Symbol(BECH.code, v);
    forall j | 0 <= j < 5 ensures Digit(w, j) == E("00000") {}
  }

  lemma WideBits(code: Code, v: nat)
    requires code.Valid() && code.symbols == 6 && v < 32
    ensures BitsOf(v, 30) == Symbol(code, v)
  {
    BitsSplit(v, 25, 5);
    ShrFive(v);
    BitsOfZero(25);
  }

  lemma ReadsSame(a: Word, b: Word, ds: seq<Word>)
    requires Reads(a, ds) && Reads(b, ds)
    ensures a == b
  {
    forall i | 0 <= i < 30 ensures a[i] == b[i] {
      var j, k := i / 5, i % 5;
      DigitAt(a, j, k, i);
      DigitAt(b, j, k, i);
      assert Digit(a, j) == ds[j] == Digit(b, j);
    }
  }

  lemma DigitAt(w: Word, j: nat, k: nat, i: nat)
    requires 5 * j + 5 <= |w| && k < 5 && i == 5 * j + k
    ensures Digit(w, j)[k] == w[i]
  {
  }

  /** The three symbols of the human-readable part shift in. */
  lemma ThreeShifts(w: Word)
    requires Reads(w, [E("00000"), E("00000"), E("00000"), E("00000"), E("00000"), E("00001")])
    ensures var c := BECH.code;
            Reads(c.Step(c.Step(c.Step(w, Symbol(c, 3)), Symbol(c, 0)), Symbol(c, 1)),
                  [E("00000"), E("00000"), E("00001"), E("00011"), E("00000"), E("00001")])
  {
    var c := BECH.code;
    BitsAre(3, E("00011"));
    BitsAre(0, E("00000"));
    BitsAre(1, E("00001"));
    var w1 := c.Step(w, Symbol(c, 3));
    var w2 := c.Step(w1, Symbol(c, 0));
    ShiftReads(w, [E("00000"), E("00000"), E("00000"), E("00000"), E("00000"), E("00001")], 3, E("00011"),
               [E("00000"), E("00000"), E("00000"), E("00000"), E("00001"), E("00011")]);
    ShiftReads(w1, [E("00000"), E("00000"), E("00000"), E("00000"), E("00001"), E("00011")], 0, E("00000"),
               [E("00000"), E("00000"), E("00000"), E("00001"), E("00011"), E("00000")]);
    ShiftReads(w2, [E("00000"), E("00000"), E("00000"), E("00001"), E("00011"), E("00000")], 1, E("00001"),
               [E("00000"), E("00000"), E("00001"), E("00011"), E("00000"), E("00001")]);
  }

  /** So do the first two of the checksum; then coefficients begin to fall out. */
  lemma TwoShifts(w: Word)
    requires Reads(w, [E("00000"), E("00000"), E("00001"), E("00011"), E("00000"), E("00001")])
    ensures var c := BECH.code;
            Reads(c.Step(c.Step(w, Symbol(c, 10)), Symbol(c, 28)),
                  [E("00001"), E("00011"), E("00000"), E("00001"), E("01010"), E("11100")])
  {
    var c := BECH.code;
    BitsAre(10, E("01010"));
    BitsAre(28, E("11100"));
    var w1 := c.Step(w, Symbol(c, 10));
    ShiftReads(w, [E("00000"), E("00000"), E("00001"), E("00011"), E("00000"), E("00001")], 10, E("01010"),
               [E("00000"), E("00001"), E("00011"), E("00000"), E("00001"), E("01010")]);
    ShiftReads(w1, [E("00000"), E("00001"), E("00011"), E("00000"), E("00001"), E("01010")], 28, E("11100"),
               [E("00001"), E("00011"), E("00000"), E("00001"), E("01010"), E("11100")]);
  }

  lemma FourSteps(w: Word)
    requires Reads(w, [E("00001"), E("00011"), E("00000"), E("00001"), E("01010"), E("11100")])
    ensures var c := BECH.code;
            Reads(c.Step(c.Step(c.Step(c.Step(w, Symbol(c, 25)), Symbol(c, 31)), Symbol(c, 20)), Symbol(c, 31)),
                  [E("00000"), E("00000"), E("00000"), E("00000"), E("00000"), E("00001")])
  {
    var c := BECH.code;
    var w6 := c.Step(w, Symbol(c, 25));
    var w7 := c.Step(w6, Symbol(c, 31));
    var w8 := c.Step(w7, Symbol(c, 20));
    Step6(w);
    Step7(w6);
    Step8(w7);
    Step9(w8);
  }

  lemma FoldOnce(code: Code, c: Word, v: Word, vs: seq<Word>, rest: seq<Word>)
    requires code.Valid() && code.Fits(c) && code.Fits(v) && code.FitsAll(rest) && vs == [v] + rest
    ensures code.FitsAll(vs) && code.Fold(c, vs) == code.Fold(code.Step(c, v), rest)
  {
    assert vs[1..] == rest;
  }

  lemma FoldOne(code: Code, c: Word, v: Word)
    requires code.Valid() && code.Fits(c) && code.Fits(v)
    ensures code.FitsAll([v]) && code.Fold(c, [v]) == code.Step(c, v)
  {
    assert [v][1..] == [];
  }

  lemma FoldTwo(code: Code, c: Word, x: Word, y: Word, c1: Word)
    requires code.Valid() && code.Fits(c) && code.Fits(x) && code.Fits(y) && c1 == code.Step(c, x)
    ensures code.FitsAll([x, y]) && code.Fold(c, [x, y]) == code.Step(c1, y)
  {
    FoldOne(code, c1, y);
    FoldOnce(code, c, x, [x, y], [y]);
  }

  /** Three symbols. */
  lemma FoldThrice(code: Code, c: Word, x: Word, y: Word, z: Word, c1: Word, c2: Word, c3: Word)
    requires code.Valid() && code.Fits(c) && code.Fits(x) && code.Fits(y) && code.Fits(z)
    requires c1 == code.Step(c, x) && c2 == code.Step(c1, y) && c3 == code.Step(c2, z)
    ensures code.FitsAll([x, y, z]) && code.Fold(c, [x, y, z]) == c3
  {
    FoldTwo(code, c1, y, z, c2);
    FoldOnce(code, c, x, [x, y, z], [y, z]);
  }

  lemma ThreeSymbols(code: Code, a: int, b: int, c: int)
    requires code.Valid() && 0 <= a < 32 && 0 <= b < 32 && 0 <= c < 32
    ensures Symbols(code, [a, b, c]) == [Symbol(code, a), Symbol(code, b), Symbol(code, c)]
  {
    SymbolsAt(code, [a, b, c], 0);
    SymbolsAt(code, [a, b, c], 1);
    SymbolsAt(code, [a, b, c], 2);
  }

  lemma HrpOfSample()
    ensures BECH.Good()
    ensures BECH.HrpExpand("a") == [Symbol(BECH.code, 3), Symbol(BECH.code, 0), Symbol(BECH.code, 1)]
  {
    BechGood();
    WideBits(BECH.code, 3);
    WideBits(BECH.code, 0);
    WideBits(BECH.code, 1);
    BitsOfZero(30);
    assert "a"[1..] == "" && 'a' as int == 97;
    assert BECH.CharWords("a", true) == [BitsOf(3, 30)] && BECH.CharWords("a", false) == [BitsOf(1, 30)];
  }

  /** The register after "a", the separator and the six symbols is the constant of bech32. */
  lemma SampleResidue(vs: seq<int>)
    requires vs == [10, 28, 25, 31, 20, 31]
    ensures BECH.Good() && BECH.Residue("a", vs) == BECH.variants[0]
  {
    HrpOfSample();
    var c, one := BECH.code, BECH.one;
    WideBits(c, 1);
    BitsAre(1, E("00001"));
    SymbolReads(1, E("00001"));
    ThreeShifts(one);
    var a := c.Step(c.Step(c.Step(one, Symbol(c, 3)), Symbol(c, 0)), Symbol(c, 1));
    TwoShifts(a);
    FourSteps(c.Step(c.Step(a, Symbol(c, 10)), Symbol(c, 28)));
    FoldThrice(c, one, Symbol(c, 3), Symbol(c, 0), Symbol(c, 1),
               c.Step(one, Symbol(c, 3)), c.Step(c.Step(one, Symbol(c, 3)), Symbol(c, 0)), a);
    SixSymbols(a, vs);
    ReadsSame(BECH.Residue("a", vs), Symbol(c, 1),
              [E("00000"), E("00000"), E("00000"), E("00000"), E("00000"), E("00001")]);
  }

  lemma ThreeFolded(code: Code, w: Word, x: int, y: int, z: int)
    requires code.Valid() && code.Fits(w) && 0 <= x < 32 && 0 <= y < 32 && 0 <= z < 32
    ensures code.Fold(w, Symbols(code, [x, y, z]))
         == code.Step(code.Step(code.Step(w, Symbol(code, x)), Symbol(code, y)), Symbol(code, z))
  {
    ThreeSymbols(code, x, y, z);
    var w1 := code.Step(w, Symbol(code, x));
    var w2 := code.Step(w1, Symbol(code, y));
    FoldThrice(code, w, Symbol(code, x), Symbol(code, y), Symbol(code, z), w1, w2, code.Step(w2, Symbol(code, z)));
  }

  lemma SixSymbols(a: Word, vs: seq<int>)
    requires vs == [10, 28, 25, 31, 20, 31] && BECH.code.Fits(a)
    ensures Small(vs)
    ensures var c := BECH.code;
            c.Fold(a, Symbols(c, vs))
            == c.Step(c.Step(c.Step(c.Step(c.Step(c.Step(a, Symbol(c, 10)), Symbol(c, 28)), Symbol(c, 25)),
                                    Symbol(c, 31)), Symbol(c, 20)), Symbol(c, 31))
  {
    var c := BECH.code;
    assert vs == [10, 28, 25] + [31, 20, 31];
    FoldSymbols(c, a, [10, 28, 25], [31, 20, 31]);
    ThreeFolded(c, a, 10, 28, 25);
    ThreeFolded(c, c.Fold(a, Symbols(c, [10, 28, 25])), 31, 20, 31);
  }

  lemma SampleText(vs: seq<int>)
    requires vs == [10, 28, 25, 31, 20, 31] && Small(vs)
    ensures Chars(CHARSET, vs) == "2uel5l"
  {
  }

  lemma SampleSplit(a: string, vs: seq<int>)
    requires vs == [10, 28, 25, 31, 20, 31] && a == "a" + "1" + Chars(CHARSET, vs)
    ensures BECH.Good() && BECH.Split(a) == Ok(Parts("a", vs, BECH.variants[0]))
  {
    SampleResidue(vs);
    BECH.SplitOf("a", vs);
  }

  lemma DecodeOfSplit(a: string, vs: seq<int>)
    requires BECH.Good() && |vs| == 6 && BECH.Split(a) == Ok(Parts("a", vs, BECH.variants[0]))
    ensures DecodeAs(a, 0) == Ok(("a", []))
  {
    assert vs[..|vs| - 6] == [];
    NoData();
  }

  lemma NoData()
    ensures Regroup.Convert([], 5, 8, false) == Ok([])
  {
    assert Flatten([], 5) == [];
  }

  /** "a12uel5l" decodes as bech32, to "a" and no data. */
  lemma SampleDecodes(a: string)
    requires a == "a12uel5l"
    ensures DecodeAs(a, 0) == Ok(("a", []))
  {
    var vs: seq<int> := [10, 28, 25, 31, 20, 31];
    SampleText(vs);
    SampleSplit(a, vs);
    DecodeOfSplit(a, vs);
  }
}
