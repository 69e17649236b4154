/**
 * The BCH checksum register shared by bech32 (30 bits) and cashaddr (40 bits).
 * A word is a bit string, most significant bit first; a code shifts in one
 * word per symbol and folds the five bits that fall out back through five
 * generators.
 */
module Bch {
  import opened Bits
  import opened Alphabet

  type Word = seq<bool>

  datatype Code = Code(symbols: nat, gen: seq<nat>) {
    function Width(): nat { 5 * symbols }

    ghost predicate Valid() {
      symbols >= 1 && |gen| == 5
    }

    function Generator(i: nat): (r: Word)
      requires Valid() && i < 5
      ensures Fits(r)
    {
      BitsOf(gen[i], Width())
    }

    predicate Fits(w: Word) { |w| == Width() }

    ghost predicate FitsAll(ws: seq<Word>) { forall i :: 0 <= i < |ws| ==> Fits(ws[i]) }

    /** The generators named by the low `i` bits of `top`. */
    function Selected(top: Word, i: nat): (r: Word)
      requires Valid() && |top| == 5 && i <= 5
      ensures Fits(r)
    {
      if i == 0 then Zeros(Width())
      else if top[5 - i] then Xor(Selected(top, i - 1), Generator(i - 1))
      else Selected(top, i - 1)
    }

    function Step(chk: Word, value: Word): (r: Word)
      requires Valid() && Fits(chk) && Fits(value)
      ensures Fits(r)
    {
      Xor(Xor(chk[5..] + Zeros(5), value), Selected(chk[..5], 5))
    }

    function Fold(chk: Word, values: seq<Word>): (r: Word)
      requires Valid() && Fits(chk) && FitsAll(values)
      ensures Fits(r)
      decreases |values|
    {
      if values == [] then chk else Fold(Step(chk, values[0]), values[1..])
    }

    /** The selected generators leave nothing in the low five bits. */
    predicate Vanishes(top: Word)
      requires Valid()
    {
      |top| == 5 && Selected(top, 5)[Width() - 5..] == Zeros(5)
    }

    /** No choice of generators but the empty one does: the low five bits of the five are independent. */
    ghost predicate Injective()
      requires Valid()
    {
      forall top: Word :: Vanishes(top) ==> top == Zeros(5)
    }
  }

  function Xor(a: Word, b: Word): (r: Word)
    requires |a| == |b|
    ensures |r| == |a| && forall i :: 0 <= i < |a| ==> r[i] == (a[i] != b[i])
  {
    seq(|a|, i requires 0 <= i < |a| => a[i] != b[i])
  }

  /** The checksum loop of `_polymod` and `_cashaddr_ok`, from register content 1. */
  method Polymod(code: Code, one: Word, values: seq<Word>) returns (chk: Word)
    requires code.Valid() && code.Fits(one) && code.FitsAll(values)
    ensures chk == code.Fold(one, values)
  {
    chk := one;
    for k := 0 to |values|
      invariant code.Fits(chk)
      invariant code.Fold(chk, values[k..]) == code.Fold(one, values)
    {
      ghost var before := chk;
      var top := chk[..5];
      chk := Xor(chk[5..] + Zeros(5), values[k]);
      ghost var shifted := chk;
      for i := 0 to 5
        invariant chk == Xor(shifted, code.Selected(top, i))
      {
        if top[4 - i] {
          XorAssoc(shifted, code.Selected(top, i), code.Generator(i));
          chk := Xor(chk, code.Generator(i));
        }
      }
      assert chk == code.Step(before, values[k]);
      assert values[k..][0] == values[k] && values[k..][1..] == values[k + 1..];
    }
  }

  // --- algebra of Xor -----------------------------------------------------

  lemma XorAssoc(a: Word, b: Word, c: Word)
    requires |a| == |b| == |c|
    ensures Xor(Xor(a, b), c) == Xor(a, Xor(b, c))
  {
  }

  lemma XorShuffle(a: Word, b: Word, c: Word, d: Word)
    requires |a| == |b| == |c| == |d|
    ensures Xor(Xor(a, b), Xor(c, d)) == Xor(Xor(a, c), Xor(b, d))
  {
  }

  lemma XorSelf(a: Word, b: Word)
    requires |a| == |b|
    ensures Xor(a, b) == Zeros(|a|) <==> a == b
    ensures Xor(a, Zeros(|a|)) == a && Xor(Zeros(|a|), a) == a
    ensures Xor(a, Xor(a, b)) == b
  {
    if Xor(a, b) == Zeros(|a|) {
      forall i | 0 <= i < |a| ensures a[i] == b[i] {
        assert Zeros(|a|)[i] == Xor(a, b)[i];
      }
    }
  }

  lemma XorShift(a: Word, b: Word)
    requires |a| == |b| >= 5
    ensures Xor(a, b)[5..] + Zeros(5) == Xor(a[5..] + Zeros(5), b[5..] + Zeros(5))
    ensures Xor(a, b)[..5] == Xor(a[..5], b[..5])
  {
  }

  // --- the register is linear ---------------------------------------------

  lemma {:induction false} SelectedLinear(code: Code, s: Word, t: Word, i: nat)
    requires code.Valid() && |s| == |t| == 5 && i <= 5
    ensures Xor(code.Selected(s, i), code.Selected(t, i)) == code.Selected(Xor(s, t), i)
  {
    if i > 0 {
      SelectedLinear(code, s, t, i - 1);
    }
  }

  lemma StepLinear(code: Code, c: Word, d: Word, v: Word, w: Word)
    requires code.Valid() && code.Fits(c) && code.Fits(d) && code.Fits(v) && code.Fits(w)
    ensures Xor(code.Step(c, v), code.Step(d, w)) == code.Step(Xor(c, d), Xor(v, w))
  {
    SelectedLinear(code, c[..5], d[..5], 5);
    XorShift(c, d);
    var a, b := c[5..] + Zeros(5), d[5..] + Zeros(5);
    XorShuffle(a, v, b, w);
    XorShuffle(Xor(a, v), code.Selected(c[..5], 5), Xor(b, w), code.Selected(d[..5], 5));
  }

  function XorAll(vs: seq<Word>, ws: seq<Word>): (r: seq<Word>)
    requires |vs| == |ws| && forall i :: 0 <= i < |vs| ==> |vs[i]| == |ws[i]|
    ensures |r| == |vs| && forall i :: 0 <= i < |vs| ==> r[i] == Xor(vs[i], ws[i])
  {
    seq(|vs|, i requires 0 <= i < |vs| => Xor(vs[i], ws[i]))
  }

  lemma {:induction false} FoldLinear(code: Code, c: Word, d: Word, vs: seq<Word>, ws: seq<Word>)
    requires code.Valid() && code.Fits(c) && code.Fits(d)
    requires code.FitsAll(vs) && code.FitsAll(ws) && |vs| == |ws|
    ensures Xor(code.Fold(c, vs), code.Fold(d, ws)) == code.Fold(Xor(c, d), XorAll(vs, ws))
    decreases |vs|
  {
    if vs != [] {
      StepLinear(code, c, d, vs[0], ws[0]);
      FoldLinear(code, code.Step(c, vs[0]), code.Step(d, ws[0]), vs[1..], ws[1..]);
      assert XorAll(vs, ws)[1..] == XorAll(vs[1..], ws[1..]);
    }
  }

  lemma {:induction false} FoldConcat(code: Code, c: Word, vs: seq<Word>, ws: seq<Word>)
    requires code.Valid() && code.Fits(c) && code.FitsAll(vs) && code.FitsAll(ws)
    ensures code.FitsAll(vs + ws)
    ensures code.Fold(c, vs + ws) == code.Fold(code.Fold(c, vs), ws)
    decreases |vs|
  {
    if vs == [] {
      assert vs + ws == ws;
    } else {
      FoldConcat(code, code.Step(c, vs[0]), vs[1..], ws);
      assert (vs + ws)[1..] == vs[1..] + ws;
    }
  }

  /** Each bit of the folded-back word is the parity of the selected generators' bits. */
  lemma SelectedBit(code: Code, top: Word, k: nat)
    requires code.Valid() && |top| == 5 && k < code.Width()
    ensures code.Selected(top, 5)[k]
            == (((((top[4] && code.Generator(0)[k]) != (top[3] && code.Generator(1)[k]))
                 != (top[2] && code.Generator(2)[k]))
                != (top[1] && code.Generator(3)[k])) != (top[0] && code.Generator(4)[k]))
  {
    var a, b, c := code.Selected(top, 1), code.Selected(top, 2), code.Selected(top, 3);
    assert !code.Selected(top, 0)[k];
    assert a[k] == (top[4] && code.Generator(0)[k]);
    assert b[k] == (a[k] != (top[3] && code.Generator(1)[k]));
    assert c[k] == (b[k] != (top[2] && code.Generator(2)[k]));
    var d := code.Selected(top, 4);
    assert d[k] == (c[k] != (top[1] && code.Generator(3)[k]));
  }

  /** Bit `j` (0 the lowest) of the folded-back word, from the generators' own bits. */
  predicate Parity(code: Code, top: Word, j: nat)
    requires code.Valid() && |top| == 5
  {
    ((((top[4] && Shr(code.gen[0], j) % 2 == 1) != (top[3] && Shr(code.gen[1], j) % 2 == 1))
      != (top[2] && Shr(code.gen[2], j) % 2 == 1)) != (top[1] && Shr(code.gen[3], j) % 2 == 1))
      != (top[0] && Shr(code.gen[4], j) % 2 == 1)
  }

  lemma ParityZero(code: Code, top: Word, j: nat)
    requires code.Valid() && |top| == 5 && j < 5
    requires code.Selected(top, 5)[code.Width() - 5..] == Zeros(5)
    ensures !Parity(code, top, j)
  {
    var n := code.Width();
    SelectedBit(code, top, n - 1 - j);
    assert code.Selected(top, 5)[n - 5..][4 - j] == Zeros(5)[4 - j];
    BitAt(code.gen[0], n, j);
    BitAt(code.gen[1], n, j);
    BitAt(code.gen[2], n, j);
    BitAt(code.gen[3], n, j);
    BitAt(code.gen[4], n, j);
  }

  // --- a step is injective in the register --------------------------------

  lemma StepKernel(code: Code, x: Word)
    requires code.Valid() && code.Injective() && code.Fits(x)
    requires code.Step(x, Zeros(code.Width())) == Zeros(code.Width())
    ensures x == Zeros(code.Width())
  {
    var w := code.Width();
    var shifted, folded := x[5..] + Zeros(5), code.Selected(x[..5], 5);
    XorSelf(shifted, folded);
    assert shifted == folded;
    assert shifted[w - 5..] == Zeros(5);
    assert code.Vanishes(x[..5]);
    SelectedNothing(code, 5);
    assert x[5..] == shifted[..w - 5];
    assert x == Zeros(5) + Zeros(w)[..w - 5];
  }

  lemma StepInjective(code: Code, c: Word, d: Word, v: Word)
    requires code.Valid() && code.Injective() && code.Fits(c) && code.Fits(d) && code.Fits(v)
    requires code.Step(c, v) == code.Step(d, v)
    ensures c == d
  {
    StepLinear(code, c, d, v, v);
    XorSelf(v, v);
    XorSelf(code.Step(c, v), code.Step(d, v));
    StepKernel(code, Xor(c, d));
    XorSelf(c, d);
  }

  lemma {:induction false} SelectedNothing(code: Code, i: nat)
    requires code.Valid() && i <= 5
    ensures code.Selected(Zeros(5), i) == Zeros(code.Width())
  {
    if i > 0 { SelectedNothing(code, i - 1); }
  }

  lemma {:induction false} FoldInjective(code: Code, c: Word, d: Word, vs: seq<Word>)
    requires code.Valid() && code.Injective() && code.Fits(c) && code.Fits(d) && code.FitsAll(vs)
    requires code.Fold(c, vs) == code.Fold(d, vs)
    ensures c == d
    decreases |vs|
  {
    if vs != [] {
      FoldInjective(code, code.Step(c, vs[0]), code.Step(d, vs[0]), vs[1..]);
      StepInjective(code, c, d, vs[0]);
    }
  }

  // --- up to `symbols` five-bit symbols fit in the register ----------------

  /** A five-bit symbol as a register-wide word. */
  function Symbol(code: Code, d: int): (r: Word)
    requires code.Valid() && 0 <= d < 32
    ensures code.Fits(r)
  {
    Zeros(code.Width() - 5) + BitsOf(d, 5)
  }

  function Symbols(code: Code, ds: seq<int>): (r: seq<Word>)
    requires code.Valid() && Small(ds)
    ensures |r| == |ds| && code.FitsAll(r)
  {
    if ds == [] then [] else [Symbol(code, ds[0])] + Symbols(code, ds[1..])
  }

  lemma {:induction false} SymbolsAt(code: Code, ds: seq<int>, i: nat)
    requires code.Valid() && Small(ds) && i < |ds|
    ensures Symbols(code, ds)[i] == Symbol(code, ds[i])
  {
    if i > 0 { SymbolsAt(code, ds[1..], i - 1); }
  }

  lemma {:induction false} SymbolsConcat(code: Code, ds: seq<int>, es: seq<int>)
    requires code.Valid() && Small(ds) && Small(es)
    ensures Symbols(code, ds + es) == Symbols(code, ds) + Symbols(code, es)
  {
    if ds == [] {
      assert ds + es == es;
    } else {
      SymbolsConcat(code, ds[1..], es);
      assert (ds + es)[1..] == ds[1..] + es;
    }
  }

  lemma FoldSymbols(code: Code, c: Word, ds: seq<int>, es: seq<int>)
    requires code.Valid() && code.Fits(c) && Small(ds) && Small(es)
    ensures code.Fold(c, Symbols(code, ds + es)) == code.Fold(code.Fold(c, Symbols(code, ds)), Symbols(code, es))
  {
    FoldConcat(code, c, Symbols(code, ds), Symbols(code, es));
    SymbolsConcat(code, ds, es);
  }

  lemma FoldThree(code: Code, c: Word, ds: seq<int>, es: seq<int>, fs: seq<int>)
    requires code.Valid() && code.Fits(c) && Small(ds) && Small(es) && Small(fs)
    ensures code.Fold(c, Symbols(code, ds + es + fs))
            == code.Fold(code.Fold(code.Fold(c, Symbols(code, ds)), Symbols(code, es)), Symbols(code, fs))
  {
    FoldSymbols(code, c, ds, es);
    FoldSymbols(code, c, ds + es, fs);
  }

  /** Agreement outside a window, as a three-way split. */
  lemma ThreeParts(vs: seq<int>, ws: seq<int>, lo: nat, hi: nat)
    returns (pre: seq<int>, ds: seq<int>, es: seq<int>, post: seq<int>)
    requires Small(vs) && Small(ws) && |vs| == |ws| && lo <= hi <= |vs|
    requires forall j :: 0 <= j < |vs| && !(lo <= j < hi) ==> vs[j] == ws[j]
    ensures Small(pre) && Small(ds) && Small(es) && Small(post) && |ds| == |es| == hi - lo
    ensures vs == pre + ds + post && ws == pre + es + post
  {
    pre, ds, es, post := vs[..lo], vs[lo..hi], ws[lo..hi], vs[hi..];
  }

  /**
   * Error detection: two symbol strings that differ only inside a window of
   * `symbols` positions and leave the register in the same state are equal.
   */
  lemma WindowDetected(code: Code, c: Word, vs: seq<int>, ws: seq<int>, lo: nat, hi: nat)
    requires code.Valid() && code.Injective() && code.Fits(c) && Small(vs) && Small(ws) && |vs| == |ws|
    requires lo <= hi <= |vs| && hi - lo <= code.symbols
    requires forall j :: 0 <= j < |vs| && !(lo <= j < hi) ==> vs[j] == ws[j]
    requires code.Fold(c, Symbols(code, vs)) == code.Fold(c, Symbols(code, ws))
    ensures vs == ws
  {
    var pre, ds, es, post := ThreeParts(vs, ws, lo, hi);
    MiddleUnique(code, c, vs, ws, pre, ds, es, post);
  }

  lemma MiddleUnique(code: Code, c: Word, vs: seq<int>, ws: seq<int>,
                     pre: seq<int>, ds: seq<int>, es: seq<int>, post: seq<int>)
    requires code.Valid() && code.Injective() && code.Fits(c) && Small(vs) && Small(ws)
    requires Small(pre) && Small(ds) && Small(es) && Small(post) && |ds| == |es| <= code.symbols
    requires vs == pre + ds + post && ws == pre + es + post
    requires code.Fold(c, Symbols(code, vs)) == code.Fold(c, Symbols(code, ws))
    ensures ds == es
  {
    FoldThree(code, c, pre, ds, post);
    FoldThree(code, c, pre, es, post);
    WindowUnique(code, code.Fold(c, Symbols(code, pre)), ds, es, Symbols(code, post));
  }

  /** Only the low five bits of a word may be set. */
  predicate LowWord(code: Code, w: Word)
    requires code.Valid()
  {
    code.Fits(w) && w[..code.Width() - 5] == Zeros(code.Width() - 5)
  }

  ghost predicate LowWords(code: Code, ws: seq<Word>)
    requires code.Valid()
  {
    forall i :: 0 <= i < |ws| ==> LowWord(code, ws[i])
  }

  /** The low five bits of each word, side by side. */
  function Packed(code: Code, ws: seq<Word>): (r: Word)
    requires code.Valid() && LowWords(code, ws)
    ensures |r| == 5 * |ws|
  {
    if ws == [] then [] else ws[0][code.Width() - 5..] + Packed(code, ws[1..])
  }

  lemma PackStep(code: Code, held: Word, w: Word)
    requires code.Valid() && LowWord(code, w) && |held| + 5 <= code.Width()
    ensures code.Step(Zeros(code.Width() - |held|) + held, w)
            == Zeros(code.Width() - |held| - 5) + (held + w[code.Width() - 5..])
  {
    var n := code.Width();
    var chk := Zeros(n - |held|) + held;
    assert chk[..5] == Zeros(5);
    SelectedNothing(code, 5);
    var shifted := chk[5..] + Zeros(5);
    assert shifted == Zeros(n - |held| - 5) + (held + Zeros(5));
    assert w == Zeros(n - 5) + w[n - 5..];
    XorSelf(Xor(shifted, w), Zeros(n));
    assert Xor(shifted, w) == Zeros(n - |held| - 5) + (held + w[n - 5..]);
  }

  lemma {:induction false} FoldPacks(code: Code, held: Word, ws: seq<Word>)
    requires code.Valid() && LowWords(code, ws) && |held| + 5 * |ws| <= code.Width()
    ensures code.Fold(Zeros(code.Width() - |held|) + held, ws)
            == Zeros(code.Width() - |held| - 5 * |ws|) + (held + Packed(code, ws))
    decreases |ws|
  {
    if ws == [] {
      assert held + [] == held;
    } else {
      var low := ws[0][code.Width() - 5..];
      PackStep(code, held, ws[0]);
      FoldPacks(code, held + low, ws[1..]);
      assert (held + low) + Packed(code, ws[1..]) == held + (low + Packed(code, ws[1..]));
    }
  }

  lemma {:induction false} PackedZero(code: Code, ws: seq<Word>)
    requires code.Valid() && LowWords(code, ws) && Packed(code, ws) == Zeros(5 * |ws|)
    ensures forall i :: 0 <= i < |ws| ==> ws[i] == Zeros(code.Width())
    decreases |ws|
  {
    if ws != [] {
      var low := ws[0][code.Width() - 5..];
      TakeDrop(low, Packed(code, ws[1..]));
      assert Zeros(5 * |ws|)[..5] == Zeros(5);
      assert Zeros(5 * |ws|)[5..] == Zeros(5 * |ws[1..]|);
      PackedZero(code, ws[1..]);
      assert ws[0] == ws[0][..code.Width() - 5] + low;
    }
  }

  lemma SymbolLow(code: Code, d: int, e: int)
    requires code.Valid() && 0 <= d < 32 && 0 <= e < 32
    ensures LowWord(code, Symbol(code, d)) && LowWord(code, Xor(Symbol(code, d), Symbol(code, e)))
    ensures Xor(Symbol(code, d), Symbol(code, e)) == Zeros(code.Width()) ==> d == e
  {
    var n := code.Width();
    XorSelf(Symbol(code, d), Symbol(code, e));
    if Symbol(code, d) == Symbol(code, e) {
      assert Symbol(code, d)[n - 5..] == BitsOf(d, 5) && Symbol(code, e)[n - 5..] == BitsOf(e, 5);
      ValueOfBits(d, 5);
      ValueOfBits(e, 5);
    }
    assert Xor(Symbol(code, d), Symbol(code, e))[..n - 5] == Zeros(n - 5);
  }

  /** Started from the same content, two runs differ by the run of the difference. */
  lemma FoldDifference(code: Code, c: Word, vs: seq<Word>, ws: seq<Word>)
    requires code.Valid() && code.Fits(c) && code.FitsAll(vs) && code.FitsAll(ws) && |vs| == |ws|
    ensures Xor(code.Fold(c, vs), code.Fold(c, ws)) == code.Fold(Zeros(code.Width()), XorAll(vs, ws))
  {
    FoldLinear(code, c, c, vs, ws);
    XorSelf(c, c);
  }

  lemma FoldFromZero(code: Code, ws: seq<Word>)
    requires code.Valid() && LowWords(code, ws) && |ws| <= code.symbols
    ensures code.Fold(Zeros(code.Width()), ws) == Zeros(code.Width() - 5 * |ws|) + Packed(code, ws)
  {
    FoldPacks(code, [], ws);
    assert Zeros(code.Width()) + [] == Zeros(code.Width());
    assert [] + Packed(code, ws) == Packed(code, ws);
  }

  lemma SymbolDifferencesLow(code: Code, ds: seq<int>, es: seq<int>)
    requires code.Valid() && Small(ds) && Small(es) && |ds| == |es|
    ensures LowWords(code, XorAll(Symbols(code, ds), Symbols(code, es)))
  {
    forall i | 0 <= i < |ds|
      ensures LowWord(code, XorAll(Symbols(code, ds), Symbols(code, es))[i])
    {
      SymbolsAt(code, ds, i);
      SymbolsAt(code, es, i);
      SymbolLow(code, ds[i], es[i]);
    }
  }

  /**
   * Two symbol strings that agree outside a window of at most `symbols`
   * positions and leave the register in the same state are equal.
   */
  lemma WindowUnique(code: Code, c: Word, ds: seq<int>, es: seq<int>, tail: seq<Word>)
    requires code.Valid() && code.Injective() && code.Fits(c) && code.FitsAll(tail)
    requires Small(ds) && Small(es) && |ds| == |es| <= code.symbols
    requires code.Fold(code.Fold(c, Symbols(code, ds)), tail) == code.Fold(code.Fold(c, Symbols(code, es)), tail)
    ensures ds == es
  {
    var vs, ws := Symbols(code, ds), Symbols(code, es);
    FoldInjective(code, code.Fold(c, vs), code.Fold(c, ws), tail);
    FoldDifference(code, c, vs, ws);
    XorSelf(code.Fold(c, vs), code.Fold(c, ws));
    SymbolDifferencesLow(code, ds, es);
    NoDifference(code, XorAll(vs, ws));
    forall i | 0 <= i < |ds| ensures ds[i] == es[i] {
      SymbolsAt(code, ds, i);
      SymbolsAt(code, es, i);
      SymbolLow(code, ds[i], es[i]);
    }
  }

  lemma NoDifference(code: Code, xs: seq<Word>)
    requires code.Valid() && LowWords(code, xs) && |xs| <= code.symbols
    requires code.Fold(Zeros(code.Width()), xs) == Zeros(code.Width())
    ensures forall i :: 0 <= i < |xs| ==> xs[i] == Zeros(code.Width())
  {
    var n := code.Width();
    FoldFromZero(code, xs);
    TakeDrop(Zeros(n - 5 * |xs|), Packed(code, xs));
    assert Zeros(n)[n - 5 * |xs|..] == Zeros(5 * |xs|);
    PackedZero(code, xs);
  }

  /**
   * The checksum: the `symbols` symbols that, appended to anything, bring the
   * register to `target`.
   */
  function Checksum(code: Code, chk: Word, target: Word): (cs: seq<int>)
    requires code.Valid() && code.Fits(chk) && code.Fits(target)
    ensures Small(cs)
  {
    Chunk(Xor(code.Fold(chk, Symbols(code, seq(code.symbols, _ => 0))), target), 5)
  }

  lemma ChecksumReachesTarget(code: Code, c: Word, target: Word)
    requires code.Valid() && code.Fits(c) && code.Fits(target)
    ensures |Checksum(code, c, target)| == code.symbols
    ensures code.Fold(c, Symbols(code, Checksum(code, c, target))) == target
  {
    var zs := Symbols(code, seq(code.symbols, _ => 0));
    var base := code.Fold(c, zs);
    var cs := Checksum(code, c, target);
    ChunkLength(Xor(base, target), code.symbols);
    FlattenOfChunk(Xor(base, target), 5);
    XorZeros(code, cs);
    var reached := code.Fold(c, Symbols(code, cs));
    FoldDifference(code, c, zs, Symbols(code, cs));
    SymbolsFold(code, cs);
    XorCancels(base, reached, target);
  }

  lemma XorCancels(base: Word, reached: Word, target: Word)
    requires |base| == |reached| == |target| && Xor(base, reached) == Xor(base, target)
    ensures reached == target
  {
    XorSelf(base, target);
    XorSelf(base, reached);
  }

  lemma XorZeros(code: Code, cs: seq<int>)
    requires code.Valid() && Small(cs) && |cs| == code.symbols
    ensures XorAll(Symbols(code, seq(code.symbols, _ => 0)), Symbols(code, cs)) == Symbols(code, cs)
  {
    ZeroSymbol(code);
    var zs := seq(code.symbols, _ => 0);
    forall i | 0 <= i < |cs| ensures Xor(Symbols(code, zs)[i], Symbols(code, cs)[i]) == Symbols(code, cs)[i] {
      SymbolsAt(code, zs, i);
      SymbolsAt(code, cs, i);
      XorSelf(Symbol(code, cs[i]), Symbol(code, cs[i]));
    }
  }

  lemma SymbolsFold(code: Code, cs: seq<int>)
    requires code.Valid() && Small(cs) && |cs| == code.symbols
    ensures code.Fold(Zeros(code.Width()), Symbols(code, cs)) == Flatten(cs, 5)
  {
    forall i | 0 <= i < |cs| ensures LowWord(code, Symbols(code, cs)[i]) {
      SymbolsAt(code, cs, i);
      SymbolLow(code, cs[i], cs[i]);
    }
    FoldFromZero(code, Symbols(code, cs));
    PackedFlatten(code, cs);
    assert Zeros(0) + Flatten(cs, 5) == Flatten(cs, 5);
  }

  lemma ZeroSymbol(code: Code)
    requires code.Valid()
    ensures Symbol(code, 0) == Zeros(code.Width())
  {
    BitsOfZero(5);
  }

  lemma {:induction false} ChunkLength(bs: seq<bool>, k: nat)
    requires |bs| == 5 * k
    ensures |Chunk(bs, 5)| == k && Rest(bs, 5) == []
  {
    if k > 0 { ChunkLength(bs[5..], k - 1); }
  }

  lemma {:induction false} PackedFlatten(code: Code, ds: seq<int>)
    requires code.Valid() && Small(ds) && LowWords(code, Symbols(code, ds))
    ensures Packed(code, Symbols(code, ds)) == Flatten(ds, 5)
  {
    if ds != [] {
      assert Symbols(code, ds)[1..] == Symbols(code, ds[1..]);
      PackedFlatten(code, ds[1..]);
    }
  }
}
