/** Big-endian bit strings: the bits of a number, and lists of w-bit digits as one string. */
module Bits {
  import opened Common

  /** `x << n`. */
  function Shl(x: nat, n: nat): nat {
    if n == 0 then x else 2 * Shl(x, n - 1)
  }

  /** `x >> n`. */
  function Shr(x: nat, n: nat): nat {
    if n == 0 then x else Shr(x / 2, n - 1)
  }

  /** `x & (2^n - 1)`. */
  function Low(x: nat, n: nat): (r: nat)
    ensures r < Pow2(n)
  {
    if n == 0 then 0 else 2 * Low(x / 2, n - 1) + x % 2
  }

  /** The low `n` bits of `x`, most significant first. */
  function BitsOf(x: nat, n: nat): (r: seq<bool>)
    ensures |r| == n
  {
    if n == 0 then [] else BitsOf(x / 2, n - 1) + [x % 2 == 1]
  }

  function ValueOf(bs: seq<bool>): (v: nat)
    ensures v < Pow2(|bs|)
  {
    if bs == [] then 0
    else 2 * ValueOf(bs[..|bs| - 1]) + (if bs[|bs| - 1] then 1 else 0)
  }

  function Zeros(n: nat): (r: seq<bool>)
    ensures |r| == n
  {
    seq(n, _ => false)
  }

  lemma TakeDrop<T>(a: seq<T>, b: seq<T>)
    ensures (a + b)[..|a|] == a && (a + b)[|a|..] == b
  {
  }

  lemma {:induction false} BitsOfValue(bs: seq<bool>)
    ensures BitsOf(ValueOf(bs), |bs|) == bs
  {
    if bs != [] {
      BitsOfValue(bs[..|bs| - 1]);
      assert ValueOf(bs) / 2 == ValueOf(bs[..|bs| - 1]);
      assert bs == bs[..|bs| - 1] + [bs[|bs| - 1]];
    }
  }

  lemma {:induction false} ValueOfBits(x: nat, n: nat)
    requires x < Pow2(n)
    ensures ValueOf(BitsOf(x, n)) == x
  {
    if n > 0 {
      ValueOfBits(x / 2, n - 1);
      TakeDrop(BitsOf(x / 2, n - 1), [x % 2 == 1]);
    }
  }

  /** Shifting left by `f` and adding an `f`-bit value appends that value's bits. */
  lemma {:induction false} BitsAppend(a: nat, v: nat, b: nat, f: nat)
    requires v < Pow2(f)
    ensures BitsOf(Shl(a, f) + v, b + f) == BitsOf(a, b) + BitsOf(v, f)
    decreases f
  {
    if f > 0 {
      var x := Shl(a, f) + v;
      assert x / 2 == Shl(a, f - 1) + v / 2 && x % 2 == v % 2;
      BitsAppend(a, v / 2, b, f - 1);
      assert b + f - 1 == b + (f - 1);
      var hi, lo, last := BitsOf(a, b), BitsOf(v / 2, f - 1), [v % 2 == 1];
      assert (hi + lo) + last == hi + (lo + last);
    }
  }

  lemma {:induction false} BitsSplit(x: nat, c: nat, d: nat)
    ensures BitsOf(x, c + d) == BitsOf(Shr(x, d), c) + BitsOf(x, d)
    decreases d
  {
    if d > 0 {
      BitsSplit(x / 2, c, d - 1);
      var hi, lo, last := BitsOf(Shr(x, d), c), BitsOf(x / 2, d - 1), [x % 2 == 1];
      assert c + d - 1 == c + (d - 1);
      assert (hi + lo) + last == hi + (lo + last);
    }
  }

  lemma {:induction false} BitsLow(x: nat, n: nat)
    ensures BitsOf(Low(x, n), n) == BitsOf(x, n)
  {
    if n > 0 {
      BitsLow(x / 2, n - 1);
    }
  }

  lemma {:induction false} BitsOfZero(n: nat)
    ensures BitsOf(0, n) == Zeros(n)
  {
    if n > 0 {
      BitsOfZero(n - 1);
    }
  }

  lemma {:induction false} BitAt(x: nat, n: nat, k: nat)
    requires k < n
    ensures BitsOf(x, n)[n - 1 - k] == (Shr(x, k) % 2 == 1)
    decreases n
  {
    if k > 0 { BitAt(x / 2, n - 1, k - 1); }
  }

  lemma {:induction false} ShrNext(x: nat, n: nat)
    ensures Shr(x, n + 1) == Shr(x, n) / 2
  {
    if n > 0 { ShrNext(x / 2, n - 1); }
  }

  /** The value of the low five bits. */
  lemma LowFive(x: nat)
    ensures x % 32 == x % 2 + 2 * (Shr(x, 1) % 2) + 4 * (Shr(x, 2) % 2)
                      + 8 * (Shr(x, 3) % 2) + 16 * (Shr(x, 4) % 2)
  {
    ShrNext(x, 0);
    ShrNext(x, 1);
    ShrNext(x, 2);
    ShrNext(x, 3);
    FiveHalvings(x, Shr(x, 1), Shr(x, 2), Shr(x, 3), Shr(x, 4));
  }

  lemma FiveHalvings(x: nat, a: nat, b: nat, c: nat, d: nat)
    requires a == x / 2 && b == a / 2 && c == b / 2 && d == c / 2
    ensures x % 32 == x % 2 + 2 * (a % 2) + 4 * (b % 2) + 8 * (c % 2) + 16 * (d % 2)
  {
    var e := d / 2;
    assert d == 2 * e + d % 2;
    assert c == 4 * e + 2 * (d % 2) + c % 2;
    assert b == 8 * e + 4 * (d % 2) + 2 * (c % 2) + b % 2;
    assert a == 16 * e + 8 * (d % 2) + 4 * (c % 2) + 2 * (b % 2) + a % 2;
    DivUnique(x, 32, e, x % 2 + 2 * (a % 2) + 4 * (b % 2) + 8 * (c % 2) + 16 * (d % 2));
  }

  function Bit(b: bool): nat { if b then 1 else 0 }

  lemma ValueOfFive(w: seq<bool>)
    requires |w| == 5
    ensures ValueOf(w) == 16 * Bit(w[0]) + 8 * Bit(w[1]) + 4 * Bit(w[2]) + 2 * Bit(w[3]) + Bit(w[4])
  {
    assert w[..4][..3] == w[..3] && w[..3][..2] == w[..2] && w[..2][..1] == w[..1] && w[..1][..0] == [];
    assert ValueOf(w[..1]) == Bit(w[0]);
    assert ValueOf(w[..2]) == 2 * ValueOf(w[..1]) + Bit(w[1]);
    assert ValueOf(w[..3]) == 2 * ValueOf(w[..2]) + Bit(w[2]);
    assert ValueOf(w[..4]) == 2 * ValueOf(w[..3]) + Bit(w[3]);
  }

  predicate Digits(ds: seq<int>, w: nat) {
    forall i :: 0 <= i < |ds| ==> 0 <= ds[i] < Pow2(w)
  }

  /** The digits' bits, one after another. */
  function Flatten(ds: seq<int>, w: nat): seq<bool>
    requires Digits(ds, w)
  {
    if ds == [] then [] else BitsOf(ds[0], w) + Flatten(ds[1..], w)
  }

  /** Cut into whole groups of `w` bits; what is left over at the end is dropped. */
  function Chunk(bs: seq<bool>, w: nat): (r: seq<int>)
    requires w > 0
    ensures Digits(r, w)
    decreases |bs|
  {
    if |bs| < w then [] else [ValueOf(bs[..w])] + Chunk(bs[w..], w)
  }

  /** The bits `Chunk` drops. */
  function Rest(bs: seq<bool>, w: nat): (r: seq<bool>)
    requires w > 0
    ensures |r| < w
    decreases |bs|
  {
    if |bs| < w then bs else Rest(bs[w..], w)
  }

  lemma {:induction false} AppendDigit(ds: seq<int>, d: int, w: nat)
    requires Digits(ds, w) && 0 <= d < Pow2(w)
    ensures Digits(ds + [d], w) && Flatten(ds + [d], w) == Flatten(ds, w) + BitsOf(d, w)
  {
    if ds == [] {
      assert ds + [d] == [d];
      assert [d][1..] == [];
      assert Flatten([d], w) == BitsOf(d, w) + [];
    } else {
      AppendDigit(ds[1..], d, w);
      assert ds + [d] == [ds[0]] + (ds[1..] + [d]);
      FlattenCons(ds[0], ds[1..] + [d], w);
      Assoc(BitsOf(ds[0], w), Flatten(ds[1..], w), BitsOf(d, w));
    }
  }

  /** Digits followed by fewer than `w` bits are recovered by cutting. */
  lemma {:induction false} ChunkOfFlatten(ds: seq<int>, w: nat, tail: seq<bool>)
    requires Digits(ds, w) && |tail| < w
    ensures Chunk(Flatten(ds, w) + tail, w) == ds
    ensures Rest(Flatten(ds, w) + tail, w) == tail
  {
    if ds == [] {
      assert [] + tail == tail;
    } else {
      ChunkOfFlatten(ds[1..], w, tail);
      ValueOfBits(ds[0], w);
      var a, b := BitsOf(ds[0], w), Flatten(ds[1..], w);
      assert (a + b) + tail == a + (b + tail);
      TakeDrop(a, b + tail);
      assert ds == [ds[0]] + ds[1..];
    }
  }

  lemma {:induction false} FlattenOfChunk(bs: seq<bool>, w: nat)
    requires w > 0
    ensures Flatten(Chunk(bs, w), w) + Rest(bs, w) == bs
    decreases |bs|
  {
    if |bs| < w {
      assert [] + bs == bs;
    } else {
      FlattenOfChunk(bs[w..], w);
      ChunkJoins(bs, bs[..w], bs[w..], Chunk(bs[w..], w), Rest(bs[w..], w), w);
    }
  }

  lemma ChunkJoins(bs: seq<bool>, head: seq<bool>, tail: seq<bool>, ds: seq<int>, rest: seq<bool>, w: nat)
    requires 0 < w <= |bs| && head == bs[..w] && tail == bs[w..] && ds == Chunk(tail, w) && rest == Rest(tail, w)
    requires Flatten(ds, w) + rest == tail
    ensures Flatten(Chunk(bs, w), w) + Rest(bs, w) == bs
  {
    ChunkStep(bs, w);
    BitsOfValue(head);
    JoinHead(ValueOf(head), head, ds, rest, tail, w);
    assert head + tail == bs;
  }

  lemma JoinHead(d: nat, head: seq<bool>, ds: seq<int>, rest: seq<bool>, tail: seq<bool>, w: nat)
    requires d < Pow2(w) && BitsOf(d, w) == head && Digits(ds, w) && Flatten(ds, w) + rest == tail
    ensures Digits([d] + ds, w) && Flatten([d] + ds, w) + rest == head + tail
  {
    FlattenCons(d, ds, w);
    Assoc(head, Flatten(ds, w), rest);
  }

  lemma ChunkStep(bs: seq<bool>, w: nat)
    requires 0 < w <= |bs|
    ensures Chunk(bs, w) == [ValueOf(bs[..w])] + Chunk(bs[w..], w) && Rest(bs, w) == Rest(bs[w..], w)
  {
  }

  lemma FlattenCons(d: int, ds: seq<int>, w: nat)
    requires Digits(ds, w) && 0 <= d < Pow2(w)
    ensures Digits([d] + ds, w) && Flatten([d] + ds, w) == BitsOf(d, w) + Flatten(ds, w)
  {
    assert ([d] + ds)[1..] == ds;
  }
}
