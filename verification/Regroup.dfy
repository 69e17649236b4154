/** `convertbits`: regrouping base-2^frm digits as base-2^to digits. */
module Regroup {
  import opened Common
  import opened Bits

  /** What regrouping means: concatenate the digits' bits and cut them again. */
  function Convert(data: seq<int>, frm: nat, to: nat, pad: bool): (r: Result<seq<int>, string>)
    requires to > 0
    ensures r.Ok? ==> Digits(r.value, to)
  {
    if !Digits(data, frm) then Err("invalid value")
    else
      var bs := Flatten(data, frm);
      var left := Rest(bs, to);
      if pad then Ok(Chunk(Padded(bs, to), to))
      else if |left| >= frm || left != Zeros(|left|) then Err("invalid padding")
      else Ok(Chunk(bs, to))
  }

  function Padded(bs: seq<bool>, w: nat): seq<bool>
    requires w > 0
  {
    var left := Rest(bs, w);
    if left == [] then bs else bs + Zeros(w - |left|)
  }

  /** Moving one digit from the accumulator to the output loses no bit. */
  lemma TakeDigit(ds: seq<int>, acc: nat, w: nat, rest: nat)
    requires Digits(ds, w)
    ensures var d := Low(Shr(acc, rest), w);
            Digits(ds + [d], w)
            && Flatten(ds, w) + BitsOf(acc, w + rest) == Flatten(ds + [d], w) + BitsOf(acc, rest)
  {
    var d := Low(Shr(acc, rest), w);
    AppendDigit(ds, d, w);
    BitsSplit(acc, w, rest);
    BitsLow(Shr(acc, rest), w);
    Assoc(Flatten(ds, w), BitsOf(d, w), BitsOf(acc, rest));
  }

  /** The digits of `done` are those written to `ret` and, after them, the bits held in the accumulator. */
  predicate Carried(done: seq<int>, frm: nat, ret: seq<int>, to: nat, acc: nat, bits: nat) {
    && Digits(done, frm) && Digits(ret, to)
    && Flatten(ret, to) + BitsOf(acc, bits) == Flatten(done, frm)
  }

  /** Reading one digit into the accumulator. */
  lemma Feed(data: seq<int>, i: nat, frm: nat, ret: seq<int>, to: nat, acc: nat, bits: nat)
    requires i < |data| && 0 <= data[i] < Pow2(frm) && Carried(data[..i], frm, ret, to, acc, bits)
    ensures Carried(data[..i + 1], frm, ret, to, Shl(acc, frm) + data[i], bits + frm)
  {
    var value, out := data[i], Flatten(ret, to);
    assert data[..i + 1] == data[..i] + [value];
    AppendDigit(data[..i], value, frm);
    BitsAppend(acc, value, bits, frm);
    Assoc(out, BitsOf(acc, bits), BitsOf(value, frm));
  }

  /** The digit holding `bits` leftover bits left-aligned in `w`; it is zero exactly when they are. */
  lemma TopDigit(acc: nat, bits: nat, w: nat)
    requires bits <= w
    ensures var top := Low(Shl(acc, w - bits), w);
            BitsOf(top, w) == BitsOf(acc, bits) + Zeros(w - bits)
            && (top == 0 <==> BitsOf(acc, bits) == Zeros(bits))
  {
    var x := Shl(acc, w - bits);
    BitsAppend(acc, 0, bits, w - bits);
    BitsOfZero(w - bits);
    BitsLow(x, w);
    ZeroDigit(Low(x, w), BitsOf(acc, bits), w);
  }

  lemma ZeroDigit(d: nat, bs: seq<bool>, w: nat)
    requires |bs| <= w && d < Pow2(w) && BitsOf(d, w) == bs + Zeros(w - |bs|)
    ensures d == 0 <==> bs == Zeros(|bs|)
  {
    BitsOfZero(w);
    assert Zeros(w) == Zeros(|bs|) + Zeros(w - |bs|);
    TakeDrop(bs, Zeros(w - |bs|));
    TakeDrop(Zeros(|bs|), Zeros(w - |bs|));
    ValueOfBits(d, w);
    ValueOfBits(0, w);
  }

  lemma FinishPadded(data: seq<int>, frm: nat, to: nat, ret: seq<int>, acc: nat, bits: nat)
    requires bits < to && Carried(data, frm, ret, to, acc, bits)
    ensures Convert(data, frm, to, true)
            == Ok(if bits == 0 then ret else ret + [Low(Shl(acc, to - bits), to)])
  {
    ChunkOfFlatten(ret, to, BitsOf(acc, bits));
    if bits > 0 {
      var top := Low(Shl(acc, to - bits), to);
      TopDigit(acc, bits, to);
      AppendDigit(ret, top, to);
      Assoc(Flatten(ret, to), BitsOf(acc, bits), Zeros(to - bits));
      ChunkOfFlatten(ret + [top], to, []);
      var whole := Flatten(ret + [top], to);
      assert whole + [] == whole;
    }
  }

  lemma FinishExact(data: seq<int>, frm: nat, to: nat, ret: seq<int>, acc: nat, bits: nat)
    requires bits < to && Carried(data, frm, ret, to, acc, bits)
    ensures Convert(data, frm, to, false)
            == if bits >= frm || Low(Shl(acc, to - bits), to) != 0 then Err("invalid padding") else Ok(ret)
  {
    TopDigit(acc, bits, to);
    ChunkOfFlatten(ret, to, BitsOf(acc, bits));
  }

  /** The inner loop: write out every whole digit the accumulator holds. */
  method Drain(digits: seq<int>, acc: nat, held: nat, to: nat, ghost done: seq<int>, ghost frm: nat)
    returns (ret: seq<int>, bits: nat)
    requires to > 0 && Carried(done, frm, digits, to, acc, held)
    ensures bits < to && Carried(done, frm, ret, to, acc, bits)
  {
    ret, bits := digits, held;
    while bits >= to
      invariant Carried(done, frm, ret, to, acc, bits)
    {
      bits := bits - to;
      TakeDigit(ret, acc, to, bits);
      ret := ret + [Low(Shr(acc, bits), to)];
    }
  }

  /** The outer loop: an accumulator of bits read but not yet written. */
  method Absorb(data: seq<int>, frm: nat, to: nat)
    returns (ok: bool, ret: seq<int>, acc: nat, bits: nat)
    requires to > 0
    ensures ok == Digits(data, frm)
    ensures ok ==> bits < to && Carried(data, frm, ret, to, acc, bits)
  {
    ok, ret, acc, bits := true, [], 0, 0;
    for i := 0 to |data|
      invariant ok && bits < to && Carried(data[..i], frm, ret, to, acc, bits)
    {
      var value := data[i];
      if value < 0 || Pow2(frm) <= value {
        ok := false;
        return;
      }
      Feed(data, i, frm, ret, to, acc, bits);
      acc := Shl(acc, frm) + value;
      bits := bits + frm;
      ret, bits := Drain(ret, acc, bits, to, data[..i + 1], frm);
    }
    assert data[..|data|] == data;
  }

  /** `convertbits` itself. */
  method ConvertBits(data: seq<int>, frm: nat, to: nat, pad: bool) returns (r: Result<seq<int>, string>)
    requires to > 0
    ensures r == Convert(data, frm, to, pad)
  {
    var ok, ret, acc, bits := Absorb(data, frm, to);
    if !ok {
      return Err("invalid value");
    }
    var top := Low(Shl(acc, to - bits), to);
    if pad {
      FinishPadded(data, frm, to, ret, acc, bits);
      return Ok(if bits > 0 then ret + [top] else ret);
    }
    FinishExact(data, frm, to, ret, acc, bits);
    if bits >= frm || top != 0 {
      return Err("invalid padding");
    }
    return Ok(ret);
  }

  /** Bytes regrouped to 5-bit digits and back are the same bytes. */
  lemma EightFiveEight(data: seq<int>)
    requires Digits(data, 8)
    ensures Convert(data, 8, 5, true).Ok?
    ensures Convert(Convert(data, 8, 5, true).value, 5, 8, false) == Ok(data)
  {
    var bs := Flatten(data, 8);
    FlattenOfChunk(bs, 5);
    var all := Padded(bs, 5);
    var pad := all[|bs|..];
    PaddedIsWhole(bs, 5);
    FlattenOfChunk(all, 5);
    var ds := Chunk(all, 5);
    assert Flatten(ds, 5) + [] == Flatten(ds, 5);
    ChunkOfFlatten(data, 8, pad);
  }

  lemma PaddedIsWhole(bs: seq<bool>, w: nat)
    requires w > 0
    ensures Rest(Padded(bs, w), w) == []
    ensures var k := |Padded(bs, w)| - |bs|; 0 <= k < w && Padded(bs, w) == bs + Zeros(k)
    ensures Padded(bs, w)[|bs|..] == Zeros(|Padded(bs, w)| - |bs|)
  {
    FlattenOfChunk(bs, w);
    var left := Rest(bs, w);
    if left != [] {
      var ds, z := Chunk(bs, w), Zeros(w - |left|);
      var last := left + z;
      AppendDigit(ds, ValueOf(last), w);
      BitsOfValue(last);
      assert (Flatten(ds, w) + left) + z == Flatten(ds, w) + (left + z);
      ChunkOfFlatten(ds + [ValueOf(last)], w, []);
      var whole := Flatten(ds + [ValueOf(last)], w);
      assert whole + [] == whole;
      TakeDrop(bs, z);
    } else {
      assert bs + Zeros(0) == bs;
    }
  }

  /** 5-bit digits that regroup to bytes at all are the regrouping of those bytes. */
  lemma FiveEightFive(ds: seq<int>, data: seq<int>)
    requires Convert(ds, 5, 8, false) == Ok(data)
    ensures Digits(data, 8) && Convert(data, 8, 5, true) == Ok(ds)
  {
    var all := Flatten(ds, 5);
    var bs, left := Flatten(data, 8), Rest(all, 8);
    FlattenOfChunk(all, 8);
    assert all == bs + Zeros(|left|);
    PadUnique(bs, |left|, 5, ds);
  }

  /** Only one zero padding shorter than a digit makes a whole number of digits. */
  lemma PadUnique(bs: seq<bool>, k: nat, w: nat, ds: seq<int>)
    requires k < w && Digits(ds, w) && Flatten(ds, w) == bs + Zeros(k)
    ensures Chunk(Padded(bs, w), w) == ds
  {
    ChunkOfFlatten(ds, w, []);
    assert Flatten(ds, w) + [] == Flatten(ds, w);
    RestLength(bs, w, k);
    if k == 0 { assert bs + Zeros(0) == bs; }
  }

  lemma {:induction false} RestLength(bs: seq<bool>, w: nat, k: nat)
    requires k < w && Rest(bs + Zeros(k), w) == []
    ensures if k == 0 then Rest(bs, w) == [] else |Rest(bs, w)| == w - k
    decreases |bs|
  {
    var all := bs + Zeros(k);
    if |bs| >= w {
      assert all[w..] == bs[w..] + Zeros(k);
      RestLength(bs[w..], w, k);
    } else if |all| >= w {
      assert |all[w..]| < w;
      assert Rest(all, w) == all[w..];
    }
  }

  /** The first bits of a byte go to the first group: 0x12 is 00010 and 010, padded to 01000. */
  lemma OneByte(data: seq<int>)
    requires data == [0x12]
    ensures Convert(data, 8, 5, true) == Ok([2, 8])
  {
    assert Pow2(8) == 256 && Pow2(5) == 32;
    var a: seq<bool>, b: seq<bool> := [false, false, false, true, false], [false, true, false];
    var bs := Flatten(data, 8);
    ByteBits(data[0], a, b);
    assert Digits(data, 8) && data[1..] == [] && Flatten(data[1..], 8) == [];
    assert bs == BitsOf(data[0], 8) + [];
    assert bs == a + b;
    ChunkStep(bs, 5);
    assert bs[..5] == a && bs[5..] == b;
    assert Rest(b, 5) == b && Chunk(b, 5) == [];
    PaddedByte(bs, a, b);
  }

  lemma ByteBits(x: nat, a: seq<bool>, b: seq<bool>)
    requires x == 0x12 && a == [false, false, false, true, false] && b == [false, true, false]
    ensures BitsOf(x, 8) == a + b
  {
    BitsSplit(x, 5, 3);
    var y, z := x / 2, x / 2 / 2;
    assert Shr(x, 3) == Shr(y, 2) == Shr(z, 1) == 2;
    ValueOfFive(a);
    BitsOfValue(a);
    assert BitsOf(z, 1) == BitsOf(z / 2, 0) + [false] && BitsOf(y, 2) == BitsOf(z, 1) + [true];
    assert BitsOf(x, 3) == BitsOf(y, 2) + [false];
  }

  lemma PaddedByte(bs: seq<bool>, a: seq<bool>, b: seq<bool>)
    requires a == [false, false, false, true, false] && b == [false, true, false] && bs == a + b && Rest(bs, 5) == b
    ensures Chunk(Padded(bs, 5), 5) == [2, 8]
  {
    var c: seq<bool> := [false, true, false, false, false];
    assert Padded(bs, 5) == a + c;
    ChunkStep(a + c, 5);
    ChunkStep(c, 5);
    assert (a + c)[..5] == a && (a + c)[5..] == c && c[..5] == c && c[5..] == [];
    ValueOfFive(a);
    ValueOfFive(c);
  }
}
