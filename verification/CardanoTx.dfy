/** Cardano transactions: their serialized size, the fee that size needs, and min-ADA. */
module CardanoTx {
  import opened Common
  import CardanoMemo
  import Cbor
  import Rates
  import Utf8

  // --- sizes (RFC 8949 section 3) -------------------------------------------

  /** Bytes of an item's head with argument `n`: the argument follows in 0, 1, 2, 4 or 8 bytes. */
  function HeadSize(n: nat): (r: nat)
    ensures 1 <= r <= 9
  {
    if n < 24 then 1 else if n < 0x100 then 2 else if n < 0x1_0000 then 3 else if n < 0x1_0000_0000 then 5 else 9
  }

  function BytesSize(k: nat): nat { HeadSize(k) + k }

  /** An integer: a head up to 2^64, a tagged byte string (a bignum) beyond, and likewise below zero. */
  function IntSize(n: int): (r: nat)
    ensures r > 0
  {
    var m := Cbor.Magnitude(n);
    if m < Cbor.TWO_64 then HeadSize(m) else HeadSize(if n >= 0 then 2 else 3) + BytesSize(Cbor.ByteLength(m))
  }

  lemma {:induction false} ByteLengthMono(m: nat, n: nat)
    requires m <= n
    ensures Cbor.ByteLength(m) <= Cbor.ByteLength(n)
    decreases n
  {
    if m > 0 { ByteLengthMono(m / 256, n / 256); }
  }

  lemma BignumLong(n: nat)
    requires n >= Cbor.TWO_64
    ensures Cbor.ByteLength(n) >= 9
  {
    ByteLengthMono(Cbor.TWO_64, n);
    assert Cbor.ByteLength(Cbor.TWO_64) == 1 + Cbor.ByteLength(0x1_0000_0000_0000_00)
        == 2 + Cbor.ByteLength(0x1_0000_0000_0000);
    assert Cbor.ByteLength(0x1_0000_0000_0000) == 1 + Cbor.ByteLength(0x1_0000_0000_00)
        == 2 + Cbor.ByteLength(0x1_0000_0000);
    assert Cbor.ByteLength(0x1_0000_0000) == 1 + Cbor.ByteLength(0x1_0000_00) == 2 + Cbor.ByteLength(0x1_0000);
    assert Cbor.ByteLength(0x1_0000) == 1 + Cbor.ByteLength(0x1_00) == 2 + Cbor.ByteLength(1);
  }

  /** A larger amount never has a shorter encoding. */
  lemma IntSizeMono(m: nat, n: nat)
    requires m <= n
    ensures IntSize(m) <= IntSize(n)
  {
    if n >= Cbor.TWO_64 {
      BignumLong(n);
      ByteLengthMono(m, n);
    }
  }

  // --- transactions ---------------------------------------------------------

  datatype TxIn = TxIn(txid: seq<byte>, index: int)

  datatype TxOut = TxOut(address: seq<byte>, lovelace: int)

  datatype UnsignedTx = UnsignedTx(inputs: seq<TxIn>, outputs: seq<TxOut>, fee: int, ttl: int, memo: Option<string>)

  /** The ledger's maximum transaction size is a 32-bit number. */
  type MaxSize = n: int | n < 0x1_0000_0000

  datatype ProtocolParams = ProtocolParams(minFeeA: nat, minFeeB: nat, coinsPerUtxoByte: nat, maxTxSize: MaxSize)

  const UTXO_ENTRY_OVERHEAD := 160
  const SET_TAG := 258

  function InputSize(i: TxIn): nat { HeadSize(2) + BytesSize(|i.txid|) + IntSize(i.index) }

  function OutputSize(o: TxOut): nat { HeadSize(2) + BytesSize(|o.address|) + IntSize(o.lovelace) }

  function InputsSize(ins: seq<TxIn>): nat { if ins == [] then 0 else InputSize(ins[0]) + InputsSize(ins[1..]) }

  function OutputsSize(outs: seq<TxOut>): nat { if outs == [] then 0 else OutputSize(outs[0]) + OutputsSize(outs[1..]) }

  function TextsSize(texts: seq<string>): nat {
    if texts == [] then 0 else BytesSize(|Utf8.Encode(texts[0])|) + TextsSize(texts[1..])
  }

  /** `{674: {"msg": chunks}}` */
  function MetadataSize(chunks: seq<string>): nat {
    HeadSize(1) + IntSize(CardanoMemo.CIP20_LABEL) + HeadSize(1) + BytesSize(3) + HeadSize(|chunks|) + TextsSize(chunks)
  }

  /** The body map and its keys, without the fee; with a memo, also the metadata hash. */
  function BodySize(tx: UnsignedTx): nat {
    HeadSize(if tx.memo.Some? then 5 else 4) + 4
    + HeadSize(SET_TAG) + HeadSize(|tx.inputs|) + InputsSize(tx.inputs)
    + HeadSize(|tx.outputs|) + OutputsSize(tx.outputs)
    + IntSize(tx.ttl)
    + (if tx.memo.Some? then 1 + BytesSize(32) else 0)
  }

  /** The witness set: under its key, a set of public keys and signatures, 101 bytes each. */
  function WitnessSetSize(witnesses: nat): nat {
    HeadSize(1) + 1 + HeadSize(SET_TAG) + HeadSize(witnesses)
    + witnesses * (HeadSize(2) + BytesSize(32) + BytesSize(64))
  }

  /** The metadata, or null. */
  function AuxSize(tx: UnsignedTx): nat {
    if tx.memo.Some? then MetadataSize(CardanoMemo.Chunks(tx.memo.value)) else 1
  }

  /** Every part of `serialize(tx, ...)` but the fee: the outer array, body, witnesses, is-valid, and the rest. */
  function SizeWithoutFee(tx: UnsignedTx, witnesses: nat): nat {
    1 + BodySize(tx) + WitnessSetSize(witnesses) + 1 + AuxSize(tx)
  }

  function SerializedSize(tx: UnsignedTx, witnesses: nat): nat { SizeWithoutFee(tx, witnesses) + IntSize(tx.fee) }

  function MinFee(size: nat, p: ProtocolParams): nat { p.minFeeA * size + p.minFeeB }

  /** `min_lovelace` */
  function MinLovelace(o: TxOut, p: ProtocolParams): nat { (UTXO_ENTRY_OVERHEAD + OutputSize(o)) * p.coinsPerUtxoByte }

  // --- the fee loop ---------------------------------------------------------

  /** What a transaction whose other parts take `size` bytes must pay if it carries fee `fee`. */
  function Needed(size: nat, p: ProtocolParams, fee: nat): nat { MinFee(size + IntSize(fee), p) }

  /** A fee no transaction of this size can need more than. */
  function FeeBound(size: nat, p: ProtocolParams): nat {
    Pow256(p.minFeeA + MinFee(size, p) + 24)
  }

  lemma {:induction false} SquareBelowPower(j: nat, square: nat)
    requires square == j * j
    ensures 4 * square <= Pow256(j)
  {
    if j > 0 {
      var k := j - 1;
      var less := k * k;
      SquareBelowPower(k, less);
      NextSquare(j, square, k, less);
    }
  }

  lemma NextSquare(j: nat, square: nat, k: nat, less: nat)
    requires square == j * j && less == k * k && j == k + 1
    ensures square == less + 2 * k + 1 && k <= less
  {
    assert (k + 1) * (k + 1) == k * k + 2 * k + 1;
    if k > 0 { Rates.Scale(1, k, k); }
  }

  lemma {:induction false} PowerLength(j: nat)
    ensures Cbor.ByteLength(Pow256(j)) == j + 1
  {
    if j > 0 {
      PowerLength(j - 1);
      assert Pow256(j) / 256 == Pow256(j - 1);
    }
  }

  lemma IntSizeOfPower(j: nat)
    ensures IntSize(Pow256(j)) <= j + 11
  {
    PowerLength(j);
  }

  /** `a` per byte on `n` more bytes, both small next to `j`. */
  lemma BelowSquare(a: nat, n: nat, base: nat, j: nat, square: nat)
    requires a <= j && n <= 2 * j && base <= j && square == j * j
    ensures base + a * n <= 4 * square
  {
    var twice := 2 * j;
    Rates.Scale(a, j, n);
    Rates.Scale(n, twice, j);
    assert n * j == j * n && twice * j == 2 * square;
    if j > 0 { Rates.Scale(1, j, j); }
  }

  lemma Split(a: int, x: int, y: int)
    ensures a * (x + y) == a * x + a * y
  {
  }

  lemma NeededIs(size: nat, p: ProtocolParams, fee: nat)
    ensures Needed(size, p, fee) == MinFee(size, p) + p.minFeeA * IntSize(fee)
  {
    Split(p.minFeeA, size, IntSize(fee));
  }

  lemma BoundSuffices(size: nat, p: ProtocolParams)
    ensures Needed(size, p, FeeBound(size, p)) <= FeeBound(size, p)
  {
    var base := MinFee(size, p);
    var j := p.minFeeA + base + 24;
    var square := j * j;
    IntSizeOfPower(j);
    SquareBelowPower(j, square);
    BelowSquare(p.minFeeA, IntSize(FeeBound(size, p)), base, j, square);
    NeededIs(size, p, FeeBound(size, p));
  }

  lemma NeededMono(size: nat, p: ProtocolParams, f: nat, g: nat)
    requires f <= g
    ensures Needed(size, p, f) <= Needed(size, p, g)
  {
    IntSizeMono(f, g);
    Rates.Scale(size + IntSize(f), size + IntSize(g), p.minFeeA);
  }

  lemma NeededBounded(size: nat, p: ProtocolParams, f: nat)
    requires f <= FeeBound(size, p)
    ensures Needed(size, p, f) <= FeeBound(size, p)
  {
    NeededMono(size, p, f, FeeBound(size, p));
    BoundSuffices(size, p);
  }

  /** Raises the fee to what is needed until it is enough. */
  function FeeFrom(size: nat, p: ProtocolParams, fee: nat): (r: nat)
    requires fee <= FeeBound(size, p)
    decreases FeeBound(size, p) - fee
  {
    NeededBounded(size, p, fee);
    var needed := Needed(size, p, fee);
    if needed <= fee then fee else FeeFrom(size, p, needed)
  }

  function LeastFee(size: nat, p: ProtocolParams): nat { FeeFrom(size, p, 0) }

  function RequiredFee(tx: UnsignedTx, witnesses: nat, p: ProtocolParams): nat {
    LeastFee(SizeWithoutFee(tx, witnesses), p)
  }

  lemma {:induction false} FeeFromLeast(size: nat, p: ProtocolParams, fee: nat, other: nat)
    requires fee <= FeeBound(size, p) && fee <= other && Needed(size, p, other) <= other
    ensures Needed(size, p, FeeFrom(size, p, fee)) <= FeeFrom(size, p, fee) <= other
    decreases FeeBound(size, p) - fee
  {
    var needed := Needed(size, p, fee);
    NeededBounded(size, p, fee);
    if needed > fee {
      NeededMono(size, p, fee, other);
      FeeFromLeast(size, p, needed, other);
    }
  }

  /** Does `tx`, carrying fee `f` and signed, pay the minimum fee for its own size? */
  predicate Pays(tx: UnsignedTx, witnesses: nat, p: ProtocolParams, f: nat) {
    f >= MinFee(SerializedSize(tx.(fee := f), witnesses), p)
  }

  /** The required fee is the least fee that pays for the transaction carrying it. */
  lemma LeastPays(tx: UnsignedTx, witnesses: nat, p: ProtocolParams)
    ensures Pays(tx, witnesses, p, RequiredFee(tx, witnesses, p))
    ensures forall f: nat :: Pays(tx, witnesses, p, f) ==> RequiredFee(tx, witnesses, p) <= f
  {
    var size := SizeWithoutFee(tx, witnesses);
    BoundSuffices(size, p);
    FeeFromLeast(size, p, 0, FeeBound(size, p));
    forall f: nat | Pays(tx, witnesses, p, f) ensures RequiredFee(tx, witnesses, p) <= f {
      FeeFromLeast(size, p, 0, f);
    }
  }

  lemma NeededLess(small: nat, big: nat, p: ProtocolParams, f: nat)
    requires small <= big
    ensures Needed(small, p, f) <= Needed(big, p, f)
  {
    Split(p.minFeeA, small + IntSize(f), big - small);
    Rates.Scale(0, big - small, p.minFeeA);
  }

  /** A bigger transaction never needs less. */
  lemma LeastFeeMono(small: nat, big: nat, p: ProtocolParams)
    requires small <= big
    ensures LeastFee(small, p) <= LeastFee(big, p)
  {
    BoundSuffices(big, p);
    FeeFromLeast(big, p, 0, FeeBound(big, p));
    var f := LeastFee(big, p);
    NeededLess(small, big, p, f);
    FeeFromLeast(small, p, 0, f);
  }
}
