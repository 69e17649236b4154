/** Fees above the required one: when the transaction carrying such a fee still pays for itself. */
module CardanoFees {
  import opened Common
  import opened CardanoTx
  import Cbor
  import Rates

  // --- the required fee is exactly what it needs ----------------------------

  lemma {:induction false} FeeFromFixed(size: nat, p: ProtocolParams, fee: nat)
    requires fee <= FeeBound(size, p) && fee <= Needed(size, p, fee)
    ensures Needed(size, p, FeeFrom(size, p, fee)) == FeeFrom(size, p, fee)
    decreases FeeBound(size, p) - fee
  {
    var needed := Needed(size, p, fee);
    NeededBounded(size, p, fee);
    if needed > fee {
      NeededMono(size, p, fee, needed);
      FeeFromFixed(size, p, needed);
    }
  }

  /** What a fee needs, counted from the least fee: the price of the bytes its encoding has more. */
  lemma NeededFromLeast(size: nat, p: ProtocolParams, f: nat)
    ensures Needed(size, p, f) == LeastFee(size, p) + p.minFeeA * (IntSize(f) - IntSize(LeastFee(size, p)))
  {
    var r := LeastFee(size, p);
    FeeFromFixed(size, p, 0);
    NeededIs(size, p, f);
    NeededIs(size, p, r);
    Difference(p.minFeeA, IntSize(f), IntSize(r));
  }

  lemma Difference(a: int, x: int, y: int)
    ensures a * (x - y) == a * x - a * y
  {
  }

  lemma LeastIsLeast(size: nat, p: ProtocolParams, f: nat)
    requires Needed(size, p, f) <= f
    ensures LeastFee(size, p) <= f
  {
    FeeFromLeast(size, p, 0, f);
  }

  lemma LeastFeeAtLeast(size: nat, p: ProtocolParams)
    ensures LeastFee(size, p) >= MinFee(size + 1, p)
  {
    FeeFromFixed(size, p, 0);
    NeededIs(size, p, LeastFee(size, p));
    Split(p.minFeeA, size, 1);
    Rates.Scale(1, IntSize(LeastFee(size, p)), p.minFeeA);
  }

  lemma BetweenSame(low: nat, n: nat, high: nat)
    requires low <= n <= high && IntSize(low) == IntSize(high)
    ensures IntSize(n) == IntSize(high)
  {
    IntSizeMono(low, n);
    IntSizeMono(n, high);
  }

  lemma SameNeed(size: nat, p: ProtocolParams, f: nat, g: nat)
    requires IntSize(f) == IntSize(g)
    ensures Needed(size, p, f) == Needed(size, p, g)
  {
  }

  /** A fee that is exactly what it needs is the least, if nothing below it is encoded shorter. */
  lemma ExactIsLeast(size: nat, p: ProtocolParams, f: nat, low: nat)
    requires Needed(size, p, f) == f && low == MinFee(size + 1, p) && IntSize(low) == IntSize(f)
    ensures LeastFee(size, p) == f
  {
    LeastIsLeast(size, p, f);
    LeastFeeAtLeast(size, p);
    BetweenSame(low, LeastFee(size, p), f);
    SameNeed(size, p, LeastFee(size, p), f);
    FeeFromFixed(size, p, 0);
  }

  // --- where encodings grow -------------------------------------------------

  /** The amounts at which an encoding gets longer. */
  ghost predicate Boundary(b: nat) {
    b in {24, 0x100, 0x1_0000, 0x1_0000_0000} || exists k: nat :: k >= 8 && b == Pow256(k)
  }

  /** The least amount encoded as long as `f`. */
  function ClassStart(f: nat): nat {
    if f < 24 then 0
    else if f < 0x100 then 24
    else if f < 0x1_0000 then 0x100
    else if f < 0x1_0000_0000 then 0x1_0000
    else if f < Cbor.TWO_64 then 0x1_0000_0000
    else if Cbor.ByteLength(f) == 0 then 0 else Pow256(Cbor.ByteLength(f) - 1)
  }

  lemma {:induction false} PowerMono(i: nat, j: nat)
    requires i <= j
    ensures Pow256(i) <= Pow256(j)
    decreases j
  {
    if i < j { PowerMono(i, j - 1); }
  }

  lemma ClassStartIs(f: nat)
    ensures ClassStart(f) <= f && IntSize(ClassStart(f)) == IntSize(f)
    ensures f >= 24 ==> Boundary(ClassStart(f))
  {
    if f >= Cbor.TWO_64 {
      var k := Cbor.ByteLength(f);
      BignumLong(f);
      Cbor.PowerBelow(f);
      PowerLength(k - 1);
      Cbor.PowersOf256();
      PowerMono(8, k - 1);
    }
  }

  // --- which larger fees pay ------------------------------------------------

  /** The first fee of a longer encoding, above the required one, does not reach the price of its extra bytes. */
  ghost predicate Gap(r: nat, a: nat, b: nat) {
    Boundary(b) && r < b < r + a * (IntSize(b) - IntSize(r))
  }

  /**
   * Every fee from the required one up pays for the transaction carrying it,
   * exactly when no length boundary lies in a gap above the required fee.
   */
  lemma LargerFeesPay(tx: UnsignedTx, w: nat, p: ProtocolParams)
    ensures var r := RequiredFee(tx, w, p);
            (forall f: nat :: r <= f ==> Pays(tx, w, p, f)) <==> !exists b: nat :: Gap(r, p.minFeeA, b)
  {
    var size, r := SizeWithoutFee(tx, w), RequiredFee(tx, w, p);
    forall b: nat | Gap(r, p.minFeeA, b) ensures !Pays(tx, w, p, b) {
      NeededFromLeast(size, p, b);
    }
    forall f: nat | r <= f && !Pays(tx, w, p, f) ensures Gap(r, p.minFeeA, ClassStart(f)) {
      ShortfallHasGap(size, p, f);
    }
    if b: nat :| Gap(r, p.minFeeA, b) {
      assert r <= b && !Pays(tx, w, p, b);
    }
  }

  lemma ShortfallHasGap(size: nat, p: ProtocolParams, f: nat)
    requires LeastFee(size, p) <= f < Needed(size, p, f)
    ensures Gap(LeastFee(size, p), p.minFeeA, ClassStart(f))
  {
    NeededFromLeast(size, p, f);
    GapBelow(LeastFee(size, p), p.minFeeA, f, ClassStart(f));
  }

  lemma GapBelow(r: nat, a: nat, f: nat, b: nat)
    requires r <= f < r + a * (IntSize(f) - IntSize(r)) && b == ClassStart(f)
    ensures Gap(r, a, b)
  {
    if b <= r { SameClass(r, f); }
    ClassStartIs(f);
  }

  lemma SameClass(r: nat, f: nat)
    requires ClassStart(f) <= r <= f
    ensures IntSize(r) == IntSize(f)
  {
    ClassStartIs(f);
    IntSizeMono(ClassStart(f), r);
    IntSizeMono(r, f);
  }

  // --- parameters under which every larger fee pays ---------------------------

  /**
   * Required fees lie between two boundaries, 2^16 and 2^32, with room for a
   * longer encoding below the upper one. Mainnet's parameters are such.
   */
  predicate Roomy(p: ProtocolParams) {
    p.minFeeB >= 0x1_0000 && p.maxTxSize >= 0 && MinFee(p.maxTxSize + 9, p) <= 0x1_0000_0000
  }

  const MAINNET := ProtocolParams(44, 155_381, 4_310, 16_384)

  lemma MainnetIsRoomy()
    ensures Roomy(MAINNET)
  {
  }

  lemma {:induction false} RoomInPowers(k: nat)
    requires k >= 9
    ensures 0x1_0000_0000 * (k + 11) <= Pow256(k - 1)
  {
    Cbor.PowersOf256();
    if k > 9 { RoomInPowers(k - 1); }
  }

  lemma PriceAtMost(a: nat, n: nat)
    requires a <= 0x1_0000_0000
    ensures a * n <= 0x1_0000_0000 * n
  {
    Rates.Scale(a, 0x1_0000_0000, n);
  }

  /** A fee that is a bignum is far more than its own encoding costs. */
  lemma BignumPays(size: nat, p: ProtocolParams, f: nat)
    requires MinFee(size, p) <= 0x1_0000_0000 && p.minFeeA <= 0x1_0000_0000 && f >= Cbor.TWO_64
    ensures Needed(size, p, f) <= f
  {
    var k := Cbor.ByteLength(f);
    BignumLong(f);
    Cbor.PowerBelow(f);
    RoomInPowers(k);
    NeededIs(size, p, f);
    PriceAtMost(p.minFeeA, IntSize(f));
  }

  lemma LargerPays(size: nat, p: ProtocolParams, f: nat)
    requires Roomy(p) && size <= p.maxTxSize && f >= LeastFee(size, p)
    ensures Needed(size, p, f) <= f
  {
    var r := LeastFee(size, p);
    FeeFromFixed(size, p, 0);
    NeededIs(size, p, r);
    NeededIs(size, p, f);
    Split(p.minFeeA, p.maxTxSize, 9);
    Rates.Scale(size, p.maxTxSize, p.minFeeA);
    Rates.Scale(0, IntSize(r), p.minFeeA);
    Rates.Scale(0, size, p.minFeeA);
    if f >= Cbor.TWO_64 {
      BignumPays(size, p, f);
    } else {
      Rates.Scale(IntSize(f), 9, p.minFeeA);
    }
  }

  /** Under such parameters, every fee from the required one up pays for a transaction within the size limit. */
  lemma RoomyFeesPay(tx: UnsignedTx, w: nat, p: ProtocolParams)
    requires Roomy(p) && SizeWithoutFee(tx, w) <= p.maxTxSize
    ensures forall f: nat :: RequiredFee(tx, w, p) <= f ==> Pays(tx, w, p, f)
  {
    forall f: nat | RequiredFee(tx, w, p) <= f ensures Pays(tx, w, p, f) {
      LargerPays(SizeWithoutFee(tx, w), p, f);
    }
  }
}
