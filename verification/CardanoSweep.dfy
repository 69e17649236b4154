/** Sweeping ADA: the amount is fixed before the recipient is known, from the size of a worst-case stand-in. */
module CardanoSweep {
  import opened Common
  import opened CardanoBytes
  import opened CardanoRead
  import opened CardanoTx
  import opened CardanoSelect
  import opened CardanoSigners
  import opened Coins
  import opened CardanoFees
  import Cbor
  import Rates
  import Sorting

  const ADDRESS_BYTES := 57
  const LAST_TTL := 0xFFFF_FFFF

  function ZeroDigest(b: seq<byte>): Digest { Repeat<byte>(0, 32) }

  /** The longest common Shelley address. */
  function LongestAddress(): seq<byte> { [1] + Repeat(0, 56) }

  function StandInInputs(n: nat): (r: seq<TxIn>)
    ensures |r| == n
  {
    if n == 0 then [] else StandInInputs(n - 1) + [TxIn(Cbor.BigEndian(n - 1, 32), n - 1)]
  }

  function StandIn(lovelace: int, n: nat, memoLen: nat): UnsignedTx {
    UnsignedTx(StandInInputs(n), [TxOut(LongestAddress(), lovelace)], 0, LAST_TTL,
               if memoLen > 0 then Some(Repeat('x', memoLen)) else None)
  }

  /** `sweep_send_amount`: what can be sent out of `total`, and the fee kept back, both in hundredths of a lovelace. */
  function SweepSendAmount(total: int, n: nat, memoLen: nat, p: ProtocolParams): Result<(int, int), string> {
    var lovelace := Rates.FloorDiv(total, LOVELACE_TO_UNITS);
    var fee := RequiredFee(StandIn(lovelace, n, memoLen), n, p);
    var amount := lovelace - fee;
    if amount < MinLovelace(TxOut(LongestAddress(), amount), p) then Err("cannot cover the fee and the minimum ADA")
    else Ok((amount * LOVELACE_TO_UNITS, fee * LOVELACE_TO_UNITS))
  }

  // --- the least fee grows with every byte ----------------------------------

  /** With a positive price per byte, a bigger size has a bigger least fee, and only a bigger size has. */
  lemma LeastFeeStrict(s: nat, t: nat, p: ProtocolParams)
    requires p.minFeeA > 0
    ensures LeastFee(s, p) <= LeastFee(t, p) <==> s <= t
  {
    if s <= t {
      LeastFeeMono(s, t, p);
    } else {
      LeastFeeMono(t, s, p);
      FeeFromFixed(s, p, 0);
      FeeFromFixed(t, p, 0);
      NeededMono(t, p, LeastFee(t, p), LeastFee(s, p));
      NeededStrict(t, s, p, LeastFee(s, p));
    }
  }

  lemma NeededStrict(s: nat, t: nat, p: ProtocolParams, f: nat)
    requires s < t && p.minFeeA > 0
    ensures Needed(s, p, f) < Needed(t, p, f)
  {
    Split(p.minFeeA, s + IntSize(f), t - s);
    Rates.Scale(1, t - s, p.minFeeA);
  }

  // --- is the amount ever too much? -----------------------------------------

  /** `q` sweeps the amount `sweep_send_amount` gave for its coins. */
  predicate SweepsAdvised(q: Request, memoLen: nat, p: ProtocolParams) {
    var advice := SweepSendAmount(Total(q.utxos), |q.utxos|, memoLen, p);
    q.sweep && !q.memo.BinaryMemo? && advice.Ok? && q.amount == advice.value.0
  }

  function Swept(q: Request, p: ProtocolParams): UnsignedTx {
    Unsigned(q, Pool(q.utxos), [PaymentOf(q).recipient], 0)
  }

  lemma {:induction false} InsertTotal(x: Utxo, us: seq<Utxo>, le: (Utxo, Utxo) -> bool)
    ensures Total(Sorting.Insert(x, us, le)) == x.value + Total(us)
  {
    if us == [] || le(x, us[0]) {
      assert ([x] + us)[1..] == us;
      assert us == [] ==> [x] + us == [x];
    } else {
      InsertTotal(x, us[1..], le);
      assert ([us[0]] + Sorting.Insert(x, us[1..], le))[1..] == Sorting.Insert(x, us[1..], le);
    }
  }

  lemma {:induction false} SortTotal(us: seq<Utxo>, le: (Utxo, Utxo) -> bool)
    ensures Total(Sorting.Sort(us, le)) == Total(us)
  {
    if us != [] {
      SortTotal(us[1..], le);
      InsertTotal(us[0], Sorting.Sort(us[1..], le), le);
    }
  }

  lemma WholeLovelace(n: int)
    ensures Rates.FloorDiv(n * LOVELACE_TO_UNITS, LOVELACE_TO_UNITS) == n
            && n * LOVELACE_TO_UNITS % LOVELACE_TO_UNITS == 0
  {
  }

  /** An advised sweep passes every check but, perhaps, that its fee reaches the required one. */
  lemma AdvisedChecks(q: Request, memoLen: nat, p: ProtocolParams)
    requires SweepsAdvised(q, memoLen, p) && |q.vaultRaw| <= ADDRESS_BYTES
    ensures Chosen(q, p).Ok? <==>
            RequiredFee(Swept(q, p), Witnesses(Pool(q.utxos)), p)
              <= RequiredFee(StandIn(Lovelace(q.utxos), |q.utxos|, memoLen), |q.utxos|, p)
  {
    SortTotal(q.utxos, (a: Utxo, b: Utxo) => a.value >= b.value);
    var lovelace, pay := Lovelace(q.utxos), PaymentOf(q);
    var fee := RequiredFee(StandIn(lovelace, |q.utxos|, memoLen), |q.utxos|, p);
    WholeLovelace(lovelace - fee);
    assert pay.recipient.lovelace == lovelace - fee;
    MinLovelaceOfShorter(pay.recipient, TxOut(LongestAddress(), lovelace - fee), p);
    assert Folded(Pool(q.utxos), pay).fee == fee;
  }

  /**
   * An advised sweep passes the fee check exactly when the real transaction, its
   * signatures included, is no bigger than the stand-in it was advised on.
   */
  lemma AdvisedSweepPasses(q: Request, memoLen: nat, p: ProtocolParams)
    requires SweepsAdvised(q, memoLen, p) && p.minFeeA > 0 && |q.vaultRaw| <= ADDRESS_BYTES
    ensures Chosen(q, p).Ok? <==>
            SizeWithoutFee(Swept(q, p), Witnesses(Pool(q.utxos)))
              <= SizeWithoutFee(StandIn(Lovelace(q.utxos), |q.utxos|, memoLen), |q.utxos|)
  {
    AdvisedChecks(q, memoLen, p);
    var stand := StandIn(Lovelace(q.utxos), |q.utxos|, memoLen);
    LeastFeeStrict(SizeWithoutFee(Swept(q, p), Witnesses(Pool(q.utxos))), SizeWithoutFee(stand, |q.utxos|), p);
  }

  /** The fee kept back. */
  function KeptBack(q: Request, memoLen: nat, p: ProtocolParams): nat {
    RequiredFee(StandIn(Lovelace(q.utxos), |q.utxos|, memoLen), |q.utxos|, p)
  }

  /**
   * An advised sweep builds exactly when the real transaction, its signatures
   * included, is no bigger than the stand-in it was advised on, and with the fee
   * kept back is within the size limit, and the wallet owns every coin.
   */
  lemma AdvisedSweepBuilds(q: Request, memoLen: nat, p: ProtocolParams)
    requires SweepsAdvised(q, memoLen, p) && p.minFeeA > 0 && |q.vaultRaw| <= ADDRESS_BYTES
    ensures var size := SizeWithoutFee(Swept(q, p), Witnesses(Pool(q.utxos)));
            Built(q, p).Ok? <==>
              && size <= SizeWithoutFee(StandIn(Lovelace(q.utxos), |q.utxos|, memoLen), |q.utxos|)
              && size + IntSize(KeptBack(q, memoLen, p)) <= p.maxTxSize
              && OwnsAll(q.wallet, q.utxos)
  {
    AdvisedSweepPasses(q, memoLen, p);
    SameOwners(q);
    if Chosen(q, p).Ok? {
      AdvisedFee(q, memoLen, p);
      var s := Chosen(q, p).value;
      SameSize(q, s);
    }
  }

  lemma AdvisedFee(q: Request, memoLen: nat, p: ProtocolParams)
    requires SweepsAdvised(q, memoLen, p) && Chosen(q, p).Ok?
    ensures Chosen(q, p).value == Selected(Pool(q.utxos), [PaymentOf(q).recipient], KeptBack(q, memoLen, p))
  {
    SortTotal(q.utxos, (a: Utxo, b: Utxo) => a.value >= b.value);
    WholeLovelace(Lovelace(q.utxos) - KeptBack(q, memoLen, p));
  }

  lemma SameOwners(q: Request)
    ensures OwnsAll(q.wallet, Pool(q.utxos)) <==> OwnsAll(q.wallet, q.utxos)
  {
    Sorting.SortMultiset(q.utxos, (a: Utxo, b: Utxo) => a.value >= b.value);
    forall u ensures u in Pool(q.utxos) <==> u in q.utxos {
      assert u in Pool(q.utxos) <==> u in multiset(Pool(q.utxos));
    }
  }

  lemma SameSize(q: Request, s: Selected)
    ensures SerializedSize(Unsigned(q, s.chosen, s.outputs, s.fee), Witnesses(s.chosen))
         == SizeWithoutFee(Unsigned(q, s.chosen, s.outputs, 0), Witnesses(s.chosen)) + IntSize(s.fee)
  {
  }

  lemma MinLovelaceOfShorter(a: TxOut, b: TxOut, p: ProtocolParams)
    requires |a.address| <= |b.address| && a.lovelace == b.lovelace
    ensures MinLovelace(a, p) <= MinLovelace(b, p)
  {
    Rates.Scale(UTXO_ENTRY_OVERHEAD + OutputSize(a), UTXO_ENTRY_OVERHEAD + OutputSize(b), p.coinsPerUtxoByte);
  }

  /** One coin at output index 24 of its transaction is one byte more than the stand-in allows: the sweep is refused. */
  lemma AdvisedSweepRefused(q: Request, p: ProtocolParams)
    requires SweepsAdvised(q, 0, p) && p.minFeeA > 0 && q.memo == NoMemo
    requires |q.utxos| == 1 && q.utxos[0].vout == 24 && |q.txid(q.utxos[0].txid)| == 32
    requires |q.vaultRaw| == ADDRESS_BYTES && q.ttl == 140_000_000
    requires IntSize(PaymentOf(q).recipient.lovelace) == IntSize(Lovelace(q.utxos))
    ensures Built(q, p).Err?
  {
    var us, u := q.utxos, q.utxos[0];
    var pool, stand := Pool(us), StandIn(Lovelace(us), 1, 0);
    assert us == [u];
    OnePool(u);
    OneAddress(u);
    assert InputsOf(q, [u]) == [TxIn(q.txid(u.txid), 24)] by { assert [u][1..] == []; }
    OneInput(Swept(q, p).inputs, stand.inputs);
    TwoSizes(PaymentOf(q).recipient, stand.outputs[0]);
    AdvisedSweepBuilds(q, 0, p);
  }

  lemma OneInput(a: seq<TxIn>, b: seq<TxIn>)
    requires |a| == |b| == 1 && |a[0].txid| == |b[0].txid| == 32 && a[0].index == 24 && b[0].index == 0
    ensures InputsSize(a) == InputsSize(b) + 1
  {
    assert a[1..] == [] && b[1..] == [];
  }

  lemma TwoSizes(a: TxOut, b: TxOut)
    requires |a.address| == |b.address| && IntSize(a.lovelace) == IntSize(b.lovelace)
    ensures OutputsSize([a]) == OutputsSize([b])
  {
    assert [a][1..] == [] && [b][1..] == [];
  }

  // --- such a sweep, with mainnet's parameters --------------------------------

  const HELD := 10_000_000
  const KEPT := 165_545

  function LateCoin(): Utxo { Utxo("coin", 24, HELD * LOVELACE_TO_UNITS, "own", None, true, 0) }

  /** Ten ADA in one coin, the last of 25 outputs of its transaction, swept to a 57-byte address. */
  function LateRequest(): Request {
    Request(LongestAddress(), (HELD - KEPT) * LOVELACE_TO_UNITS, NoMemo, [LateCoin()], LongestAddress(), true,
            140_000_000, (id: string) => Cbor.BigEndian(0, 32), OneKeyWallet(), (raw: seq<byte>) => "", ZeroDigest)
  }

  lemma StandInSize()
    ensures SizeWithoutFee(StandIn(HELD, 1, 0), 1) == 226
  {
    var i, o := TxIn(Cbor.BigEndian(0, 32), 0), TxOut(LongestAddress(), HELD);
    assert StandInInputs(0) == [] && StandInInputs(1) == [i];
    assert InputsSize([i]) == 36 by { assert [i][1..] == []; }
    assert OutputsSize([o]) == 65 by { assert [o][1..] == []; }
  }

  lemma KeptIsLeast(size: nat, p: ProtocolParams)
    requires size == 226 && p.minFeeA == 44 && p.minFeeB == 155_381
    ensures LeastFee(size, p) == KEPT
  {
    ExactIsLeast(size, p, KEPT, MinFee(size + 1, p));
  }

  lemma LateAdvice(p: ProtocolParams)
    requires p == MAINNET
    ensures SweepSendAmount(HELD * LOVELACE_TO_UNITS, 1, 0, p)
         == Ok(((HELD - KEPT) * LOVELACE_TO_UNITS, KEPT * LOVELACE_TO_UNITS))
  {
    StandInSize();
    KeptIsLeast(SizeWithoutFee(StandIn(HELD, 1, 0), 1), p);
    WholeLovelace(HELD);
  }

  lemma LateIsAdvised()
    ensures SweepsAdvised(LateRequest(), 0, MAINNET)
  {
    LateAdvice(MAINNET);
    assert Total([LateCoin()]) == HELD * LOVELACE_TO_UNITS by { assert [LateCoin()][1..] == []; }
  }

  /** The advice is followed to the lovelace, and refused. */
  lemma LateSweepRefused()
    ensures SweepsAdvised(LateRequest(), 0, MAINNET) && Built(LateRequest(), MAINNET).Err?
  {
    LateIsAdvised();
    assert Total([LateCoin()]) == HELD * LOVELACE_TO_UNITS by { assert [LateCoin()][1..] == []; }
    AdvisedSweepRefused(LateRequest(), MAINNET);
  }
}
