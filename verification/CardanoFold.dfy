/** A fold that cannot pay: its leftover is the first fee with a longer encoding, and not enough for the longer one. */
module CardanoFold {
  import opened Common
  import opened CardanoBytes
  import opened CardanoRead
  import opened CardanoTx
  import opened CardanoSelect
  import opened CardanoSigners
  import opened CardanoSweep
  import opened Coins
  import CardanoFees
  import Cbor

  const PAID := 2_000_000
  const LEFT := 0x1_0000

  function FoldingCoin(): Utxo {
    Utxo("coin", 0, (PAID + LEFT) * LOVELACE_TO_UNITS, "own", None, true, 0)
  }

  /** One coin worth the amount and 65536 lovelace more; every address has 57 bytes and every id 32. */
  function FoldingRequest(): Request {
    Request(LongestAddress(), PAID * LOVELACE_TO_UNITS, NoMemo, [FoldingCoin()], LongestAddress(), false,
            140_000_000, (id: string) => Cbor.BigEndian(0, 32), OneKeyWallet(), (raw: seq<byte>) => "", ZeroDigest)
  }

  /** Mainnet's parameters, but for the price of a transaction. */
  function FoldingParams(): ProtocolParams { ProtocolParams(44, 55_454, 4_310, 16_384) }

  function Recipient(): TxOut { TxOut(LongestAddress(), PAID) }

  function FoldedTx(): UnsignedTx { Unsigned(FoldingRequest(), [FoldingCoin()], [Recipient()], LEFT) }

  lemma SizeOfFold(fee: int)
    ensures SizeWithoutFee(Unsigned(FoldingRequest(), [FoldingCoin()], [Recipient()], fee), 1) == 226
  {
    var q, u := FoldingRequest(), FoldingCoin();
    assert [u][1..] == [];
    assert InputsOf(q, [u]) == [TxIn(q.txid("coin"), 0)];
    assert InputsSize([TxIn(q.txid("coin"), 0)]) == 36 by { assert [TxIn(q.txid("coin"), 0)][1..] == []; }
    assert OutputsSize([Recipient()]) == 65 by { assert [Recipient()][1..] == []; }
  }

  /** The fold needs 65530 lovelace; with a change output, whatever it holds, more than the leftover. */
  lemma RequiredOfFold(size: nat, p: ProtocolParams)
    requires size == 226 && p.minFeeA == 44 && p.minFeeB == 55_454
    ensures LeastFee(size, p) == 65_530
  {
    CardanoFees.ExactIsLeast(size, p, 65_530, MinFee(size + 1, p));
  }

  lemma ChangeNeedsMore(change: int)
    ensures var q, feeFor := FoldingRequest(), FeeOf(FoldingRequest(), FoldingParams());
            FeeWithChange([FoldingCoin()], PaymentOf(q), feeFor, change) > LEFT
  {
    var q, p, u := FoldingRequest(), FoldingParams(), FoldingCoin();
    var back := Back(PaymentOf(q), change);
    var tx := Unsigned(q, [u], [Recipient(), back], 0);
    OneAddress(u);
    SizeOfFold(0);
    TwoOutputs(Recipient(), back);
    assert OutputsSize([Recipient()]) == OutputSize(Recipient()) by { assert [Recipient()][1..] == []; }
    assert SizeWithoutFee(tx, 1) == 226 + OutputSize(back);
    CardanoFees.LeastFeeAtLeast(SizeWithoutFee(tx, 1), p);
  }

  /** A single coin that covers the payment alone, and whose change would be negative, is folded. */
  lemma OneCoinFolds(u: Utxo, pay: Payment, feeFor: FeeFor, p: ProtocolParams)
    requires CardanoSelect.Settle([u], pay, feeFor).1 < 0 && CoversAlone([u], pay, feeFor)
    ensures SelectAda([u], pay, feeFor, p) == Ok(Folded([u], pay))
  {
    assert [u][..1] == [u];
    assert FirstViable([u], pay, feeFor, p, 0).None? && FirstCovering([u], pay, feeFor, 0).None?;
  }

  lemma OneCoinChosen(q: Request, u: Utxo, p: ProtocolParams, s: Selected)
    requires q.utxos == [u] && !q.sweep && q.memo == NoMemo && q.amount % LOVELACE_TO_UNITS == 0
    requires PaymentOf(q).recipient.lovelace >= MinLovelace(PaymentOf(q).recipient, p)
    requires SelectAda([u], PaymentOf(q), FeeOf(q, p), p) == Ok(s)
    ensures Chosen(q, p) == Ok(s)
  {
    OnePool(u);
  }

  lemma FeeOfFold()
    ensures FeeOf(FoldingRequest(), FoldingParams())([FoldingCoin()], [Recipient()]) == 65_530
  {
    OneAddress(FoldingCoin());
    SizeOfFold(0);
    RequiredOfFold(226, FoldingParams());
  }

  lemma FoldIsChosen()
    ensures Chosen(FoldingRequest(), FoldingParams()) == Ok(Selected([FoldingCoin()], [Recipient()], LEFT))
  {
    var q, p, u := FoldingRequest(), FoldingParams(), FoldingCoin();
    FeeOfFold();
    WorthOfCoin();
    ChangeIsNegative();
    OneCoinFolds(u, PaymentOf(q), FeeOf(q, p), p);
    OneCoinChosen(q, u, p, Folded([u], PaymentOf(q)));
  }

  lemma WorthOfCoin()
    ensures Lovelace([FoldingCoin()]) == PAID + LEFT && PaymentOf(FoldingRequest()).recipient == Recipient()
  {
    assert [FoldingCoin()][1..] == [];
  }

  lemma ChangeIsNegative()
    ensures var q, feeFor := FoldingRequest(), FeeOf(FoldingRequest(), FoldingParams());
            CardanoSelect.Settle([FoldingCoin()], PaymentOf(q), feeFor).1 < 0
  {
    var q, p, u := FoldingRequest(), FoldingParams(), FoldingCoin();
    var left := Lovelace([u]) - PAID;
    WorthOfCoin();
    ChangeNeedsMore(Lovelace([u]));
    ChangeNeedsMore(left - FeeWithChange([u], PaymentOf(q), FeeOf(q, p), Lovelace([u])));
  }

  lemma FoldIsBuilt(tx: UnsignedTx)
    requires tx == FoldedTx()
    ensures var built := Built(FoldingRequest(), FoldingParams());
            built.Ok? && built.value.tx == tx && built.value.keys == [[]]
  {
    FoldIsChosen();
    OneAddress(FoldingCoin());
    SizeOfFold(LEFT);
    OneKey(FoldingRequest().wallet, FoldingCoin());
    ChosenIsBuilt(FoldingRequest(), FoldingParams(), Selected([FoldingCoin()], [Recipient()], LEFT), tx, 231);
  }

  lemma ChosenIsBuilt(q: Request, p: ProtocolParams, s: Selected, tx: UnsignedTx, size: nat)
    requires Chosen(q, p) == Ok(s) && tx == Unsigned(q, s.chosen, s.outputs, s.fee) && OwnsAll(q.wallet, s.chosen)
    requires SerializedSize(tx, Witnesses(s.chosen)) == size <= p.maxTxSize
    ensures Built(q, p).Ok? && Built(q, p).value.tx == tx && Built(q, p).value.keys == Keys(q.wallet, s.chosen)
  {
  }

  lemma OneKey(w: Wallet, u: Utxo)
    ensures Keys(w, [u]) == [KeyOf(w, u)]
  {
    assert [u][..0] == [];
  }

  /**
   * A request the builder accepts and folds, whose transaction, signed by its
   * one key, falls short of the minimum fee for its own size: 65536 lovelace is
   * five bytes where the required 65530 is three, and two bytes cost 88.
   */
  lemma FoldFallsShort()
    ensures var built := Built(FoldingRequest(), FoldingParams());
            built.Ok? && built.value.tx == FoldedTx() && |built.value.keys| == 1
    ensures FoldedTx().fee == LEFT && !Pays(FoldedTx(), 1, FoldingParams(), LEFT)
  {
    FoldIsBuilt(FoldedTx());
    SizeOfFold(LEFT);
  }
}
