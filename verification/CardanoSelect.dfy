/** Cardano coin selection and building: a change output must hold min-ADA, or be folded into the fee. */
module CardanoSelect {
  import opened Common
  import opened CardanoBytes
  import opened CardanoRead
  import opened CardanoSigners
  import opened CardanoTx
  import opened Chain
  import opened Coins
  import CardanoFees
  import Rates
  import Sorting

  /** The coins' worth in lovelace; coin values are in hundredths of one. */
  function Lovelace(us: seq<Utxo>): int { Rates.FloorDiv(Total(us), LOVELACE_TO_UNITS) }

  /** The required fee of a shape: the chosen coins and the outputs. */
  type FeeFor = (seq<Utxo>, seq<TxOut>) -> nat

  /** What is being paid: the recipient, and the address change goes to. */
  datatype Payment = Payment(recipient: TxOut, changeRaw: seq<byte>)

  function Back(pay: Payment, lovelace: int): TxOut { TxOut(pay.changeRaw, lovelace) }

  function FeeWithChange(chosen: seq<Utxo>, pay: Payment, feeFor: FeeFor, lovelace: int): nat {
    feeFor(chosen, [pay.recipient, Back(pay, lovelace)])
  }

  /** The change and its fee: sized on the largest change there could be, then once more on the real one. */
  function Settle(chosen: seq<Utxo>, pay: Payment, feeFor: FeeFor): (nat, int) {
    var left := Lovelace(chosen) - pay.recipient.lovelace;
    var fee := FeeWithChange(chosen, pay, feeFor, Lovelace(chosen));
    var exact := FeeWithChange(chosen, pay, feeFor, left - fee);
    if FeeWithChange(chosen, pay, feeFor, left - exact) <= exact then (exact, left - exact) else (fee, left - fee)
  }

  /** Change that holds min-ADA. */
  predicate WorthKeeping(pay: Payment, change: int, p: ProtocolParams) {
    change >= MinLovelace(Back(pay, change), p)
  }

  /** Change worth an output. */
  predicate Viable(chosen: seq<Utxo>, pay: Payment, feeFor: FeeFor, p: ProtocolParams) {
    WorthKeeping(pay, Settle(chosen, pay, feeFor).1, p)
  }

  /** Enough for the recipient and the fee of a transaction without change. */
  predicate CoversAlone(chosen: seq<Utxo>, pay: Payment, feeFor: FeeFor) {
    Lovelace(chosen) - pay.recipient.lovelace >= feeFor(chosen, [pay.recipient])
  }

  /** The first of the prefixes of 1, ..., `n` coins with viable change. */
  function FirstViable(pool: seq<Utxo>, pay: Payment, feeFor: FeeFor, p: ProtocolParams, n: nat): (r: Option<nat>)
    requires n <= |pool|
    ensures r.Some? ==> 1 <= r.value <= n
  {
    if n == 0 then None
    else
      var before := FirstViable(pool, pay, feeFor, p, n - 1);
      if before.Some? then before else if Viable(pool[..n], pay, feeFor, p) then Some(n) else None
  }

  /** The first of those that covers the payment without change. */
  function FirstCovering(pool: seq<Utxo>, pay: Payment, feeFor: FeeFor, n: nat): (r: Option<nat>)
    requires n <= |pool|
    ensures r.Some? ==> 1 <= r.value <= n
  {
    if n == 0 then None
    else
      var before := FirstCovering(pool, pay, feeFor, n - 1);
      if before.Some? then before else if CoversAlone(pool[..n], pay, feeFor) then Some(n) else None
  }

  datatype Selected = Selected(chosen: seq<Utxo>, outputs: seq<TxOut>, fee: int)

  function WithChange(chosen: seq<Utxo>, pay: Payment, feeFor: FeeFor): Selected {
    var (fee, change) := Settle(chosen, pay, feeFor);
    Selected(chosen, [pay.recipient, Back(pay, change)], fee)
  }

  /** The whole leftover goes to the fee. */
  function Folded(chosen: seq<Utxo>, pay: Payment): Selected {
    Selected(chosen, [pay.recipient], Lovelace(chosen) - pay.recipient.lovelace)
  }

  /** The first prefix with viable change; failing any, the first that covers the payment at all. */
  function SelectAda(pool: seq<Utxo>, pay: Payment, feeFor: FeeFor, p: ProtocolParams): Result<Selected, string> {
    var viable := FirstViable(pool, pay, feeFor, p, |pool|);
    var covers := FirstCovering(pool, pay, feeFor, |pool|);
    if viable.Some? then Ok(WithChange(pool[..viable.value], pay, feeFor))
    else if covers.Some? then Ok(Folded(pool[..covers.value], pay))
    else Err("insufficient funds")
  }

  /** The part of the loop body that tries for change. */
  method TryChange(chosen: seq<Utxo>, pay: Payment, feeFor: FeeFor, p: ProtocolParams) returns (r: Option<Selected>)
    ensures r == if Viable(chosen, pay, feeFor, p) then Some(WithChange(chosen, pay, feeFor)) else None
  {
    var total := Lovelace(chosen);
    var left := total - pay.recipient.lovelace;
    var fee := feeFor(chosen, [pay.recipient, TxOut(pay.changeRaw, total)]);
    var change := TxOut(pay.changeRaw, left - fee);
    var exact := feeFor(chosen, [pay.recipient, change]);
    var settled := TxOut(pay.changeRaw, left - exact);
    if feeFor(chosen, [pay.recipient, settled]) <= exact {
      fee, change := exact, settled;
    }
    if change.lovelace < MinLovelace(change, p) {
      return None;
    }
    return Some(Selected(chosen, [pay.recipient, change], fee));
  }

  /** The state of the loop after `k` coins: nothing viable yet, and the first prefix to fold, if any. */
  predicate Seen(pool: seq<Utxo>, pay: Payment, feeFor: FeeFor, p: ProtocolParams, k: nat, fold: Option<Selected>) {
    && k <= |pool| && FirstViable(pool, pay, feeFor, p, k).None?
    && var covers := FirstCovering(pool, pay, feeFor, k);
       fold == if covers.None? then None else Some(Folded(pool[..covers.value], pay))
  }

  lemma {:induction false} ViableStays(pool: seq<Utxo>, pay: Payment, feeFor: FeeFor, p: ProtocolParams, k: nat, n: nat)
    requires k <= n <= |pool| && FirstViable(pool, pay, feeFor, p, k).Some?
    ensures FirstViable(pool, pay, feeFor, p, n) == FirstViable(pool, pay, feeFor, p, k)
    decreases n
  {
    if k < n { ViableStays(pool, pay, feeFor, p, k, n - 1); }
  }

  lemma SeenViable(pool: seq<Utxo>, pay: Payment, feeFor: FeeFor, p: ProtocolParams, k: nat)
    requires k < |pool| && FirstViable(pool, pay, feeFor, p, k).None? && Viable(pool[..k + 1], pay, feeFor, p)
    ensures SelectAda(pool, pay, feeFor, p) == Ok(WithChange(pool[..k + 1], pay, feeFor))
  {
    assert FirstViable(pool, pay, feeFor, p, k + 1) == Some(k + 1);
    ViableStays(pool, pay, feeFor, p, k + 1, |pool|);
  }

  lemma SeenMore(pool: seq<Utxo>, pay: Payment, feeFor: FeeFor, p: ProtocolParams, k: nat, fold: Option<Selected>)
    requires k < |pool| && Seen(pool, pay, feeFor, p, k, fold) && !Viable(pool[..k + 1], pay, feeFor, p)
    ensures Seen(pool, pay, feeFor, p, k + 1,
                 if fold.None? && CoversAlone(pool[..k + 1], pay, feeFor) then Some(Folded(pool[..k + 1], pay))
                 else fold)
  {
  }

  /** Both searches find the first prefix there is, if there is any. */
  lemma {:induction false} FirstViableMeans(pool: seq<Utxo>, pay: Payment, feeFor: FeeFor, p: ProtocolParams, n: nat)
    requires n <= |pool|
    ensures var v := FirstViable(pool, pay, feeFor, p, n);
            && (v.Some? ==> Viable(pool[..v.value], pay, feeFor, p))
            && (forall k :: 1 <= k <= n && (v.None? || k < v.value) ==> !Viable(pool[..k], pay, feeFor, p))
  {
    if n > 0 { FirstViableMeans(pool, pay, feeFor, p, n - 1); }
  }

  lemma {:induction false} FirstCoveringMeans(pool: seq<Utxo>, pay: Payment, feeFor: FeeFor, n: nat)
    requires n <= |pool|
    ensures var c := FirstCovering(pool, pay, feeFor, n);
            && (c.Some? ==> CoversAlone(pool[..c.value], pay, feeFor))
            && (forall k :: 1 <= k <= n && (c.None? || k < c.value) ==> !CoversAlone(pool[..k], pay, feeFor))
  {
    if n > 0 { FirstCoveringMeans(pool, pay, feeFor, n - 1); }
  }

  /** `_select`. */
  method SelectCoinsAda(pool: seq<Utxo>, pay: Payment, feeFor: FeeFor, p: ProtocolParams)
    returns (r: Result<Selected, string>)
    ensures r == SelectAda(pool, pay, feeFor, p)
  {
    var fold: Option<Selected> := None;
    var chosen: seq<Utxo> := [];
    for k := 0 to |pool|
      invariant chosen == pool[..k] && Seen(pool, pay, feeFor, p, k, fold)
    {
      chosen := chosen + [pool[k]];
      assert chosen == pool[..k + 1];
      var change := TryChange(chosen, pay, feeFor, p);
      if change.Some? {
        SeenViable(pool, pay, feeFor, p, k);
        return Ok(change.value);
      }
      SeenMore(pool, pay, feeFor, p, k, fold);
      if fold.None? && CoversAlone(chosen, pay, feeFor) {
        fold := Some(Folded(chosen, pay));
      }
    }
    if fold.None? {
      return Err("insufficient funds");
    }
    return Ok(fold.value);
  }

  // --- what selection guarantees --------------------------------------------

  /** Larger change never makes for a smaller fee. */
  ghost predicate GrowsWithChange(feeFor: FeeFor) {
    forall chosen: seq<Utxo>, pay: Payment, x: nat, y: nat ::
      x <= y ==> FeeWithChange(chosen, pay, feeFor, x) <= FeeWithChange(chosen, pay, feeFor, y)
  }

  function Paid(outs: seq<TxOut>): int { if outs == [] then 0 else outs[0].lovelace + Paid(outs[1..]) }

  lemma TwoOutputs(a: TxOut, b: TxOut)
    ensures Paid([a, b]) == a.lovelace + b.lovelace && OutputsSize([a, b]) == OutputSize(a) + OutputSize(b)
  {
    assert [a, b][1..] == [b] && [b][1..] == [];
    assert Paid([b]) == b.lovelace && OutputsSize([b]) == OutputSize(b);
  }

  /** Change that is an amount at all is paid for by the fee returned with it, and adds up. */
  lemma SettlePays(chosen: seq<Utxo>, pay: Payment, feeFor: FeeFor)
    requires GrowsWithChange(feeFor) && pay.recipient.lovelace >= 0 && Settle(chosen, pay, feeFor).1 >= 0
    ensures var (fee, change) := Settle(chosen, pay, feeFor);
            && Lovelace(chosen) == pay.recipient.lovelace + change + fee
            && fee >= FeeWithChange(chosen, pay, feeFor, change)
  {
    var total := Lovelace(chosen);
    var left := total - pay.recipient.lovelace;
    var fee := FeeWithChange(chosen, pay, feeFor, total);
    if left - fee >= 0 {
      assert FeeWithChange(chosen, pay, feeFor, left - fee) <= fee;
    }
  }

  /**
   * When sizing on the real change settles, the fee is exactly the required fee
   * of the outputs returned; otherwise it is the first, larger one, and the
   * change that the second would leave needs more than it.
   */
  lemma SettleIsExact(chosen: seq<Utxo>, pay: Payment, feeFor: FeeFor)
    requires GrowsWithChange(feeFor) && pay.recipient.lovelace >= 0
    requires Lovelace(chosen) - pay.recipient.lovelace >= FeeWithChange(chosen, pay, feeFor, Lovelace(chosen))
    ensures var (fee, change) := Settle(chosen, pay, feeFor);
            var left := Lovelace(chosen) - pay.recipient.lovelace;
            var first := FeeWithChange(chosen, pay, feeFor, Lovelace(chosen));
            var second := FeeWithChange(chosen, pay, feeFor, left - first);
            if FeeWithChange(chosen, pay, feeFor, left - second) <= second
            then fee == FeeWithChange(chosen, pay, feeFor, change) && fee <= first
            else fee == first && second < FeeWithChange(chosen, pay, feeFor, left - second)
  {
    var total := Lovelace(chosen);
    var left := total - pay.recipient.lovelace;
    var first := FeeWithChange(chosen, pay, feeFor, total);
    var second := FeeWithChange(chosen, pay, feeFor, left - first);
    assert second <= first;
    assert second <= FeeWithChange(chosen, pay, feeFor, left - second);
  }

  /** A leftover that pays its own worst-case fee and the min-ADA of the whole total makes viable change. */
  lemma EnoughLeftIsViable(chosen: seq<Utxo>, pay: Payment, feeFor: FeeFor, p: ProtocolParams)
    requires GrowsWithChange(feeFor) && pay.recipient.lovelace >= 0
    requires Lovelace(chosen) - pay.recipient.lovelace
          >= FeeWithChange(chosen, pay, feeFor, Lovelace(chosen)) + MinLovelace(Back(pay, Lovelace(chosen)), p)
    ensures Viable(chosen, pay, feeFor, p)
  {
    var total := Lovelace(chosen);
    var left := total - pay.recipient.lovelace;
    var fee := FeeWithChange(chosen, pay, feeFor, total);
    assert FeeWithChange(chosen, pay, feeFor, left - fee) <= fee;
    var change := Settle(chosen, pay, feeFor).1;
    MinLovelaceMono(pay, change, total, p);
  }

  lemma MinLovelaceMono(pay: Payment, x: nat, y: nat, p: ProtocolParams)
    requires x <= y
    ensures MinLovelace(Back(pay, x), p) <= MinLovelace(Back(pay, y), p)
  {
    IntSizeMono(x, y);
    Rates.Scale(UTXO_ENTRY_OVERHEAD + OutputSize(Back(pay, x)), UTXO_ENTRY_OVERHEAD + OutputSize(Back(pay, y)),
                p.coinsPerUtxoByte);
  }

  /** What `_select` promises of its answer: value conserved, the shape's own fee reached, change worth keeping. */
  ghost predicate Sound(s: Selected, pool: seq<Utxo>, pay: Payment, feeFor: FeeFor, p: ProtocolParams) {
    && s.chosen != [] && s.chosen <= pool
    && Lovelace(s.chosen) == Paid(s.outputs) + s.fee
    && s.fee >= feeFor(s.chosen, s.outputs)
    && (s.outputs == [pay.recipient]
        || exists change :: s.outputs == [pay.recipient, Back(pay, change)] && WorthKeeping(pay, change, p))
  }

  lemma SelectSound(pool: seq<Utxo>, pay: Payment, feeFor: FeeFor, p: ProtocolParams)
    requires GrowsWithChange(feeFor) && pay.recipient.lovelace >= 0 && SelectAda(pool, pay, feeFor, p).Ok?
    ensures Sound(SelectAda(pool, pay, feeFor, p).value, pool, pay, feeFor, p)
  {
    var viable := FirstViable(pool, pay, feeFor, p, |pool|);
    FirstViableMeans(pool, pay, feeFor, p, |pool|);
    FirstCoveringMeans(pool, pay, feeFor, |pool|);
    var s := SelectAda(pool, pay, feeFor, p).value;
    assert [pay.recipient][1..] == [];
    if viable.Some? {
      var change := Settle(s.chosen, pay, feeFor).1;
      SettlePays(s.chosen, pay, feeFor);
      assert s.outputs == [pay.recipient, Back(pay, change)];
      TwoOutputs(pay.recipient, Back(pay, change));
    }
  }

  /**
   * Selection fails exactly when no prefix has viable change or covers the
   * payment alone, and folds exactly when none has viable change: then, on every
   * prefix, less was left than a change output's worst-case fee and min-ADA.
   */
  lemma SelectExactly(pool: seq<Utxo>, pay: Payment, feeFor: FeeFor, p: ProtocolParams)
    requires GrowsWithChange(feeFor) && pay.recipient.lovelace >= 0
    ensures var r := SelectAda(pool, pay, feeFor, p);
            && (r.Err? <==> forall k :: 1 <= k <= |pool| ==>
                  !Viable(pool[..k], pay, feeFor, p) && !CoversAlone(pool[..k], pay, feeFor))
            && (r.Ok? ==> (r.value.outputs == [pay.recipient] <==>
                  forall k :: 1 <= k <= |pool| ==> !Viable(pool[..k], pay, feeFor, p)))
            && (r.Ok? && r.value.outputs == [pay.recipient] ==> forall k :: 1 <= k <= |pool| ==>
                  var total := Lovelace(pool[..k]);
                  total - pay.recipient.lovelace
                    < FeeWithChange(pool[..k], pay, feeFor, total) + MinLovelace(Back(pay, total), p))
  {
    FirstViableMeans(pool, pay, feeFor, p, |pool|);
    FirstCoveringMeans(pool, pay, feeFor, |pool|);
    forall k | 1 <= k <= |pool| && !Viable(pool[..k], pay, feeFor, p)
      ensures var total := Lovelace(pool[..k]);
              total - pay.recipient.lovelace
                < FeeWithChange(pool[..k], pay, feeFor, total) + MinLovelace(Back(pay, total), p)
    {
      var total := Lovelace(pool[..k]);
      var enough := FeeWithChange(pool[..k], pay, feeFor, total) + MinLovelace(Back(pay, total), p);
      if total - pay.recipient.lovelace >= enough {
        EnoughLeftIsViable(pool[..k], pay, feeFor, p);
      }
    }
  }

  // --- building -------------------------------------------------------------

  datatype Memo = NoMemo | TextMemo(text: string) | BinaryMemo(bytes: seq<byte>)

  /** A spend to build. Converting addresses and ids between text and bytes is not part of this model. */
  datatype Request = Request(vaultRaw: seq<byte>, amount: int, memo: Memo, utxos: seq<Utxo>, changeRaw: seq<byte>,
                             sweep: bool, ttl: int, txid: string -> seq<byte>, wallet: Wallet,
                             text: ToText, digest: Hash)

  function InputsOf(q: Request, chosen: seq<Utxo>): seq<TxIn> {
    if chosen == [] then [] else [TxIn(q.txid(chosen[0].txid), chosen[0].vout)] + InputsOf(q, chosen[1..])
  }

  function Unsigned(q: Request, chosen: seq<Utxo>, outputs: seq<TxOut>, fee: int): UnsignedTx {
    UnsignedTx(InputsOf(q, chosen), outputs, fee, q.ttl, if q.memo.TextMemo? then Some(q.memo.text) else None)
  }

  function FeeOf(q: Request, p: ProtocolParams): FeeFor {
    (chosen: seq<Utxo>, outputs: seq<TxOut>) => RequiredFee(Unsigned(q, chosen, outputs, 0), Witnesses(chosen), p)
  }

  function PaymentOf(q: Request): Payment {
    Payment(TxOut(q.vaultRaw, Rates.FloorDiv(q.amount, LOVELACE_TO_UNITS)), q.changeRaw)
  }

  function Pool(us: seq<Utxo>): seq<Utxo> { Sorting.Sort(us, (a: Utxo, b: Utxo) => a.value >= b.value) }

  /** The sizes of two transactions that differ in the change alone. */
  lemma SizeWithChange(q: Request, chosen: seq<Utxo>, pay: Payment, x: nat, y: nat, witnesses: nat)
    requires x <= y
    ensures SizeWithoutFee(Unsigned(q, chosen, [pay.recipient, Back(pay, x)], 0), witnesses)
         <= SizeWithoutFee(Unsigned(q, chosen, [pay.recipient, Back(pay, y)], 0), witnesses)
  {
    IntSizeMono(x, y);
    TwoOutputs(pay.recipient, Back(pay, x));
    TwoOutputs(pay.recipient, Back(pay, y));
  }

  lemma FeeOfGrows(q: Request, p: ProtocolParams)
    ensures GrowsWithChange(FeeOf(q, p))
  {
    forall chosen: seq<Utxo>, pay: Payment, x: nat, y: nat | x <= y
      ensures FeeWithChange(chosen, pay, FeeOf(q, p), x) <= FeeWithChange(chosen, pay, FeeOf(q, p), y)
    {
      var w := Witnesses(chosen);
      SizeWithChange(q, chosen, pay, x, y, w);
      LeastFeeMono(SizeWithoutFee(Unsigned(q, chosen, [pay.recipient, Back(pay, x)], 0), w),
                   SizeWithoutFee(Unsigned(q, chosen, [pay.recipient, Back(pay, y)], 0), w), p);
    }
  }

  /** Without its witnesses a transaction is no longer than with them. */
  lemma UnsignedLength(tx: UnsignedTx, w: nat, h: Hash)
    ensures |Serialize(tx, [], h)| <= SerializedSize(tx, w)
  {
    SizeIsLength(tx, [], h);
    FewerWitnesses(tx, 0, w);
  }

  /** A transaction within the size limit has a view: what it says it pays, and its fee. */
  lemma ViewOf(tx: UnsignedTx, w: nat, p: ProtocolParams, h: Hash, text: ToText)
    requires SerializedSize(tx, w) <= p.maxTxSize
    ensures NeutralView(Serialize(tx, [], h), h, text)
         == Ok((NeutralOutputs(tx.outputs, text) + DataEntry(MemoAsRead(tx.memo)), tx.fee * LOVELACE_TO_UNITS))
  {
    UnsignedLength(tx, w, h);
    NeutralViewOf(tx, [], h, text);
  }

  /** A built spend, and what it pays and its fee in the gate's terms. */
  datatype AdaBuilt = AdaBuilt(tx: UnsignedTx, chosen: seq<Utxo>, keys: seq<seq<byte>>, outputs: seq<TxOutput>,
                               fee: int)

  /** Which coins, outputs and fee the spend gets. */
  function Chosen(q: Request, p: ProtocolParams): Result<Selected, string> {
    var pay, pool, feeFor := PaymentOf(q), Pool(q.utxos), FeeOf(q, p);
    if q.memo.BinaryMemo? then Err("a binary memo has no ADA route")
    else if q.amount % LOVELACE_TO_UNITS != 0 then Err("finer than a lovelace")
    else if pay.recipient.lovelace < MinLovelace(pay.recipient, p) then Err("below the minimum ADA")
    else if q.sweep then
      var s := Folded(pool, pay);
      if s.fee < feeFor(pool, s.outputs) then Err("below the minimum fee") else Ok(s)
    else SelectAda(pool, pay, feeFor, p)
  }

  /**
   * The transaction of that choice, within the size limit, and the keys that own
   * its inputs. What the gate sees is read back from the bytes by the method
   * below; here it is said outright.
   */
  function Built(q: Request, p: ProtocolParams): Result<AdaBuilt, string> {
    var s :- Chosen(q, p);
    var tx := Unsigned(q, s.chosen, s.outputs, s.fee);
    if SerializedSize(tx, Witnesses(s.chosen)) > p.maxTxSize then Err("the tx would be over the size limit")
    else
      var seen := NeutralOutputs(tx.outputs, q.text) + DataEntry(MemoAsRead(tx.memo));
      if !OwnsAll(q.wallet, s.chosen) then Err("refusing to sign")
      else Ok(AdaBuilt(tx, s.chosen, Keys(q.wallet, s.chosen), seen, s.fee * LOVELACE_TO_UNITS))
  }

  /** `build_unsigned_swap`. */
  method BuildUnsignedSwap(q: Request, p: ProtocolParams) returns (r: Result<AdaBuilt, string>)
    ensures r == Built(q, p)
  {
    if q.memo.BinaryMemo? {
      return Err("a binary memo has no ADA route");
    }
    if q.amount % LOVELACE_TO_UNITS != 0 {
      return Err("finer than a lovelace");
    }
    var pay := PaymentOf(q);
    if pay.recipient.lovelace < MinLovelace(pay.recipient, p) {
      return Err("below the minimum ADA");
    }
    var pool := Pool(q.utxos);
    var s: Selected;
    if q.sweep {
      s := Folded(pool, pay);
      if s.fee < FeeOf(q, p)(pool, s.outputs) {
        return Err("below the minimum fee");
      }
    } else {
      s :- SelectCoinsAda(pool, pay, FeeOf(q, p), p);
    }
    var tx := Unsigned(q, s.chosen, s.outputs, s.fee);
    if SerializedSize(tx, Witnesses(s.chosen)) > p.maxTxSize {
      return Err("the tx would be over the size limit");
    }
    var view := NeutralView(Serialize(tx, [], q.digest), q.digest, q.text);
    ViewOf(tx, Witnesses(s.chosen), p, q.digest, q.text);
    var keys :- SigningKeys(q.wallet, s.chosen);
    return Ok(AdaBuilt(tx, s.chosen, keys, view.value.0, view.value.1));
  }

  /** What the gate is given is what the bytes without witnesses read back as. */
  lemma BuiltIsReadBack(q: Request, p: ProtocolParams)
    requires Built(q, p).Ok?
    ensures var b := Built(q, p).value;
            NeutralView(Serialize(b.tx, [], q.digest), q.digest, q.text) == Ok((b.outputs, b.fee))
  {
    var b := Built(q, p).value;
    ViewOf(b.tx, Witnesses(b.chosen), p, q.digest, q.text);
  }

  /**
   * A built transaction spends exactly what it pays and its fee, its fee reaches
   * the least that pays for its own shape, and every output holds min-ADA.
   */
  lemma BuiltIsSound(q: Request, p: ProtocolParams)
    requires Chosen(q, p).Ok?
    ensures var s := Chosen(q, p).value;
            var tx, w := Unsigned(q, s.chosen, s.outputs, s.fee), Witnesses(s.chosen);
            && Lovelace(s.chosen) == Paid(tx.outputs) + s.fee
            && s.fee >= RequiredFee(tx, w, p)
            && (forall k :: 0 <= k < |tx.outputs| ==> tx.outputs[k].lovelace >= MinLovelace(tx.outputs[k], p))
  {
    var pay, pool, feeFor := PaymentOf(q), Pool(q.utxos), FeeOf(q, p);
    var s := Chosen(q, p).value;
    assert [pay.recipient][1..] == [];
    if !q.sweep {
      FeeOfGrows(q, p);
      SelectSound(pool, pay, feeFor, p);
    }
    SameRequired(q, s, p);
  }

  lemma BuiltPays(q: Request, p: ProtocolParams)
    requires Built(q, p).Ok?
    ensures var b := Built(q, p).value;
            var w := Witnesses(b.chosen);
            var r := RequiredFee(b.tx, w, p);
            && b.tx.fee >= r
            && ((!exists n: nat :: CardanoFees.Gap(r, p.minFeeA, n)) ==> Pays(b.tx, w, p, b.tx.fee))
            && (CardanoFees.Roomy(p) ==> Pays(b.tx, w, p, b.tx.fee))
  {
    var b := Built(q, p).value;
    BuiltIsSound(q, p);
    CardanoFees.LargerFeesPay(b.tx, Witnesses(b.chosen), p);
    if CardanoFees.Roomy(p) {
      CardanoFees.RoomyFeesPay(b.tx, Witnesses(b.chosen), p);
    }
  }

  lemma FewerWitnesses(tx: UnsignedTx, v: nat, w: nat)
    requires v <= w
    ensures SizeWithoutFee(tx, v) <= SizeWithoutFee(tx, w)
  {
  }

  lemma FewerPay(tx: UnsignedTx, v: nat, w: nat, p: ProtocolParams, f: nat)
    requires v <= w && Pays(tx, w, p, f)
    ensures Pays(tx, v, p, f)
  {
    FewerWitnesses(tx, v, w);
    NeededLess(SizeWithoutFee(tx, v), SizeWithoutFee(tx, w), p, f);
  }

  /**
   * The bytes as the keys sign them stay within the size limit, and the fee
   * reaches their price whenever no length boundary lies in a gap above the
   * required fee; under parameters like mainnet's none ever does, so it always
   * reaches it.
   */
  lemma SignedPays(q: Request, p: ProtocolParams, ws: seq<Witness>)
    requires Built(q, p).Ok? && !KeysCollide(q.wallet, Built(q, p).value.chosen)
    requires Signed(ws) && |ws| == |Built(q, p).value.keys|
    ensures var b := Built(q, p).value;
            var r := RequiredFee(b.tx, Witnesses(b.chosen), p);
            var length := |Serialize(b.tx, ws, q.digest)|;
            && b.tx.fee >= 0 && length <= p.maxTxSize
            && ((!exists n: nat :: CardanoFees.Gap(r, p.minFeeA, n)) ==> b.tx.fee >= p.minFeeA * length + p.minFeeB)
            && (CardanoFees.Roomy(p) ==> b.tx.fee >= p.minFeeA * length + p.minFeeB)
  {
    var b := Built(q, p).value;
    var w := Witnesses(b.chosen);
    BuiltPays(q, p);
    KeysAtMostWitnesses(q.wallet, b.chosen);
    FewerWitnesses(b.tx, |ws|, w);
    SizeIsLength(b.tx, ws, q.digest);
    if Pays(b.tx, w, p, b.tx.fee) {
      FewerPay(b.tx, |ws|, w, p, b.tx.fee);
      PaysMeans(b.tx, ws, q.digest, p, b.tx.fee);
    }
  }

  /** The fee a transaction carries is not part of what its required fee depends on. */
  lemma SameRequired(q: Request, s: Selected, p: ProtocolParams)
    ensures RequiredFee(Unsigned(q, s.chosen, s.outputs, s.fee), Witnesses(s.chosen), p)
            == FeeOf(q, p)(s.chosen, s.outputs)
  {
  }

  lemma OnePool(u: Utxo)
    ensures Pool([u]) == [u]
  {
    assert [u][1..] == [];
    assert Pool([]) == [];
  }

  lemma OneAddress(u: Utxo)
    ensures Witnesses([u]) == 1
  {
    assert (set v | v in [u] :: v.address) == {u.address};
  }
}
